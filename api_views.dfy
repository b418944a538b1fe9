/** The backend's request handlers over the store: password reset and the
    reset-link request, login, profile update, likes, saved posts and
    comments. Each handler reads the request fields it uses as parameters;
    the store's tables are fields of `Database`. */
module Views {
  import opened Common
  import opened Models

  /** Lifetime of a reset link, in seconds. */
  const OneHour: int := 3600

  const OK: int := 200
  const Created: int := 201
  const BadRequest: int := 400
  const Unauthorized: int := 401
  const Forbidden: int := 403
  const NotFoundStatus: int := 404

  /** What a handler answers: a JSON body with a message (and, for the
      account views, a `success` flag), a serialized object, the framework's
      404 for a missing row, or a server error (an uncaught exception, or a
      handler that returns nothing). */
  datatype Reply =
    | Message(status: int, success: Option<bool>, text: string)
    | Payload(status: int)
    | NotFound
    | ServerError

  // ---------------------------------------------------------------------
  // Password reset

  predicate TokenMatches(t: Token, userId: Option<Id>, token: Option<string>) {
    userId.Some? && token.Some? && t.userId == userId.value && t.token == token.value
  }

  /** `Token.objects.filter(user_id=…, token=…).order_by('-created_at').first()`:
      the position of a matching row with the latest creation time (the
      earliest such row when several share it), or None when no row
      matches. */
  function LatestToken(tokens: seq<Token>, userId: Option<Id>, token: Option<string>): (r: Option<nat>)
    ensures r.None? <==> forall i | 0 <= i < |tokens| :: !TokenMatches(tokens[i], userId, token)
    ensures r.Some? ==> r.value < |tokens| && TokenMatches(tokens[r.value], userId, token)
    ensures r.Some? ==> forall i | 0 <= i < |tokens| && TokenMatches(tokens[i], userId, token) ::
                          tokens[i].createdAt <= tokens[r.value].createdAt
  {
    if tokens == [] then None
    else
      var k := |tokens| - 1;
      var best := LatestToken(tokens[..k], userId, token);
      assert forall i | 0 <= i < k :: tokens[..k][i] == tokens[i];
      if !TokenMatches(tokens[k], userId, token) then best
      else if best.Some? && tokens[k].createdAt <= tokens[best.value].createdAt then best
      else Some(k)
  }

  function TokenAt(tokens: seq<Token>, r: Option<nat>): Option<Token> {
    if r.Some? && r.value < |tokens| then Some(tokens[r.value]) else None
  }

  datatype ResetCheck = NoSuchToken | AlreadyUsed | Expired | Accepted

  /** The reset checks, in order: no token, then a used one, then one whose
      expiry lies before `now`. A token expiring exactly at `now` passes. */
  function CheckResetToken(t: Option<Token>, now: Time): (v: ResetCheck)
    ensures v == NoSuchToken <==> t.None?
    ensures v == AlreadyUsed <==> t.Some? && t.value.isUsed
    ensures v == Expired <==> t.Some? && !t.value.isUsed && t.value.expiresAt < now
    ensures v == Accepted <==> t.Some? && !t.value.isUsed && now <= t.value.expiresAt
  {
    if t.None? then NoSuchToken
    else if t.value.isUsed then AlreadyUsed
    else if t.value.expiresAt < now then Expired
    else Accepted
  }

  function ResetFailureText(v: ResetCheck): string {
    match v
    case NoSuchToken => "Invalid Password Reset Link!"
    case AlreadyUsed => "This reset link has already been used!"
    case Expired => "Password Reset Link has expired!"
    case Accepted => ""
  }

  /** A freshly issued link is accepted up to and including one hour after
      its creation, and refused as expired after that. */
  lemma FreshTokenLifetime(id: Id, digest: string, createdAt: Time, userId: Id, now: Time)
    ensures var t := NewToken(id, digest, createdAt, createdAt + OneHour, userId);
            (CheckResetToken(Some(t), now) == Accepted <==> now <= createdAt + OneHour)
            && (CheckResetToken(Some(t), now) == Expired <==> now > createdAt + OneHour)
  {
  }

  /** Once a reset has marked a token used, the same link is refused,
      whatever the time. */
  lemma UsedTokenRefused(t: Token, now: Time, later: Time)
    requires CheckResetToken(Some(t), now) == Accepted
    ensures CheckResetToken(Some(t.(isUsed := true)), later) == AlreadyUsed
  {
  }

  // ---------------------------------------------------------------------
  // Login

  function UserWithEmail(users: seq<User>, email: Option<string>): (r: Option<nat>)
    ensures r.None? <==> forall i | 0 <= i < |users| :: email != Some(users[i].email)
    ensures r.Some? ==> r.value < |users| && email == Some(users[r.value].email)
  {
    if email.None? then None else FirstWhere(users, (u: User) => u.email == email.value)
  }

  function UserWithId(users: seq<User>, id: Option<Id>): (r: Option<nat>)
    ensures r.None? <==> forall i | 0 <= i < |users| :: id != Some(users[i].id)
    ensures r.Some? ==> r.value < |users| && id == Some(users[r.value].id)
  {
    if id.None? then None else FirstWhere(users, (u: User) => u.id == id.value)
  }

  /** `tokenFor` names the user the access token is issued for. */
  datatype LoginReply = LoginReply(status: int, success: bool, message: string, tokenFor: Option<Id>)

  const InvalidCredentials: LoginReply := LoginReply(Unauthorized, false, "Invalid credentials!", None)

  /** `LoginView.post`; `checkPassword` is the framework's password check
      against the stored hash. */
  function Login(users: seq<User>, email: Option<string>, password: Option<string>,
                 checkPassword: (Option<string>, string) -> bool): (r: LoginReply)
    requires UserKeysUnique(users)
    ensures r.success <==> exists i | 0 <= i < |users| ::
              email == Some(users[i].email) && checkPassword(password, users[i].password)
    ensures r.success ==> r.status == OK && r.message == "Login successful!"
                          && r.tokenFor.Some? && email == Some(users[UserWithEmail(users, email).value].email)
                          && r.tokenFor.value == users[UserWithEmail(users, email).value].id
    ensures !r.success ==> r == InvalidCredentials
  {
    match UserWithEmail(users, email)
    case None => InvalidCredentials
    case Some(k) =>
      if checkPassword(password, users[k].password) then
        LoginReply(OK, true, "Login successful!", Some(users[k].id))
      else InvalidCredentials
  }

  /** An unknown e-mail and a wrong password are answered identically. */
  lemma LoginHidesWhichCheckFailed(users: seq<User>, unknown: Option<string>, known: string,
                                   p1: Option<string>, p2: Option<string>,
                                   checkPassword: (Option<string>, string) -> bool)
    requires UserKeysUnique(users)
    requires forall i | 0 <= i < |users| :: unknown != Some(users[i].email)
    requires exists i | 0 <= i < |users| :: users[i].email == known
    requires forall i | 0 <= i < |users| && users[i].email == known :: !checkPassword(p2, users[i].password)
    ensures Login(users, unknown, p1, checkPassword) == Login(users, Some(known), p2, checkPassword)
  {
  }

  // ---------------------------------------------------------------------
  // Profile update

  /** The writable profile fields a partial update may carry. */
  datatype UserPatch = UserPatch(username: Option<string>, email: Option<string>, role: Option<string>)

  function ApplyPatch(u: User, p: UserPatch): (v: User)
    ensures v.id == u.id && v.password == u.password && v.isStaff == u.isStaff
    ensures v.username == (if p.username.Some? then p.username.value else u.username)
    ensures v.email == (if p.email.Some? then p.email.value else u.email)
    ensures v.role == (if p.role.Some? then p.role.value else u.role)
  {
    User(u.id,
         if p.username.Some? then p.username.value else u.username,
         if p.email.Some? then p.email.value else u.email,
         u.password,
         if p.role.Some? then p.role.value else u.role,
         u.isStaff)
  }

  /** The serializer's uniqueness validators: another row already has the
      requested username or e-mail. */
  predicate PatchClashes(users: seq<User>, k: nat, p: UserPatch) {
    exists i | 0 <= i < |users| :: i != k &&
      ((p.username.Some? && users[i].username == p.username.value)
       || (p.email.Some? && users[i].email == p.email.value))
  }

  /** The profile-update permission: the owner or a staff member. */
  predicate MayEditProfile(requesterId: Id, requesterIsStaff: bool, ownerId: Id) {
    requesterId == ownerId || requesterIsStaff
  }

  // ---------------------------------------------------------------------
  // Comments

  predicate CommentIdsUnique(comments: seq<Comment>) {
    forall i, j | 0 <= i < j < |comments| :: comments[i].id != comments[j].id
  }

  /** The requester's own comment `commentId` on `post`. */
  function OwnComment(comments: seq<Comment>, post: Id, user: Id, commentId: Id): (r: Option<nat>)
    ensures r.None? <==> forall i | 0 <= i < |comments| ::
              !(comments[i].id == commentId && comments[i].post == post && comments[i].user == user)
    ensures r.Some? ==> r.value < |comments| && comments[r.value].id == commentId
                        && comments[r.value].post == post && comments[r.value].user == user
  {
    FirstWhere(comments, (c: Comment) => c.id == commentId && c.post == post && c.user == user)
  }

  /** Comment `commentId` on `post`, whoever wrote it. */
  function CommentOnPost(comments: seq<Comment>, post: Id, commentId: Id): (r: Option<nat>)
    ensures r.None? <==> forall i | 0 <= i < |comments| ::
              !(comments[i].id == commentId && comments[i].post == post)
    ensures r.Some? ==> r.value < |comments| && comments[r.value].id == commentId
                        && comments[r.value].post == post
  {
    FirstWhere(comments, (c: Comment) => c.id == commentId && c.post == post)
  }

  lemma {:induction false} AppendKeepsCommentIds(comments: seq<Comment>, c: Comment, bound: Id)
    requires CommentIdsUnique(comments)
    requires forall i | 0 <= i < |comments| :: comments[i].id < bound
    requires c.id == bound
    ensures CommentIdsUnique(comments + [c])
    ensures forall i | 0 <= i < |comments + [c]| :: (comments + [c])[i].id < bound + 1
  {
    var t := comments + [c];
    forall i, j | 0 <= i < j < |t| ensures t[i].id != t[j].id {
      assert t[i] == comments[i];
      if j < |comments| { assert t[j] == comments[j]; }
    }
  }

  lemma {:induction false} RemoveKeepsCommentIds(comments: seq<Comment>, k: nat, bound: Id)
    requires k < |comments| && CommentIdsUnique(comments)
    requires forall i | 0 <= i < |comments| :: comments[i].id < bound
    ensures CommentIdsUnique(comments[..k] + comments[k + 1..])
    ensures forall c | c in comments[..k] + comments[k + 1..] :: c.id < bound && c.id != comments[k].id
  {
    var t := comments[..k] + comments[k + 1..];
    forall i | 0 <= i < |t| ensures t[i] == comments[if i < k then i else i + 1] {
    }
  }

  // ---------------------------------------------------------------------
  // The store

  class Database {
    var users: seq<User>
    var tokens: seq<Token>
    var posts: set<Id>
    var likes: seq<Like>
    var saved: seq<SavedPost>
    var comments: seq<Comment>
    var nextTokenId: Id
    var nextCommentId: Id

    /** The schema's constraints, and auto-increment ids that stay ahead of
        every row. */
    predicate Valid()
      reads this
    {
      && UserIdsUnique(users) && UserKeysUnique(users)
      && NoDuplicates(likes) && NoDuplicates(saved)
      && CommentIdsUnique(comments)
      && (forall i | 0 <= i < |comments| :: comments[i].id < nextCommentId)
      && (forall i | 0 <= i < |tokens| :: tokens[i].id < nextTokenId)
    }

    twostate predicate AccountsUnchanged()
      reads this
    {
      users == old(users) && tokens == old(tokens) && nextTokenId == old(nextTokenId)
    }

    twostate predicate SocialUnchanged()
      reads this
    {
      likes == old(likes) && saved == old(saved)
      && comments == old(comments) && nextCommentId == old(nextCommentId)
    }

    constructor(users0: seq<User>, posts0: set<Id>)
      requires UserIdsUnique(users0) && UserKeysUnique(users0)
      ensures Valid()
      ensures users == users0 && posts == posts0
      ensures tokens == [] && likes == [] && saved == [] && comments == []
    {
      users := users0;
      posts := posts0;
      tokens := [];
      likes := [];
      saved := [];
      comments := [];
      nextTokenId := 1;
      nextCommentId := 1;
    }

    /** `ResetPasswordView.post`. `hashed` is the new password as the
        framework hashes it. On acceptance the token is marked used and the
        user's password replaced, but only when a user row has that id; else
        the handler returns nothing and no change is saved. */
    method ResetPassword(userId: Option<Id>, token: Option<string>, hashed: string, now: Time)
      returns (r: Reply)
      requires Valid()
      modifies this
      ensures Valid()
      ensures var idx := LatestToken(old(tokens), userId, token);
              var v := CheckResetToken(TokenAt(old(tokens), idx), now);
              var k := UserWithId(old(users), userId);
              && (v != Accepted ==>
                    r == Message(OK, Some(false), ResetFailureText(v)) && AccountsUnchanged())
              && (v == Accepted && k.None? ==> r == ServerError && AccountsUnchanged())
              && (v == Accepted && k.Some? ==>
                    && r == Message(OK, Some(true), "Password has been reset successfully!")
                    && users == old(users)[k.value := old(users)[k.value].(password := hashed)]
                    && tokens == old(tokens)[idx.value := old(tokens)[idx.value].(isUsed := true)]
                    && nextTokenId == old(nextTokenId))
      ensures posts == old(posts) && SocialUnchanged()
    {
      var idx := LatestToken(tokens, userId, token);
      var v := CheckResetToken(TokenAt(tokens, idx), now);
      if v != Accepted {
        return Message(OK, Some(false), ResetFailureText(v));
      }
      var k := UserWithId(users, userId);
      if k.None? {
        return ServerError;
      }
      users := users[k.value := users[k.value].(password := hashed)];
      tokens := tokens[idx.value := tokens[idx.value].(isUsed := true)];
      r := Message(OK, Some(true), "Password has been reset successfully!");
    }

    /** `ForgotPasswordView.post` at time `now`; `digest` is the token the
        handler derives (a SHA-512 hex digest). A reset link lives exactly
        one hour. An unknown e-mail is an uncaught lookup failure. */
    method ForgotPassword(email: Option<string>, digest: string, now: Time) returns (r: Reply)
      requires Valid()
      modifies this
      ensures Valid()
      ensures var k := UserWithEmail(old(users), email);
              && (k.None? ==> r == ServerError && tokens == old(tokens))
              && (k.Some? && |digest| > TokenMaxLength ==>
                    r == Message(OK, Some(false), "token: Ensure this field has no more than 255 characters.")
                    && tokens == old(tokens))
              && (k.Some? && |digest| <= TokenMaxLength ==>
                    && r == Message(OK, Some(true), "A password reset link has been sent to your email.")
                    && tokens == old(tokens) + [NewToken(old(nextTokenId), digest, now, now + OneHour,
                                                         old(users)[k.value].id)])
      ensures users == old(users) && posts == old(posts) && SocialUnchanged()
    {
      var k := UserWithEmail(users, email);
      if k.None? {
        return ServerError;
      }
      var createdAt := now;
      var expiresAt := createdAt + OneHour;
      if |digest| > TokenMaxLength {
        return Message(OK, Some(false), "token: Ensure this field has no more than 255 characters.");
      }
      tokens := tokens + [NewToken(nextTokenId, digest, createdAt, expiresAt, users[k.value].id)];
      nextTokenId := nextTokenId + 1;
      r := Message(OK, Some(true), "A password reset link has been sent to your email.");
    }

    /** `UsersDetailAPIView.patch` by the authenticated user `requesterId`
        on profile `pk`. `otherFieldsValid` stands for the serializer's
        remaining field validators. */
    method PatchUser(requesterId: Id, requesterIsStaff: bool, pk: Id, patch: UserPatch,
                     otherFieldsValid: bool) returns (r: Reply)
      requires Valid()
      modifies this
      ensures Valid()
      ensures var k := UserWithId(old(users), Some(pk));
              && (k.None? ==> r == NotFound && users == old(users))
              && (k.Some? && !MayEditProfile(requesterId, requesterIsStaff, pk) ==>
                    r == Message(Forbidden, None, "You don't have permission to update this profile.")
                    && users == old(users))
              && (k.Some? && MayEditProfile(requesterId, requesterIsStaff, pk)
                  && (PatchClashes(old(users), k.value, patch) || !otherFieldsValid) ==>
                    r == Payload(BadRequest) && users == old(users))
              && (k.Some? && MayEditProfile(requesterId, requesterIsStaff, pk)
                  && !PatchClashes(old(users), k.value, patch) && otherFieldsValid ==>
                    r == Payload(OK)
                    && users == old(users)[k.value := ApplyPatch(old(users)[k.value], patch)])
      ensures tokens == old(tokens) && nextTokenId == old(nextTokenId)
      ensures posts == old(posts) && SocialUnchanged()
    {
      var k := UserWithId(users, Some(pk));
      if k.None? {
        return NotFound;
      }
      var owner := users[k.value];
      if requesterId != owner.id && !requesterIsStaff {
        return Message(Forbidden, None, "You don't have permission to update this profile.");
      }
      if PatchClashes(users, k.value, patch) || !otherFieldsValid {
        return Payload(BadRequest);
      }
      ReplaceKeepsUsersUnique(users, k.value, ApplyPatch(owner, patch));
      users := users[k.value := ApplyPatch(owner, patch)];
      r := Payload(OK);
    }

    /** `LikePostAPIView.post`: a second like by the same user is refused;
        otherwise the like is recorded and the count after insertion is
        returned. */
    method LikePost(user: Id, post: Id) returns (r: Reply, numLikes: Option<nat>)
      requires Valid()
      modifies this
      ensures Valid()
      ensures post !in posts ==> r == NotFound && numLikes == None && likes == old(likes)
      ensures post in posts && Like(post, user) in old(likes) ==>
                r == Message(BadRequest, None, "You have already liked this post.")
                && numLikes == None && likes == old(likes)
      ensures post in posts && Like(post, user) !in old(likes) ==>
                && r == Message(OK, None, "Post liked successfully!")
                && likes == old(likes) + [Like(post, user)]
                && numLikes == Some(NumLikes(likes, post))
                && NumLikes(likes, post) == NumLikes(old(likes), post) + 1
      ensures posts == old(posts) && AccountsUnchanged()
      ensures saved == old(saved) && comments == old(comments) && nextCommentId == old(nextCommentId)
    {
      numLikes := None;
      if post !in posts {
        return NotFound, None;
      }
      var l := Like(post, user);
      if l in likes {
        return Message(BadRequest, None, "You have already liked this post."), None;
      }
      AppendKeepsNoDuplicates(likes, l);
      NumLikesAfterInsert(likes, l, post);
      likes := likes + [l];
      r := Message(OK, None, "Post liked successfully!");
      numLikes := Some(NumLikes(likes, post));
    }

    /** `LikePostAPIView.delete`: removes exactly the requester's like of
        the post, or answers 400 when there is none. */
    method UnlikePost(user: Id, post: Id) returns (r: Reply, numLikes: Option<nat>)
      requires Valid()
      modifies this
      ensures Valid()
      ensures post !in posts ==> r == NotFound && numLikes == None && likes == old(likes)
      ensures post in posts && Like(post, user) !in old(likes) ==>
                r == Message(BadRequest, None, "You haven't liked this post yet.")
                && numLikes == None && likes == old(likes)
      ensures post in posts && Like(post, user) in old(likes) ==>
                && r == Message(OK, None, "Post unliked successfully!")
                && Like(post, user) !in likes
                && (exists k | 0 <= k < |old(likes)| ::
                      old(likes)[k] == Like(post, user) && likes == old(likes[..k] + likes[k + 1..]))
                && numLikes == Some(NumLikes(likes, post))
                && NumLikes(likes, post) == NumLikes(old(likes), post) - 1
      ensures posts == old(posts) && AccountsUnchanged()
      ensures saved == old(saved) && comments == old(comments) && nextCommentId == old(nextCommentId)
    {
      numLikes := None;
      if post !in posts {
        return NotFound, None;
      }
      var l := Like(post, user);
      var k := IndexOf(likes, l);
      if k.None? {
        return Message(BadRequest, None, "You haven't liked this post yet."), None;
      }
      var i := k.value;
      RemoveKeepsNoDuplicates(likes, i);
      NumLikesAfterDelete(likes, i, post);
      likes := likes[..i] + likes[i + 1..];
      r := Message(OK, None, "Post unliked successfully!");
      numLikes := Some(NumLikes(likes, post));
    }

    /** `LikeStatusAPIView.get`: whether the requester likes the post, and
        its like count; None stands for the 404 of a missing post. */
    function LikeStatus(user: Id, post: Id): (r: Option<(bool, nat)>)
      reads this
      ensures post !in posts <==> r.None?
      ensures r.Some? ==> (r.value.0 <==> Like(post, user) in likes)
      ensures r.Some? ==> r.value.1 == NumLikes(likes, post)
    {
      if post !in posts then None else Some((Like(post, user) in likes, NumLikes(likes, post)))
    }

    /** `SavePostAPIView.post`: a second save by the same user is refused. */
    method SavePost(user: Id, post: Id) returns (r: Reply)
      requires Valid()
      modifies this
      ensures Valid()
      ensures post !in posts ==> r == NotFound && saved == old(saved)
      ensures post in posts && SavedPost(post, user) in old(saved) ==>
                r == Message(BadRequest, None, "You have already saved this post") && saved == old(saved)
      ensures post in posts && SavedPost(post, user) !in old(saved) ==>
                r == Message(Created, None, "Post saved successfully!")
                && saved == old(saved) + [SavedPost(post, user)]
      ensures posts == old(posts) && AccountsUnchanged()
      ensures likes == old(likes) && comments == old(comments) && nextCommentId == old(nextCommentId)
    {
      if post !in posts {
        return NotFound;
      }
      var s := SavedPost(post, user);
      if s in saved {
        return Message(BadRequest, None, "You have already saved this post");
      }
      AppendKeepsNoDuplicates(saved, s);
      saved := saved + [s];
      r := Message(Created, None, "Post saved successfully!");
    }

    /** `SavePostAPIView.delete`: removes exactly the requester's saved
        record of the post, or answers 400 when there is none. */
    method UnsavePost(user: Id, post: Id) returns (r: Reply)
      requires Valid()
      modifies this
      ensures Valid()
      ensures post !in posts ==> r == NotFound && saved == old(saved)
      ensures post in posts && SavedPost(post, user) !in old(saved) ==>
                r == Message(BadRequest, None, "You haven't saved this post") && saved == old(saved)
      ensures post in posts && SavedPost(post, user) in old(saved) ==>
                && r == Message(OK, None, "Post unsaved successfully!")
                && SavedPost(post, user) !in saved
                && (exists k | 0 <= k < |old(saved)| ::
                      old(saved)[k] == SavedPost(post, user) && saved == old(saved[..k] + saved[k + 1..]))
      ensures posts == old(posts) && AccountsUnchanged()
      ensures likes == old(likes) && comments == old(comments) && nextCommentId == old(nextCommentId)
    {
      if post !in posts {
        return NotFound;
      }
      var s := SavedPost(post, user);
      var k := IndexOf(saved, s);
      if k.None? {
        return Message(BadRequest, None, "You haven't saved this post");
      }
      var i := k.value;
      RemoveKeepsNoDuplicates(saved, i);
      saved := saved[..i] + saved[i + 1..];
      r := Message(OK, None, "Post unsaved successfully!");
    }

    /** `SaveStatusAPIView.get`; None stands for the 404 of a missing post. */
    function SaveStatus(user: Id, post: Id): (r: Option<bool>)
      reads this
      ensures post !in posts <==> r.None?
      ensures r.Some? ==> (r.value <==> SavedPost(post, user) in saved)
    {
      if post !in posts then None else Some(SavedPost(post, user) in saved)
    }

    /** `CommentListAPIView.post`: missing or empty content is refused;
        otherwise a comment by the requester is added under a fresh id. */
    method CreateComment(user: Id, post: Id, content: Option<string>) returns (r: Reply)
      requires Valid()
      modifies this
      ensures Valid()
      ensures post !in posts ==> r == NotFound && comments == old(comments)
      ensures post in posts && !Truthy(content) ==>
                r == Message(BadRequest, None, "Content is required.") && comments == old(comments)
      ensures post in posts && Truthy(content) ==>
                && r == Payload(Created)
                && comments == old(comments) + [Comment(old(nextCommentId), post, user, content.value)]
                && NumComments(comments, post) == NumComments(old(comments), post) + 1
      ensures posts == old(posts) && AccountsUnchanged()
      ensures likes == old(likes) && saved == old(saved)
    {
      if post !in posts {
        return NotFound;
      }
      if !Truthy(content) {
        return Message(BadRequest, None, "Content is required.");
      }
      var c := Comment(nextCommentId, post, user, content.value);
      AppendKeepsCommentIds(comments, c, nextCommentId);
      NumCommentsAfterInsert(comments, c, post);
      comments := comments + [c];
      nextCommentId := nextCommentId + 1;
      r := Payload(Created);
    }

    /** `CommentListAPIView.put`: only the requester's own comment on that
        post is edited; anything else is a 404 that changes nothing. */
    method UpdateComment(user: Id, post: Id, commentId: Id, content: Option<string>) returns (r: Reply)
      requires Valid()
      modifies this
      ensures Valid()
      ensures post !in posts ==> r == NotFound && comments == old(comments)
      ensures post in posts && !Truthy(content) ==>
                r == Message(BadRequest, None, "Content is required.") && comments == old(comments)
      ensures var k := OwnComment(old(comments), post, user, commentId);
              && (post in posts && Truthy(content) && k.None? ==>
                    r == Message(NotFoundStatus, None,
                                 "Comment not found or you don't have permission to update it.")
                    && comments == old(comments))
              && (post in posts && Truthy(content) && k.Some? ==>
                    r == Payload(OK)
                    && comments == old(comments)[k.value := old(comments)[k.value].(content := content.value)])
      ensures nextCommentId == old(nextCommentId)
      ensures posts == old(posts) && AccountsUnchanged()
      ensures likes == old(likes) && saved == old(saved)
    {
      if post !in posts {
        return NotFound;
      }
      if !Truthy(content) {
        return Message(BadRequest, None, "Content is required.");
      }
      var k := OwnComment(comments, post, user, commentId);
      if k.None? {
        return Message(NotFoundStatus, None, "Comment not found or you don't have permission to update it.");
      }
      var i := k.value;
      comments := comments[i := comments[i].(content := content.value)];
      r := Payload(OK);
    }

    /** `CommentListAPIView.delete`: a comment that is not on the post is
        the framework's 404; one written by somebody else is a 404 with a
        message; the requester's own is deleted. */
    method DeleteComment(user: Id, post: Id, commentId: Id) returns (r: Reply)
      requires Valid()
      modifies this
      ensures Valid()
      ensures post !in posts ==> r == NotFound && comments == old(comments)
      ensures post in posts && CommentOnPost(old(comments), post, commentId).None? ==>
                r == NotFound && comments == old(comments)
      ensures var k := OwnComment(old(comments), post, user, commentId);
              && (post in posts && CommentOnPost(old(comments), post, commentId).Some? && k.None? ==>
                    r == Message(NotFoundStatus, None, "Comment not found!") && comments == old(comments))
              && (post in posts && k.Some? ==>
                    r == Message(OK, None, "Comment deleted successfully!")
                    && comments == old(comments[..k.value] + comments[k.value + 1..])
                    && NumComments(comments, post) == NumComments(old(comments), post) - 1)
      ensures nextCommentId == old(nextCommentId)
      ensures posts == old(posts) && AccountsUnchanged()
      ensures likes == old(likes) && saved == old(saved)
    {
      if post !in posts {
        return NotFound;
      }
      var target := CommentOnPost(comments, post, commentId);
      if target.None? {
        return NotFound;
      }
      var k := OwnComment(comments, post, user, commentId);
      if k.None? {
        return Message(NotFoundStatus, None, "Comment not found!");
      }
      var i := k.value;
      RemoveKeepsCommentIds(comments, i, nextCommentId);
      NumCommentsAfterDelete(comments, i, post);
      comments := comments[..i] + comments[i + 1..];
      r := Message(OK, None, "Comment deleted successfully!");
    }
  }
}
