/** The rows of the backend's store: users, password-reset tokens, likes,
    saved posts and comments, with the field defaults, the uniqueness
    constraints the schema declares, and the like and comment counts a
    post reports. */
module Models {
  import opened Common

  type Id = int
  /** An instant, as a number of seconds. */
  type Time = int

  const DefaultRole: string := "etudiant"
  /** `max_length` of the token column. */
  const TokenMaxLength: nat := 255

  /** `password` holds the stored hash. */
  datatype User = User(id: Id, username: string, email: string, password: string, role: string, isStaff: bool)

  datatype Token = Token(id: Id, token: string, createdAt: Time, expiresAt: Time, userId: Id, isUsed: bool)

  datatype Like = Like(post: Id, user: Id)

  datatype SavedPost = SavedPost(post: Id, user: Id)

  datatype Comment = Comment(id: Id, post: Id, user: Id, content: string)

  /** A token row as inserted: `is_used` takes its default. */
  function NewToken(id: Id, token: string, createdAt: Time, expiresAt: Time, userId: Id): (t: Token)
    ensures !t.isUsed
    ensures t.id == id && t.token == token && t.userId == userId
    ensures t.createdAt == createdAt && t.expiresAt == expiresAt
  {
    Token(id, token, createdAt, expiresAt, userId, false)
  }

  /** A user row as the registration serializer builds it: the role is the
      one given, or "etudiant" when none is; new users are not staff. */
  function NewUser(id: Id, username: string, email: string, passwordHash: string, role: Option<string>): (u: User)
    ensures role.None? ==> u.role == DefaultRole
    ensures role.Some? ==> u.role == role.value
    ensures !u.isStaff
    ensures u.id == id && u.username == username && u.email == email && u.password == passwordHash
  {
    User(id, username, email, passwordHash, if role.Some? then role.value else DefaultRole, false)
  }

  // ---------------------------------------------------------------------
  // Uniqueness constraints

  predicate UserIdsUnique(users: seq<User>) {
    forall i, j | 0 <= i < j < |users| :: users[i].id != users[j].id
  }

  /** `username` and `email` are both declared unique. */
  predicate UserKeysUnique(users: seq<User>) {
    forall i, j | 0 <= i < j < |users| ::
      users[i].username != users[j].username && users[i].email != users[j].email
  }

  /** `unique_together ('post', 'user')` on likes and on saved posts. */
  predicate NoDuplicates<T(==)>(s: seq<T>) {
    forall i, j | 0 <= i < j < |s| :: s[i] != s[j]
  }

  /** A user may join the table when no other row has its id, username or
      email. */
  predicate Insertable(users: seq<User>, u: User) {
    forall i | 0 <= i < |users| ::
      users[i].id != u.id && users[i].username != u.username && users[i].email != u.email
  }

  lemma InsertKeepsUsersUnique(users: seq<User>, u: User)
    requires UserIdsUnique(users) && UserKeysUnique(users) && Insertable(users, u)
    ensures UserIdsUnique(users + [u]) && UserKeysUnique(users + [u])
  {
    var t := users + [u];
    forall i, j | 0 <= i < j < |t|
      ensures t[i].id != t[j].id
      ensures t[i].username != t[j].username && t[i].email != t[j].email
    {
      if j == |users| {
        assert t[i] == users[i];
      }
    }
  }

  /** Replacing one user's row by a row with the same id whose username and
      email no other row uses keeps every constraint. */
  lemma ReplaceKeepsUsersUnique(users: seq<User>, k: nat, u: User)
    requires k < |users| && u.id == users[k].id
    requires UserIdsUnique(users) && UserKeysUnique(users)
    requires forall i | 0 <= i < |users| && i != k ::
               users[i].username != u.username && users[i].email != u.email
    ensures UserIdsUnique(users[k := u]) && UserKeysUnique(users[k := u])
  {
  }

  lemma {:induction false} AppendKeepsNoDuplicates<T>(s: seq<T>, x: T)
    requires NoDuplicates(s) && x !in s
    ensures NoDuplicates(s + [x])
  {
    var t := s + [x];
    forall i, j | 0 <= i < j < |t| ensures t[i] != t[j] {
      if j == |s| {
        assert t[i] == s[i];
      } else {
        assert t[i] == s[i] && t[j] == s[j];
      }
    }
  }

  /** Deleting a row of a table without duplicates leaves no copy of it and
      no duplicates. */
  lemma {:induction false} RemoveKeepsNoDuplicates<T>(s: seq<T>, k: nat)
    requires k < |s| && NoDuplicates(s)
    ensures NoDuplicates(s[..k] + s[k + 1..])
    ensures s[k] !in s[..k] + s[k + 1..]
  {
    var t := s[..k] + s[k + 1..];
    forall i | 0 <= i < |t| ensures t[i] != s[k] {
      if i < k { assert t[i] == s[i]; } else { assert t[i] == s[i + 1]; }
    }
    forall i, j | 0 <= i < j < |t| ensures t[i] != t[j] {
      var i' := if i < k then i else i + 1;
      var j' := if j < k then j else j + 1;
      assert t[i] == s[i'] && t[j] == s[j'];
    }
  }

  // ---------------------------------------------------------------------
  // Counts

  /** `post.num_likes()`: the number of like rows of that post. */
  function NumLikes(likes: seq<Like>, post: Id): (n: nat)
    ensures n <= |likes|
  {
    if likes == [] then 0
    else (if likes[0].post == post then 1 else 0) + NumLikes(likes[1..], post)
  }

  /** `post.num_comments()`: the number of comment rows of that post. */
  function NumComments(comments: seq<Comment>, post: Id): (n: nat)
    ensures n <= |comments|
  {
    if comments == [] then 0
    else (if comments[0].post == post then 1 else 0) + NumComments(comments[1..], post)
  }

  lemma {:induction false} NumLikesConcat(a: seq<Like>, b: seq<Like>, post: Id)
    ensures NumLikes(a + b, post) == NumLikes(a, post) + NumLikes(b, post)
  {
    if a == [] {
      assert a + b == b;
    } else {
      assert (a + b)[1..] == a[1..] + b;
      NumLikesConcat(a[1..], b, post);
    }
  }

  lemma {:induction false} NumCommentsConcat(a: seq<Comment>, b: seq<Comment>, post: Id)
    ensures NumComments(a + b, post) == NumComments(a, post) + NumComments(b, post)
  {
    if a == [] {
      assert a + b == b;
    } else {
      assert (a + b)[1..] == a[1..] + b;
      NumCommentsConcat(a[1..], b, post);
    }
  }

  /** Inserting a like raises its post's count by one and leaves every
      other post's count alone. */
  lemma NumLikesAfterInsert(likes: seq<Like>, l: Like, post: Id)
    ensures NumLikes(likes + [l], post) == NumLikes(likes, post) + (if l.post == post then 1 else 0)
  {
    NumLikesConcat(likes, [l], post);
  }

  /** Deleting the like row at `k` lowers its post's count by one and leaves
      every other post's count alone. */
  lemma NumLikesAfterDelete(likes: seq<Like>, k: nat, post: Id)
    requires k < |likes|
    ensures NumLikes(likes[..k] + likes[k + 1..], post)
              == NumLikes(likes, post) - (if likes[k].post == post then 1 else 0)
  {
    assert likes == likes[..k] + ([likes[k]] + likes[k + 1..]);
    NumLikesConcat(likes[..k], [likes[k]] + likes[k + 1..], post);
    NumLikesConcat([likes[k]], likes[k + 1..], post);
    NumLikesConcat(likes[..k], likes[k + 1..], post);
  }

  lemma NumCommentsAfterInsert(comments: seq<Comment>, c: Comment, post: Id)
    ensures NumComments(comments + [c], post)
              == NumComments(comments, post) + (if c.post == post then 1 else 0)
  {
    NumCommentsConcat(comments, [c], post);
  }

  lemma NumCommentsAfterDelete(comments: seq<Comment>, k: nat, post: Id)
    requires k < |comments|
    ensures NumComments(comments[..k] + comments[k + 1..], post)
              == NumComments(comments, post) - (if comments[k].post == post then 1 else 0)
  {
    assert comments == comments[..k] + ([comments[k]] + comments[k + 1..]);
    NumCommentsConcat(comments[..k], [comments[k]] + comments[k + 1..], post);
    NumCommentsConcat([comments[k]], comments[k + 1..], post);
    NumCommentsConcat(comments[..k], comments[k + 1..], post);
  }

  /** Editing a comment's text changes no post's count. */
  lemma NumCommentsAfterEdit(comments: seq<Comment>, k: nat, content: string, post: Id)
    requires k < |comments|
    ensures NumComments(comments[k := comments[k].(content := content)], post)
              == NumComments(comments, post)
  {
    var c := comments[k].(content := content);
    assert comments == comments[..k] + ([comments[k]] + comments[k + 1..]);
    assert comments[k := c] == comments[..k] + ([c] + comments[k + 1..]);
    NumCommentsConcat(comments[..k], [comments[k]] + comments[k + 1..], post);
    NumCommentsConcat([comments[k]], comments[k + 1..], post);
    NumCommentsConcat(comments[..k], [c] + comments[k + 1..], post);
    NumCommentsConcat([c], comments[k + 1..], post);
  }

  // ---------------------------------------------------------------------
  // Lookups

  /** Position of the first row equal to `x`, if any. */
  function IndexOf<T(==)>(s: seq<T>, x: T): (r: Option<nat>)
    ensures r.None? <==> x !in s
    ensures r.Some? ==> r.value < |s| && s[r.value] == x && x !in s[..r.value]
  {
    if s == [] then None
    else if s[0] == x then Some(0)
    else match IndexOf(s[1..], x)
      case None => None
      case Some(i) =>
        assert s[..i + 1] == [s[0]] + s[1..][..i];
        Some(i + 1)
  }
}
