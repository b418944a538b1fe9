/** A post card: the comment list it keeps in sync with the comment cards,
    the like and save buttons with their in-flight guards, and the rule that
    decides whether the owner menu is shown. */
module PostCard {
  import opened Common

  /** A comment as the card holds it; only the id matters to the card. */
  datatype CommentItem = CommentItem(id: int, content: string)

  // ---------------------------------------------------------------------
  // Comment list

  /** The map callback of `handleCommentUpdated`. */
  function ReplaceWith(updated: CommentItem): CommentItem -> CommentItem {
    (c: CommentItem) => if c.id == updated.id then updated else c
  }

  /** `handleCommentUpdated`: every entry with the updated comment's id is
      replaced by it; the others, the length and the order are kept. */
  function ReplaceComment(comments: seq<CommentItem>, updated: CommentItem): (r: seq<CommentItem>)
    ensures |r| == |comments|
    ensures forall i | 0 <= i < |comments| && comments[i].id == updated.id :: r[i] == updated
    ensures forall i | 0 <= i < |comments| && comments[i].id != updated.id :: r[i] == comments[i]
  {
    Map(comments, ReplaceWith(updated))
  }

  /** The filter callback of `handleCommentDeleted`. */
  function OtherId(id: int): CommentItem -> bool {
    (c: CommentItem) => c.id != id
  }

  /** `handleCommentDeleted`: the entries with that id go, the others stay. */
  function DeleteComment(comments: seq<CommentItem>, id: int): (r: seq<CommentItem>)
    ensures forall i | 0 <= i < |r| :: r[i].id != id && r[i] in comments
    ensures forall i | 0 <= i < |comments| && comments[i].id != id :: comments[i] in r
  {
    Filter(comments, OtherId(id))
  }

  /** Deletion keeps the surviving comments in their order. */
  lemma DeleteCommentConcat(a: seq<CommentItem>, b: seq<CommentItem>, id: int)
    ensures DeleteComment(a + b, id) == DeleteComment(a, id) + DeleteComment(b, id)
  {
    FilterConcat(a, b, OtherId(id));
  }

  /** Deleting an id no comment has changes nothing. */
  lemma DeleteAbsentComment(comments: seq<CommentItem>, id: int)
    requires forall i | 0 <= i < |comments| :: comments[i].id != id
    ensures DeleteComment(comments, id) == comments
  {
    FilterKeepsAll(comments, OtherId(id));
  }

  /** Applying the same update twice is the same as applying it once. */
  lemma ReplaceCommentIdempotent(comments: seq<CommentItem>, updated: CommentItem)
    ensures ReplaceComment(ReplaceComment(comments, updated), updated) == ReplaceComment(comments, updated)
  {
    var once := ReplaceComment(comments, updated);
    var twice := ReplaceComment(once, updated);
    forall i | 0 <= i < |comments| ensures twice[i] == once[i] {
      if comments[i].id == updated.id {
        assert once[i] == updated;
      }
    }
  }

  /** An update followed by the deletion of that id leaves what the deletion
      alone leaves: the edit is not resurrected. */
  lemma {:induction false} DeleteAfterReplace(comments: seq<CommentItem>, updated: CommentItem)
    ensures DeleteComment(ReplaceComment(comments, updated), updated.id)
              == DeleteComment(comments, updated.id)
  {
    if comments != [] {
      var c := comments[0];
      var rest := comments[1..];
      var c' := ReplaceWith(updated)(c);
      assert comments == [c] + rest;
      assert ReplaceComment(comments, updated) == [c'] + ReplaceComment(rest, updated);
      DeleteCommentConcat([c'], ReplaceComment(rest, updated), updated.id);
      DeleteCommentConcat([c], rest, updated.id);
      FilterSingle(c', OtherId(updated.id));
      FilterSingle(c, OtherId(updated.id));
      DeleteAfterReplace(rest, updated);
    }
  }

  // ---------------------------------------------------------------------
  // Labels and the owner menu

  /** The word after the like count. */
  function LikeWord(count: int): (w: string)
    ensures w == "Like" <==> count == 1
    ensures w == "Like" || w == "Likes"
  {
    if count == 1 then "Like" else "Likes"
  }

  const ProfilePath: string := "/profile/"

  /** The owner menu's test: the path is "/profile/" or "/profile/" followed
      by the stored user's id; with no stored id the template produces
      "/profile/undefined". */
  predicate IsOwnerPath(path: string, storedUserId: Option<int>) {
    path == ProfilePath
    || path == ProfilePath + (if storedUserId.Some? then IntToString(storedUserId.value) else "undefined")
  }

  /** On another user's profile page the owner menu is shown exactly when the
      page's id is the stored one, and never when no id is stored. */
  lemma OwnerMenuOnlyOnOwnProfile(pageId: int, storedUserId: Option<int>)
    ensures IsOwnerPath(ProfilePath + IntToString(pageId), storedUserId) <==> storedUserId == Some(pageId)
  {
    var path := ProfilePath + IntToString(pageId);
    var tail := IntToString(pageId);
    assert path[|ProfilePath|..] == tail;
    ParseIntOfIntToString(pageId);
    assert path != ProfilePath by {
      assert |tail| > 0 by {
        if pageId < 0 { } else { }
      }
    }
    if storedUserId.Some? {
      var mine := ProfilePath + IntToString(storedUserId.value);
      assert mine[|ProfilePath|..] == IntToString(storedUserId.value);
      if path == mine {
        IntToStringInjective(pageId, storedUserId.value);
      }
    } else {
      var none := ProfilePath + "undefined";
      assert none[|ProfilePath|] == 'u';
      assert path[|ProfilePath|] == tail[0];
      assert tail[0] == '-' || IsDigit(tail[0]);
    }
  }

  // ---------------------------------------------------------------------
  // The card's state

  /** What a like or unlike request came back with: the post's new count,
      or a failure with the server's `message`, if any. */
  datatype LikeOutcome = LikeDone(numLikes: int) | LikeFailed(message: Option<string>)

  /** What a save or unsave request came back with. */
  datatype SaveOutcome = SaveDone | SaveFailed(message: Option<string>)

  const LikeFailureText: string := "Failed to update like. Please try again."
  const SaveFailureText: string := "Failed to update saved status. Please try again."
  const UnsavedText: string := "Post removed from saved items"
  const SavedText: string := "Publication enregistrée avec succes "

  class PostCardState {
    var liked: bool
    var saved: bool
    var likeCount: int
    var isLoading: bool
    var isSaveLoading: bool
    var comments: seq<CommentItem>
    /** `liked` as the in-flight `handleLike` read it when clicked: it chose
        between unlike and like, and its success branch sets the opposite. */
    var likedAtClick: bool
    /** `saved` as the in-flight `handleSave` read it when clicked. */
    var savedAtClick: bool

    /** Mounting: the count starts at `post.num_likes || 0`. */
    constructor(numLikes: Option<int>)
      ensures !liked && !saved && !isLoading && !isSaveLoading && comments == []
      ensures likeCount == if numLikes.Some? then numLikes.value else 0
      ensures !likedAtClick && !savedAtClick
    {
      liked := false;
      saved := false;
      likeCount := if numLikes.Some? && numLikes.value != 0 then numLikes.value else 0;
      isLoading := false;
      isSaveLoading := false;
      comments := [];
      likedAtClick := false;
      savedAtClick := false;
    }

    /** `checkLikeStatus` answered: the server's flag and count replace the
        card's; a failed request is only logged. */
    method LikeStatusFetched(status: Option<(bool, int)>)
      modifies this
      ensures status.Some? ==> liked == status.value.0 && likeCount == status.value.1
      ensures status.None? ==> liked == old(liked) && likeCount == old(likeCount)
      ensures saved == old(saved) && isLoading == old(isLoading) && isSaveLoading == old(isSaveLoading)
      ensures comments == old(comments)
      ensures likedAtClick == old(likedAtClick) && savedAtClick == old(savedAtClick)
    {
      if status.Some? {
        liked := status.value.0;
        likeCount := status.value.1;
      }
    }

    /** `checkSaveStatus` answered: the server's flag replaces the card's; a
        failed request is only logged. */
    method SaveStatusFetched(status: Option<bool>)
      modifies this
      ensures saved == if status.Some? then status.value else old(saved)
      ensures liked == old(liked) && likeCount == old(likeCount)
      ensures isLoading == old(isLoading) && isSaveLoading == old(isSaveLoading) && comments == old(comments)
      ensures likedAtClick == old(likedAtClick) && savedAtClick == old(savedAtClick)
    {
      if status.Some? {
        saved := status.value;
      }
    }

    /** `fetchComments` answered: the fetched list replaces the card's; a
        failed request is only logged. */
    method CommentsFetched(list: Option<seq<CommentItem>>)
      modifies this
      ensures comments == if list.Some? then list.value else old(comments)
      ensures liked == old(liked) && saved == old(saved) && likeCount == old(likeCount)
      ensures isLoading == old(isLoading) && isSaveLoading == old(isSaveLoading)
      ensures likedAtClick == old(likedAtClick) && savedAtClick == old(savedAtClick)
    {
      if list.Some? {
        comments := list.value;
      }
    }

    /** The start of `handleLike`: a no-op while a like request is in
        flight, otherwise the request starts. */
    method BeginLike() returns (started: bool)
      modifies this
      ensures started <==> !old(isLoading)
      ensures isLoading
      ensures likedAtClick == if started then old(liked) else old(likedAtClick)
      ensures liked == old(liked) && likeCount == old(likeCount)
      ensures saved == old(saved) && isSaveLoading == old(isSaveLoading) && comments == old(comments)
      ensures savedAtClick == old(savedAtClick)
    {
      if isLoading {
        return false;
      }
      isLoading := true;
      likedAtClick := liked;
      started := true;
    }

    /** The end of `handleLike`: on success `liked` becomes the opposite of
        the value read at the click (a status fetch may have landed since)
        and the count is the server's; on failure both stay and an alert shows the server's
        message or the fallback; the loading flag is cleared either way. */
    method FinishLike(outcome: LikeOutcome) returns (alert: Option<string>)
      modifies this
      ensures outcome.LikeDone? ==>
                liked == !old(likedAtClick) && likeCount == outcome.numLikes && alert == None
      ensures outcome.LikeFailed? ==>
                liked == old(liked) && likeCount == old(likeCount)
                && alert == Some(OrElse(outcome.message, LikeFailureText))
      ensures !isLoading
      ensures saved == old(saved) && isSaveLoading == old(isSaveLoading) && comments == old(comments)
      ensures likedAtClick == old(likedAtClick) && savedAtClick == old(savedAtClick)
    {
      alert := None;
      match outcome {
        case LikeDone(n) =>
          likeCount := n;
          liked := !likedAtClick;
        case LikeFailed(m) =>
          alert := Some(OrElse(m, LikeFailureText));
      }
      isLoading := false;
    }

    /** The start of `handleSave`, with its own in-flight guard. */
    method BeginSave() returns (started: bool)
      modifies this
      ensures started <==> !old(isSaveLoading)
      ensures isSaveLoading
      ensures savedAtClick == if started then old(saved) else old(savedAtClick)
      ensures likedAtClick == old(likedAtClick)
      ensures saved == old(saved)
      ensures liked == old(liked) && likeCount == old(likeCount) && isLoading == old(isLoading)
      ensures comments == old(comments)
    {
      if isSaveLoading {
        return false;
      }
      isSaveLoading := true;
      savedAtClick := saved;
      started := true;
    }

    /** The end of `handleSave`: success sets `saved` to the opposite of the
        value read at the click and toasts which way it went; failure keeps
        `saved` and toasts the error. */
    method FinishSave(outcome: SaveOutcome) returns (toast: string)
      modifies this
      ensures outcome.SaveDone? ==> saved == !old(savedAtClick)
      ensures outcome.SaveDone? && old(savedAtClick) ==> toast == UnsavedText
      ensures outcome.SaveDone? && !old(savedAtClick) ==> toast == SavedText
      ensures outcome.SaveFailed? ==>
                saved == old(saved) && toast == OrElse(outcome.message, SaveFailureText)
      ensures !isSaveLoading
      ensures liked == old(liked) && likeCount == old(likeCount) && isLoading == old(isLoading)
      ensures comments == old(comments)
      ensures likedAtClick == old(likedAtClick) && savedAtClick == old(savedAtClick)
    {
      match outcome {
        case SaveDone =>
          toast := if savedAtClick then UnsavedText else SavedText;
          saved := !savedAtClick;
        case SaveFailed(m) =>
          toast := OrElse(m, SaveFailureText);
      }
      isSaveLoading := false;
    }

    /** `handleCommentUpdated` on the card's list. */
    method CommentUpdated(updated: CommentItem)
      modifies this
      ensures comments == ReplaceComment(old(comments), updated)
      ensures liked == old(liked) && saved == old(saved) && likeCount == old(likeCount)
      ensures isLoading == old(isLoading) && isSaveLoading == old(isSaveLoading)
      ensures likedAtClick == old(likedAtClick) && savedAtClick == old(savedAtClick)
    {
      comments := ReplaceComment(comments, updated);
    }

    /** `handleCommentDeleted` on the card's list. */
    method CommentDeleted(id: int)
      modifies this
      ensures comments == DeleteComment(old(comments), id)
      ensures liked == old(liked) && saved == old(saved) && likeCount == old(likeCount)
      ensures isLoading == old(isLoading) && isSaveLoading == old(isSaveLoading)
      ensures likedAtClick == old(likedAtClick) && savedAtClick == old(savedAtClick)
    {
      comments := DeleteComment(comments, id);
    }
  }
}
