/** The form for adding members to a group: which users it offers, the ids
    it submits, and its expand, add and close transitions. */
module AddMembers {
  import opened Common
  import opened MultiSelect
  import opened GroupManager

  /** The filter callback of `fetchUsers`: not the stored user (an absent
      `user_id` excludes nobody) and not already a member. */
  function IsCandidate(currentUserId: Option<int>, memberIds: seq<int>): FetchedUser -> bool {
    (u: FetchedUser) => (currentUserId.None? || u.id != currentUserId.value) && u.id !in memberIds
  }

  /** The users the form may offer, in the order `/users` returned them. */
  function CandidateUsers(users: seq<FetchedUser>, currentUserId: Option<int>, memberIds: seq<int>)
    : (r: seq<FetchedUser>)
    ensures forall i | 0 <= i < |r| ::
              r[i] in users && r[i].id !in memberIds
              && (currentUserId.None? || r[i].id != currentUserId.value)
    ensures forall i | 0 <= i < |users| ::
              users[i].id !in memberIds && (currentUserId.None? || users[i].id != currentUserId.value)
              ==> users[i] in r
  {
    Filter(users, IsCandidate(currentUserId, memberIds))
  }

  lemma CandidateUsersConcat(a: seq<FetchedUser>, b: seq<FetchedUser>, currentUserId: Option<int>,
                             memberIds: seq<int>)
    ensures CandidateUsers(a + b, currentUserId, memberIds)
              == CandidateUsers(a, currentUserId, memberIds) + CandidateUsers(b, currentUserId, memberIds)
  {
    FilterConcat(a, b, IsCandidate(currentUserId, memberIds));
  }

  /** The options built from the candidates. */
  function CandidateOptions(users: seq<FetchedUser>, currentUserId: Option<int>, memberIds: seq<int>)
    : (r: seq<Choice>)
    ensures var c := CandidateUsers(users, currentUserId, memberIds);
            |r| == |c| && forall i | 0 <= i < |r| :: r[i] == UserChoice(c[i])
  {
    Map(CandidateUsers(users, currentUserId, memberIds), UserChoice)
  }

  /** Every offered option reads back as the id of a user who is neither a
      member nor the current user. */
  lemma OfferedIdsAreNewMembers(users: seq<FetchedUser>, currentUserId: Option<int>, memberIds: seq<int>)
    ensures var r := CandidateOptions(users, currentUserId, memberIds);
            forall i | 0 <= i < |r| ::
              exists u | u in users :: ParseInt(r[i].value) == Some(u.id) && u.id !in memberIds
                                       && (currentUserId.None? || u.id != currentUserId.value)
  {
    var c := CandidateUsers(users, currentUserId, memberIds);
    var r := CandidateOptions(users, currentUserId, memberIds);
    forall i | 0 <= i < |r|
      ensures exists u | u in users :: ParseInt(r[i].value) == Some(u.id) && u.id !in memberIds
                                       && (currentUserId.None? || u.id != currentUserId.value)
    {
      assert r[i] == UserChoice(c[i]);
      assert c[i] in users;
    }
  }

  const AddingText: string := "Ajout en cours..."

  /** The submit button is disabled with an empty selection or while
      adding. */
  predicate AddButtonDisabled(isAdding: bool, n: nat) {
    n == 0 || isAdding
  }

  /** The button's `disabled` flag and its text agree: disabled for lack of
      a selection it reads "Ajouter 0 membres"; enabled, it names the
      positive number of users a click submits. */
  lemma AddButtonLabelAgrees(isAdding: bool, n: nat)
    ensures AddButtonDisabled(isAdding, n) && !isAdding ==> AddLabel(isAdding, n) == "Ajouter 0 membres"
    ensures !AddButtonDisabled(isAdding, n) ==>
              n > 0 && AddLabel(isAdding, n) != AddingText && ParseInt(AddLabel(isAdding, n)[8..]) == Some(n)
  {
    if !isAdding && n == 0 {
      assert IntToString(0) == "0";
    }
  }

  /** The submit button's text: the progress text while adding, otherwise
      "Ajouter N membre", with an "s" exactly when N is not 1. */
  function AddLabel(isAdding: bool, n: nat): (r: string)
    ensures isAdding ==> r == AddingText
    ensures !isAdding ==> |r| > 8 && r[..8] == "Ajouter "
    ensures !isAdding ==> var rest := r[8..]; ParseInt(rest) == Some(n)
    ensures !isAdding ==> (r[|r| - 1] == 's' <==> n != 1)
  {
    if isAdding then AddingText
    else
      var tail := " membre" + PluralSuffix(n);
      ParseIntOfIntToStringThen(n, tail);
      var r := "Ajouter " + (IntToString(n) + tail);
      assert r[8..] == IntToString(n) + tail;
      r
  }

  class AddMembersForm {
    /** `user_id` of the stored user. */
    const currentUserId: Option<int>
    /** The ids of `existingMembers`. */
    const memberIds: seq<int>
    var isExpanded: bool
    var availableUsers: seq<Choice>
    var selectedUsers: seq<Choice>
    var isLoading: bool
    var isAdding: bool

    constructor(currentUserId: Option<int>, memberIds: seq<int>)
      ensures this.currentUserId == currentUserId && this.memberIds == memberIds
      ensures !isExpanded && availableUsers == [] && selectedUsers == [] && !isLoading && !isAdding
    {
      this.currentUserId := currentUserId;
      this.memberIds := memberIds;
      isExpanded := false;
      availableUsers := [];
      selectedUsers := [];
      isLoading := false;
      isAdding := false;
    }

    /** The "Ajouter des membres" button. */
    method Expand()
      modifies this
      ensures isExpanded
      ensures availableUsers == old(availableUsers) && selectedUsers == old(selectedUsers)
      ensures isLoading == old(isLoading) && isAdding == old(isAdding)
    {
      isExpanded := true;
    }

    /** The start of `fetchUsers`: nothing happens while the form is
        collapsed. */
    method BeginFetch() returns (started: bool)
      modifies this
      ensures started <==> old(isExpanded)
      ensures isLoading == (started || old(isLoading))
      ensures isExpanded == old(isExpanded) && availableUsers == old(availableUsers)
      ensures selectedUsers == old(selectedUsers) && isAdding == old(isAdding)
    {
      if !isExpanded {
        return false;
      }
      isLoading := true;
      started := true;
    }

    /** The end of `fetchUsers`: a list of users becomes the candidate
        options; a failure keeps the old ones; loading ends either way. */
    method FinishFetch(fetched: Option<seq<FetchedUser>>)
      modifies this
      ensures fetched.Some? ==> availableUsers == CandidateOptions(fetched.value, currentUserId, memberIds)
      ensures fetched.None? ==> availableUsers == old(availableUsers)
      ensures !isLoading
      ensures isExpanded == old(isExpanded) && selectedUsers == old(selectedUsers) && isAdding == old(isAdding)
    {
      if fetched.Some? {
        availableUsers := CandidateOptions(fetched.value, currentUserId, memberIds);
      }
      isLoading := false;
    }

    /** `handleUserSelectionChange`. */
    method SelectionChanged(options: seq<Choice>)
      modifies this
      ensures selectedUsers == options
      ensures isExpanded == old(isExpanded) && availableUsers == old(availableUsers)
      ensures isLoading == old(isLoading) && isAdding == old(isAdding)
    {
      selectedUsers := options;
    }

    /** The start of `handleAddMembers`: a no-op when nothing is selected,
        otherwise the selected values, parsed in selection order, are
        submitted. */
    method BeginAdd() returns (request: Option<seq<Option<int>>>)
      modifies this
      ensures |old(selectedUsers)| == 0 ==> request == None && isAdding == old(isAdding)
      ensures |old(selectedUsers)| > 0 ==> request == Some(ParseSelection(old(selectedUsers))) && isAdding
      ensures !old(AddDisabled()) ==> request.Some?
      ensures request.Some? ==> AddDisabled()
      ensures isExpanded == old(isExpanded) && availableUsers == old(availableUsers)
      ensures selectedUsers == old(selectedUsers) && isLoading == old(isLoading)
    {
      if |selectedUsers| == 0 {
        return None;
      }
      isAdding := true;
      request := Some(ParseSelection(selectedUsers));
    }

    /** The end of `handleAddMembers`: a success clears the selection,
        collapses the form and notifies the parent when it passed a
        callback; a failure keeps everything; the flag is cleared. */
    method FinishAdd(added: bool, hasCallback: bool) returns (notified: bool)
      modifies this
      ensures added ==> selectedUsers == [] && !isExpanded && notified == hasCallback
      ensures !added ==> selectedUsers == old(selectedUsers) && isExpanded == old(isExpanded) && !notified
      ensures !isAdding
      ensures availableUsers == old(availableUsers) && isLoading == old(isLoading)
    {
      notified := false;
      if added {
        selectedUsers := [];
        isExpanded := false;
        notified := hasCallback;
      }
      isAdding := false;
    }

    /** `handleClose`. */
    method Close()
      modifies this
      ensures !isExpanded && selectedUsers == []
      ensures availableUsers == old(availableUsers) && isLoading == old(isLoading) && isAdding == old(isAdding)
    {
      isExpanded := false;
      selectedUsers := [];
    }

    /** The submit button is disabled with an empty selection or while
        adding. */
    predicate AddDisabled()
      reads this
    {
      AddButtonDisabled(isAdding, |selectedUsers|)
    }
  }
}
