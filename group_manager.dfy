/** The groups screen: the user options offered to the group dialog, the
    options pre-selected when a group is edited, the ids the selection turns
    into, the edit form's reset and the removal of a deleted group. */
module GroupManager {
  import opened Common
  import opened MultiSelect

  /** A user as `/users` returns it. */
  datatype FetchedUser = FetchedUser(id: int, username: Option<string>, email: string)

  /** A group card's data. */
  datatype GroupRow = GroupRow(id: int, admin: int, nom: string)

  /** The group being edited; `users` is None when the field is null or
      missing. An empty array is `Some([])`, which is truthy and still mapped. */
  datatype EditingGroup = EditingGroup(id: int, users: Option<seq<int>>)

  /** The dialog's form; `users` holds what `parseInt` gave for each selected
      option, None standing for NaN. */
  datatype FormData = FormData(nom: string, bio: string, users: seq<Option<int>>)

  const DeleteFailureText: string := "Erreur lors de la suppression du groupe"

  // ---------------------------------------------------------------------
  // Options

  /** A user's label: the username, or the email when the username is empty
      or absent. */
  function UserLabel(u: FetchedUser): string {
    OrElse(u.username, u.email)
  }

  /** `{ value: u.id.toString(), label: u.username || u.email }`. */
  function UserChoice(u: FetchedUser): (c: Choice)
    ensures ParseInt(c.value) == Some(u.id)
    ensures c.text == UserLabel(u)
  {
    ParseIntOfIntToString(u.id);
    Choice(IntToString(u.id), UserLabel(u))
  }

  /** The filter callback `u => u.id !== excluded`, where an absent id
      excludes nobody. */
  function NotUser(excluded: Option<int>): FetchedUser -> bool {
    (u: FetchedUser) => excluded.None? || u.id != excluded.value
  }

  /** The fetched users other than the excluded one, in order. */
  function OtherUsers(users: seq<FetchedUser>, excluded: Option<int>): (r: seq<FetchedUser>)
    ensures forall i | 0 <= i < |r| :: r[i] in users && (excluded.None? || r[i].id != excluded.value)
    ensures forall i | 0 <= i < |users| && (excluded.None? || users[i].id != excluded.value) ::
              users[i] in r
  {
    Filter(users, NotUser(excluded))
  }

  lemma OtherUsersConcat(a: seq<FetchedUser>, b: seq<FetchedUser>, excluded: Option<int>)
    ensures OtherUsers(a + b, excluded) == OtherUsers(a, excluded) + OtherUsers(b, excluded)
  {
    FilterConcat(a, b, NotUser(excluded));
  }

  /** With no id to exclude, every fetched user is kept. */
  lemma OtherUsersKeepsAll(users: seq<FetchedUser>)
    ensures OtherUsers(users, None) == users
  {
    FilterKeepsAll(users, NotUser(None));
  }

  /** `fetchUsers`' option list: the other users as options, after which
      `shift()` drops the first one. */
  function FormatUsers(users: seq<FetchedUser>, excluded: Option<int>): (r: seq<Choice>)
    ensures var kept := OtherUsers(users, excluded);
            |r| == (if |kept| > 0 then |kept| - 1 else 0)
            && forall i | 0 <= i < |r| :: r[i] == UserChoice(kept[i + 1])
  {
    var formatted := Map(OtherUsers(users, excluded), UserChoice);
    if |formatted| > 0 then formatted[1..] else formatted
  }

  /** The filter callback of `response.data.find(u => u.id === userId)`. */
  function HasId(userId: int): FetchedUser -> bool {
    (u: FetchedUser) => u.id == userId
  }

  /** The label of a pre-selected user: that of the first fetched user with
      the id, or "User #id" when none has it. */
  function SelectedLabel(userId: int, fetched: seq<FetchedUser>): (l: string)
    ensures (forall i | 0 <= i < |fetched| :: fetched[i].id != userId) ==>
              l == "User #" + IntToString(userId)
    ensures forall k | 0 <= k < |fetched| && fetched[k].id == userId
                       && (forall i | 0 <= i < k :: fetched[i].id != userId) ::
              l == UserLabel(fetched[k])
  {
    match FirstWhere(fetched, HasId(userId))
    case Some(k) => UserLabel(fetched[k])
    case None => "User #" + IntToString(userId)
  }

  /** The options pre-selected for a group being edited, one per group user,
      in the group's order. */
  function SelectedFor(groupUsers: seq<int>, fetched: seq<FetchedUser>): (r: seq<Choice>)
    ensures |r| == |groupUsers|
    ensures forall i | 0 <= i < |r| ::
              r[i].value == IntToString(groupUsers[i]) && r[i].text == SelectedLabel(groupUsers[i], fetched)
  {
    if groupUsers == [] then []
    else [Choice(IntToString(groupUsers[0]), SelectedLabel(groupUsers[0], fetched))]
         + SelectedFor(groupUsers[1..], fetched)
  }

  /** `selectedOptions.map(option => parseInt(option.value))`. */
  function ParseSelection(options: seq<Choice>): (r: seq<Option<int>>)
    ensures |r| == |options|
    ensures forall i | 0 <= i < |r| :: r[i] == ParseInt(options[i].value)
  {
    if options == [] then [] else [ParseInt(options[0].value)] + ParseSelection(options[1..])
  }

  /** Leaving an edited group's pre-selection as it is gives back the
      group's own user ids, in order. */
  lemma {:induction false} SelectionRoundTrip(groupUsers: seq<int>, fetched: seq<FetchedUser>)
    ensures var r := ParseSelection(SelectedFor(groupUsers, fetched));
            |r| == |groupUsers| && forall i | 0 <= i < |r| :: r[i] == Some(groupUsers[i])
  {
    var sel := SelectedFor(groupUsers, fetched);
    var r := ParseSelection(sel);
    forall i | 0 <= i < |r| ensures r[i] == Some(groupUsers[i]) {
      assert sel[i].value == IntToString(groupUsers[i]);
      ParseIntOfIntToString(groupUsers[i]);
    }
  }

  /** Every offered option parses back to the id of the user it stands for. */
  lemma FormattedOptionsParse(users: seq<FetchedUser>, excluded: Option<int>)
    ensures var kept := OtherUsers(users, excluded);
            var r := ParseSelection(FormatUsers(users, excluded));
            forall i | 0 <= i < |r| :: r[i] == Some(kept[i + 1].id)
  {
  }

  /** The filter callback of `handleDelete`. */
  function OtherGroup(groupId: int): GroupRow -> bool {
    (g: GroupRow) => g.id != groupId
  }

  /** The groups left once `groupId` is deleted. */
  function DeleteGroup(groups: seq<GroupRow>, groupId: int): (r: seq<GroupRow>)
    ensures forall i | 0 <= i < |r| :: r[i].id != groupId && r[i] in groups
    ensures forall i | 0 <= i < |groups| && groups[i].id != groupId :: groups[i] in r
  {
    Filter(groups, OtherGroup(groupId))
  }

  lemma DeleteGroupConcat(a: seq<GroupRow>, b: seq<GroupRow>, groupId: int)
    ensures DeleteGroup(a + b, groupId) == DeleteGroup(a, groupId) + DeleteGroup(b, groupId)
  {
    FilterConcat(a, b, OtherGroup(groupId));
  }

  /** A group card's admin menu: a stored user is present and its `user_id`
      is the group's admin. */
  predicate ShowDeleteMenu(storedUserId: Option<int>, group: GroupRow) {
    storedUserId.Some? && group.admin == storedUserId.value
  }

  /** Only the stored user who administers the group gets its menu; with no
      stored user nobody does. */
  lemma DeleteMenuOnlyForAdmin(storedUserId: Option<int>, group: GroupRow)
    ensures ShowDeleteMenu(storedUserId, group) <==> storedUserId == Some(group.admin)
    ensures !ShowDeleteMenu(None, group)
  {
  }

  const EmptyForm: FormData := FormData("", "", [])

  // ---------------------------------------------------------------------
  // The screen

  class GroupManagerState {
    var groups: seq<GroupRow>
    var formData: FormData
    var availableUsers: seq<Choice>
    var selectedUsers: seq<Choice>
    var editingGroup: Option<EditingGroup>

    constructor()
      ensures groups == [] && formData == EmptyForm && availableUsers == []
      ensures selectedUsers == [] && editingGroup == None
    {
      groups := [];
      formData := EmptyForm;
      availableUsers := [];
      selectedUsers := [];
      editingGroup := None;
    }

    /** `fetchUsers` once `/users` answered: the options are formatted, and
        a group being edited with a user list gets its pre-selection. The
        excluded id is `user?.id` of the stored user. */
    method UsersFetched(fetched: seq<FetchedUser>, excluded: Option<int>)
      modifies this
      ensures availableUsers == FormatUsers(fetched, excluded)
      ensures editingGroup.Some? && editingGroup.value.users.Some? ==>
                selectedUsers == SelectedFor(editingGroup.value.users.value, fetched)
      ensures !(editingGroup.Some? && editingGroup.value.users.Some?) ==>
                selectedUsers == old(selectedUsers)
      ensures groups == old(groups) && formData == old(formData) && editingGroup == old(editingGroup)
    {
      availableUsers := FormatUsers(fetched, excluded);
      if editingGroup.Some? && editingGroup.value.users.Some? {
        selectedUsers := SelectedFor(editingGroup.value.users.value, fetched);
      }
    }

    /** `resetForm`. */
    method ResetForm()
      modifies this
      ensures formData == EmptyForm && selectedUsers == [] && editingGroup == None
      ensures groups == old(groups) && availableUsers == old(availableUsers)
    {
      formData := EmptyForm;
      selectedUsers := [];
      editingGroup := None;
    }

    /** `handleUserSelectionChange`: the selection is stored and the form's
        users become the parsed option values, in selection order. */
    method SelectionChanged(options: seq<Choice>)
      modifies this
      ensures selectedUsers == options
      ensures formData == old(formData).(users := ParseSelection(options))
      ensures groups == old(groups) && availableUsers == old(availableUsers)
      ensures editingGroup == old(editingGroup)
    {
      selectedUsers := options;
      formData := formData.(users := ParseSelection(options));
    }

    /** `handleDelete`: a successful delete removes exactly that group; a
        failed one leaves the list and raises the alert. */
    method Delete(groupId: int, deleted: bool) returns (alert: Option<string>)
      modifies this
      ensures deleted ==> groups == DeleteGroup(old(groups), groupId) && alert == None
      ensures !deleted ==> groups == old(groups) && alert == Some(DeleteFailureText)
      ensures formData == old(formData) && availableUsers == old(availableUsers)
      ensures selectedUsers == old(selectedUsers) && editingGroup == old(editingGroup)
    {
      if deleted {
        groups := DeleteGroup(groups, groupId);
        alert := None;
      } else {
        alert := Some(DeleteFailureText);
      }
    }
  }
}
