/** A group's page: who counts as its admin and as a member, which action
    button the viewer gets, member removal from the page and from a member's
    card, joining and leaving, and the edit form's avatar fallback. */
module Group {
  import opened Common

  /** A member as the page lists it. */
  datatype Member = Member(id: int, username: Option<string>)

  /** `response.data` of the group request: its admin and, when present, its
      members. */
  datatype GroupData = GroupData(admin: int, members: Option<seq<Member>>)

  const LoadFailureText: string := "Impossible de charger les données du groupe. Veuillez réessayer plus tard."
  const JoinFailureText: string := "Impossible de rejoindre le groupe. Veuillez réessayer plus tard."
  const LeaveFailureText: string := "Impossible de quitter le groupe. Veuillez réessayer plus tard."
  const RemoveFailureText: string := "Impossible de retirer ce membre. Veuillez réessayer plus tard."
  const GroupsPath: string := "/groups"

  // ---------------------------------------------------------------------
  // Roles and the action button

  /** `isAdmin`: a viewer is known, a group is loaded, and the viewer's id is
      the group's admin. */
  predicate IsAdmin(viewer: Option<int>, groupAdmin: Option<int>) {
    viewer.Some? && groupAdmin.Some? && viewer.value == groupAdmin.value
  }

  /** `isMember`: a viewer is known and some member carries the viewer's id. */
  predicate IsMember(viewer: Option<int>, members: seq<Member>) {
    viewer.Some? && exists i | 0 <= i < |members| :: members[i].id == viewer.value
  }

  datatype Action = EditGroup | LeaveGroup | JoinGroup

  /** The button next to the group's name: edit for the admin, otherwise
      leave for a member, otherwise join. */
  function ActionFor(viewer: Option<int>, groupAdmin: Option<int>, members: seq<Member>): (a: Action)
    ensures a == EditGroup <==> IsAdmin(viewer, groupAdmin)
    ensures a == LeaveGroup <==> !IsAdmin(viewer, groupAdmin) && IsMember(viewer, members)
    ensures a == JoinGroup <==> !IsAdmin(viewer, groupAdmin) && !IsMember(viewer, members)
  {
    if IsAdmin(viewer, groupAdmin) then EditGroup
    else if IsMember(viewer, members) then LeaveGroup
    else JoinGroup
  }

  /** An anonymous viewer is only ever offered to join. */
  lemma AnonymousViewerCanOnlyJoin(groupAdmin: Option<int>, members: seq<Member>)
    ensures ActionFor(None, groupAdmin, members) == JoinGroup
  {
  }

  // ---------------------------------------------------------------------
  // Member removal

  /** The filter callback `member => member.id !== memberId`. */
  function OtherMember(memberId: int): Member -> bool {
    (m: Member) => m.id != memberId
  }

  /** The members left once `memberId` is removed. */
  function RemoveMember(members: seq<Member>, memberId: int): (r: seq<Member>)
    ensures forall i | 0 <= i < |r| :: r[i].id != memberId && r[i] in members
    ensures forall i | 0 <= i < |members| && members[i].id != memberId :: members[i] in r
  {
    Filter(members, OtherMember(memberId))
  }

  lemma RemoveMemberConcat(a: seq<Member>, b: seq<Member>, memberId: int)
    ensures RemoveMember(a + b, memberId) == RemoveMember(a, memberId) + RemoveMember(b, memberId)
  {
    FilterConcat(a, b, OtherMember(memberId));
  }

  /** After a removal, a viewer is a member exactly when they were one before
      and are not the removed user. */
  lemma MembershipAfterRemoval(viewer: int, members: seq<Member>, memberId: int)
    ensures IsMember(Some(viewer), RemoveMember(members, memberId)) <==>
            viewer != memberId && IsMember(Some(viewer), members)
  {
    var r := RemoveMember(members, memberId);
    if viewer != memberId && IsMember(Some(viewer), members) {
      var i :| 0 <= i < |members| && members[i].id == viewer;
      assert members[i] in r;
      var j :| 0 <= j < |r| && r[j] == members[i];
    }
  }

  /** `isGroupAdmin` and the remove button of a member's card: shown to an
      admin viewer, never on the card of the group's admin. */
  predicate ShowRemoveButton(viewerIsAdmin: bool, memberId: int, groupAdmin: Option<int>) {
    viewerIsAdmin && !(groupAdmin.Some? && memberId == groupAdmin.value)
  }

  /** The admin is never offered to remove themselves, and an admin viewer
      is offered to remove every other member. */
  lemma RemoveButtonForOthersOnly(viewer: Option<int>, groupAdmin: Option<int>, memberId: int)
    ensures viewer == Some(memberId) ==>
              !ShowRemoveButton(IsAdmin(viewer, groupAdmin), memberId, groupAdmin)
    ensures IsAdmin(viewer, groupAdmin) && viewer != Some(memberId) ==>
              ShowRemoveButton(IsAdmin(viewer, groupAdmin), memberId, groupAdmin)
  {
  }

  // ---------------------------------------------------------------------
  // The edit form's avatar

  /** With no picture, the avatar shows the name's first two characters in
      upper case, or "GP" when the name is empty. */
  function AvatarFallback(nom: string): (r: string)
    ensures nom == "" ==> r == "GP"
    ensures nom != "" ==> |r| == (if |nom| < 2 then |nom| else 2)
    ensures nom != "" ==> forall i | 0 <= i < |r| :: r[i] == UpperChar(nom[i])
  {
    if nom != "" then Upper(Prefix(nom, 2)) else "GP"
  }

  // ---------------------------------------------------------------------
  // The page

  class GroupPage {
    /** The id of the viewer's profile, once fetched. */
    var viewer: Option<int>
    /** `group.admin`, once the group is loaded. */
    var groupAdmin: Option<int>
    var members: seq<Member>
    var isJoining: bool
    var isLoading: bool
    var error: Option<string>
    /** The last route `navigate` was called with. */
    var navigatedTo: Option<string>

    constructor(viewer: Option<int>)
      ensures this.viewer == viewer && groupAdmin == None && members == []
      ensures !isJoining && isLoading && error == None && navigatedTo == None
    {
      this.viewer := viewer;
      groupAdmin := None;
      members := [];
      isJoining := false;
      isLoading := true;
      error := None;
      navigatedTo := None;
    }

    /** `fetchGroupData` with the outcome of its two requests: a loaded group
        sets the admin and the members (none when the field is absent); a
        failure of either request sets the load error; loading ends. */
    method FetchGroupData(group: Option<GroupData>, postsOk: bool)
      modifies this
      ensures group.Some? ==> groupAdmin == Some(group.value.admin)
      ensures group.Some? ==>
                members == (if group.value.members.Some? then group.value.members.value else [])
      ensures group.None? ==> groupAdmin == old(groupAdmin) && members == old(members)
      ensures error == (if group.Some? && postsOk then None else Some(LoadFailureText))
      ensures !isLoading
      ensures viewer == old(viewer) && isJoining == old(isJoining) && navigatedTo == old(navigatedTo)
    {
      isLoading := true;
      error := None;
      if group.Some? {
        groupAdmin := Some(group.value.admin);
        members := if group.value.members.Some? then group.value.members.value else [];
        if !postsOk {
          error := Some(LoadFailureText);
        }
      } else {
        error := Some(LoadFailureText);
      }
      isLoading := false;
    }

    /** The start of `handleJoinGroup`: a no-op while a join is in flight. */
    method BeginJoin() returns (started: bool)
      modifies this
      ensures started <==> !old(isJoining)
      ensures isJoining
      ensures viewer == old(viewer) && groupAdmin == old(groupAdmin) && members == old(members)
      ensures isLoading == old(isLoading) && error == old(error) && navigatedTo == old(navigatedTo)
    {
      if isJoining {
        return false;
      }
      isJoining := true;
      started := true;
    }

    /** The end of `handleJoinGroup`: a successful join reloads the group, a
        failed one sets the join error; the flag is cleared either way. */
    method FinishJoin(joined: bool, group: Option<GroupData>, postsOk: bool)
      modifies this
      ensures joined ==> error == (if group.Some? && postsOk then None else Some(LoadFailureText))
      ensures joined && group.Some? ==> groupAdmin == Some(group.value.admin)
      ensures joined && group.Some? ==>
                members == (if group.value.members.Some? then group.value.members.value else [])
      ensures !joined || group.None? ==> groupAdmin == old(groupAdmin) && members == old(members)
      ensures !joined ==> error == Some(JoinFailureText) && isLoading == old(isLoading)
      ensures joined ==> !isLoading
      ensures !isJoining
      ensures viewer == old(viewer) && navigatedTo == old(navigatedTo)
    {
      if joined {
        FetchGroupData(group, postsOk);
      } else {
        error := Some(JoinFailureText);
      }
      isJoining := false;
    }

    /** `handleLeaveGroup`: a success changes nothing on the page; a failure
        navigates to the groups list and sets the leave error. */
    method Leave(left: bool)
      modifies this
      ensures left ==> error == old(error) && navigatedTo == old(navigatedTo)
      ensures !left ==> error == Some(LeaveFailureText) && navigatedTo == Some(GroupsPath)
      ensures viewer == old(viewer) && groupAdmin == old(groupAdmin) && members == old(members)
      ensures isJoining == old(isJoining) && isLoading == old(isLoading)
    {
      if !left {
        navigatedTo := Some(GroupsPath);
        error := Some(LeaveFailureText);
      }
    }

    /** `handleRemoveMember`: a success filters out exactly that member; a
        failure keeps the list, sets the error and rethrows. */
    method RemoveMemberById(memberId: int, removed: bool) returns (thrown: bool)
      modifies this
      ensures thrown <==> !removed
      ensures removed ==> members == RemoveMember(old(members), memberId) && error == old(error)
      ensures !removed ==> members == old(members) && error == Some(RemoveFailureText)
      ensures viewer == old(viewer) && groupAdmin == old(groupAdmin)
      ensures isJoining == old(isJoining) && isLoading == old(isLoading) && navigatedTo == old(navigatedTo)
    {
      if removed {
        members := RemoveMember(members, memberId);
        thrown := false;
      } else {
        error := Some(RemoveFailureText);
        thrown := true;
      }
    }
  }

  /** A member's card with its confirmation dialog. */
  class MemberCard {
    const memberId: int
    var isAlertOpen: bool
    var isRemoving: bool

    constructor(memberId: int)
      ensures this.memberId == memberId && !isAlertOpen && !isRemoving
    {
      this.memberId := memberId;
      isAlertOpen := false;
      isRemoving := false;
    }

    /** The "Retirer" button opens the confirmation dialog. */
    method OpenAlert()
      modifies this
      ensures isAlertOpen && isRemoving == old(isRemoving)
    {
      isAlertOpen := true;
    }

    /** The start of `handleRemoveMember`: nothing happens without a removal
        callback or while a removal is in flight. */
    method BeginRemove(hasHandler: bool) returns (started: bool)
      modifies this
      ensures started <==> hasHandler && !old(isRemoving)
      ensures started ==> isRemoving
      ensures !started ==> isRemoving == old(isRemoving)
      ensures isAlertOpen == old(isAlertOpen)
    {
      if !hasHandler || isRemoving {
        return false;
      }
      isRemoving := true;
      started := true;
    }

    /** The `finally` of `handleRemoveMember`: whether the callback succeeded
        or threw, the flag is cleared and the dialog closes. */
    method FinishRemove()
      modifies this
      ensures !isRemoving && !isAlertOpen
    {
      isRemoving := false;
      isAlertOpen := false;
    }
  }
}
