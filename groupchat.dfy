/** GroupChatActivity: a group's chat, its member sheet and the leave / delete actions. */
module GroupChat {
  import opened Wrappers
  import opened Records
  import opened Text
  import opened WriteSets
  import opened Timeline
  import opened Members
  import Chat

  /** The remove button of the member sheet: the member's entry in the group and the group's link
      in the member's record are deleted together. */
  function RemoveMemberWrites(gid: string, uid: string): (w: WriteSet)
    ensures w.Keys == {GroupMember(gid, uid), GroupLink(uid, gid)} && |w| == 2
    ensures AllDeletions(w)
    ensures PrefixFree(w)
  {
    assert GroupMember(gid, uid)[0] != GroupLink(uid, gid)[0];
    map[GroupMember(gid, uid) := None, GroupLink(uid, gid) := None]
  }

  /** A removal the sheet offers (`viewer` is `auth.uid ?: ""`, `cachedAdmin` is
      `groupAdminId ?: ""`) takes exactly that member out of the group and leaves the admin in
      place; when the cached admin is the stored one, the admin stays a member. */
  lemma RemoveMemberEffect(gid: string, g: Group, viewer: string, cachedAdmin: string, uid: string)
    requires ShowsRemoveButton(viewer, cachedAdmin, uid)
    ensures var after := GroupAfterUpdate(gid, g, RemoveMemberWrites(gid, uid));
      && after.Some?
      && after.value.members.Keys == g.members.Keys - {uid}
      && after.value.adminId == g.adminId
      && (cachedAdmin == g.adminId && AdminIsMember(g) ==> AdminIsMember(after.value))
  {
    var w := RemoveMemberWrites(gid, uid);
    assert GroupNode(gid) !in w && GroupAdmin(gid) !in w;
    forall m | m in g.members
      ensures GroupMember(gid, m) in w <==> m == uid
    {
      if GroupMember(gid, m) in w {
        assert GroupMember(gid, m)[3] == m;
      }
    }
  }

  /** Signed out, before the group listener has cached an admin, the viewer "" counts as the
      admin "": the sheet offers to remove the stored admin, and doing so leaves a group whose
      admin is not a member. */
  lemma UncachedSheetRemovesAdmin(gid: string, g: Group)
    requires AdminIsMember(g) && g.adminId != ""
    ensures ShowsRemoveButton("", "", g.adminId)
    ensures var after := GroupAfterUpdate(gid, g, RemoveMemberWrites(gid, g.adminId));
      after.Some? && !AdminIsMember(after.value)
  {
    RemoveMemberEffect(gid, g, "", "", g.adminId);
  }

  /** The update of leaveGroup once the group has been read: the leaver's own link always goes; a
      group left empty is deleted with its chat; otherwise the leaver's entry goes and, when
      `leaverIsAdmin`, `adminId` passes to a remaining member. */
  method LeaveWrites(gid: string, uid: string, g: Group, leaverIsAdmin: bool) returns (w: WriteSet)
    ensures GroupLink(uid, gid) in w && w[GroupLink(uid, gid)] == None
    ensures PrefixFree(w)
    ensures g.members.Keys - {uid} == {} ==>
      && w.Keys == {GroupLink(uid, gid), GroupNode(gid), GroupChatNode(gid)}
      && AllDeletions(w)
      && GroupAfterUpdate(gid, g, w) == None
    ensures g.members.Keys - {uid} != {} && leaverIsAdmin ==>
      && w.Keys == {GroupLink(uid, gid), GroupAdmin(gid), GroupMember(gid, uid)}
      && w[GroupMember(gid, uid)] == None
      && w[GroupAdmin(gid)].Some? && w[GroupAdmin(gid)].value.Str?
      && var newAdmin := w[GroupAdmin(gid)].value.s;
         && newAdmin in g.members && newAdmin != uid
         && GroupAfterUpdate(gid, g, w) == Some(g.(members := g.members - {uid}, adminId := newAdmin))
    ensures g.members.Keys - {uid} != {} && !leaverIsAdmin ==>
      && w.Keys == {GroupLink(uid, gid), GroupMember(gid, uid)}
      && AllDeletions(w)
      && GroupAfterUpdate(gid, g, w) == Some(g.(members := g.members - {uid}))
  {
    var members := g.members - {uid};
    w := map[GroupLink(uid, gid) := None];
    if members == map[] {
      assert g.members.Keys - {uid} == {};
      w := w[GroupNode(gid) := None][GroupChatNode(gid) := None];
      DifferentSegment(GroupNode(gid), GroupLink(uid, gid), 0);
      DifferentSegment(GroupChatNode(gid), GroupLink(uid, gid), 0);
    } else {
      assert g.members.Keys - {uid} != {};
      w := w[GroupMember(gid, uid) := None];
      if leaverIsAdmin {
        var newAdmin :| newAdmin in members.Keys;
        w := w[GroupAdmin(gid) := Some(Str(newAdmin))];
        DifferentSegment(GroupAdmin(gid), GroupMember(gid, uid), 2);
        DifferentSegment(GroupAdmin(gid), GroupLink(uid, gid), 0);
      }
      MemberPathsOfLeave(gid, uid, g, w);
    }
  }

  /** In a leave update that does not touch /Groups/gid itself, the only member entry deleted is
      the leaver's. */
  lemma MemberPathsOfLeave(gid: string, uid: string, g: Group, w: WriteSet)
    requires w.Keys <= {GroupLink(uid, gid), GroupAdmin(gid), GroupMember(gid, uid)}
    requires GroupMember(gid, uid) in w
    ensures GroupNode(gid) !in w
    ensures (map m | m in g.members && GroupMember(gid, m) !in w :: g.members[m]) == g.members - {uid}
  {
    forall m | m in g.members
      ensures GroupMember(gid, m) in w <==> m == uid
    {
      if GroupMember(gid, m) in w {
        assert GroupMember(gid, m)[3] == m;
      }
    }
  }

  class GroupChatScreen {
    const groupId: string
    /** The admin id cached by the group listener; `null` until it first fires. */
    var groupAdminId: Option<string>
    var finished: bool
    const messageList: MessageList
    const adapter: MessageAdapter

    ghost predicate Valid()
      reads this, adapter
    {
      adapter.messageList == messageList && adapter.isGroupChat
    }

    /** onCreate past the group-id guard. */
    constructor(groupId: string, cal: LocalCalendar)
      requires groupId != []
      ensures Valid() && fresh(messageList) && fresh(adapter)
      ensures this.groupId == groupId && groupAdminId == None && !finished
      ensures messageList.items == [] && adapter.displayList == []
    {
      this.groupId := groupId;
      groupAdminId := None;
      finished := false;
      var list := new MessageList();
      messageList := list;
      adapter := new MessageAdapter(list, true, cal);
    }

    /** loadGroupData with the group node (`None` once it no longer exists): a deleted group closes
        the screen, an existing one refreshes the cached admin. Past `exists()`, `getValue` yields
        the group or throws, so its `?: return` is never taken. */
    method OnGroupSnapshot(s: Option<Group>)
      modifies this`groupAdminId, this`finished
      ensures s.None? ==> finished && groupAdminId == old(groupAdminId)
      ensures s.Some? ==> finished == old(finished) && groupAdminId == Some(s.value.adminId)
    {
      match s
      case None => finished := true;
      case Some(g) => groupAdminId := Some(g.adminId);
    }

    /** loadMessages: the list is refilled and the rows rebuilt. */
    method OnMessages(children: seq<Option<Message>>, cal: LocalCalendar)
      requires Valid()
      modifies messageList, adapter
      ensures Valid()
      ensures messageList.items == Parseable(children)
      ensures adapter.displayList == Assemble(cal, Parseable(children))
    {
      messageList.Refill(children);
      adapter.UpdateData(cal);
    }

    /** The delete item of the menu is shown when `auth.uid == groupAdminId`, two nullable strings:
        to a signed-in user exactly when they are the cached admin. */
    function DeleteMenuVisible(authUid: Option<string>): (r: bool)
      reads this
      ensures authUid.Some? ==> (r <==> groupAdminId == authUid)
      ensures authUid.None? ==> (r <==> groupAdminId.None?)
    {
      authUid == groupAdminId
    }

    /** The member sheet's adapter, built from `groupAdminId ?: ""` and `auth.uid ?: ""`: every member
        is listed under their name, the cached admin carries the badge, a signed-in viewer who is
        not the cached admin gets no remove button, the cached admin gets one on every other
        member's row, and a signed-out viewer before the admin is known gets one on every row with
        a non-empty uid. */
    function MembersSheet(authUid: Option<string>, members: seq<User>): (a: MemberAdapter)
      reads this
      ensures a.memberList == members
      ensures forall i :: 0 <= i < |members| ==> a.Row(i).name == members[i].fullName
      ensures groupAdminId.Some? ==>
        forall i :: 0 <= i < |members| ==> (a.Row(i).adminBadge <==> members[i].uid == groupAdminId.value)
      ensures authUid.Some? && authUid.value != "" && !DeleteMenuVisible(authUid) ==>
        forall i :: 0 <= i < |members| ==> !a.Row(i).removeButton
      ensures authUid.Some? && DeleteMenuVisible(authUid) ==>
        forall i :: 0 <= i < |members| ==> (a.Row(i).removeButton <==> members[i].uid != authUid.value)
      ensures authUid.None? && groupAdminId.None? ==>
        forall i :: 0 <= i < |members| ==> (a.Row(i).removeButton <==> members[i].uid != "")
    {
      MemberAdapter(members, groupAdminId.GetOr(""), authUid.GetOr(""))
    }

    /** sendMessage: non-blank text from a signed-in user under a new push key. */
    function SendWrites(typed: string, authUid: Option<string>, now: int, pushKey: string): (w: Option<WriteSet>)
      reads this
      ensures w.None? <==> Blank(typed) || authUid.None?
      ensures w.Some? ==> w.value.Keys == {GroupChatMessage(groupId, pushKey)}
      ensures w.Some? ==>
        w.value[GroupChatMessage(groupId, pushKey)] == Some(MessageValue(Message(Trim(typed), authUid.value, now)))
    {
      match (Chat.OutgoingMessage(typed, authUid.GetOr(""), now), authUid)
      case (Some(m), Some(_)) => Some(map[GroupChatMessage(groupId, pushKey) := Some(MessageValue(m))])
      case _ => None
    }

    /** leaveGroup as written: whether the leaver is the admin is read from the cached
        `groupAdminId`, not from the group just fetched. `None` when signed out or when the
        group node no longer exists. */
    method LeaveGroup(authUid: Option<string>, snapshot: Option<Group>) returns (w: Option<WriteSet>)
      ensures w.None? <==> authUid.None? || snapshot.None?
      ensures w.Some? ==>
        && GroupLink(authUid.value, groupId) in w.value && w.value[GroupLink(authUid.value, groupId)] == None
        && PrefixFree(w.value)
      ensures w.Some? && snapshot.value.members.Keys - {authUid.value} == {} ==>
        && w.value.Keys == {GroupLink(authUid.value, groupId), GroupNode(groupId), GroupChatNode(groupId)}
        && AllDeletions(w.value)
        && GroupAfterUpdate(groupId, snapshot.value, w.value) == None
      ensures w.Some? && snapshot.value.members.Keys - {authUid.value} != {} && groupAdminId == authUid ==>
        && w.value.Keys == {GroupLink(authUid.value, groupId), GroupAdmin(groupId), GroupMember(groupId, authUid.value)}
        && w.value[GroupAdmin(groupId)].Some? && w.value[GroupAdmin(groupId)].value.Str?
        && var newAdmin := w.value[GroupAdmin(groupId)].value.s;
           && newAdmin in snapshot.value.members && newAdmin != authUid.value
           && GroupAfterUpdate(groupId, snapshot.value, w.value)
                == Some(snapshot.value.(members := snapshot.value.members - {authUid.value}, adminId := newAdmin))
      ensures w.Some? && snapshot.value.members.Keys - {authUid.value} != {} && groupAdminId != authUid ==>
        && w.value.Keys == {GroupLink(authUid.value, groupId), GroupMember(groupId, authUid.value)}
        && AllDeletions(w.value)
        && GroupAfterUpdate(groupId, snapshot.value, w.value)
             == Some(snapshot.value.(members := snapshot.value.members - {authUid.value}))
    {
      if authUid.None? || snapshot.None? {
        return None;
      }
      var ws := LeaveWrites(groupId, authUid.value, snapshot.value, groupAdminId == authUid);
      w := Some(ws);
    }

    /** leaveGroup deciding succession on the fetched group's `adminId`: leaving never leaves a
        group whose admin is not a member. */
    method LeaveGroupChecked(authUid: Option<string>, snapshot: Option<Group>) returns (w: Option<WriteSet>)
      ensures w.None? <==> authUid.None? || snapshot.None?
      ensures w.Some? ==>
        && GroupLink(authUid.value, groupId) in w.value && w.value[GroupLink(authUid.value, groupId)] == None
        && PrefixFree(w.value)
      ensures w.Some? && AdminIsMember(snapshot.value) ==>
        match GroupAfterUpdate(groupId, snapshot.value, w.value)
        case None => snapshot.value.members.Keys <= {authUid.value}
        case Some(after) => AdminIsMember(after) && after.members.Keys == snapshot.value.members.Keys - {authUid.value}
    {
      if authUid.None? || snapshot.None? {
        return None;
      }
      var g := snapshot.value;
      var ws := LeaveWrites(groupId, authUid.value, g, authUid.value == g.adminId);
      w := Some(ws);
    }

    /** deleteGroup once the group has been read: every member's link, the group and its chat. */
    method DeleteGroup(snapshot: Option<Group>) returns (w: Option<WriteSet>)
      ensures w.None? <==> snapshot.None?
      ensures w.Some? ==>
        && w.value.Keys == GroupLinks(snapshot.value.members.Keys, groupId) + {GroupNode(groupId), GroupChatNode(groupId)}
        && AllDeletions(w.value)
        && |w.value| == |snapshot.value.members| + 2
        && PrefixFree(w.value)
        && GroupAfterUpdate(groupId, snapshot.value, w.value) == None
    {
      if snapshot.None? {
        return None;
      }
      var g := snapshot.value;
      var updates := SetGroupLinks(g.members.Keys, groupId, None);
      updates := updates[GroupNode(groupId) := None][GroupChatNode(groupId) := None];
      GroupRemovalShape(updates, g.members.Keys, groupId);
      w := Some(updates);
    }
  }

  /** onCreate: no screen without a group id. */
  method OpenGroupChat(groupId: Option<string>, cal: LocalCalendar) returns (screen: Option<GroupChatScreen>)
    ensures screen.None? <==> groupId == None || groupId == Some([])
    ensures screen.Some? ==> Some(screen.value.groupId) == groupId && screen.value.Valid()
  {
    if groupId == None || groupId == Some([]) {
      return None;
    }
    var s := new GroupChatScreen(groupId.value, cal);
    screen := Some(s);
  }

  /** The admin leaves before the group listener has fired: `groupAdminId` is still `null`, so no
      successor is chosen and the group keeps the leaver as admin. */
  method StaleAdminLeaves(cal: LocalCalendar) returns (after: Option<Group>)
    ensures after.Some? && !AdminIsMember(after.value) && after.value.members.Keys == {"bob"}
  {
    var screen := new GroupChatScreen("g1", cal);
    var g := Group("g1", "Friends", map["alice" := true, "bob" := true], "alice", "", DefaultChatColor);
    assert AdminIsMember(g);
    var w := screen.LeaveGroup(Some("alice"), Some(g));
    assert g.members.Keys - {"alice"} == {"bob"};
    after := GroupAfterUpdate("g1", g, w.value);
  }

  /** The same departure decided on the fetched group hands the group to the remaining member. */
  method CheckedAdminLeaves(cal: LocalCalendar) returns (after: Option<Group>)
    ensures after.Some? && AdminIsMember(after.value) && after.value.adminId == "bob"
  {
    var screen := new GroupChatScreen("g1", cal);
    var g := Group("g1", "Friends", map["alice" := true, "bob" := true], "alice", "", DefaultChatColor);
    var w := screen.LeaveGroupChecked(Some("alice"), Some(g));
    assert g.members.Keys - {"alice"} == {"bob"};
    after := GroupAfterUpdate("g1", g, w.value);
  }
}
