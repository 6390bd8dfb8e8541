/** CreateGroupActivity: picking friends (or adding users by short id), then writing the new group. */
module CreateGroup {
  import opened Wrappers
  import opened Records
  import opened Text
  import opened WriteSets
  import opened SelectFriend
  import opened ShortIds

  /** `friendsList.any { it.uid == uid }` */
  predicate HasUid(users: seq<User>, uid: string) {
    exists i :: 0 <= i < |users| && users[i].uid == uid
  }

  /** No two entries of the list share a uid. */
  ghost predicate UniqueUids(users: seq<User>) {
    forall i, j :: 0 <= i < j < |users| ==> users[i].uid != users[j].uid
  }

  /** How addMemberById ends before its reads come back. `PathRejected`: `child(shortId)` threw,
      and nothing catches the exception, so the app stops. */
  datatype MemberLookup = NoLookup | PathRejected | ReadShortId(shortId: string)

  /** addMemberById up to the read of `/ShortIds/<id>`: input failing the length check is ignored,
      a short id the database refuses as a path stops the app, any other short id is read. */
  function AddMemberById(typed: string): (r: MemberLookup)
    ensures r.NoLookup? <==> ParseShortIdInput(typed).None?
    ensures r.PathRejected? <==> ParseShortIdInput(typed).Some? && !IsValidPathText(ParseShortIdInput(typed).value)
    ensures r.ReadShortId? ==> r.shortId == ParseShortIdInput(typed).value && IsValidPathText(r.shortId)
  {
    match ParseShortIdInput(typed)
    case None => NoLookup
    case Some(shortId) => if IsValidPathText(shortId) then ReadShortId(shortId) else PathRejected
  }

  /** The stored member map: every member mapped to `true`. */
  function MemberMap(uids: set<string>): (m: map<string, bool>)
    ensures m.Keys == uids
    ensures forall u :: u in m ==> m[u]
  {
    map u | u in uids :: true
  }

  /** Adding one member to the map. */
  lemma MemberMapAdd(uids: set<string>, m: string)
    ensures MemberMap(uids)[m := true] == MemberMap(uids + {m})
  {
  }

  /** `members[currentUid] = true; selectedUserIds.forEach { members[it] = true }` */
  method CollectMembers(creator: string, selected: set<string>) returns (members: map<string, bool>)
    ensures members == MemberMap(selected + {creator})
  {
    members := map[creator := true];
    var todo := selected;
    while todo != {}
      invariant todo <= selected
      invariant members == MemberMap({creator} + (selected - todo))
      decreases |todo|
    {
      var m :| m in todo;
      assert {creator} + (selected - (todo - {m})) == {creator} + (selected - todo) + {m};
      MemberMapAdd({creator} + (selected - todo), m);
      members := members[m := true];
      todo := todo - {m};
    }
    assert {creator} + (selected - todo) == selected + {creator};
  }

  class CreateGroupScreen {
    const friendsList: UserList
    var selectedUserIds: set<string>
    const adapter: SelectFriendAdapter
    var base64GroupImage: string
    var selectedChatColor: string

    ghost predicate Valid()
      reads this, friendsList, adapter
    {
      adapter.friendList == friendsList && UniqueUids(friendsList.users)
    }

    /** The activity's own selection and the picker's ticks agree. */
    ghost predicate InSync()
      reads this, adapter
    {
      adapter.selectedUsers == selectedUserIds
    }

    /** onCreate: an empty picker over the empty friend list, no image, white selected. */
    constructor()
      ensures Valid() && InSync() && fresh(friendsList) && fresh(adapter)
      ensures friendsList.users == [] && selectedUserIds == {}
      ensures base64GroupImage == "" && selectedChatColor == DefaultChatColor
    {
      var list := new UserList();
      friendsList := list;
      adapter := new SelectFriendAdapter(list);
      selectedUserIds := {};
      base64GroupImage := "";
      selectedChatColor := DefaultChatColor;
    }

    /** The picker's selection callback: the uid joins or leaves the selection, nothing else does. */
    method OnSelectionChanged(user: User, isSelected: bool)
      modifies this`selectedUserIds
      ensures selectedUserIds == if isSelected then old(selectedUserIds) + {user.uid}
                                 else old(selectedUserIds) - {user.uid}
    {
      if isSelected {
        selectedUserIds := selectedUserIds + {user.uid};
      } else {
        selectedUserIds := selectedUserIds - {user.uid};
      }
    }

    /** A click on a picker row, through the adapter and back through the callback; a click keeps
        the two selections in step. */
    method ClickFriend(position: nat)
      requires Valid() && position < |friendsList.users|
      modifies this`selectedUserIds, adapter`selectedUsers
      ensures Valid()
      ensures old(InSync()) ==> InSync()
      ensures var uid := friendsList.users[position].uid;
        && (uid in selectedUserIds <==> uid !in old(adapter.selectedUsers))
        && selectedUserIds - {uid} == old(selectedUserIds) - {uid}
    {
      var user := friendsList.users[position];
      var isChecked := adapter.Click(position);
      OnSelectionChanged(user, isChecked);
    }

    /** The friend-ids listener: the list is emptied before the friends are fetched again; the
        selection is kept. */
    method OnFriendIdsChanged()
      requires Valid()
      modifies friendsList
      ensures Valid() && friendsList.users == []
    {
      friendsList.users := [];
    }

    /** A fetched friend (`None` when the user node does not exist) is appended unless its uid is
        already listed. */
    method OnFriendLoaded(user: Option<User>)
      requires Valid()
      modifies friendsList
      ensures Valid()
      ensures friendsList.users ==
        if user.Some? && !HasUid(old(friendsList.users), user.value.uid) then old(friendsList.users) + [user.value]
        else old(friendsList.users)
    {
      if user.Some? && !HasUid(friendsList.users, user.value.uid) {
        friendsList.users := friendsList.users + [user.value];
      }
    }

    /** addMemberById as written, once the short id resolved to a user: a user not yet listed goes
        to the top of the list and into `selectedUserIds`, but not into the picker's ticks. */
    method OnMemberFound(user: Option<User>)
      requires Valid()
      modifies this`selectedUserIds, friendsList
      ensures Valid()
      ensures user.Some? && !HasUid(old(friendsList.users), user.value.uid) ==>
        && friendsList.users == [user.value] + old(friendsList.users)
        && selectedUserIds == old(selectedUserIds) + {user.value.uid}
      ensures !(user.Some? && !HasUid(old(friendsList.users), user.value.uid)) ==>
        friendsList.users == old(friendsList.users) && selectedUserIds == old(selectedUserIds)
    {
      if user.Some? && !HasUid(friendsList.users, user.value.uid) {
        friendsList.users := [user.value] + friendsList.users;
        selectedUserIds := selectedUserIds + {user.value.uid};
      }
    }

    /** addMemberById ticking the new row in the picker as well: the selections stay in step. */
    method OnMemberFoundSynced(user: Option<User>)
      requires Valid()
      modifies this`selectedUserIds, friendsList, adapter`selectedUsers
      ensures Valid()
      ensures old(InSync()) ==> InSync()
      ensures user.Some? && !HasUid(old(friendsList.users), user.value.uid) ==>
        && friendsList.users == [user.value] + old(friendsList.users)
        && selectedUserIds == old(selectedUserIds) + {user.value.uid}
        && adapter.IsChecked(0)
      ensures !(user.Some? && !HasUid(old(friendsList.users), user.value.uid)) ==>
        friendsList.users == old(friendsList.users) && selectedUserIds == old(selectedUserIds)
    {
      if user.Some? && !HasUid(friendsList.users, user.value.uid) {
        friendsList.users := [user.value] + friendsList.users;
        selectedUserIds := selectedUserIds + {user.value.uid};
        adapter.MarkSelected(user.value.uid);
      }
    }

    /** A colour button. */
    method UpdateColorSelection(color: string)
      modifies this`selectedChatColor
      ensures selectedChatColor == color
    {
      selectedChatColor := color;
    }

    /** The image picker: an image that could be encoded replaces the current one. */
    method OnImagePicked(encoded: Option<string>)
      modifies this`base64GroupImage
      ensures base64GroupImage == if encoded.Some? then encoded.value else old(base64GroupImage)
    {
      if encoded.Some? {
        base64GroupImage := encoded.value;
      }
    }

    /** createGroup: nothing without a non-blank name, a selection, a signed-in user and a push key;
        otherwise the group record, whose members are the selection plus the creator and whose
        admin is the creator, and one `groups/gid = true` link per member. */
    method CreateGroup(rawName: string, authUid: Option<string>, pushKey: Option<string>)
      returns (w: Option<WriteSet>)
      ensures w.None? <==> Blank(rawName) || selectedUserIds == {} || authUid.None? || pushKey.None?
      ensures w.Some? ==>
        var uid, gid := authUid.value, pushKey.value;
        var memberIds := selectedUserIds + {uid};
        && w.value.Keys == GroupLinks(memberIds, gid) + {GroupNode(gid)}
        && |w.value| == |memberIds| + 1
        && w.value[GroupNode(gid)] == Some(GroupValue(
             Group(gid, Trim(rawName), MemberMap(memberIds), uid, base64GroupImage, selectedChatColor)))
        && AdminIsMember(Group(gid, Trim(rawName), MemberMap(memberIds), uid, base64GroupImage, selectedChatColor))
        && (forall m :: m in memberIds ==> w.value[GroupLink(m, gid)] == Some(Flag(true)))
        && PrefixFree(w.value)
    {
      var name := Trim(rawName);
      if name == [] || selectedUserIds == {} || authUid.None? || pushKey.None? {
        return None;
      }
      var uid, gid := authUid.value, pushKey.value;
      var members := CollectMembers(uid, selectedUserIds);
      var group := Group(gid, name, members, uid, base64GroupImage, selectedChatColor);
      var links := SetGroupLinks(members.Keys, gid, Some(Flag(true)));
      assert members.Keys == selectedUserIds + {uid};
      var updates := links[GroupNode(gid) := Some(GroupValue(group))];
      LinksWithGroupNode(links, members.Keys, gid, Some(Flag(true)), Some(GroupValue(group)));
      w := Some(updates);
    }
  }

  /** The record a successful creation writes keeps the group invariant: its admin is a member. */
  lemma CreatedGroupAdminIsMember(selected: set<string>, uid: string, gid: string, name: string, image: string, color: string)
    ensures AdminIsMember(Group(gid, name, MemberMap(selected + {uid}), uid, image, color))
  {
  }

  /** The picker divergence: a user added by short id counts as selected for the group but shows
      an empty checkbox. */
  method SelectionDivergence(u: User) returns (selected: bool, shownChecked: bool)
    ensures selected && !shownChecked
  {
    var screen := new CreateGroupScreen();
    screen.OnMemberFound(Some(u));
    selected := u.uid in screen.selectedUserIds;
    shownChecked := screen.adapter.IsChecked(0);
  }

  /** With the picker told about the addition, the row shows what the group will get. */
  method SelectionAgreement(u: User) returns (selected: bool, shownChecked: bool)
    ensures selected && shownChecked
  {
    var screen := new CreateGroupScreen();
    screen.OnMemberFoundSynced(Some(u));
    selected := u.uid in screen.selectedUserIds;
    shownChecked := screen.adapter.IsChecked(0);
  }
}
