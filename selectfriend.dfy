/** SelectFriendAdapter: the friend picker of the create-group screen, with its own set of ticked uids. */
module SelectFriend {
  import opened Records

  /** The `MutableList<User>` the create-group screen owns and the picker shows. */
  class UserList {
    var users: seq<User>

    constructor()
      ensures users == []
    {
      users := [];
    }
  }

  class SelectFriendAdapter {
    const friendList: UserList
    /** The adapter's private `selectedUsers`. */
    var selectedUsers: set<string>

    constructor(friendList: UserList)
      ensures this.friendList == friendList && selectedUsers == {}
    {
      this.friendList := friendList;
      selectedUsers := {};
    }

    function ItemCount(): (n: nat)
      reads this, friendList
      ensures n == |friendList.users|
    {
      |friendList.users|
    }

    /** onBindViewHolder: the checkbox of a row shows whether its uid is in `selectedUsers`. */
    function IsChecked(position: nat): (checked: bool)
      reads this, friendList
      requires position < |friendList.users|
      ensures checked <==> friendList.users[position].uid in selectedUsers
    {
      friendList.users[position].uid in selectedUsers
    }

    /** A click on a bound row: the checkbox flips, the uid joins or leaves `selectedUsers`, and the
        new state is what the selection callback receives. */
    method Click(position: nat) returns (isChecked: bool)
      requires position < |friendList.users|
      modifies this`selectedUsers
      ensures isChecked == !old(IsChecked(position))
      ensures selectedUsers == if isChecked then old(selectedUsers) + {friendList.users[position].uid}
                               else old(selectedUsers) - {friendList.users[position].uid}
      ensures IsChecked(position) == isChecked
    {
      isChecked := !IsChecked(position);
      var uid := friendList.users[position].uid;
      if isChecked {
        selectedUsers := selectedUsers + {uid};
      } else {
        selectedUsers := selectedUsers - {uid};
      }
    }

    /** Ticks a uid from outside; only the synchronised add-by-id flow of the create-group screen
        calls it. */
    method MarkSelected(uid: string)
      modifies this`selectedUsers
      ensures selectedUsers == old(selectedUsers) + {uid}
    {
      selectedUsers := selectedUsers + {uid};
    }
  }

  /** Two clicks on the same row restore the selection. */
  method ClickTwice(adapter: SelectFriendAdapter, position: nat) returns (first: bool, second: bool)
    requires position < |adapter.friendList.users|
    modifies adapter
    ensures second == !first
    ensures adapter.selectedUsers == old(adapter.selectedUsers)
  {
    first := adapter.Click(position);
    second := adapter.Click(position);
  }
}
