/** DashboardActivity: the roster of friends and groups kept up to date by value listeners, the
    short-id badge and the add-friend flow. */
module Dashboard {
  import opened Wrappers
  import opened Records
  import opened Text
  import opened ShortIds
  import opened WriteSets
  import Register

  /** An element of `dashboardItems`, a `MutableList<Any>` holding `User`s and `Group`s. */
  datatype Entry = UserEntry(user: User) | GroupEntry(group: Group)

  /** What the `as? Group` and `as? User` casts compare: the kind of an entry and its id. A user and a
      group with the same id have different keys. */
  datatype Key = GroupKey(groupId: string) | UserKey(uid: string)

  function KeyOf(e: Entry): Key {
    match e
    case UserEntry(u) => UserKey(u.uid)
    case GroupEntry(g) => GroupKey(g.groupId)
  }

  /** Number of entries with key `k`. */
  function Count(items: seq<Entry>, k: Key): nat {
    if items == [] then 0 else (if KeyOf(items[0]) == k then 1 else 0) + Count(items[1..], k)
  }

  lemma {:induction false} CountAppend(a: seq<Entry>, b: seq<Entry>, k: Key)
    ensures Count(a + b, k) == Count(a, k) + Count(b, k)
  {
    if a == [] {
      assert a + b == b;
    } else {
      assert (a + b)[1..] == a[1..] + b;
      CountAppend(a[1..], b, k);
    }
  }

  /** `removeAll { key of it == k }`: exactly the entries with key `k` are gone. */
  function WithoutKey(items: seq<Entry>, k: Key): (r: seq<Entry>)
    ensures forall e :: e in r <==> e in items && KeyOf(e) != k
    ensures |r| == |items| - Count(items, k)
  {
    if items == [] then []
    else (if KeyOf(items[0]) == k then [] else [items[0]]) + WithoutKey(items[1..], k)
  }

  /** `r` is `s` with some elements left out and the others in their order. */
  ghost predicate SubsequenceOf(r: seq<Entry>, s: seq<Entry>)
    decreases |s|
  {
    if r == [] then true
    else if s == [] then false
    else (r[0] == s[0] && SubsequenceOf(r[1..], s[1..])) || SubsequenceOf(r, s[1..])
  }

  /** The removal keeps the remaining entries in their relative order. */
  lemma {:induction false} WithoutKeyKeepsOrder(items: seq<Entry>, k: Key)
    ensures SubsequenceOf(WithoutKey(items, k), items)
  {
    if items != [] {
      WithoutKeyKeepsOrder(items[1..], k);
      var rest := WithoutKey(items[1..], k);
      if KeyOf(items[0]) != k {
        assert WithoutKey(items, k) == [items[0]] + rest;
        assert ([items[0]] + rest)[1..] == rest;
      } else {
        assert WithoutKey(items, k) == rest;
      }
    }
  }

  /** The removal leaves no entry with key `k` and as many entries with any other key as before. */
  lemma {:induction false} CountWithoutKey(items: seq<Entry>, k: Key, other: Key)
    ensures Count(WithoutKey(items, k), other) == if other == k then 0 else Count(items, other)
  {
    if items != [] {
      var head := if KeyOf(items[0]) == k then [] else [items[0]];
      CountAppend(head, WithoutKey(items[1..], k), other);
      CountWithoutKey(items[1..], k, other);
    }
  }

  /** What a group listener does to the list (DashboardActivity.kt:170-173): a group replaces
      every group with its id and is inserted at the front; `null` changes nothing. */
  function AfterGroupSnapshot(items: seq<Entry>, g: Option<Group>): (r: seq<Entry>)
    ensures g.None? ==> r == items
    ensures g.Some? ==> r != [] && r[0] == GroupEntry(g.value) && |r| <= |items| + 1
  {
    if g.None? then items else [GroupEntry(g.value)] + WithoutKey(items, GroupKey(g.value.groupId))
  }

  /** What a friend listener does to the list (DashboardActivity.kt:185-188): a user replaces
      every user with its uid and is appended at the end; `null` changes nothing. */
  function AfterUserSnapshot(items: seq<Entry>, u: Option<User>): (r: seq<Entry>)
    ensures u.None? ==> r == items
    ensures u.Some? ==> r != [] && r[|r| - 1] == UserEntry(u.value) && |r| <= |items| + 1
  {
    if u.None? then items else WithoutKey(items, UserKey(u.value.uid)) + [UserEntry(u.value)]
  }

  /** A group snapshot puts its group first, leaves exactly one group with that id, changes the count
      of no other key (a user whose uid equals the group id stays) and keeps the rest in order. */
  lemma GroupSnapshotEffect(items: seq<Entry>, g: Group)
    ensures var r := AfterGroupSnapshot(items, Some(g));
      && r[0] == GroupEntry(g)
      && Count(r, GroupKey(g.groupId)) == 1
      && (forall k :: k != GroupKey(g.groupId) ==> Count(r, k) == Count(items, k))
      && (forall e :: e in items && KeyOf(e) != GroupKey(g.groupId) ==> e in r)
      && SubsequenceOf(r[1..], items)
  {
    var rest := WithoutKey(items, GroupKey(g.groupId));
    var r := [GroupEntry(g)] + rest;
    assert r[1..] == rest;
    WithoutKeyKeepsOrder(items, GroupKey(g.groupId));
    forall k ensures Count(r, k) == (if k == GroupKey(g.groupId) then 1 else Count(items, k)) {
      CountAppend([GroupEntry(g)], rest, k);
      CountWithoutKey(items, GroupKey(g.groupId), k);
    }
  }

  /** A user snapshot puts its user last (even if it was already listed), leaves exactly one user with
      that uid, changes the count of no other key and keeps the rest in order. */
  lemma UserSnapshotEffect(items: seq<Entry>, u: User)
    ensures var r := AfterUserSnapshot(items, Some(u));
      && r[|r| - 1] == UserEntry(u)
      && Count(r, UserKey(u.uid)) == 1
      && (forall k :: k != UserKey(u.uid) ==> Count(r, k) == Count(items, k))
      && (forall e :: e in items && KeyOf(e) != UserKey(u.uid) ==> e in r)
      && SubsequenceOf(r[..|r| - 1], items)
  {
    var rest := WithoutKey(items, UserKey(u.uid));
    var r := rest + [UserEntry(u)];
    assert r[..|r| - 1] == rest;
    WithoutKeyKeepsOrder(items, UserKey(u.uid));
    forall k ensures Count(r, k) == (if k == UserKey(u.uid) then 1 else Count(items, k)) {
      CountAppend(rest, [UserEntry(u)], k);
      CountWithoutKey(items, UserKey(u.uid), k);
    }
  }

  /** No two entries of the same kind share an id. */
  ghost predicate UniqueKeys(items: seq<Entry>) {
    forall k :: Count(items, k) <= 1
  }

  predicate AllUsers(items: seq<Entry>) {
    forall e :: e in items ==> e.UserEntry?
  }

  /** The groups form a prefix of the list and the users the rest. */
  predicate GroupsFirst(items: seq<Entry>) {
    items == [] || (items[0].GroupEntry? && GroupsFirst(items[1..])) || AllUsers(items)
  }

  /** Read with indexes: nothing after a user is a group. */
  lemma {:induction false} GroupsFirstByIndex(items: seq<Entry>)
    requires GroupsFirst(items)
    ensures forall i, j :: 0 <= i < j < |items| && items[i].UserEntry? ==> items[j].UserEntry?
  {
    if items != [] && !AllUsers(items) {
      GroupsFirstByIndex(items[1..]);
      forall i, j | 0 <= i < j < |items| && items[i].UserEntry? ensures items[j].UserEntry? {
        assert items[1..][i - 1] == items[i];
        assert items[1..][j - 1] == items[j];
      }
    }
  }

  lemma {:induction false} WithoutKeyKeepsGroupsFirst(items: seq<Entry>, k: Key)
    requires GroupsFirst(items)
    ensures GroupsFirst(WithoutKey(items, k))
  {
    var r := WithoutKey(items, k);
    if items == [] {
    } else if AllUsers(items) {
      assert AllUsers(r);
    } else {
      WithoutKeyKeepsGroupsFirst(items[1..], k);
      var rest := WithoutKey(items[1..], k);
      if KeyOf(items[0]) != k {
        assert r == [items[0]] + rest;
        assert r[1..] == rest;
      } else {
        assert r == rest;
      }
    }
  }

  lemma {:induction false} AppendUserKeepsGroupsFirst(items: seq<Entry>, u: User)
    requires GroupsFirst(items)
    ensures GroupsFirst(items + [UserEntry(u)])
  {
    var r := items + [UserEntry(u)];
    if items == [] || AllUsers(items) {
      assert AllUsers(r);
    } else {
      AppendUserKeepsGroupsFirst(items[1..], u);
      assert r[1..] == items[1..] + [UserEntry(u)];
    }
  }

  /** The roster invariant: per-kind ids are unique and groups come before users. */
  ghost predicate RosterInvariant(items: seq<Entry>) {
    UniqueKeys(items) && GroupsFirst(items)
  }

  lemma GroupSnapshotKeepsInvariant(items: seq<Entry>, g: Option<Group>)
    requires RosterInvariant(items)
    ensures RosterInvariant(AfterGroupSnapshot(items, g))
  {
    if g.Some? {
      GroupSnapshotEffect(items, g.value);
      WithoutKeyKeepsGroupsFirst(items, GroupKey(g.value.groupId));
      assert AfterGroupSnapshot(items, g)[1..] == WithoutKey(items, GroupKey(g.value.groupId));
    }
  }

  lemma UserSnapshotKeepsInvariant(items: seq<Entry>, u: Option<User>)
    requires RosterInvariant(items)
    ensures RosterInvariant(AfterUserSnapshot(items, u))
  {
    if u.Some? {
      UserSnapshotEffect(items, u.value);
      WithoutKeyKeepsGroupsFirst(items, UserKey(u.value.uid));
      AppendUserKeepsGroupsFirst(WithoutKey(items, UserKey(u.value.uid)), u.value);
    }
  }

  /** The text in front of the short id on the dashboard. */
  const IdPrefix: string := "Kimliğim: "

  /** The screen state of DashboardActivity that its listeners and buttons change. */
  class DashboardScreen {
    var dashboardItems: seq<Entry>
    /** Whether the "no chats yet" view is shown. */
    var emptyStateVisible: bool
    var isIdVisible: bool
    const myShortId: string

    ghost predicate Valid()
      reads this
    {
      RosterInvariant(dashboardItems)
    }

    /** onCreate: the short id comes from the signed-in uid, or stays "" without one; the empty-state
        view starts as the layout has it. */
    constructor(authUid: Option<string>, layoutEmptyState: bool)
      ensures Valid() && dashboardItems == [] && !isIdVisible
      ensures emptyStateVisible == layoutEmptyState
      ensures myShortId == if authUid.Some? then ShortIdOf(authUid.value) else ""
    {
      dashboardItems := [];
      emptyStateVisible := layoutEmptyState;
      isIdVisible := false;
      myShortId := if authUid.Some? then ShortIdOf(authUid.value) else "";
    }

    /** checkEmptyState */
    method CheckEmptyState()
      modifies this`emptyStateVisible
      ensures emptyStateVisible == (dashboardItems == [])
    {
      emptyStateVisible := dashboardItems == [];
    }

    /** The listener on the user's own node: whatever changed in it (its friend or group ids among
        others), the roster is emptied before the per-id listeners refill it. */
    method OnOwnRecordChanged()
      modifies this`dashboardItems, this`emptyStateVisible
      ensures Valid() && dashboardItems == [] && emptyStateVisible
    {
      dashboardItems := [];
      CheckEmptyState();
    }

    /** A group listener firing with the group, or `null` when the group node does not exist. */
    method OnGroupSnapshot(g: Option<Group>)
      requires Valid()
      modifies this`dashboardItems, this`emptyStateVisible
      ensures Valid()
      ensures dashboardItems == AfterGroupSnapshot(old(dashboardItems), g)
      ensures g.Some? ==> emptyStateVisible == (dashboardItems == [])
      ensures g.None? ==> emptyStateVisible == old(emptyStateVisible)
    {
      GroupSnapshotKeepsInvariant(dashboardItems, g);
      if g.Some? {
        dashboardItems := WithoutKey(dashboardItems, GroupKey(g.value.groupId));
        dashboardItems := [GroupEntry(g.value)] + dashboardItems;
        CheckEmptyState();
      }
    }

    /** A friend listener firing with the user, or `null` when the user node does not exist. */
    method OnUserSnapshot(u: Option<User>)
      requires Valid()
      modifies this`dashboardItems, this`emptyStateVisible
      ensures Valid()
      ensures dashboardItems == AfterUserSnapshot(old(dashboardItems), u)
      ensures u.Some? ==> emptyStateVisible == (dashboardItems == [])
      ensures u.None? ==> emptyStateVisible == old(emptyStateVisible)
    {
      UserSnapshotKeepsInvariant(dashboardItems, u);
      if u.Some? {
        dashboardItems := WithoutKey(dashboardItems, UserKey(u.value.uid));
        dashboardItems := dashboardItems + [UserEntry(u.value)];
        CheckEmptyState();
      }
    }

    /** The eye button. */
    method ToggleIdVisibility()
      modifies this`isIdVisible
      ensures isIdVisible == !old(isIdVisible)
    {
      isIdVisible := !isIdVisible;
    }

    /** updateIdUI: the short id when shown; when hidden, five stars whatever the id is. */
    function IdText(): (r: string)
      reads this
      ensures IdPrefix <= r
      ensures isIdVisible ==> r[|IdPrefix|..] == myShortId
      ensures !isIdVisible ==> r == IdPrefix + "*****"
    {
      IdPrefix + (if isIdVisible then myShortId else "*****")
    }
  }

  /** `PathRejected`: `child(shortId)` threw, and nothing catches the exception, so the app stops. */
  datatype AddFriendOutcome =
    | NotSignedIn
    | PathRejected
    | UserNotFound
    | CannotAddSelf
    | FriendAdded(updates: WriteSet)

  /** addFriendByShortId for the typed `shortId`, `friendUid` being the value stored at
      `/ShortIds/<shortId>` as a string: signed out, a short id the database refuses as a path, not
      found, yourself, or both friendship edges written as `true`. */
  function AddFriendByShortId(authUid: Option<string>, shortId: string, friendUid: Option<string>): (r: AddFriendOutcome)
    ensures r.NotSignedIn? <==> authUid.None?
    ensures authUid.Some? ==> (r.PathRejected? <==> !IsValidPathText(shortId))
    ensures authUid.Some? && IsValidPathText(shortId) ==> (r.UserNotFound? <==> friendUid.None?)
    ensures authUid.Some? && IsValidPathText(shortId) ==> (r.CannotAddSelf? <==> friendUid == authUid)
    ensures r.FriendAdded? ==>
      && authUid.Some? && IsValidPathText(shortId) && friendUid.Some? && friendUid != authUid
      && r.updates.Keys == {FriendEdge(authUid.value, friendUid.value), FriendEdge(friendUid.value, authUid.value)}
      && |r.updates| == 2
      && (forall p :: p in r.updates ==> r.updates[p] == Some(Flag(true)))
      && (forall a, b :: FriendEdge(a, b) in r.updates ==> FriendEdge(b, a) in r.updates)
      && PrefixFree(r.updates)
  {
    if authUid.None? then NotSignedIn
    else if !IsValidPathText(shortId) then PathRejected
    else if friendUid.None? then UserNotFound
    else if friendUid.value == authUid.value then CannotAddSelf
    else
      var me, them := authUid.value, friendUid.value;
      var w := map[FriendEdge(me, them) := Some(Flag(true)), FriendEdge(them, me) := Some(Flag(true))];
      assert FriendEdge(me, them) != FriendEdge(them, me) by {
        assert FriendEdge(me, them)[1] != FriendEdge(them, me)[1];
      }
      FriendAdded(w)
  }

  /** End to end: once a user has registered, another signed-in user whose typed input parses to
      that user's short id (see `ShortIdIsAccepted` for typing the id back) finds the user and gets
      both friendship edges written. */
  lemma RegisteredUserCanBeAdded(me: string, them: string, fullName: string, email: string, typed: string)
    requires me != them && IsValidPathText(them)
    requires ParseShortIdInput(typed) == Some(ShortIdOf(them))
    ensures var sid := ParseShortIdInput(typed).value;
      var found := LookupShortId(Register.RegisterWrites(Some(them), fullName, email), sid);
      && found == Some(them)
      && AddFriendByShortId(Some(me), sid, found).FriendAdded?
      && AddFriendByShortId(Some(me), sid, found).updates.Keys == {FriendEdge(me, them), FriendEdge(them, me)}
  {
    RegisteredUserIsFound(me, them, fullName, email);
  }

  /** The short id a registration writes leads back to the registered user, who can be added. */
  lemma RegisteredUserIsFound(me: string, them: string, fullName: string, email: string)
    requires me != them && IsValidPathText(them)
    ensures var sid := ShortIdOf(them);
      var found := LookupShortId(Register.RegisterWrites(Some(them), fullName, email), sid);
      && found == Some(them)
      && AddFriendByShortId(Some(me), sid, found).FriendAdded?
      && AddFriendByShortId(Some(me), sid, found).updates.Keys == {FriendEdge(me, them), FriendEdge(them, me)}
  {
    ShortIdKeepsValidPath(them);
    var found := LookupShortId(Register.RegisterWrites(Some(them), fullName, email), ShortIdOf(them));
    assert found == Some(them);
  }

  /** Typing an id such as "ab.cd" into the add-friend dialog passes the length check and stops
      the app: the database refuses the short id as a path, whatever is stored. */
  lemma RefusedPathStopsAddFriend(me: string, typed: string, friendUid: Option<string>)
    requires |typed| == ShortIdLength
    requires !IsWhitespace(typed[0]) && !IsWhitespace(typed[ShortIdLength - 1])
    requires forall i :: 0 <= i < |typed| ==> typed[i] as int <= 0xFFFF
    requires !IsValidPathText(typed)
    ensures ParseShortIdInput(typed).Some?
    ensures AddFriendByShortId(Some(me), ParseShortIdInput(typed).value, friendUid) == PathRejected
  {
    RefusedPathPassesLengthCheck(typed);
  }
}
