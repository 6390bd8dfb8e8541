/** The multi-path updates the screens hand to the realtime database: a map from a path (its
    segments, "/Users/u/friends/f" being ["Users", u, "friends", f]) to the value written there,
    `None` standing for Kotlin `null`, which deletes the node. */
module WriteSets {
  import opened Wrappers
  import opened Records

  datatype Value =
    | Flag(b: bool)
    | Str(s: string)
    | UserValue(user: User)
    | GroupValue(group: Group)
    | MessageValue(message: Message)

  type Path = seq<string>
  type WriteSet = map<Path, Option<Value>>

  function UserNode(uid: string): Path { ["Users", uid] }
  function UserField(uid: string, field: string): Path { ["Users", uid, field] }
  function FriendEdge(owner: string, friend: string): Path { ["Users", owner, "friends", friend] }
  function GroupLink(uid: string, gid: string): Path { ["Users", uid, "groups", gid] }
  function GroupNode(gid: string): Path { ["Groups", gid] }
  function GroupAdmin(gid: string): Path { ["Groups", gid, "adminId"] }
  function GroupMember(gid: string, uid: string): Path { ["Groups", gid, "members", uid] }
  function GroupChatNode(gid: string): Path { ["GroupChats", gid] }
  function ChatNode(room: string): Path { ["Chats", room] }
  function ChatMessage(room: string, key: string): Path { ["Chats", room, "messages", key] }
  function GroupChatMessage(gid: string, key: string): Path { ["GroupChats", gid, "messages", key] }
  function ShortIdNode(shortId: string): Path { ["ShortIds", shortId] }

  /** The characters the database's `child(path)` refuses in a path: it throws a `DatabaseException`
      for a path holding any of them. */
  const ForbiddenPathChars: set<char> := {'.', '#', '$', '[', ']'}

  /** Text that `child(...)` accepts as part of a path. */
  predicate IsValidPathText(s: string) {
    forall i :: 0 <= i < |s| ==> s[i] !in ForbiddenPathChars
  }

  /** The database refuses a multi-path update in which one path lies inside another. */
  ghost predicate PrefixFree(w: WriteSet) {
    forall p, q :: p in w && q in w ==> !(p < q)
  }

  /** Every value of the update is `v`. */
  ghost predicate AllSetTo(w: WriteSet, v: Option<Value>) {
    forall p :: p in w ==> w[p] == v
  }

  /** Every value of the update is a deletion. */
  ghost predicate AllDeletions(w: WriteSet) {
    AllSetTo(w, None)
  }

  /** The per-user links `/Users/m/groups/gid` of a set of members. */
  function GroupLinks(uids: set<string>, gid: string): (r: set<Path>)
    ensures forall m {:trigger GroupLink(m, gid)} :: GroupLink(m, gid) in r <==> m in uids
    ensures forall p :: p in r ==> |p| == 4 && p[0] == "Users"
  {
    set m | m in uids :: GroupLink(m, gid)
  }

  /** Adding a member adds that member's link. */
  lemma GroupLinksAdd(uids: set<string>, m: string, gid: string)
    ensures GroupLinks(uids + {m}, gid) == GroupLinks(uids, gid) + {GroupLink(m, gid)}
  {
  }

  /** One link per member: the links of distinct members are distinct paths. */
  lemma {:induction false} GroupLinksCount(uids: set<string>, gid: string)
    ensures |GroupLinks(uids, gid)| == |uids|
    decreases |uids|
  {
    if uids != {} {
      var m :| m in uids;
      var rest := uids - {m};
      GroupLinksCount(rest, gid);
      assert GroupLinks(uids, gid) == GroupLinks(rest, gid) + {GroupLink(m, gid)};
      assert GroupLink(m, gid) !in GroupLinks(rest, gid);
    } else {
      assert GroupLinks(uids, gid) == {};
    }
  }

  /** Two paths that differ in a segment both have are not nested. */
  lemma DifferentSegment(p: Path, q: Path, i: nat)
    requires i < |p| && i < |q| && p[i] != q[i]
    ensures !(p < q) && !(q < p)
  {
  }

  /** One step of the link loop: storing `v` at member m's link adds that link and keeps every
      value equal to `v`. */
  lemma LinkStep(w: WriteSet, done: set<string>, m: string, gid: string, v: Option<Value>)
    requires w.Keys == GroupLinks(done, gid) && AllSetTo(w, v)
    ensures w[GroupLink(m, gid) := v].Keys == GroupLinks(done + {m}, gid)
    ensures AllSetTo(w[GroupLink(m, gid) := v], v)
  {
    GroupLinksAdd(done, m, gid);
  }

  /** `uids.forEach { updates["/Users/$it/groups/$gid"] = v }` into an empty update: one link per
      uid, each set to `v`. */
  method SetGroupLinks(uids: set<string>, gid: string, v: Option<Value>) returns (updates: WriteSet)
    ensures updates.Keys == GroupLinks(uids, gid)
    ensures AllSetTo(updates, v)
  {
    updates := map[];
    var todo := uids;
    while todo != {}
      invariant todo <= uids
      invariant updates.Keys == GroupLinks(uids - todo, gid)
      invariant AllSetTo(updates, v)
      decreases |todo|
    {
      var m :| m in todo;
      LinkStep(updates, uids - todo, m, gid, v);
      assert uids - (todo - {m}) == (uids - todo) + {m};
      updates := updates[GroupLink(m, gid) := v];
      todo := todo - {m};
    }
    assert uids - todo == uids;
  }

  /** Links plus top-level nodes: as many paths as members plus nodes, since a link (four
      segments) is never a node (two segments). */
  lemma LinksPlusNodesCount(uids: set<string>, gid: string, nodes: set<Path>)
    requires forall p :: p in nodes ==> |p| == 2
    ensures |GroupLinks(uids, gid) + nodes| == |uids| + |nodes|
  {
    GroupLinksCount(uids, gid);
    assert GroupLinks(uids, gid) !! nodes;
  }

  /** Links plus top-level nodes outside /Users: no path lies inside another. */
  lemma LinksPlusNodesPrefixFree(w: WriteSet, uids: set<string>, gid: string, nodes: set<Path>)
    requires forall p :: p in nodes ==> |p| == 2 && p[0] != "Users"
    requires w.Keys == GroupLinks(uids, gid) + nodes
    ensures PrefixFree(w)
  {
    forall p, q | p in w && q in w
      ensures !(p < q)
    {
      if |p| < |q| {
        DifferentSegment(p, q, 0);
      }
    }
  }

  /** The update that clears a group: the members' links, the group node and the chat node. Its
      paths are distinct and none lies inside another. */
  lemma GroupRemovalShape(w: WriteSet, uids: set<string>, gid: string)
    requires w.Keys == GroupLinks(uids, gid) + {GroupNode(gid), GroupChatNode(gid)}
    ensures |w| == |uids| + 2
    ensures PrefixFree(w)
  {
    var nodes := {GroupNode(gid), GroupChatNode(gid)};
    assert |nodes| == 2 by {
      assert GroupNode(gid)[0] != GroupChatNode(gid)[0];
    }
    LinksPlusNodesCount(uids, gid, nodes);
    LinksPlusNodesPrefixFree(w, uids, gid, nodes);
  }

  /** The update that creates a group: the group node and one link per member. Its paths are
      distinct and none lies inside another. */
  lemma GroupCreationShape(w: WriteSet, uids: set<string>, gid: string)
    requires w.Keys == GroupLinks(uids, gid) + {GroupNode(gid)}
    ensures |w| == |uids| + 1
    ensures PrefixFree(w)
  {
    LinksPlusNodesCount(uids, gid, {GroupNode(gid)});
    LinksPlusNodesPrefixFree(w, uids, gid, {GroupNode(gid)});
  }

  /** The links, each set to `v`, with the group record added at the group node: the record and
      every link keep their values, and the paths are the creation shape. */
  lemma LinksWithGroupNode(links: WriteSet, uids: set<string>, gid: string, v: Option<Value>, record: Option<Value>)
    requires links.Keys == GroupLinks(uids, gid) && AllSetTo(links, v)
    ensures var w := links[GroupNode(gid) := record];
      && w.Keys == GroupLinks(uids, gid) + {GroupNode(gid)}
      && |w| == |uids| + 1
      && w[GroupNode(gid)] == record
      && (forall m :: m in uids ==> w[GroupLink(m, gid)] == v)
      && PrefixFree(w)
  {
    var w := links[GroupNode(gid) := record];
    GroupCreationShape(w, uids, gid);
    forall m | m in uids
      ensures w[GroupLink(m, gid)] == v
    {
      assert GroupLink(m, gid) in links;
      assert GroupLink(m, gid)[0] != GroupNode(gid)[0];
    }
  }

  /** What `/ShortIds/sid` holds after the update, read as `snapshot.value as? String`. */
  function LookupShortId(w: WriteSet, shortId: string): Option<string> {
    var p := ShortIdNode(shortId);
    if p in w && w[p].Some? && w[p].value.Str? then Some(w[p].value.s) else None
  }

  /** The string an update writes at `p`, or `current` when it writes no string there. */
  function StrAt(w: WriteSet, p: Path, current: string): string {
    if p in w && w[p].Some? && w[p].value.Str? then w[p].value.s else current
  }

  /** The record at /Users/uid once an update has been applied to it, `None` if the update deletes
      it: a whole new record, or new values for its string fields. */
  function UserAfterUpdate(uid: string, u: User, w: WriteSet): Option<User> {
    if UserNode(uid) in w then
      (if w[UserNode(uid)].Some? && w[UserNode(uid)].value.UserValue?
       then Some(w[UserNode(uid)].value.user) else None)
    else
      Some(u.(fullName := StrAt(w, UserField(uid, "fullName"), u.fullName),
              email := StrAt(w, UserField(uid, "email"), u.email),
              shortId := StrAt(w, UserField(uid, "shortId"), u.shortId),
              profileImageUrl := StrAt(w, UserField(uid, "profileImageUrl"), u.profileImageUrl),
              chatColor := StrAt(w, UserField(uid, "chatColor"), u.chatColor)))
  }

  /** The record at /Groups/gid once an update has been applied to it, `None` if the update deletes
      it. Covers what the group write-sets of the app do to an existing group: replacing or deleting
      the node, deleting member entries and setting `adminId`. */
  function GroupAfterUpdate(gid: string, g: Group, w: WriteSet): Option<Group> {
    if GroupNode(gid) in w then
      (if w[GroupNode(gid)].Some? && w[GroupNode(gid)].value.GroupValue?
       then Some(w[GroupNode(gid)].value.group) else None)
    else
      var members := map m | m in g.members && GroupMember(gid, m) !in w :: g.members[m];
      var admin := GroupAdmin(gid);
      var adminId := if admin in w && w[admin].Some? && w[admin].value.Str? then w[admin].value.s else g.adminId;
      Some(g.(members := members, adminId := adminId))
  }
}
