/** ChatActivity: the one-to-one chat between the signed-in user and a friend. */
module Chat {
  import opened Wrappers
  import opened Records
  import opened Text
  import opened WriteSets
  import opened Timeline

  /** Kotlin `String.compareTo(...) < 0`: lexicographic order, a proper prefix first. */
  predicate Before(a: string, b: string)
    decreases |a|
  {
    if a == [] then b != []
    else if b == [] then false
    else if a[0] != b[0] then a[0] < b[0]
    else Before(a[1..], b[1..])
  }

  lemma {:induction false} BeforeIrreflexive(a: string)
    ensures !Before(a, a)
    decreases |a|
  {
    if a != [] {
      BeforeIrreflexive(a[1..]);
    }
  }

  lemma {:induction false} BeforeAsymmetric(a: string, b: string)
    ensures Before(a, b) ==> !Before(b, a)
    decreases |a|
  {
    if a != [] && b != [] && a[0] == b[0] {
      BeforeAsymmetric(a[1..], b[1..]);
    }
  }

  lemma {:induction false} BeforeTotal(a: string, b: string)
    ensures a != b ==> Before(a, b) || Before(b, a)
    decreases |a|
  {
    if a != [] && b != [] && a[0] == b[0] {
      BeforeTotal(a[1..], b[1..]);
      if a[1..] == b[1..] {
        assert a == [a[0]] + a[1..] && b == [b[0]] + b[1..];
      }
    }
  }

  /** The chat-room id: both uids concatenated, the one that sorts first in front. */
  function RoomId(a: string, b: string): (r: string)
    ensures |r| == |a| + |b|
    ensures !Before(b, a) ==> r == a + b
    ensures !Before(a, b) ==> r == b + a
  {
    BeforeTotal(a, b);
    if Before(a, b) then a + b else b + a
  }

  /** Both participants compute the same room. */
  lemma RoomIdSymmetric(a: string, b: string)
    ensures RoomId(a, b) == RoomId(b, a)
  {
    BeforeAsymmetric(a, b);
    BeforeTotal(a, b);
  }

  /** When all uids have one length (as the database's generated uids do), a room id names a
      single pair of users. */
  lemma RoomIdNamesOnePair(a: string, b: string, c: string, d: string)
    requires |a| == |b| == |c| == |d|
    requires RoomId(a, b) == RoomId(c, d)
    ensures (a == c && b == d) || (a == d && b == c)
  {
    var r := RoomId(a, b);
    var n := |a|;
    var first := if Before(a, b) then a else b;
    var second := if Before(a, b) then b else a;
    var first' := if Before(c, d) then c else d;
    var second' := if Before(c, d) then d else c;
    assert r == first + second && r == first' + second';
    assert first == r[..n] == first';
    assert second == r[n..] == second';
  }

  /** The id-presence guard of onCreate: no room unless both uids are present and non-empty. */
  function ChatRoomFor(senderUid: Option<string>, receiverUid: Option<string>): (r: Option<string>)
    ensures r.None? <==>
      senderUid == None || senderUid == Some([]) || receiverUid == None || receiverUid == Some([])
    ensures r.Some? ==> r.value == RoomId(senderUid.value, receiverUid.value)
  {
    match (senderUid, receiverUid)
    case (Some(s), Some(v)) => if s == [] || v == [] then None else Some(RoomId(s, v))
    case _ => None
  }

  /** The send button: the typed text is trimmed and sent only when something is left. */
  function OutgoingMessage(typed: string, senderId: string, now: int): (r: Option<Message>)
    ensures r.None? <==> Blank(typed)
    ensures r.Some? ==> r.value.message == Trim(typed) && r.value.message != []
    ensures r.Some? ==> r.value.senderId == senderId && r.value.timestamp == now
  {
    var text := Trim(typed);
    if text != [] then Some(Message(text, senderId, now)) else None
  }

  /** unmatchUser: both friendship edges and the whole room are deleted in one update. */
  function UnmatchWrites(senderUid: string, receiverUid: string): (w: WriteSet)
    ensures AllDeletions(w)
    ensures w.Keys == {FriendEdge(senderUid, receiverUid), FriendEdge(receiverUid, senderUid),
                       ChatNode(RoomId(senderUid, receiverUid))}
    ensures |w| == if senderUid != receiverUid then 3 else 2
    ensures PrefixFree(w)
  {
    var room := RoomId(senderUid, receiverUid);
    var w := map[FriendEdge(senderUid, receiverUid) := None,
                 FriendEdge(receiverUid, senderUid) := None,
                 ChatNode(room) := None];
    assert FriendEdge(senderUid, receiverUid)[0] != ChatNode(room)[0];
    assert FriendEdge(receiverUid, senderUid)[0] != ChatNode(room)[0];
    assert senderUid != receiverUid ==>
      FriendEdge(senderUid, receiverUid)[3] != FriendEdge(receiverUid, senderUid)[3];
    assert PrefixFree(w) by {
      forall p, q | p in w && q in w
        ensures !(p < q)
      {
        if |p| < |q| {
          DifferentSegment(p, q, 0);
        }
      }
    }
    w
  }

  /** Either side of a friendship unmatches to the same update. */
  lemma UnmatchIsSymmetric(a: string, b: string)
    ensures UnmatchWrites(a, b) == UnmatchWrites(b, a)
  {
    RoomIdSymmetric(a, b);
  }

  class ChatScreen {
    const senderUid: string
    const receiverUid: string
    const chatRoom: string
    const messageList: MessageList
    const adapter: MessageAdapter
    var finished: bool

    ghost predicate Valid()
      reads this, adapter
    {
      && adapter.messageList == messageList
      && !adapter.isGroupChat
      && Some(chatRoom) == ChatRoomFor(Some(senderUid), Some(receiverUid))
    }

    /** onCreate past the id guard: the room id, then the adapter over the (still empty) list. */
    constructor(senderUid: string, receiverUid: string, cal: LocalCalendar)
      requires senderUid != [] && receiverUid != []
      ensures Valid() && fresh(messageList) && fresh(adapter)
      ensures this.senderUid == senderUid && this.receiverUid == receiverUid
      ensures chatRoom == RoomId(senderUid, receiverUid)
      ensures messageList.items == [] && adapter.displayList == [] && !finished
    {
      this.senderUid := senderUid;
      this.receiverUid := receiverUid;
      chatRoom := RoomId(senderUid, receiverUid);
      var list := new MessageList();
      messageList := list;
      adapter := new MessageAdapter(list, false, cal);
      finished := false;
    }

    /** The message listener as written: the list is refilled but the adapter's rows are not
        rebuilt (only `notifyDataSetChanged` is called). */
    method OnMessagesAsWritten(children: seq<Option<Message>>)
      requires Valid()
      modifies messageList
      ensures Valid()
      ensures messageList.items == Parseable(children)
      ensures adapter.displayList == old(adapter.displayList)
    {
      messageList.Refill(children);
    }

    /** The message listener with the rows rebuilt, as the group chat does it. */
    method OnMessages(children: seq<Option<Message>>, cal: LocalCalendar)
      requires Valid()
      modifies messageList, adapter
      ensures Valid()
      ensures messageList.items == Parseable(children)
      ensures adapter.displayList == Assemble(cal, Parseable(children))
    {
      messageList.Refill(children);
      adapter.UpdateData(cal);
    }

    /** checkUnmatchStatus: the screen closes once the own friendship edge is gone. */
    method OnFriendEdge(exists_: bool)
      modifies this
      ensures finished == (old(finished) || !exists_)
    {
      if !exists_ {
        finished := true;
      }
    }

    /** sendMessage: a new push key under the room's messages, written only for non-blank text. */
    function SendWrites(typed: string, now: int, pushKey: string): (w: Option<WriteSet>)
      ensures w.None? <==> Blank(typed)
      ensures w.Some? ==> w.value.Keys == {ChatMessage(chatRoom, pushKey)}
      ensures w.Some? ==>
        w.value[ChatMessage(chatRoom, pushKey)] == Some(MessageValue(Message(Trim(typed), senderUid, now)))
    {
      match OutgoingMessage(typed, senderUid, now)
      case None => None
      case Some(m) => Some(map[ChatMessage(chatRoom, pushKey) := Some(MessageValue(m))])
    }
  }

  /** onCreate: the guard, then the screen. */
  method OpenChat(senderUid: Option<string>, receiverUid: Option<string>, cal: LocalCalendar)
    returns (screen: Option<ChatScreen>)
    ensures screen.None? <==> ChatRoomFor(senderUid, receiverUid).None?
    ensures screen.Some? ==> screen.value.Valid() && Some(screen.value.chatRoom) == ChatRoomFor(senderUid, receiverUid)
  {
    match ChatRoomFor(senderUid, receiverUid)
    case None =>
      screen := None;
    case Some(_) =>
      var s := new ChatScreen(senderUid.value, receiverUid.value, cal);
      screen := Some(s);
  }

  /** A direct chat as written: one message arrives, the list holds it, the screen shows no row. */
  method StaleDirectChat(cal: LocalCalendar, m: Message) returns (loaded: nat, shown: nat)
    ensures loaded == 1 && shown == 0
  {
    var screen := new ChatScreen("alice", "bob", cal);
    screen.OnMessagesAsWritten([Some(m)]);
    assert [Some(m)][..0] == [];
    loaded := |screen.messageList.items|;
    shown := screen.adapter.ItemCount();
  }

  /** The same chat with the rows rebuilt: the message and its day header are shown. */
  method RefreshedDirectChat(cal: LocalCalendar, m: Message) returns (loaded: nat, shown: nat)
    ensures loaded == 1 && shown == 2
  {
    var screen := new ChatScreen("alice", "bob", cal);
    screen.OnMessages([Some(m)], cal);
    assert [Some(m)][..0] == [];
    SingleMessage(cal, m);
    loaded := |screen.messageList.items|;
    shown := screen.adapter.ItemCount();
  }
}
