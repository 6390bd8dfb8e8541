/** MessageAdapter: the message list interleaved with day headers, and the view type of each row. */
module Timeline {
  import opened Wrappers
  import opened Records

  /** A non-empty text; `SimpleDateFormat("d MMMM yyyy")` never yields "". */
  type NonEmptyText = s: string | s != [] witness "-"

  /** The device calendar at the moment the list is rebuilt: the day number of today, the day
      number of a timestamp, and the long date format of a timestamp. */
  datatype LocalCalendar = LocalCalendar(
    today: int,
    dayOf: int -> int,
    longDate: int -> NonEmptyText)

  const Today: string := "Bugün"
  const Yesterday: string := "Dün"

  /** getFormattedDate: "Bugün" for today's messages, "Dün" for yesterday's, the long date for any
      other day; never empty. */
  function Label(cal: LocalCalendar, timestamp: int): (r: string)
    ensures r != []
    ensures cal.dayOf(timestamp) == cal.today ==> r == Today
    ensures cal.dayOf(timestamp) == cal.today - 1 ==> r == Yesterday
    ensures cal.dayOf(timestamp) != cal.today && cal.dayOf(timestamp) != cal.today - 1 ==>
      r == cal.longDate(timestamp)
  {
    var day := cal.dayOf(timestamp);
    if day == cal.today then Today
    else if day == cal.today - 1 then Yesterday
    else cal.longDate(timestamp)
  }

  function LabelOf(cal: LocalCalendar, m: Message): string {
    Label(cal, m.timestamp)
  }

  /** An element of `displayList`: a header `String` or a `Message`. */
  datatype Item = DateHeader(title: string) | MessageItem(message: Message)

  /** Message `i` opens a run of its day: it is the first message, or its label differs from the
      label of the message before it. */
  predicate StartsRun(cal: LocalCalendar, msgs: seq<Message>, i: nat)
    requires i < |msgs|
  {
    i == 0 || LabelOf(cal, msgs[i]) != LabelOf(cal, msgs[i - 1])
  }

  /** The rows the messages show as: each message, preceded by a header with its label exactly when
      it opens a run. */
  function Assemble(cal: LocalCalendar, msgs: seq<Message>): seq<Item> {
    if msgs == [] then []
    else
      var n := |msgs| - 1;
      Assemble(cal, msgs[..n])
        + (if StartsRun(cal, msgs, n) then [DateHeader(LabelOf(cal, msgs[n]))] else [])
        + [MessageItem(msgs[n])]
  }

  /** The messages of a row list, headers deleted. */
  function MessagesOf(items: seq<Item>): seq<Message> {
    if items == [] then []
    else
      var n := |items| - 1;
      MessagesOf(items[..n]) + (if items[n].MessageItem? then [items[n].message] else [])
  }

  /** Number of header rows. */
  function HeaderCount(items: seq<Item>): nat {
    if items == [] then 0
    else
      var n := |items| - 1;
      HeaderCount(items[..n]) + (if items[n].DateHeader? then 1 else 0)
  }

  /** Number of positions where the label changes from one message to the next. */
  function LabelChanges(cal: LocalCalendar, msgs: seq<Message>): nat {
    if |msgs| < 2 then 0
    else
      var n := |msgs| - 1;
      LabelChanges(cal, msgs[..n]) + (if LabelOf(cal, msgs[n]) != LabelOf(cal, msgs[n - 1]) then 1 else 0)
  }

  lemma {:induction false} HeaderCountAppend(a: seq<Item>, b: seq<Item>)
    ensures HeaderCount(a + b) == HeaderCount(a) + HeaderCount(b)
    decreases |b|
  {
    if b == [] {
      assert a + b == a;
    } else {
      var n := |b| - 1;
      assert (a + b)[..|a + b| - 1] == a + b[..n];
      HeaderCountAppend(a, b[..n]);
    }
  }

  /** The messages of one more step of the assembly: the header adds none, the message row adds
      its message. */
  lemma MessagesOfStep(prev: seq<Item>, header: seq<Item>, m: Message)
    requires header == [] || (|header| == 1 && header[0].DateHeader?)
    ensures MessagesOf(prev + header + [MessageItem(m)]) == MessagesOf(prev) + [m]
  {
    var body := prev + header;
    assert (body + [MessageItem(m)])[..|body|] == body;
    if header != [] {
      assert body[..|prev|] == prev;
    } else {
      assert body == prev;
    }
  }

  /** Deleting the headers gives back exactly the messages, in their order. */
  lemma {:induction false} HeadersDeletedGivesMessages(cal: LocalCalendar, msgs: seq<Message>)
    ensures MessagesOf(Assemble(cal, msgs)) == msgs
  {
    if msgs != [] {
      var n := |msgs| - 1;
      var prev := Assemble(cal, msgs[..n]);
      var header := if StartsRun(cal, msgs, n) then [DateHeader(LabelOf(cal, msgs[n]))] else [];
      assert Assemble(cal, msgs) == prev + header + [MessageItem(msgs[n])];
      MessagesOfStep(prev, header, msgs[n]);
      HeadersDeletedGivesMessages(cal, msgs[..n]);
      assert msgs[..n] + [msgs[n]] == msgs;
    }
  }

  /** One header for the first message and one per label change, so the row count is the number of
      messages plus that number of headers. */
  lemma {:induction false} RowCount(cal: LocalCalendar, msgs: seq<Message>)
    ensures HeaderCount(Assemble(cal, msgs)) == (if msgs == [] then 0 else 1 + LabelChanges(cal, msgs))
    ensures |Assemble(cal, msgs)| == |msgs| + HeaderCount(Assemble(cal, msgs))
  {
    if msgs != [] {
      var n := |msgs| - 1;
      var header := if StartsRun(cal, msgs, n) then [DateHeader(LabelOf(cal, msgs[n]))] else [];
      assert Assemble(cal, msgs) == Assemble(cal, msgs[..n]) + header + [MessageItem(msgs[n])];
      RowCount(cal, msgs[..n]);
      HeaderCountAppend(Assemble(cal, msgs[..n]) + header, [MessageItem(msgs[n])]);
      HeaderCountAppend(Assemble(cal, msgs[..n]), header);
      assert HeaderCount([MessageItem(msgs[n])]) == 0 by {
        assert [MessageItem(msgs[n])][..0] == [];
      }
      if header != [] {
        assert HeaderCount(header) == 1 by {
          assert header[..0] == [];
        }
      }
      if n >= 1 {
        assert msgs[..n][..n - 1] == msgs[..n - 1];
      }
    }
  }

  /** Every header is directly followed by a message carrying that header's label: no two headers
      are adjacent and the list never ends with a header. */
  ghost predicate HeadersLeadMessages(cal: LocalCalendar, items: seq<Item>) {
    forall k :: 0 <= k < |items| && items[k].DateHeader? ==>
      k + 1 < |items| && items[k + 1].MessageItem? && items[k].title == LabelOf(cal, items[k + 1].message)
  }

  /** Every message row sits under its own day: the row before it is a header with its label or a
      message with the same label, and the first row is never a message. */
  ghost predicate MessagesUnderTheirDay(cal: LocalCalendar, items: seq<Item>) {
    forall k :: 0 <= k < |items| && items[k].MessageItem? ==>
      && k > 0
      && (items[k - 1].DateHeader? ==> items[k - 1].title == LabelOf(cal, items[k].message))
      && (items[k - 1].MessageItem? ==> LabelOf(cal, items[k - 1].message) == LabelOf(cal, items[k].message))
  }

  /** The rows open with the header of the first message's day. */
  lemma {:induction false} AssembleFirstRow(cal: LocalCalendar, msgs: seq<Message>)
    requires msgs != []
    ensures var a := Assemble(cal, msgs); a != [] && a[0] == DateHeader(LabelOf(cal, msgs[0]))
  {
    var n := |msgs| - 1;
    if n > 0 {
      assert msgs[..n][0] == msgs[0];
      AssembleFirstRow(cal, msgs[..n]);
    }
  }

  lemma {:induction false} AssembleLastRow(cal: LocalCalendar, msgs: seq<Message>)
    requires msgs != []
    ensures var a := Assemble(cal, msgs); a != [] && a[|a| - 1] == MessageItem(msgs[|msgs| - 1])
  {
  }

  /** Appending one message, with or without its header, keeps headers in front of messages. */
  lemma HeadersLeadAfterStep(cal: LocalCalendar, prev: seq<Item>, header: seq<Item>, m: Message)
    requires HeadersLeadMessages(cal, prev)
    requires header == [] || header == [DateHeader(LabelOf(cal, m))]
    ensures HeadersLeadMessages(cal, prev + header + [MessageItem(m)])
  {
    var a := prev + header + [MessageItem(m)];
    forall k | 0 <= k < |a| && a[k].DateHeader?
      ensures k + 1 < |a| && a[k + 1].MessageItem? && a[k].title == LabelOf(cal, a[k + 1].message)
    {
      if k < |prev| {
        assert a[k] == prev[k];
        assert a[k + 1] == prev[k + 1];
      }
    }
  }

  /** Appending the next message keeps every message under its own day, provided the header is
      there whenever the label changes (or the list was empty). */
  lemma UnderTheirDayAfterStep(cal: LocalCalendar, prev: seq<Item>, header: seq<Item>, m: Message)
    requires MessagesUnderTheirDay(cal, prev)
    requires header == [] || header == [DateHeader(LabelOf(cal, m))]
    requires header == [] ==>
      prev != [] && prev[|prev| - 1].MessageItem? && LabelOf(cal, prev[|prev| - 1].message) == LabelOf(cal, m)
    ensures MessagesUnderTheirDay(cal, prev + header + [MessageItem(m)])
  {
    var a := prev + header + [MessageItem(m)];
    forall k | 0 <= k < |a| && a[k].MessageItem?
      ensures k > 0
      ensures a[k - 1].DateHeader? ==> a[k - 1].title == LabelOf(cal, a[k].message)
      ensures a[k - 1].MessageItem? ==> LabelOf(cal, a[k - 1].message) == LabelOf(cal, a[k].message)
    {
      if k < |prev| {
        assert a[k] == prev[k] && a[k - 1] == prev[k - 1];
      } else if header == [] {
        assert a[k - 1] == prev[|prev| - 1];
      }
    }
  }

  /** The two layout properties of the assembled rows. */
  lemma {:induction false} AssembleLayout(cal: LocalCalendar, msgs: seq<Message>)
    ensures HeadersLeadMessages(cal, Assemble(cal, msgs))
    ensures MessagesUnderTheirDay(cal, Assemble(cal, msgs))
  {
    if msgs != [] {
      var n := |msgs| - 1;
      var prev := Assemble(cal, msgs[..n]);
      var header := if StartsRun(cal, msgs, n) then [DateHeader(LabelOf(cal, msgs[n]))] else [];
      assert Assemble(cal, msgs) == prev + header + [MessageItem(msgs[n])];
      AssembleLayout(cal, msgs[..n]);
      if n > 0 {
        AssembleLastRow(cal, msgs[..n]);
        assert msgs[..n][n - 1] == msgs[n - 1];
      }
      HeadersLeadAfterStep(cal, prev, header, msgs[n]);
      UnderTheirDayAfterStep(cal, prev, header, msgs[n]);
    }
  }

  /** No message, no rows. */
  lemma NoMessagesNoRows(cal: LocalCalendar)
    ensures Assemble(cal, []) == []
  {
  }

  /** A single message shows as its header followed by itself. */
  lemma SingleMessage(cal: LocalCalendar, m: Message)
    ensures Assemble(cal, [m]) == [DateHeader(LabelOf(cal, m)), MessageItem(m)]
  {
    assert [m][..0] == [];
  }

  /** A day that comes back after another day's messages gets a second header. */
  lemma {:induction false} RecurringDayGetsSecondHeader(cal: LocalCalendar, a: Message, b: Message, c: Message)
    requires LabelOf(cal, a) != LabelOf(cal, b) && LabelOf(cal, c) == LabelOf(cal, a)
    ensures Assemble(cal, [a, b, c]) == [
      DateHeader(LabelOf(cal, a)), MessageItem(a),
      DateHeader(LabelOf(cal, b)), MessageItem(b),
      DateHeader(LabelOf(cal, a)), MessageItem(c)]
  {
    SingleMessage(cal, a);
    assert [a, b][..1] == [a];
    assert Assemble(cal, [a, b]) == [DateHeader(LabelOf(cal, a)), MessageItem(a), DateHeader(LabelOf(cal, b)), MessageItem(b)];
    assert [a, b, c][..2] == [a, b];
  }

  const ItemSent: int := 1
  const ItemReceived: int := 2
  const ItemDate: int := 3

  /** getItemViewType: a header is a date row; a message is "sent" exactly when its sender is the
      signed-in user (`null` when signed out) and "received" otherwise. */
  function ViewType(item: Item, currentUid: Option<string>): (t: int)
    ensures t == ItemDate <==> item.DateHeader?
    ensures t == ItemSent <==> item.MessageItem? && currentUid == Some(item.message.senderId)
    ensures t == ItemReceived <==> item.MessageItem? && currentUid != Some(item.message.senderId)
  {
    if item.DateHeader? then ItemDate
    else if currentUid == Some(item.message.senderId) then ItemSent
    else ItemReceived
  }

  /** The messages `getValue` yields for the children of a message-list snapshot, in snapshot order.
      A `None` child stands for a stored value `getValue` cannot convert: the app throws there and
      stops, and the model skips the child in its place. */
  function Parseable(children: seq<Option<Message>>): (r: seq<Message>)
    ensures |r| <= |children|
    ensures forall m :: m in r <==> Some(m) in children
  {
    if children == [] then []
    else
      var n := |children| - 1;
      Parseable(children[..n]) + (if children[n].Some? then [children[n].value] else [])
  }

  /** Parsing a snapshot split in two parses each part. */
  lemma {:induction false} ParseableAppend(a: seq<Option<Message>>, b: seq<Option<Message>>)
    ensures Parseable(a + b) == Parseable(a) + Parseable(b)
  {
    if b == [] {
      assert a + b == a;
    } else {
      var n := |b| - 1;
      assert (a + b)[..|a + b| - 1] == a + b[..n];
      ParseableAppend(a, b[..n]);
    }
  }

  /** A converted child is kept; a child standing for a value `getValue` cannot convert is skipped. */
  lemma ParseableSingle(m: Message)
    ensures Parseable([Some(m)]) == [m]
    ensures Parseable([None]) == []
  {
  }

  /** The `MutableList<Message>` an activity owns and hands to its MessageAdapter. */
  class MessageList {
    var items: seq<Message>

    constructor()
      ensures items == []
    {
      items := [];
    }

    /** The message listener of both chat screens: clear, then add the message of every child. */
    method Refill(children: seq<Option<Message>>)
      modifies this
      ensures items == Parseable(children)
    {
      items := [];
      var i := 0;
      while i < |children|
        invariant 0 <= i <= |children|
        invariant items == Parseable(children[..i])
      {
        assert children[..i + 1][..i] == children[..i];
        if children[i].Some? {
          items := items + [children[i].value];
        }
        i := i + 1;
      }
      assert children[..|children|] == children;
    }
  }

  class MessageAdapter {
    const messageList: MessageList
    const isGroupChat: bool
    var displayList: seq<Item>

    /** The adapter builds its rows once, from the list as it is when the adapter is created. */
    constructor(messageList: MessageList, isGroupChat: bool, cal: LocalCalendar)
      ensures this.messageList == messageList && this.isGroupChat == isGroupChat
      ensures displayList == Assemble(cal, messageList.items)
    {
      this.messageList := messageList;
      this.isGroupChat := isGroupChat;
      displayList := [];
      new;
      UpdateDisplayList(cal);
    }

    /** updateDisplayList: one pass over the messages remembering the last label emitted. */
    method UpdateDisplayList(cal: LocalCalendar)
      modifies this`displayList
      ensures displayList == Assemble(cal, messageList.items)
    {
      var msgs := messageList.items;
      var newList: seq<Item> := [];
      var lastDate: string := "";
      var i := 0;
      while i < |msgs|
        invariant 0 <= i <= |msgs|
        invariant newList == Assemble(cal, msgs[..i])
        invariant lastDate == if i == 0 then "" else LabelOf(cal, msgs[i - 1])
      {
        assert msgs[..i + 1][..i] == msgs[..i];
        var messageDate := Label(cal, msgs[i].timestamp);
        if messageDate != lastDate {
          newList := newList + [DateHeader(messageDate)];
          lastDate := messageDate;
        }
        newList := newList + [MessageItem(msgs[i])];
        i := i + 1;
      }
      assert msgs[..|msgs|] == msgs;
      displayList := newList;
    }

    /** updateData: rebuild the rows, then redraw. */
    method UpdateData(cal: LocalCalendar)
      modifies this`displayList
      ensures displayList == Assemble(cal, messageList.items)
    {
      UpdateDisplayList(cal);
    }

    /** getItemCount: the rows, headers included. */
    function ItemCount(): (n: nat)
      reads this
      ensures n == |displayList|
    {
      |displayList|
    }

    function GetItemViewType(position: nat, currentUid: Option<string>): (t: int)
      reads this
      requires position < |displayList|
      ensures t == ItemDate <==> displayList[position].DateHeader?
      ensures t == ItemSent <==>
        displayList[position].MessageItem? && currentUid == Some(displayList[position].message.senderId)
      ensures t == ItemReceived <==>
        displayList[position].MessageItem? && currentUid != Some(displayList[position].message.senderId)
    {
      ViewType(displayList[position], currentUid)
    }
  }
}
