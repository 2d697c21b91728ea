/** Inputs on which a documented equivalence fails, showing why its conditions are there. */
module Counterexamples {
  import opened Prelude
  import opened Schema
  import opened Retention
  import opened History
  import opened Batching
  import opened Calls
  import opened Commuting
  import Reactions
  import Runs

  function Unary(n: nat): (id: Id)
    ensures |id| == n && (n > 0 ==> id[0] == 'a')
  {
    seq(n, _ => 'a')
  }

  function Stored(sender: Jid, id: Id, timestamp: int): Row {
    Row(sender, id, "", "", timestamp, true, true, 0, None, None, None, None, None)
  }

  /** A chat that holds exactly its bound of equally old messages. */
  function FullChat(keep: nat, c: Jid): Tables
    requires keep > 0
  {
    Runs.Fresh(keep).(messages := map[c := seq(keep, i requires 0 <= i < keep => Stored("me", Unary(i), 5))])
  }

  function Sent(sender: Jid, id: Id, timestamp: int, media: Option<Media>): Message {
    Message(sender, id, sender, "", timestamp, true, 0, None, None, media, None)
  }

  /** The same message twice, the second time with a newer timestamp. */
  function OldThenNew(): seq<Message> {
    [Sent("me", "x", 1, None), Sent("me", "x", 9, None)]
  }

  lemma FullChatReplayable(keep: nat, c: Jid)
    requires keep > 0
    ensures Replayable(FullChat(keep, c), c)
    ensures Settled(FullChat(keep, c), c, OldThenNew()) && Settled(FullChat(keep, c), c, OldThenNew()[..1])
    ensures !HasId(Rows(FullChat(keep, c).messages, c), "x")
  {
    var rows := Rows(FullChat(keep, c).messages, c);
    forall i | 0 <= i < |rows| ensures rows[i].id != "x" && |rows[i].id| == i {}
    OneSenderSettles(FullChat(keep, c), c, OldThenNew(), id => "me");
    OneSenderSettles(FullChat(keep, c), c, OldThenNew()[..1], id => "me");
  }

  lemma DivergesSomewhere(keep: nat, h: HistoryChat) returns (n: nat)
    requires keep > 0
    ensures n <= 2 && !AgreeAt(FullChat(keep, h.jid), h, OldThenNew(), n)
  {
    FullChatReplayable(keep, h.jid);
    NewerCopyReturns(keep, h.jid);
    BatchIsSequentialIff(FullChat(keep, h.jid), h, OldThenNew());
    n :| n <= 2 && !AgreeAt(FullChat(keep, h.jid), h, OldThenNew(), n);
  }

  /** Whatever the bound, a full chat loses to the batch a copy the messages replayed one by
      one would keep. */
  lemma NewerCopyDiverges(keep: nat, h: HistoryChat)
    requires keep > 0
    ensures Batch(FullChat(keep, h.jid), h, OldThenNew()) != Sequential(FullChat(keep, h.jid), h, OldThenNew())
  {
    var n := DivergesSomewhere(keep, h);
    FirstCopyAgrees(keep, h, n);
    assert n == 2 && OldThenNew()[..n] == OldThenNew();
  }

  lemma NewerCopyReturns(keep: nat, c: Jid)
    requires keep > 0
    ensures CopyReturns(FullChat(keep, c), c, OldThenNew(), 1)
  {
    var t, ms := FullChat(keep, c), OldThenNew();
    var rows := Rows(t.messages, c);
    FullChatReplayable(keep, c);
    assert ms[..1] == [ms[0]] && ms[..1][..0] == [];
    assert !HasKey(rows, "me", "x");
    assert Offered(t, c, ms[..1]) == rows + [Bare(ms[0])];
    RetainOldest(rows, Bare(ms[0]), keep);
    assert (rows + [Bare(ms[0])])[keep].id == "x";
    assert Retain(rows, keep) == rows && rows[0].timestamp == 5;
  }

  lemma FirstCopyAgrees(keep: nat, h: HistoryChat, n: nat)
    requires keep > 0
    ensures n < 2 ==> AgreeAt(FullChat(keep, h.jid), h, OldThenNew(), n)
  {
    var c, t, ms := h.jid, FullChat(keep, h.jid), OldThenNew()[..1];
    if n < 2 {
      FullChatReplayable(keep, c);
      assert forall j :: 0 <= j < |ms| ==> ms[j] == OldThenNew()[j];
      assert ms[..0] == [] && ms[..n] == OldThenNew()[..n];
      assert !CopyReturns(t, c, ms, 0);
      BatchIsSequentialIff(t, h, ms);
      assert AgreeAt(t, h, ms, n);
    }
  }

  /** A chat of one message, and a replay whose returning copy is evicted again in the end. */
  function OneChat(c: Jid): Tables {
    Runs.Fresh(1).(messages := map[c := [Stored("me", "y", 5)]])
  }

  function NewThenNewest(): seq<Message> {
    [Sent("me", "x", 1, None), Sent("me", "x", 9, None), Sent("me", "z", 20, None)]
  }

  lemma OfferedNewest(c: Jid)
    ensures var t, ms := OneChat(c), NewThenNewest();
      && CopyReturns(t, c, ms, 1) && Retain(Offered(t, c, ms), t.keep) == [Bare(ms[2])]
  {
    hide Retain;
    var t, ms := OneChat(c), NewThenNewest();
    var x, z, y := Bare(ms[0]), Bare(ms[2]), Stored("me", "y", 5);
    assert ms[..1] == [ms[0]] && [] + [ms[0]] == [ms[0]];
    assert [ms[0]] + [ms[1]] == [ms[0], ms[1]] && [ms[0], ms[1]] + [ms[2]] == ms;
    assert Offered(t, c, []) == [y];
    OfferedNew(t, c, [], ms[0]);
    assert Offered(t, c, [ms[0]]) == [y, x] && [y, x][1].id == "x";
    OfferedOld(t, c, [ms[0]], ms[1]);
    OfferedNew(t, c, [ms[0], ms[1]], ms[2]);
    assert Offered(t, c, ms) == [y, x, z];
    KeepOne([y, x], 0);
    KeepOne([y, x, z], 2);
  }

  lemma TrickledNewest(c: Jid)
    ensures Trickled(OneChat(c), c, NewThenNewest()) == [Bare(NewThenNewest()[2])]
  {
    hide Retain;
    var t, ms := OneChat(c), NewThenNewest();
    var x1, x9, z, y := Bare(ms[0]), Bare(ms[1]), Bare(ms[2]), Stored("me", "y", 5);
    assert [] + [ms[0]] == [ms[0]] && [ms[0]] + [ms[1]] == [ms[0], ms[1]] && [ms[0], ms[1]] + [ms[2]] == ms;
    assert Trickled(t, c, []) == [y] && [y] + [x1] == [y, x1] && [y] + [x9] == [y, x9] && [x9] + [z] == [x9, z];
    TrickledNew(t, c, [], ms[0]);
    KeepOne([y, x1], 0);
    TrickledNew(t, c, [ms[0]], ms[1]);
    KeepOne([y, x9], 1);
    TrickledNew(t, c, [ms[0], ms[1]], ms[2]);
    KeepOne([x9, z], 1);
  }

  /** A copy returns, and yet the one call leaves the rows the message-by-message replay
      leaves: agreement of one call is not agreement of every prefix. */
  lemma ReturnedThenEvicted(h: HistoryChat)
    ensures CopyReturns(OneChat(h.jid), h.jid, NewThenNewest(), 1)
    ensures Rows(Batch(OneChat(h.jid), h, NewThenNewest()).0.messages, h.jid)
         == Rows(Sequential(OneChat(h.jid), h, NewThenNewest()).0.messages, h.jid)
  {
    hide Retain, Offered, Trickled, Batch, Sequential, CopyReturns;
    OfferedNewest(h.jid);
    TrickledNewest(h.jid);
    OneSenderSettles(OneChat(h.jid), h.jid, NewThenNewest(), id => "me");
    CallIsSequentialIff(OneChat(h.jid), h, NewThenNewest());
  }

  /** A returning copy that a GIF completes, and a newest message in the end. */
  function GifThenNewest(): seq<Message> {
    [Sent("me", "x", 1, None), Sent("me", "x", 9, None), Sent("me", "x", 9, Some(Video("file", true))),
     Sent("me", "z", 20, None)]
  }

  lemma OfferedGif(c: Jid)
    ensures var t, ms := OneChat(c), GifThenNewest();
      var y, x, z := Stored("me", "y", 5), Bare(ms[0]), Bare(ms[3]);
      && Offered(t, c, []) == [y] && Offered(t, c, ms[..1]) == [y, x] && Offered(t, c, ms[..2]) == [y, x]
      && Offered(t, c, ms[..3]) == [y, x] && Offered(t, c, ms) == [y, x, z]
  {
    var t, ms := OneChat(c), GifThenNewest();
    Prefixes(ms);
    OfferedNew(t, c, [], ms[0]);
    assert Offered(t, c, ms[..1])[1].id == "x";
    OfferedOld(t, c, ms[..1], ms[1]);
    OfferedOld(t, c, ms[..2], ms[2]);
    OfferedNew(t, c, ms[..3], ms[3]);
  }

  lemma TrickledGif(c: Jid)
    ensures var t, ms := OneChat(c), GifThenNewest();
      var y, x, z := Stored("me", "y", 5), Bare(ms[1]), Bare(ms[3]);
      && Trickled(t, c, []) == [y] && Trickled(t, c, ms[..1]) == [y] && Trickled(t, c, ms[..2]) == [x]
      && Trickled(t, c, ms[..3]) == [x] && Trickled(t, c, ms) == [z]
  {
    hide Retain;
    var t, ms, y := OneChat(c), GifThenNewest(), Stored("me", "y", 5);
    var x1, x9, z := Bare(ms[0]), Bare(ms[1]), Bare(ms[3]);
    Prefixes(ms);
    assert [y] + [x1] == [y, x1] && [y] + [x9] == [y, x9] && [x9] + [z] == [x9, z];
    TrickledNew(t, c, [], ms[0]);
    KeepOne([y, x1], 0);
    TrickledNew(t, c, ms[..1], ms[1]);
    KeepOne([y, x9], 1);
    assert Trickled(t, c, ms[..2])[0].id == "x";
    TrickledOld(t, c, ms[..2], ms[2]);
    TrickledNew(t, c, ms[..3], ms[3]);
    KeepOne([x9, z], 1);
  }

  lemma Prefixes(ms: seq<Message>)
    requires |ms| == 4
    ensures ms[..1] == [] + [ms[0]] && ms[..2] == ms[..1] + [ms[1]]
    ensures ms[..3] == ms[..2] + [ms[2]] && ms == ms[..3] + [ms[3]]
    ensures ms[..3][..2] == ms[..2] && ms[..2][..1] == ms[..1] && ms[..1][..0] == []
  {
  }

  /** The same rows are kept and the flag is the same, but the chat list shows "[Video]" after
      the batch and "[GIF]" after the messages one by one. */
  lemma GifLabelDiffers(h: HistoryChat)
    requires h.lastMessage == "[Video]" && h.lastTimestamp > 20
    ensures var b, s := Batch(OneChat(h.jid), h, GifThenNewest()), Sequential(OneChat(h.jid), h, GifThenNewest());
      b.0.messages == s.0.messages && b.1 == s.1 && b.0.chats != s.0.chats
  {
    var c, t, ms := h.jid, OneChat(h.jid), GifThenNewest();
    OneSenderSettles(t, c, ms, id => "me");
    GifKept(c);
    GifPreviews(h);
    hide Batch, Sequential, SamePreview, SameKept;
    CallIsSequentialIff(t, h, ms);
    CallAgrees(t, h, ms);
  }

  lemma GifKept(c: Jid)
    ensures SameKept(OneChat(c), c, GifThenNewest())
  {
    hide Retain, Offered, Trickled;
    OfferedGif(c);
    TrickledGif(c);
    KeepOne(Offered(OneChat(c), c, GifThenNewest()), 2);
  }

  lemma GifPreviews(h: HistoryChat)
    requires h.lastMessage == "[Video]" && h.lastTimestamp > 20
    ensures !SamePreview(OneChat(h.jid), h, GifThenNewest())
  {
    hide Offered, Trickled, InsertChat;
    var c, t, ms := h.jid, OneChat(h.jid), GifThenNewest();
    OfferedGif(c);
    TrickledGif(c);
    Prefixes(ms);
    var p := Some(Preview("[Video]", h.lastTimestamp));
    GifStart(h);
    assert PreviewAfter(t, h, ms[..1], false) == p && PreviewAfter(t, h, ms[..1], true) == p;
    assert PreviewAfter(t, h, ms[..2], false) == p && PreviewAfter(t, h, ms[..2], true) == p;
    GifLabels(p.value, Trickled(t, c, ms[..2]), ms[2]);
    assert PreviewAfter(t, h, ms[..3], false) == p &&
      PreviewAfter(t, h, ms[..3], true) == Some(Preview("[GIF]", h.lastTimestamp));
  }

  lemma GifLabels(p: Preview, rows: seq<Row>, m: Message)
    requires |rows| == 1 && rows[0].sender == m.sender && rows[0].id == m.id
    requires CarriesGif(m) && p.text == "[Video]" && m.text == "" && p.timestamp > m.timestamp
    ensures PreviewStep(Some(p), rows, m, false) == Some(p.(text := "[GIF]"))
  {
    assert rows[..0] == [] && Newest(rows, false) == Some(rows[0]);
  }

  lemma GifStart(h: HistoryChat)
    ensures PreviewOf(Get(InsertChat(OneChat(h.jid), h).chats, h.jid)) == Some(Preview(h.lastMessage, h.lastTimestamp))
  {
  }

  lemma OfferedNew(t: Tables, c: Jid, ms: seq<Message>, m: Message)
    requires !Suppressed(t, c, m) && !HasKey(Offered(t, c, ms), m.sender, m.id)
    ensures Offered(t, c, ms + [m]) == Offered(t, c, ms) + [Bare(m)]
  {
    assert (ms + [m])[..|ms|] == ms;
  }

  lemma OfferedOld(t: Tables, c: Jid, ms: seq<Message>, m: Message)
    requires HasKey(Offered(t, c, ms), m.sender, m.id)
    ensures Offered(t, c, ms + [m]) == Offered(t, c, ms)
  {
    assert (ms + [m])[..|ms|] == ms;
  }

  lemma TrickledNew(t: Tables, c: Jid, ms: seq<Message>, m: Message)
    requires !Suppressed(t, c, m) && !HasKey(Trickled(t, c, ms), m.sender, m.id)
    ensures Trickled(t, c, ms + [m]) == Retain(Trickled(t, c, ms) + [Bare(m)], t.keep)
  {
    assert (ms + [m])[..|ms|] == ms;
  }

  lemma TrickledOld(t: Tables, c: Jid, ms: seq<Message>, m: Message)
    requires HasKey(Trickled(t, c, ms), m.sender, m.id)
    ensures Trickled(t, c, ms + [m]) == Trickled(t, c, ms)
  {
    assert (ms + [m])[..|ms|] == ms;
  }

  /** Of rows with one strictly newest, it is the one kept. */
  lemma {:induction false} KeepOne(rows: seq<Row>, i: nat)
    requires i < |rows| && forall j :: 0 <= j < |rows| && j != i ==> rows[j].timestamp < rows[i].timestamp
    ensures Retain(rows, 1) == [rows[i]]
    decreases |rows|
  {
    if |rows| > 1 {
      var w := Worst(rows);
      assert rows[if i == 0 then 1 else 0].timestamp < rows[i].timestamp;
      KeepOne(RemoveAt(rows, w), if i < w then i else i - 1);
    }
  }

  // --------------------------------------------------- one id, two senders

  const MEDIA := Other("file")

  /** One stored message, and a second sender's replayed twice under the same id. */
  function SharedChat(c: Jid): Tables {
    Runs.Fresh(1).(messages := map[c := [Stored("me", "x", 5)]])
  }

  function SharedId(): seq<Message> {
    [Sent("you", "x", 1, None), Sent("you", "x", 1, Some(MEDIA))]
  }

  /** Two rows under one id, in the chat of the example and not suppressed. */
  ghost predicate BothStored(t: Tables, c: Jid) {
    && t.keep == 1 && t.votes == map[] && t.settings == map[] && t.tombstones == {}
    && |Rows(t.messages, c)| == 2
    && Rows(t.messages, c)[0] == Stored("me", "x", 5)
    && Rows(t.messages, c)[1].sender == "you" && Rows(t.messages, c)[1].id == "x"
    && Rows(t.messages, c)[1].timestamp == 1
  }

  ghost predicate OneStored(t: Tables, c: Jid) {
    && t.keep == 1 && t.votes == map[] && t.settings == map[] && t.tombstones == {}
    && Rows(t.messages, c) == [Stored("me", "x", 5)]
  }

  lemma StoresSecond(t: Tables, h: HistoryChat, m: Message)
    requires OneStored(t, h.jid) && m in SharedId()
    ensures HistoryMessage(t, h, m).1 && BothStored(HistoryMessage(t, h, m).0, h.jid)
    ensures SequentialMessage(t, h, m).1 && OneStored(SequentialMessage(t, h, m).0, h.jid)
  {
    var c, ins := h.jid, HistoryInsert(h, m);
    assert m.fromMe && LearnName(t, m) == t;
    assert Stores(t, c, ins);
    var u := InsertMessage(t, c, ins);
    assert BothStored(u, c);
    EvictsSecond(u, c);
  }

  lemma EvictsSecond(u: Tables, c: Jid)
    requires |Rows(u.messages, c)| == 2 && Rows(u.messages, c)[0].timestamp == 5 &&
      Rows(u.messages, c)[1].timestamp == 1
    requires u.keep == 1
    ensures Rows(Prune(u, c).messages, c) == [Rows(u.messages, c)[0]]
    ensures u.votes == map[] ==> Prune(u, c).votes == map[]
  {
    var rows := Rows(u.messages, c);
    WorstIsUnique(rows, 1);
    assert RemoveAt(rows, 1) == [rows[0]];
    assert Retain(rows, 1) == Retain([rows[0]], 1) == [rows[0]];
  }

  lemma FilesUnderBoth(t: Tables, h: HistoryChat)
    requires BothStored(t, h.jid)
    ensures var u := HistoryMessage(t, h, SharedId()[1]).0;
      |Rows(u.messages, h.jid)| == 2 && u.keep == 1
      && Rows(u.messages, h.jid)[0] == Stored("me", "x", 5).(media := Some(MEDIA))
      && Rows(u.messages, h.jid)[1].timestamp == 1
  {
    var c, m, ins := h.jid, SharedId()[1], HistoryInsert(h, SharedId()[1]);
    assert m.fromMe && LearnName(t, m) == t;
    assert HasKey(Rows(t.messages, c), "you", "x");
    var u := InsertMessage(t, c, ins);
    assert u.messages == t.messages && FinalMedia(u, c, "x", MEDIA) == MEDIA;
  }

  /** The batch finds the second copy still stored, and files its media under the id, on the
      other sender's message too; one by one it was evicted and is stored anew. */
  lemma SharedIdDiverges(h: HistoryChat)
    ensures Replayable(SharedChat(h.jid), h.jid)
    ensures Batch(SharedChat(h.jid), h, SharedId()) != Sequential(SharedChat(h.jid), h, SharedId())
  {
    var c, t, ms := h.jid, InsertChat(SharedChat(h.jid), h), SharedId();
    assert OneStored(t, c);
    StoresSecond(t, h, ms[0]);
    var b, s := HistoryMessage(t, h, ms[0]).0, SequentialMessage(t, h, ms[0]).0;
    FilesUnderBoth(b, h);
    EvictsSecond(HistoryMessage(b, h, ms[1]).0, c);
    StoresSecond(s, h, ms[1]);
    Two(t, h, ms);
  }

  lemma Two(t: Tables, h: HistoryChat, ms: seq<Message>)
    requires |ms| == 2
    ensures HistoryMessages(t, h, ms).0 == HistoryMessage(HistoryMessage(t, h, ms[0]).0, h, ms[1]).0
    ensures SequentialMessages(t, h, ms).0 == SequentialMessage(SequentialMessage(t, h, ms[0]).0, h, ms[1]).0
  {
    assert ms[..1] == [ms[0]] && [ms[0]][..0] == [];
    assert HistoryMessages(t, h, []).0 == t && SequentialMessages(t, h, []).0 == t;
    assert HistoryMessages(t, h, [ms[0]]).0 == HistoryMessage(t, h, ms[0]).0;
    assert SequentialMessages(t, h, [ms[0]]).0 == SequentialMessage(t, h, ms[0]).0;
  }

  // --------------------------------------------------- a full chat of unread messages

  function Incoming(id: Id, timestamp: int): Row {
    Row("you", id, "", "", timestamp, false, false, 0, None, None, None, None, None)
  }

  function UnreadChat(keep: nat, c: Jid): Tables
    requires keep > 0
  {
    Runs.Fresh(keep).(
      messages := map[c := seq(keep, i requires 0 <= i < keep => Incoming(Unary(i), 5))],
      chats := map[c := Chat("", 0, None, "", 5, keep, false)])
  }

  function Arriving(): Insert {
    Insert(Message("you", "x", "you", "", 9, false, 0, None, None, None, None), "", false, true, false, None)
  }

  /** Whatever the bound, a full chat of unread messages shows one more unread when a
      boundary that covers none of them comes before the next message than when it comes after. */
  lemma BadgeDependsOnOrder(keep: nat, c: Jid)
    requires keep > 0
    ensures var t := UnreadChat(keep, c);
      var a, b := ArriveThenRead(t, c, Arriving(), 0, []), ReadThenArrive(t, c, Arriving(), 0, []);
      c in a.chats && c in b.chats && a.chats[c].unread < b.chats[c].unread
  {
    var t, ins := UnreadChat(keep, c), Arriving();
    var rows := Rows(t.messages, c);
    forall i | 0 <= i < |rows| ensures rows[i].id != "x" && |rows[i].id| == i {}
    assert NewArrival(t, c, ins) && Fits(t, c, []);
    UnreadEvictee(keep, c);
    hide ArriveThenRead, ReadThenArrive;
    BoundaryCommutes(t, c, ins, 0, []);
  }

  lemma UnreadEvictee(keep: nat, c: Jid)
    requires keep > 0
    ensures EvictsUnread(UnreadChat(keep, c), c, Arriving(), 0, [])
  {
    var t, ins := UnreadChat(keep, c), Arriving();
    var all := Rows(t.messages, c) + [NewRow(t, c, ins)];
    assert all[|all| - 1].timestamp == 9 && all[0].timestamp == 5;
    assert all[Worst(all)] == Rows(t.messages, c)[Worst(all)];
  }

  // --------------------------------------------------- reactions

  /** The tombstone row, unlike what shows, depends on the order of arrival. */
  lemma TombstonesDependOnOrder()
    ensures var add, remove := Reactions.Event("+", true, 2), Reactions.Event("", true, 1);
      var a := Reactions.FoldCell(Reactions.Empty, [add, remove]);
      var b := Reactions.FoldCell(Reactions.Empty, [remove, add]);
      a.visible == b.visible && a.tombstone != b.tombstone
  {
    var add, remove := Reactions.Event("+", true, 2), Reactions.Event("", true, 1);
    assert [add, remove][..1] == [add] && [remove, add][..1] == [remove];
    assert [add][..0] == [] && [remove][..0] == [];
    assert Reactions.FoldCell(Reactions.Empty, []) == Reactions.Empty;
    assert Reactions.FoldCell(Reactions.Empty, [add]) == Reactions.ApplyToCell(Reactions.Empty, add);
    assert Reactions.FoldCell(Reactions.Empty, [remove]) == Reactions.ApplyToCell(Reactions.Empty, remove);
  }
}
