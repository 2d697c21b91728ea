/** The one-transaction replay of a conversation against message-by-message replay. */
module Batching {
  import opened Prelude
  import opened Schema
  import opened Retention
  import opened History

  /** Nothing refers to a message the chat does not hold, and no chat is listed without rows. */
  predicate NoOrphans(t: Tables, c: Jid) {
    && (c in t.messages ==> t.messages[c] != [])
    && (forall p :: p in t.votes && p.0 == c ==> HasId(Rows(t.messages, c), p.1))
    && (forall p :: p in t.readers && p.0 == c ==> HasId(Rows(t.messages, c), p.1))
  }

  /** What a caller of the replay can rely on: a bounded chat without orphans. */
  predicate Replayable(t: Tables, c: Jid) {
    t.keep > 0 && |Rows(t.messages, c)| <= t.keep && UniqueKeys(Rows(t.messages, c)) && NoOrphans(t, c)
  }

  /** Rows under the id of the message are its sender's. */
  predicate OneSender(rows: seq<Row>, m: Message) {
    forall i :: 0 <= i < |rows| && rows[i].id == m.id ==> rows[i].sender == m.sender
  }

  /** The message brings no media, and nobody voted on its id or read it: whatever other
      messages its id has, they do not come into play. */
  predicate Plain(t: Tables, c: Jid, m: Message) {
    m.media.None? && (c, m.id) !in t.votes && (c, m.id) !in t.readers
  }

  /** A copy of a message that retention would evict, newer than some row it would keep. */
  predicate Returns(rows: seq<Row>, keep: nat, m: Message) {
    var kept := Retain(rows, keep);
    && HasKey(rows, m.sender, m.id) && !HasKey(kept, m.sender, m.id)
    && exists i :: 0 <= i < |kept| && kept[i].timestamp < m.timestamp
  }

  predicate Resurfaces(t: Tables, c: Jid, m: Message) {
    !Suppressed(t, c, m) && Returns(Rows(t.messages, c), t.keep, m)
  }

  // ------------------------------------------------ pruning and one statement

  lemma PruneIdle(t: Tables, c: Jid)
    requires |Rows(t.messages, c)| <= t.keep && NoOrphans(t, c)
    ensures Prune(t, c) == t
  {
    var rows := Rows(t.messages, c);
    assert WithRows(t.messages, c, rows) == t.messages;
    assert WithStored(t.votes, c, rows) == t.votes;
    assert WithStored(t.readers, c, rows) == t.readers;
  }

  lemma PruneKeepsNoOrphans(t: Tables, c: Jid)
    ensures NoOrphans(Prune(t, c), c)
  {
  }

  lemma SameStored<V>(m: map<(Jid, Id), V>, c: Jid, a: seq<Row>, b: seq<Row>)
    requires forall id :: HasId(a, id) <==> HasId(b, id)
    ensures WithStored(m, c, a) == WithStored(m, c, b)
  {
  }

  lemma RenamePrunesRows(messages: map<Jid, seq<Row>>, c: Jid, jid: Jid, name: string, k: nat)
    ensures RenameIn(WithRows(messages, c, Retain(Rows(messages, c), k)), jid, name)
         == WithRows(RenameIn(messages, jid, name), c, Retain(Rows(RenameIn(messages, jid, name), c), k))
  {
    var e := Rename(jid, name);
    var rows := Rows(messages, c);
    RetainEdit(e, rows, k);
    assert Rows(RenameIn(messages, jid, name), c) == EditRows(e, rows);
    var a := RenameIn(WithRows(messages, c, Retain(rows, k)), jid, name);
    var b := WithRows(RenameIn(messages, jid, name), c, Retain(EditRows(e, rows), k));
    assert a.Keys == b.Keys;
    forall d | d in a ensures a[d] == b[d] {}
  }

  lemma RenamePrunes(t: Tables, c: Jid, jid: Jid, name: string, source: int)
    ensures Prune(UpdateContactName(t, jid, name, source), c) == UpdateContactName(Prune(t, c), jid, name, source)
  {
    if NameApplies(t, jid, name, source) {
      var e := Rename(jid, Trim(name));
      var rows := Rows(t.messages, c);
      assert Rows(RenameIn(t.messages, jid, Trim(name)), c) == EditRows(e, rows);
      RetainEdit(e, rows, t.keep);
      EditKeepsKeys(e, Retain(rows, t.keep));
      SameStored(t.votes, c, Retain(rows, t.keep), EditRows(e, Retain(rows, t.keep)));
      SameStored(t.readers, c, Retain(rows, t.keep), EditRows(e, Retain(rows, t.keep)));
      RenamePrunesRows(t.messages, c, jid, Trim(name), t.keep);
    }
  }

  lemma {:induction false} NewestWithoutWorst(rows: seq<Row>)
    requires |rows| > 1
    ensures Newest(RemoveAt(rows, Worst(rows)), false) == Newest(rows, false)
  {
    hide RemoveAt;
    var n, w := |rows| - 1, Worst(rows);
    var rest := RemoveAt(rows, w);
    RemoveBeforeLast(rows, w);
    if w < n && n > 1 { NewestWithoutWorst(rows[..n]); }
  }

  lemma RemoveBeforeLast(rows: seq<Row>, w: nat)
    requires w < |rows|
    ensures var n := |rows| - 1; var rest := RemoveAt(rows, w);
      if w == n then rest == rows[..n] else rest[..n - 1] == RemoveAt(rows[..n], w) && rest[n - 1] == rows[n]
  {
  }

  lemma {:induction false} NewestRetained(rows: seq<Row>, k: nat)
    requires k > 0
    ensures Newest(Retain(rows, k), false) == Newest(rows, false)
    decreases |rows|
  {
    if |rows| > k {
      NewestWithoutWorst(rows);
      NewestRetained(RemoveAt(rows, Worst(rows)), k);
    }
  }

  /** A replayed insert, as far as it reaches beyond the message table. */
  predicate IsReplay(ins: Insert) {
    ins.fromHistory && !ins.incrementUnread && ins.readIntent.None?
  }

  lemma KeySurvives(rows: seq<Row>, k: nat, sender: Jid, id: Id)
    ensures HasKey(Retain(rows, k), sender, id) ==> HasKey(rows, sender, id)
  {
    var out := Retain(rows, k);
    if i :| 0 <= i < |out| && out[i].sender == sender && out[i].id == id {
      assert out[i] in rows;
      var j :| 0 <= j < |rows| && rows[j] == out[i];
    }
  }

  // ------------------------------------------------ one replayed message

  /** Same messages in the same order, whatever their other columns. */
  predicate SameShape(a: seq<Row>, b: seq<Row>) {
    |a| == |b| && forall i :: 0 <= i < |a| ==>
      a[i].sender == b[i].sender && a[i].id == b[i].id && a[i].timestamp == b[i].timestamp
  }

  /** The rows after one replayed message: the same messages, or one more. */
  predicate Grows(before: seq<Row>, after: seq<Row>, m: Message) {
    || SameShape(before, after)
    || (&& |after| == |before| + 1 && SameShape(before, after[..|before|])
        && after[|before|].sender == m.sender && after[|before|].id == m.id && after[|before|].timestamp == m.timestamp
        && !HasKey(before, m.sender, m.id))
  }

  lemma LearnShape(t: Tables, c: Jid, m: Message)
    ensures SameShape(Rows(LearnName(t, m).messages, c), Rows(t.messages, c))
    ensures NoOrphans(t, c) ==> NoOrphans(LearnName(t, m), c)
    ensures LearnName(Prune(t, c), m) == Prune(LearnName(t, m), c)
    ensures LearnName(t, m).(chats := t.chats, contacts := t.contacts, messages := t.messages) == t
  {
    hide Retain, WithStored, Prune;
    RenamePrunes(t, c, m.sender, m.senderName, 0);
    var n := LearnName(t, m);
    if n != t {
      assert Rows(n.messages, c) == EditRows(Rename(m.sender, Trim(m.senderName)), Rows(t.messages, c));
      EditKeepsKeys(Rename(m.sender, Trim(m.senderName)), Rows(t.messages, c));
    }
  }

  lemma ShapeKeeps(a: seq<Row>, b: seq<Row>, m: Message)
    requires SameShape(a, b)
    ensures UniqueKeys(a) ==> UniqueKeys(b)
    ensures OneSender(a, m) ==> OneSender(b, m)
    ensures HasKey(a, m.sender, m.id) <==> HasKey(b, m.sender, m.id)
  {
    if i :| 0 <= i < |a| && a[i].sender == m.sender && a[i].id == m.id {
      assert b[i].sender == m.sender && b[i].id == m.id;
    }
    if i :| 0 <= i < |b| && b[i].sender == m.sender && b[i].id == m.id {
      assert a[i].sender == m.sender && a[i].id == m.id;
    }
  }

  lemma MediaShape(t: Tables, c: Jid, id: Id, media: Media)
    ensures SameShape(Rows(UpdateMedia(t, c, id, media).messages, c), Rows(t.messages, c))
    ensures NoOrphans(t, c) ==> NoOrphans(UpdateMedia(t, c, id, media), c)
  {
    EditKeepsKeys(SetMedia(id, FinalMedia(t, c, id, media), IsGif(media)), Rows(t.messages, c));
  }

  lemma InsertShape(t: Tables, c: Jid, ins: Insert)
    ensures !Stores(t, c, ins) ==> InsertMessage(t, c, ins).messages == t.messages
    ensures Stores(t, c, ins) ==>
      Rows(InsertMessage(t, c, ins).messages, c) == Rows(t.messages, c) + [NewRow(t, c, ins)]
    ensures NoOrphans(t, c) ==> NoOrphans(InsertMessage(t, c, ins), c)
  {
    var rows, u := Rows(t.messages, c), InsertMessage(t, c, ins);
    if NoOrphans(t, c) {
      forall id | HasId(rows, id) ensures HasId(Rows(u.messages, c), id) {
        var i :| 0 <= i < |rows| && rows[i].id == id;
        assert Rows(u.messages, c)[i].id == id;
      }
    }
  }

  /** The media half of a replayed message that was not stored. */
  ghost function Complete(t: Tables, c: Jid, m: Message): Tables {
    if m.media.None? then t else UpdateMedia(t, c, m.id, m.media.value)
  }

  ghost function StoreOrComplete(t: Tables, h: HistoryChat, m: Message): Tables {
    var stored := InsertMessage(t, h.jid, HistoryInsert(h, m));
    if Stores(t, h.jid, HistoryInsert(h, m)) then stored else Complete(stored, h.jid, m)
  }

  lemma CompleteShape(t: Tables, c: Jid, m: Message)
    ensures SameShape(Rows(t.messages, c), Rows(Complete(t, c, m).messages, c))
    ensures NoOrphans(t, c) ==> NoOrphans(Complete(t, c, m), c)
    ensures Complete(t, c, m).keep == t.keep
  {
    if m.media.Some? { MediaShape(t, c, m.id, m.media.value); }
  }

  lemma StoreShape(t: Tables, h: HistoryChat, m: Message)
    requires NoOrphans(t, h.jid)
    ensures NoOrphans(StoreOrComplete(t, h, m), h.jid)
    ensures Grows(Rows(t.messages, h.jid), Rows(StoreOrComplete(t, h, m).messages, h.jid), m)
    ensures |Rows(StoreOrComplete(t, h, m).messages, h.jid)| > |Rows(t.messages, h.jid)| ==>
      Stores(t, h.jid, HistoryInsert(h, m))
    ensures StoreOrComplete(t, h, m).keep == t.keep
  {
    var ins := HistoryInsert(h, m);
    InsertShape(t, h.jid, ins);
    if !Stores(t, h.jid, ins) { CompleteShape(InsertMessage(t, h.jid, ins), h.jid, m); }
  }

  lemma ShapeLength(a: seq<Row>, b: seq<Row>)
    requires SameShape(a, b)
    ensures |a| == |b|
  {
  }

  lemma GrowsFrom(a: seq<Row>, b: seq<Row>, out: seq<Row>, m: Message)
    requires SameShape(b, a) && Grows(b, out, m)
    ensures Grows(a, out, m)
  {
    ShapeKeeps(a, b, m);
  }

  lemma HistoryMessageShape(t: Tables, h: HistoryChat, m: Message)
    requires NoOrphans(t, h.jid)
    ensures HistoryMessage(t, h, m).0 == StoreOrComplete(LearnName(t, m), h, m)
    ensures NoOrphans(HistoryMessage(t, h, m).0, h.jid)
    ensures Grows(Rows(t.messages, h.jid), Rows(HistoryMessage(t, h, m).0.messages, h.jid), m)
    ensures |Rows(HistoryMessage(t, h, m).0.messages, h.jid)| > |Rows(t.messages, h.jid)| ==> HistoryMessage(t, h, m).1
    ensures HistoryMessage(t, h, m).0.keep == t.keep
  {
    hide SameShape, Grows, NoOrphans, Stores, StoreOrComplete, LearnName;
    LearnShape(t, h.jid, m);
    HistoryIsStore(t, h, m);
    StoreShape(LearnName(t, m), h, m);
    ShapeLength(Rows(LearnName(t, m).messages, h.jid), Rows(t.messages, h.jid));
    GrowsFrom(Rows(t.messages, h.jid), Rows(LearnName(t, m).messages, h.jid),
              Rows(HistoryMessage(t, h, m).0.messages, h.jid), m);
  }

  /** An insert that stores nothing touches only the chat list. */
  lemma IgnoredInsert(t: Tables, c: Jid, ins: Insert)
    requires IsReplay(ins) && !Stores(t, c, ins)
    ensures InsertMessage(t, c, ins) == t.(chats := InsertMessage(t, c, ins).chats)
    ensures !Stores(Prune(t, c), c, ins) ==> InsertMessage(Prune(t, c), c, ins) == Prune(InsertMessage(t, c, ins), c)
  {
  }

  lemma HistoryIsStore(t: Tables, h: HistoryChat, m: Message)
    ensures HistoryMessage(t, h, m).0 == StoreOrComplete(LearnName(t, m), h, m)
  {
  }

  lemma ShapeHasId(a: seq<Row>, b: seq<Row>, id: Id)
    requires SameShape(a, b) || SameShape(b, a)
    ensures HasId(a, id) <==> HasId(b, id)
  {
    if i :| 0 <= i < |a| && a[i].id == id { assert b[i].id == id; }
    if i :| 0 <= i < |b| && b[i].id == id { assert a[i].id == id; }
  }

  // ------------------------------------------------ message-by-message replay

  /** The public calls leave the state the batch step leaves once pruned. */
  lemma SequentialIsPruned(t: Tables, h: HistoryChat, m: Message)
    requires |Rows(t.messages, h.jid)| <= t.keep && NoOrphans(t, h.jid)
    ensures SequentialMessage(t, h, m) == (Prune(HistoryMessage(t, h, m).0, h.jid), HistoryMessage(t, h, m).1)
  {
    hide SameShape, LearnName;
    var c := h.jid;
    var named := LearnName(t, m);
    LearnShape(t, c, m);
    ShapeLength(Rows(named.messages, c), Rows(t.messages, c));
    if !Stores(named, c, HistoryInsert(h, m)) {
      hide NoOrphans, UpdateMedia, MediaChanges, InsertMessage, Prune, Stores;
      IgnoredFits(named, h, m);
    }
  }

  /** An ignored message leaves a chat within its bound, so pruning has nothing to do. */
  lemma IgnoredFits(t: Tables, h: HistoryChat, m: Message)
    requires |Rows(t.messages, h.jid)| <= t.keep && NoOrphans(t, h.jid) && !Stores(t, h.jid, HistoryInsert(h, m))
    ensures var stored := InsertMessage(t, h.jid, HistoryInsert(h, m));
      Prune(stored, h.jid) == stored && Prune(Complete(stored, h.jid, m), h.jid) == Complete(stored, h.jid, m)
  {
    hide NoOrphans, Complete;
    var stored := InsertMessage(t, h.jid, HistoryInsert(h, m));
    InsertShape(t, h.jid, HistoryInsert(h, m));
    PruneIdle(stored, h.jid);
    CompleteShape(stored, h.jid, m);
    ShapeLength(Rows(stored.messages, h.jid), Rows(Complete(stored, h.jid, m).messages, h.jid));
    PruneIdle(Complete(stored, h.jid, m), h.jid);
  }

  // ------------------------------------------------ whole conversations

  lemma {:induction false} MessagesKeep(t: Tables, h: HistoryChat, ms: seq<Message>)
    requires t.keep > 0 && UniqueKeys(Rows(t.messages, h.jid)) && NoOrphans(t, h.jid)
    ensures var u := HistoryMessages(t, h, ms).0;
      u.keep == t.keep && UniqueKeys(Rows(u.messages, h.jid)) && NoOrphans(u, h.jid)
    ensures |Rows(HistoryMessages(t, h, ms).0.messages, h.jid)| <= |Rows(t.messages, h.jid)| + |ms|
    ensures !HistoryMessages(t, h, ms).1 ==>
      |Rows(HistoryMessages(t, h, ms).0.messages, h.jid)| <= |Rows(t.messages, h.jid)|
  {
    if ms != [] {
      var n := |ms| - 1;
      MessagesKeep(t, h, ms[..n]);
      var u := HistoryMessages(t, h, ms[..n]).0;
      HistoryMessageShape(u, h, ms[n]);
      GrowsKeepsKeys(Rows(u.messages, h.jid), Rows(HistoryMessage(u, h, ms[n]).0.messages, h.jid), ms[n]);
    }
  }

  lemma GrowsKeepsKeys(a: seq<Row>, b: seq<Row>, m: Message)
    requires UniqueKeys(a) && Grows(a, b, m)
    ensures UniqueKeys(b)
  {
    if !SameShape(a, b) {
      var n := |a|;
      forall i, j | 0 <= i < j < |b| ensures b[i].sender != b[j].sender || b[i].id != b[j].id {
        assert b[..n][i].sender == a[i].sender && b[..n][i].id == a[i].id;
        if j < n { assert b[..n][j].sender == a[j].sender && b[..n][j].id == a[j].id; }
      }
    }
  }

  /** A resurfacing message survives in the sequential replay and not in the batch. */
  lemma MessageDiverges(t: Tables, h: HistoryChat, m: Message)
    requires t.keep > 0 && NoOrphans(t, h.jid) && Resurfaces(t, h.jid, m)
    ensures HasKey(Rows(SequentialMessage(Prune(t, h.jid), h, m).0.messages, h.jid), m.sender, m.id)
    ensures !HasKey(Rows(Prune(HistoryMessage(t, h, m).0, h.jid).messages, h.jid), m.sender, m.id)
  {
    var c, ins := h.jid, HistoryInsert(h, m);
    PruneKeepsNoOrphans(t, c);
    SequentialIsPruned(Prune(t, c), h, m);
    LearnShape(t, c, m);
    LearnSettings(t, m);
    ReturnsShape(Rows(LearnName(t, m).messages, c), Rows(t.messages, c), t.keep, m);
    HistoryIsStore(t, h, m);
    HistoryIsStore(Prune(t, c), h, m);
    NamedDiverges(LearnName(t, m), h, m);
  }

  lemma NamedDiverges(t: Tables, h: HistoryChat, m: Message)
    requires t.keep > 0 && NoOrphans(t, h.jid) && Resurfaces(t, h.jid, m)
    ensures HasKey(Rows(Prune(StoreOrComplete(Prune(t, h.jid), h, m), h.jid).messages, h.jid), m.sender, m.id)
    ensures !HasKey(Rows(Prune(StoreOrComplete(t, h, m), h.jid).messages, h.jid), m.sender, m.id)
  {
    var c, ins := h.jid, HistoryInsert(h, m);
    ResurfacedIsKept(t, c, ins);
    var u := InsertMessage(t, c, ins);
    IgnoredInsert(t, c, ins);
    CompleteShape(u, c, m);
    RetainShape(Rows(u.messages, c), Rows(Complete(u, c, m).messages, c), t.keep);
    ShapeKeeps(Retain(Rows(u.messages, c), t.keep), Retain(Rows(Complete(u, c, m).messages, c), t.keep), m);
  }

  lemma ResurfacedIsKept(t: Tables, c: Jid, ins: Insert)
    requires Resurfaces(t, c, ins.message)
    ensures Stores(Prune(t, c), c, ins)
    ensures HasKey(Rows(Prune(InsertMessage(Prune(t, c), c, ins), c).messages, c), ins.message.sender, ins.message.id)
  {
    InsertShape(Prune(t, c), c, ins);
    NewerIsKept(Retain(Rows(t.messages, c), t.keep), NewRow(Prune(t, c), c, ins), t.keep);
  }

  lemma NewerIsKept(kept: seq<Row>, row: Row, k: nat)
    requires |kept| <= k && exists i :: 0 <= i < |kept| && kept[i].timestamp < row.timestamp
    ensures HasKey(Retain(kept + [row], k), row.sender, row.id)
  {
    var all := kept + [row];
    var i :| 0 <= i < |kept| && kept[i].timestamp < row.timestamp;
    assert all[i] == kept[i];
    if |kept| == k {
      var out := RemoveAt(all, Worst(all));
      assert out[k - 1] == row;
      assert Retain(all, k) == Retain(out, k) == out;
    } else {
      assert Retain(all, k)[|kept|] == row;
    }
  }

  /** The tables the batch holds, unpruned, when it comes to message n. */
  ghost function Unpruned(t: Tables, h: HistoryChat, ms: seq<Message>, n: nat): Tables
    requires n <= |ms|
  {
    HistoryMessages(InsertChat(t, h), h, ms[..n]).0
  }

  lemma InsertChatOnlyChats(t: Tables, h: HistoryChat)
    ensures InsertChat(t, h) == t.(chats := InsertChat(t, h).chats)
  {
  }

  lemma ReplayedChatKeeps(t: Tables, h: HistoryChat)
    requires Replayable(t, h.jid)
    ensures Replayable(InsertChat(t, h), h.jid)
    ensures InsertChat(t, h) == t.(chats := InsertChat(t, h).chats)
  {
    hide UniqueKeys, InsertChat;
    InsertChatOnlyChats(t, h);
  }

  // ------------------------------------------------ telling it before the call

  /** A row of the message list, bare of everything retention does not look at. */
  function Bare(m: Message): Row {
    Row(m.sender, m.id, "", "", m.timestamp, false, false, 0, None, None, None, None, None)
  }

  /** The stored keys and timestamps followed by those the replayed messages add, read off
      the call's arguments and the tables before it. */
  function Offered(t: Tables, c: Jid, ms: seq<Message>): seq<Row> {
    if ms == [] then Rows(t.messages, c)
    else
      var before, m := Offered(t, c, ms[..|ms| - 1]), ms[|ms| - 1];
      if Suppressed(t, c, m) || HasKey(before, m.sender, m.id) then before else before + [Bare(m)]
  }

  /** The keys and timestamps the message-by-message replay holds, read off the same way:
      pruned after every message. */
  function Trickled(t: Tables, c: Jid, ms: seq<Message>): seq<Row> {
    if ms == [] then Rows(t.messages, c)
    else
      var before, m := Trickled(t, c, ms[..|ms| - 1]), ms[|ms| - 1];
      if Suppressed(t, c, m) || HasKey(before, m.sender, m.id) then before else Retain(before + [Bare(m)], t.keep)
  }

  predicate SameMessage(q: Row, r: Row) {
    q.sender == r.sender && q.id == r.id && q.timestamp == r.timestamp
  }

  predicate Held(rows: seq<Row>, q: Row) {
    exists i :: 0 <= i < |rows| && SameMessage(q, rows[i])
  }

  /** Of the messages `us` has under an id, `ss` lacks one. */
  predicate Lost(us: seq<Row>, ss: seq<Row>, id: Id) {
    exists i :: 0 <= i < |us| && us[i].id == id && !Held(ss, us[i])
  }

  predicate Shared(us: seq<Row>, ss: seq<Row>, id: Id) {
    exists i :: 0 <= i < |us| && us[i].id == id && Held(ss, us[i])
  }

  predicate Parted(us: seq<Row>, ss: seq<Row>, id: Id) {
    Lost(us, ss, id) && Shared(us, ss, id)
  }

  /** Of several messages under one id some are gone and some are not, or a new one comes
      after one has gone: what is filed by id alone then goes separate ways. */
  predicate Divided(us: seq<Row>, ss: seq<Row>, m: Message, suppressed: bool) {
    Parted(us, ss, m.id) || (Lost(us, ss, m.id) && !suppressed && !HasKey(us, m.sender, m.id))
  }

  /** Message n finds the messages under its id undivided, or brings nothing filed by id. */
  predicate SettledAt(t: Tables, c: Jid, ms: seq<Message>, n: nat)
    requires n < |ms|
  {
    || Plain(t, c, ms[n])
    || !Divided(Offered(t, c, ms[..n]), Trickled(t, c, ms[..n]), ms[n], Suppressed(t, c, ms[n]))
  }

  predicate Settled(t: Tables, c: Jid, ms: seq<Message>) {
    forall n :: 0 <= n < |ms| ==> SettledAt(t, c, ms, n)
  }

  /** Message n is a copy of one that the newest `keep` offered so far leave out, yet newer
      than one of those. */
  predicate CopyReturns(t: Tables, c: Jid, ms: seq<Message>, n: nat)
    requires n < |ms|
  {
    !Suppressed(t, c, ms[n]) && Returns(Offered(t, c, ms[..n]), t.keep, ms[n])
  }

  lemma WorstShape(a: seq<Row>, b: seq<Row>)
    requires SameShape(a, b) && a != []
    ensures Worst(b) == Worst(a) && SameShape(RemoveAt(a, Worst(a)), RemoveAt(b, Worst(a)))
  {
    hide RemoveAt;
    WorstIsUnique(b, Worst(a));
    RemoveShape(a, b, Worst(a));
  }

  lemma RemoveShape(a: seq<Row>, b: seq<Row>, w: nat)
    requires SameShape(a, b) && w < |a|
    ensures SameShape(RemoveAt(a, w), RemoveAt(b, w))
  {
  }

  lemma {:induction false} RetainShape(a: seq<Row>, b: seq<Row>, k: nat)
    requires SameShape(a, b)
    ensures SameShape(Retain(a, k), Retain(b, k))
    decreases |a|
  {
    if |a| > k {
      WorstShape(a, b);
      RetainShape(RemoveAt(a, Worst(a)), RemoveAt(b, Worst(a)), k);
    }
  }

  lemma ReturnsShape(a: seq<Row>, b: seq<Row>, k: nat, m: Message)
    requires SameShape(a, b)
    ensures Returns(a, k, m) <==> Returns(b, k, m)
  {
    RetainShape(a, b, k);
    ShapeHasId(a, b, m.id);
    ShapeHasId(Retain(a, k), Retain(b, k), m.id);
  }

  /** The rows a message leaves: the same, or one more. */
  predicate Adds(rows: seq<Row>, after: seq<Row>, m: Message, suppressed: bool) {
    if suppressed || HasKey(rows, m.sender, m.id) then SameShape(rows, after) else SameShape(rows + [Bare(m)], after)
  }

  lemma StoreAdds(t: Tables, h: HistoryChat, m: Message)
    ensures Adds(Rows(t.messages, h.jid), Rows(StoreOrComplete(t, h, m).messages, h.jid), m, Suppressed(t, h.jid, m))
  {
    var ins := HistoryInsert(h, m);
    InsertShape(t, h.jid, ins);
    CompleteShape(InsertMessage(t, h.jid, ins), h.jid, m);
  }

  lemma AddsShape(a: seq<Row>, b: seq<Row>, after: seq<Row>, m: Message, suppressed: bool)
    requires SameShape(a, b) && Adds(b, after, m, suppressed)
    ensures Adds(a, after, m, suppressed)
  {
    ShapeKeeps(a, b, m);
  }

  lemma StoreSettings(t: Tables, h: HistoryChat, m: Message)
    ensures StoreOrComplete(t, h, m).settings == t.settings && StoreOrComplete(t, h, m).tombstones == t.tombstones
    ensures StoreOrComplete(t, h, m).votes == t.votes && StoreOrComplete(t, h, m).readers == t.readers
  {
    ReplaySettings(t, h.jid, HistoryInsert(h, m));
    CompleteSettings(InsertMessage(t, h.jid, HistoryInsert(h, m)), h.jid, m);
  }

  lemma ReplaySettings(t: Tables, c: Jid, ins: Insert)
    requires ins.fromHistory
    ensures InsertMessage(t, c, ins).settings == t.settings && InsertMessage(t, c, ins).tombstones == t.tombstones
    ensures InsertMessage(t, c, ins).votes == t.votes && InsertMessage(t, c, ins).readers == t.readers
  {
  }

  lemma CompleteSettings(t: Tables, c: Jid, m: Message)
    ensures Complete(t, c, m).settings == t.settings && Complete(t, c, m).tombstones == t.tombstones
    ensures Complete(t, c, m).votes == t.votes && Complete(t, c, m).readers == t.readers
  {
  }

  lemma LearnSettings(t: Tables, m: Message)
    ensures LearnName(t, m).settings == t.settings && LearnName(t, m).tombstones == t.tombstones
    ensures LearnName(t, m).votes == t.votes && LearnName(t, m).readers == t.readers
    ensures LearnName(t, m).keep == t.keep
  {
  }

  /** One replayed message adds a row exactly when it is neither suppressed nor stored. */
  lemma MessageAdds(t: Tables, h: HistoryChat, m: Message)
    ensures var u := StoreOrComplete(LearnName(t, m), h, m);
      && Adds(Rows(t.messages, h.jid), Rows(u.messages, h.jid), m, Suppressed(t, h.jid, m))
      && u.settings == t.settings && u.tombstones == t.tombstones
  {
    var named := LearnName(t, m);
    LearnShape(t, h.jid, m);
    LearnSettings(t, m);
    SuppressedAlike(t, named, h, m);
  }

  lemma SuppressedAlike(t: Tables, named: Tables, h: HistoryChat, m: Message)
    requires named.settings == t.settings && named.tombstones == t.tombstones
    requires SameShape(Rows(named.messages, h.jid), Rows(t.messages, h.jid))
    ensures var u := StoreOrComplete(named, h, m);
      && Adds(Rows(t.messages, h.jid), Rows(u.messages, h.jid), m, Suppressed(t, h.jid, m))
      && u.settings == t.settings && u.tombstones == t.tombstones
  {
    StoreAdds(named, h, m);
    StoreSettings(named, h, m);
    AddsShape(Rows(t.messages, h.jid), Rows(named.messages, h.jid),
              Rows(StoreOrComplete(named, h, m).messages, h.jid), m, Suppressed(t, h.jid, m));
  }

  lemma {:induction false} OfferedShape(t: Tables, h: HistoryChat, ms: seq<Message>)
    ensures var u := HistoryMessages(InsertChat(t, h), h, ms).0;
      && SameShape(Offered(t, h.jid, ms), Rows(u.messages, h.jid))
      && u.settings == t.settings && u.tombstones == t.tombstones
  {
    if ms != [] {
      hide SameShape, HistoryMessage, Suppressed;
      var n := |ms| - 1;
      OfferedShape(t, h, ms[..n]);
      OfferedStep(t, HistoryMessages(InsertChat(t, h), h, ms[..n]).0, Offered(t, h.jid, ms[..n]), h, ms[n]);
    }
  }

  lemma OfferedStep(t: Tables, u: Tables, before: seq<Row>, h: HistoryChat, m: Message)
    requires u.settings == t.settings && u.tombstones == t.tombstones && SameShape(before, Rows(u.messages, h.jid))
    ensures var out := HistoryMessage(u, h, m).0;
      && Adds(before, Rows(out.messages, h.jid), m, Suppressed(t, h.jid, m))
      && out.settings == t.settings && out.tombstones == t.tombstones
  {
    hide SameShape, HistoryMessage, StoreOrComplete, LearnName, Adds;
    MessageAdds(u, h, m);
    HistoryIsStore(u, h, m);
    AddsShape(before, Rows(u.messages, h.jid), Rows(HistoryMessage(u, h, m).0.messages, h.jid), m,
              Suppressed(u, h.jid, m));
  }

  lemma {:induction false} MessagesTables(t: Tables, h: HistoryChat, ms: seq<Message>)
    ensures var u := HistoryMessages(t, h, ms).0; u.votes == t.votes && u.readers == t.readers
  {
    hide HistoryMessage, StoreOrComplete, LearnName;
    if ms != [] {
      var u := HistoryMessages(t, h, ms[..|ms| - 1]).0;
      MessagesTables(t, h, ms[..|ms| - 1]);
      HistoryIsStore(u, h, ms[|ms| - 1]);
      LearnSettings(u, ms[|ms| - 1]);
      StoreSettings(LearnName(u, ms[|ms| - 1]), h, ms[|ms| - 1]);
    }
  }
}
