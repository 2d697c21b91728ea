/** A read boundary and the message it covers, in either order. */
module Commuting {
  import opened Schema
  import opened Retention
  import opened History
  import opened Batching
  import opened ReadState

  /** A message no stored row resembles, arriving as `receive_message` hands it over:
      only incoming messages count as unread. */
  predicate NewArrival(t: Tables, c: Jid, ins: Insert) {
    && !HasId(Rows(t.messages, c), ins.message.id)
    && (c, ins.message.id) !in t.tombstones
    && ins.message.timestamp > SettingsOf(t.settings, c).clearedAt
    && (ins.incrementUnread ==> !ins.message.fromMe)
  }

  /** The id list has room for the ids of the boundary. */
  predicate Fits(t: Tables, c: Jid, ids: seq<Id>) {
    |MergedIds(SettingsOf(t.settings, c).boundaryIds, ids)| <= READ_BOUNDARY_IDS_CAP
  }

  function ArriveThenRead(t: Tables, c: Jid, ins: Insert, at: int, ids: seq<Id>): Tables {
    ApplyBoundary(InsertAndPrune(t, c, ins), c, at, ids)
  }

  function ReadThenArrive(t: Tables, c: Jid, ins: Insert, at: int, ids: seq<Id>): Tables {
    InsertAndPrune(ApplyBoundary(t, c, at, ids), c, ins)
  }

  /** The chat with the message appended and the boundary applied, before retention. */
  function Marked(t: Tables, c: Jid, ins: Insert, at: int, ids: seq<Id>): seq<Row> {
    MarkRows(Rows(t.messages, c) + [NewRow(t, c, ins)], NewBoundary(SettingsOf(t.settings, c), at, ids), ids)
  }

  lemma {:induction false} RetainMarkIds(rows: seq<Row>, ids: seq<Id>, k: nat)
    ensures Retain(MarkIds(rows, ids), k) == MarkIds(Retain(rows, k), ids)
  {
    if ids != [] {
      RetainMarkIds(rows, ids[..|ids| - 1], k);
      RetainEdit(ReadOne(ids[|ids| - 1]), MarkIds(rows, ids[..|ids| - 1]), k);
    }
  }

  lemma RetainMarks(rows: seq<Row>, boundary: int, ids: seq<Id>, k: nat)
    ensures Retain(MarkRows(rows, boundary, ids), k) == MarkRows(Retain(rows, k), boundary, ids)
  {
    RetainMarkIds(EditRows(ReadThrough(boundary), rows), ids, k);
    RetainEdit(ReadThrough(boundary), rows, k);
  }

  lemma MarkAppended(rows: seq<Row>, row: Row, boundary: int, ids: seq<Id>)
    ensures MarkRows(rows + [row], boundary, ids)
         == MarkRows(rows, boundary, ids) + [if Marks(row, boundary, ids) then row.(read := true) else row]
  {
    MarkRowsExact(rows + [row], boundary, ids);
    MarkRowsExact(rows, boundary, ids);
  }

  /** Arriving under the boundary, the message is born as it would have been marked. */
  lemma BornAsMarked(t: Tables, c: Jid, ins: Insert, at: int, ids: seq<Id>)
    requires NewArrival(t, c, ins) && Fits(t, c, ids)
    ensures var boundary, row := NewBoundary(SettingsOf(t.settings, c), at, ids), NewRow(t, c, ins);
      NewRow(ApplyBoundary(t, c, at, ids), c, ins) == if Marks(row, boundary, ids) then row.(read := true) else row
  {
    var s := SettingsOf(t.settings, c);
    var boundary := NewBoundary(s, at, ids);
    var merged := MergedIds(s.boundaryIds, ids);
    assert Extra(Rows(t.messages, c), ins.message.id, boundary);
    assert ins.message.id in ExtraIds(Rows(t.messages, c), merged, boundary) <==> ins.message.id in merged;
    assert SettingsOf(ApplyBoundary(t, c, at, ids).settings, c).boundaryIds
      == ExtraIds(Rows(t.messages, c), merged, boundary);
  }

  lemma ArriveThenReadEnds(t: Tables, c: Jid, ins: Insert, at: int, ids: seq<Id>)
    requires NewArrival(t, c, ins)
    ensures Rows(ArriveThenRead(t, c, ins, at, ids).messages, c) == Retain(Marked(t, c, ins, at, ids), t.keep)
    ensures c in ArriveThenRead(t, c, ins, at, ids).chats
    ensures ArriveThenRead(t, c, ins, at, ids).chats[c].unread
      == UnreadCount(Retain(Marked(t, c, ins, at, ids), t.keep))
  {
    var u := InsertMessage(t, c, ins);
    var v := Prune(u, c);
    InsertShape(t, c, ins);
    assert Stores(t, c, ins);
    assert SettingsOf(v.settings, c).readBoundary == SettingsOf(t.settings, c).readBoundary;
    RetainMarks(Rows(u.messages, c), NewBoundary(SettingsOf(t.settings, c), at, ids), ids, t.keep);
    assert c in v.chats;
  }

  lemma BoundaryUnread(t: Tables, c: Jid, at: int, ids: seq<Id>)
    requires Rows(t.messages, c) != [] ==> c in t.chats
    ensures var u := ApplyBoundary(t, c, at, ids);
      (if c in u.chats then u.chats[c].unread else 0) == UnreadCount(Rows(u.messages, c))
  {
    MarkRowsExact(Rows(t.messages, c), NewBoundary(SettingsOf(t.settings, c), at, ids), ids);
  }

  lemma StoredUnread(t: Tables, c: Jid, ins: Insert)
    requires Stores(t, c, ins)
    ensures c in InsertMessage(t, c, ins).chats
    ensures InsertMessage(t, c, ins).chats[c].unread ==
      (if c in t.chats then t.chats[c].unread else 0) + if NewRow(t, c, ins).read then 0 else 1
  {
  }

  lemma BoundaryTables(t: Tables, c: Jid, at: int, ids: seq<Id>)
    ensures var u := ApplyBoundary(t, c, at, ids);
      && Rows(u.messages, c) == MarkRows(Rows(t.messages, c), NewBoundary(SettingsOf(t.settings, c), at, ids), ids)
      && u.tombstones == t.tombstones && u.keep == t.keep
      && SettingsOf(u.settings, c).clearedAt == SettingsOf(t.settings, c).clearedAt
  {
  }

  lemma StillStores(t: Tables, c: Jid, ins: Insert, at: int, ids: seq<Id>)
    requires NewArrival(t, c, ins)
    ensures Stores(ApplyBoundary(t, c, at, ids), c, ins)
  {
    hide ApplyBoundary, MarkRows;
    var u := ApplyBoundary(t, c, at, ids);
    BoundaryTables(t, c, at, ids);
    MarkRowsExact(Rows(t.messages, c), NewBoundary(SettingsOf(t.settings, c), at, ids), ids);
    assert !HasKey(Rows(u.messages, c), ins.message.sender, ins.message.id);
  }

  lemma InsertKeep(t: Tables, c: Jid, ins: Insert)
    ensures InsertMessage(t, c, ins).keep == t.keep &&
      Prune(InsertMessage(t, c, ins), c).chats == InsertMessage(t, c, ins).chats
    ensures Rows(Prune(InsertMessage(t, c, ins), c).messages, c)
      == Retain(Rows(InsertMessage(t, c, ins).messages, c), t.keep)
  {
  }

  lemma ReadThenArriveEnds(t: Tables, c: Jid, ins: Insert, at: int, ids: seq<Id>)
    requires NewArrival(t, c, ins) && Fits(t, c, ids) && (Rows(t.messages, c) != [] ==> c in t.chats)
    ensures Rows(ReadThenArrive(t, c, ins, at, ids).messages, c) == Retain(Marked(t, c, ins, at, ids), t.keep)
    ensures c in ReadThenArrive(t, c, ins, at, ids).chats
    ensures ReadThenArrive(t, c, ins, at, ids).chats[c].unread == UnreadCount(Marked(t, c, ins, at, ids))
  {
    hide ApplyBoundary, InsertMessage, NewRow, MarkRows, NewBoundary, Stores, Prune, Fits;
    var boundary := NewBoundary(SettingsOf(t.settings, c), at, ids);
    var u := ApplyBoundary(t, c, at, ids);
    BoundaryTables(t, c, at, ids);
    StillStores(t, c, ins, at, ids);
    BornAsMarked(t, c, ins, at, ids);
    MarkAppended(Rows(t.messages, c), NewRow(t, c, ins), boundary, ids);
    InsertShape(u, c, ins);
    InsertKeep(u, c, ins);
    BoundaryUnread(t, c, at, ids);
    StoredUnread(u, c, ins);
    UnreadCountAppend(Rows(u.messages, c), NewRow(u, c, ins));
    BornUnread(t, u, c, ins, boundary, ids);
  }

  lemma BornUnread(t: Tables, u: Tables, c: Jid, ins: Insert, boundary: int, ids: seq<Id>)
    requires ins.incrementUnread ==> !ins.message.fromMe
    requires NewRow(u, c, ins) == if Marks(NewRow(t, c, ins), boundary, ids) then NewRow(t, c, ins).(read := true)
      else NewRow(t, c, ins)
    ensures Unread(NewRow(u, c, ins)) <==> !NewRow(u, c, ins).read
  {
  }

  /** The row a full chat evicts for the new message. */
  function Evictee(t: Tables, c: Jid, ins: Insert): Row {
    var all := Rows(t.messages, c) + [NewRow(t, c, ins)];
    all[Worst(all)]
  }

  /** The chat is full, and what goes for the message is an unread row the boundary leaves unread. */
  predicate EvictsUnread(t: Tables, c: Jid, ins: Insert, at: int, ids: seq<Id>) {
    && |Rows(t.messages, c)| >= t.keep && Unread(Evictee(t, c, ins))
    && !Marks(Evictee(t, c, ins), NewBoundary(SettingsOf(t.settings, c), at, ids), ids)
  }

  lemma SameWorst(a: seq<Row>, b: seq<Row>)
    requires a != [] && |a| == |b| && forall i :: 0 <= i < |a| ==> a[i].timestamp == b[i].timestamp
    ensures Worst(a) == Worst(b)
  {
    WorstIsUnique(b, Worst(a));
  }

  /** Keeping one row fewer drops the unread count exactly when the row that goes is unread. */
  lemma EvictionUnread(rows: seq<Row>, keep: nat)
    requires 0 < |rows| <= keep + 1
    ensures UnreadCount(Retain(rows, keep)) == UnreadCount(rows) <==> |rows| <= keep || !Unread(rows[Worst(rows)])
  {
    if |rows| == keep + 1 {
      RemoveUnread(rows, Worst(rows));
      assert Retain(rows, keep) == RemoveAt(rows, Worst(rows));
    }
  }

  lemma MarkedEvictee(t: Tables, c: Jid, ins: Insert, at: int, ids: seq<Id>)
    ensures var marked := Marked(t, c, ins, at, ids);
      marked != [] && |marked| == |Rows(t.messages, c)| + 1 &&
      (Unread(marked[Worst(marked)]) <==>
        Unread(Evictee(t, c, ins)) && !Marks(Evictee(t, c, ins), NewBoundary(SettingsOf(t.settings, c), at, ids), ids))
  {
    var all := Rows(t.messages, c) + [NewRow(t, c, ins)];
    MarkRowsExact(all, NewBoundary(SettingsOf(t.settings, c), at, ids), ids);
    SameWorst(all, Marked(t, c, ins, at, ids));
  }

  /** Either order leaves the same rows, read flags included, and the same badge exactly
      unless the chat is full and evicts a row that stays unread. */
  lemma BoundaryCommutes(t: Tables, c: Jid, ins: Insert, at: int, ids: seq<Id>)
    requires NewArrival(t, c, ins) && Fits(t, c, ids) && (Rows(t.messages, c) != [] ==> c in t.chats)
    requires |Rows(t.messages, c)| <= t.keep
    ensures var a, b := ArriveThenRead(t, c, ins, at, ids), ReadThenArrive(t, c, ins, at, ids);
      && Rows(a.messages, c) == Rows(b.messages, c)
      && c in a.chats && c in b.chats && a.chats[c].unread <= b.chats[c].unread
      && (a.chats[c].unread == b.chats[c].unread <==> !EvictsUnread(t, c, ins, at, ids))
  {
    hide ArriveThenRead, ReadThenArrive, Marked, Evictee, NewArrival, Fits, NewBoundary, NewRow;
    ArriveThenReadEnds(t, c, ins, at, ids);
    ReadThenArriveEnds(t, c, ins, at, ids);
    RetainUnread(Marked(t, c, ins, at, ids), t.keep);
    MarkedEvictee(t, c, ins, at, ids);
    EvictionUnread(Marked(t, c, ins, at, ids), t.keep);
  }
}
