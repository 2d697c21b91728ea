/** Read boundaries: what other devices have read, and the badge derived from it. */
module ReadState {
  import opened Prelude
  import opened Schema

  const READ_BOUNDARY_IDS_CAP := 256
  const I64_MIN := -0x8000_0000_0000_0000

  /** `timestamp.saturating_sub(1)` on i64. */
  function SaturatingPred(timestamp: int): int {
    if timestamp <= I64_MIN then I64_MIN else timestamp - 1
  }

  /** An unkeyed boundary covers its whole second, a keyed one the seconds before. */
  function CandidateBoundary(timestamp: int, ids: seq<Id>): int {
    if ids == [] then timestamp else SaturatingPred(timestamp)
  }

  /** The stored ids followed by the new ones, each once. */
  function MergedIds(stored: seq<Id>, ids: seq<Id>): (out: seq<Id>)
    ensures forall id :: id in out <==> id in stored || id in ids
    ensures Distinct(stored) ==> Distinct(out)
  {
    if ids == [] then stored
    else
      var last := ids[|ids| - 1];
      var out := MergedIds(stored, ids[..|ids| - 1]);
      assert ids == ids[..|ids| - 1] + [last];
      if last in out then out else out + [last]
  }

  /** An id needs keeping until its message is stored at or before the boundary. */
  predicate Extra(rows: seq<Row>, id: Id, boundary: int) {
    var row := FindId(rows, id);
    row.Some? ==> row.value.timestamp > boundary
  }

  function ExtraIds(rows: seq<Row>, ids: seq<Id>, boundary: int): (out: seq<Id>)
    ensures forall id :: id in out <==> id in ids && Extra(rows, id, boundary)
    ensures Distinct(ids) ==> Distinct(out)
    ensures |out| <= |ids|
  {
    if ids == [] then []
    else
      var last := ids[|ids| - 1];
      var out := ExtraIds(rows, ids[..|ids| - 1], boundary);
      assert ids == ids[..|ids| - 1] + [last];
      if Extra(rows, last, boundary) then out + [last] else out
  }

  /** Past the cap the oldest ids go. */
  function Capped(ids: seq<Id>): (out: seq<Id>)
    ensures |out| == Min(|ids|, READ_BOUNDARY_IDS_CAP)
    ensures Distinct(ids) ==> Distinct(out)
    ensures forall id :: id in out ==> id in ids
    ensures |ids| <= READ_BOUNDARY_IDS_CAP ==> out == ids
  {
    if |ids| > READ_BOUNDARY_IDS_CAP then ids[|ids| - READ_BOUNDARY_IDS_CAP..] else ids
  }

  predicate Marks(r: Row, boundary: int, ids: seq<Id>) {
    !r.fromMe && (r.timestamp <= boundary || r.id in ids)
  }

  function MarkIds(rows: seq<Row>, ids: seq<Id>): seq<Row> {
    if ids == [] then rows else EditRows(ReadOne(ids[|ids| - 1]), MarkIds(rows, ids[..|ids| - 1]))
  }

  /** The rows after the two `SET read = 1` statements of a boundary. */
  function MarkRows(rows: seq<Row>, boundary: int, ids: seq<Id>): seq<Row> {
    MarkIds(EditRows(ReadThrough(boundary), rows), ids)
  }

  lemma {:induction false} MarkIdsRows(rows: seq<Row>, ids: seq<Id>)
    ensures |MarkIds(rows, ids)| == |rows|
    ensures forall i :: 0 <= i < |rows| ==>
      MarkIds(rows, ids)[i] == if !rows[i].fromMe && rows[i].id in ids then rows[i].(read := true) else rows[i]
  {
    if ids != [] {
      MarkIdsRows(rows, ids[..|ids| - 1]);
      assert ids == ids[..|ids| - 1] + [ids[|ids| - 1]];
    }
  }

  /** Exactly the incoming rows the boundary covers or names become read. */
  lemma MarkRowsExact(rows: seq<Row>, boundary: int, ids: seq<Id>)
    ensures |MarkRows(rows, boundary, ids)| == |rows|
    ensures forall i :: 0 <= i < |rows| ==>
      MarkRows(rows, boundary, ids)[i] == if Marks(rows[i], boundary, ids) then rows[i].(read := true) else rows[i]
  {
    MarkIdsRows(EditRows(ReadThrough(boundary), rows), ids);
  }

  // --------------------------------------------------- apply_read_boundary

  function NewBoundary(s: Settings, timestamp: int, ids: seq<Id>): int {
    Max(s.readBoundary, CandidateBoundary(timestamp, ids))
  }

  function Counted(chats: map<Jid, Chat>, c: Jid, rows: seq<Row>): map<Jid, Chat> {
    if c in chats then chats[c := chats[c].(unread := UnreadCount(rows))] else chats
  }

  function ApplyBoundary(t: Tables, c: Jid, timestamp: int, ids: seq<Id>): Tables {
    var s := SettingsOf(t.settings, c);
    var boundary := NewBoundary(s, timestamp, ids);
    var rows := MarkRows(Rows(t.messages, c), boundary, ids);
    t.(settings := t.settings[c := s.(
         readBoundary := boundary,
         boundaryIds := Capped(ExtraIds(Rows(t.messages, c), MergedIds(s.boundaryIds, ids), boundary)),
         readState := Some(true), explicitUnread := false)],
       messages := WithRows(t.messages, c, rows),
       chats := Counted(t.chats, c, rows))
  }

  predicate BoundaryChanges(t: Tables, c: Jid, timestamp: int, ids: seq<Id>) {
    var u := ApplyBoundary(t, c, timestamp, ids);
    || Rows(u.messages, c) != Rows(t.messages, c)
    || SettingsOf(t.settings, c).explicitUnread
    || SettingsOf(u.settings, c).readBoundary != SettingsOf(t.settings, c).readBoundary
    || (c in t.chats && u.chats[c].unread != t.chats[c].unread)
  }

  lemma BoundaryChangesWhen(t: Tables, c: Jid, timestamp: int, ids: seq<Id>)
    ensures var s := SettingsOf(t.settings, c);
      var boundary := NewBoundary(s, timestamp, ids);
      var rows := MarkRows(Rows(t.messages, c), boundary, ids);
      BoundaryChanges(t, c, timestamp, ids) <==>
        (rows != Rows(t.messages, c) || s.explicitUnread || boundary != s.readBoundary ||
         (c in t.chats && UnreadCount(rows) != t.chats[c].unread))
  {
  }

  /** `SELECT MAX(timestamp)`. */
  function MaxTimestamp(rows: seq<Row>): Option<int> {
    var top := Newest(rows, false);
    if top.Some? then Some(top.value.timestamp) else None
  }

  /** The newest stored timestamp among the named messages. */
  function NewestNamed(rows: seq<Row>, ids: seq<Id>): Option<int> {
    if ids == [] then None
    else
      var front := NewestNamed(rows, ids[..|ids| - 1]);
      var row := FindId(rows, ids[|ids| - 1]);
      if row.None? then front
      else if front.None? then Some(row.value.timestamp)
      else Some(Max(front.value, row.value.timestamp))
  }

  function ExplicitUnread(t: Tables, c: Jid): Tables {
    t.(settings := t.settings[c := SettingsOf(t.settings, c).(readState := Some(false), explicitUnread := true)])
  }

  function StampReadState(t: Tables, c: Jid, at: int): Tables {
    if c in t.settings then t.(settings := t.settings[c := t.settings[c].(readStateUpdatedAt := at)]) else t
  }

  function Recounted(chats: map<Jid, Chat>, messages: map<Jid, seq<Row>>): map<Jid, Chat> {
    map c | c in chats :: chats[c].(unread := UnreadCount(Rows(messages, c)))
  }

  /** `WHERE unread != (SELECT COUNT(*) ...)`. */
  function Miscounted(chats: map<Jid, Chat>, messages: map<Jid, seq<Row>>): set<Jid> {
    set c | c in chats && chats[c].unread != UnreadCount(Rows(messages, c))
  }

  function ReconcileUnread(t: Tables): Tables {
    t.(chats := Recounted(t.chats, t.messages))
  }

  /** `apply_read_state`. */
  function ReadStateSet(t: Tables, c: Jid, read: bool): Tables {
    if read then ApplyBoundary(t, c, MaxTimestamp(Rows(t.messages, c)).GetOr(0), []) else ExplicitUnread(t, c)
  }

  /** Without a boundary of its own, an event reaches to the newest message it names. */
  function SyncedBoundary(rows: seq<Row>, at: Option<int>, ids: seq<Id>, eventAt: int): int {
    if at.Some? then at.value
    else if ids == [] then MaxTimestamp(rows).GetOr(eventAt)
    else NewestNamed(rows, ids).GetOr(eventAt)
  }

  /** `apply_synced_read_state`: an event older than the last one is ignored. */
  function SyncedReadState(t: Tables, c: Jid, read: bool, at: Option<int>, ids: seq<Id>, eventAt: int): Tables {
    if eventAt < SettingsOf(t.settings, c).readStateUpdatedAt then t
    else if !read then StampReadState(ExplicitUnread(t, c), c, eventAt)
    else StampReadState(ApplyBoundary(t, c, SyncedBoundary(Rows(t.messages, c), at, ids, eventAt), ids), c, eventAt)
  }

  /** `apply_self_read_receipt`. */
  function SelfReadReceipt(t: Tables, c: Jid, ids: seq<Id>, receiptAt: int): Tables {
    if ids == [] then t else ApplyBoundary(t, c, NewestNamed(Rows(t.messages, c), ids).GetOr(receiptAt), ids)
  }

  /** Every incoming row is read, the badge is zero and the chat is not marked unread. */
  predicate AllRead(t: Tables, c: Jid) {
    && (forall r :: r in Rows(t.messages, c) ==> r.fromMe || r.read)
    && (c in t.chats ==> t.chats[c].unread == 0)
    && !SettingsOf(t.settings, c).explicitUnread
  }

  lemma {:induction false} NoneUnread(rows: seq<Row>)
    requires forall r :: r in rows ==> r.fromMe || r.read
    ensures UnreadCount(rows) == 0
  {
    if rows != [] { NoneUnread(rows[..|rows| - 1]); }
  }

  /** Marking a chat read reaches every row, wherever the boundary stood. */
  lemma MarkedAllRead(t: Tables, c: Jid)
    ensures AllRead(ReadStateSet(t, c, true), c)
  {
    var at := MaxTimestamp(Rows(t.messages, c)).GetOr(0);
    var rows := Rows(t.messages, c);
    var boundary := NewBoundary(SettingsOf(t.settings, c), at, []);
    var marked := MarkRows(rows, boundary, []);
    MarkRowsExact(rows, boundary, []);
    forall r | r in marked ensures r.fromMe || r.read {
      var i :| 0 <= i < |marked| && marked[i] == r;
      assert rows[i] in rows;
    }
    NoneUnread(marked);
  }

  // --------------------------------------------------- the flags they return

  predicate ReadStateChanges(t: Tables, c: Jid, read: bool) {
    if read then BoundaryChanges(t, c, MaxTimestamp(Rows(t.messages, c)).GetOr(0), [])
    else !SettingsOf(t.settings, c).explicitUnread
  }

  predicate SyncedChanges(t: Tables, c: Jid, read: bool, at: Option<int>, ids: seq<Id>, eventAt: int) {
    && eventAt >= SettingsOf(t.settings, c).readStateUpdatedAt
    && if read then BoundaryChanges(t, c, SyncedBoundary(Rows(t.messages, c), at, ids, eventAt), ids)
       else !SettingsOf(t.settings, c).explicitUnread
  }

  predicate SelfReadChanges(t: Tables, c: Jid, ids: seq<Id>, receiptAt: int) {
    ids != [] && BoundaryChanges(t, c, NewestNamed(Rows(t.messages, c), ids).GetOr(receiptAt), ids)
  }
}
