/** Delivery and read receipts of own messages. */
module Receipts {
  import opened Prelude
  import opened Schema
  import opened Joins

  /** One receipt for one message id. */
  datatype Receipt = Receipt(chat: Jid, id: Id, level: int, recipient: Option<Jid>, at: int)

  /** Own message with this id in the chat. */
  predicate HasOwn(rows: seq<Row>, id: Id) {
    exists i :: 0 <= i < |rows| && rows[i].id == id && rows[i].fromMe
  }

  /** The smaller positive time; what is not positive means "not yet". */
  function SoonerThan(stored: int, at: int): int {
    if at > 0 && (stored <= 0 || at < stored) then at else stored
  }

  function ReaderAfter(seen: Option<ReaderTimes>, level: int, at: int): ReaderTimes {
    match seen
    case None => if level == 2 then ReaderTimes(0, at) else ReaderTimes(at, 0)
    case Some(x) =>
      if level == 2 then x.(deliveredAt := SoonerThan(x.deliveredAt, at)) else x.(readAt := SoonerThan(x.readAt, at))
  }

  predicate NamesReader(rows: seq<Row>, e: Receipt) {
    e.recipient.Some? && e.recipient.value != "" && e.level >= 2 && HasOwn(rows, e.id)
  }

  function ReadersAfter(readers: map<(Jid, Id), map<Jid, ReaderTimes>>, rows: seq<Row>, e: Receipt)
    : map<(Jid, Id), map<Jid, ReaderTimes>>
  {
    if !NamesReader(rows, e) then readers
    else
      var seen := Inner(readers, e.chat, e.id);
      readers[(e.chat, e.id) := seen[e.recipient.value := ReaderAfter(Get(seen, e.recipient.value), e.level, e.at)]]
  }

  /** One pass of the loop in `update_receipts`. */
  function ReceiveOne(t: Tables, e: Receipt): Tables {
    var rows := Rows(t.messages, e.chat);
    t.(messages := WithRows(t.messages, e.chat, EditRows(Receive(e.id, e.level, e.at), rows)),
       readers := ReadersAfter(t.readers, rows, e))
  }

  function ReceiveAll(t: Tables, es: seq<Receipt>): Tables {
    if es == [] then t else ReceiveOne(ReceiveAll(t, es[..|es| - 1]), es[|es| - 1])
  }

  /** The receipts one `update_receipts` call stands for. */
  function Batch(c: Jid, ids: seq<Id>, level: int, recipient: Option<Jid>, at: int): (es: seq<Receipt>)
    ensures |es| == |ids|
    ensures forall i :: 0 <= i < |ids| ==> es[i] == Receipt(c, ids[i], level, recipient, at)
  {
    seq(|ids|, i requires 0 <= i < |ids| => Receipt(c, ids[i], level, recipient, at))
  }

  // --------------------------------------------------- one row, one reader

  function OnRow(c: Jid, r: Row, e: Receipt): Row {
    if e.chat == c then EditRow(Receive(e.id, e.level, e.at), r) else r
  }

  /** What a reader entry shows: the delivery time and the read time, once positive. */
  datatype Seen = Seen(delivered: Option<int>, read: Option<int>)

  function Positive(at: int): Option<int> {
    if at > 0 then Some(at) else None
  }

  function Visible(readers: map<(Jid, Id), map<Jid, ReaderTimes>>, c: Jid, id: Id, reader: Jid): Seen {
    match Get(Inner(readers, c, id), reader)
    case None => Seen(None, None)
    case Some(x) => Seen(Positive(x.deliveredAt), Positive(x.readAt))
  }

  function OnReader(c: Jid, id: Id, reader: Jid, own: bool, s: Seen, e: Receipt): Seen {
    if !(own && e.chat == c && e.id == id && e.recipient == Some(reader) && reader != "") then s
    else if e.level == 2 then s.(delivered := Earliest(s.delivered, e.at))
    else if e.level >= 3 then s.(read := Earliest(s.read, e.at))
    else s
  }

  function RowFold(c: Jid, r: Row, es: seq<Receipt>): Row {
    if es == [] then r else OnRow(c, RowFold(c, r, es[..|es| - 1]), es[|es| - 1])
  }

  function ReaderFold(c: Jid, id: Id, reader: Jid, own: bool, s: Seen, es: seq<Receipt>): Seen {
    if es == [] then s
    else OnReader(c, id, reader, own, ReaderFold(c, id, reader, own, s, es[..|es| - 1]), es[|es| - 1])
  }

  /** The tables move row by row and reader by reader. */
  lemma {:induction false} ReceiveAllCells(t: Tables, es: seq<Receipt>, c: Jid)
    ensures |Rows(ReceiveAll(t, es).messages, c)| == |Rows(t.messages, c)|
    ensures forall i :: 0 <= i < |Rows(t.messages, c)| ==>
      Rows(ReceiveAll(t, es).messages, c)[i] == RowFold(c, Rows(t.messages, c)[i], es)
    ensures forall id :: HasOwn(Rows(ReceiveAll(t, es).messages, c), id) <==> HasOwn(Rows(t.messages, c), id)
    ensures forall id, reader ::
      Visible(ReceiveAll(t, es).readers, c, id, reader) ==
      ReaderFold(c, id, reader, HasOwn(Rows(t.messages, c), id), Visible(t.readers, c, id, reader), es)
  {
    if es != [] {
      var n := |es| - 1;
      var u := ReceiveAll(t, es[..n]);
      ReceiveAllCells(t, es[..n], c);
      ReceiveOneOwn(u, es[n], c);
      forall id, reader
        ensures Visible(ReceiveOne(u, es[n]).readers, c, id, reader)
          == OnReader(c, id, reader, HasOwn(Rows(u.messages, c), id), Visible(u.readers, c, id, reader), es[n])
      {
        ReceiveOneReader(u, es[n], c, id, reader);
      }
    }
  }

  lemma ReceiveOneOwn(t: Tables, e: Receipt, c: Jid)
    ensures forall id :: HasOwn(Rows(ReceiveOne(t, e).messages, c), id) <==> HasOwn(Rows(t.messages, c), id)
  {
    var a, b := Rows(t.messages, c), Rows(ReceiveOne(t, e).messages, c);
    forall id ensures HasOwn(b, id) <==> HasOwn(a, id) {
      if i :| 0 <= i < |a| && a[i].id == id && a[i].fromMe { assert b[i].id == id && b[i].fromMe; }
      if i :| 0 <= i < |b| && b[i].id == id && b[i].fromMe { assert a[i].id == id && a[i].fromMe; }
    }
  }

  lemma ReceiveOneReader(t: Tables, e: Receipt, c: Jid, id: Id, reader: Jid)
    ensures Visible(ReceiveOne(t, e).readers, c, id, reader)
      == OnReader(c, id, reader, HasOwn(Rows(t.messages, c), id), Visible(t.readers, c, id, reader), e)
  {
  }

  // --------------------------------------------------- the join

  lemma OnRowCommutes(c: Jid, r: Row, x: Receipt, y: Receipt)
    ensures OnRow(c, OnRow(c, r, x), y) == OnRow(c, OnRow(c, r, y), x)
    ensures OnRow(c, OnRow(c, r, x), x) == OnRow(c, r, x)
  {
  }

  lemma RowJoin(c: Jid, r: Row, a: seq<Receipt>, b: seq<Receipt>)
    requires forall e :: e in a <==> e in b
    ensures RowFold(c, r, a) == RowFold(c, r, b)
  {
    var f := (r: Row, e: Receipt) => OnRow(c, r, e);
    hide OnRow;
    RowFoldIsFold(c, r, a, f);
    RowFoldIsFold(c, r, b, f);
    forall r, x, y ensures f(f(r, x), y) == f(f(r, y), x) && f(f(r, x), x) == f(r, x) { OnRowCommutes(c, r, x, y); }
    SameEvents(f, r, a, b);
  }

  lemma ReaderJoin(c: Jid, id: Id, reader: Jid, own: bool, s: Seen, a: seq<Receipt>, b: seq<Receipt>)
    requires forall e :: e in a <==> e in b
    ensures ReaderFold(c, id, reader, own, s, a) == ReaderFold(c, id, reader, own, s, b)
  {
    var f := (s: Seen, e: Receipt) => OnReader(c, id, reader, own, s, e);
    ReaderFoldIsFold(c, id, reader, own, s, a, f);
    ReaderFoldIsFold(c, id, reader, own, s, b, f);
    SameEvents(f, s, a, b);
  }

  /** The visible state depends only on which receipts arrived, not on order,
      duplication or batching. */
  lemma ReceiptsJoin(t: Tables, a: seq<Receipt>, b: seq<Receipt>, c: Jid)
    requires forall e :: e in a <==> e in b
    ensures Rows(ReceiveAll(t, a).messages, c) == Rows(ReceiveAll(t, b).messages, c)
    ensures forall id, reader ::
      Visible(ReceiveAll(t, a).readers, c, id, reader) == Visible(ReceiveAll(t, b).readers, c, id, reader)
  {
    ReceiveAllCells(t, a, c);
    ReceiveAllCells(t, b, c);
    var rows := Rows(t.messages, c);
    forall i | 0 <= i < |rows| ensures RowFold(c, rows[i], a) == RowFold(c, rows[i], b) {
      RowJoin(c, rows[i], a, b);
    }
    forall id, reader
      ensures Visible(ReceiveAll(t, a).readers, c, id, reader) == Visible(ReceiveAll(t, b).readers, c, id, reader)
    {
      ReaderJoin(c, id, reader, HasOwn(rows, id), Visible(t.readers, c, id, reader), a, b);
    }
  }

  // --------------------------------------------------- what the join is

  /** A receipt that reports a time for this message and, if given, this reader. */
  predicate Reports(e: Receipt, c: Jid, id: Id, reader: Option<Jid>, read: bool) {
    && e.chat == c && e.id == id && e.at > 0
    && (reader.Some? ==> e.recipient == reader)
    && if read then e.level >= 3 else e.level == 2
  }

  /** The stored time is the least of the reported ones and the initial one. */
  predicate IsLeast(c: Jid, id: Id, reader: Option<Jid>, es: seq<Receipt>, read: bool,
                    initial: Option<int>, stored: Option<int>) {
    && (stored == initial
        || (stored.Some? &&
            exists i :: 0 <= i < |es| && Reports(es[i], c, id, reader, read) && es[i].at == stored.value))
    && (initial.Some? ==> stored.Some? && stored.value <= initial.value)
    && (forall i :: 0 <= i < |es| && Reports(es[i], c, id, reader, read) ==> stored.Some? && stored.value <= es[i].at)
  }

  /** Receipt level of an own row: the greatest seen. */
  predicate IsGreatest(c: Jid, id: Id, es: seq<Receipt>, initial: int, stored: int) {
    && stored >= initial
    && (forall i :: 0 <= i < |es| && es[i].chat == c && es[i].id == id ==> es[i].level <= stored)
    && (stored == initial || exists i :: 0 <= i < |es| && es[i].chat == c && es[i].id == id && es[i].level == stored)
  }

  lemma {:induction false} OwnRowJoin(c: Jid, r: Row, es: seq<Receipt>)
    requires r.fromMe
    ensures var s := RowFold(c, r, es);
      && IsGreatest(c, r.id, es, r.receipt, s.receipt)
      && IsLeast(c, r.id, None, es, false, r.deliveredAt, s.deliveredAt)
      && IsLeast(c, r.id, None, es, true, r.readAt, s.readAt)
      && s == r.(receipt := s.receipt, deliveredAt := s.deliveredAt, readAt := s.readAt)
  {
    if es != [] {
      var n := |es| - 1;
      OwnRowJoin(c, r, es[..n]);
      var s, s' := RowFold(c, r, es[..n]), RowFold(c, r, es);
      GreatestGrows(c, r.id, es, r.receipt, s.receipt, s'.receipt);
      LeastGrows(c, r.id, None, es, false, r.deliveredAt, s.deliveredAt, s'.deliveredAt);
      LeastGrows(c, r.id, None, es, true, r.readAt, s.readAt, s'.readAt);
    }
  }

  lemma GreatestGrows(c: Jid, id: Id, es: seq<Receipt>, initial: int, stored: int, next: int)
    requires es != [] && IsGreatest(c, id, es[..|es| - 1], initial, stored)
    requires var e := es[|es| - 1]; next == if e.chat == c && e.id == id then Max(stored, e.level) else stored
    ensures IsGreatest(c, id, es, initial, next)
  {
    var n := |es| - 1;
    if stored != initial {
      var i :| 0 <= i < n && es[..n][i].chat == c && es[..n][i].id == id && es[..n][i].level == stored;
      assert es[i].level == stored;
    }
    assert forall i :: 0 <= i < n ==> es[..n][i] == es[i];
  }

  lemma LeastGrows(c: Jid, id: Id, reader: Option<Jid>, es: seq<Receipt>, read: bool,
                   initial: Option<int>, stored: Option<int>, next: Option<int>)
    requires es != [] && IsLeast(c, id, reader, es[..|es| - 1], read, initial, stored)
    requires var e := es[|es| - 1];
      next == if Reports(e, c, id, reader, read) then Earliest(stored, e.at) else stored
    ensures IsLeast(c, id, reader, es, read, initial, next)
  {
    var n := |es| - 1;
    assert forall i :: 0 <= i < n ==> es[..n][i] == es[i];
    if stored != initial {
      var i :| 0 <= i < n && Reports(es[..n][i], c, id, reader, read) && es[..n][i].at == stored.value;
      assert Reports(es[i], c, id, reader, read);
    }
  }

  /** The times a reader entry shows are the least positive ones reported for that reader. */
  lemma {:induction false} ReaderEntryJoin(c: Jid, id: Id, reader: Jid, s: Seen, es: seq<Receipt>)
    requires reader != ""
    ensures IsLeast(c, id, Some(reader), es, false, s.delivered, ReaderFold(c, id, reader, true, s, es).delivered)
    ensures IsLeast(c, id, Some(reader), es, true, s.read, ReaderFold(c, id, reader, true, s, es).read)
  {
    if es != [] {
      var n := |es| - 1;
      ReaderEntryJoin(c, id, reader, s, es[..n]);
      var x, y := ReaderFold(c, id, reader, true, s, es[..n]), ReaderFold(c, id, reader, true, s, es);
      LeastGrows(c, id, Some(reader), es, false, s.delivered, x.delivered, y.delivered);
      LeastGrows(c, id, Some(reader), es, true, s.read, x.read, y.read);
    }
  }

  /** Receipts leave incoming rows alone, and every column but level and times of one's own;
      a reader entry is kept only for one's own messages. */
  lemma {:induction false} OnlyOwnMove(c: Jid, r: Row, es: seq<Receipt>)
    ensures !r.fromMe ==> RowFold(c, r, es) == r
    ensures var s := RowFold(c, r, es);
      s == r.(receipt := s.receipt, deliveredAt := s.deliveredAt, readAt := s.readAt)
    ensures forall id, reader, s :: ReaderFold(c, id, reader, false, s, es) == s
  {
    if es != [] {
      OnlyOwnMove(c, r, es[..|es| - 1]);
    }
  }

  /** Some own message of the chat has the id. */
  predicate IsOwn(rows: seq<Row>, id: Id) {
    exists r :: r in rows && r.id == id && r.fromMe
  }

  lemma OwnIsHad(rows: seq<Row>, id: Id)
    ensures IsOwn(rows, id) <==> HasOwn(rows, id)
  {
    if r :| r in rows && r.id == id && r.fromMe { var i :| 0 <= i < |rows| && rows[i] == r; }
    if i :| 0 <= i < |rows| && rows[i].id == id && rows[i].fromMe { assert rows[i] in rows; }
  }

  /** Without an own message under its id a receipt changes nothing; with one, it leaves an
      entry for the reader it names, if it names one and says more than that it was sent. */
  lemma OwnIsRecorded(t: Tables, e: Receipt, reader: Jid)
    ensures var rows, u := Rows(t.messages, e.chat), ReceiveOne(t, e);
      && (!IsOwn(rows, e.id) ==> Rows(u.messages, e.chat) == rows && u.readers == t.readers)
      && (reader in Inner(u.readers, e.chat, e.id) <==>
          || reader in Inner(t.readers, e.chat, e.id)
          || (IsOwn(rows, e.id) && e.recipient == Some(reader) && reader != "" && e.level >= 2))
  {
    var rows := Rows(t.messages, e.chat);
    OwnIsHad(rows, e.id);
    hide IsOwn, ReaderAfter;
    if !HasOwn(rows, e.id) { assert EditRows(Receive(e.id, e.level, e.at), rows) == rows; }
  }

  // --------------------------------------------------- the returned flag

  /** A row of the chat or a reader entry differs. */
  predicate Differs(t: Tables, u: Tables, c: Jid) {
    Rows(t.messages, c) != Rows(u.messages, c) || t.readers != u.readers
  }

  /** `changed |=` over the statements of the loop. */
  predicate AnyStatementChanged(t: Tables, c: Jid, es: seq<Receipt>) {
    if es == [] then false
    else AnyStatementChanged(t, c, es[..|es| - 1]) || Differs(ReceiveAll(t, es[..|es| - 1]), ReceiveAll(t, es), c)
  }

  lemma ReceiveNext(t: Tables, c: Jid, es: seq<Receipt>, i: nat)
    requires i < |es|
    ensures ReceiveAll(t, es[..i + 1]) == ReceiveOne(ReceiveAll(t, es[..i]), es[i])
    ensures AnyStatementChanged(t, c, es[..i + 1]) <==>
      AnyStatementChanged(t, c, es[..i]) || Differs(ReceiveAll(t, es[..i]), ReceiveAll(t, es[..i + 1]), c)
  {
    assert es[..i + 1][..i] == es[..i];
  }

  predicate OptAhead(a: Option<int>, b: Option<int>) {
    a == b || (b.Some? && (a.None? || b.value < a.value))
  }

  predicate TimeAhead(a: int, b: int) {
    a == b || (b > 0 && (a <= 0 || b < a))
  }

  predicate RowAhead(a: Row, b: Row) {
    && a.receipt <= b.receipt && OptAhead(a.deliveredAt, b.deliveredAt) && OptAhead(a.readAt, b.readAt)
    && b == a.(receipt := b.receipt, deliveredAt := b.deliveredAt, readAt := b.readAt)
  }

  predicate EntriesAhead(m: map<Jid, ReaderTimes>, n: map<Jid, ReaderTimes>) {
    forall r :: r in m ==>
      r in n && TimeAhead(m[r].readAt, n[r].readAt) && TimeAhead(m[r].deliveredAt, n[r].deliveredAt)
  }

  /** Receipts only ever advance a state. */
  predicate Ahead(t: Tables, u: Tables, c: Jid) {
    && |Rows(t.messages, c)| == |Rows(u.messages, c)|
    && (forall i :: 0 <= i < |Rows(t.messages, c)| ==> RowAhead(Rows(t.messages, c)[i], Rows(u.messages, c)[i]))
    && (forall k :: k in t.readers ==> k in u.readers && EntriesAhead(t.readers[k], u.readers[k]))
  }

  lemma ReceiveOneAhead(t: Tables, e: Receipt, c: Jid)
    ensures Ahead(t, ReceiveOne(t, e), c)
  {
  }

  lemma EntriesTransitive(a: map<Jid, ReaderTimes>, b: map<Jid, ReaderTimes>, d: map<Jid, ReaderTimes>)
    requires EntriesAhead(a, b) && EntriesAhead(b, d)
    ensures EntriesAhead(a, d)
    ensures a == d ==> a == b
  {
    if a == d {
      assert a.Keys == b.Keys;
      forall r | r in a ensures a[r] == b[r] {}
    }
  }

  /** Once ahead, a state never comes back. */
  lemma NoReturn(t: Tables, u: Tables, v: Tables, c: Jid)
    requires Ahead(t, u, c) && Ahead(u, v, c)
    ensures Ahead(t, v, c)
    ensures !Differs(t, v, c) ==> !Differs(t, u, c)
  {
    forall k | k in t.readers ensures k in v.readers && EntriesAhead(t.readers[k], v.readers[k]) {
      EntriesTransitive(t.readers[k], u.readers[k], v.readers[k]);
    }
    if !Differs(t, v, c) {
      assert t.readers.Keys == u.readers.Keys;
      forall k | k in t.readers ensures t.readers[k] == u.readers[k] {
        EntriesTransitive(t.readers[k], u.readers[k], v.readers[k]);
      }
      assert forall i :: 0 <= i < |Rows(t.messages, c)| ==> Rows(t.messages, c)[i] == Rows(u.messages, c)[i];
    }
  }

  /** `update_receipts` returns true exactly when a row ended up different. */
  lemma {:induction false} ReceiptFlagExact(t: Tables, c: Jid, es: seq<Receipt>)
    ensures Ahead(t, ReceiveAll(t, es), c)
    ensures AnyStatementChanged(t, c, es) <==> Differs(t, ReceiveAll(t, es), c)
  {
    if es != [] {
      var n := |es| - 1;
      var u := ReceiveAll(t, es[..n]);
      ReceiptFlagExact(t, c, es[..n]);
      ReceiveOneAhead(u, es[n], c);
      NoReturn(t, u, ReceiveAll(t, es), c);
    }
  }

  lemma {:induction false} RowFoldIsFold(c: Jid, r: Row, es: seq<Receipt>, f: (Row, Receipt) -> Row)
    requires forall r, e :: f(r, e) == OnRow(c, r, e)
    ensures RowFold(c, r, es) == Fold(f, r, es)
  {
    if es != [] { RowFoldIsFold(c, r, es[..|es| - 1], f); }
  }

  lemma {:induction false} ReaderFoldIsFold(c: Jid, id: Id, reader: Jid, own: bool, s: Seen, es: seq<Receipt>,
                                            f: (Seen, Receipt) -> Seen)
    requires forall s, e :: f(s, e) == OnReader(c, id, reader, own, s, e)
    ensures ReaderFold(c, id, reader, own, s, es) == Fold(f, s, es)
  {
    if es != [] { ReaderFoldIsFold(c, id, reader, own, s, es[..|es| - 1], f); }
  }
}
