/** What the alias merge leaves in every column, told by the rows there were before. */
module Unions {
  import opened Prelude
  import opened Schema
  import opened Retention
  import opened Merging

  function RowAt(rows: seq<Row>, sender: Jid, id: Id): Option<Row> {
    if HasKey(rows, sender, id) then Some(rows[KeyIndex(rows, sender, id)]) else None
  }

  lemma RowAtIs(rows: seq<Row>, r: Row)
    requires UniqueKeys(rows) && r in rows
    ensures RowAt(rows, r.sender, r.id) == Some(r)
  {
    var i :| 0 <= i < |rows| && rows[i] == r;
    assert HasKey(rows, r.sender, r.id);
  }

  lemma RowAtNone(rows: seq<Row>, sender: Jid, id: Id)
    requires forall r :: r in rows ==> r.sender != sender || r.id != id
    ensures RowAt(rows, sender, id) == None
  {
    assert forall i :: 0 <= i < |rows| ==> rows[i] in rows;
  }

  /** Two rows of one key under a conflict clause, either of which may be missing. */
  function JoinedRow(k: Clause, kept: Option<Row>, taken: Option<Row>): Option<Row> {
    if kept.None? then taken else if taken.None? then kept else Some(MergedRow(k, kept.value, taken.value))
  }

  // --------------------------------------------------- the row of a key, statement by statement

  lemma UpsertRowAt(k: Clause, rows: seq<Row>, x: Row, sender: Jid, id: Id)
    requires UniqueKeys(rows)
    ensures RowAt(UpsertRow(k, rows, x), sender, id) ==
      JoinedRow(k, RowAt(rows, sender, id), if sender == x.sender && id == x.id then Some(x) else None)
  {
    var out := UpsertRow(k, rows, x);
    UpsertRowKeys(k, rows, x);
    if HasKey(out, sender, id) {
      var r := out[KeyIndex(out, sender, id)];
      assert r in out;
      if !SameKey(r, x) { RowAtIs(rows, r); }
    }
  }

  lemma {:induction false} UpsertRowsAt(k: Clause, rows: seq<Row>, xs: seq<Row>, sender: Jid, id: Id)
    requires UniqueKeys(rows) && UniqueKeys(xs)
    ensures RowAt(UpsertRows(k, rows, xs), sender, id) == JoinedRow(k, RowAt(rows, sender, id), RowAt(xs, sender, id))
  {
    if xs == [] {
      RowAtNone(xs, sender, id);
    } else {
      hide UpsertRow, MergedRow;
      var n := |xs| - 1;
      UpsertRowsAt(k, rows, xs[..n], sender, id);
      UpsertJoins(k, rows, xs[..n]);
      UpsertRowAt(k, UpsertRows(k, rows, xs[..n]), xs[n], sender, id);
      LastAt(xs, sender, id);
    }
  }

  lemma LastAt(xs: seq<Row>, sender: Jid, id: Id)
    requires UniqueKeys(xs) && xs != []
    ensures var n := |xs| - 1;
      && UniqueKeys(xs[..n])
      && (xs[n].sender == sender && xs[n].id == id ==>
          RowAt(xs[..n], sender, id) == None && RowAt(xs, sender, id) == Some(xs[n]))
      && (!(xs[n].sender == sender && xs[n].id == id) ==> RowAt(xs, sender, id) == RowAt(xs[..n], sender, id))
  {
    var n := |xs| - 1;
    var front := xs[..n];
    if xs[n].sender == sender && xs[n].id == id {
      RowAtIs(xs, xs[n]);
      RowAtNone(front, sender, id);
    } else if HasKey(front, sender, id) {
      var r := front[KeyIndex(front, sender, id)];
      assert r in xs;
      RowAtIs(xs, r);
    } else {
      RowAtNone(xs, sender, id) by {
        forall r | r in xs ensures r.sender != sender || r.id != id {
          if r in front && r.sender == sender && r.id == id { RowAtIs(front, r); }
        }
      }
    }
  }

  function As(r: Option<Row>, sender: Jid): Option<Row> {
    if r.None? then None else Some(r.value.(sender := sender))
  }

  lemma {:induction false} TakenAt(rows: seq<Row>, from: Jid, to: Jid, sender: Jid, id: Id)
    requires UniqueKeys(rows)
    ensures UniqueKeys(Taken(rows, from, to))
    ensures RowAt(Taken(rows, from, to), sender, id) == if sender == to then As(RowAt(rows, from, id), to) else None
  {
    TakenUnique(rows, from, to);
    TakenRows(rows, from, to);
    var xs := Taken(rows, from, to);
    if sender == to && HasKey(rows, from, id) {
      var p := rows[KeyIndex(rows, from, id)];
      assert p in rows;
      RowAtIs(xs, p.(sender := to));
    } else {
      forall x | x in xs ensures x.sender != sender || x.id != id {
        var p :| p in rows && p.sender == from && x == p.(sender := to);
        if x.sender == sender && x.id == id { RowAtIs(rows, p); }
      }
      RowAtNone(xs, sender, id);
    }
  }

  lemma {:induction false} TakenUnique(rows: seq<Row>, from: Jid, to: Jid)
    requires UniqueKeys(rows)
    ensures UniqueKeys(Taken(rows, from, to))
  {
    if rows != [] {
      var n := |rows| - 1;
      TakenUnique(rows[..n], from, to);
      TakenRows(rows[..n], from, to);
      var front := Taken(rows[..n], from, to);
      forall i | 0 <= i < |front| && rows[n].sender == from ensures front[i].id != rows[n].id {
        assert front[i] in front;
        var p :| p in rows[..n] && p.sender == from && front[i] == p.(sender := to);
        var k :| 0 <= k < n && rows[k] == p;
      }
    }
  }

  lemma CutAt(rows: seq<Row>, from: Jid, sender: Jid, id: Id)
    requires UniqueKeys(rows)
    ensures RowAt(CutRows(OfSender(from), rows), sender, id) == if sender == from then None else RowAt(rows, sender, id)
  {
    var out := CutRows(OfSender(from), rows);
    CutKeepsKeys(OfSender(from), rows);
    if sender != from && HasKey(rows, sender, id) {
      var r := rows[KeyIndex(rows, sender, id)];
      assert r in rows && r in out;
      RowAtIs(out, r);
    } else {
      forall r | r in out ensures r.sender != sender || r.id != id {
        if r.sender == sender && r.id == id { RowAtIs(rows, r); }
      }
      RowAtNone(out, sender, id);
    }
  }

  /** Within a chat: the new identifier's row joined by the old one's, any other as it is. */
  lemma SenderAt(rows: seq<Row>, from: Jid, to: Jid, sender: Jid, id: Id)
    requires UniqueKeys(rows) && from != to && sender != from
    ensures UniqueKeys(SenderMerged(rows, from, to))
    ensures RowAt(SenderMerged(rows, from, to), sender, id) ==
      JoinedRow(BySender, RowAt(rows, sender, id), if sender == to then As(RowAt(rows, from, id), to) else None)
  {
    hide MergedRow, UpsertRows, Taken, CutRows;
    TakenAt(rows, from, to, sender, id);
    UpsertRowsAt(BySender, rows, Taken(rows, from, to), sender, id);
    UpsertJoins(BySender, rows, Taken(rows, from, to));
    CutAt(UpsertRows(BySender, rows, Taken(rows, from, to)), from, sender, id);
    CutKeepsKeys(OfSender(from), UpsertRows(BySender, rows, Taken(rows, from, to)));
  }

  /** The up to four rows a key of the merged chat comes from: in this chat and then in the old
      one, each time under its own sender and then under the old identifier. */
  datatype Preimages = Preimages(own: Option<Row>, alias: Option<Row>, oldOwn: Option<Row>, oldAlias: Option<Row>)

  function PreimagesOf(t: Tables, from: Jid, to: Jid, c: Jid, sender: Jid, id: Id): Preimages {
    var here, there := Rows(t.messages, c), if c == to then Rows(t.messages, from) else [];
    Preimages(RowAt(here, sender, id), if sender == to then RowAt(here, from, id) else None,
              RowAt(there, sender, id), if sender == to then RowAt(there, from, id) else None)
  }

  function Joined(p: Preimages, to: Jid): Option<Row> {
    JoinedRow(ByChat, JoinedRow(BySender, p.own, As(p.alias, to)), JoinedRow(BySender, p.oldOwn, As(p.oldAlias, to)))
  }

  lemma MergedAt(t: Tables, from: Jid, to: Jid, c: Jid, sender: Jid, id: Id)
    requires from != to && c != from && sender != from && forall d :: UniqueKeys(Rows(t.messages, d))
    ensures RowAt(MergedRows(t.messages, from, to, c), sender, id)
      == Joined(PreimagesOf(t, from, to, c, sender, id), to)
  {
    hide MergedRow, SenderMerged, UpsertRows;
    SenderAt(Rows(t.messages, c), from, to, sender, id);
    if c == to {
      SenderAt(Rows(t.messages, from), from, to, sender, id);
      UpsertRowsAt(ByChat, SenderMerged(Rows(t.messages, c), from, to),
                   SenderMerged(Rows(t.messages, from), from, to), sender, id);
    }
  }

  // --------------------------------------------------- columns

  function Listed(o: Option<Row>): seq<Row> {
    if o.Some? then [o.value] else []
  }

  function Before(p: Preimages): seq<Row> {
    Listed(p.own) + Listed(p.alias) + Listed(p.oldOwn) + Listed(p.oldAlias)
  }

  /** The rows of the same chat that were joined by sender: this chat's, or else the old one's. */
  function Pair(p: Preimages): seq<Row> {
    if p.own.Some? || p.alias.Some? then Listed(p.own) + Listed(p.alias) else Listed(p.oldOwn) + Listed(p.oldAlias)
  }

  /** The value is the first there is among the rows, and is missing only if all lack it. */
  ghost predicate FirstHeld<V>(value: Option<V>, rows: seq<Row>, column: Row -> Option<V>) {
    && (value.None? ==> forall i :: 0 <= i < |rows| ==> column(rows[i]).None?)
    && (value.Some? ==>
        exists i :: 0 <= i < |rows| && column(rows[i]) == value && forall j :: 0 <= j < i ==> column(rows[j]).None?)
  }

  /** The time is the greatest, the text the first that is not empty, and the row is one's
      own if any of them is. */
  predicate HoldsPair(r: Row, rows: seq<Row>) {
    && (forall q :: q in rows ==> q.timestamp <= r.timestamp) && (exists q :: q in rows && q.timestamp == r.timestamp)
    && (r.text == "" ==> forall i :: 0 <= i < |rows| ==> rows[i].text == "")
    && (r.text != "" ==>
        exists i :: 0 <= i < |rows| && rows[i].text == r.text && forall j :: 0 <= j < i ==> rows[j].text == "")
    && (r.fromMe <==> exists q :: q in rows && q.fromMe)
  }

  /** A sender's name is the first row's unless that is blank or the bare identifier. */
  predicate HoldsName(name: string, rows: seq<Row>) {
    && rows != []
    && (|rows| == 1 || (rows[0].senderName != "" && rows[0].senderName != rows[0].sender) ==>
        name == rows[0].senderName)
    && (|rows| > 1 && (rows[0].senderName == "" || rows[0].senderName == rows[0].sender) ==> name == rows[1].senderName)
  }

  lemma FirstOfTwo<V>(a: Option<V>, b: Option<V>, v: Option<V>, rows: seq<Row>, others: seq<Row>,
                      column: Row -> Option<V>)
    requires FirstHeld(a, rows, column) && FirstHeld(b, others, column) && v == Coalesce(a, b)
    ensures FirstHeld(v, rows + others, column)
  {
    var all := rows + others;
    assert forall i :: 0 <= i < |rows| ==> all[i] == rows[i];
    assert forall i :: 0 <= i < |others| ==> all[|rows| + i] == others[i];
    if a.Some? {
      var i :| 0 <= i < |rows| && column(rows[i]) == a && forall j :: 0 <= j < i ==> column(rows[j]).None?;
      assert column(all[i]) == v;
    } else if b.Some? {
      var i :| 0 <= i < |others| && column(others[i]) == b && forall j :: 0 <= j < i ==> column(others[j]).None?;
      assert column(all[|rows| + i]) == v;
      forall j | 0 <= j < |rows| + i ensures column(all[j]).None? {
        if j >= |rows| { assert all[j] == others[j - |rows|]; }
      }
    }
  }

  ghost predicate ColumnIs<V>(o: Option<Row>, rows: seq<Row>, column: Row -> Option<V>) {
    (o.None? ==> rows == []) && (o.Some? ==> rows != [] && FirstHeld(column(o.value), rows, column))
  }

  /** Both conflict clauses coalesce the column, and it does not depend on the sender. */
  ghost predicate Coalesced<V(!new)>(column: Row -> Option<V>) {
    && (forall k, x, y :: column(MergedRow(k, x, y)) == Coalesce(column(x), column(y)))
    && (forall x: Row, s :: column(x.(sender := s)) == column(x))
  }

  lemma ColumnJoins<V(!new)>(k: Clause, a: Option<Row>, b: Option<Row>, rows: seq<Row>, others: seq<Row>,
                             column: Row -> Option<V>)
    requires ColumnIs(a, rows, column) && ColumnIs(b, others, column) && Coalesced(column)
    ensures ColumnIs(JoinedRow(k, a, b), rows + others, column)
  {
    hide FirstHeld, MergedRow;
    if a.None? {
      assert rows + others == others;
    } else if b.None? {
      assert rows + others == rows;
    } else {
      var m := MergedRow(k, a.value, b.value);
      FirstOfTwo(column(a.value), column(b.value), column(m), rows, others, column);
    }
  }

  lemma ColumnAs<V(!new)>(o: Option<Row>, to: Jid, column: Row -> Option<V>)
    requires Coalesced(column)
    ensures ColumnIs(o, Listed(o), column) && ColumnIs(As(o, to), Listed(o), column)
  {
    if o.Some? { assert column(Listed(o)[0]) == column(o.value) == column(o.value.(sender := to)); }
  }

  lemma JoinedColumn<V(!new)>(p: Preimages, to: Jid, column: Row -> Option<V>)
    requires Coalesced(column)
    ensures ColumnIs(Joined(p, to), Before(p), column)
  {
    hide ColumnIs, MergedRow, Coalesced, JoinedRow, Listed, As;
    ColumnAs(p.own, to, column);
    ColumnAs(p.alias, to, column);
    ColumnAs(p.oldOwn, to, column);
    ColumnAs(p.oldAlias, to, column);
    ColumnJoins(BySender, p.own, As(p.alias, to), Listed(p.own), Listed(p.alias), column);
    ColumnJoins(BySender, p.oldOwn, As(p.oldAlias, to), Listed(p.oldOwn), Listed(p.oldAlias), column);
    ColumnJoins(ByChat, JoinedRow(BySender, p.own, As(p.alias, to)), JoinedRow(BySender, p.oldOwn, As(p.oldAlias, to)),
                Listed(p.own) + Listed(p.alias), Listed(p.oldOwn) + Listed(p.oldAlias), column);
    assert Before(p) == (Listed(p.own) + Listed(p.alias)) + (Listed(p.oldOwn) + Listed(p.oldAlias));
  }

  /** Media, download, quote and the two times are each the first a preimage has. */
  ghost predicate HoldsColumns(r: Row, rows: seq<Row>) {
    && FirstHeld(r.media, rows, (x: Row) => x.media) && FirstHeld(r.download, rows, (x: Row) => x.download)
    && FirstHeld(r.quote, rows, (x: Row) => x.quote)
    && FirstHeld(r.deliveredAt, rows, (x: Row) => x.deliveredAt) && FirstHeld(r.readAt, rows, (x: Row) => x.readAt)
  }

  lemma JoinedColumns(p: Preimages, to: Jid)
    requires Joined(p, to).Some?
    ensures HoldsColumns(Joined(p, to).value, Before(p))
  {
    hide Joined, Before;
    JoinedColumn(p, to, (x: Row) => x.media);
    JoinedColumn(p, to, (x: Row) => x.download);
    JoinedColumn(p, to, (x: Row) => x.quote);
    JoinedColumn(p, to, (x: Row) => x.deliveredAt);
    JoinedColumn(p, to, (x: Row) => x.readAt);
  }

  lemma PairJoins(own: Option<Row>, alias: Option<Row>, to: Jid)
    requires own.Some? || alias.Some?
    ensures var r, rows := JoinedRow(BySender, own, As(alias, to)).value, Listed(own) + Listed(alias);
      HoldsPair(r, rows) && HoldsName(r.senderName, rows)
  {
    var rows := Listed(own) + Listed(alias);
    if own.Some? { assert rows[0] == own.value; }
    if alias.Some? { assert rows[|rows| - 1] == alias.value; }
    assert forall q :: q in rows <==> own == Some(q) || alias == Some(q);
  }

  lemma JoinedPair(p: Preimages, to: Jid)
    requires Joined(p, to).Some?
    ensures var r := Joined(p, to).value; HoldsPair(r, Pair(p)) && HoldsName(r.senderName, Pair(p))
  {
    hide HoldsPair, HoldsName, MergedRow, Listed;
    var kept, taken := JoinedRow(BySender, p.own, As(p.alias, to)), JoinedRow(BySender, p.oldOwn, As(p.oldAlias, to));
    if kept.Some? {
      PairJoins(p.own, p.alias, to);
      if taken.Some? { ChatKeepsPair(kept.value, taken.value, Pair(p)); }
    } else {
      PairJoins(p.oldOwn, p.oldAlias, to);
    }
  }

  /** Joining by chat leaves time, text, name and ownership to the new chat's row. */
  lemma ChatKeepsPair(kept: Row, taken: Row, rows: seq<Row>)
    ensures var m := MergedRow(ByChat, kept, taken);
      (HoldsPair(kept, rows) ==> HoldsPair(m, rows)) && m.senderName == kept.senderName
  {
  }

  // --------------------------------------------------- rows of the merged tables

  /** Every column of every row after the merge. Media, download, quote and times are the
      first any of its up to four preimages has, the new identifier's own in the new chat
      first; time, text, name and ownership come from the rows of one chat, the new one's if it
      has any; and the new identifier's messages carry its contact's name. */
  lemma MigratedColumns(t: Tables, from: Jid, to: Jid, c: Jid, i: nat)
    requires Migrates(t, from, to) && c != from && i < |Rows(Migrate(t, from, to).messages, c)|
    requires forall d :: UniqueKeys(Rows(t.messages, d))
    ensures var u := Migrate(t, from, to);
      var r := Rows(u.messages, c)[i];
      var p := PreimagesOf(t, from, to, c, r.sender, r.id);
      && Before(p) != [] && HoldsColumns(r, Before(p)) && HoldsPair(r, Pair(p))
      && (if r.sender == to && to in u.contacts then r.senderName == u.contacts[to].name
          else HoldsName(r.senderName, Pair(p)))
  {
    hide MergedRows, FinalRows, Joined, PreimagesOf, HoldsColumns, HoldsPair, HoldsName, Before, Pair, UniqueKeys;
    hide MergedContact, MergedChat, TitledChat, MergedSettings, SourceExists;
    MigratedRows(t, from, to, c);
    MergeIsUnion(t, from, to, c);
    var r := FinalRows(t, from, to, c)[i];
    var q := FinalRowFrom(t, from, to, c, i);
    JoinsUnique(MergedRows(t.messages, from, to, c), Sources(t, from, to, c));
    RowAtIs(MergedRows(t.messages, from, to, c), q);
    MergedAt(t, from, to, c, q.sender, q.id);
    var p := PreimagesOf(t, from, to, c, q.sender, q.id);
    JoinedColumns(p, to);
    JoinedPair(p, to);
    JoinedFrom(p, to);
    NameMovesNothing(q, r, Before(p), Pair(p));
  }

  lemma JoinsUnique(out: seq<Row>, src: seq<Row>)
    requires Joins(out, src)
    ensures UniqueKeys(out)
  {
  }

  lemma JoinedFrom(p: Preimages, to: Jid)
    requires Joined(p, to).Some?
    ensures Before(p) != []
  {
  }

  lemma NameMovesNothing(q: Row, r: Row, rows: seq<Row>, pair: seq<Row>)
    requires r == q.(senderName := r.senderName)
    ensures HoldsColumns(q, rows) ==> HoldsColumns(r, rows)
    ensures HoldsPair(q, pair) ==> HoldsPair(r, pair)
  {
  }

  lemma FinalRowFrom(t: Tables, from: Jid, to: Jid, c: Jid, i: nat) returns (q: Row)
    requires i < |FinalRows(t, from, to, c)|
    ensures q in MergedRows(t.messages, from, to, c)
    ensures var r, contact := FinalRows(t, from, to, c)[i], MergedContact(t.contacts, from, to);
      && r == q.(senderName := r.senderName)
      && r.senderName == if q.sender == to && contact.Some? then contact.value.name else q.senderName
  {
    hide MergedRows, MergedContact;
    var rows := MergedRows(t.messages, from, to, c);
    q := (if c == to then Retain(rows, t.keep) else rows)[i];
  }

  // --------------------------------------------------- contact and chat row

  /** The contact of the greater source gives the name, the old one on ties; with one contact
      it is that one. */
  lemma MigratedContact(t: Tables, from: Jid, to: Jid)
    requires Migrates(t, from, to)
    ensures var u := Migrate(t, from, to);
      && from !in u.contacts && (forall d :: d != from && d != to ==> Get(u.contacts, d) == Get(t.contacts, d))
      && (to in u.contacts <==> from in t.contacts || to in t.contacts)
      && (from !in t.contacts && to in t.contacts ==> u.contacts[to] == t.contacts[to])
      && (from in t.contacts && to !in t.contacts ==> u.contacts[to] == t.contacts[from])
      && (from in t.contacts && to in t.contacts ==>
          if t.contacts[from].source >= t.contacts[to].source then u.contacts[to] == t.contacts[from]
          else u.contacts[to] == t.contacts[to])
  {
    hide FinalMessages, ReadersMoved, VotesMoved, PeopleMoved, ReactorMoved, ReactionChatMoved, TombstonesMoved;
    hide MergedChat, TitledChat, MergedSettings, SourceExists;
  }

  /** The title of the merged chat: its contact's name for a direct chat that has one, ranked
      by where the name is from, or else what the chats themselves were titled. */
  predicate Titles(now: Chat, contact: Option<Contact>, name: string, source: int) {
    if contact.Some? && !now.isGroup then
      now.name == contact.value.name && now.nameSource == if contact.value.source == 1 then 40 else 20
    else now.name == name && now.nameSource == source
  }

  /** The merged chat shows the preview and time of whichever chat is later, the old one on
      ties, and the greater badge; the title of the greater rank, the new one's on ties, unless
      its contact names it. */
  lemma MigratedChat(t: Tables, from: Jid, to: Jid)
    requires Migrates(t, from, to)
    ensures var u := Migrate(t, from, to);
      && from !in u.chats && (forall d :: d != from && d != to ==> Get(u.chats, d) == Get(t.chats, d))
      && (to in u.chats <==> from in t.chats || to in t.chats)
      && (from in t.chats && to in t.chats ==>
          var x, y, z := t.chats[from], t.chats[to], u.chats[to];
          && (x.lastTimestamp >= y.lastTimestamp ==>
              z.lastMessage == x.lastMessage && z.lastTimestamp == x.lastTimestamp)
          && (x.lastTimestamp < y.lastTimestamp ==>
              z.lastMessage == y.lastMessage && z.lastTimestamp == y.lastTimestamp)
          && z.unread >= x.unread && z.unread >= y.unread && (z.unread == x.unread || z.unread == y.unread)
          && (y.phone.Some? ==> z.phone == y.phone) && (y.phone.None? ==> z.phone == x.phone)
          && (z.isGroup <==> x.isGroup || y.isGroup)
          && (x.nameSource > y.nameSource ==> Titles(z, Get(u.contacts, to), x.name, x.nameSource))
          && (x.nameSource <= y.nameSource ==> Titles(z, Get(u.contacts, to), y.name, y.nameSource)))
  {
    hide FinalMessages, ReadersMoved, VotesMoved, PeopleMoved, ReactorMoved, ReactionChatMoved, TombstonesMoved;
    hide MergedSettings, SourceExists, MergedContact;
  }

  /** A chat of one identifier only keeps its row, but for the contact's title. */
  lemma MigratedOneChat(t: Tables, from: Jid, to: Jid)
    requires Migrates(t, from, to) && (from in t.chats) != (to in t.chats)
    ensures var u, x := Migrate(t, from, to), if from in t.chats then t.chats[from] else t.chats[to];
      to in u.chats && var z := u.chats[to];
      z == x.(name := z.name, nameSource := z.nameSource) && Titles(z, Get(u.contacts, to), x.name, x.nameSource)
  {
    hide FinalMessages, ReadersMoved, VotesMoved, PeopleMoved, ReactorMoved, ReactionChatMoved, TombstonesMoved;
    hide MergedSettings, SourceExists, MergedContact;
  }

  /** Markers of the two settings rows: either's deletion and explicit marker, the old one's
      read state if it has one, and the new one's time of it. */
  lemma MigratedMarkers(t: Tables, from: Jid, to: Jid)
    requires Migrates(t, from, to)
    ensures var u := Migrate(t, from, to);
      && from !in u.settings && (forall d :: d != from && d != to ==> Get(u.settings, d) == Get(t.settings, d))
      && (to in u.settings <==> from in t.settings || to in t.settings)
      && (from in t.settings && to in t.settings ==>
          var x, y, z := t.settings[from], t.settings[to], u.settings[to];
          && (z.deleted <==> x.deleted || y.deleted) && (z.explicitUnread <==> x.explicitUnread || y.explicitUnread)
          && (x.readState.Some? ==> z.readState == x.readState) && (x.readState.None? ==> z.readState == y.readState)
          && z.readStateUpdatedAt == y.readStateUpdatedAt)
      && (from in t.settings && to !in t.settings ==>
          u.settings[to] == t.settings[from].(readStateUpdatedAt := 0))
  {
    hide FinalMessages, ReadersMoved, VotesMoved, PeopleMoved, ReactorMoved, ReactionChatMoved, TombstonesMoved;
    hide MergedChat, TitledChat, MergedContact, SourceExists;
  }

  // --------------------------------------------------- when there is something to merge

  /** The old identifier is a chat's, a contact's, a settings row's, a sender's, a reactor's or
      a voter's. */
  ghost predicate Occurs(t: Tables, from: Jid) {
    || from in t.chats || from in t.contacts || from in t.settings
    || (exists c, r :: r in Rows(t.messages, c) && r.sender == from)
    || (exists k :: k in t.reactions && k.reactor == from)
    || (exists p :: p in t.votes && from in t.votes[p])
  }

  /** The merge happens exactly if the old identifier is another one and occurs. */
  lemma MigratesIff(t: Tables, from: Jid, to: Jid)
    ensures Migrates(t, from, to) <==> from != to && Occurs(t, from)
    ensures !Migrates(t, from, to) ==> Migrate(t, from, to) == t
  {
    if SentBy(t, from) {
      var c :| c in t.messages && exists i :: 0 <= i < |t.messages[c]| && t.messages[c][i].sender == from;
      var i :| 0 <= i < |t.messages[c]| && t.messages[c][i].sender == from;
      assert t.messages[c][i] in Rows(t.messages, c);
    }
    if c, r :| r in Rows(t.messages, c) && r.sender == from {
      var i :| 0 <= i < |t.messages[c]| && t.messages[c][i] == r;
    }
  }
}
