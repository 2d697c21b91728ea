/** What the read events leave, in terms of the messages they name. */
module Reading {
  import opened Prelude
  import opened Schema
  import opened ReadState
  import opened Sweeps
  import opened Effects

  // --------------------------------------------------- which boundary

  /** The newest named message: nothing if none is stored, else the time of a named message
      that no named message is newer than. */
  lemma {:induction false} NamedNewest(rows: seq<Row>, ids: seq<Id>)
    ensures NewestNamed(rows, ids).None? <==> forall id :: id in ids ==> !HasId(rows, id)
    ensures NewestNamed(rows, ids).Some? ==>
      && (exists id :: id in ids && HasId(rows, id) && FindId(rows, id).value.timestamp == NewestNamed(rows, ids).value)
      && (forall id :: id in ids && HasId(rows, id) ==>
          FindId(rows, id).value.timestamp <= NewestNamed(rows, ids).value)
  {
    if ids != [] {
      var front, last := ids[..|ids| - 1], ids[|ids| - 1];
      assert ids == front + [last];
      NamedNewest(rows, front);
      if NewestNamed(rows, ids).Some? &&
        !(HasId(rows, last) && FindId(rows, last).value.timestamp == NewestNamed(rows, ids).value) {
        var id :| id in front && HasId(rows, id) && FindId(rows, id).value.timestamp == NewestNamed(rows, ids).value;
        assert id in ids;
      }
    }
  }

  /** The row is incoming, and at or before the boundary or named. */
  predicate IsReached(r: Row, boundary: int, ids: seq<Id>) {
    !r.fromMe && (r.timestamp <= boundary || r.id in ids)
  }

  /** The rows that become read are exactly those the boundary reaches or the ids name. */
  predicate ReadsThrough(before: seq<Row>, after: seq<Row>, boundary: int, ids: seq<Id>) {
    && |after| == |before|
    && forall i :: 0 <= i < |before| ==>
         after[i] == if IsReached(before[i], boundary, ids) then before[i].(read := true) else before[i]
  }

  /** One less, but not below the least 64-bit integer. */
  function OneLess(at: int): int {
    if at > -0x8000_0000_0000_0000 then at - 1 else -0x8000_0000_0000_0000
  }

  /** A boundary never moves back. Without ids it reaches its own second, with ids the one
      before. What it reaches is read, the badge counts the rest, and the marker goes. */
  lemma BoundaryReaches(t: Tables, c: Jid, at: int, ids: seq<Id>)
    ensures var u := ApplyBoundary(t, c, at, ids);
      && c in u.settings
      && var s, boundary := u.settings[c], u.settings[c].readBoundary;
      && boundary == Max(ReadUpTo(t, c).0, if ids == [] then at else OneLess(at))
      && ReadsThrough(Rows(t.messages, c), Rows(u.messages, c), boundary, ids)
      && (c in u.chats <==> c in t.chats)
      && (c in t.chats ==>
          u.chats[c] == t.chats[c].(unread := |set i | 0 <= i < |Rows(u.messages, c)| &&
                                    CountsUnread(Rows(u.messages, c)[i])|))
      && s.readState == Some(true) && !s.explicitUnread
      && (c in t.settings ==>
          s == t.settings[c].(readBoundary := boundary, boundaryIds := s.boundaryIds, readState := Some(true),
                              explicitUnread := false))
      && (c !in t.settings ==> s == Settings(Some(true), 0, false, false, 0, boundary, s.boundaryIds))
      && (forall d :: d != c ==> Rows(u.messages, d) == Rows(t.messages, d) && Get(u.chats, d) == Get(t.chats, d))
      && (forall d :: d != c ==> Get(u.settings, d) == Get(t.settings, d))
      && u == t.(settings := u.settings, messages := u.messages, chats := u.chats)
  {
    var u := ApplyBoundary(t, c, at, ids);
    MarkRowsExact(Rows(t.messages, c), u.settings[c].readBoundary, ids);
    UnreadIsCount(Rows(u.messages, c));
    hide MarkRows, UnreadCount;
  }

  /** The ids kept are named ones that no stored message at or before the boundary answers;
      all of them up to 256, and past that the latest 256. */
  lemma IdsKept(t: Tables, c: Jid, at: int, ids: seq<Id>) returns (full: seq<Id>)
    ensures var u := ApplyBoundary(t, c, at, ids); var kept := u.settings[c].boundaryIds;
      && (forall id :: id in full <==>
           (id in ReadUpTo(t, c).1 || id in ids) &&
           (HasId(Rows(t.messages, c), id) ==>
            FindId(Rows(t.messages, c), id).value.timestamp > u.settings[c].readBoundary))
      && (|full| <= 256 ==> kept == full) && (|full| > 256 ==> kept == full[|full| - 256..])
      && (forall i, j :: 0 <= i < j < |full| && full[i] in ids && full[i] !in ReadUpTo(t, c).1 ==>
           full[j] !in ReadUpTo(t, c).1)
  {
    var boundary := ApplyBoundary(t, c, at, ids).settings[c].readBoundary;
    full := ExtraIds(Rows(t.messages, c), MergedIds(ReadUpTo(t, c).1, ids), boundary);
    MergedInOrder(ReadUpTo(t, c).1, ids);
    SiftedInOrder(Rows(t.messages, c), MergedIds(ReadUpTo(t, c).1, ids), boundary, ReadUpTo(t, c).1);
  }

  /** The ids that were there come first. */
  predicate OldFirst(old': seq<Id>, out: seq<Id>) {
    forall i, j :: 0 <= i < j < |out| && out[i] !in old' ==> out[j] !in old'
  }

  lemma {:induction false} MergedInOrder(old': seq<Id>, ids: seq<Id>)
    ensures OldFirst(old', MergedIds(old', ids))
  {
    if ids != [] { MergedInOrder(old', ids[..|ids| - 1]); }
  }

  lemma {:induction false} SiftedInOrder(rows: seq<Row>, ids: seq<Id>, boundary: int, old': seq<Id>)
    requires OldFirst(old', ids)
    ensures OldFirst(old', ExtraIds(rows, ids, boundary))
  {
    if ids != [] {
      var n := |ids| - 1;
      SiftedInOrder(rows, ids[..n], boundary, old');
      var out := ExtraIds(rows, ids[..n], boundary);
      if Extra(rows, ids[n], boundary) && ids[n] in old' {
        forall i | 0 <= i < |out| ensures out[i] in old' {
          assert out[i] in ids[..n];
          var k :| 0 <= k < n && ids[k] == out[i];
        }
      }
    }
  }

  // --------------------------------------------------- the flag

  /** Without the flag rows, chats, boundary and marker are as they were; with it something
      moved. */
  lemma BoundaryFlag(t: Tables, c: Jid, at: int, ids: seq<Id>)
    ensures var u := ApplyBoundary(t, c, at, ids);
      && (BoundaryChanges(t, c, at, ids) ==> u != t)
      && (!BoundaryChanges(t, c, at, ids) ==>
          && Rows(u.messages, c) == Rows(t.messages, c) && u.chats == t.chats
          && ReadUpTo(u, c).0 == ReadUpTo(t, c).0 && !(c in t.settings && t.settings[c].explicitUnread))
  {
    hide MarkRows, UnreadCount, ExtraIds, MergedIds;
  }

  /** A boundary repeated reports no change. */
  lemma RepeatIsIdle(t: Tables, c: Jid, at: int, ids: seq<Id>)
    ensures !BoundaryChanges(ApplyBoundary(t, c, at, ids), c, at, ids)
  {
    var u := ApplyBoundary(t, c, at, ids);
    var boundary := u.settings[c].readBoundary;
    MarkRowsExact(Rows(t.messages, c), boundary, ids);
    MarkRowsExact(Rows(u.messages, c), boundary, ids);
    assert MarkRows(Rows(u.messages, c), boundary, ids) == Rows(u.messages, c);
    hide MarkRows, UnreadCount, ExtraIds, MergedIds;
  }

  // --------------------------------------------------- the operations

  /** A self read receipt reads what it names, and every incoming message strictly older than
      any message it names. */
  lemma SelfReadReaches(t: Tables, c: Jid, ids: seq<Id>, receiptAt: int, i: nat, id: Id)
    requires i < |Rows(t.messages, c)| && !Rows(t.messages, c)[i].fromMe && id in ids
    requires var rows := Rows(t.messages, c);
      rows[i].id == id || (HasId(rows, id) && rows[i].timestamp < FindId(rows, id).value.timestamp)
    ensures var after := Rows(SelfReadReceipt(t, c, ids, receiptAt).messages, c); i < |after| && after[i].read
  {
    var rows := Rows(t.messages, c);
    NamedNewest(rows, ids);
    BoundaryReaches(t, c, NewestNamed(rows, ids).GetOr(receiptAt), ids);
    hide ApplyBoundary;
  }

  predicate IsStale(t: Tables, c: Jid, eventAt: int) {
    c in t.settings && eventAt < t.settings[c].readStateUpdatedAt
  }

  /** A read event without a boundary does the same. */
  lemma SyncedReadReaches(t: Tables, c: Jid, ids: seq<Id>, eventAt: int, i: nat, id: Id)
    requires !IsStale(t, c, eventAt) && (c !in t.settings ==> eventAt >= 0)
    requires i < |Rows(t.messages, c)| && !Rows(t.messages, c)[i].fromMe && id in ids
    requires var rows := Rows(t.messages, c);
      rows[i].id == id || (HasId(rows, id) && rows[i].timestamp < FindId(rows, id).value.timestamp)
    ensures var after := Rows(SyncedReadState(t, c, true, None, ids, eventAt).messages, c); i < |after| && after[i].read
  {
    var rows := Rows(t.messages, c);
    NamedNewest(rows, ids);
    BoundaryReaches(t, c, NewestNamed(rows, ids).GetOr(eventAt), ids);
    hide ApplyBoundary;
  }

  /** With a boundary, an event reads exactly what that boundary or an earlier one reaches: its
      own second if it names nothing, else what it names and the seconds before. */
  lemma SyncedReadThrough(t: Tables, c: Jid, at: int, ids: seq<Id>, eventAt: int)
    requires !IsStale(t, c, eventAt) && (c !in t.settings ==> eventAt >= 0)
    ensures var u := SyncedReadState(t, c, true, Some(at), ids, eventAt);
      && ReadsThrough(Rows(t.messages, c), Rows(u.messages, c),
                      Max(ReadUpTo(t, c).0, if ids == [] then at else OneLess(at)), ids)
      && c in u.settings && u.settings[c].readStateUpdatedAt == eventAt && u.settings[c].readState == Some(true)
      && !u.settings[c].explicitUnread
  {
    BoundaryReaches(t, c, at, ids);
    hide ApplyBoundary;
  }

  /** With neither boundary nor names it reads every stored message. */
  lemma SyncedReadAll(t: Tables, c: Jid, eventAt: int, i: nat)
    requires !IsStale(t, c, eventAt) && (c !in t.settings ==> eventAt >= 0)
    requires i < |Rows(t.messages, c)| && !Rows(t.messages, c)[i].fromMe
    ensures var after := Rows(SyncedReadState(t, c, true, None, [], eventAt).messages, c); i < |after| && after[i].read
  {
    var rows := Rows(t.messages, c);
    assert rows[i] in rows;
    BoundaryReaches(t, c, MaxTimestamp(rows).GetOr(eventAt), []);
    hide ApplyBoundary;
  }

  /** An unread event marks the chat and moves nothing else; a stale event moves nothing. */
  lemma SyncedUnread(t: Tables, c: Jid, at: Option<int>, ids: seq<Id>, eventAt: int)
    requires c !in t.settings ==> eventAt >= 0
    ensures var u := SyncedReadState(t, c, false, at, ids, eventAt);
      && (IsStale(t, c, eventAt) ==> u == t)
      && (!IsStale(t, c, eventAt) ==>
          && c in u.settings && u == t.(settings := t.settings[c := u.settings[c]])
          && u.settings[c].explicitUnread && u.settings[c].readState == Some(false)
          && u.settings[c].readStateUpdatedAt == eventAt && ReadUpTo(u, c) == ReadUpTo(t, c)
          && (c in t.settings ==>
              u.settings[c].deleted == t.settings[c].deleted && u.settings[c].clearedAt == t.settings[c].clearedAt)
          && (c !in t.settings ==> !u.settings[c].deleted && u.settings[c].clearedAt == 0))
  {
    StampedUnread(t, c, eventAt);
    hide StampReadState, ExplicitUnread, ApplyBoundary, SyncedBoundary;
    assert SyncedReadState(t, c, false, at, ids, eventAt) ==
        if IsStale(t, c, eventAt) then t else StampReadState(ExplicitUnread(t, c), c, eventAt);
  }

  lemma StampedUnread(t: Tables, c: Jid, eventAt: int)
    ensures var s := SettingsOf(t.settings, c);
      var now := s.(readState := Some(false), explicitUnread := true, readStateUpdatedAt := eventAt);
      StampReadState(ExplicitUnread(t, c), c, eventAt) == t.(settings := t.settings[c := now])
  {
    var s := SettingsOf(t.settings, c);
    var now := s.(readState := Some(false), explicitUnread := true, readStateUpdatedAt := eventAt);
    var marked := ExplicitUnread(t, c).settings;
    assert marked[c := now] == t.settings[c := now];
  }

  /** The reconciliation counts exactly the chats whose row it changes. */
  lemma MiscountedMove(t: Tables, c: Jid)
    ensures c in Miscounted(t.chats, t.messages) <==> c in t.chats && ReconcileUnread(t).chats[c] != t.chats[c]
    ensures ReconcileUnread(t) == t.(chats := ReconcileUnread(t).chats)
    ensures forall d :: d in ReconcileUnread(t).chats <==> d in t.chats
    ensures c in t.chats ==>
      ReconcileUnread(t).chats[c]
        == t.chats[c].(unread := |set i | 0 <= i < |Rows(t.messages, c)| && CountsUnread(Rows(t.messages, c)[i])|)
  {
    UnreadIsCount(Rows(t.messages, c));
  }
}
