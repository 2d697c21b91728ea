/** What every statement keeps true of one chat. */
module Soundness {
  import opened Prelude
  import opened Schema
  import opened Retention
  import opened Tallies
  import opened History
  import opened Batching
  import opened ReadState
  import opened Clearing
  import Receipts
  import Polls

  // --------------------------------------------------- the invariants

  /** Every stored message has a chat row, and the badge never under-counts. */
  predicate Badged(t: Tables, c: Jid) {
    && (Rows(t.messages, c) != [] ==> c in t.chats)
    && (c in t.chats ==> UnreadCount(Rows(t.messages, c)) <= t.chats[c].unread)
  }

  /** What the read boundary covers or names is read; the id list is small and duplicate-free. */
  predicate ReadCovered(t: Tables, c: Jid) {
    var s := SettingsOf(t.settings, c);
    && (forall i :: 0 <= i < |Rows(t.messages, c)| ==>
         var r := Rows(t.messages, c)[i]; !r.fromMe && Covered(s, r.id, r.timestamp) ==> r.read)
    && Distinct(s.boundaryIds) && |s.boundaryIds| <= READ_BOUNDARY_IDS_CAP
  }

  /** Nothing tombstoned is stored, and nothing at or before a positive watermark. */
  predicate Cleared(t: Tables, c: Jid) {
    var s := SettingsOf(t.settings, c);
    && s.clearedAt >= 0
    && (forall i :: 0 <= i < |Rows(t.messages, c)| ==>
         var r := Rows(t.messages, c)[i];
         (c, r.id) !in t.tombstones && (s.clearedAt > 0 ==> r.timestamp > s.clearedAt))
  }

  predicate Good(t: Tables, c: Jid) {
    UniqueKeys(Rows(t.messages, c)) && NoOrphans(t, c) && Badged(t, c) && ReadCovered(t, c) && Cleared(t, c)
  }

  predicate Sound(t: Tables, c: Jid) {
    t.keep > 0 && |Rows(t.messages, c)| <= t.keep && Good(t, c)
  }

  // --------------------------------------------------- frames

  predicate SameAt(t: Tables, u: Tables, c: Jid) {
    && u.keep == t.keep
    && (c in u.messages ==> c in t.messages) && Rows(u.messages, c) == Rows(t.messages, c)
    && Get(u.chats, c) == Get(t.chats, c) && Get(u.settings, c) == Get(t.settings, c)
    && (forall p :: p in u.tombstones && p.0 == c ==> p in t.tombstones)
    && (forall p :: p in u.votes && p.0 == c ==> p in t.votes || HasId(Rows(t.messages, c), p.1))
    && (forall p :: p in u.readers && p.0 == c ==> p in t.readers || HasId(Rows(t.messages, c), p.1))
  }

  lemma FrameGood(t: Tables, u: Tables, c: Jid)
    requires SameAt(t, u, c)
    ensures Good(t, c) ==> Good(u, c)
    ensures Sound(t, c) ==> Sound(u, c)
  {
  }

  /** An update of columns no invariant mentions, with whatever vote and reader rows it adds. */
  predicate Edited(t: Tables, u: Tables, c: Jid, e: Edit) {
    && (e.Rename? || e.SetMedia? || e.Receive?)
    && u.keep == t.keep
    && (c in u.messages ==> u.messages[c] != []) && Rows(u.messages, c) == EditRows(e, Rows(t.messages, c))
    && Get(u.settings, c) == Get(t.settings, c) && u.tombstones == t.tombstones
    && (c in u.chats <==> c in t.chats) && (c in t.chats ==> u.chats[c].unread == t.chats[c].unread)
    && (forall p :: p in u.votes && p.0 == c ==> p in t.votes || HasId(Rows(t.messages, c), p.1))
    && (forall p :: p in u.readers && p.0 == c ==> p in t.readers || HasId(Rows(t.messages, c), p.1))
  }

  lemma EditGood(t: Tables, u: Tables, c: Jid, e: Edit)
    requires Edited(t, u, c, e)
    ensures Good(t, c) ==> Good(u, c)
    ensures Sound(t, c) ==> Sound(u, c)
  {
    hide UniqueKeys, NoOrphans;
    var rows := Rows(t.messages, c);
    EditKeepsKeys(e, rows);
    EditKeepsNoOrphans(t, u, c, e);
    SameUnread(rows, EditRows(e, rows));
  }

  lemma EditKeepsNoOrphans(t: Tables, u: Tables, c: Jid, e: Edit)
    requires Edited(t, u, c, e)
    ensures NoOrphans(t, c) ==> NoOrphans(u, c)
  {
    EditKeepsKeys(e, Rows(t.messages, c));
  }

  /** Only settings and chat rows move: the boundary stays, the badge still covers
      the unread rows, and a new watermark lies below every row. */
  predicate Retagged(t: Tables, u: Tables, c: Jid) {
    var s, s' := SettingsOf(t.settings, c), SettingsOf(u.settings, c);
    && u == t.(settings := u.settings, chats := u.chats)
    && s'.readBoundary == s.readBoundary && s'.boundaryIds == s.boundaryIds
    && Badged(u, c)
    && (s'.clearedAt == s.clearedAt ||
        (s'.clearedAt >= 0 && forall r :: r in Rows(t.messages, c) ==> r.timestamp > s'.clearedAt))
  }

  lemma RetagGood(t: Tables, u: Tables, c: Jid)
    requires Retagged(t, u, c)
    ensures Good(t, c) ==> Good(u, c)
    ensures Sound(t, c) ==> Sound(u, c)
  {
  }

  // --------------------------------------------------- inserting and pruning

  lemma InsertUnique(t: Tables, c: Jid, ins: Insert)
    requires UniqueKeys(Rows(t.messages, c))
    ensures UniqueKeys(Rows(InsertMessage(t, c, ins).messages, c))
  {
    InsertShape(t, c, ins);
  }

  lemma InsertBadged(t: Tables, c: Jid, ins: Insert)
    requires Badged(t, c)
    ensures Badged(InsertMessage(t, c, ins), c)
  {
    InsertShape(t, c, ins);
    UnreadCountAppend(Rows(t.messages, c), NewRow(t, c, ins));
  }

  /** The settings an insert can leave: at most the `deleted` flag moves. */
  lemma InsertSettings(t: Tables, c: Jid, ins: Insert)
    ensures var s, s' := SettingsOf(t.settings, c), SettingsOf(InsertMessage(t, c, ins).settings, c);
      s' == s.(deleted := s'.deleted)
    ensures InsertMessage(t, c, ins).tombstones == t.tombstones
  {
  }

  lemma InsertReadCovered(t: Tables, c: Jid, ins: Insert)
    requires ReadCovered(t, c)
    ensures ReadCovered(InsertMessage(t, c, ins), c)
  {
    InsertShape(t, c, ins);
    InsertSettings(t, c, ins);
  }

  lemma InsertCleared(t: Tables, c: Jid, ins: Insert)
    requires Cleared(t, c)
    ensures Cleared(InsertMessage(t, c, ins), c)
  {
    InsertShape(t, c, ins);
    InsertSettings(t, c, ins);
  }

  lemma InsertGood(t: Tables, c: Jid, ins: Insert)
    requires Good(t, c)
    ensures Good(InsertMessage(t, c, ins), c) && InsertMessage(t, c, ins).keep == t.keep
  {
    InsertUnique(t, c, ins);
    InsertShape(t, c, ins);
    InsertBadged(t, c, ins);
    InsertReadCovered(t, c, ins);
    InsertCleared(t, c, ins);
  }

  lemma InsertTouches(t: Tables, c: Jid, ins: Insert)
    ensures var u := InsertMessage(t, c, ins);
      && u.keep == t.keep && u.tombstones == t.tombstones && u.votes == t.votes && u.readers == t.readers
      && (forall d :: d != c ==> (d in u.messages <==> d in t.messages) && Rows(u.messages, d) == Rows(t.messages, d))
  {
  }

  lemma InsertListsElsewhere(t: Tables, c: Jid, ins: Insert, d: Jid)
    requires d != c
    ensures var u := InsertMessage(t, c, ins);
      Get(u.chats, d) == Get(t.chats, d) && Get(u.settings, d) == Get(t.settings, d)
  {
  }

  lemma InsertElsewhere(t: Tables, c: Jid, ins: Insert, d: Jid)
    requires d != c
    ensures SameAt(t, InsertMessage(t, c, ins), d)
  {
    InsertTouches(t, c, ins);
    InsertListsElsewhere(t, c, ins, d);
    Untouched(t, InsertMessage(t, c, ins), d);
  }

  lemma Untouched(t: Tables, u: Tables, d: Jid)
    requires u.keep == t.keep && u.tombstones == t.tombstones && u.votes == t.votes && u.readers == t.readers
    requires (d in u.messages <==> d in t.messages) && Rows(u.messages, d) == Rows(t.messages, d)
    requires Get(u.chats, d) == Get(t.chats, d) && Get(u.settings, d) == Get(t.settings, d)
    ensures SameAt(t, u, d)
  {
  }

  lemma PruneElsewhere(t: Tables, c: Jid, d: Jid)
    requires d != c
    ensures SameAt(t, Prune(t, c), d)
  {
    assert d in Prune(t, c).messages <==> d in t.messages;
  }

  lemma PruneSound(t: Tables, c: Jid)
    requires t.keep > 0 && Good(t, c)
    ensures Sound(Prune(t, c), c)
  {
    var rows := Rows(t.messages, c);
    var u := Prune(t, c);
    RetainKeepsKeys(rows, t.keep);
    RetainUnread(rows, t.keep);
    PruneKeepsNoOrphans(t, c);
    forall i | 0 <= i < |Rows(u.messages, c)| ensures Rows(u.messages, c)[i] in rows {}
  }

  // --------------------------------------------------- names, media, replay

  lemma NameGood(t: Tables, jid: Jid, name: string, source: int, d: Jid)
    ensures Good(t, d) ==> Good(UpdateContactName(t, jid, name, source), d)
    ensures Sound(t, d) ==> Sound(UpdateContactName(t, jid, name, source), d)
    ensures UpdateContactName(t, jid, name, source).keep == t.keep
  {
    if NameApplies(t, jid, name, source) {
      var u := UpdateContactName(t, jid, name, source);
      var e := Rename(jid, Trim(name));
      assert Rows(u.messages, d) == EditRows(e, Rows(t.messages, d));
      if Good(t, d) { EditGood(t, u, d, e); }
    }
  }

  lemma MediaGood(t: Tables, c: Jid, id: Id, media: Media, d: Jid)
    ensures Good(t, d) ==> Good(UpdateMedia(t, c, id, media), d)
    ensures Sound(t, d) ==> Sound(UpdateMedia(t, c, id, media), d)
    ensures UpdateMedia(t, c, id, media).keep == t.keep
  {
    var u := UpdateMedia(t, c, id, media);
    if d == c {
      EditGood(t, u, c, SetMedia(id, FinalMedia(t, c, id, media), IsGif(media)));
    } else {
      assert d in u.messages <==> d in t.messages;
      FrameGood(t, u, d);
    }
  }

  lemma ChatRowBadged(t: Tables, h: HistoryChat, d: Jid)
    requires Badged(t, d)
    ensures Badged(InsertChat(t, h), d)
  {
  }

  lemma ChatRowRetags(t: Tables, h: HistoryChat, d: Jid)
    requires Badged(t, d)
    ensures Retagged(t, InsertChat(t, h), d)
  {
    ChatRowBadged(t, h, d);
    InsertChatOnlyChats(t, h);
  }

  lemma ChatRowGood(t: Tables, h: HistoryChat, d: Jid)
    requires Good(t, d)
    ensures Good(InsertChat(t, h), d) && InsertChat(t, h).keep == t.keep && InsertChat(t, h).messages == t.messages
  {
    ChatRowRetags(t, h, d);
    RetagGood(t, InsertChat(t, h), d);
  }

  lemma StoreGood(t: Tables, h: HistoryChat, m: Message, d: Jid)
    requires Good(t, d)
    ensures Good(StoreOrComplete(t, h, m), d) && StoreOrComplete(t, h, m).keep == t.keep
    ensures d != h.jid ==> |Rows(StoreOrComplete(t, h, m).messages, d)| == |Rows(t.messages, d)|
  {
    var ins := HistoryInsert(h, m);
    var stored := InsertMessage(t, h.jid, ins);
    if d == h.jid {
      InsertGood(t, d, ins);
    } else {
      InsertElsewhere(t, h.jid, ins, d);
      FrameGood(t, stored, d);
    }
    hide Good, InsertMessage, UpdateMedia, Stores;
    if m.media.Some? { MediaGood(stored, h.jid, m.id, m.media.value, d); }
  }

  lemma HistoryMessageGood(t: Tables, h: HistoryChat, m: Message, d: Jid)
    requires Good(t, d)
    ensures Good(HistoryMessage(t, h, m).0, d) && HistoryMessage(t, h, m).0.keep == t.keep
    ensures d != h.jid ==> |Rows(HistoryMessage(t, h, m).0.messages, d)| == |Rows(t.messages, d)|
  {
    NameGood(t, m.sender, m.senderName, 0, d);
    LearnShape(t, d, m);
    StoreGood(LearnName(t, m), h, m, d);
    HistoryIsStore(t, h, m);
  }

  lemma {:induction false} HistoryMessagesGood(t: Tables, h: HistoryChat, ms: seq<Message>, d: Jid)
    requires Good(t, d)
    ensures Good(HistoryMessages(t, h, ms).0, d)
    ensures HistoryMessages(t, h, ms).0.keep == t.keep
    ensures d != h.jid ==> |Rows(HistoryMessages(t, h, ms).0.messages, d)| == |Rows(t.messages, d)|
  {
    if ms != [] {
      HistoryMessagesGood(t, h, ms[..|ms| - 1], d);
      HistoryMessageGood(HistoryMessages(t, h, ms[..|ms| - 1]).0, h, ms[|ms| - 1], d);
    }
  }

  lemma BatchSound(t: Tables, h: HistoryChat, ms: seq<Message>, d: Jid)
    requires Sound(t, d)
    ensures Sound(Batch(t, h, ms).0, d)
  {
    ChatRowGood(t, h, d);
    var u := HistoryMessages(InsertChat(t, h), h, ms).0;
    HistoryMessagesGood(InsertChat(t, h), h, ms, d);
    if d == h.jid {
      PruneSound(u, d);
    } else {
      PruneElsewhere(u, h.jid, d);
      FrameGood(u, Prune(u, h.jid), d);
    }
  }

  lemma InsertAndPruneSound(t: Tables, c: Jid, ins: Insert, d: Jid)
    requires Sound(t, d)
    ensures Sound(InsertAndPrune(t, c, ins), d)
  {
    var u := InsertMessage(t, c, ins);
    if d == c {
      InsertGood(t, c, ins);
      PruneSound(u, c);
    } else {
      InsertElsewhere(t, c, ins, d);
      FrameGood(t, u, d);
      PruneElsewhere(u, c, d);
      FrameGood(u, Prune(u, c), d);
    }
  }

  // --------------------------------------------------- read state

  lemma BoundaryKeys(t: Tables, c: Jid, timestamp: int, ids: seq<Id>)
    requires UniqueKeys(Rows(t.messages, c)) && NoOrphans(t, c)
    ensures UniqueKeys(Rows(ApplyBoundary(t, c, timestamp, ids).messages, c)) &&
      NoOrphans(ApplyBoundary(t, c, timestamp, ids), c)
  {
    var rows := Rows(t.messages, c);
    var out := MarkRows(rows, NewBoundary(SettingsOf(t.settings, c), timestamp, ids), ids);
    MarkRowsExact(rows, NewBoundary(SettingsOf(t.settings, c), timestamp, ids), ids);
    forall id | HasId(rows, id) ensures HasId(out, id) {
      var i :| 0 <= i < |rows| && rows[i].id == id;
      assert out[i].id == id;
    }
  }

  lemma BoundaryReadCovered(t: Tables, c: Jid, timestamp: int, ids: seq<Id>)
    requires ReadCovered(t, c)
    ensures ReadCovered(ApplyBoundary(t, c, timestamp, ids), c)
  {
    MarkRowsExact(Rows(t.messages, c), NewBoundary(SettingsOf(t.settings, c), timestamp, ids), ids);
  }

  lemma BoundaryCleared(t: Tables, c: Jid, timestamp: int, ids: seq<Id>)
    requires Cleared(t, c)
    ensures Cleared(ApplyBoundary(t, c, timestamp, ids), c)
  {
    MarkRowsExact(Rows(t.messages, c), NewBoundary(SettingsOf(t.settings, c), timestamp, ids), ids);
  }

  lemma BoundarySound(t: Tables, c: Jid, timestamp: int, ids: seq<Id>, d: Jid)
    requires Sound(t, d)
    ensures Sound(ApplyBoundary(t, c, timestamp, ids), d)
  {
    var u := ApplyBoundary(t, c, timestamp, ids);
    if d == c {
      MarkRowsExact(Rows(t.messages, c), NewBoundary(SettingsOf(t.settings, c), timestamp, ids), ids);
      BoundaryKeys(t, c, timestamp, ids);
      BoundaryReadCovered(t, c, timestamp, ids);
      BoundaryCleared(t, c, timestamp, ids);
      assert Badged(u, c);
    } else {
      assert d in u.messages <==> d in t.messages;
      FrameGood(t, u, d);
    }
  }

  lemma UnreadRetags(t: Tables, c: Jid, d: Jid)
    requires Badged(t, d)
    ensures Retagged(t, ExplicitUnread(t, c), d)
  {
  }

  lemma StampRetags(t: Tables, c: Jid, at: int, d: Jid)
    requires Badged(t, d)
    ensures Retagged(t, StampReadState(t, c, at), d)
  {
  }

  lemma ReadFlagsSound(t: Tables, c: Jid, at: int, d: Jid)
    requires Sound(t, d)
    ensures Sound(ExplicitUnread(t, c), d) && Sound(StampReadState(t, c, at), d)
  {
    UnreadRetags(t, c, d);
    StampRetags(t, c, at, d);
    RetagGood(t, ExplicitUnread(t, c), d);
    RetagGood(t, StampReadState(t, c, at), d);
  }

  lemma ReconcileSound(t: Tables, d: Jid)
    requires Sound(t, d)
    ensures Sound(ReconcileUnread(t), d)
  {
    RetagGood(t, ReconcileUnread(t), d);
  }

  // --------------------------------------------------- clears and deletes

  lemma CutMissing(rows: seq<Row>, upTo: int, id: Id)
    requires HasId(rows, id) && !HasIdThrough(rows, id, upTo)
    ensures HasId(CutRows(Through(upTo), rows), id)
  {
    var i :| 0 <= i < |rows| && rows[i].id == id;
    assert rows[i] in CutRows(Through(upTo), rows);
  }

  lemma DeleteThroughGood(t: Tables, c: Jid, upTo: int, d: Jid)
    requires Sound(t, d)
    ensures Sound(DeleteThrough(t, c, upTo), d)
    ensures d == c ==> forall r :: r in Rows(DeleteThrough(t, c, upTo).messages, c) ==> r.timestamp > upTo
  {
    var u := DeleteThrough(t, c, upTo);
    if d == c {
      var rows, out := Rows(t.messages, c), Rows(u.messages, c);
      CutKeepsKeys(Through(upTo), rows);
      forall i | 0 <= i < |out| ensures out[i] in rows {}
      forall id | HasId(rows, id) && !HasIdThrough(rows, id, upTo) ensures HasId(out, id) {
        CutMissing(rows, upTo, id);
      }
      assert NoOrphans(u, c);
    } else {
      assert d in u.messages <==> d in t.messages;
      FrameGood(t, u, d);
    }
  }

  lemma SweepRetags(u: Tables, c: Jid, at: int, d: Jid)
    requires Badged(u, d)
    requires d == c ==>
      0 <= SettingsOf(u.settings, c).clearedAt <= at && forall r :: r in Rows(u.messages, c) ==> r.timestamp > at
    ensures Retagged(u, Sweep(u, c, at), d)
  {
  }

  lemma BuryBadged(u: Tables, c: Jid, at: int, d: Jid)
    requires Badged(u, d)
    ensures Badged(Bury(u, c, at), d)
  {
  }

  lemma BuryRetags(u: Tables, c: Jid, at: int, d: Jid)
    requires Badged(u, d)
    requires d == c ==>
      0 <= SettingsOf(u.settings, c).clearedAt <= at && forall r :: r in Rows(u.messages, c) ==> r.timestamp > at
    ensures Retagged(u, Bury(u, c, at), d)
  {
    BuryBadged(u, c, at, d);
    BurySettings(u, c, at, d);
  }

  lemma BurySettings(u: Tables, c: Jid, at: int, d: Jid)
    ensures var s, s', v := SettingsOf(u.settings, d), SettingsOf(Bury(u, c, at).settings, d), Bury(u, c, at);
      && v == u.(settings := v.settings, chats := v.chats)
      && s' == s.(deleted := s'.deleted, clearedAt := if d == c then Max(s.clearedAt, at) else s.clearedAt)
  {
  }

  lemma ClearSound(t: Tables, c: Jid, at: int, d: Jid)
    requires Sound(t, d)
    ensures Sound(ClearChat(t, c, at), d) && Sound(DeleteChat(t, c, at), d)
  {
    if !Clearing.Stale(t, c, at) {
      DeleteThroughGood(t, c, at, d);
      var u := DeleteThrough(t, c, at);
      assert u.settings == t.settings;
      BuryRetags(u, c, at, d);
      SweepRetags(u, c, at, d);
      RetagGood(u, Bury(u, c, at), d);
      RetagGood(u, Sweep(u, c, at), d);
    }
  }

  lemma DeleteMessageElsewhere(t: Tables, c: Jid, id: Id, d: Jid)
    requires d != c
    ensures SameAt(t, DeleteMessage(t, c, id), d)
  {
    assert d in DeleteMessage(t, c, id).messages <==> d in t.messages;
  }

  lemma DeleteMessageOrphans(t: Tables, c: Jid, id: Id)
    requires UniqueKeys(Rows(t.messages, c)) && NoOrphans(t, c)
    ensures UniqueKeys(Rows(DeleteMessage(t, c, id).messages, c)) && NoOrphans(DeleteMessage(t, c, id), c)
  {
    var rows := Rows(t.messages, c);
    var out := CutRows(WithId(id), rows);
    CutKeepsKeys(WithId(id), rows);
    forall x | HasId(rows, x) && x != id ensures HasId(out, x) {
      var i :| 0 <= i < |rows| && rows[i].id == x;
      assert rows[i] in out;
    }
  }

  lemma DeleteMessageCleared(t: Tables, c: Jid, id: Id)
    requires Badged(t, c) && ReadCovered(t, c) && Cleared(t, c)
    ensures var u := DeleteMessage(t, c, id); Badged(u, c) && ReadCovered(u, c) && Cleared(u, c)
  {
    var rows := Rows(t.messages, c);
    var out := CutRows(WithId(id), rows);
    forall i | 0 <= i < |out| ensures out[i] in rows && out[i].id != id { assert out[i] in out; }
  }

  lemma DeleteMessageSound(t: Tables, c: Jid, id: Id, d: Jid)
    requires Sound(t, d)
    ensures Sound(DeleteMessage(t, c, id), d)
  {
    if d == c {
      DeleteMessageOrphans(t, c, id);
      DeleteMessageCleared(t, c, id);
    } else {
      DeleteMessageElsewhere(t, c, id, d);
      FrameGood(t, DeleteMessage(t, c, id), d);
    }
  }

  // --------------------------------------------------- receipts, votes, repairs

  lemma ReceiptSound(t: Tables, e: Receipts.Receipt, d: Jid)
    requires Sound(t, d)
    ensures Sound(Receipts.ReceiveOne(t, e), d)
  {
    var u := Receipts.ReceiveOne(t, e);
    if d == e.chat {
      EditGood(t, u, d, Receive(e.id, e.level, e.at));
    } else {
      assert d in u.messages <==> d in t.messages;
      FrameGood(t, u, d);
    }
  }

  lemma {:induction false} ReceiptsSound(t: Tables, es: seq<Receipts.Receipt>, d: Jid)
    requires Sound(t, d)
    ensures Sound(Receipts.ReceiveAll(t, es), d)
  {
    if es != [] {
      ReceiptsSound(t, es[..|es| - 1], d);
      ReceiptSound(Receipts.ReceiveAll(t, es[..|es| - 1]), es[|es| - 1], d);
    }
  }

  lemma VoteSound(t: Tables, v: Polls.VoteCall, d: Jid)
    requires Sound(t, d)
    ensures Sound(Polls.ApplyVote(t, v), d)
  {
    hide Tally, Good, Polls.VotesAfter;
    if Polls.Accepts(t, v) {
      var u := Polls.ApplyVote(t, v);
      if d == v.chat {
        var card := Polls.Card(t, d, v.id).value;
        var tallied := Tally(card, Polls.VotesAfter(t, v));
        if tallied == card {
          FrameGood(t, u, d);
        } else {
          EditGood(t, u, d, SetMedia(v.id, tallied, false));
        }
      } else {
        assert d in u.messages <==> d in t.messages;
        FrameGood(t, u, d);
      }
    }
  }
}
