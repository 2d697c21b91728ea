/** A message is stored at most once and counted at most once, however often it comes back. */
module Once {
  import opened Prelude
  import opened Schema
  import opened Retention
  import opened History
  import opened Batching
  import opened ReadState
  import opened Clearing
  import opened Soundness
  import opened Runs
  import opened Inbound
  import Receipts
  import Reactions
  import Polls
  import ReadOutbox

  /** One message, by the key of its row and the one time its copies carry. */
  datatype Copy = Copy(chat: Jid, sender: Jid, id: Id, timestamp: int)

  predicate IsCopy(k: Copy, c: Jid, m: Message) {
    c == k.chat && m.sender == k.sender && m.id == k.id
  }

  /** Every copy the event brings carries that time. */
  predicate Stamped(e: Event, k: Copy) {
    match e
    case Arrive(c, ins) => IsCopy(k, c, ins.message) ==> ins.message.timestamp == k.timestamp
    case Replay(h, ms) => forall i :: 0 <= i < |ms| && IsCopy(k, h.jid, ms[i]) ==> ms[i].timestamp == k.timestamp
    case _ => true
  }

  predicate Here(t: Tables, k: Copy) {
    HasKey(Rows(t.messages, k.chat), k.sender, k.id)
  }

  predicate DatedRows(rows: seq<Row>, k: Copy) {
    forall i :: 0 <= i < |rows| && rows[i].sender == k.sender && rows[i].id == k.id ==> rows[i].timestamp == k.timestamp
  }

  predicate Dated(t: Tables, k: Copy) {
    DatedRows(Rows(t.messages, k.chat), k)
  }

  /** Cleared or deleted for good: every later copy is suppressed. */
  predicate Gone(t: Tables, k: Copy) {
    (k.chat, k.id) in t.tombstones || (k.chat in t.settings && k.timestamp <= t.settings[k.chat].clearedAt)
  }

  predicate Spent(t: Tables, k: Copy) {
    Here(t, k) || Gone(t, k)
  }

  /** What a transaction leaves before its retention, if it ends with one. */
  ghost function BeforeRetention(t: Tables, e: Event): Tables {
    match e
    case Arrive(c, ins) => InsertMessage(t, c, ins)
    case Replay(h, ms) => HistoryMessages(InsertChat(t, h), h, ms).0
    case _ => Apply(t, e)
  }

  /** Retention does not take the message. */
  ghost predicate Spared(t: Tables, e: Event, k: Copy) {
    Here(BeforeRetention(t, e), k) ==> Here(Apply(t, e), k) || !(e.Arrive? || e.Replay?)
  }

  ghost predicate StoresKey(t: Tables, e: Event, k: Copy) {
    !Here(t, k) && Here(BeforeRetention(t, e), k)
  }

  // --------------------------------------------------- one transaction

  /** What a message was, it still is: of its time, and present or gone for good. */
  predicate Carries(t: Tables, u: Tables, k: Copy) {
    && (Dated(t, k) ==> Dated(u, k))
    && (Dated(t, k) && Here(t, k) ==> Spent(u, k))
    && (Gone(t, k) ==> Gone(u, k))
  }

  /** Watermark row and tombstones only grow. */
  predicate Holds(t: Tables, u: Tables, c: Jid) {
    && (forall p :: p in t.tombstones ==> p in u.tombstones)
    && (c in t.settings ==> c in u.settings && t.settings[c].clearedAt <= u.settings[c].clearedAt)
  }

  lemma ShapeCarries(t: Tables, u: Tables, k: Copy)
    requires SameShape(Rows(t.messages, k.chat), Rows(u.messages, k.chat)) && Holds(t, u, k.chat)
    ensures Carries(t, u, k) && (Here(u, k) ==> Here(t, k))
  {
    ShapeHasKey(Rows(t.messages, k.chat), Rows(u.messages, k.chat), k.sender, k.id);
  }

  lemma ShapeHasKey(a: seq<Row>, b: seq<Row>, sender: Jid, id: Id)
    requires SameShape(a, b)
    ensures HasKey(a, sender, id) <==> HasKey(b, sender, id)
  {
    if i :| 0 <= i < |a| && a[i].sender == sender && a[i].id == id { assert b[i].sender == sender; }
    if i :| 0 <= i < |b| && b[i].sender == sender && b[i].id == id { assert a[i].sender == sender; }
  }

  lemma NameShape(t: Tables, jid: Jid, name: string, source: int, c: Jid)
    ensures SameShape(Rows(t.messages, c), Rows(UpdateContactName(t, jid, name, source).messages, c))
  {
    if NameApplies(t, jid, name, source) {
      assert Rows(UpdateContactName(t, jid, name, source).messages, c)
        == EditRows(Rename(jid, Trim(name)), Rows(t.messages, c));
    }
  }

  lemma CompleteElsewhere(t: Tables, d: Jid, id: Id, media: Media, c: Jid)
    ensures SameShape(Rows(t.messages, c), Rows(UpdateMedia(t, d, id, media).messages, c))
  {
  }

  lemma {:induction false} DeliverShape(t: Tables, rs: seq<Receipts.Receipt>, c: Jid)
    ensures SameShape(Rows(t.messages, c), Rows(Receipts.ReceiveAll(t, rs).messages, c))
  {
    if rs != [] { DeliverShape(t, rs[..|rs| - 1], c); }
  }

  lemma VoteShape(t: Tables, v: Polls.VoteCall, c: Jid)
    ensures SameShape(Rows(t.messages, c), Rows(Polls.ApplyVote(t, v).messages, c))
  {
  }

  lemma ReopenShape(t: Tables, c: Jid)
    ensures SameShape(Rows(t.messages, c), Rows(Polls.Reopen(t).messages, c))
  {
    RepairSound(t, c, Rows(t.messages, c), Rows(t.messages, c));
  }

  lemma MovedShape(t: Tables, e: Event, c: Jid)
    requires MovesRows(e)
    ensures SameShape(Rows(t.messages, c), Rows(Apply(t, e).messages, c))
  {
    hide SameShape, InsertAndPrune, Batch, UpdateContactName, UpdateMedia, ApplyBoundary;
    hide ExplicitUnread, StampReadState, ReconcileUnread, ClearChat, DeleteChat, DeleteMessage;
    hide Receipts.ReceiveAll, Polls.ApplyVote, Polls.Reopen;
    match e
    case Name(jid, name, source) => NameShape(t, jid, name, source, c);
    case Complete(d, id, media) => CompleteElsewhere(t, d, id, media, c);
    case Deliver(rs) => DeliverShape(t, rs, c);
    case Cast(v) => VoteShape(t, v, c);
    case Reopened => ReopenShape(t, c);
  }

  lemma MovedCarries(t: Tables, e: Event, k: Copy)
    requires MovesRows(e)
    ensures Carries(t, Apply(t, e), k) && (Here(Apply(t, e), k) ==> Here(t, k))
  {
    hide Apply, Carries;
    MovedRowsAdvance(t, e, k.chat);
    MovedShape(t, e, k.chat);
    ShapeCarries(t, Apply(t, e), k);
  }

  lemma FlagsHold(t: Tables, e: Event, c: Jid)
    requires KeepsRows(e)
    ensures Holds(t, Apply(t, e), c)
  {
    hide InsertAndPrune, Batch, UpdateContactName, UpdateMedia, ApplyBoundary;
    hide ClearChat, DeleteChat, DeleteMessage, Receipts.ReceiveAll, Polls.ApplyVote, Polls.Reopen;
    hide Reactions.ApplyToCell, ReadOutbox.QueueAll, ReadOutbox.Remaining;
  }

  lemma FlagsCarry(t: Tables, e: Event, k: Copy)
    requires KeepsRows(e)
    ensures Carries(t, Apply(t, e), k) && (Here(Apply(t, e), k) ==> Here(t, k))
  {
    hide Apply, Carries;
    BesideEvents(t, e, k.chat);
    FlagsHold(t, e, k.chat);
    ShapeCarries(t, Apply(t, e), k);
  }

  lemma BoundaryHolds(t: Tables, d: Jid, at: int, ids: seq<Id>, c: Jid)
    ensures Holds(t, ApplyBoundary(t, d, at, ids), c)
    ensures SameShape(Rows(t.messages, c), Rows(ApplyBoundary(t, d, at, ids).messages, c))
  {
    MarkRowsExact(Rows(t.messages, d), NewBoundary(SettingsOf(t.settings, d), at, ids), ids);
  }

  lemma BoundaryCarries(t: Tables, d: Jid, at: int, ids: seq<Id>, k: Copy)
    ensures Carries(t, ApplyBoundary(t, d, at, ids), k) && (Here(ApplyBoundary(t, d, at, ids), k) ==> Here(t, k))
  {
    hide ApplyBoundary, Carries;
    BoundaryHolds(t, d, at, ids, k.chat);
    ShapeCarries(t, ApplyBoundary(t, d, at, ids), k);
  }

  // --------------------------------------------------- clears and deletes

  lemma DeletedThrough(t: Tables, c: Jid, at: int, k: Copy)
    ensures var u := DeleteThrough(t, c, at);
      && (Dated(t, k) ==> Dated(u, k)) && (Here(u, k) ==> Here(t, k))
      && (Dated(t, k) && Here(t, k) ==> Here(u, k) || (k.chat == c && k.timestamp <= at))
      && u.settings == t.settings && u.tombstones == t.tombstones
  {
    if k.chat == c {
      CutSome(Through(at), Rows(t.messages, c), k);
    }
  }

  lemma CutSome(d: Cut, rows: seq<Row>, k: Copy)
    ensures DatedRows(rows, k) ==> DatedRows(CutRows(d, rows), k)
    ensures HasKey(CutRows(d, rows), k.sender, k.id) ==> HasKey(rows, k.sender, k.id)
    ensures DatedRows(rows, k) && HasKey(rows, k.sender, k.id) && d.Through? && k.timestamp > d.upTo ==>
      HasKey(CutRows(d, rows), k.sender, k.id)
    ensures d.WithId? && d.id != k.id && HasKey(rows, k.sender, k.id) ==> HasKey(CutRows(d, rows), k.sender, k.id)
  {
    var out := CutRows(d, rows);
    forall i | 0 <= i < |out| ensures out[i] in rows { assert out[i] in out; }
    if i :| 0 <= i < |rows| && rows[i].sender == k.sender && rows[i].id == k.id {
      if !Cuts(d, rows[i]) {
        assert rows[i] in out;
        var j :| 0 <= j < |out| && out[j] == rows[i];
      }
    }
    if j :| 0 <= j < |out| && out[j].sender == k.sender && out[j].id == k.id {
      var i :| 0 <= i < |rows| && rows[i] == out[j];
    }
  }

  /** A cleared or deleted chat keeps nothing from up to that time, and suppresses it. */
  lemma ClearCarries(t: Tables, c: Jid, at: int, k: Copy)
    ensures Carries(t, ClearChat(t, c, at), k) && (Here(ClearChat(t, c, at), k) ==> Here(t, k))
    ensures Carries(t, DeleteChat(t, c, at), k) && (Here(DeleteChat(t, c, at), k) ==> Here(t, k))
  {
    if !Clearing.Stale(t, c, at) {
      var u := DeleteThrough(t, c, at);
      DeletedThrough(t, c, at, k);
      WatermarkCarries(t, u, Sweep(u, c, at), c, at, k);
      WatermarkCarries(t, u, Bury(u, c, at), c, at, k);
    }
  }

  lemma WatermarkCarries(t: Tables, u: Tables, v: Tables, c: Jid, at: int, k: Copy)
    requires (Dated(t, k) ==> Dated(u, k)) && (Here(u, k) ==> Here(t, k))
    requires Dated(t, k) && Here(t, k) ==> Here(u, k) || (k.chat == c && k.timestamp <= at)
    requires u.settings == t.settings && v.messages == u.messages && v.tombstones == u.tombstones == t.tombstones
    requires c in v.settings && v.settings[c].clearedAt == Max(SettingsOf(t.settings, c).clearedAt, at)
    requires forall d :: d != c ==> Get(v.settings, d) == Get(t.settings, d)
    ensures Carries(t, v, k) && (Here(v, k) ==> Here(t, k))
  {
    assert Get(v.settings, k.chat) == Get(t.settings, k.chat) || k.chat == c;
  }

  lemma DeleteOneCarries(t: Tables, c: Jid, id: Id, k: Copy)
    ensures Carries(t, DeleteMessage(t, c, id), k) && (Here(DeleteMessage(t, c, id), k) ==> Here(t, k))
  {
    if k.chat == c { CutSome(WithId(id), Rows(t.messages, c), k); }
  }

  // --------------------------------------------------- arrivals and replays

  /** Retention takes rows, and nothing else of the message. */
  lemma PruneCarries(t: Tables, u: Tables, c: Jid, k: Copy)
    requires Carries(t, u, k) && (Here(u, k) ==> Here(Prune(u, c), k))
    ensures Carries(t, Prune(u, c), k)
  {
    var rows := Rows(u.messages, c);
    forall i | 0 <= i < |Retain(rows, u.keep)| ensures Retain(rows, u.keep)[i] in rows {
      assert Retain(rows, u.keep)[i] in Retain(rows, u.keep);
    }
  }

  lemma InsertCarries(t: Tables, c: Jid, ins: Insert, k: Copy)
    requires IsCopy(k, c, ins.message) ==> ins.message.timestamp == k.timestamp
    ensures Carries(t, InsertMessage(t, c, ins), k)
    ensures Gone(t, k) && Here(InsertMessage(t, c, ins), k) ==> Here(t, k)
  {
    var u := InsertMessage(t, c, ins);
    InsertTouches(t, c, ins);
    InsertHolds(t, c, ins, k.chat);
    if k.chat == c {
      InsertShape(t, c, ins);
      if Stores(t, c, ins) { AppendCarries(t, u, c, NewRow(t, c, ins), k); } else { ShapeCarries(t, u, k); }
    } else {
      ShapeCarries(t, u, k);
    }
  }

  lemma InsertHolds(t: Tables, c: Jid, ins: Insert, d: Jid)
    ensures Holds(t, InsertMessage(t, c, ins), d)
  {
  }

  lemma AppendCarries(t: Tables, u: Tables, c: Jid, row: Row, k: Copy)
    requires k.chat == c && Rows(u.messages, c) == Rows(t.messages, c) + [row] && Holds(t, u, c)
    requires row.sender == k.sender && row.id == k.id ==> row.timestamp == k.timestamp && !Gone(t, k)
    ensures Carries(t, u, k)
    ensures Gone(t, k) && Here(u, k) ==> Here(t, k)
  {
    var a, b := Rows(t.messages, c), Rows(u.messages, c);
    if i :| 0 <= i < |a| && a[i].sender == k.sender && a[i].id == k.id { assert b[i] == a[i]; }
    if i :| 0 <= i < |b| && b[i].sender == k.sender && b[i].id == k.id {
      if i < |a| { assert a[i] == b[i]; } else { assert b[i] == row; }
    }
  }

  /** One replayed message, in its own chat and elsewhere. */
  lemma HistoryMessageCarries(t: Tables, h: HistoryChat, m: Message, k: Copy)
    requires IsCopy(k, h.jid, m) ==> m.timestamp == k.timestamp
    ensures var u := HistoryMessage(t, h, m).0;
      && Carries(t, u, k) && (Gone(t, k) && Here(u, k) ==> Here(t, k))
  {
    hide InsertMessage, LearnName, Batching.Complete;
    var named := LearnName(t, m);
    var stored := InsertMessage(named, h.jid, HistoryInsert(h, m));
    HistoryIsStore(t, h, m);
    NamedCarries(t, m, k);
    InsertCarries(named, h.jid, HistoryInsert(h, m), k);
    CompleteCarries(stored, h.jid, m, k);
  }

  lemma NamedCarries(t: Tables, m: Message, k: Copy)
    ensures Carries(t, LearnName(t, m), k) && (Here(LearnName(t, m), k) ==> Here(t, k))
  {
    NameShape(t, m.sender, m.senderName, 0, k.chat);
    LearnSettings(t, m);
    ShapeCarries(t, LearnName(t, m), k);
  }

  lemma CompleteCarries(t: Tables, c: Jid, m: Message, k: Copy)
    ensures Carries(t, Batching.Complete(t, c, m), k) && (Here(Batching.Complete(t, c, m), k) ==> Here(t, k))
  {
    CompleteSettings(t, c, m);
    if m.media.Some? { CompleteElsewhere(t, c, m.id, m.media.value, k.chat); }
    ShapeCarries(t, Batching.Complete(t, c, m), k);
  }

  lemma {:induction false} HistoryMessagesCarry(t: Tables, h: HistoryChat, ms: seq<Message>, k: Copy)
    requires forall i :: 0 <= i < |ms| && IsCopy(k, h.jid, ms[i]) ==> ms[i].timestamp == k.timestamp
    ensures var u := HistoryMessages(t, h, ms).0;
      && Carries(t, u, k) && (Gone(t, k) && Here(u, k) ==> Here(t, k))
  {
    hide HistoryMessage;
    if ms != [] {
      var n := |ms| - 1;
      HistoryMessagesCarry(t, h, ms[..n], k);
      HistoryMessageCarries(HistoryMessages(t, h, ms[..n]).0, h, ms[n], k);
    }
  }

  lemma ReplayCarries(t: Tables, h: HistoryChat, ms: seq<Message>, k: Copy)
    requires Stamped(Replay(h, ms), k)
    ensures var u := HistoryMessages(InsertChat(t, h), h, ms).0;
      && Carries(t, u, k) && (Gone(t, k) && Here(u, k) ==> Here(t, k))
  {
    InsertChatOnlyChats(t, h);
    HistoryMessagesCarry(InsertChat(t, h), h, ms, k);
  }

  // --------------------------------------------------- any transaction

  /** A message that retention spares keeps its time and its place, or is gone for good;
      and one that is gone for good is not stored. */
  lemma EventOnce(t: Tables, e: Event, k: Copy)
    requires Stamped(e, k) && Spared(t, e, k)
    ensures Carries(t, Apply(t, e), k)
    ensures StoresKey(t, e, k) ==> !Gone(t, k) && Here(Apply(t, e), k)
  {
    hide Carries, InsertMessage, HistoryMessages, UpdateContactName, UpdateMedia, ApplyBoundary;
    hide ExplicitUnread, StampReadState, ReconcileUnread, ClearChat, DeleteChat, DeleteMessage;
    hide Receipts.ReceiveAll, Polls.ApplyVote, Polls.Reopen, Here, Gone, Prune;
    hide Reactions.ApplyReaction, ReadOutbox.QueueReads, ReadOutbox.FinishBatch;
    if MovesRows(e) {
      MovedCarries(t, e, k);
    } else if KeepsRows(e) {
      FlagsCarry(t, e, k);
    } else {
      match e
      case Arrive(c, ins) =>
        InsertCarries(t, c, ins, k);
        PruneCarries(t, InsertMessage(t, c, ins), c, k);
      case Replay(h, ms) =>
        ReplayCarries(t, h, ms, k);
        PruneCarries(t, HistoryMessages(InsertChat(t, h), h, ms).0, h.jid, k);
      case Boundary(d, at, ids) => BoundaryCarries(t, d, at, ids, k);
      case Clear(d, at) => ClearCarries(t, d, at, k);
      case Delete(d, at) => ClearCarries(t, d, at, k);
      case DeleteOne(d, id) => DeleteOneCarries(t, d, id, k);
    }
  }

  // --------------------------------------------------- whole runs

  /** Every copy the run brings carries the time of the message, and retention spares it. */
  ghost predicate Undisturbed(t: Tables, es: seq<Event>, k: Copy) {
    es == [] || (
      var n := |es| - 1;
      Undisturbed(t, es[..n], k) && Stamped(es[n], k) && Spared(Run(t, es[..n]), es[n], k))
  }

  /** How many transactions stored a row for the message. */
  ghost function TimesStored(t: Tables, es: seq<Event>, k: Copy): nat {
    if es == [] then 0
    else TimesStored(t, es[..|es| - 1], k) + if StoresKey(Run(t, es[..|es| - 1]), es[|es| - 1], k) then 1 else 0
  }

  /** The transaction receives a copy of the message. */
  predicate Brings(e: Event, k: Copy) {
    e.Arrive? && IsCopy(k, e.chat, e.ins.message)
  }

  /** By how much all the copies of the message raised its chat's badge. */
  ghost function TimesCounted(t: Tables, es: seq<Event>, k: Copy): int {
    if es == [] then 0
    else
      var before, e := Run(t, es[..|es| - 1]), es[|es| - 1];
      TimesCounted(t, es[..|es| - 1], k)
      + if Brings(e, k) then Badge(Apply(before, e), k.chat) - Badge(before, k.chat) else 0
  }

  /** However often it is received and replayed, through any clears and deletes, a message
      that retention spares is stored at most once, and not at all if it was stored, cleared
      or deleted before. */
  lemma {:induction false} StoredAtMostOnce(t: Tables, es: seq<Event>, k: Copy)
    requires Dated(t, k) && Undisturbed(t, es, k)
    ensures Dated(Run(t, es), k)
    ensures Spent(t, k) ==> Spent(Run(t, es), k)
    ensures TimesStored(t, es, k) + (if Spent(t, k) then 1 else 0) <= if Spent(Run(t, es), k) then 1 else 0
  {
    hide Apply, StoresKey, Gone, Here, Stamped, Spared;
    if es != [] {
      var n := |es| - 1;
      StoredAtMostOnce(t, es[..n], k);
      EventOnce(Run(t, es[..n]), es[n], k);
      StoresAbsent(Run(t, es[..n]), es[n], k);
    }
  }

  lemma StoresAbsent(t: Tables, e: Event, k: Copy)
    ensures StoresKey(t, e, k) ==> !Here(t, k)
  {
  }

  lemma BadgeStep(t: Tables, e: Event, k: Copy)
    requires Brings(e, k)
    ensures 0 <= Badge(Apply(t, e), k.chat) - Badge(t, k.chat) <= if StoresKey(t, e, k) then 1 else 0
  {
    ReductionBadge(t, e.chat, e.ins);
    InsertShape(t, e.chat, e.ins);
    if Stores(t, e.chat, e.ins) {
      var rows := Rows(t.messages, e.chat);
      assert (rows + [NewRow(t, e.chat, e.ins)])[|rows|].id == k.id;
    }
  }

  /** Over the whole run, all its copies together raise the badge at most by one. */
  lemma {:induction false} CountedAtMostOnce(t: Tables, es: seq<Event>, k: Copy)
    requires Dated(t, k) && Undisturbed(t, es, k)
    ensures 0 <= TimesCounted(t, es, k) <= TimesStored(t, es, k) <= 1
  {
    hide Apply, StoresKey, Badge, Brings;
    StoredAtMostOnce(t, es, k);
    if es != [] {
      var n := |es| - 1;
      CountedAtMostOnce(t, es[..n], k);
      if Brings(es[n], k) { BadgeStep(Run(t, es[..n]), es[n], k); }
    }
  }

  /** So through commits, reductions, crashes and anything else the system does: its tables
      are a run's, and that run stores and counts the message at most once. */
  lemma SystemStoresOnce(s: System, es: seq<Step>, k: Copy)
    requires Dated(s.tables, k) && Undisturbed(s.tables, Transactions(s, es), k)
    ensures var run := Transactions(s, es);
      && Go(s, es).tables == Run(s.tables, run)
      && 0 <= TimesCounted(s.tables, run, k) <= TimesStored(s.tables, run, k) <= 1
      && (Spent(s.tables, k) ==> TimesStored(s.tables, run, k) == 0)
  {
    hide Transactions, Run, Go, TimesStored, TimesCounted, Undisturbed, Spent;
    GoIsRun(s, es);
    StoredAtMostOnce(s.tables, Transactions(s, es), k);
    CountedAtMostOnce(s.tables, Transactions(s, es), k);
  }

  /** And over a drain: however many copies it lists, it stores at most one of them and counts
      it at most once. */
  lemma DrainStoresOnce(t: Tables, inbox: seq<Record>, pending: seq<Record>, checks: nat, k: Copy)
    requires var run := Transactions(System(t, inbox, None), DrainSteps(t, pending, checks));
      Dated(t, k) && Undisturbed(t, run, k)
    ensures var run := Transactions(System(t, inbox, None), DrainSteps(t, pending, checks));
      && Drained(t, inbox, pending, checks).0 == Run(t, run)
      && 0 <= TimesCounted(t, run, k) <= TimesStored(t, run, k) <= 1
  {
    hide Transactions, Run, Go, TimesStored, TimesCounted, Undisturbed, Drained, DrainSteps;
    DrainIsRun(t, inbox, pending, checks);
    SystemStoresOnce(System(t, inbox, None), DrainSteps(t, pending, checks), k);
  }
}
