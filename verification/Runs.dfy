/** Whole runs of the history store, from an empty database. */
module Runs {
  import opened Prelude
  import opened Schema
  import opened Tallies
  import opened History
  import opened Batching
  import opened ReadState
  import opened Clearing
  import opened Soundness
  import Receipts
  import Reactions
  import Polls
  import ReadOutbox

  /** The transactions of the store, except the alias merge and the account reset. */
  datatype Event =
    | Arrive(chat: Jid, ins: Insert)
    | Replay(history: HistoryChat, ms: seq<Message>)
    | Name(jid: Jid, name: string, source: int)
    | Complete(chat: Jid, id: Id, media: Media)
    | Boundary(chat: Jid, at: int, ids: seq<Id>)
    | MarkUnread(chat: Jid)
    | StampRead(chat: Jid, at: int)
    | Reconcile
    | Clear(chat: Jid, at: int)
    | Delete(chat: Jid, at: int)
    | DeleteOne(chat: Jid, id: Id)
    | Deliver(receipts: seq<Receipts.Receipt>)
    | Cast(vote: Polls.VoteCall)
    | React(key: ReactionKey, reaction: Reactions.Event)
    | QueueReads(chat: Jid, due: seq<UnreadReceipt>, at: int)
    | FinishReads(batch: ReadOutbox.Batch)
    | Reopened

  ghost function Apply(t: Tables, e: Event): Tables {
    match e
    case Arrive(c, ins) => InsertAndPrune(t, c, ins)
    case Replay(h, ms) => Batch(t, h, ms).0
    case Name(jid, name, source) => UpdateContactName(t, jid, name, source)
    case Complete(c, id, media) => UpdateMedia(t, c, id, media)
    case Boundary(c, at, ids) => ApplyBoundary(t, c, at, ids)
    case MarkUnread(c) => ExplicitUnread(t, c)
    case StampRead(c, at) => StampReadState(t, c, at)
    case Reconcile => ReconcileUnread(t)
    case Clear(c, at) => ClearChat(t, c, at)
    case Delete(c, at) => DeleteChat(t, c, at)
    case DeleteOne(c, id) => DeleteMessage(t, c, id)
    case Deliver(rs) => Receipts.ReceiveAll(t, rs)
    case Cast(v) => Polls.ApplyVote(t, v)
    case React(k, r) => Reactions.ApplyReaction(t, k, r)
    case QueueReads(c, due, at) => ReadOutbox.QueueReads(t, c, due, at)
    case FinishReads(b) => ReadOutbox.FinishBatch(t, b)
    case Reopened => Polls.Reopen(t)
  }

  ghost function Run(t: Tables, es: seq<Event>): Tables {
    if es == [] then t else Apply(Run(t, es[..|es| - 1]), es[|es| - 1])
  }

  function Fresh(keep: nat): Tables {
    Tables(keep, map[], map[], map[], map[], {}, map[], map[], map[], map[], map[], [])
  }

  // --------------------------------------------------- the invariant of every run

  lemma {:induction false} RepairSound(t: Tables, c: Jid, targets: seq<Row>, rows: seq<Row>)
    ensures SameShape(rows, Polls.RepairRows(t, c, targets, rows))
    ensures forall i :: 0 <= i < |rows| ==>
      var r, s := rows[i], Polls.RepairRows(t, c, targets, rows)[i]; s.read == r.read && s.fromMe == r.fromMe
  {
    if targets != [] { RepairSound(t, c, targets[..|targets| - 1], rows); }
  }

  lemma ReopenSound(t: Tables, d: Jid)
    requires Sound(t, d)
    ensures Sound(Polls.Reopen(t), d)
  {
    var rows, u := Rows(t.messages, d), Polls.Reopen(t);
    RepairSound(t, d, rows, rows);
    var out := Polls.RepairRows(t, d, rows, rows);
    assert Rows(u.messages, d) == out;
    SameUnread(rows, out);
    forall id | HasId(rows, id) ensures HasId(out, id) { ShapeHasId(rows, out, id); }
  }

  lemma ReactionSound(t: Tables, k: ReactionKey, r: Reactions.Event, d: Jid)
    requires Sound(t, d)
    ensures Sound(Reactions.ApplyReaction(t, k, r), d)
  {
    FrameGood(t, Reactions.ApplyReaction(t, k, r), d);
  }

  lemma QueuesElsewhere(t: Tables, c: Jid, due: seq<UnreadReceipt>, at: int, b: ReadOutbox.Batch, d: Jid)
    ensures SameAt(t, ReadOutbox.QueueReads(t, c, due, at), d) && SameAt(t, ReadOutbox.FinishBatch(t, b), d)
  {
  }

  lemma QueueSound(t: Tables, c: Jid, due: seq<UnreadReceipt>, at: int, b: ReadOutbox.Batch, d: Jid)
    requires Sound(t, d)
    ensures Sound(ReadOutbox.QueueReads(t, c, due, at), d) && Sound(ReadOutbox.FinishBatch(t, b), d)
  {
    hide Sound, Good, SameAt;
    QueuesElsewhere(t, c, due, at, b, d);
    FrameGood(t, ReadOutbox.QueueReads(t, c, due, at), d);
    FrameGood(t, ReadOutbox.FinishBatch(t, b), d);
  }

  lemma ApplySound(t: Tables, e: Event, d: Jid)
    requires Sound(t, d)
    ensures Sound(Apply(t, e), d)
  {
    hide Sound;
    hide InsertAndPrune, Batch, UpdateContactName, UpdateMedia;
    hide ApplyBoundary, ExplicitUnread, StampReadState, ReconcileUnread;
    hide ClearChat, DeleteChat, DeleteMessage, Receipts.ReceiveAll, Polls.ApplyVote, Polls.Reopen;
    hide Reactions.ApplyReaction, ReadOutbox.QueueReads, ReadOutbox.FinishBatch;
    match e
    case Arrive(c, ins) => InsertAndPruneSound(t, c, ins, d);
    case Replay(h, ms) => BatchSound(t, h, ms, d);
    case Name(jid, name, source) => NameGood(t, jid, name, source, d);
    case Complete(c, id, media) => MediaGood(t, c, id, media, d);
    case Boundary(c, at, ids) => BoundarySound(t, c, at, ids, d);
    case MarkUnread(c) => ReadFlagsSound(t, c, 0, d);
    case StampRead(c, at) => ReadFlagsSound(t, c, at, d);
    case Reconcile => ReconcileSound(t, d);
    case Clear(c, at) => ClearSound(t, c, at, d);
    case Delete(c, at) => ClearSound(t, c, at, d);
    case DeleteOne(c, id) => DeleteMessageSound(t, c, id, d);
    case Deliver(rs) => ReceiptsSound(t, rs, d);
    case Cast(v) => VoteSound(t, v, d);
    case React(k, r) => ReactionSound(t, k, r, d);
    case QueueReads(c, due, at) => QueueSound(t, c, due, at, ReadOutbox.Batch(c, due), d);
    case FinishReads(b) => QueueSound(t, b.chat, [], 0, b, d);
    case Reopened => ReopenSound(t, d);
  }

  /** In every reachable state, in every chat: keys are unique and bounded, the badge
      never under-counts, what is covered is read, what was removed stays removed. */
  lemma {:induction false} ReachableIsSound(keep: nat, es: seq<Event>, c: Jid)
    requires keep > 0
    ensures Sound(Run(Fresh(keep), es), c)
  {
    if es != [] {
      ReachableIsSound(keep, es[..|es| - 1], c);
      ApplySound(Run(Fresh(keep), es[..|es| - 1]), es[|es| - 1], c);
    }
  }

  // --------------------------------------------------- what only ever moves one way

  /** Watermarks, boundaries and tombstones only grow, and no stored row turns unread. */
  predicate Advances(t: Tables, u: Tables, c: Jid) {
    && SettingsOf(t.settings, c).clearedAt <= SettingsOf(u.settings, c).clearedAt
    && SettingsOf(t.settings, c).readBoundary <= SettingsOf(u.settings, c).readBoundary
    && (forall p :: p in t.tombstones ==> p in u.tombstones)
    && StaysRead(Rows(t.messages, c), Rows(u.messages, c))
  }

  /** A row present in both states that was read is read. */
  predicate StaysRead(a: seq<Row>, b: seq<Row>) {
    forall i, j :: 0 <= i < |a| && 0 <= j < |b| && a[i].sender == b[j].sender && a[i].id == b[j].id && a[i].read ==>
      b[j].read
  }

  /** The same messages in the same places, perhaps followed by more, none turned unread. */
  predicate Prefixed(a: seq<Row>, b: seq<Row>) {
    |a| <= |b| && forall i :: 0 <= i < |a| ==>
      a[i].sender == b[i].sender && a[i].id == b[i].id && (a[i].read ==> b[i].read)
  }

  lemma ThinnedStaysRead(a: seq<Row>, m: seq<Row>, b: seq<Row>)
    requires Prefixed(a, m) && UniqueKeys(m) && forall j :: 0 <= j < |b| ==> b[j] in m
    ensures StaysRead(a, b)
  {
    forall i, j | 0 <= i < |a| && 0 <= j < |b| && a[i].sender == b[j].sender && a[i].id == b[j].id && a[i].read
      ensures b[j].read
    {
      var k :| 0 <= k < |m| && m[k] == b[j];
      assert k == i;
    }
  }

  lemma PrefixStaysRead(a: seq<Row>, b: seq<Row>)
    requires Prefixed(a, b) && UniqueKeys(b)
    ensures StaysRead(a, b)
  {
    ThinnedStaysRead(a, b, b);
  }

  lemma NameAdvances(t: Tables, jid: Jid, name: string, source: int, c: Jid)
    ensures Prefixed(Rows(t.messages, c), Rows(UpdateContactName(t, jid, name, source).messages, c))
    ensures var u := UpdateContactName(t, jid, name, source); u.settings == t.settings && u.tombstones == t.tombstones
  {
    if NameApplies(t, jid, name, source) {
      assert Rows(UpdateContactName(t, jid, name, source).messages, c)
        == EditRows(Rename(jid, Trim(name)), Rows(t.messages, c));
    }
  }

  lemma InsertAdvances(t: Tables, d: Jid, ins: Insert, c: Jid)
    ensures Prefixed(Rows(t.messages, c), Rows(InsertMessage(t, d, ins).messages, c))
    ensures ins.fromHistory ==> InsertMessage(t, d, ins).settings == t.settings
  {
    InsertShape(t, d, ins);
    if c != d { InsertElsewhere(t, d, ins, c); }
  }

  lemma MediaAdvances(t: Tables, d: Jid, id: Id, media: Media, c: Jid)
    ensures Prefixed(Rows(t.messages, c), Rows(UpdateMedia(t, d, id, media).messages, c))
    ensures var u := UpdateMedia(t, d, id, media); u.settings == t.settings && u.tombstones == t.tombstones
  {
  }

  lemma StoreAdvances(t: Tables, h: HistoryChat, m: Message, c: Jid)
    ensures Prefixed(Rows(t.messages, c), Rows(StoreOrComplete(t, h, m).messages, c))
    ensures var u := StoreOrComplete(t, h, m); u.settings == t.settings && u.tombstones == t.tombstones
  {
    InsertAdvances(t, h.jid, HistoryInsert(h, m), c);
    InsertSettings(t, h.jid, HistoryInsert(h, m));
    if m.media.Some? { MediaAdvances(InsertMessage(t, h.jid, HistoryInsert(h, m)), h.jid, m.id, m.media.value, c); }
  }

  lemma {:induction false} ReplayAdvances(t: Tables, h: HistoryChat, ms: seq<Message>, c: Jid)
    ensures Prefixed(Rows(t.messages, c), Rows(HistoryMessages(t, h, ms).0.messages, c))
    ensures var u := HistoryMessages(t, h, ms).0; u.settings == t.settings && u.tombstones == t.tombstones
  {
    if ms != [] {
      var n := |ms| - 1;
      ReplayAdvances(t, h, ms[..n], c);
      var u := HistoryMessages(t, h, ms[..n]).0;
      NameAdvances(u, ms[n].sender, ms[n].senderName, 0, c);
      StoreAdvances(LearnName(u, ms[n]), h, ms[n], c);
      HistoryIsStore(u, h, ms[n]);
    }
  }

  lemma PrunedIn(t: Tables, c: Jid, d: Jid)
    ensures forall j :: 0 <= j < |Rows(Prune(t, c).messages, d)| ==>
      Rows(Prune(t, c).messages, d)[j] in Rows(t.messages, d)
  {
    var out := Rows(Prune(t, c).messages, d);
    forall j | 0 <= j < |out| ensures out[j] in Rows(t.messages, d) { assert out[j] in out; }
  }

  /** Rows that grew and were then thinned, beside watermarks that did not shrink. */
  lemma GrownAndPruned(t: Tables, v: Tables, d: Jid, c: Jid)
    requires Prefixed(Rows(t.messages, c), Rows(v.messages, c)) && UniqueKeys(Rows(v.messages, c))
    requires SettingsOf(t.settings, c).clearedAt <= SettingsOf(v.settings, c).clearedAt
    requires SettingsOf(t.settings, c).readBoundary <= SettingsOf(v.settings, c).readBoundary
    requires v.tombstones == t.tombstones
    ensures Advances(t, Prune(v, d), c)
  {
    PrunedIn(v, d, c);
    ThinnedStaysRead(Rows(t.messages, c), Rows(v.messages, c), Rows(Prune(v, d).messages, c));
  }

  lemma ReplayGrows(t: Tables, h: HistoryChat, ms: seq<Message>, c: Jid)
    requires Sound(t, c)
    ensures var v := HistoryMessages(InsertChat(t, h), h, ms).0;
      && Prefixed(Rows(t.messages, c), Rows(v.messages, c)) && UniqueKeys(Rows(v.messages, c))
      && v.settings == t.settings && v.tombstones == t.tombstones
  {
    var u := InsertChat(t, h);
    assert u == t.(chats := u.chats);
    ChatRowGood(t, h, c);
    HistoryMessagesGood(u, h, ms, c);
    ReplayAdvances(u, h, ms, c);
  }

  lemma BatchAdvances(t: Tables, h: HistoryChat, ms: seq<Message>, c: Jid)
    requires Sound(t, c)
    ensures Advances(t, Batch(t, h, ms).0, c)
  {
    ReplayGrows(t, h, ms, c);
    GrownAndPruned(t, HistoryMessages(InsertChat(t, h), h, ms).0, h.jid, c);
  }

  lemma ArriveAdvances(t: Tables, d: Jid, ins: Insert, c: Jid)
    requires Sound(t, c)
    ensures Advances(t, InsertAndPrune(t, d, ins), c)
  {
    InsertAdvances(t, d, ins, c);
    InsertSettings(t, d, ins);
    if c == d {
      InsertGood(t, c, ins);
    } else {
      InsertElsewhere(t, d, ins, c);
      FrameGood(t, InsertMessage(t, d, ins), c);
    }
    GrownAndPruned(t, InsertMessage(t, d, ins), d, c);
  }

  lemma BoundaryAdvances(t: Tables, d: Jid, at: int, ids: seq<Id>, c: Jid)
    requires Sound(t, c)
    ensures Advances(t, ApplyBoundary(t, d, at, ids), c)
  {
    var u := ApplyBoundary(t, d, at, ids);
    BoundarySound(t, d, at, ids, c);
    MarkRowsExact(Rows(t.messages, d), NewBoundary(SettingsOf(t.settings, d), at, ids), ids);
    PrefixStaysRead(Rows(t.messages, c), Rows(u.messages, c));
  }

  lemma CutIn(d: Cut, rows: seq<Row>)
    ensures forall j :: 0 <= j < |CutRows(d, rows)| ==> CutRows(d, rows)[j] in rows
  {
    forall j | 0 <= j < |CutRows(d, rows)| ensures CutRows(d, rows)[j] in rows {
      assert CutRows(d, rows)[j] in CutRows(d, rows);
    }
  }

  lemma DeleteThroughAdvances(t: Tables, d: Jid, at: int, c: Jid)
    requires Sound(t, c)
    ensures Advances(t, DeleteThrough(t, d, at), c) && DeleteThrough(t, d, at).settings == t.settings
  {
    var rows := Rows(t.messages, c);
    CutIn(Through(at), rows);
    PrefixStaysRead(rows, rows);
    ThinnedStaysRead(rows, rows, CutRows(Through(at), rows));
  }

  lemma ClearAdvances(t: Tables, d: Jid, at: int, c: Jid)
    requires Sound(t, c)
    ensures Advances(t, ClearChat(t, d, at), c) && Advances(t, DeleteChat(t, d, at), c)
  {
    if Clearing.Stale(t, d, at) {
      PrefixStaysRead(Rows(t.messages, c), Rows(t.messages, c));
    } else {
      var u := DeleteThrough(t, d, at);
      DeleteThroughAdvances(t, d, at, c);
      BurySettings(u, d, at, c);
      assert Sweep(u, d, at).messages == u.messages && Sweep(u, d, at).tombstones == u.tombstones;
    }
  }

  lemma DeleteOneAdvances(t: Tables, d: Jid, id: Id, c: Jid)
    requires Sound(t, c)
    ensures Advances(t, DeleteMessage(t, d, id), c)
  {
    var rows := Rows(t.messages, c);
    CutIn(WithId(id), rows);
    ThinnedStaysRead(rows, rows, rows);
    ThinnedStaysRead(rows, rows, CutRows(WithId(id), rows));
  }

  lemma {:induction false} DeliverAdvances(t: Tables, rs: seq<Receipts.Receipt>, c: Jid)
    ensures Prefixed(Rows(t.messages, c), Rows(Receipts.ReceiveAll(t, rs).messages, c))
    ensures var u := Receipts.ReceiveAll(t, rs); u.settings == t.settings && u.tombstones == t.tombstones
  {
    if rs != [] { DeliverAdvances(t, rs[..|rs| - 1], c); }
  }

  /** Rows, tombstones and this chat's watermarks stay. */
  predicate Beside(t: Tables, u: Tables, c: Jid) {
    && Rows(u.messages, c) == Rows(t.messages, c) && u.tombstones == t.tombstones
    && SettingsOf(u.settings, c).clearedAt == SettingsOf(t.settings, c).clearedAt
    && SettingsOf(u.settings, c).readBoundary == SettingsOf(t.settings, c).readBoundary
  }

  lemma BesideAdvances(t: Tables, u: Tables, c: Jid)
    requires Sound(t, c) && Beside(t, u, c)
    ensures Advances(t, u, c)
  {
    PrefixStaysRead(Rows(t.messages, c), Rows(u.messages, c));
  }

  lemma PrefixedAdvances(t: Tables, u: Tables, c: Jid)
    requires Sound(u, c) && Prefixed(Rows(t.messages, c), Rows(u.messages, c))
    requires u.settings == t.settings && u.tombstones == t.tombstones
    ensures Advances(t, u, c)
  {
    PrefixStaysRead(Rows(t.messages, c), Rows(u.messages, c));
  }

  lemma VoteAdvances(t: Tables, v: Polls.VoteCall, c: Jid)
    ensures Prefixed(Rows(t.messages, c), Rows(Polls.ApplyVote(t, v).messages, c))
    ensures var u := Polls.ApplyVote(t, v); u.settings == t.settings && u.tombstones == t.tombstones
  {
    hide Tally, Polls.VotesAfter, Polls.Accepts;
  }

  predicate MovesRows(e: Event) {
    e.Name? || e.Complete? || e.Deliver? || e.Cast? || e.Reopened?
  }

  lemma ReopenAdvances(t: Tables, c: Jid)
    ensures Prefixed(Rows(t.messages, c), Rows(Polls.Reopen(t).messages, c))
    ensures var u := Polls.Reopen(t); u.settings == t.settings && u.tombstones == t.tombstones
  {
    RepairSound(t, c, Rows(t.messages, c), Rows(t.messages, c));
  }

  lemma MovedRowsAdvance(t: Tables, e: Event, c: Jid)
    requires MovesRows(e)
    ensures Prefixed(Rows(t.messages, c), Rows(Apply(t, e).messages, c))
    ensures Apply(t, e).settings == t.settings && Apply(t, e).tombstones == t.tombstones
  {
    hide Prefixed;
    hide InsertAndPrune, Batch, UpdateContactName, UpdateMedia;
    hide ApplyBoundary, ExplicitUnread, StampReadState, ReconcileUnread;
    hide ClearChat, DeleteChat, DeleteMessage, Receipts.ReceiveAll, Polls.ApplyVote, Polls.Reopen;
    hide Reactions.ApplyReaction, ReadOutbox.QueueReads, ReadOutbox.FinishBatch;
    match e
    case Name(jid, name, source) => NameAdvances(t, jid, name, source, c);
    case Complete(d, id, media) => MediaAdvances(t, d, id, media, c);
    case Deliver(rs) => DeliverAdvances(t, rs, c);
    case Cast(v) => VoteAdvances(t, v, c);
    case Reopened => ReopenAdvances(t, c);
  }

  /** The events that only touch read flags, badges, reactions or queues. */
  predicate KeepsRows(e: Event) {
    e.MarkUnread? || e.StampRead? || e.Reconcile? || e.React? || e.QueueReads? || e.FinishReads?
  }

  lemma BesideEvents(t: Tables, e: Event, c: Jid)
    requires KeepsRows(e)
    ensures Beside(t, Apply(t, e), c) && Apply(t, e).votes == t.votes
  {
    hide InsertAndPrune, Batch, UpdateContactName, UpdateMedia, ApplyBoundary;
    hide ClearChat, DeleteChat, DeleteMessage, Receipts.ReceiveAll, Polls.ApplyVote, Polls.Reopen;
  }

  lemma ApplyAdvances(t: Tables, e: Event, c: Jid)
    requires Sound(t, c)
    ensures Advances(t, Apply(t, e), c)
  {
    hide Sound, Advances;
    hide InsertAndPrune, Batch, UpdateContactName, UpdateMedia;
    hide ApplyBoundary, ExplicitUnread, StampReadState, ReconcileUnread;
    hide ClearChat, DeleteChat, DeleteMessage, Receipts.ReceiveAll, Polls.ApplyVote, Polls.Reopen;
    hide Reactions.ApplyReaction, ReadOutbox.QueueReads, ReadOutbox.FinishBatch;
    if MovesRows(e) {
      MovedRowsAdvance(t, e, c);
      ApplySound(t, e, c);
      PrefixedAdvances(t, Apply(t, e), c);
    } else if KeepsRows(e) {
      BesideEvents(t, e, c);
      BesideAdvances(t, Apply(t, e), c);
    } else {
      match e
      case Arrive(d, ins) => ArriveAdvances(t, d, ins, c);
      case Replay(h, ms) => BatchAdvances(t, h, ms, c);
      case Boundary(d, at, ids) => BoundaryAdvances(t, d, at, ids, c);
      case Clear(d, at) => ClearAdvances(t, d, at, c);
      case Delete(d, at) => ClearAdvances(t, d, at, c);
      case DeleteOne(d, id) => DeleteOneAdvances(t, d, id, c);
    }
  }

  // --------------------------------------------------- no resurrection

  lemma {:induction false} RunSound(t: Tables, es: seq<Event>, c: Jid)
    requires Sound(t, c)
    ensures Sound(Run(t, es), c)
    ensures SettingsOf(t.settings, c).clearedAt <= SettingsOf(Run(t, es).settings, c).clearedAt
    ensures SettingsOf(t.settings, c).readBoundary <= SettingsOf(Run(t, es).settings, c).readBoundary
    ensures forall p :: p in t.tombstones ==> p in Run(t, es).tombstones
  {
    if es != [] {
      RunSound(t, es[..|es| - 1], c);
      ApplySound(Run(t, es[..|es| - 1]), es[|es| - 1], c);
      ApplyAdvances(Run(t, es[..|es| - 1]), es[|es| - 1], c);
    }
  }

  /** Whatever arrives or is replayed afterwards, nothing at or before a watermark
      and no tombstoned message is ever stored again. */
  lemma NoResurrection(t: Tables, es: seq<Event>, c: Jid, r: Row)
    requires Sound(t, c) && r in Rows(Run(t, es).messages, c)
    ensures (c, r.id) !in t.tombstones
    ensures SettingsOf(t.settings, c).clearedAt > 0 ==> r.timestamp > SettingsOf(t.settings, c).clearedAt
  {
    RunSound(t, es, c);
  }

  lemma ClearSetsWatermark(t: Tables, c: Jid, at: int)
    ensures SettingsOf(ClearChat(t, c, at).settings, c).clearedAt >= at
    ensures SettingsOf(DeleteChat(t, c, at).settings, c).clearedAt >= at
  {
  }

  /** A chat cleared at a time holds nothing from up to that time, ever after. */
  lemma ClearedStaysCleared(t: Tables, c: Jid, at: int, es: seq<Event>, r: Row)
    requires Sound(t, c) && at > 0 && r in Rows(Run(ClearChat(t, c, at), es).messages, c)
    ensures r.timestamp > at
  {
    ClearSound(t, c, at, c);
    ClearSetsWatermark(t, c, at);
    NoResurrection(ClearChat(t, c, at), es, c, r);
  }

  lemma DeletedChatStaysDeleted(t: Tables, c: Jid, at: int, es: seq<Event>, r: Row)
    requires Sound(t, c) && at > 0 && r in Rows(Run(DeleteChat(t, c, at), es).messages, c)
    ensures r.timestamp > at
  {
    ClearSound(t, c, at, c);
    ClearSetsWatermark(t, c, at);
    NoResurrection(DeleteChat(t, c, at), es, c, r);
  }

  lemma DeletedMessageStaysDeleted(t: Tables, c: Jid, id: Id, es: seq<Event>, r: Row)
    requires Sound(t, c) && r in Rows(Run(DeleteMessage(t, c, id), es).messages, c)
    ensures r.id != id
  {
    DeleteMessageSound(t, c, id, c);
    NoResurrection(DeleteMessage(t, c, id), es, c, r);
  }

  // --------------------------------------------------- read state from other devices

  lemma AdvancesBeside(t: Tables, u: Tables, v: Tables, c: Jid)
    requires Advances(t, u, c) && Beside(u, v, c)
    ensures Advances(t, v, c)
  {
  }

  lemma StampBeside(u: Tables, c: Jid, at: int, d: Jid)
    ensures Beside(u, StampReadState(u, c, at), d)
    ensures c in u.settings ==> SettingsOf(StampReadState(u, c, at).settings, c).readStateUpdatedAt == at
  {
  }

  lemma UnreadKeeps(t: Tables, c: Jid, d: Jid)
    requires Sound(t, d)
    ensures Sound(ExplicitUnread(t, c), d) && Advances(t, ExplicitUnread(t, c), d) && c in ExplicitUnread(t, c).settings
  {
    ReadFlagsSound(t, c, 0, d);
    BesideAdvances(t, ExplicitUnread(t, c), d);
  }

  lemma BoundaryKeeps(t: Tables, c: Jid, at: int, ids: seq<Id>, d: Jid)
    requires Sound(t, d)
    ensures Sound(ApplyBoundary(t, c, at, ids), d) && Advances(t, ApplyBoundary(t, c, at, ids), d)
    ensures c in ApplyBoundary(t, c, at, ids).settings
  {
    BoundarySound(t, c, at, ids, d);
    BoundaryAdvances(t, c, at, ids, d);
  }

  lemma StampedAfter(t: Tables, u: Tables, c: Jid, at: int, d: Jid)
    requires Sound(u, d) && Advances(t, u, d) && c in u.settings
    ensures var v := StampReadState(u, c, at);
      Sound(v, d) && Advances(t, v, d) && SettingsOf(v.settings, c).readStateUpdatedAt == at
  {
    StampBeside(u, c, at, d);
    ReadFlagsSound(u, c, at, d);
    AdvancesBeside(t, u, StampReadState(u, c, at), d);
  }

  /** A read event from another device keeps every invariant and moves nothing back; a stale
      one changes nothing, and any other leaves its own time as the last. */
  lemma SyncedSound(t: Tables, c: Jid, read: bool, at: Option<int>, ids: seq<Id>, eventAt: int, d: Jid)
    requires Sound(t, d)
    ensures var u := SyncedReadState(t, c, read, at, ids, eventAt);
      && Sound(u, d) && Advances(t, u, d)
      && SettingsOf(u.settings, c).readStateUpdatedAt == Max(SettingsOf(t.settings, c).readStateUpdatedAt, eventAt)
      && (eventAt < SettingsOf(t.settings, c).readStateUpdatedAt ==> u == t)
  {
    if eventAt < SettingsOf(t.settings, c).readStateUpdatedAt {
      BesideAdvances(t, t, d);
    } else if !read {
      UnreadKeeps(t, c, d);
      StampedAfter(t, ExplicitUnread(t, c), c, eventAt, d);
    } else {
      var boundary := SyncedBoundary(Rows(t.messages, c), at, ids, eventAt);
      BoundaryKeeps(t, c, boundary, ids, d);
      StampedAfter(t, ApplyBoundary(t, c, boundary, ids), c, eventAt, d);
    }
  }

  /** A self read receipt reads each stored message it names, what its boundary covers, and nothing else. */
  lemma SelfReadExact(t: Tables, c: Jid, ids: seq<Id>, receiptAt: int, i: nat)
    requires ids != [] && i < |Rows(t.messages, c)|
    ensures var before, after := Rows(t.messages, c), Rows(SelfReadReceipt(t, c, ids, receiptAt).messages, c);
      var boundary := Max(SettingsOf(t.settings, c).readBoundary,
                          SaturatingPred(NewestNamed(before, ids).GetOr(receiptAt)));
      && |after| == |before|
      && (after[i].read <==>
          before[i].read || (!before[i].fromMe && (before[i].id in ids || before[i].timestamp <= boundary)))
  {
    var boundary := NewBoundary(SettingsOf(t.settings, c), NewestNamed(Rows(t.messages, c), ids).GetOr(receiptAt), ids);
    MarkRowsExact(Rows(t.messages, c), boundary, ids);
  }

  // --------------------------------------------------- when the badge is exact

  predicate BadgeExact(t: Tables, c: Jid) {
    c in t.chats ==> t.chats[c].unread == UnreadCount(Rows(t.messages, c))
  }

  lemma BoundaryRestores(t: Tables, c: Jid, at: int, ids: seq<Id>)
    ensures BadgeExact(ApplyBoundary(t, c, at, ids), c)
  {
  }

  lemma SweepRestores(u: Tables, c: Jid, at: int)
    ensures BadgeExact(Sweep(u, c, at), c) && BadgeExact(Bury(u, c, at), c)
  {
  }

  lemma ClearRestores(t: Tables, c: Jid, at: int)
    requires !Clearing.Stale(t, c, at)
    ensures BadgeExact(ClearChat(t, c, at), c) && BadgeExact(DeleteChat(t, c, at), c)
  {
    SweepRestores(DeleteThrough(t, c, at), c, at);
  }

  lemma ReconcileRestores(t: Tables, c: Jid)
    ensures BadgeExact(ReconcileUnread(t), c)
  {
  }

  /** A boundary, a clear, a chat delete and a reconcile leave an exact badge. */
  lemma BadgeRestored(t: Tables, c: Jid, at: int, ids: seq<Id>)
    ensures BadgeExact(ApplyBoundary(t, c, at, ids), c)
    ensures !Clearing.Stale(t, c, at) ==> BadgeExact(ClearChat(t, c, at), c) && BadgeExact(DeleteChat(t, c, at), c)
    ensures BadgeExact(ReconcileUnread(t), c)
  {
    BoundaryRestores(t, c, at, ids);
    ReconcileRestores(t, c);
    if !Clearing.Stale(t, c, at) { ClearRestores(t, c, at); }
  }
}
