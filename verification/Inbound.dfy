/** The durable inbox, and the reduction of its rows into the history store. */
module Inbound {
  import opened Prelude
  import opened Schema
  import opened History
  import opened Batching
  import opened Soundness
  import opened Runs
  import Polls
  import Reactions
  import Effects

  datatype Key = Key(chat: Jid, sender: Jid, id: Id)

  /** One `inbound_inbox` row. `arrival` is what its bytes decode to, with the chat and
      sender identifiers already resolved; `None` marks bytes that do not decode. */
  datatype Record = Record(key: Key, committedAt: int, arrival: Option<Arrival>)

  /** What a message turns out to hold: something to show, a reaction, a poll vote (which
      may fail to decrypt), a control message, or a broadcast that is none of the store's. */
  datatype Content =
    | Shown(chat: Jid, ins: Insert)
    | Reacted(key: ReactionKey, reaction: Reactions.Event)
    | Voted(vote: Polls.VoteCall, legible: bool)
    | Control
    | Broadcast

  /** A message, its sender, and the push name the sender is known by from then on. */
  datatype Arrival = Arrival(sender: Jid, pushName: string, content: Content)

  function Learning(a: Arrival): seq<Event> {
    if a.content.Broadcast? || a.pushName == a.sender then [] else [Event.Name(a.sender, a.pushName, 0)]
  }

  ghost function Learned(t: Tables, a: Arrival): Tables {
    Run(t, Learning(a))
  }

  /** How often the receiver looks at the generation, the transactions it then performs, and
      whether the message is accepted. */
  datatype Outcome = Outcome(looks: nat, events: seq<Event>, accepted: bool)

  /** The card's options a vote picks, in the card's order. */
  function Chosen(options: seq<PollOption>, selected: seq<string>): seq<string> {
    if options == [] then []
    else
      var last := options[|options| - 1].name;
      Chosen(options[..|options| - 1], selected) + if last in selected then [last] else []
  }

  /** The picks are the card's, in its order, and with distinct options each comes once. */
  lemma {:induction false} ChosenIs(options: seq<PollOption>, selected: seq<string>)
    ensures forall s :: s in Chosen(options, selected) <==> s in selected && Polls.NamesOption(options, s)
    ensures (forall i, j :: 0 <= i < j < |options| ==> options[i].name != options[j].name) ==>
      Distinct(Chosen(options, selected))
  {
    if options != [] {
      var n := |options| - 1;
      ChosenIs(options[..n], selected);
      forall s ensures Polls.NamesOption(options, s) <==> Polls.NamesOption(options[..n], s) || s == options[n].name {
        if Polls.NamesOption(options[..n], s) {
          var i :| 0 <= i < n && options[..n][i].name == s;
          assert options[i].name == s;
        }
        if Polls.NamesOption(options, s) {
          var i :| 0 <= i < |options| && options[i].name == s;
          if i < n { assert options[..n][i].name == s; }
        }
      }
    }
  }

  /** The vote as it is cast: its selections told by the card. */
  function Told(v: Polls.VoteCall, card: Media): Polls.VoteCall
    requires card.Poll?
  {
    v.(selected := Chosen(card.options, v.selected))
  }

  /** `receive_message`, once the sender's name is learned. A message the store has already
      brings its media; a vote waits for its poll, and is refused if it picks too much. */
  function Received(t: Tables, x: Content): Outcome {
    match x
    case Shown(c, ins) =>
      var m := ins.message;
      var completion := if !Stores(t, c, ins) && m.media.Some? then [Complete(c, m.id, m.media.value)] else [];
      Outcome(2, [Arrive(c, ins)] + completion, true)
    case Reacted(k, e) => Outcome(1, [React(k, e)], true)
    case Voted(v, legible) =>
      var card := Polls.Card(t, v.chat, v.id);
      if card.None? then Outcome(1, [], false)
      else
        var told := Told(v, card.value);
        if !legible || |told.selected| != |v.selected| then Outcome(1, [], true)
        else Outcome(2, [Cast(told)], !Polls.Overvotes(t, told))
    case Control => Outcome(1, [], true)
    case Broadcast => Outcome(0, [], true)
  }

  ghost function After(t: Tables, x: Content): Tables {
    Run(t, Received(t, x).events)
  }

  predicate HasRecord(inbox: seq<Record>, k: Key) {
    exists i :: 0 <= i < |inbox| && inbox[i].key == k
  }

  // --------------------------------------------------- the statements

  function Commit(inbox: seq<Record>, batch: seq<Record>): seq<Record> {
    if batch == [] then inbox
    else
      var before := Commit(inbox, batch[..|batch| - 1]);
      if HasRecord(before, batch[|batch| - 1].key) then before else before + [batch[|batch| - 1]]
  }

  function Finished(inbox: seq<Record>, k: Key): (out: seq<Record>)
    ensures |out| <= |inbox|
    ensures forall r :: r in out <==> r in inbox && r.key != k
    ensures !HasRecord(inbox, k) ==> out == inbox
  {
    if inbox == [] then []
    else
      var n := |inbox| - 1;
      assert inbox == inbox[..n] + [inbox[n]];
      Finished(inbox[..n], k) + if inbox[n].key == k then [] else [inbox[n]]
  }

  /** Place a later row behind the rows committed no later than it. */
  function Place(sorted: seq<Record>, r: Record): (out: seq<Record>)
    ensures |out| == |sorted| + 1
    ensures forall x :: x in out <==> x in sorted || x == r
  {
    if sorted == [] then [r]
    else
      var n := |sorted| - 1;
      assert sorted == sorted[..n] + [sorted[n]];
      if sorted[n].committedAt <= r.committedAt then sorted + [r]
      else Place(sorted[..n], r) + [sorted[n]]
  }

  /** In a list by commit time a row goes behind all that were committed no later, so that of
      equally old ones the earlier rowid comes first. */
  lemma {:induction false} PlacedBehind(sorted: seq<Record>, r: Record) returns (k: nat)
    requires InCommitOrder(sorted)
    ensures k <= |sorted| && Place(sorted, r) == sorted[..k] + [r] + sorted[k..]
    ensures forall i :: 0 <= i < k ==> sorted[i].committedAt <= r.committedAt
    ensures forall i :: k <= i < |sorted| ==> sorted[i].committedAt > r.committedAt
  {
    k := |sorted|;
    if sorted != [] && sorted[|sorted| - 1].committedAt > r.committedAt {
      var n := |sorted| - 1;
      k := PlacedBehind(sorted[..n], r);
      assert sorted[..n][..k] == sorted[..k] && sorted[..n][k..] + [sorted[n]] == sorted[k..];
    }
  }

  lemma {:induction false} PlaceKeepsAll(sorted: seq<Record>, r: Record)
    ensures multiset(Place(sorted, r)) == multiset(sorted) + multiset{r}
  {
    if sorted != [] {
      var n := |sorted| - 1;
      assert sorted == sorted[..n] + [sorted[n]];
      PlaceKeepsAll(sorted[..n], r);
    }
  }

  lemma {:induction false} PlaceKeepsOrder(sorted: seq<Record>, r: Record)
    requires InCommitOrder(sorted)
    ensures InCommitOrder(Place(sorted, r))
  {
    if sorted != [] && sorted[|sorted| - 1].committedAt > r.committedAt {
      var n := |sorted| - 1;
      var out := Place(sorted[..n], r);
      PlaceKeepsOrder(sorted[..n], r);
      forall i | 0 <= i < |out| ensures out[i].committedAt <= sorted[n].committedAt {
        assert out[i] in out;
      }
    }
  }

  predicate InCommitOrder(rows: seq<Record>) {
    forall i, j :: 0 <= i < j < |rows| ==> rows[i].committedAt <= rows[j].committedAt
  }

  /** `ORDER BY committed_at, rowid`. */
  function ByCommit(inbox: seq<Record>): (out: seq<Record>)
    ensures InCommitOrder(out) && multiset(out) == multiset(inbox) && |out| == |inbox|
    ensures forall x :: x in out <==> x in inbox
  {
    if inbox == [] then []
    else
      assert inbox == inbox[..|inbox| - 1] + [inbox[|inbox| - 1]];
      PlaceKeepsAll(ByCommit(inbox[..|inbox| - 1]), inbox[|inbox| - 1]);
      PlaceKeepsOrder(ByCommit(inbox[..|inbox| - 1]), inbox[|inbox| - 1]);
      Place(ByCommit(inbox[..|inbox| - 1]), inbox[|inbox| - 1])
  }

  /** `limit.clamp(1, 10_000)`. */
  function Clamped(limit: nat): (n: nat)
    ensures 1 <= n <= 10_000
  {
    if limit < 1 then 1 else if limit > 10_000 then 10_000 else limit
  }

  function PendingInbound(inbox: seq<Record>, limit: nat): (out: seq<Record>)
    ensures forall x :: x in out ==> x in inbox
  {
    var all := ByCommit(inbox);
    if |all| <= Clamped(limit) then all
    else
      assert forall x :: x in all[..Clamped(limit)] ==> x in all;
      all[..Clamped(limit)]
  }

  /** What is pending is a front part of the inbox in commit order: as much as is asked for,
      but at least one row and at most ten thousand. */
  lemma PendingIsFront(inbox: seq<Record>, limit: nat)
    ensures var out := PendingInbound(inbox, limit);
      && |out| <= |inbox| && out == ByCommit(inbox)[..|out|]
      && |out| == Min(|inbox|, if limit < 1 then 1 else Min(limit, 10_000))
  {
  }

  /** A commit appends to the inbox, and each row it appends is the first of its key in the
      batch and of none in the inbox. */
  lemma {:induction false} CommitAppends(inbox: seq<Record>, batch: seq<Record>)
    ensures var out := Commit(inbox, batch);
      && |inbox| <= |out| && out[..|inbox|] == inbox
      && forall i :: |inbox| <= i < |out| ==> !HasRecord(inbox, out[i].key) && FirstOfKey(batch, out[i])
  {
    if batch != [] {
      var n := |batch| - 1;
      CommitAppends(inbox, batch[..n]);
      var before, out := Commit(inbox, batch[..n]), Commit(inbox, batch);
      assert batch == batch[..n] + [batch[n]];
      forall i | |inbox| <= i < |out| ensures !HasRecord(inbox, out[i].key) && FirstOfKey(batch, out[i]) {
        if i < |before| {
          FirstStays(batch, before[i]);
        } else {
          CommitKeeps(inbox, batch[..n]);
          NewIsFirst(batch, before);
        }
      }
    }
  }

  predicate FirstOfKey(batch: seq<Record>, r: Record) {
    exists j :: 0 <= j < |batch| && batch[j] == r && forall k :: 0 <= k < j ==> batch[k].key != r.key
  }

  lemma FirstStays(batch: seq<Record>, r: Record)
    requires batch != [] && FirstOfKey(batch[..|batch| - 1], r)
    ensures FirstOfKey(batch, r)
  {
    var front := batch[..|batch| - 1];
    var j :| 0 <= j < |front| && front[j] == r && forall k :: 0 <= k < j ==> front[k].key != r.key;
    assert batch[j] == r && forall k :: 0 <= k < j ==> batch[k] == front[k];
  }

  lemma NewIsFirst(batch: seq<Record>, before: seq<Record>)
    requires batch != [] && !HasRecord(before, batch[|batch| - 1].key)
    requires forall r :: r in batch[..|batch| - 1] ==> HasRecord(before, r.key)
    ensures FirstOfKey(batch, batch[|batch| - 1])
  {
    var n := |batch| - 1;
    forall k | 0 <= k < n ensures batch[k].key != batch[n].key { assert batch[k] in batch[..n]; }
  }

  predicate UniqueRecords(inbox: seq<Record>) {
    forall i, j :: 0 <= i < j < |inbox| ==> inbox[i].key != inbox[j].key
  }

  lemma {:induction false} CommitKeeps(inbox: seq<Record>, batch: seq<Record>)
    ensures UniqueRecords(inbox) ==> UniqueRecords(Commit(inbox, batch))
    ensures forall k :: HasRecord(inbox, k) ==> HasRecord(Commit(inbox, batch), k)
    ensures forall r :: r in batch ==> HasRecord(Commit(inbox, batch), r.key)
  {
    if batch != [] {
      var n := |batch| - 1;
      CommitKeeps(inbox, batch[..n]);
      var before, after := Commit(inbox, batch[..n]), Commit(inbox, batch);
      assert batch == batch[..n] + [batch[n]];
      forall k | HasRecord(before, k) ensures HasRecord(after, k) {
        var i :| 0 <= i < |before| && before[i].key == k;
        assert after[i].key == k;
      }
      if after != before { assert after[|before|].key == batch[n].key; }
    }
  }

  // --------------------------------------------------- replaying a stored key

  /** Replaying a stored message leaves every row and every badge as it was. */
  lemma ReplayIsIdle(t: Tables, c: Jid, ins: Insert)
    requires Sound(t, c) && HasKey(Rows(t.messages, c), ins.message.sender, ins.message.id)
    ensures var u := InsertAndPrune(t, c, ins);
      && u.messages == t.messages && u.votes == t.votes && u.readers == t.readers
      && (forall d :: d in t.chats ==> d in u.chats && u.chats[d].unread == t.chats[d].unread)
  {
    var u := InsertMessage(t, c, ins);
    assert !Stores(t, c, ins);
    Effects.StoredAlready(t, c, ins);
    hide InsertMessage, Prune;
    PruneIdle(u, c);
  }


  // --------------------------------------------------- runs with crashes

  /** The store, the inbox, and the key stored but not yet finished, if any. */
  datatype System = System(tables: Tables, inbox: seq<Record>, unfinished: Option<Key>)

  /** A crash or a generation change may fall between any two of these. */
  datatype Step =
    | Committed(batch: seq<Record>)
    | Reduced(record: Record)
    | FinishedRow
    | Interrupted
    | Other(event: Event)

  ghost function Next(s: System, e: Step): System {
    match e
    case Committed(batch) => s.(inbox := Commit(s.inbox, batch))
    case Reduced(r) =>
      if r.arrival.None? then s
      else
        var x := r.arrival.value.content;
        System(After(s.tables, x), s.inbox, if Received(s.tables, x).accepted then Some(r.key) else None)
    case FinishedRow =>
      if s.unfinished.None? then s else System(s.tables, Finished(s.inbox, s.unfinished.value), None)
    case Interrupted => s.(unfinished := None)
    case Other(e) => s.(tables := Apply(s.tables, e))
  }

  ghost function Go(s: System, es: seq<Step>): System {
    if es == [] then s else Next(Go(s, es[..|es| - 1]), es[|es| - 1])
  }

  /** The store transactions a step performs. */
  ghost function StepEvents(s: System, e: Step): seq<Event> {
    if e.Reduced? && e.record.arrival.Some? then Received(s.tables, e.record.arrival.value.content).events
    else if e.Other? then [e.event]
    else []
  }

  ghost function Transactions(s: System, es: seq<Step>): seq<Event> {
    if es == [] then []
    else Transactions(s, es[..|es| - 1]) + StepEvents(Go(s, es[..|es| - 1]), es[|es| - 1])
  }

  lemma {:induction false} RunAppend(t: Tables, a: seq<Event>, b: seq<Event>)
    ensures Run(t, a + b) == Run(Run(t, a), b)
  {
    hide Apply;
    if b == [] {
      assert a + b == a;
    } else {
      RunAppend(t, a, b[..|b| - 1]);
      assert (a + b)[..|a + b| - 1] == a + b[..|b| - 1];
    }
  }

  lemma RunOne(t: Tables, e: Event)
    ensures Run(t, [e]) == Apply(t, e)
  {
    hide Apply;
    assert [e][..0] == [];
    assert Run(t, []) == t;
  }

  /** The tables of the system are those of a run of the store. */
  lemma {:induction false} GoIsRun(s: System, es: seq<Step>)
    ensures Go(s, es).tables == Run(s.tables, Transactions(s, es))
  {
    hide Apply, Received;
    if es != [] {
      var n := |es| - 1;
      GoIsRun(s, es[..n]);
      RunAppend(s.tables, Transactions(s, es[..n]), StepEvents(Go(s, es[..n]), es[n]));
      if es[n].Other? { RunOne(Go(s, es[..n]).tables, es[n].event); }
    }
  }

  predicate FinishesKey(s: System, e: Step, k: Key) {
    e.FinishedRow? && s.unfinished == Some(k)
  }

  /** The step reduces a row of the key, and the message is accepted. */
  predicate AcceptsKey(s: System, e: Step, k: Key) {
    && e.Reduced? && e.record.key == k && e.record.arrival.Some?
    && Received(s.tables, e.record.arrival.value.content).accepted
  }

  predicate Interrupts(e: Step) {
    e.Interrupted? || e.FinishedRow? || (e.Reduced? && e.record.arrival.Some?)
  }

  /** Step i accepted the key, and nothing interrupted it before step n. */
  ghost predicate AcceptedAt(s: System, es: seq<Step>, i: nat, n: nat, k: Key) {
    && i < n <= |es| && AcceptsKey(Go(s, es[..i]), es[i], k)
    && forall j :: i < j < n ==> !Interrupts(es[j])
  }

  lemma StepUnfinished(s: System, e: Step, k: Key)
    requires Next(s, e).unfinished == Some(k)
    ensures AcceptsKey(s, e, k) || (s.unfinished == Some(k) && !Interrupts(e))
  {
  }

  lemma AcceptedLonger(s: System, es: seq<Step>, n: nat, k: Key)
    requires |es| == n + 1 && !Interrupts(es[n]) && exists i :: AcceptedAt(s, es[..n], i, n, k)
    ensures exists i :: AcceptedAt(s, es, i, |es|, k)
  {
    var front := es[..n];
    var i: nat :| AcceptedAt(s, front, i, n, k);
    assert front[..i] == es[..i];
    assert forall j :: 0 <= j < |front| ==> front[j] == es[j];
    assert AcceptedAt(s, es, i, |es|, k);
  }

  lemma AcceptedNow(s: System, es: seq<Step>, k: Key)
    requires es != [] && AcceptsKey(Go(s, es[..|es| - 1]), es[|es| - 1], k)
    ensures exists i :: AcceptedAt(s, es, i, |es|, k)
  {
    assert AcceptedAt(s, es, |es| - 1, |es|, k);
  }

  /** What is unfinished was accepted earlier and not interrupted since. */
  lemma {:induction false} UnfinishedWasAccepted(s: System, es: seq<Step>, k: Key)
    requires s.unfinished.None? && Go(s, es).unfinished == Some(k)
    ensures exists i :: AcceptedAt(s, es, i, |es|, k)
  {
    hide Next, AcceptsKey;
    var front, e := es[..|es| - 1], es[|es| - 1];
    StepUnfinished(Go(s, front), e, k);
    if AcceptsKey(Go(s, front), e, k) {
      AcceptedNow(s, es, k);
    } else {
      UnfinishedWasAccepted(s, front, k);
      AcceptedLonger(s, es, |es| - 1, k);
    }
  }

  lemma StepKeepsRecord(s: System, e: Step, k: Key)
    requires HasRecord(s.inbox, k)
    ensures HasRecord(Next(s, e).inbox, k) || FinishesKey(s, e, k)
  {
    match e
    case Committed(batch) => CommitKeeps(s.inbox, batch);
    case FinishedRow =>
      if s.unfinished.Some? && s.unfinished.value != k {
        var i :| 0 <= i < |s.inbox| && s.inbox[i].key == k;
        var out := Finished(s.inbox, s.unfinished.value);
        assert s.inbox[i] in out;
        var j :| 0 <= j < |out| && out[j] == s.inbox[i];
      }
    case _ =>
  }

  /** Step n finishes the key, after an accepted reduction nothing interrupted. */
  ghost predicate FinishedAt(s: System, es: seq<Step>, n: nat, k: Key) {
    n < |es| && FinishesKey(Go(s, es[..n]), es[n], k) && exists i :: AcceptedAt(s, es, i, n, k)
  }

  lemma AcceptedExtends(s: System, es: seq<Step>, m: nat, n: nat, k: Key)
    requires m <= |es| && exists i :: AcceptedAt(s, es[..m], i, n, k)
    ensures exists i :: AcceptedAt(s, es, i, n, k)
  {
    var i: nat :| AcceptedAt(s, es[..m], i, n, k);
    assert forall j :: 0 <= j < m ==> es[..m][j] == es[j];
    assert es[..m][..i] == es[..i];
    assert AcceptedAt(s, es, i, n, k);
  }

  lemma FinishedAtExtends(s: System, es: seq<Step>, n: nat, k: Key)
    requires es != [] && FinishedAt(s, es[..|es| - 1], n, k)
    ensures FinishedAt(s, es, n, k)
  {
    var front := es[..|es| - 1];
    assert front[..n] == es[..n];
    AcceptedExtends(s, es, |es| - 1, n, k);
  }

  lemma FinishedLast(s: System, es: seq<Step>, k: Key)
    requires s.unfinished.None? && es != [] && FinishesKey(Go(s, es[..|es| - 1]), es[|es| - 1], k)
    ensures FinishedAt(s, es, |es| - 1, k)
  {
    hide Next, AcceptsKey;
    UnfinishedWasAccepted(s, es[..|es| - 1], k);
    AcceptedExtends(s, es, |es| - 1, |es| - 1, k);
  }

  /** However often the daemon crashes, a committed key stays in the inbox until an
      accepted reduction finishes it. */
  lemma {:induction false} CommittedUntilFinished(s: System, es: seq<Step>, k: Key)
    requires s.unfinished.None? && HasRecord(s.inbox, k)
    ensures HasRecord(Go(s, es).inbox, k) || exists n :: FinishedAt(s, es, n, k)
  {
    if es != [] {
      var last := |es| - 1;
      CommittedUntilFinished(s, es[..last], k);
      if HasRecord(Go(s, es[..last]).inbox, k) {
        StepKeepsRecord(Go(s, es[..last]), es[last], k);
        if FinishesKey(Go(s, es[..last]), es[last], k) { FinishedLast(s, es, k); }
      } else {
        var n: nat :| FinishedAt(s, es[..last], n, k);
        FinishedAtExtends(s, es, n, k);
      }
    }
  }

  lemma {:induction false} SystemSound(s: System, es: seq<Step>, c: Jid)
    requires Sound(s.tables, c)
    ensures Sound(Go(s, es).tables, c)
  {
    if es != [] {
      SystemSound(s, es[..|es| - 1], c);
      StepSound(Go(s, es[..|es| - 1]), es[|es| - 1], c);
    }
  }

  lemma StepSound(s: System, e: Step, c: Jid)
    requires Sound(s.tables, c)
    ensures Sound(Next(s, e).tables, c)
  {
    hide Sound, Apply;
    match e
    case Reduced(r) =>
      if r.arrival.Some? { RunSound(s.tables, Received(s.tables, r.arrival.value.content).events, c); }
    case Other(e) => ApplySound(s.tables, e, c);
    case _ =>
  }

  function Badge(t: Tables, c: Jid): nat {
    if c in t.chats then t.chats[c].unread else 0
  }

  /** Receiving a message raises the badge by one exactly when it is new, counts, and lies
      beyond the read boundary; and no other badge moves. */
  lemma ReductionBadge(t: Tables, c: Jid, ins: Insert)
    ensures var m := ins.message;
      Badge(InsertAndPrune(t, c, ins), c) == Badge(t, c) +
        if Effects.IsNew(t, c, m) && ins.incrementUnread && m.timestamp > Effects.ReadUpTo(t, c).0
           && m.id !in Effects.ReadUpTo(t, c).1 then 1 else 0
    ensures forall d :: d != c ==> Badge(InsertAndPrune(t, c, ins), d) == Badge(t, d)
  {
    hide InsertMessage;
    Effects.MessageTouches(t, c, ins);
    var u := InsertMessage(t, c, ins);
    forall d | d != c ensures Badge(u, d) == Badge(t, d) { assert Get(u.chats, d) == Get(t.chats, d); }
    assert InsertAndPrune(t, c, ins).chats == u.chats;
    hide Prune;
    if Effects.IsNew(t, c, ins.message) {
      Effects.NewMessage(t, c, ins);
    } else {
      Effects.OldMessage(t, c, ins);
    }
  }

  // --------------------------------------------------- one message

  lemma LearningRuns(t: Tables, a: Arrival)
    ensures Learned(t, a) ==
      if a.content.Broadcast? || a.pushName == a.sender then t else UpdateContactName(t, a.sender, a.pushName, 0)
  {
    if Learning(a) != [] { RunOne(t, Learning(a)[0]); }
  }

  /** The receiver's transactions, one after the other. */
  lemma ReceivedRuns(t: Tables, x: Content)
    ensures After(t, x) ==
      match x
      case Shown(c, ins) =>
        var u := InsertAndPrune(t, c, ins);
        if Stores(t, c, ins) || ins.message.media.None? then u
        else UpdateMedia(u, c, ins.message.id, ins.message.media.value)
      case Reacted(k, e) => Reactions.ApplyReaction(t, k, e)
      case Voted(v, legible) =>
        var card := Polls.Card(t, v.chat, v.id);
        if card.None? || !legible || |Told(v, card.value).selected| != |v.selected| then t
        else Polls.ApplyVote(t, Told(v, card.value))
      case _ => t
  {
    hide InsertAndPrune, UpdateMedia, Polls.ApplyVote, Polls.Card, Chosen, Stores, Reactions.ApplyReaction;
    match x
    case Shown(c, ins) => ShownRuns(t, c, ins);
    case Reacted(k, e) => RunOne(t, React(k, e));
    case Voted(v, legible) => VotedRuns(t, v, legible);
    case _ =>
  }

  lemma ShownRuns(t: Tables, c: Jid, ins: Insert)
    ensures After(t, Shown(c, ins)) ==
      var u := InsertAndPrune(t, c, ins);
      if Stores(t, c, ins) || ins.message.media.None? then u
      else UpdateMedia(u, c, ins.message.id, ins.message.media.value)
  {
    hide InsertAndPrune, UpdateMedia, Stores, Run;
    var es := Received(t, Shown(c, ins)).events;
    RunOne(t, es[0]);
    if |es| == 2 {
      RunTwo(t, es[0], es[1]);
      assert es == [es[0], es[1]];
    } else {
      assert es == [es[0]];
    }
  }

  lemma VotedRuns(t: Tables, v: Polls.VoteCall, legible: bool)
    ensures After(t, Voted(v, legible)) ==
      var card := Polls.Card(t, v.chat, v.id);
      if card.None? || !legible || |Told(v, card.value).selected| != |v.selected| then t
      else Polls.ApplyVote(t, Told(v, card.value))
  {
    assert Run(t, []) == t;
    hide Polls.ApplyVote, Polls.Card, Chosen, Run;
    var es := Received(t, Voted(v, legible)).events;
    if es != [] { RunOne(t, es[0]); }
  }

  lemma RunTwo(t: Tables, a: Event, b: Event)
    ensures Run(t, [a, b]) == Apply(Apply(t, a), b)
  {
    hide Apply, Run;
    assert [a, b] == [a] + [b];
    RunAppend(t, [a], [b]);
    RunOne(t, a);
    RunOne(Apply(t, a), b);
  }

  // --------------------------------------------------- draining the inbox

  /** The tables and inbox after reducing the listed rows, while `checks` more looks at the
      generation clock still find it current: one per row, one in the reducer, then those of
      the receiver, after it learns the sender's name. */
  ghost function Drained(t: Tables, inbox: seq<Record>, pending: seq<Record>, checks: nat): (Tables, seq<Record>)
    decreases |pending|
  {
    if pending == [] || checks == 0 then (t, inbox)
    else if pending[0].arrival.None? then Drained(t, inbox, pending[1..], checks - 1)
    else if checks < 2 then (t, inbox)
    else
      var x := pending[0].arrival.value.content;
      var named := Learned(t, pending[0].arrival.value);
      var o := Received(named, x);
      if checks < 2 + o.looks then (named, inbox)
      else Drained(After(named, x), if o.accepted then Finished(inbox, pending[0].key) else inbox, pending[1..],
                   checks - 2 - o.looks)
  }

  function NameStep(a: Arrival): seq<Step> {
    if Learning(a) == [] then [] else [Step.Other(Learning(a)[0])]
  }

  /** What the drain does, step by step: the name, the reduction, the inbox row. */
  ghost function DrainSteps(t: Tables, pending: seq<Record>, checks: nat): seq<Step>
    decreases |pending|
  {
    if pending == [] || checks == 0 then []
    else if pending[0].arrival.None? then DrainSteps(t, pending[1..], checks - 1)
    else if checks < 2 then []
    else
      var a := pending[0].arrival.value;
      var named := Learned(t, a);
      var o := Received(named, a.content);
      if checks < 2 + o.looks then NameStep(a)
      else
        NameStep(a) + [Reduced(pending[0]), FinishedRow]
        + DrainSteps(After(named, a.content), pending[1..], checks - 2 - o.looks)
  }

  lemma {:induction false} GoAppend(s: System, a: seq<Step>, b: seq<Step>)
    ensures Go(s, a + b) == Go(Go(s, a), b)
  {
    if b == [] {
      assert a + b == a;
    } else {
      GoAppend(s, a, b[..|b| - 1]);
      assert (a + b)[..|a + b| - 1] == a + b[..|b| - 1];
    }
  }

  lemma GoOne(s: System, e: Step)
    ensures Go(s, [e]) == Next(s, e)
  {
    assert [e][..0] == [];
    assert Go(s, []) == s;
  }

  lemma GoName(t: Tables, inbox: seq<Record>, a: Arrival)
    ensures Go(System(t, inbox, None), NameStep(a)) == System(Learned(t, a), inbox, None)
  {
    hide Apply;
    if NameStep(a) != [] {
      GoOne(System(t, inbox, None), NameStep(a)[0]);
      RunOne(t, Learning(a)[0]);
    }
  }

  /** One row reduced, and finished if it was accepted. */
  lemma GoRow(t: Tables, inbox: seq<Record>, r: Record)
    requires r.arrival.Some?
    ensures var a := r.arrival.value;
      var named := Learned(t, a);
      Go(System(t, inbox, None), NameStep(a) + [Reduced(r), FinishedRow])
      == System(After(named, a.content),
                if Received(named, a.content).accepted then Finished(inbox, r.key) else inbox, None)
  {
    var a, s := r.arrival.value, System(t, inbox, None);
    hide Received, After, Learned;
    GoAppend(s, NameStep(a), [Reduced(r), FinishedRow]);
    GoName(t, inbox, a);
    assert [Reduced(r), FinishedRow] == [Reduced(r)] + [FinishedRow];
    var named := System(Learned(t, a), inbox, None);
    GoAppend(named, [Reduced(r)], [FinishedRow]);
    GoOne(named, Reduced(r));
    GoOne(Next(named, Reduced(r)), FinishedRow);
  }

  /** A drain is a run: what it leaves is what its steps leave. */
  lemma {:induction false} DrainIsRun(t: Tables, inbox: seq<Record>, pending: seq<Record>, checks: nat)
    ensures Go(System(t, inbox, None), DrainSteps(t, pending, checks))
      == System(Drained(t, inbox, pending, checks).0, Drained(t, inbox, pending, checks).1, None)
    decreases |pending|
  {
    hide After, Next, Learned, Received;
    if pending != [] && checks > 0 {
      if pending[0].arrival.None? {
        DrainIsRun(t, inbox, pending[1..], checks - 1);
      } else if 2 <= checks {
        var r := pending[0];
        var a := r.arrival.value;
        var named := Learned(t, a);
        var o := Received(named, a.content);
        if checks < 2 + o.looks {
          GoName(t, inbox, a);
        } else {
          GoRow(t, inbox, r);
          var rest := DrainSteps(After(named, a.content), pending[1..], checks - 2 - o.looks);
          GoAppend(System(t, inbox, None), NameStep(a) + [Reduced(r), FinishedRow], rest);
          DrainIsRun(After(named, a.content), if o.accepted then Finished(inbox, r.key) else inbox, pending[1..],
                     checks - 2 - o.looks);
        }
      }
    }
  }

  /** The reductions of a drain are of rows it listed, and nothing interrupts them. */
  lemma {:induction false} DrainReducesListed(t: Tables, pending: seq<Record>, checks: nat)
    ensures forall i :: 0 <= i < |DrainSteps(t, pending, checks)| ==>
      var e := DrainSteps(t, pending, checks)[i];
      !e.Interrupted? && !e.Committed? && (e.Reduced? ==> e.record in pending && e.record.arrival.Some?)
    decreases |pending|
  {
    hide After, Learned, Received;
    if pending != [] && checks > 0 {
      if pending[0].arrival.None? {
        DrainReducesListed(t, pending[1..], checks - 1);
      } else {
        var a := pending[0].arrival.value;
        var o := Received(Learned(t, a), a.content);
        if checks >= 2 + o.looks {
          DrainReducesListed(After(Learned(t, a), a.content), pending[1..], checks - 2 - o.looks);
        }
      }
    }
  }

  /** Step i of the run accepted the row's message and performed its transactions, and a
      later step took the row's key out of the inbox. */
  ghost predicate Delivered(s: System, es: seq<Step>, i: nat, n: nat, r: Record) {
    && i < n < |es| && es[i] == Reduced(r) && AcceptsKey(Go(s, es[..i]), es[i], r.key)
    && Go(s, es[..i + 1]).tables == After(Go(s, es[..i]).tables, r.arrival.value.content)
    && FinishesKey(Go(s, es[..n]), es[n], r.key)
  }

  /** A drain cut short anywhere removes a row only after the message of a listed row with
      its key was accepted and went into the tables. */
  lemma DrainDelivers(t: Tables, inbox: seq<Record>, pending: seq<Record>, checks: nat, k: Key)
    returns (i: nat, n: nat, r: Record)
    requires HasRecord(inbox, k) && !HasRecord(Drained(t, inbox, pending, checks).1, k)
    ensures r in pending && r.key == k && Delivered(System(t, inbox, None), DrainSteps(t, pending, checks), i, n, r)
  {
    hide Received, Learned, Drained, DrainSteps, Go, Next, FinishedAt;
    var s, es := System(t, inbox, None), DrainSteps(t, pending, checks);
    DrainIsRun(t, inbox, pending, checks);
    CommittedUntilFinished(s, es, k);
    n :| FinishedAt(s, es, n, k);
    i := AcceptedBefore(s, es, n, k);
    DrainReducesListed(t, pending, checks);
    r := es[i].record;
  }

  lemma AcceptedBefore(s: System, es: seq<Step>, n: nat, k: Key) returns (i: nat)
    requires FinishedAt(s, es, n, k)
    ensures i < n < |es| && es[i].Reduced? && es[i].record.key == k && Delivered(s, es, i, n, es[i].record)
  {
    hide Received, After;
    i :| AcceptedAt(s, es, i, n, k);
    assert es[..i + 1][..i] == es[..i];
  }

  /** A drain keeps every chat sound. */
  lemma DrainSound(t: Tables, inbox: seq<Record>, pending: seq<Record>, checks: nat, c: Jid)
    requires Sound(t, c)
    ensures Sound(Drained(t, inbox, pending, checks).0, c)
  {
    DrainIsRun(t, inbox, pending, checks);
    SystemSound(System(t, inbox, None), DrainSteps(t, pending, checks), c);
  }

  /** The keys a drain in one generation accepts. */
  ghost function TakenKeys(t: Tables, pending: seq<Record>): set<Key>
    decreases |pending|
  {
    if pending == [] then {}
    else if pending[0].arrival.None? then TakenKeys(t, pending[1..])
    else
      var a := pending[0].arrival.value;
      var named := Learned(t, a);
      (if Received(named, a.content).accepted then {pending[0].key} else {})
      + TakenKeys(After(named, a.content), pending[1..])
  }

  /** A drain in one generation clears exactly the rows it accepts. */
  lemma {:induction false} DrainClears(t: Tables, inbox: seq<Record>, pending: seq<Record>, checks: nat)
    requires checks >= 4 * |pending|
    ensures forall r :: r in Drained(t, inbox, pending, checks).1 <==> r in inbox && r.key !in TakenKeys(t, pending)
    decreases |pending|
  {
    hide After, Learned;
    if pending != [] {
      if pending[0].arrival.None? {
        DrainClears(t, inbox, pending[1..], checks - 1);
      } else {
        var a := pending[0].arrival.value;
        var named := Learned(t, a);
        var o := Received(named, a.content);
        DrainClears(After(named, a.content), if o.accepted then Finished(inbox, pending[0].key) else inbox,
                    pending[1..], checks - 2 - o.looks);
      }
    }
  }

  /** Of the rows that decode only votes can be left. */
  lemma {:induction false} OnlyVotesStay(t: Tables, pending: seq<Record>)
    ensures forall r :: r in pending && r.arrival.Some? && !r.arrival.value.content.Voted? ==>
      r.key in TakenKeys(t, pending)
    ensures forall k :: k in TakenKeys(t, pending) ==> exists r :: r in pending && r.arrival.Some? && r.key == k
    decreases |pending|
  {
    hide After, Learned;
    if pending != [] {
      assert pending == [pending[0]] + pending[1..];
      if pending[0].arrival.None? {
        OnlyVotesStay(t, pending[1..]);
      } else {
        OnlyVotesStay(After(Learned(t, pending[0].arrival.value), pending[0].arrival.value.content), pending[1..]);
      }
    }
  }

  /** A message that changes the store needs a current generation four times, a reaction three
      times; a look too few and only the sender's name is learned, and the row stays. */
  lemma CutShort(t: Tables, r: Record, checks: nat)
    requires r.arrival.Some? && !r.arrival.value.content.Voted?
    ensures var a := r.arrival.value;
      var named := Learned(t, a);
      var needed := if a.content.Shown? then 4 else if a.content.Broadcast? then 2 else 3;
      && (2 <= checks < needed ==> Drained(t, [r], [r], checks) == (named, [r]))
      && (checks >= needed ==> Drained(t, [r], [r], checks) == (After(named, a.content), []))
  {
    hide After, Learned;
    assert [r][1..] == [] && [r][..0] == [];
    assert Finished([r], r.key) == [];
  }
}
