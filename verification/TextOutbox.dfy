/** The durable queue of text messages to send. */
module TextOutbox {
  import opened Prelude

  type DeliveryId = string

  datatype Payload = Payload(chat: string, text: string, messageId: string, mentions: seq<string>,
                             quote: Option<string>)

  datatype Status = Queued | Sending | Failed

  datatype Entry = Entry(payload: Payload, status: Status, error: Option<string>, createdAt: int)

  type Table = map<DeliveryId, Entry>

  datatype EnqueueError = DeliveryIdTaken

  const FAILURES_KEPT := 32

  // --------------------------------------------------- the statements

  function WithStatus(t: Table, s: Status): (out: map<DeliveryId, int>) {
    map id | id in t && t[id].status == s :: t[id].createdAt
  }

  /** Newest failures first; SQL leaves ties open, here the delivery id breaks them. */
  ghost function FailuresNewestFirst(t: Table): seq<DeliveryId> {
    Listing(map id | id in t && t[id].status == Failed :: -t[id].createdAt)
  }

  /** The failures past the newest 32. */
  ghost function Evicted(t: Table): set<DeliveryId> {
    var order := FailuresNewestFirst(t);
    set i | FAILURES_KEPT <= i < |order| :: order[i]
  }

  ghost function Enqueue(t: Table, id: DeliveryId, p: Payload, at: int): Table {
    if id in t then t
    else
      var u := t[id := Entry(p, Queued, None, at)];
      u - Evicted(u)
  }

  /** `ORDER BY created_at, delivery_id LIMIT 1` over the queued entries. */
  ghost function NextQueued(t: Table): Option<DeliveryId> {
    if WithStatus(t, Queued) == map[] then None else Some(First(WithStatus(t, Queued)))
  }

  function Marked(t: Table, id: DeliveryId, s: Status, error: Option<string>): Table
    requires id in t
  {
    t[id := t[id].(status := s, error := error)]
  }

  ghost function Claim(t: Table): Table {
    if NextQueued(t).None? then t else Marked(t, NextQueued(t).value, Sending, None)
  }

  predicate In(t: Table, id: DeliveryId, s: Status) {
    id in t && t[id].status == s
  }

  function Fail(t: Table, id: DeliveryId, error: string): Table {
    if In(t, id, Sending) then Marked(t, id, Failed, Some(error)) else t
  }

  function Retry(t: Table, id: DeliveryId): Table {
    if In(t, id, Failed) then Marked(t, id, Queued, None) else t
  }

  /** `status IN (1, 2)`. */
  function Retryable(t: Table): set<DeliveryId> {
    set id | id in t && t[id].status != Queued
  }

  function RetryAll(t: Table): Table {
    map id | id in t :: if t[id].status == Queued then t[id] else t[id].(status := Queued, error := None)
  }

  function Complete(t: Table, id: DeliveryId): Table {
    if In(t, id, Sending) then t - {id} else t
  }

  function Discard(t: Table, id: DeliveryId): Table {
    if In(t, id, Queued) || In(t, id, Failed) then t - {id} else t
  }

  /** `open`: an interrupted delivery becomes retryable. */
  function Restart(t: Table): Table {
    map id | id in t :: if t[id].status == Sending then t[id].(status := Queued, error := None) else t[id]
  }

  // --------------------------------------------------- runs

  datatype Event =
    | Enqueued(id: DeliveryId, payload: Payload, at: int)
    | Claimed
    | FailedWith(id: DeliveryId, error: string)
    | Retried(id: DeliveryId)
    | AllRetried
    | Completed(id: DeliveryId)
    | Discarded(id: DeliveryId)
    | Restarted

  ghost function Apply(t: Table, e: Event): Table {
    match e
    case Enqueued(id, p, at) => Enqueue(t, id, p, at)
    case Claimed => Claim(t)
    case FailedWith(id, error) => Fail(t, id, error)
    case Retried(id) => Retry(t, id)
    case AllRetried => RetryAll(t)
    case Completed(id) => Complete(t, id)
    case Discarded(id) => Discard(t, id)
    case Restarted => Restart(t)
  }

  ghost function Run(t: Table, es: seq<Event>): Table {
    if es == [] then t else Apply(Run(t, es[..|es| - 1]), es[|es| - 1])
  }

  /** How many failures are newer than this one, in the eviction order. */
  ghost function NewerFailures(t: Table, id: DeliveryId): set<DeliveryId>
    requires id in t
  {
    set j | j in t && t[j].status == Failed && j != id && Before(-t[j].createdAt, j, -t[id].createdAt, id)
  }

  /** The ways an entry may leave: sent, discarded, or one of too many old failures. */
  ghost predicate MayLeave(t: Table, e: Event, id: DeliveryId)
    requires id in t
  {
    || (e == Completed(id) && t[id].status == Sending)
    || (e == Discarded(id) && t[id].status != Sending)
    || (e.Enqueued? && e.id !in t && t[id].status == Failed && |NewerFailures(t, id)| >= 32)
  }

  /** The eviction order has exactly the newer failures ahead of an entry. */
  lemma EvictedIsOld(t: Table, id: DeliveryId)
    ensures id in Evicted(t) ==> In(t, id, Failed) && |NewerFailures(t, id)| >= 32
    ensures In(t, id, Failed) && id !in Evicted(t) ==> |NewerFailures(t, id)| < 32
  {
    var m := map id | id in t && t[id].status == Failed :: -t[id].createdAt;
    var order := Listing(m);
    ListingIsSorted(m);
    if id in Evicted(t) { assert id in order && id in m; }
    if In(t, id, Failed) {
      assert id in m;
      var i :| 0 <= i < |order| && order[i] == id;
      RankIsIndex(t, m, order, i);
    }
  }

  lemma RankIsIndex(t: Table, m: map<DeliveryId, int>, order: seq<DeliveryId>, i: nat)
    requires m == map id | id in t && t[id].status == Failed :: -t[id].createdAt
    requires Lists(order, m.Keys) && Ordered(order, m) && i < |order| && order[i] in t
    ensures |NewerFailures(t, order[i])| == i
    ensures forall j :: 0 <= j < |order| && order[j] == order[i] ==> j == i
  {
    var ahead := set j | 0 <= j < i :: order[j];
    forall k ensures k in ahead <==> k in NewerFailures(t, order[i]) {
      if k in NewerFailures(t, order[i]) {
        assert k in m && k in order;
        var j :| 0 <= j < |order| && order[j] == k;
        if j > i { BeforeAsymmetric(m[order[i]], order[i], m[k], k); }
      }
    }
    assert ahead == NewerFailures(t, order[i]);
    PrefixSize(order, i);
  }

  lemma BeforeAsymmetric(t: int, a: string, u: int, b: string)
    requires Before(t, a, u, b)
    ensures !Before(u, b, t, a)
  {
    StrLessTotal(a, b);
  }

  lemma {:induction false} PrefixSize(order: seq<DeliveryId>, i: nat)
    requires i <= |order| && forall a, b :: 0 <= a < b < |order| ==> order[a] != order[b]
    ensures |set j | 0 <= j < i :: order[j]| == i
  {
    if i > 0 {
      PrefixSize(order, i - 1);
      assert (set j | 0 <= j < i :: order[j]) == (set j | 0 <= j < i - 1 :: order[j]) + {order[i - 1]};
    }
  }

  /** One step keeps every payload, and lets an entry go only in the permitted ways. */
  lemma StepConserves(t: Table, e: Event, id: DeliveryId)
    requires id in t
    ensures id in Apply(t, e) ==>
      Apply(t, e)[id].payload == t[id].payload && Apply(t, e)[id].createdAt == t[id].createdAt
    ensures id !in Apply(t, e) ==> MayLeave(t, e, id)
  {
    if e.Enqueued? && e.id !in t {
      var u := t[e.id := Entry(e.payload, Queued, None, e.at)];
      EvictedIsOld(u, id);
      assert NewerFailures(u, id) == NewerFailures(t, id);
    }
  }

  /** The entry came through n steps with its payload, and the next may let it go. */
  ghost predicate LeavesAt(t: Table, es: seq<Event>, n: nat, id: DeliveryId)
    requires id in t && n < |es|
  {
    var u := Run(t, es[..n]);
    id in u && u[id].payload == t[id].payload && MayLeave(u, es[n], id)
  }

  /** Over a whole run a present entry keeps its payload; if it is gone, some step let it
      go in a permitted way. */
  lemma {:induction false} RunConserves(t: Table, es: seq<Event>, id: DeliveryId)
    requires id in t
    ensures (id in Run(t, es) && Run(t, es)[id].payload == t[id].payload)
         || exists n :: 0 <= n < |es| && LeavesAt(t, es, n, id)
  {
    hide MayLeave, Apply;
    if es != [] {
      var last := |es| - 1;
      var front := es[..last];
      RunConserves(t, front, id);
      if n :| 0 <= n < last && LeavesAt(t, front, n, id) {
        assert front[..n] == es[..n] && front[n] == es[n];
        assert LeavesAt(t, es, n, id);
      } else {
        StepConserves(Run(t, front), es[last], id);
        assert id in Run(t, es) || LeavesAt(t, es, last, id);
      }
    }
  }

  // --------------------------------------------------- one entry, statement by statement

  /** All other entries are as they were. */
  ghost predicate OthersStay(t: Table, u: Table, id: DeliveryId) {
    forall j :: j != id ==> (j in u <==> j in t) && (j in t ==> u[j] == t[j])
  }

  /** After `retry_all` every entry is queued; what was in flight or had failed has no error
      any more, and no entry, payload or creation time is lost or changed. */
  lemma AllRearmed(t: Table, id: DeliveryId)
    ensures id in RetryAll(t) <==> id in t
    ensures id in t ==>
      && RetryAll(t)[id].status == Queued
      && RetryAll(t)[id].payload == t[id].payload && RetryAll(t)[id].createdAt == t[id].createdAt
      && RetryAll(t)[id].error == if t[id].status == Queued then t[id].error else None
  {
  }

  /** A failure is recorded on an entry in flight, with its error, and on no other. */
  lemma FailureRecorded(t: Table, id: DeliveryId, error: string)
    ensures OthersStay(t, Fail(t, id, error), id)
    ensures id in t && t[id].status == Sending ==>
      EntryOf(Fail(t, id, error), id) == Some(Entry(t[id].payload, Failed, Some(error), t[id].createdAt))
    ensures id in t && t[id].status != Sending ==> EntryOf(Fail(t, id, error), id) == Some(t[id])
    ensures id !in t ==> id !in Fail(t, id, error)
  {
  }

  /** A retry queues a failed entry again without its error, and no other. */
  lemma FailureRetried(t: Table, id: DeliveryId)
    ensures OthersStay(t, Retry(t, id), id)
    ensures id in t && t[id].status == Failed ==>
      EntryOf(Retry(t, id), id) == Some(Entry(t[id].payload, Queued, None, t[id].createdAt))
    ensures id in t && t[id].status != Failed ==> EntryOf(Retry(t, id), id) == Some(t[id])
    ensures id !in t ==> id !in Retry(t, id)
  {
  }

  /** Completion removes an entry in flight, a discard any other; neither touches the rest. */
  lemma EntryLeaves(t: Table, id: DeliveryId)
    ensures OthersStay(t, Complete(t, id), id) && OthersStay(t, Discard(t, id), id)
    ensures id in Complete(t, id) <==> id in t && t[id].status != Sending
    ensures id in Discard(t, id) <==> id in t && t[id].status == Sending
    ensures id in Complete(t, id) ==> Complete(t, id)[id] == t[id]
    ensures id in Discard(t, id) ==> Discard(t, id)[id] == t[id]
  {
  }

  /** A new delivery is queued without error; of the others only failures can go, and those
      that stay are as they were. A known one changes nothing. */
  lemma DeliveryQueued(t: Table, id: DeliveryId, p: Payload, at: int)
    ensures id in t ==> Enqueue(t, id, p, at) == t
    ensures id !in t ==> EntryOf(Enqueue(t, id, p, at), id) == Some(Entry(p, Queued, None, at))
    ensures forall j :: j in Enqueue(t, id, p, at) && j != id ==> j in t && Enqueue(t, id, p, at)[j] == t[j]
    ensures forall j :: j in t && t[j].status != Failed ==> j in Enqueue(t, id, p, at)
  {
    if id !in t {
      var u := t[id := Entry(p, Queued, None, at)];
      forall j | j in u && u[j].status != Failed ensures j !in Evicted(u) { EvictedIsOld(u, j); }
    }
  }

  /** The claimed entry is in flight without error, and the rest as it was. */
  lemma EntryClaimed(t: Table, id: DeliveryId)
    requires NextQueued(t) == Some(id)
    ensures id in t && t[id].status == Queued && OthersStay(t, Claim(t), id)
    ensures EntryOf(Claim(t), id) == Some(Entry(t[id].payload, Sending, None, t[id].createdAt))
  {
    var m := WithStatus(t, Queued);
    FirstExists(m);
  }

  /** Exactly the failed entries carry an error. */
  predicate ErrorsAreFailures(t: Table) {
    forall id :: id in t ==> (t[id].error.Some? <==> t[id].status == Failed)
  }

  /** That is so in every state the outbox reaches, so a reconnect leaves no error behind. */
  lemma {:induction false} ErrorsStayFailures(t: Table, es: seq<Event>)
    requires ErrorsAreFailures(t)
    ensures ErrorsAreFailures(Run(t, es))
    ensures forall id :: id in RetryAll(Run(t, es)) ==> RetryAll(Run(t, es))[id].error == None
  {
    if es != [] {
      var n := |es| - 1;
      ErrorsStayFailures(t, es[..n]);
      StepErrors(Run(t, es[..n]), es[n]);
    }
  }

  lemma StepErrors(t: Table, e: Event)
    requires ErrorsAreFailures(t)
    ensures ErrorsAreFailures(Apply(t, e))
  {
    match e
    case Enqueued(id, p, at) => DeliveryQueued(t, id, p, at);
    case Claimed => if NextQueued(t).Some? { EntryClaimed(t, NextQueued(t).value); }
    case _ =>
  }

  function EntryOf(t: Table, id: DeliveryId): Option<Entry> {
    if id in t then Some(t[id]) else None
  }

  // --------------------------------------------------- accounting

  datatype Item = Item(id: DeliveryId, payload: Payload)

  ghost function Items(t: Table): multiset<Item> {
    multiset(ItemSet(t))
  }

  /** What an event brings in and what it lets go. */
  ghost function Accepted(t: Table, e: Event): multiset<Item> {
    if e.Enqueued? && e.id !in t then multiset{Item(e.id, e.payload)} else multiset{}
  }

  ghost function Departed(t: Table, e: Event): multiset<Item> {
    multiset(GoneSet(t, Apply(t, e)))
  }

  ghost function AllAccepted(t: Table, es: seq<Event>): multiset<Item> {
    if es == [] then multiset{} else AllAccepted(t, es[..|es| - 1]) + Accepted(Run(t, es[..|es| - 1]), es[|es| - 1])
  }

  ghost function AllDeparted(t: Table, es: seq<Event>): multiset<Item> {
    if es == [] then multiset{} else AllDeparted(t, es[..|es| - 1]) + Departed(Run(t, es[..|es| - 1]), es[|es| - 1])
  }

  ghost function ItemSet(t: Table): set<Item> {
    set id | id in t :: Item(id, t[id].payload)
  }

  ghost function GoneSet(t: Table, u: Table): set<Item> {
    set id | id in t && id !in u :: Item(id, t[id].payload)
  }

  /** What is present afterwards and what is gone make up what was present and the newcomer. */
  lemma ItemsSplit(t: Table, u: Table, came: set<Item>)
    requires forall id :: id in t && id in u ==> u[id].payload == t[id].payload
    requires forall id :: id in u && id !in t ==> Item(id, u[id].payload) in came
    requires forall i :: i in came ==> i.id !in t && i.id in u && u[i.id].payload == i.payload
    ensures ItemSet(u) + GoneSet(t, u) == ItemSet(t) + came
    ensures ItemSet(u) !! GoneSet(t, u) && ItemSet(t) !! came
  {
    forall x ensures x in ItemSet(u) + GoneSet(t, u) <==> x in ItemSet(t) + came {
      if x in came { assert x == Item(x.id, u[x.id].payload); }
    }
  }

  lemma DisjointSum<T>(a: set<T>, b: set<T>)
    requires a !! b
    ensures multiset(a + b) == multiset(a) + multiset(b)
  {
  }

  lemma StepBalances(t: Table, e: Event)
    ensures Items(Apply(t, e)) + Departed(t, e) == Items(t) + Accepted(t, e)
  {
    var u := Apply(t, e);
    forall id | id in t && id in u ensures u[id].payload == t[id].payload { StepConserves(t, e, id); }
    NewcomerStays(t, e);
    var came := if e.Enqueued? && e.id !in t then {Item(e.id, e.payload)} else {};
    ItemsSplit(t, u, came);
    DisjointSum(ItemSet(u), GoneSet(t, u));
    DisjointSum(ItemSet(t), came);
    assert Accepted(t, e) == multiset(came);
  }

  lemma NewcomerStays(t: Table, e: Event)
    ensures forall id :: id in Apply(t, e) && id !in t ==>
      e.Enqueued? && e.id == id && Apply(t, e)[id].payload == e.payload
    ensures e.Enqueued? ==> e.id in Apply(t, e) && (e.id !in t ==> Apply(t, e)[e.id].payload == e.payload)
  {
    if e.Enqueued? && e.id !in t {
      EvictedIsOld(t[e.id := Entry(e.payload, Queued, None, e.at)], e.id);
    }
  }

  lemma Shuffle<T>(now: multiset<T>, gone: multiset<T>, before: multiset<T>, came: multiset<T>,
                   allGone: multiset<T>, start: multiset<T>, allCame: multiset<T>)
    requires now + gone == before + came && before + allGone == start + allCame
    ensures now + (allGone + gone) == start + (allCame + came)
  {
    assert now + (allGone + gone) == (now + gone) + allGone;
    assert (before + came) + allGone == (before + allGone) + came;
  }

  /** Conservation: what is present and what has left are what was there and what was accepted. */
  lemma {:induction false} OutboxBalances(t: Table, es: seq<Event>)
    ensures Items(Run(t, es)) + AllDeparted(t, es) == Items(t) + AllAccepted(t, es)
  {
    if es != [] {
      var front, e := es[..|es| - 1], es[|es| - 1];
      OutboxBalances(t, front);
      StepBalances(Run(t, front), e);
      Shuffle(Items(Run(t, es)), Departed(Run(t, front), e), Items(Run(t, front)), Accepted(Run(t, front), e),
              AllDeparted(t, front), Items(t), AllAccepted(t, front));
    }
  }

  /** A claim takes the queued entry that is first by creation time, then by id. */
  lemma ClaimsInOrder(t: Table, id: DeliveryId)
    requires In(t, id, Queued)
    ensures NextQueued(t).Some? && In(t, NextQueued(t).value, Queued)
    ensures var next := NextQueued(t).value;
      next == id || Before(t[next].createdAt, next, t[id].createdAt, id)
    ensures Claim(t) == t[NextQueued(t).value := t[NextQueued(t).value].(status := Sending, error := None)]
  {
    assert id in WithStatus(t, Queued);
  }

  /** A restart loses nothing and leaves nothing in flight. */
  lemma RestartRecovers(t: Table)
    ensures Restart(t).Keys == t.Keys
    ensures forall id :: id in t ==> Restart(t)[id].status != Sending && Restart(t)[id].payload == t[id].payload
    ensures forall id :: id in t && t[id].status != Sending ==> Restart(t)[id] == t[id]
  {
  }

  // --------------------------------------------------- the table itself

  class Outbox {
    var entries: Table

    constructor ()
      ensures entries == map[]
    {
      entries := map[];
    }

    method EnqueueTextMessage(id: DeliveryId, payload: Payload, createdAt: int) returns (r: Result<bool, EnqueueError>)
      modifies this
      ensures r.Err? <==> id in old(entries) && old(entries)[id].payload != payload
      ensures r.Ok? ==> r.value == (id !in old(entries))
      ensures entries == if r.Ok? then Enqueue(old(entries), id, payload, createdAt) else old(entries)
    {
      if id in entries {
        if entries[id].payload != payload {
          return Err(DeliveryIdTaken);
        }
        return Ok(false);
      }
      entries := entries[id := Entry(payload, Queued, None, createdAt)];
      Evict();
      r := Ok(true);
    }

    /** Past the newest 32 the failures go. */
    method Evict()
      modifies this
      ensures entries == old(entries) - Evicted(old(entries))
    {
      var failures := map i | i in entries && entries[i].status == Failed :: -entries[i].createdAt;
      var order := SelectAll(failures);
      ghost var stored := entries;
      var n := FAILURES_KEPT;
      while n < |order|
        invariant FAILURES_KEPT <= n
        invariant entries == stored - set i | FAILURES_KEPT <= i < n && i < |order| :: order[i]
      {
        entries := entries - {order[n]};
        n := n + 1;
      }
      assert order == FailuresNewestFirst(stored);
    }

    method ClaimTextMessage() returns (claimed: Option<DeliveryId>)
      modifies this
      ensures claimed == NextQueued(old(entries))
      ensures entries == Claim(old(entries))
    {
      var queued := WithStatus(entries, Queued);
      if queued == map[] {
        return None;
      }
      var id := SelectFirst(queued);
      entries := entries[id := entries[id].(status := Sending, error := None)];
      claimed := Some(id);
    }

    method FailTextMessage(id: DeliveryId, error: string) returns (changed: bool)
      modifies this
      ensures entries == Fail(old(entries), id, error) && changed == old(In(entries, id, Sending))
    {
      changed := id in entries && entries[id].status == Sending;
      if changed {
        entries := entries[id := entries[id].(status := Failed, error := Some(error))];
      }
    }

    method RetryTextMessage(id: DeliveryId) returns (changed: bool)
      modifies this
      ensures entries == Retry(old(entries), id) && changed == old(In(entries, id, Failed))
    {
      changed := id in entries && entries[id].status == Failed;
      if changed {
        entries := entries[id := entries[id].(status := Queued, error := None)];
      }
    }

    method RetryAllTextMessages() returns (count: nat)
      modifies this
      ensures entries == RetryAll(old(entries))
      ensures count == |Retryable(old(entries))|
    {
      var due := Retryable(entries);
      count := |due|;
      ghost var start := entries;
      var left := due;
      while left != {}
        invariant left <= due && entries.Keys == start.Keys
        invariant forall id :: id in entries ==>
          entries[id] == if id in due - left then start[id].(status := Queued, error := None) else start[id]
      {
        var id :| id in left;
        entries := entries[id := entries[id].(status := Queued, error := None)];
        left := left - {id};
      }
      assert entries.Keys == RetryAll(start).Keys;
      assert forall id :: id in entries ==> entries[id] == RetryAll(start)[id];
    }

    method CompleteTextMessage(id: DeliveryId) returns (changed: bool)
      modifies this
      ensures entries == Complete(old(entries), id) && changed == old(In(entries, id, Sending))
    {
      changed := id in entries && entries[id].status == Sending;
      if changed {
        entries := entries - {id};
      }
    }

    method DiscardTextMessage(id: DeliveryId) returns (changed: bool)
      modifies this
      ensures entries == Discard(old(entries), id) &&
        changed == (id in old(entries) && old(entries)[id].status != Sending)
    {
      changed := id in entries && entries[id].status != Sending;
      if changed {
        entries := entries - {id};
      }
    }

    /** The recovery `open` runs before anything else. */
    method Recover()
      modifies this
      ensures entries == Restart(old(entries))
    {
      var due := set id | id in entries && entries[id].status == Sending;
      ghost var start := entries;
      var left := due;
      while left != {}
        invariant left <= due && entries.Keys == start.Keys
        invariant forall id :: id in entries ==>
          entries[id] == if id in due - left then start[id].(status := Queued, error := None) else start[id]
      {
        var id :| id in left;
        entries := entries[id := entries[id].(status := Queued, error := None)];
        left := left - {id};
      }
    }
  }
}
