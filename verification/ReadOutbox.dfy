/** The durable queue of read receipts to send. */
module ReadOutbox {
  import opened Prelude
  import opened Schema
  import opened History

  datatype Batch = Batch(chat: Jid, receipts: seq<UnreadReceipt>)

  function QueueAll(queue: seq<PendingRead>, c: Jid, receipts: seq<UnreadReceipt>): seq<PendingRead> {
    if receipts == [] then queue
    else QueueMessage(QueueAll(queue, c, receipts[..|receipts| - 1]), c, receipts[|receipts| - 1])
  }

  function QueueReads(t: Tables, c: Jid, receipts: seq<UnreadReceipt>, at: int): Tables {
    t.(readChats := QueueChat(t.readChats, c, at), readMessages := QueueAll(t.readMessages, c, receipts))
  }

  function ReceiptsOf(queue: seq<PendingRead>, c: Jid): (out: seq<UnreadReceipt>)
    ensures forall r :: r in out <==> PendingRead(c, r) in queue
  {
    if queue == [] then []
    else
      var last := queue[|queue| - 1];
      assert queue == queue[..|queue| - 1] + [last];
      ReceiptsOf(queue[..|queue| - 1], c) + if last.chat == c then [last.receipt] else []
  }

  ghost function NextBatch(t: Tables): Option<Batch> {
    if t.readChats == map[] then None
    else Some(Batch(First(t.readChats), ReceiptsOf(t.readMessages, First(t.readChats))))
  }

  predicate InBatch(receipts: seq<UnreadReceipt>, sender: Jid, id: Id) {
    exists i :: 0 <= i < |receipts| && receipts[i].sender == sender && receipts[i].messageId == id
  }

  function Remaining(queue: seq<PendingRead>, c: Jid, receipts: seq<UnreadReceipt>): (out: seq<PendingRead>)
    ensures forall p :: p in out <==>
      p in queue && !(p.chat == c && InBatch(receipts, p.receipt.sender, p.receipt.messageId))
  {
    if queue == [] then []
    else
      var last := queue[|queue| - 1];
      assert queue == queue[..|queue| - 1] + [last];
      Remaining(queue[..|queue| - 1], c, receipts)
      + if last.chat == c && InBatch(receipts, last.receipt.sender, last.receipt.messageId) then [] else [last]
  }

  predicate ChatWaits(queue: seq<PendingRead>, c: Jid) {
    exists i :: 0 <= i < |queue| && queue[i].chat == c
  }

  function FinishBatch(t: Tables, b: Batch): Tables {
    var queue := Remaining(t.readMessages, b.chat, b.receipts);
    t.(readMessages := queue, readChats := if ChatWaits(queue, b.chat) then t.readChats else t.readChats - {b.chat})
  }

  /** The flag: the chat row was there and is gone. */
  predicate FinishRemoves(t: Tables, b: Batch) {
    b.chat in t.readChats && b.chat !in FinishBatch(t, b).readChats
  }

  // --------------------------------------------------- what the statements leave

  /** The chat is pending since the earliest time asked for, and every other as before. */
  lemma ReadsQueued(t: Tables, c: Jid, receipts: seq<UnreadReceipt>, at: int)
    ensures var u := QueueReads(t, c, receipts, at);
      && u == t.(readChats := u.readChats, readMessages := u.readMessages)
      && c in u.readChats && u.readChats[c] <= at && (c in t.readChats ==> u.readChats[c] <= t.readChats[c])
      && (u.readChats[c] == at || (c in t.readChats && u.readChats[c] == t.readChats[c]))
      && (forall d :: d != c ==> Get(u.readChats, d) == Get(t.readChats, d))
    ensures QueueReads(t, c, [], at).readMessages == t.readMessages
  {
    ChatQueued(t.readChats, c, at);
    hide QueueChat;
  }

  lemma ChatQueued(pending: map<Jid, int>, c: Jid, at: int)
    ensures var now := QueueChat(pending, c, at);
      && c in now && now[c] <= at && (c in pending ==> now[c] <= pending[c])
      && (now[c] == at || (c in pending && now[c] == pending[c]))
      && forall d :: d != c ==> Get(now, d) == Get(pending, d)
  {
  }

  /** The queue holds this receipt of the chat's. */
  predicate AlreadyQueued(queue: seq<PendingRead>, c: Jid, r: UnreadReceipt) {
    exists p :: p in queue && p.chat == c && p.receipt.sender == r.sender && p.receipt.messageId == r.messageId
  }

  /** A receipt goes to the end of the queue unless it is queued already. */
  lemma ReceiptQueued(t: Tables, c: Jid, receipts: seq<UnreadReceipt>, r: UnreadReceipt, at: int)
    ensures var queue := QueueReads(t, c, receipts, at).readMessages;
      QueueReads(t, c, receipts + [r], at).readMessages ==
        if AlreadyQueued(queue, c, r) then queue else queue + [PendingRead(c, r)]
  {
    assert (receipts + [r])[..|receipts|] == receipts;
    QueuedIsPending(QueueAll(t.readMessages, c, receipts), c, r);
    hide AlreadyQueued, IsPending;
  }

  lemma QueuedIsPending(queue: seq<PendingRead>, c: Jid, r: UnreadReceipt)
    ensures AlreadyQueued(queue, c, r) <==> IsPending(queue, c, r.sender, r.messageId)
  {
    if AlreadyQueued(queue, c, r) {
      var p :| p in queue && p.chat == c && p.receipt.sender == r.sender && p.receipt.messageId == r.messageId;
      var i :| 0 <= i < |queue| && queue[i] == p;
    }
    if IsPending(queue, c, r.sender, r.messageId) {
      var i :| 0 <= i < |queue| && queue[i].chat == c && queue[i].receipt.sender == r.sender
        && queue[i].receipt.messageId == r.messageId;
      assert queue[i] in queue;
    }
  }

  /** A chat's receipts are in the order of the queue. */
  lemma {:induction false} ReceiptsInOrder(a: seq<PendingRead>, b: seq<PendingRead>, c: Jid)
    ensures ReceiptsOf(a + b, c) == ReceiptsOf(a, c) + ReceiptsOf(b, c)
    decreases |b|
  {
    if b == [] {
      assert a + b == a;
    } else {
      hide ReceiptsOf;
      var n := |b| - 1;
      ReceiptsInOrder(a, b[..n], c);
      LastReceipt(b, c);
      LastReceipt(a + b, c);
      assert (a + b)[..|a + b| - 1] == a + b[..n];
    }
  }

  lemma LastReceipt(queue: seq<PendingRead>, c: Jid)
    requires queue != []
    ensures var last := queue[|queue| - 1];
      ReceiptsOf(queue, c) == ReceiptsOf(queue[..|queue| - 1], c) + if last.chat == c then [last.receipt] else []
  {
  }

  /** So is what a finished batch leaves. */
  lemma {:induction false} RemainingInOrder(a: seq<PendingRead>, b: seq<PendingRead>, c: Jid,
                                            receipts: seq<UnreadReceipt>)
    ensures Remaining(a + b, c, receipts) == Remaining(a, c, receipts) + Remaining(b, c, receipts)
    decreases |b|
  {
    hide Remaining, InBatch;
    if b == [] {
      NoneRemaining(c, receipts);
      assert a + b == a;
    } else {
      var n := |b| - 1;
      var front, last := Remaining(a, c, receipts), Remaining(b[..n], c, receipts);
      RemainingInOrder(a, b[..n], c, receipts);
      LastRemaining(b, c, receipts);
      assert (a + b)[..|a + b| - 1] == a + b[..n] && (a + b)[|a + b| - 1] == b[n];
      LastRemaining(a + b, c, receipts);
      assert (front + last) + [] == front + (last + []) && (front + last) + [b[n]] == front + (last + [b[n]]);
    }
  }

  lemma NoneRemaining(c: Jid, receipts: seq<UnreadReceipt>)
    ensures Remaining([], c, receipts) == []
  {
  }

  lemma LastRemaining(queue: seq<PendingRead>, c: Jid, receipts: seq<UnreadReceipt>)
    requires queue != []
    ensures var last := queue[|queue| - 1];
      Remaining(queue, c, receipts) == Remaining(queue[..|queue| - 1], c, receipts)
        + if last.chat == c && InBatch(receipts, last.receipt.sender, last.receipt.messageId) then [] else [last]
  {
    hide InBatch;
  }

  predicate HoldsReceipt(receipts: seq<UnreadReceipt>, sender: Jid, id: Id) {
    exists r :: r in receipts && r.sender == sender && r.messageId == id
  }

  lemma HeldIsIn(receipts: seq<UnreadReceipt>, sender: Jid, id: Id)
    ensures InBatch(receipts, sender, id) <==> HoldsReceipt(receipts, sender, id)
  {
    if HoldsReceipt(receipts, sender, id) {
      var r :| r in receipts && r.sender == sender && r.messageId == id;
      var i :| 0 <= i < |receipts| && receipts[i] == r;
    }
    if InBatch(receipts, sender, id) {
      var i :| 0 <= i < |receipts| && receipts[i].sender == sender && receipts[i].messageId == id;
      assert receipts[i] in receipts;
    }
  }

  /** Finishing a batch removes exactly its chat's receipts that it holds, by sender and id,
      and the chat exactly if none is left. */
  lemma BatchFinished(t: Tables, b: Batch)
    ensures var u := FinishBatch(t, b);
      && u == t.(readChats := u.readChats, readMessages := u.readMessages)
      && (forall p :: p in u.readMessages <==>
           p in t.readMessages &&
             !(p.chat == b.chat && HoldsReceipt(b.receipts, p.receipt.sender, p.receipt.messageId)))
      && (forall c :: c in u.readChats <==>
           c in t.readChats && (c == b.chat ==> exists p :: p in u.readMessages && p.chat == c))
      && (forall c :: c in u.readChats ==> u.readChats[c] == t.readChats[c])
  {
    var queue := Remaining(t.readMessages, b.chat, b.receipts);
    forall sender, id ensures InBatch(b.receipts, sender, id) <==> HoldsReceipt(b.receipts, sender, id) {
      HeldIsIn(b.receipts, sender, id);
    }
    hide InBatch, HoldsReceipt;
    assert ChatWaits(queue, b.chat) <==> exists p :: p in queue && p.chat == b.chat by {
      if i :| 0 <= i < |queue| && queue[i].chat == b.chat { assert queue[i] in queue; }
      if p :| p in queue && p.chat == b.chat { var i :| 0 <= i < |queue| && queue[i] == p; }
    }
  }

  // --------------------------------------------------- invariants

  /** PRIMARY KEY (chat_jid, sender_jid, message_id), and every message's chat is pending. */
  predicate Queued(t: Tables) {
    && (forall i :: 0 <= i < |t.readMessages| ==> t.readMessages[i].chat in t.readChats)
    && (forall i, j :: 0 <= i < j < |t.readMessages| ==>
         !(&& t.readMessages[i].chat == t.readMessages[j].chat
           && t.readMessages[i].receipt.sender == t.readMessages[j].receipt.sender
           && t.readMessages[i].receipt.messageId == t.readMessages[j].receipt.messageId))
  }

  lemma {:induction false} QueueKeeps(t: Tables, c: Jid, receipts: seq<UnreadReceipt>)
    requires Queued(t) && c in t.readChats
    ensures Queued(t.(readMessages := QueueAll(t.readMessages, c, receipts)))
    ensures forall r :: r in receipts ==> IsPending(QueueAll(t.readMessages, c, receipts), c, r.sender, r.messageId)
    ensures forall d, s, id :: IsPending(t.readMessages, d, s, id) ==>
      IsPending(QueueAll(t.readMessages, c, receipts), d, s, id)
  {
    if receipts != [] {
      var n := |receipts| - 1;
      assert receipts == receipts[..n] + [receipts[n]];
      QueueKeeps(t, c, receipts[..n]);
      QueueOneKeeps(t.(readMessages := QueueAll(t.readMessages, c, receipts[..n])), c, receipts[n]);
    }
  }

  lemma QueueOneKeeps(t: Tables, c: Jid, r: UnreadReceipt)
    requires Queued(t) && c in t.readChats
    ensures Queued(t.(readMessages := QueueMessage(t.readMessages, c, r)))
    ensures IsPending(QueueMessage(t.readMessages, c, r), c, r.sender, r.messageId)
    ensures forall d, s, id :: IsPending(t.readMessages, d, s, id) ==>
      IsPending(QueueMessage(t.readMessages, c, r), d, s, id)
  {
    var a, b := t.readMessages, QueueMessage(t.readMessages, c, r);
    forall d, s, id | IsPending(a, d, s, id) ensures IsPending(b, d, s, id) {
      var i :| 0 <= i < |a| && a[i].chat == d && a[i].receipt.sender == s && a[i].receipt.messageId == id;
      assert b[i] == a[i];
    }
    if b != a { assert b[|a|] == PendingRead(c, r); }
  }

  lemma {:induction false} RemainingUnique(t: Tables, c: Jid, receipts: seq<UnreadReceipt>)
    requires Queued(t)
    ensures Queued(t.(readMessages := Remaining(t.readMessages, c, receipts)))
    decreases |t.readMessages|
  {
    var q := t.readMessages;
    if q != [] {
      var n := |q| - 1;
      var front := t.(readMessages := q[..n]);
      RemainingUnique(front, c, receipts);
      var out := Remaining(q[..n], c, receipts);
      forall i | 0 <= i < |out| ensures out[i] in q[..n] {}
    }
  }

  lemma QueueReadsKeeps(t: Tables, c: Jid, receipts: seq<UnreadReceipt>, at: int)
    requires Queued(t)
    ensures Queued(QueueReads(t, c, receipts, at))
    ensures forall r :: r in receipts ==>
      IsPending(QueueReads(t, c, receipts, at).readMessages, c, r.sender, r.messageId)
  {
    QueueKeeps(t.(readChats := QueueChat(t.readChats, c, at)), c, receipts);
  }

  lemma FinishKeeps(t: Tables, b: Batch)
    requires Queued(t)
    ensures Queued(FinishBatch(t, b))
  {
    RemainingUnique(t, b.chat, b.receipts);
  }

  lemma InsertKeeps(t: Tables, c: Jid, ins: Insert)
    requires Queued(t)
    ensures Queued(InsertMessage(t, c, ins))
    ensures forall d, s, id :: IsPending(t.readMessages, d, s, id) ==>
      IsPending(InsertMessage(t, c, ins).readMessages, d, s, id)
    ensures ins.readIntent.Some? && !Suppressed(t, c, ins.message) ==>
      IsPending(InsertMessage(t, c, ins).readMessages, c, ins.readIntent.value.sender, ins.readIntent.value.messageId)
  {
    if ins.readIntent.Some? && !Suppressed(t, c, ins.message) {
      var u := t.(readChats := QueueChat(t.readChats, c, ins.message.timestamp));
      QueueOneKeeps(u, c, ins.readIntent.value);
    }
  }

  // --------------------------------------------------- nothing is lost

  datatype Action =
    | Queue(chat: Jid, receipts: seq<UnreadReceipt>, at: int)
    | Receive(c: Jid, ins: Insert)
    | Finish(batch: Batch)

  function Act(t: Tables, a: Action): Tables {
    match a
    case Queue(c, receipts, at) => QueueReads(t, c, receipts, at)
    case Receive(c, ins) => InsertMessage(t, c, ins)
    case Finish(b) => FinishBatch(t, b)
  }

  function ActAll(t: Tables, run: seq<Action>): Tables {
    if run == [] then t else Act(ActAll(t, run[..|run| - 1]), run[|run| - 1])
  }

  predicate Pending(t: Tables, c: Jid, sender: Jid, id: Id) {
    IsPending(t.readMessages, c, sender, id)
  }

  predicate Finishes(a: Action, c: Jid, sender: Jid, id: Id) {
    a.Finish? && a.batch.chat == c && InBatch(a.batch.receipts, sender, id)
  }

  lemma StillPending(t: Tables, a: Action, c: Jid, sender: Jid, id: Id)
    requires Queued(t)
    ensures Queued(Act(t, a))
    ensures Pending(t, c, sender, id) ==> Pending(Act(t, a), c, sender, id) || Finishes(a, c, sender, id)
  {
    match a
    case Queue(d, receipts, at) =>
      QueueReadsKeeps(t, d, receipts, at);
      QueueKeeps(t.(readChats := QueueChat(t.readChats, d, at)), d, receipts);
    case Receive(d, ins) => InsertKeeps(t, d, ins);
    case Finish(b) =>
      FinishKeeps(t, b);
      if Pending(t, c, sender, id) && !Finishes(a, c, sender, id) {
        var q := t.readMessages;
        var i :| 0 <= i < |q| && q[i].chat == c && q[i].receipt.sender == sender && q[i].receipt.messageId == id;
        assert q[i] in Remaining(q, b.chat, b.receipts);
      }
  }

  /** A pending receipt stays pending until a batch that holds it is finished, and the
      chat of every pending receipt stays pending. */
  lemma {:induction false} NothingIsLost(t: Tables, run: seq<Action>, c: Jid, sender: Jid, id: Id)
    requires Queued(t) && Pending(t, c, sender, id)
    ensures Queued(ActAll(t, run))
    ensures Pending(ActAll(t, run), c, sender, id) || exists i :: 0 <= i < |run| && Finishes(run[i], c, sender, id)
  {
    if run != [] {
      var n := |run| - 1;
      NothingIsLost(t, run[..n], c, sender, id);
      StillPending(ActAll(t, run[..n]), run[n], c, sender, id);
      if i :| 0 <= i < n && Finishes(run[..n][i], c, sender, id) { assert Finishes(run[i], c, sender, id); }
    }
  }

  /** What is queued while a batch is on the wire outlives that batch. */
  lemma LateReceiptSurvives(t: Tables, late: seq<UnreadReceipt>, at: int, r: UnreadReceipt)
    requires Queued(t) && NextBatch(t).Some?
    requires r in late && !InBatch(NextBatch(t).value.receipts, r.sender, r.messageId)
    ensures var b := NextBatch(t).value;
      var u := FinishBatch(QueueReads(t, b.chat, late, at), b);
      Pending(u, b.chat, r.sender, r.messageId) && b.chat in u.readChats
  {
    var b := NextBatch(t).value;
    var q := QueueReads(t, b.chat, late, at);
    QueueReadsKeeps(t, b.chat, late, at);
    StillPending(q, Finish(b), b.chat, r.sender, r.messageId);
  }

  // --------------------------------------------------- draining

  /** With nothing new queued, finishing the next batch retires its chat and nothing else. */
  lemma NextBatchRetiresChat(t: Tables)
    requires Queued(t) && NextBatch(t).Some?
    ensures var b := NextBatch(t).value; var u := FinishBatch(t, b);
      && u.readChats == t.readChats - {b.chat} && |u.readChats| < |t.readChats|
      && forall p :: p in u.readMessages <==> p in t.readMessages && p.chat != b.chat
  {
    var b := NextBatch(t).value;
    var u := FinishBatch(t, b);
    forall p | p in t.readMessages && p.chat == b.chat
      ensures InBatch(b.receipts, p.receipt.sender, p.receipt.messageId)
    {
      assert PendingRead(b.chat, p.receipt) == p;
      assert p.receipt in b.receipts;
    }
    forall i | 0 <= i < |u.readMessages| ensures u.readMessages[i].chat != b.chat {
      assert u.readMessages[i] in u.readMessages;
    }
    assert (t.readChats - {b.chat}).Keys == t.readChats.Keys - {b.chat};
  }

  ghost function Drain(t: Tables): Tables
    requires Queued(t)
    decreases |t.readChats|
  {
    if NextBatch(t).None? then t
    else
      NextBatchRetiresChat(t);
      FinishKeeps(t, NextBatch(t).value);
      Drain(FinishBatch(t, NextBatch(t).value))
  }

  /** The send loop ends with both queues empty. */
  lemma {:induction false} DrainEmpties(t: Tables)
    requires Queued(t)
    ensures Drain(t) == t.(readChats := map[], readMessages := [])
    decreases |t.readChats|
  {
    assert t.readMessages != [] ==> t.readMessages[0].chat in t.readChats;
    if NextBatch(t).Some? {
      NextBatchRetiresChat(t);
      FinishKeeps(t, NextBatch(t).value);
      DrainEmpties(FinishBatch(t, NextBatch(t).value));
    }
  }
}
