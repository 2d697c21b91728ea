/** The inbox table, and the reducer that empties it into the history database. */
module Reducer {
  import opened Prelude
  import opened Schema
  import opened History
  import opened Inbound
  import Polls
  import Store

  class Inbox {
    var rows: seq<Record>

    constructor ()
      ensures rows == []
    {
      rows := [];
    }

    method CommitInboundBatch(batch: seq<Record>) returns (inserted: nat)
      modifies this
      ensures rows == Commit(old(rows), batch) && inserted == |rows| - |old(rows)|
    {
      inserted := 0;
      var i := 0;
      while i < |batch|
        invariant i <= |batch| && rows == Commit(old(rows), batch[..i]) && inserted == |rows| - |old(rows)|
      {
        assert batch[..i + 1][..i] == batch[..i];
        if !HasRecord(rows, batch[i].key) {
          rows := rows + [batch[i]];
          inserted := inserted + 1;
        }
        i := i + 1;
      }
      assert batch[..i] == batch;
    }

    method Pending(limit: nat) returns (pending: seq<Record>)
      ensures pending == PendingInbound(rows, limit)
    {
      var sorted: seq<Record> := [];
      var i := 0;
      while i < |rows|
        invariant i <= |rows| && sorted == ByCommit(rows[..i])
      {
        assert rows[..i + 1][..i] == rows[..i];
        sorted := Place(sorted, rows[i]);
        i := i + 1;
      }
      assert rows[..i] == rows;
      pending := if |sorted| <= Clamped(limit) then sorted else sorted[..Clamped(limit)];
    }

    method FinishInbound(key: Key) returns (removed: bool)
      modifies this
      ensures rows == Finished(old(rows), key) && removed == HasRecord(old(rows), key)
    {
      removed := HasRecord(rows, key);
      rows := DeleteKey(rows, key);
    }
  }

  method DeleteKey(rows: seq<Record>, key: Key) returns (kept: seq<Record>)
    ensures kept == Finished(rows, key)
  {
    kept := [];
    var i := 0;
    while i < |rows|
      invariant i <= |rows| && kept == Finished(rows[..i], key)
    {
      assert rows[..i + 1][..i] == rows[..i];
      if rows[i].key != key {
        kept := kept + [rows[i]];
      }
      i := i + 1;
    }
    assert rows[..i] == rows;
  }

  /** One client generation at work. The clock finds it current `checks` more times. */
  class MessageReducer {
    const database: Store.Database
    const inbox: Inbox
    var checks: nat

    constructor (database: Store.Database, inbox: Inbox, checks: nat)
      ensures this.database == database && this.inbox == inbox && this.checks == checks
    {
      this.database, this.inbox, this.checks := database, inbox, checks;
    }

    method IsCurrent() returns (current: bool)
      modifies this`checks
      ensures current == (old(checks) > 0) && checks == if current then old(checks) - 1 else 0
    {
      current := checks > 0;
      if current {
        checks := checks - 1;
      }
    }

    /** The sender's name, unless the message is a broadcast. */
    method LearnName(a: Arrival)
      modifies database
      ensures database.State() == Learned(old(database.State()), a)
    {
      LearningRuns(database.State(), a);
      if !a.content.Broadcast? && a.pushName != a.sender {
        var _ := database.UpdateContactNameInto(a.sender, a.pushName, 0);
      }
    }

    /** The generation is looked at once the name is learned, and once more before a message or
        a vote goes into the store. */
    method ReceiveMessage(a: Arrival) returns (accepted: bool)
      modifies this`checks, database
      ensures var named := Learned(old(database.State()), a);
        var o := Received(named, a.content);
        && database.State() == (if old(checks) >= o.looks then After(named, a.content) else named)
        && checks == (if old(checks) >= o.looks then old(checks) - o.looks else 0)
        && accepted == (old(checks) >= o.looks && o.accepted)
    {
      LearnName(a);
      ghost var named := database.State();
      ReceivedRuns(named, a.content);
      if a.content.Broadcast? {
        return true;
      }
      accepted := IsCurrent();
      if !accepted {
        return;
      }
      match a.content
      case Shown(c, ins) => accepted := ReceiveShown(c, ins);
      case Reacted(k, e) => var _ := database.ApplyReactionEvent(k, e);
      case Voted(v, legible) => accepted := ReceiveVote(v, legible);
      case Control =>
      case Broadcast =>
    }

    /** A message: stored, or its media filed if the store has it already. */
    method ReceiveShown(c: Jid, ins: Insert) returns (accepted: bool)
      modifies this`checks, database
      ensures accepted == (old(checks) > 0) && checks == if accepted then old(checks) - 1 else 0
      ensures database.State() ==
        if accepted then After(old(database.State()), Shown(c, ins)) else old(database.State())
    {
      accepted := IsCurrent();
      if accepted {
        ReceivedRuns(database.State(), Shown(c, ins));
        var stored := database.InsertAndPruneMessage(c, ins);
        if !stored && ins.message.media.Some? {
          var _ := database.UpdateMessageMediaInto(c, ins.message.id, ins.message.media.value);
        }
      }
    }

    /** A vote: kept for later without its poll, dropped if it makes no sense, refused if it
        picks too much. */
    method ReceiveVote(v: Polls.VoteCall, legible: bool) returns (accepted: bool)
      modifies this`checks, database
      ensures var o := Received(old(database.State()), Voted(v, legible));
        && database.State() ==
           (if old(checks) >= o.looks - 1
            then After(old(database.State()), Voted(v, legible)) else old(database.State()))
        && checks == (if old(checks) >= o.looks - 1 then old(checks) - (o.looks - 1) else 0)
        && accepted == (old(checks) >= o.looks - 1 && o.accepted)
    {
      ReceivedRuns(database.State(), Voted(v, legible));
      var card := Polls.Card(database.State(), v.chat, v.id);
      if card.None? {
        return false;
      }
      var told := Told(v, card.value);
      if !legible || |told.selected| != |v.selected| {
        return true;
      }
      accepted := IsCurrent();
      if accepted {
        var r := database.ApplyPollVote(told);
        accepted := r.Ok?;
      }
    }

    method ReduceMessage(a: Arrival, key: Key)
      modifies this`checks, database, inbox
      ensures var t := old(database.State());
        var named := Learned(t, a);
        var o := Received(named, a.content);
        if old(checks) == 0 then
          database.State() == t && inbox.rows == old(inbox.rows) && checks == 0
        else if old(checks) < 1 + o.looks then
          database.State() == named && inbox.rows == old(inbox.rows) && checks == 0
        else
          && database.State() == After(named, a.content) && checks == old(checks) - 1 - o.looks
          && inbox.rows == if o.accepted then Finished(old(inbox.rows), key) else old(inbox.rows)
    {
      var current := IsCurrent();
      if !current {
        return;
      }
      var accepted := ReceiveMessage(a);
      if accepted {
        var _ := inbox.FinishInbound(key);
      }
    }

    /** One pending row: stop when the generation moved on, leave what does not decode. */
    method ReduceRecord(r: Record) returns (current: bool)
      modifies this`checks, database, inbox
      ensures current == (old(checks) > 0)
      ensures !current ==> checks == 0 && database.State() == old(database.State()) && inbox.rows == old(inbox.rows)
      ensures forall rest :: current ==>
        Drained(database.State(), inbox.rows, rest, checks) ==
        Drained(old(database.State()), old(inbox.rows), [r] + rest, old(checks))
    {
      hide Drained, Learned, Received, After;
      current := IsCurrent();
      if current && r.arrival.Some? {
        ReduceMessage(r.arrival.value, r.key);
      }
      forall rest | current
        ensures Drained(database.State(), inbox.rows, rest, checks) ==
          Drained(old(database.State()), old(inbox.rows), [r] + rest, old(checks))
      {
        DrainStep(old(database.State()), old(inbox.rows), r, rest, old(checks));
        DrainStops(database.State(), inbox.rows, rest);
      }
    }

    /** The drain of one generation over the rows pending at its start. */
    method Drain()
      modifies this`checks, database, inbox
      ensures var pending := PendingInbound(old(inbox.rows), 10_000);
        (database.State(), inbox.rows) ==
          if old(checks) == 0 then (old(database.State()), old(inbox.rows))
          else Drained(old(database.State()), old(inbox.rows), pending, old(checks) - 1)
      ensures var s := System(old(database.State()), old(inbox.rows), None);
        old(checks) > 0 ==>
          System(database.State(), inbox.rows, None) ==
          Go(s, DrainSteps(s.tables, PendingInbound(s.inbox, 10_000), old(checks) - 1))
    {
      var current := IsCurrent();
      if !current {
        return;
      }
      var pending := inbox.Pending(10_000);
      DrainIsRun(database.State(), inbox.rows, pending, checks);
      DrainPending(pending);
    }

    method DrainPending(pending: seq<Record>)
      modifies this`checks, database, inbox
      ensures (database.State(), inbox.rows) == Drained(old(database.State()), old(inbox.rows), pending, old(checks))
    {
      ghost var whole := Drained(database.State(), inbox.rows, pending, checks);
      var i := 0;
      while i < |pending|
        invariant i <= |pending|
        invariant Drained(database.State(), inbox.rows, pending[i..], checks) == whole
      {
        assert pending[i..] == [pending[i]] + pending[i + 1..];
        var current := ReduceRecord(pending[i]);
        if !current {
          return;
        }
        i := i + 1;
      }
    }
  }

  lemma DrainStops(t: Tables, inbox: seq<Record>, rest: seq<Record>)
    ensures Drained(t, inbox, rest, 0) == (t, inbox)
  {
  }

  lemma DrainStep(t: Tables, inbox: seq<Record>, r: Record, rest: seq<Record>, checks: nat)
    requires checks > 0
    ensures Drained(t, inbox, [r] + rest, checks) ==
      match r.arrival
      case None => Drained(t, inbox, rest, checks - 1)
      case Some(a) =>
        var named := Learned(t, a);
        var o := Received(named, a.content);
        if checks < 2 then (t, inbox)
        else if checks < 2 + o.looks then (named, inbox)
        else Drained(After(named, a.content), if o.accepted then Finished(inbox, r.key) else inbox, rest,
                     checks - 2 - o.looks)
  {
    hide Received, After, Learned;
    assert ([r] + rest)[1..] == rest;
  }
}
