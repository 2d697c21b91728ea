/** Votes over whole runs: the stored row of a voter is the latest vote the card accepted
    since its votes were last removed. */
module VoteRuns {
  import opened Prelude
  import opened Schema
  import opened History
  import opened Batching
  import opened ReadState
  import opened Clearing
  import opened Runs
  import opened Soundness
  import Receipts
  import Reactions
  import Polls
  import ReadOutbox

  /** The votes of a card are as they were, or gone. */
  predicate KeepsOrDrops(t: Tables, u: Tables, c: Jid, id: Id) {
    (c, id) in u.votes ==> (c, id) in t.votes && u.votes[(c, id)] == t.votes[(c, id)]
  }

  lemma PruneDrops(t: Tables, u: Tables, d: Jid, c: Jid, id: Id)
    requires u.votes == t.votes
    ensures KeepsOrDrops(t, Prune(u, d), c, id)
  {
  }

  lemma ArriveDrops(t: Tables, d: Jid, ins: Insert, c: Jid, id: Id)
    ensures KeepsOrDrops(t, InsertAndPrune(t, d, ins), c, id)
  {
    hide InsertMessage, Prune, KeepsOrDrops;
    InsertTouches(t, d, ins);
    PruneDrops(t, InsertMessage(t, d, ins), d, c, id);
  }

  lemma ReplayDrops(t: Tables, h: HistoryChat, ms: seq<Message>, c: Jid, id: Id)
    ensures KeepsOrDrops(t, Batch(t, h, ms).0, c, id)
  {
    hide HistoryMessages, Prune, KeepsOrDrops;
    InsertChatOnlyChats(t, h);
    MessagesTables(InsertChat(t, h), h, ms);
    PruneDrops(t, HistoryMessages(InsertChat(t, h), h, ms).0, h.jid, c, id);
  }

  lemma ClearDrops(t: Tables, d: Jid, at: int, c: Jid, id: Id)
    ensures KeepsOrDrops(t, ClearChat(t, d, at), c, id) && KeepsOrDrops(t, DeleteChat(t, d, at), c, id)
  {
  }

  lemma DeleteDrops(t: Tables, d: Jid, x: Id, c: Jid, id: Id)
    ensures KeepsOrDrops(t, DeleteMessage(t, d, x), c, id)
  {
  }

  lemma NameDrops(t: Tables, jid: Jid, name: string, source: int)
    ensures UpdateContactName(t, jid, name, source).votes == t.votes
  {
  }

  lemma KeptVotes(t: Tables, u: Tables, c: Jid, id: Id)
    requires u.votes == t.votes
    ensures KeepsOrDrops(t, u, c, id)
  {
  }

  lemma MovedDrops(t: Tables, e: Event, c: Jid, id: Id)
    requires e.Name? || e.Complete? || e.Reopened?
    ensures KeepsOrDrops(t, Apply(t, e), c, id)
  {
    hide InsertAndPrune, Batch, ApplyBoundary, ClearChat, DeleteChat, DeleteMessage, Receipts.ReceiveAll,
      Polls.ApplyVote;
    hide ExplicitUnread, StampReadState, ReconcileUnread, Reactions.ApplyReaction, ReadOutbox.QueueReads,
      ReadOutbox.FinishBatch;
    hide Polls.RepairRows, FinalMedia, EditRows, KeepsOrDrops;
    if e.Name? { NameDrops(t, e.jid, e.name, e.source); }
    assert Apply(t, e).votes == t.votes;
    KeptVotes(t, Apply(t, e), c, id);
  }

  lemma {:induction false} DeliverDrops(t: Tables, rs: seq<Receipts.Receipt>)
    ensures Receipts.ReceiveAll(t, rs).votes == t.votes
  {
    if rs != [] { DeliverDrops(t, rs[..|rs| - 1]); }
  }

  lemma BoundaryDrops(t: Tables, d: Jid, at: int, ids: seq<Id>)
    ensures ApplyBoundary(t, d, at, ids).votes == t.votes
  {
  }

  /** Only a vote adds or changes a vote row. */
  lemma OnlyVotesVote(t: Tables, e: Event, c: Jid, id: Id)
    requires !e.Cast?
    ensures KeepsOrDrops(t, Apply(t, e), c, id)
  {
    if KeepsRows(e) {
      BesideEvents(t, e, c);
    } else if e.Name? || e.Complete? || e.Reopened? {
      MovedDrops(t, e, c, id);
    } else {
      hide InsertAndPrune, Batch, ApplyBoundary, ClearChat, DeleteChat, DeleteMessage, Receipts.ReceiveAll;
      hide Polls.ApplyVote, Polls.Reopen, UpdateContactName, UpdateMedia, ExplicitUnread, StampReadState,
        ReconcileUnread;
      hide Reactions.ApplyReaction, ReadOutbox.QueueReads, ReadOutbox.FinishBatch;
      match e
      case Arrive(d, ins) => ArriveDrops(t, d, ins, c, id);
      case Replay(h, ms) => ReplayDrops(t, h, ms, c, id);
      case Boundary(d, at, ids) => BoundaryDrops(t, d, at, ids);
      case Clear(d, at) => ClearDrops(t, d, at, c, id);
      case Delete(d, at) => ClearDrops(t, d, at, c, id);
      case DeleteOne(d, x) => DeleteDrops(t, d, x, c, id);
      case Deliver(rs) => DeliverDrops(t, rs);
    }
  }

  /** The vote a transaction casts for this voter on this card, if the card accepts it. */
  function Casts(t: Tables, e: Event, c: Jid, id: Id, voter: Jid): seq<Vote> {
    if e.Cast? && e.vote.chat == c && e.vote.id == id && e.vote.voter == voter && Polls.Accepts(t, e.vote)
    then [Polls.CastVote(t, e.vote)] else []
  }

  /** The votes of one voter the card accepted since its votes were last removed. */
  ghost function Since(t: Tables, es: seq<Event>, c: Jid, id: Id, voter: Jid): seq<Vote> {
    if es == [] then []
    else
      var before, e := Run(t, es[..|es| - 1]), es[|es| - 1];
      if (c, id) !in Apply(before, e).votes then []
      else Since(t, es[..|es| - 1], c, id, voter) + Casts(before, e, c, id, voter)
  }

  lemma CastRow(t: Tables, v: Polls.VoteCall, c: Jid, id: Id, voter: Jid)
    ensures var before, after := Get(Inner(t.votes, c, id), voter),
      Get(Inner(Polls.ApplyVote(t, v).votes, c, id), voter);
      var cast := Casts(t, Cast(v), c, id, voter);
      after == if cast == [] then before else Some(Polls.VoteAfter(before, cast[0]))
  {
  }

  lemma FoldCast(stored: Option<Vote>, votes: seq<Vote>, cast: seq<Vote>)
    requires |cast| <= 1
    ensures Polls.FoldVotes(stored, votes + cast) ==
      if cast == [] then Polls.FoldVotes(stored, votes)
      else Some(Polls.VoteAfter(Polls.FoldVotes(stored, votes), cast[0]))
  {
    if cast == [] {
      assert votes + cast == votes;
    } else {
      assert (votes + cast)[..|votes|] == votes;
    }
  }

  lemma StepRow(t: Tables, e: Event, c: Jid, id: Id, voter: Jid)
    requires (c, id) in Apply(t, e).votes
    ensures var before, after := Get(Inner(t.votes, c, id), voter), Get(Inner(Apply(t, e).votes, c, id), voter);
      var cast := Casts(t, e, c, id, voter);
      after == if cast == [] then before else Some(Polls.VoteAfter(before, cast[0]))
  {
    if e.Cast? {
      hide InsertAndPrune, Batch, ApplyBoundary, ClearChat, DeleteChat, DeleteMessage, Receipts.ReceiveAll;
      hide Polls.ApplyVote, Polls.Reopen, UpdateContactName, UpdateMedia, Casts;
      CastRow(t, e.vote, c, id, voter);
    } else {
      hide Apply;
      OnlyVotesVote(t, e, c, id);
    }
  }

  /** Through refreshes, replays, prunings, clears, deletes and reopens, the stored row is
      what those votes leave. */
  lemma {:induction false} VoteRowOverRuns(t: Tables, es: seq<Event>, c: Jid, id: Id, voter: Jid)
    requires (c, id) !in t.votes
    ensures Get(Inner(Run(t, es).votes, c, id), voter) == Polls.FoldVotes(None, Since(t, es, c, id, voter))
  {
    hide Apply, Casts;
    if es != [] {
      var front, e := es[..|es| - 1], es[|es| - 1];
      VoteRowOverRuns(t, front, c, id, voter);
      if (c, id) in Apply(Run(t, front), e).votes {
        StepRow(Run(t, front), e, c, id, voter);
        CastsAtMostOne(Run(t, front), e, c, id, voter);
        FoldCast(None, Since(t, front, c, id, voter), Casts(Run(t, front), e, c, id, voter));
      }
    }
  }

  lemma CastsAtMostOne(t: Tables, e: Event, c: Jid, id: Id, voter: Jid)
    ensures |Casts(t, e, c, id, voter)| <= 1
  {
  }

  /** In every run a voter has a row exactly when the card accepted a vote of theirs since its
      votes were last removed, and it is the latest of those. */
  lemma VoteRowIsLatest(t: Tables, es: seq<Event>, c: Jid, id: Id, voter: Jid) returns (i: nat)
    requires (c, id) !in t.votes
    ensures var votes, row := Since(t, es, c, id, voter), Get(Inner(Run(t, es).votes, c, id), voter);
      && (row.Some? <==> votes != [])
      && (row.Some? ==> Polls.Latest(votes, i) && row == Some(votes[i]))
  {
    hide Run, Since;
    VoteRowOverRuns(t, es, c, id, voter);
    i := 0;
    if Since(t, es, c, id, voter) != [] { i := Polls.FoldIsLatest(Since(t, es, c, id, voter)); }
  }
}
