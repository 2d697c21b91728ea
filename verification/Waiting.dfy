/** A poll vote that comes before its poll waits in the inbox until the poll is there. */
module Waiting {
  import opened Prelude
  import opened Schema
  import opened History
  import opened Batching
  import opened Soundness
  import opened Runs
  import opened Inbound
  import Polls

  // --------------------------------------------------- cards and names

  lemma {:induction false} FindEdited(e: Edit, rows: seq<Row>, id: Id)
    ensures FindId(EditRows(e, rows), id) ==
      match FindId(rows, id)
      case None => None
      case Some(r) => Some(EditRow(e, r))
  {
    if rows != [] {
      assert EditRows(e, rows)[1..] == EditRows(e, rows[1..]);
      FindEdited(e, rows[1..], id);
    }
  }

  /** A learned name moves no card, no vote and no row. */
  lemma LearnedCards(t: Tables, a: Arrival, c: Jid, id: Id)
    ensures var u := Learned(t, a);
      && Polls.Card(u, c, id) == Polls.Card(t, c, id) && SameShape(Rows(t.messages, c), Rows(u.messages, c))
      && u.votes == t.votes && u.settings == t.settings && u.tombstones == t.tombstones && u.keep == t.keep
  {
    LearningRuns(t, a);
    var u := Learned(t, a);
    hide Learned;
    if u != t {
      var e := Rename(a.sender, Trim(a.pushName));
      assert Rows(u.messages, c) == EditRows(e, Rows(t.messages, c));
      FindEdited(e, Rows(t.messages, c), id);
    }
  }

  lemma {:induction false} FindAppended(rows: seq<Row>, r: Row)
    requires !HasId(rows, r.id)
    ensures FindId(rows + [r], r.id) == Some(r)
  {
    if rows != [] {
      assert (rows + [r])[0] == rows[0] && (rows + [r])[1..] == rows[1..] + [r];
      assert forall i :: 0 <= i < |rows[1..]| ==> rows[1..][i] == rows[i + 1];
      FindAppended(rows[1..], r);
    }
  }

  /** A poll stored in a chat with room is the card its votes find, and nobody voted yet. */
  lemma PollIsCard(t: Tables, c: Jid, ins: Insert)
    requires NoOrphans(t, c) && |Rows(t.messages, c)| < t.keep
    requires Stores(t, c, ins) && !HasId(Rows(t.messages, c), ins.message.id)
    requires ins.message.media.Some? && ins.message.media.value.Poll?
    ensures var u := InsertAndPrune(t, c, ins);
      Polls.Card(u, c, ins.message.id) == ins.message.media && (c, ins.message.id) !in u.votes
  {
    var rows, row, u := Rows(t.messages, c), NewRow(t, c, ins), InsertMessage(t, c, ins);
    InsertShape(t, c, ins);
    assert Rows(u.messages, c) == rows + [row] && u.keep == t.keep && u.votes == t.votes;
    PruneIdle(u, c);
    FindAppended(rows, row);
  }

  lemma {:induction false} NormalizedShrinks(options: seq<PollOption>, selected: seq<string>)
    ensures |Polls.Normalized(options, selected)| <= |selected|
  {
    if selected != [] { NormalizedShrinks(options, selected[..|selected| - 1]); }
  }

  // --------------------------------------------------- one row of a drain

  lemma DrainOne(t: Tables, inbox: seq<Record>, r: Record, rest: seq<Record>, checks: nat)
    requires r.arrival.Some? && checks >= 4
    ensures var named, x := Learned(t, r.arrival.value), r.arrival.value.content;
      var o := Received(named, x);
      Drained(t, inbox, [r] + rest, checks) ==
      Drained(After(named, x), if o.accepted then Finished(inbox, r.key) else inbox, rest, checks - 2 - o.looks)
  {
    hide After, Learned;
    assert ([r] + rest)[1..] == rest;
  }

  /** Before its poll a vote is left, and nothing is stored for it. */
  lemma VoteIsLeft(t: Tables, inbox: seq<Record>, r: Record, rest: seq<Record>, v: Polls.VoteCall, checks: nat)
    requires r.arrival.Some? && r.arrival.value.content == Voted(v, true) && checks >= 4
    requires Polls.Card(t, v.chat, v.id).None?
    ensures Drained(t, inbox, [r] + rest, checks) == Drained(Learned(t, r.arrival.value), inbox, rest, checks - 3)
  {
    hide Learned, Drained;
    LearnedCards(t, r.arrival.value, v.chat, v.id);
    DrainOne(t, inbox, r, rest, checks);
  }

  /** A vote that picks more than its card allows is left too, and nothing is stored for it. */
  lemma OvervoteIsLeft(t: Tables, inbox: seq<Record>, r: Record, rest: seq<Record>, v: Polls.VoteCall, checks: nat)
    requires r.arrival.Some? && r.arrival.value.content == Voted(v, true) && checks >= 4
    requires var card := Polls.Card(t, v.chat, v.id);
      card.Some? && |Chosen(card.value.options, v.selected)| == |v.selected| && Polls.Overvotes(t, Told(v, card.value))
    ensures Drained(t, inbox, [r] + rest, checks) == Drained(Learned(t, r.arrival.value), inbox, rest, checks - 4)
  {
    hide Learned, Drained, After, Polls.Card, Polls.Normalized, Chosen;
    LearnedCards(t, r.arrival.value, v.chat, v.id);
    VotedRuns(Learned(t, r.arrival.value), v, true);
    DrainOne(t, inbox, r, rest, checks);
  }

  /** A vote that cannot be read, or picks what its card does not offer, is finished with
      nothing stored. */
  lemma VoteIsDropped(t: Tables, inbox: seq<Record>, r: Record, rest: seq<Record>, v: Polls.VoteCall, legible: bool,
                      checks: nat)
    requires r.arrival.Some? && r.arrival.value.content == Voted(v, legible) && checks >= 4
    requires var card := Polls.Card(t, v.chat, v.id);
      card.Some? && (!legible || |Chosen(card.value.options, v.selected)| != |v.selected|)
    ensures Drained(t, inbox, [r] + rest, checks)
      == Drained(Learned(t, r.arrival.value), Finished(inbox, r.key), rest, checks - 3)
  {
    hide Learned, Drained, Polls.Card, Chosen;
    LearnedCards(t, r.arrival.value, v.chat, v.id);
    DrainOne(t, inbox, r, rest, checks);
  }

  /** A vote the card makes sense of, within what the card allows. */
  predicate Fair(v: Polls.VoteCall, card: Media)
    requires card.Poll?
  {
    |Chosen(card.options, v.selected)| == |v.selected| <= card.selectable
  }

  /** With its poll there, a fair vote is cast and its row finished. */
  lemma VoteIsCast(t: Tables, inbox: seq<Record>, r: Record, rest: seq<Record>, v: Polls.VoteCall, checks: nat)
    requires r.arrival.Some? && r.arrival.value.content == Voted(v, true) && checks >= 4
    requires var card := Polls.Card(t, v.chat, v.id); card.Some? && Fair(v, card.value)
    ensures var named, told := Learned(t, r.arrival.value), Told(v, Polls.Card(t, v.chat, v.id).value);
      && Polls.Accepts(named, told)
      && Drained(t, inbox, [r] + rest, checks) ==
         Drained(Polls.ApplyVote(named, told), Finished(inbox, r.key), rest, checks - 4)
  {
    hide Learned, Drained, Polls.ApplyVote, Polls.Card, Polls.Normalized, Chosen;
    var card := Polls.Card(t, v.chat, v.id).value;
    LearnedCards(t, r.arrival.value, v.chat, v.id);
    NormalizedShrinks(card.options, Told(v, card).selected);
    DrainOne(t, inbox, r, rest, checks);
    ReceivedRuns(Learned(t, r.arrival.value), Voted(v, true));
  }

  lemma PollIsStored(t: Tables, inbox: seq<Record>, r: Record, c: Jid, ins: Insert, checks: nat)
    requires r.arrival.Some? && r.arrival.value.content == Shown(c, ins) && checks >= 4
    requires !Suppressed(t, c, ins.message) && !HasId(Rows(t.messages, c), ins.message.id)
    ensures var named := Learned(t, r.arrival.value);
      && Stores(named, c, ins)
      && Drained(t, inbox, [r], checks) == (InsertAndPrune(named, c, ins), Finished(inbox, r.key))
  {
    hide Learned, Drained, InsertAndPrune, Suppressed;
    var named := Learned(t, r.arrival.value);
    LearnedCards(t, r.arrival.value, c, ins.message.id);
    SuppressedAlways(t, named, c, ins.message);
    ShapeHasId(Rows(t.messages, c), Rows(named.messages, c), ins.message.id);
    assert [r] + [] == [r];
    DrainOne(t, inbox, r, [], checks);
    ReceivedRuns(named, Shown(c, ins));
    DrainNone(InsertAndPrune(named, c, ins), Finished(inbox, r.key), checks - 4);
  }

  lemma DrainNone(t: Tables, inbox: seq<Record>, checks: nat)
    ensures Drained(t, inbox, [], checks) == (t, inbox)
  {
  }

  // --------------------------------------------------- the two drains

  /** One drain of a vote and the poll it came before stores the poll and keeps the vote; the
      next casts the vote and empties the inbox. */
  lemma VoteWaitsForPoll(t: Tables, vote: Record, poll: Record, v: Polls.VoteCall, ins: Insert, checks: nat)
    requires Sound(t, v.chat) && |Rows(t.messages, v.chat)| < t.keep && !HasId(Rows(t.messages, v.chat), v.id)
    requires vote.arrival.Some? && vote.arrival.value.content == Voted(v, true)
    requires poll.arrival.Some? && poll.arrival.value.content == Shown(v.chat, ins) && vote.key != poll.key
    requires ins.message.id == v.id && !Suppressed(t, v.chat, ins.message)
    requires ins.message.media.Some? && ins.message.media.value.Poll? && Fair(v, ins.message.media.value)
    requires checks >= 8
    ensures var (u, left) := Drained(t, [vote, poll], [vote, poll], checks);
      var (w, none) := Drained(u, left, left, checks);
      && left == [vote] && none == []
      && Get(Inner(w.votes, v.chat, v.id), v.voter)
         == Some(Vote(Polls.Normalized(ins.message.media.value.options, Told(v, ins.message.media.value).selected),
                      v.fromMe, v.timestamp))
  {
    hide Polls.ApplyVote, Polls.Card, Polls.Normalized, Chosen, Finished, Received;
    var u := FirstDrain(t, vote, poll, v, ins, checks);
    assert [vote] + [] == [vote];
    VoteIsCast(u, [vote], vote, [], v, checks);
    var named, told := Learned(u, vote.arrival.value), Told(v, ins.message.media.value);
    LearnedCards(u, vote.arrival.value, v.chat, v.id);
    FinishedOnly(vote);
    DrainNone(Polls.ApplyVote(named, told), [], checks - 4);
    hide Drained, Learned;
    FirstVote(named, told);
  }

  lemma FirstDrain(t: Tables, vote: Record, poll: Record, v: Polls.VoteCall, ins: Insert, checks: nat)
    returns (u: Tables)
    requires Sound(t, v.chat) && |Rows(t.messages, v.chat)| < t.keep && !HasId(Rows(t.messages, v.chat), v.id)
    requires vote.arrival.Some? && vote.arrival.value.content == Voted(v, true)
    requires poll.arrival.Some? && poll.arrival.value.content == Shown(v.chat, ins) && vote.key != poll.key
    requires ins.message.id == v.id && !Suppressed(t, v.chat, ins.message)
    requires ins.message.media.Some? && ins.message.media.value.Poll? && checks >= 8
    ensures Drained(t, [vote, poll], [vote, poll], checks) == (u, [vote])
    ensures Polls.Card(u, v.chat, v.id) == ins.message.media && (v.chat, v.id) !in u.votes
  {
    hide Drained, InsertAndPrune, Learned, Suppressed;
    var c, a, b := v.chat, vote.arrival.value, poll.arrival.value;
    var t1 := Learned(t, a);
    var t2 := Learned(t1, b);
    assert [vote, poll] == [vote] + [poll];
    VoteIsLeft(t, [vote, poll], vote, [poll], v, checks);
    LearnedSound(t, a, c);
    LearnedSound(t1, b, c);
    LearnedCards(t, a, c, v.id);
    LearnedCards(t1, b, c, v.id);
    ShapeHasId(Rows(t.messages, c), Rows(t1.messages, c), v.id);
    ShapeHasId(Rows(t1.messages, c), Rows(t2.messages, c), v.id);
    SuppressedAlways(t, t1, c, ins.message);
    PollIsStored(t1, [vote, poll], poll, c, ins, checks - 3);
    PollIsCard(t2, c, ins);
    FinishedSecond(vote, poll);
    u := InsertAndPrune(t2, c, ins);
  }

  lemma LearnedSound(t: Tables, a: Arrival, c: Jid)
    requires Sound(t, c)
    ensures Sound(Learned(t, a), c)
  {
    RunSound(t, Learning(a), c);
  }

  lemma SuppressedAlways(t: Tables, u: Tables, c: Jid, m: Message)
    requires u.settings == t.settings && u.tombstones == t.tombstones
    ensures Suppressed(u, c, m) == Suppressed(t, c, m)
  {
  }

  lemma FinishedOnly(r: Record)
    ensures Finished([r], r.key) == []
  {
    assert [r][..0] == [];
  }

  lemma FinishedSecond(a: Record, b: Record)
    requires a.key != b.key
    ensures Finished([a, b], b.key) == [a]
  {
    assert [a, b][..1] == [a] && [a][..0] == [];
  }

  lemma FirstVote(t: Tables, v: Polls.VoteCall)
    requires Polls.Accepts(t, v) && (v.chat, v.id) !in t.votes
    ensures Get(Inner(Polls.ApplyVote(t, v).votes, v.chat, v.id), v.voter) == Some(Polls.CastVote(t, v))
  {
  }
}
