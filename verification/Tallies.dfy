/** Poll tallies as a function of the vote table. */
module Tallies {
  import opened Prelude
  import opened Schema

  /** `ORDER BY timestamp DESC, voter_jid`. */
  ghost function VoteOrder(votes: map<Jid, Vote>): seq<Jid> {
    Listing(map v | v in votes :: -votes[v].timestamp)
  }

  predicate Known(votes: map<Jid, Vote>, order: seq<Jid>) {
    forall v :: v in order ==> v in votes
  }

  /** How often the listed voters name an option. */
  function Choices(votes: map<Jid, Vote>, order: seq<Jid>, name: string): nat
    requires Known(votes, order)
  {
    if order == [] then 0
    else Choices(votes, order[..|order| - 1], name) + multiset(votes[order[|order| - 1]].selected)[name]
  }

  /** The listed voters who name an option, in order. */
  function Voters(votes: map<Jid, Vote>, order: seq<Jid>, name: string): (s: seq<Jid>)
    requires Known(votes, order)
    ensures forall v :: v in s <==> v in order && name in votes[v].selected
  {
    if order == [] then []
    else
      var n := |order| - 1;
      assert order == order[..n] + [order[n]];
      Voters(votes, order[..n], name) + if name in votes[order[n]].selected then [order[n]] else []
  }

  /** How many listed voters selected anything. */
  function Participants(votes: map<Jid, Vote>, order: seq<Jid>): nat
    requires Known(votes, order)
  {
    if order == [] then 0
    else Participants(votes, order[..|order| - 1]) + if votes[order[|order| - 1]].selected != [] then 1 else 0
  }

  ghost predicate Mine(votes: map<Jid, Vote>, name: string) {
    exists v :: v in votes && votes[v].fromMe && name in votes[v].selected
  }

  ghost function TalliedOption(o: PollOption, votes: map<Jid, Vote>): PollOption {
    VoteOrderKnown(votes);
    PollOption(o.name, Choices(votes, VoteOrder(votes), o.name), Mine(votes, o.name),
               Voters(votes, VoteOrder(votes), o.name))
  }

  ghost function TalliedOptions(options: seq<PollOption>, votes: map<Jid, Vote>): (out: seq<PollOption>)
    ensures |out| == |options|
    ensures forall i :: 0 <= i < |options| ==> out[i] == TalliedOption(options[i], votes)
  {
    seq(|options|, i requires 0 <= i < |options| => TalliedOption(options[i], votes))
  }

  /** `reconcile_poll_tallies`: every tally a card shows, recomputed from the votes. */
  ghost function Tally(media: Media, votes: map<Jid, Vote>): Media {
    if media.Poll? then
      VoteOrderKnown(votes);
      media.(totalVoters := Participants(votes, VoteOrder(votes)), options := TalliedOptions(media.options, votes))
    else media
  }

  lemma VoteOrderKnown(votes: map<Jid, Vote>)
    ensures Known(votes, VoteOrder(votes))
    ensures Lists(VoteOrder(votes), votes.Keys)
  {
    var m := map v | v in votes :: -votes[v].timestamp;
    ListingIsSorted(m);
    assert m.Keys == votes.Keys;
  }

  lemma TallyTwice(media: Media, votes: map<Jid, Vote>)
    ensures Tally(Tally(media, votes), votes) == Tally(media, votes)
  {
    if media.Poll? {
      assert TalliedOptions(TalliedOptions(media.options, votes), votes) == TalliedOptions(media.options, votes);
    }
  }

  // --------------------------------------------------- reconcile_poll_tallies

  function At(counts: map<string, nat>, s: string): nat {
    if s in counts then counts[s] else 0
  }

  function Listed(voters: map<string, seq<Jid>>, s: string): seq<Jid> {
    if s in voters then voters[s] else []
  }

  /** The running tallies of the listed voters and of the first selections of the next one. */
  ghost predicate CountsHold(votes: map<Jid, Vote>, order: seq<Jid>, done: seq<string>, counts: map<string, nat>)
    requires Known(votes, order)
  {
    forall s :: At(counts, s) == Choices(votes, order, s) + multiset(done)[s]
  }

  ghost predicate VotersHold(votes: map<Jid, Vote>, order: seq<Jid>, voter: Jid, done: seq<string>,
                             voters: map<string, seq<Jid>>)
    requires Known(votes, order)
  {
    forall s :: Listed(voters, s) == Voters(votes, order, s) + if s in done then [voter] else []
  }

  ghost predicate MineHolds(votes: map<Jid, Vote>, order: seq<Jid>, own: bool, done: seq<string>, mine: set<string>)
    requires Known(votes, order)
  {
    forall s :: s in mine <==> (own && s in done) || exists v :: v in order && votes[v].fromMe && s in votes[v].selected
  }

  lemma CountsStep(votes: map<Jid, Vote>, order: seq<Jid>, done: seq<string>, counts: map<string, nat>, s: string)
    requires Known(votes, order) && CountsHold(votes, order, done, counts)
    ensures CountsHold(votes, order, done + [s], counts[s := At(counts, s) + 1])
  {
    assert multiset(done + [s]) == multiset(done) + multiset{s};
  }

  lemma CountsNext(votes: map<Jid, Vote>, order: seq<Jid>, voter: Jid, counts: map<string, nat>)
    requires Known(votes, order) && voter in votes && CountsHold(votes, order, votes[voter].selected, counts)
    ensures CountsHold(votes, order + [voter], [], counts)
  {
    assert (order + [voter])[..|order|] == order;
    forall s ensures At(counts, s) == Choices(votes, order + [voter], s) + multiset([])[s] {}
  }

  lemma VotersStep(votes: map<Jid, Vote>, order: seq<Jid>, voter: Jid, done: seq<string>,
                   voters: map<string, seq<Jid>>, s: string)
    requires Known(votes, order) && voter !in order && VotersHold(votes, order, voter, done, voters)
    ensures voter in Listed(voters, s) <==> s in done
    ensures VotersHold(votes, order, voter, done + [s],
                       if voter in Listed(voters, s) then voters else voters[s := Listed(voters, s) + [voter]])
  {
    assert voter !in Voters(votes, order, s);
    assert Listed(voters, s) == Voters(votes, order, s) + if s in done then [voter] else [];
  }

  lemma VotersNext(votes: map<Jid, Vote>, order: seq<Jid>, voter: Jid, voters: map<string, seq<Jid>>)
    requires Known(votes, order) && voter in votes && VotersHold(votes, order, voter, votes[voter].selected, voters)
    ensures forall s :: Listed(voters, s) == Voters(votes, order + [voter], s)
  {
    assert (order + [voter])[..|order|] == order;
    forall s ensures Listed(voters, s) == Voters(votes, order + [voter], s) {}
  }

  lemma MineStep(votes: map<Jid, Vote>, order: seq<Jid>, own: bool, done: seq<string>, mine: set<string>, s: string)
    requires Known(votes, order) && MineHolds(votes, order, own, done, mine)
    ensures MineHolds(votes, order, own, done + [s], if own then mine + {s} else mine)
  {
  }

  lemma MineNext(votes: map<Jid, Vote>, order: seq<Jid>, voter: Jid, mine: set<string>)
    requires Known(votes, order) && voter in votes &&
      MineHolds(votes, order, votes[voter].fromMe, votes[voter].selected, mine)
    ensures forall s :: s in mine <==> exists v :: v in order + [voter] && votes[v].fromMe && s in votes[v].selected
  {
    forall s ensures s in mine <==> exists v :: v in order + [voter] && votes[v].fromMe && s in votes[v].selected {
      if votes[voter].fromMe && s in votes[voter].selected { assert voter in order + [voter]; }
    }
  }

  /** The hash maps hold the tallies of exactly the listed voters. */
  ghost predicate Running(votes: map<Jid, Vote>, order: seq<Jid>,
                          counts: map<string, nat>, voters: map<string, seq<Jid>>, mine: set<string>)
    requires Known(votes, order)
  {
    && CountsHold(votes, order, [], counts)
    && (forall s :: Listed(voters, s) == Voters(votes, order, s))
    && (forall s :: s in mine <==> exists v :: v in order && votes[v].fromMe && s in votes[v].selected)
  }

  lemma RunningBegins(votes: map<Jid, Vote>, order: seq<Jid>, voter: Jid,
                      counts: map<string, nat>, voters: map<string, seq<Jid>>, mine: set<string>)
    requires Known(votes, order) && voter in votes && Running(votes, order, counts, voters, mine)
    ensures VotersHold(votes, order, voter, [], voters) && MineHolds(votes, order, votes[voter].fromMe, [], mine)
  {
  }

  /** The selections of one voter, added one by one. */
  method CountVoter(votes: map<Jid, Vote>, order: seq<Jid>, voter: Jid,
                    counts0: map<string, nat>, voters0: map<string, seq<Jid>>, mine0: set<string>)
    returns (counts: map<string, nat>, voters: map<string, seq<Jid>>, mine: set<string>)
    requires Known(votes, order) && voter in votes && voter !in order
    requires Running(votes, order, counts0, voters0, mine0)
    ensures Running(votes, order + [voter], counts, voters, mine)
  {
    hide CountsHold, VotersHold, MineHolds;
    RunningBegins(votes, order, voter, counts0, voters0, mine0);
    counts, voters, mine := counts0, voters0, mine0;
    var vote := votes[voter];
    var k := 0;
    while k < |vote.selected|
      invariant k <= |vote.selected|
      invariant CountsHold(votes, order, vote.selected[..k], counts)
      invariant VotersHold(votes, order, voter, vote.selected[..k], voters)
      invariant MineHolds(votes, order, vote.fromMe, vote.selected[..k], mine)
    {
      var selection := vote.selected[k];
      assert vote.selected[..k + 1] == vote.selected[..k] + [selection];
      CountsStep(votes, order, vote.selected[..k], counts, selection);
      VotersStep(votes, order, voter, vote.selected[..k], voters, selection);
      MineStep(votes, order, vote.fromMe, vote.selected[..k], mine, selection);
      counts := counts[selection := At(counts, selection) + 1];
      if voter !in Listed(voters, selection) {
        voters := voters[selection := Listed(voters, selection) + [voter]];
      }
      if vote.fromMe {
        mine := mine + {selection};
      }
      k := k + 1;
    }
    assert vote.selected[..k] == vote.selected;
    CountsNext(votes, order, voter, counts);
    VotersNext(votes, order, voter, voters);
    MineNext(votes, order, voter, mine);
  }

  method Count(votes: map<Jid, Vote>, order: seq<Jid>)
    returns (counts: map<string, nat>, voters: map<string, seq<Jid>>, mine: set<string>, total: nat)
    requires Known(votes, order) && Distinct(order)
    ensures Running(votes, order, counts, voters, mine) && total == Participants(votes, order)
  {
    counts, voters, mine, total := map[], map[], {}, 0;
    var n := 0;
    while n < |order|
      invariant n <= |order| && Known(votes, order[..n])
      invariant Running(votes, order[..n], counts, voters, mine) && total == Participants(votes, order[..n])
    {
      assert order[..n + 1] == order[..n] + [order[n]] && order[..n + 1][..n] == order[..n];
      if votes[order[n]].selected != [] {
        total := total + 1;
      }
      counts, voters, mine := CountVoter(votes, order[..n], order[n], counts, voters, mine);
      n := n + 1;
    }
    assert order[..n] == order;
  }

  /** One option of the card, rewritten. */
  method ReconcileOptions(options: seq<PollOption>, votes: map<Jid, Vote>) returns (out: seq<PollOption>, total: nat)
    ensures out == TalliedOptions(options, votes)
    ensures Known(votes, VoteOrder(votes)) && total == Participants(votes, VoteOrder(votes))
  {
    var order := SelectAll(map v | v in votes :: -votes[v].timestamp);
    VoteOrderKnown(votes);
    var counts, voters, mine, participants := Count(votes, order);
    total := participants;
    out := options;
    var i := 0;
    while i < |out|
      invariant i <= |out| == |options|
      invariant forall j :: 0 <= j < i ==> out[j] == TalliedOption(options[j], votes)
      invariant forall j :: i <= j < |out| ==> out[j] == options[j]
    {
      var name := out[i].name;
      OptionHolds(out[i], votes, order, name in mine);
      out := out[i := PollOption(name, At(counts, name), name in mine, Listed(voters, name))];
      i := i + 1;
    }
    assert out == TalliedOptions(options, votes);
  }

  lemma OptionHolds(o: PollOption, votes: map<Jid, Vote>, order: seq<Jid>, mine: bool)
    requires order == VoteOrder(votes) && Known(votes, order)
    requires mine <==> exists v :: v in order && votes[v].fromMe && o.name in votes[v].selected
    ensures TalliedOption(o, votes)
      == PollOption(o.name, Choices(votes, order, o.name), mine, Voters(votes, order, o.name))
  {
    VoteOrderKnown(votes);
    if Mine(votes, o.name) {
      var v :| v in votes && votes[v].fromMe && o.name in votes[v].selected;
      assert v in order;
    }
  }

  /** Recompute every tally of a poll card; the flag says whether the card moved. */
  method ReconcilePollTallies(media: Media, votes: map<Jid, Vote>) returns (out: Media, changed: bool)
    ensures out == Tally(media, votes) && changed == (out != media)
  {
    if !media.Poll? {
      return media, false;
    }
    var options, total := ReconcileOptions(media.options, votes);
    out := media.(totalVoters := total, options := options);
    var moved := OptionsMoved(media.options, options);
    changed := media.totalVoters != total || moved;
  }

  /** Some option was rewritten. */
  method OptionsMoved(was: seq<PollOption>, options: seq<PollOption>) returns (moved: bool)
    requires |was| == |options|
    ensures moved <==> was != options
  {
    moved := false;
    var i := 0;
    while i < |options|
      invariant i <= |options|
      invariant moved <==> exists j :: 0 <= j < i && was[j] != options[j]
    {
      moved := moved || was[i] != options[i];
      i := i + 1;
    }
  }
}
