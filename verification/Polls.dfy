/** Poll votes, and the cards that show their tallies. */
module Polls {
  import opened Prelude
  import opened Schema
  import opened Tallies
  import opened History
  import opened ReadState

  // --------------------------------------------------- apply_poll_vote

  predicate NamesOption(options: seq<PollOption>, name: string) {
    exists i :: 0 <= i < |options| && options[i].name == name
  }

  /** The selected options the card offers, each once. */
  function Normalized(options: seq<PollOption>, selected: seq<string>): (out: seq<string>)
    ensures Distinct(out)
    ensures forall s :: s in out <==> s in selected && NamesOption(options, s)
  {
    if selected == [] then []
    else
      var last := selected[|selected| - 1];
      var out := Normalized(options, selected[..|selected| - 1]);
      assert selected == selected[..|selected| - 1] + [last];
      if NamesOption(options, last) && last !in out then out + [last] else out
  }

  /** The options stand in the order in which they are first selected. */
  lemma {:induction false} NormalizedInOrder(options: seq<PollOption>, selected: seq<string>, i: nat, j: nat)
    requires i < j < |Normalized(options, selected)|
    ensures var out := Normalized(options, selected);
      exists k :: 0 <= k < |selected| && selected[k] == out[i] && out[j] !in selected[..k + 1]
  {
    var n := |selected| - 1;
    var out, before := Normalized(options, selected), Normalized(options, selected[..n]);
    assert selected == selected[..n] + [selected[n]];
    if j < |before| {
      NormalizedInOrder(options, selected[..n], i, j);
      var k :| 0 <= k < n && selected[..n][k] == out[i] && out[j] !in selected[..n][..k + 1];
      assert selected[..n][..k + 1] == selected[..k + 1];
    } else {
      assert out[i] in before && out[j] !in before;
      var k :| 0 <= k < n && selected[..n][k] == out[i];
      assert selected[..k + 1] == selected[..n][..k + 1];
    }
  }

  datatype VoteError = TooManyOptions

  datatype VoteCall = VoteCall(chat: Jid, id: Id, voter: Jid, selected: seq<string>, fromMe: bool, timestamp: int)

  function Card(t: Tables, c: Jid, id: Id): (o: Option<Media>)
    ensures o.Some? ==> o.value.Poll?
  {
    var m := StoredMedia(Rows(t.messages, c), id);
    if m.Some? && m.value.Poll? then m else None
  }

  predicate Overvotes(t: Tables, v: VoteCall) {
    var card := Card(t, v.chat, v.id);
    card.Some? && |Normalized(card.value.options, v.selected)| > card.value.selectable
  }

  predicate Accepts(t: Tables, v: VoteCall) {
    Card(t, v.chat, v.id).Some? && !Overvotes(t, v)
  }

  function CastVote(t: Tables, v: VoteCall): Vote
    requires Accepts(t, v)
  {
    Vote(Normalized(Card(t, v.chat, v.id).value.options, v.selected), v.fromMe, v.timestamp)
  }

  /** Last writer wins; an equal timestamp overwrites. */
  function VoteAfter(stored: Option<Vote>, v: Vote): Vote {
    if stored.None? || v.timestamp >= stored.value.timestamp then v else stored.value
  }

  function VotesAfter(t: Tables, v: VoteCall): map<Jid, Vote>
    requires Accepts(t, v)
  {
    var votes := Inner(t.votes, v.chat, v.id);
    votes[v.voter := VoteAfter(Get(votes, v.voter), CastVote(t, v))]
  }

  /** The tables after `apply_poll_vote`; a refused or stray vote leaves them alone. */
  ghost function ApplyVote(t: Tables, v: VoteCall): Tables {
    if !Accepts(t, v) then t
    else
      var votes := VotesAfter(t, v);
      var card := Card(t, v.chat, v.id).value;
      var rows := Rows(t.messages, v.chat);
      t.(votes := t.votes[(v.chat, v.id) := votes],
         messages := if Tally(card, votes) == card then t.messages
                     else WithRows(t.messages, v.chat, EditRows(SetMedia(v.id, Tally(card, votes), false), rows)))
  }

  /** Bailing out, or the flag "vote row or card changed". */
  ghost function VoteOutcome(t: Tables, v: VoteCall): Result<bool, VoteError> {
    if Overvotes(t, v) then Err(TooManyOptions)
    else if !Accepts(t, v) then Ok(false)
    else
      var votes := VotesAfter(t, v);
      var card := Card(t, v.chat, v.id).value;
      Ok(Get(Inner(t.votes, v.chat, v.id), v.voter) != Some(votes[v.voter]) || Tally(card, votes) != card)
  }

  /** An accepted vote reports exactly whether the tables moved; the voter's row is theirs. */
  lemma VoteFlag(t: Tables, v: VoteCall)
    ensures var card := Card(t, v.chat, v.id);
      VoteOutcome(t, v).Err? <==>
        card.Some? && |Normalized(card.value.options, v.selected)| > card.value.selectable
    ensures VoteOutcome(t, v).Ok? ==> (VoteOutcome(t, v).value <==> ApplyVote(t, v) != t)
  {
    hide Tally, Normalized;
    if Accepts(t, v) {
      var u, votes := ApplyVote(t, v), VotesAfter(t, v);
      var card, rows := Card(t, v.chat, v.id).value, Rows(t.messages, v.chat);
      if Tally(card, votes) != card {
        CardMoves(t, v);
      } else if Get(Inner(t.votes, v.chat, v.id), v.voter) == Some(votes[v.voter]) {
        assert votes == Inner(t.votes, v.chat, v.id);
        assert u == t;
      } else {
        assert u.votes[(v.chat, v.id)] == votes;
      }
    }
  }

  lemma CardMoves(t: Tables, v: VoteCall)
    requires Accepts(t, v) && Tally(Card(t, v.chat, v.id).value, VotesAfter(t, v)) != Card(t, v.chat, v.id).value
    ensures ApplyVote(t, v) != t
  {
    hide Tally;
    var rows, card := Rows(t.messages, v.chat), Card(t, v.chat, v.id).value;
    var r := FindId(rows, v.id).value;
    var i :| 0 <= i < |rows| && rows[i] == r;
    var after := EditRows(SetMedia(v.id, Tally(card, VotesAfter(t, v)), false), rows);
    assert after[i].media == Some(Tally(card, VotesAfter(t, v))) && rows[i].media == Some(card);
    assert after != rows;
    assert Rows(ApplyVote(t, v).messages, v.chat) == after;
  }

  // --------------------------------------------------- reopening the database

  predicate UniqueIds(rows: seq<Row>) {
    forall i, j :: 0 <= i < j < |rows| ==> rows[i].id != rows[j].id
  }

  ghost predicate NeedsRepair(t: Tables, c: Jid, r: Row) {
    (c, r.id) in t.votes && r.media.Some? && Tally(r.media.value, t.votes[(c, r.id)]) != r.media.value
  }

  /** The repair loop over the cards read up front; each update goes by chat and id. */
  ghost function RepairRows(t: Tables, c: Jid, targets: seq<Row>, rows: seq<Row>): (out: seq<Row>)
    ensures |out| == |rows|
  {
    if targets == [] then rows
    else
      var r := targets[|targets| - 1];
      var out := RepairRows(t, c, targets[..|targets| - 1], rows);
      if NeedsRepair(t, c, r) then EditRows(SetMedia(r.id, Tally(r.media.value, t.votes[(c, r.id)]), false), out)
      else out
  }

  /** `reconcile_all_poll_tallies`: every card with a vote row is recounted. */
  ghost function Reopen(t: Tables): Tables {
    t.(messages := map c | c in t.messages :: RepairRows(t, c, t.messages[c], t.messages[c]))
  }

  ghost function Repaired(t: Tables, c: Jid, r: Row): Row {
    if NeedsRepair(t, c, r) then r.(media := Some(Tally(r.media.value, t.votes[(c, r.id)]))) else r
  }

  lemma {:induction false} RepairRowsPointwise(t: Tables, c: Jid, rows: seq<Row>, n: nat)
    requires UniqueIds(rows) && n <= |rows|
    ensures forall i :: 0 <= i < |rows| ==>
      RepairRows(t, c, rows[..n], rows)[i] == if i < n then Repaired(t, c, rows[i]) else rows[i]
  {
    hide Tally;
    if n > 0 {
      RepairRowsPointwise(t, c, rows, n - 1);
      assert rows[..n][..n - 1] == rows[..n - 1];
    }
  }

  // --------------------------------------------------- what a card says

  ghost predicate Agrees(t: Tables, c: Jid, r: Row) {
    r.media.Some? ==> Tally(r.media.value, Inner(t.votes, c, r.id)) == r.media.value
  }

  ghost predicate CardsAgree(t: Tables, c: Jid) {
    forall i :: 0 <= i < |Rows(t.messages, c)| ==> Agrees(t, c, Rows(t.messages, c)[i])
  }

  predicate VotesDistinct(votes: map<Jid, Vote>) {
    forall v :: v in votes ==> Distinct(votes[v].selected)
  }

  /** The voters who selected an option, and those who selected anything. */
  ghost function Selecting(votes: map<Jid, Vote>, name: string): set<Jid> {
    set v | v in votes && name in votes[v].selected
  }

  ghost function Voting(votes: map<Jid, Vote>): set<Jid> {
    set v | v in votes && votes[v].selected != []
  }

  lemma {:induction false} CountOnce(s: seq<string>, x: string)
    requires Distinct(s)
    ensures multiset(s)[x] == if x in s then 1 else 0
  {
    if s != [] {
      var n := |s| - 1;
      CountOnce(s[..n], x);
      assert s == s[..n] + [s[n]];
    }
  }

  lemma {:induction false} ChoicesAreVoters(votes: map<Jid, Vote>, order: seq<Jid>, name: string)
    requires Known(votes, order) && VotesDistinct(votes)
    ensures Choices(votes, order, name) == |Voters(votes, order, name)|
    ensures Distinct(order) ==> Distinct(Voters(votes, order, name))
  {
    if order != [] {
      var n := |order| - 1;
      ChoicesAreVoters(votes, order[..n], name);
      CountOnce(votes[order[n]].selected, name);
      assert order == order[..n] + [order[n]];
      if Distinct(order) { assert order[n] !in order[..n]; }
    }
  }

  lemma {:induction false} DistinctSize(s: seq<string>, keys: set<string>)
    requires Distinct(s) && forall k :: k in s <==> k in keys
    ensures |s| == |keys|
  {
    if s != [] {
      var n := |s| - 1;
      assert s == s[..n] + [s[n]];
      assert s[n] !in s[..n];
      DistinctSize(s[..n], keys - {s[n]});
    } else {
      assert keys == {};
    }
  }

  lemma {:induction false} ParticipantsAreVoting(votes: map<Jid, Vote>, order: seq<Jid>)
    requires Known(votes, order) && Distinct(order)
    ensures Participants(votes, order) == |set v | v in order && votes[v].selected != []|
  {
    if order != [] {
      var n := |order| - 1;
      ParticipantsAreVoting(votes, order[..n]);
      assert order == order[..n] + [order[n]];
      var before := set v | v in order[..n] && votes[v].selected != [];
      var after := set v | v in order && votes[v].selected != [];
      assert order[n] !in order[..n];
      if votes[order[n]].selected != [] { assert after == before + {order[n]}; } else { assert after == before; }
    }
  }

  /** What an agreeing card shows: each option's distinct voters and their number,
      and how many people voted. */
  lemma CardMeaning(t: Tables, c: Jid, r: Row)
    requires r.media.Some? && r.media.value.Poll? && Agrees(t, c, r)
    requires VotesDistinct(Inner(t.votes, c, r.id))
    ensures var votes := Inner(t.votes, c, r.id);
      && r.media.value.totalVoters == |Voting(votes)|
      && forall i :: 0 <= i < |r.media.value.options| ==>
           var o := r.media.value.options[i];
           && o.votes == |Selecting(votes, o.name)| == |o.voterJids| && Distinct(o.voterJids)
           && (forall v :: v in o.voterJids <==> v in Selecting(votes, o.name))
           && (o.selectedByMe <==> exists v :: v in Selecting(votes, o.name) && votes[v].fromMe)
  {
    var votes := Inner(t.votes, c, r.id);
    var order := VoteOrder(votes);
    VoteOrderKnown(votes);
    ParticipantsAreVoting(votes, order);
    assert (set v | v in order && votes[v].selected != []) == Voting(votes);
    forall i | 0 <= i < |r.media.value.options|
      ensures var o := r.media.value.options[i];
        && o.votes == |Selecting(votes, o.name)| == |o.voterJids| && Distinct(o.voterJids)
        && (forall v :: v in o.voterJids <==> v in Selecting(votes, o.name))
        && (o.selectedByMe <==> exists v :: v in Selecting(votes, o.name) && votes[v].fromMe)
    {
      var o := r.media.value.options[i];
      assert o == TalliedOption(o, votes);
      ChoicesAreVoters(votes, order, o.name);
      DistinctSize(o.voterJids, Selecting(votes, o.name));
    }
  }

  // --------------------------------------------------- single-choice polls

  function VoteSum(options: seq<PollOption>): nat {
    if options == [] then 0 else VoteSum(options[..|options| - 1]) + options[|options| - 1].votes
  }

  function ChoiceSum(votes: map<Jid, Vote>, order: seq<Jid>, options: seq<PollOption>): nat
    requires Known(votes, order)
  {
    if options == [] then 0
    else ChoiceSum(votes, order, options[..|options| - 1]) + Choices(votes, order, options[|options| - 1].name)
  }

  function SelectedSum(selected: seq<string>, options: seq<PollOption>): nat {
    if options == [] then 0
    else SelectedSum(selected, options[..|options| - 1]) + multiset(selected)[options[|options| - 1].name]
  }

  predicate DistinctOptions(options: seq<PollOption>) {
    forall i, j :: 0 <= i < j < |options| ==> options[i].name != options[j].name
  }

  /** At most one option each, and one the card offers. */
  predicate SingleChoices(votes: map<Jid, Vote>, options: seq<PollOption>) {
    forall v :: v in votes ==>
      |votes[v].selected| <= 1 && forall s :: s in votes[v].selected ==> NamesOption(options, s)
  }

  lemma {:induction false} SelectedOnce(selected: seq<string>, options: seq<PollOption>)
    requires DistinctOptions(options) && |selected| <= 1
    ensures SelectedSum(selected, options) == if selected != [] && NamesOption(options, selected[0]) then 1 else 0
  {
    if options != [] {
      var n := |options| - 1;
      SelectedOnce(selected, options[..n]);
      if selected != [] {
        assert selected == [selected[0]];
        if i :| 0 <= i < n && options[i].name == selected[0] { assert options[..n][i].name == selected[0]; }
        if options[n].name == selected[0] { assert !NamesOption(options[..n], selected[0]); }
      } else {
        assert multiset(selected) == multiset{};
      }
    }
  }

  lemma {:induction false} ChoiceSumStep(votes: map<Jid, Vote>, order: seq<Jid>, options: seq<PollOption>)
    requires order != [] && Known(votes, order)
    ensures ChoiceSum(votes, order, options)
      == ChoiceSum(votes, order[..|order| - 1], options) + SelectedSum(votes[order[|order| - 1]].selected, options)
  {
    if options != [] { ChoiceSumStep(votes, order, options[..|options| - 1]); }
  }

  lemma {:induction false} ChoiceSumIsParticipants(votes: map<Jid, Vote>, order: seq<Jid>, options: seq<PollOption>)
    requires Known(votes, order) && DistinctOptions(options) && SingleChoices(votes, options)
    ensures ChoiceSum(votes, order, options) == Participants(votes, order)
  {
    if order == [] {
      NoChoices(votes, options);
    } else {
      var n := |order| - 1;
      ChoiceSumIsParticipants(votes, order[..n], options);
      ChoiceSumStep(votes, order, options);
      SelectedOnce(votes[order[n]].selected, options);
    }
  }

  lemma {:induction false} NoChoices(votes: map<Jid, Vote>, options: seq<PollOption>)
    ensures ChoiceSum(votes, [], options) == 0
  {
    if options != [] { NoChoices(votes, options[..|options| - 1]); }
  }

  lemma {:induction false} TalliedSum(votes: map<Jid, Vote>, options: seq<PollOption>)
    requires Known(votes, VoteOrder(votes))
    requires forall i :: 0 <= i < |options| ==> options[i] == TalliedOption(options[i], votes)
    ensures VoteSum(options) == ChoiceSum(votes, VoteOrder(votes), options)
  {
    if options != [] { TalliedSum(votes, options[..|options| - 1]); }
  }

  /** On a single-choice card the option counts add up to the number of voters. */
  lemma SingleChoiceSum(t: Tables, c: Jid, r: Row)
    requires r.media.Some? && r.media.value.Poll? && Agrees(t, c, r)
    requires DistinctOptions(r.media.value.options) && SingleChoices(Inner(t.votes, c, r.id), r.media.value.options)
    ensures VoteSum(r.media.value.options) == r.media.value.totalVoters
  {
    var votes := Inner(t.votes, c, r.id);
    VoteOrderKnown(votes);
    TalliedSum(votes, r.media.value.options);
    ChoiceSumIsParticipants(votes, VoteOrder(votes), r.media.value.options);
  }

  // --------------------------------------------------- each voter's latest vote

  function FoldVotes(stored: Option<Vote>, votes: seq<Vote>): Option<Vote> {
    if votes == [] then stored
    else Some(VoteAfter(FoldVotes(stored, votes[..|votes| - 1]), votes[|votes| - 1]))
  }

  /** Vote i is the latest: greatest timestamp, last arrival on ties. */
  predicate Latest(votes: seq<Vote>, i: nat) {
    && i < |votes|
    && (forall j :: 0 <= j < |votes| ==> votes[j].timestamp <= votes[i].timestamp)
    && (forall j :: i < j < |votes| ==> votes[j].timestamp < votes[i].timestamp)
  }

  lemma {:induction false} FoldIsLatest(votes: seq<Vote>) returns (i: nat)
    requires votes != []
    ensures Latest(votes, i) && FoldVotes(None, votes) == Some(votes[i])
  {
    var n := |votes| - 1;
    i := n;
    if n > 0 {
      var before := FoldIsLatest(votes[..n]);
      assert forall j :: 0 <= j < n ==> votes[..n][j] == votes[j];
      if votes[n].timestamp < votes[before].timestamp { i := before; }
    }
  }

  // --------------------------------------------------- reopening repairs

  /** After a reopen a card agrees exactly when it has a vote row or agreed before. */
  lemma ReopenRepairs(t: Tables, c: Jid, i: nat)
    requires i < |Rows(t.messages, c)| && UniqueIds(Rows(t.messages, c))
    ensures |Rows(Reopen(t).messages, c)| == |Rows(t.messages, c)|
    ensures Agrees(Reopen(t), c, Rows(Reopen(t).messages, c)[i])
      <==> ((c, Rows(t.messages, c)[i].id) in t.votes || Agrees(t, c, Rows(t.messages, c)[i]))
  {
    hide Tally, RepairRows;
    var rows := Rows(t.messages, c);
    RepairRowsPointwise(t, c, rows, |rows|);
    assert rows[..|rows|] == rows;
    assert Rows(Reopen(t).messages, c)[i] == Repaired(t, c, rows[i]);
    RepairedAgrees(t, c, rows[i]);
  }

  lemma RepairedAgrees(t: Tables, c: Jid, r: Row)
    ensures Agrees(t, c, Repaired(t, c, r)) <==> (c, r.id) in t.votes || Agrees(t, c, r)
  {
    hide Tally;
    if NeedsRepair(t, c, r) { TallyTwice(r.media.value, t.votes[(c, r.id)]); }
  }

  lemma {:induction false} NothingToRepair(t: Tables, c: Jid, targets: seq<Row>, rows: seq<Row>)
    requires forall i :: 0 <= i < |targets| ==> !NeedsRepair(t, c, targets[i])
    ensures RepairRows(t, c, targets, rows) == rows
  {
    if targets != [] { NothingToRepair(t, c, targets[..|targets| - 1], rows); }
  }

  /** Reopening a database whose cards agree changes nothing. */
  lemma ReopenIdle(t: Tables)
    requires forall c :: c in t.messages ==> CardsAgree(t, c)
    ensures Reopen(t) == t
  {
    forall c | c in t.messages ensures RepairRows(t, c, t.messages[c], t.messages[c]) == t.messages[c] {
      assert CardsAgree(t, c);
      forall i | 0 <= i < |t.messages[c]| ensures !NeedsRepair(t, c, t.messages[c][i]) {
        assert Agrees(t, c, Rows(t.messages, c)[i]);
      }
      NothingToRepair(t, c, t.messages[c], t.messages[c]);
    }
  }

  /** A second reopen repairs nothing more. */
  lemma ReopenTwice(t: Tables)
    requires forall c :: c in t.messages ==> UniqueIds(t.messages[c])
    ensures Reopen(Reopen(t)) == Reopen(t)
  {
    var u := Reopen(t);
    forall c | c in u.messages ensures RepairRows(u, c, u.messages[c], u.messages[c]) == u.messages[c] {
      var rows := t.messages[c];
      RepairRowsPointwise(t, c, rows, |rows|);
      assert rows[..|rows|] == rows;
      forall i | 0 <= i < |rows| ensures !NeedsRepair(u, c, u.messages[c][i]) {
        if NeedsRepair(t, c, rows[i]) { TallyTwice(rows[i].media.value, t.votes[(c, rows[i].id)]); }
      }
      NothingToRepair(u, c, u.messages[c], u.messages[c]);
    }
  }
}
