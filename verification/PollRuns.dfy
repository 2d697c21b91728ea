/** Poll cards over whole runs: the cached tallies never drift from the vote table. */
module PollRuns {
  import opened Prelude
  import opened Schema
  import opened Tallies
  import opened History
  import opened Batching
  import opened ReadState
  import opened Clearing
  import opened Soundness
  import opened Runs
  import Receipts
  import Polls

  /** The option names of a poll and how many of them one vote may select. */
  datatype Form = Form(names: seq<string>, selectable: nat)

  /** What every source of events agrees on: the one sender of each message id and,
      where it is given, the unchanging form of a poll. */
  datatype Plan = Plan(owner: (Jid, Id) -> Jid, form: (Jid, Id) -> Option<Form>)

  function Names(options: seq<PollOption>): (s: seq<string>)
    ensures |s| == |options| && forall i :: 0 <= i < |s| ==> s[i] == options[i].name
  {
    seq(|options|, i requires 0 <= i < |options| => options[i].name)
  }

  predicate Formed(media: Option<Media>, form: Option<Form>) {
    form.Some? && media.Some? && media.value.Poll? ==>
      Names(media.value.options) == form.value.names && media.value.selectable == form.value.selectable
  }

  predicate Fits(votes: map<Jid, Vote>, form: Option<Form>) {
    form.Some? ==> forall v :: v in votes ==>
      |votes[v].selected| <= form.value.selectable && forall s :: s in votes[v].selected ==> s in form.value.names
  }

  /** A card as its creation message carries it: nobody has voted. */
  predicate Unvoted(media: Option<Media>) {
    media.Some? && media.value.Poll? ==>
      && media.value.totalVoters == 0
      && forall i :: 0 <= i < |media.value.options| ==>
           var o := media.value.options[i]; o.votes == 0 && !o.selectedByMe && o.voterJids == []
  }

  predicate Proper(c: Jid, m: Message, plan: Plan) {
    m.sender == plan.owner(c, m.id) && Unvoted(m.media) && Formed(m.media, plan.form(c, m.id))
  }

  /** One card per id, cards inserted without votes, and every card of the planned form. */
  predicate Legal(e: Event, plan: Plan) {
    match e
    case Arrive(c, ins) => Proper(c, ins.message, plan)
    case Replay(h, ms) => forall i :: 0 <= i < |ms| ==> Proper(h.jid, ms[i], plan)
    case Complete(c, id, media) => Formed(Some(media), plan.form(c, id))
    case _ => true
  }

  predicate Owned(t: Tables, c: Jid, plan: Plan) {
    forall i :: 0 <= i < |Rows(t.messages, c)| ==>
      Rows(t.messages, c)[i].sender == plan.owner(c, Rows(t.messages, c)[i].id)
  }

  ghost predicate Tallied(t: Tables, c: Jid) {
    && Polls.CardsAgree(t, c)
    && forall p :: p in t.votes && p.0 == c ==> Polls.VotesDistinct(t.votes[p])
  }

  predicate FormSound(t: Tables, c: Jid, plan: Plan) {
    && (forall i :: 0 <= i < |Rows(t.messages, c)| ==>
        Formed(Rows(t.messages, c)[i].media, plan.form(c, Rows(t.messages, c)[i].id)))
    && (forall p :: p in t.votes && p.0 == c ==> Fits(t.votes[p], plan.form(c, p.1)))
  }

  ghost predicate PollSound(t: Tables, c: Jid, plan: Plan) {
    Owned(t, c, plan) && Tallied(t, c) && FormSound(t, c, plan)
  }

  lemma OwnedIdsAreUnique(t: Tables, c: Jid, plan: Plan)
    requires Owned(t, c, plan) && UniqueKeys(Rows(t.messages, c))
    ensures Polls.UniqueIds(Rows(t.messages, c))
  {
  }

  // --------------------------------------------------- rows that carry on

  /** The row repeats an earlier one, whose votes are unchanged. */
  predicate CarriesOn(t: Tables, u: Tables, c: Jid, q: Row, r: Row) {
    && q in Rows(t.messages, c) && q.sender == r.sender && q.id == r.id && q.media == r.media
    && Inner(u.votes, c, r.id) == Inner(t.votes, c, r.id)
  }

  ghost predicate Inherits(t: Tables, u: Tables, c: Jid) {
    && (forall r :: r in Rows(u.messages, c) ==> exists q :: CarriesOn(t, u, c, q, r))
    && (forall p :: p in u.votes && p.0 == c ==> p in t.votes && u.votes[p] == t.votes[p])
  }

  lemma InheritsSound(t: Tables, u: Tables, c: Jid, plan: Plan)
    requires Inherits(t, u, c) && PollSound(t, c, plan)
    ensures PollSound(u, c, plan)
  {
    forall i | 0 <= i < |Rows(u.messages, c)|
      ensures Rows(u.messages, c)[i].sender == plan.owner(c, Rows(u.messages, c)[i].id) &&
        Polls.Agrees(u, c, Rows(u.messages, c)[i])
      ensures Formed(Rows(u.messages, c)[i].media, plan.form(c, Rows(u.messages, c)[i].id))
    {
      var r := Rows(u.messages, c)[i];
      assert r in Rows(u.messages, c);
      var q :| CarriesOn(t, u, c, q, r);
      var j :| 0 <= j < |Rows(t.messages, c)| && Rows(t.messages, c)[j] == q;
      assert Polls.Agrees(t, c, q);
    }
  }

  /** Same rows up to other columns, same votes. */
  lemma PointwiseInherits(t: Tables, u: Tables, c: Jid)
    requires |Rows(u.messages, c)| == |Rows(t.messages, c)| && u.votes == t.votes
    requires forall i :: 0 <= i < |Rows(u.messages, c)| ==>
      var q, r := Rows(t.messages, c)[i], Rows(u.messages, c)[i];
      q.sender == r.sender && q.id == r.id && q.media == r.media
    ensures Inherits(t, u, c)
  {
    forall r | r in Rows(u.messages, c) ensures exists q :: CarriesOn(t, u, c, q, r) {
      var i :| 0 <= i < |Rows(u.messages, c)| && Rows(u.messages, c)[i] == r;
      assert CarriesOn(t, u, c, Rows(t.messages, c)[i], r);
    }
  }

  /** Some of the same rows, whose votes are kept. */
  lemma ThinnedInherits(t: Tables, u: Tables, c: Jid)
    requires forall r :: r in Rows(u.messages, c) ==>
      r in Rows(t.messages, c) && Inner(u.votes, c, r.id) == Inner(t.votes, c, r.id)
    requires forall p :: p in u.votes && p.0 == c ==> p in t.votes && u.votes[p] == t.votes[p]
    ensures Inherits(t, u, c)
  {
    forall r | r in Rows(u.messages, c) ensures exists q :: CarriesOn(t, u, c, q, r) {
      assert CarriesOn(t, u, c, r, r);
    }
  }

  lemma PrunePolls(t: Tables, c: Jid, d: Jid, plan: Plan)
    requires PollSound(t, d, plan)
    ensures PollSound(Prune(t, c), d, plan)
  {
    var u := Prune(t, c);
    forall r | r in Rows(u.messages, d)
      ensures r in Rows(t.messages, d) && Inner(u.votes, d, r.id) == Inner(t.votes, d, r.id)
    {
      var i :| 0 <= i < |Rows(u.messages, d)| && Rows(u.messages, d)[i] == r;
      assert HasId(Rows(u.messages, d), r.id);
    }
    ThinnedInherits(t, u, d);
    InheritsSound(t, u, d, plan);
  }

  // --------------------------------------------------- inserts

  lemma {:induction false} NoVotesTally(media: Media)
    requires Unvoted(Some(media))
    ensures Tally(media, map[]) == media
  {
    if media.Poll? {
      assert VoteOrder(map[]) == [];
      forall i | 0 <= i < |media.options| ensures TalliedOption(media.options[i], map[]) == media.options[i] {}
      assert TalliedOptions(media.options, map[]) == media.options;
    }
  }

  lemma InsertPolls(t: Tables, c: Jid, ins: Insert, d: Jid, plan: Plan)
    requires PollSound(t, d, plan) && NoOrphans(t, d) && Proper(c, ins.message, plan)
    ensures PollSound(InsertMessage(t, c, ins), d, plan)
  {
    var u := InsertMessage(t, c, ins);
    assert u.votes == t.votes;
    InsertShape(t, c, ins);
    if d != c { InsertElsewhere(t, c, ins, d); }
    if d == c && Stores(t, c, ins) {
      var rows, row := Rows(t.messages, c), NewRow(t, c, ins);
      assert forall i :: 0 <= i < |rows| && rows[i].id == row.id ==> rows[i].sender == row.sender;
      assert !HasId(rows, row.id);
      if row.media.Some? { NoVotesTally(row.media.value); }
      assert Polls.Agrees(u, c, row);
      forall i | 0 <= i < |rows| + 1
        ensures Rows(u.messages, c)[i].sender == plan.owner(c, Rows(u.messages, c)[i].id) &&
          Polls.Agrees(u, c, Rows(u.messages, c)[i])
        ensures Formed(Rows(u.messages, c)[i].media, plan.form(c, Rows(u.messages, c)[i].id))
      {
        if i < |rows| { assert Polls.Agrees(t, c, rows[i]); }
      }
    } else {
      PointwiseInherits(t, u, d);
      InheritsSound(t, u, d, plan);
    }
  }

  // --------------------------------------------------- cards rewritten in place

  lemma TallyKeepsForm(media: Media, votes: map<Jid, Vote>, form: Option<Form>)
    requires Formed(Some(media), form)
    ensures Formed(Some(Tally(media, votes)), form)
  {
    if media.Poll? { assert Names(TalliedOptions(media.options, votes)) == Names(media.options); }
  }

  lemma MediaPolls(t: Tables, c: Jid, id: Id, media: Media, d: Jid, plan: Plan)
    requires PollSound(t, d, plan) && Formed(Some(media), plan.form(c, id))
    ensures PollSound(UpdateMedia(t, c, id, media), d, plan)
  {
    var u := UpdateMedia(t, c, id, media);
    if d != c {
      PointwiseInherits(t, u, d);
      InheritsSound(t, u, d, plan);
    } else {
      var carried := Carried(media, StoredMedia(Rows(t.messages, c), id));
      TallyTwice(carried, Inner(t.votes, c, id));
      TallyKeepsForm(carried, Inner(t.votes, c, id), plan.form(c, id));
      forall i | 0 <= i < |Rows(u.messages, c)|
        ensures Polls.Agrees(u, c, Rows(u.messages, c)[i])
        ensures Formed(Rows(u.messages, c)[i].media, plan.form(c, Rows(u.messages, c)[i].id))
      {
        assert Polls.Agrees(t, c, Rows(t.messages, c)[i]);
      }
    }
  }

  lemma VotePolls(t: Tables, v: Polls.VoteCall, d: Jid, plan: Plan)
    requires PollSound(t, d, plan) && UniqueKeys(Rows(t.messages, d))
    ensures PollSound(Polls.ApplyVote(t, v), d, plan)
  {
    if Polls.Accepts(t, v) {
      var u := Polls.ApplyVote(t, v);
      if d != v.chat {
        UntouchedInherits(t, u, d);
        InheritsSound(t, u, d, plan);
      } else {
        OwnedIdsAreUnique(t, d, plan);
        CastPolls(t, v);
        CastForms(t, v, plan);
        assert Owned(u, d, plan);
      }
    }
  }

  lemma UntouchedInherits(t: Tables, u: Tables, c: Jid)
    requires Rows(u.messages, c) == Rows(t.messages, c)
    requires forall p: (Jid, Id) :: p.0 == c ==>
      (p in u.votes <==> p in t.votes) && (p in u.votes ==> u.votes[p] == t.votes[p])
    ensures Inherits(t, u, c)
  {
    ThinnedInherits(t, u, c);
  }

  lemma CastVotes(t: Tables, v: Polls.VoteCall)
    requires Polls.Accepts(t, v)
    requires forall p :: p in t.votes && p.0 == v.chat ==> Polls.VotesDistinct(t.votes[p])
    ensures forall p :: p in Polls.ApplyVote(t, v).votes && p.0 == v.chat ==>
      Polls.VotesDistinct(Polls.ApplyVote(t, v).votes[p])
    ensures Polls.VotesDistinct(Polls.VotesAfter(t, v))
  {
    var votes, before := Polls.VotesAfter(t, v), Inner(t.votes, v.chat, v.id);
    assert Polls.VotesDistinct(before);
    forall w | w in votes ensures Distinct(votes[w].selected) {
      if w in before { assert Distinct(before[w].selected); }
    }
  }

  lemma FindUniqueId(rows: seq<Row>, i: nat)
    requires Polls.UniqueIds(rows) && i < |rows|
    ensures FindId(rows, rows[i].id) == Some(rows[i])
  {
    assert HasId(rows, rows[i].id);
    var r := FindId(rows, rows[i].id).value;
    var j :| 0 <= j < |rows| && rows[j] == r;
    assert j == i;
  }

  /** A vote rewrites its own card and leaves the other rows as they are. */
  lemma CastRows(t: Tables, v: Polls.VoteCall, i: nat)
    requires Polls.Accepts(t, v) && Polls.UniqueIds(Rows(t.messages, v.chat)) && i < |Rows(t.messages, v.chat)|
    ensures |Rows(Polls.ApplyVote(t, v).messages, v.chat)| == |Rows(t.messages, v.chat)|
    ensures Rows(Polls.ApplyVote(t, v).messages, v.chat)[i] == CastRow(t, v, Rows(t.messages, v.chat)[i])
  {
    var c, rows, card := v.chat, Rows(t.messages, v.chat), Polls.Card(t, v.chat, v.id).value;
    var tallied := Tally(card, Polls.VotesAfter(t, v));
    VotedRows(t, v);
    FindUniqueId(rows, i);
    if rows[i].id == v.id {
      assert rows[i].media == Some(card);
    }
  }

  lemma VotedRows(t: Tables, v: Polls.VoteCall)
    requires Polls.Accepts(t, v)
    ensures var card := Polls.Card(t, v.chat, v.id).value; var tallied := Tally(card, Polls.VotesAfter(t, v));
      Rows(Polls.ApplyVote(t, v).messages, v.chat) ==
      if tallied == card then Rows(t.messages, v.chat)
      else EditRows(SetMedia(v.id, tallied, false), Rows(t.messages, v.chat))
  {
  }

  ghost function CastRow(t: Tables, v: Polls.VoteCall, r: Row): Row
    requires Polls.Accepts(t, v)
  {
    if r.id == v.id then r.(media := Some(Tally(Polls.Card(t, v.chat, v.id).value, Polls.VotesAfter(t, v)))) else r
  }

  lemma CastPolls(t: Tables, v: Polls.VoteCall)
    requires Polls.Accepts(t, v) && Tallied(t, v.chat) && Polls.UniqueIds(Rows(t.messages, v.chat))
    ensures Tallied(Polls.ApplyVote(t, v), v.chat)
    ensures |Rows(Polls.ApplyVote(t, v).messages, v.chat)| == |Rows(t.messages, v.chat)|
    ensures forall i :: 0 <= i < |Rows(t.messages, v.chat)| ==>
      var q, r := Rows(t.messages, v.chat)[i], Rows(Polls.ApplyVote(t, v).messages, v.chat)[i];
      q.sender == r.sender && q.id == r.id
  {
    var c, rows, u := v.chat, Rows(t.messages, v.chat), Polls.ApplyVote(t, v);
    CastVotes(t, v);
    assert Inner(u.votes, c, v.id) == Polls.VotesAfter(t, v);
    TallyTwice(Polls.Card(t, v.chat, v.id).value, Polls.VotesAfter(t, v));
    forall i | 0 <= i < |rows|
      ensures rows[i].sender == Rows(u.messages, c)[i].sender && rows[i].id == Rows(u.messages, c)[i].id
      ensures Polls.Agrees(u, c, Rows(u.messages, c)[i])
    {
      CastRows(t, v, i);
      assert Polls.Agrees(t, c, rows[i]);
    }
  }

  lemma CastForms(t: Tables, v: Polls.VoteCall, plan: Plan)
    requires Polls.Accepts(t, v) && FormSound(t, v.chat, plan) && Polls.UniqueIds(Rows(t.messages, v.chat))
    ensures FormSound(Polls.ApplyVote(t, v), v.chat, plan)
  {
    var c, rows, u := v.chat, Rows(t.messages, v.chat), Polls.ApplyVote(t, v);
    var card, votes := Polls.Card(t, c, v.id).value, Polls.VotesAfter(t, v);
    var row := FindId(rows, v.id).value;
    var k :| 0 <= k < |rows| && rows[k] == row;
    assert Formed(Some(card), plan.form(c, v.id));
    TallyKeepsForm(card, votes, plan.form(c, v.id));
    forall i | 0 <= i < |rows| ensures Formed(Rows(u.messages, c)[i].media, plan.form(c, Rows(u.messages, c)[i].id)) {
      CastRows(t, v, i);
    }
    CastRows(t, v, k);
    CastFits(t, v, plan.form(c, v.id));
  }

  lemma CastFits(t: Tables, v: Polls.VoteCall, form: Option<Form>)
    requires Polls.Accepts(t, v) && Formed(Polls.Card(t, v.chat, v.id), form) &&
      Fits(Inner(t.votes, v.chat, v.id), form)
    ensures Fits(Polls.VotesAfter(t, v), form)
  {
    var card, cast := Polls.Card(t, v.chat, v.id).value, Polls.CastVote(t, v);
    if form.Some? {
      forall s | s in cast.selected ensures s in form.value.names {
        assert Polls.NamesOption(card.options, s);
        var i :| 0 <= i < |card.options| && card.options[i].name == s;
        assert Names(card.options)[i] == s;
      }
    }
  }

  // --------------------------------------------------- removals and repairs

  lemma DeleteThroughKeepsVotes(t: Tables, c: Jid, upTo: int, r: Row)
    requires Polls.UniqueIds(Rows(t.messages, c)) && r in CutRows(Through(upTo), Rows(t.messages, c))
    ensures r in Rows(t.messages, c) && Inner(DeleteThrough(t, c, upTo).votes, c, r.id) == Inner(t.votes, c, r.id)
  {
    var rows := Rows(t.messages, c);
    assert r in rows && r.timestamp > upTo;
    var i :| 0 <= i < |rows| && rows[i] == r;
    assert !HasIdThrough(rows, r.id, upTo);
  }

  lemma DeleteThroughInherits(t: Tables, c: Jid, upTo: int)
    requires Polls.UniqueIds(Rows(t.messages, c))
    ensures Inherits(t, DeleteThrough(t, c, upTo), c)
  {
    var u := DeleteThrough(t, c, upTo);
    assert Rows(u.messages, c) == CutRows(Through(upTo), Rows(t.messages, c));
    forall r | r in Rows(u.messages, c)
      ensures r in Rows(t.messages, c) && Inner(u.votes, c, r.id) == Inner(t.votes, c, r.id)
    {
      DeleteThroughKeepsVotes(t, c, upTo, r);
    }
    ThinnedInherits(t, u, c);
  }

  lemma DeleteThroughPolls(t: Tables, c: Jid, upTo: int, d: Jid, plan: Plan)
    requires PollSound(t, d, plan) && UniqueKeys(Rows(t.messages, d))
    ensures PollSound(DeleteThrough(t, c, upTo), d, plan)
  {
    var u := DeleteThrough(t, c, upTo);
    OwnedIdsAreUnique(t, d, plan);
    if d == c { DeleteThroughInherits(t, c, upTo); } else { UntouchedInherits(t, u, d); }
    InheritsSound(t, u, d, plan);
  }

  lemma ClearPolls(t: Tables, c: Jid, at: int, d: Jid, plan: Plan)
    requires PollSound(t, d, plan) && UniqueKeys(Rows(t.messages, d))
    ensures PollSound(ClearChat(t, c, at), d, plan) && PollSound(DeleteChat(t, c, at), d, plan)
  {
    if !Clearing.Stale(t, c, at) {
      var u := DeleteThrough(t, c, at);
      DeleteThroughPolls(t, c, at, d, plan);
      UntouchedInherits(u, Sweep(u, c, at), d);
      InheritsSound(u, Sweep(u, c, at), d, plan);
      UntouchedInherits(u, Bury(u, c, at), d);
      InheritsSound(u, Bury(u, c, at), d, plan);
    }
  }

  lemma DeleteMessagePolls(t: Tables, c: Jid, id: Id, d: Jid, plan: Plan)
    requires PollSound(t, d, plan)
    ensures PollSound(DeleteMessage(t, c, id), d, plan)
  {
    var u := DeleteMessage(t, c, id);
    if d == c { ThinnedInherits(t, u, c); } else { UntouchedInherits(t, u, d); }
    InheritsSound(t, u, d, plan);
  }

  lemma ReopenPolls(t: Tables, d: Jid, plan: Plan)
    requires PollSound(t, d, plan)
    ensures PollSound(Polls.Reopen(t), d, plan)
  {
    var rows := Rows(t.messages, d);
    forall i | 0 <= i < |rows| ensures !Polls.NeedsRepair(t, d, rows[i]) {
      assert Polls.Agrees(t, d, rows[i]);
    }
    Polls.NothingToRepair(t, d, rows, rows);
    UntouchedInherits(t, Polls.Reopen(t), d);
    InheritsSound(t, Polls.Reopen(t), d, plan);
  }

  // --------------------------------------------------- events that carry cards along

  lemma NamePolls(t: Tables, jid: Jid, name: string, source: int, d: Jid, plan: Plan)
    requires PollSound(t, d, plan)
    ensures PollSound(UpdateContactName(t, jid, name, source), d, plan)
  {
    var u := UpdateContactName(t, jid, name, source);
    if NameApplies(t, jid, name, source) {
      assert Rows(u.messages, d) == EditRows(Rename(jid, Trim(name)), Rows(t.messages, d));
    }
    PointwiseInherits(t, u, d);
    InheritsSound(t, u, d, plan);
  }

  lemma BoundaryPolls(t: Tables, c: Jid, at: int, ids: seq<Id>, d: Jid, plan: Plan)
    requires PollSound(t, d, plan)
    ensures PollSound(ApplyBoundary(t, c, at, ids), d, plan)
  {
    MarkRowsExact(Rows(t.messages, c), NewBoundary(SettingsOf(t.settings, c), at, ids), ids);
    PointwiseInherits(t, ApplyBoundary(t, c, at, ids), d);
    InheritsSound(t, ApplyBoundary(t, c, at, ids), d, plan);
  }

  lemma {:induction false} DeliverPolls(t: Tables, rs: seq<Receipts.Receipt>, d: Jid, plan: Plan)
    requires PollSound(t, d, plan)
    ensures PollSound(Receipts.ReceiveAll(t, rs), d, plan)
  {
    if rs != [] {
      var u := Receipts.ReceiveAll(t, rs[..|rs| - 1]);
      DeliverPolls(t, rs[..|rs| - 1], d, plan);
      PointwiseInherits(u, Receipts.ReceiveOne(u, rs[|rs| - 1]), d);
      InheritsSound(u, Receipts.ReceiveOne(u, rs[|rs| - 1]), d, plan);
    }
  }

  lemma HistoryMessagePolls(t: Tables, h: HistoryChat, m: Message, d: Jid, plan: Plan)
    requires PollSound(t, d, plan) && Good(t, d) && Proper(h.jid, m, plan)
    ensures PollSound(HistoryMessage(t, h, m).0, d, plan)
  {
    var named, ins := LearnName(t, m), HistoryInsert(h, m);
    NameGood(t, m.sender, m.senderName, 0, d);
    NamePolls(t, m.sender, m.senderName, 0, d, plan);
    InsertPolls(named, h.jid, ins, d, plan);
    var stored := InsertMessage(named, h.jid, ins);
    if m.media.Some? { MediaPolls(stored, h.jid, m.id, m.media.value, d, plan); }
    HistoryIsStore(t, h, m);
  }

  lemma {:induction false} ReplayPolls(t: Tables, h: HistoryChat, ms: seq<Message>, d: Jid, plan: Plan)
    requires PollSound(t, d, plan) && Good(t, d) && forall i :: 0 <= i < |ms| ==> Proper(h.jid, ms[i], plan)
    ensures PollSound(HistoryMessages(t, h, ms).0, d, plan)
  {
    if ms != [] {
      ReplayPolls(t, h, ms[..|ms| - 1], d, plan);
      HistoryMessagesGood(t, h, ms[..|ms| - 1], d);
      HistoryMessagePolls(HistoryMessages(t, h, ms[..|ms| - 1]).0, h, ms[|ms| - 1], d, plan);
    }
  }

  lemma BatchPolls(t: Tables, h: HistoryChat, ms: seq<Message>, d: Jid, plan: Plan)
    requires PollSound(t, d, plan) && Good(t, d) && forall i :: 0 <= i < |ms| ==> Proper(h.jid, ms[i], plan)
    ensures PollSound(Batch(t, h, ms).0, d, plan)
  {
    hide PollSound, Good;
    var u := InsertChat(t, h);
    ChatRowGood(t, h, d);
    UntouchedInherits(t, u, d);
    InheritsSound(t, u, d, plan);
    ReplayPolls(u, h, ms, d, plan);
    PrunePolls(HistoryMessages(u, h, ms).0, h.jid, d, plan);
  }

  // --------------------------------------------------- the theorem

  lemma BesidePolls(t: Tables, e: Event, d: Jid, plan: Plan)
    requires PollSound(t, d, plan)
    requires KeepsRows(e)
    ensures PollSound(Apply(t, e), d, plan)
  {
    BesideEvents(t, e, d);
    BesideInherits(t, Apply(t, e), d, plan);
  }

  lemma BesideInherits(t: Tables, u: Tables, d: Jid, plan: Plan)
    requires PollSound(t, d, plan) && Beside(t, u, d) && u.votes == t.votes
    ensures PollSound(u, d, plan)
  {
    UntouchedInherits(t, u, d);
    InheritsSound(t, u, d, plan);
  }

  lemma ArrivePolls(t: Tables, c: Jid, ins: Insert, d: Jid, plan: Plan)
    requires PollSound(t, d, plan) && Sound(t, d) && Legal(Arrive(c, ins), plan)
    ensures PollSound(InsertAndPrune(t, c, ins), d, plan)
  {
    InsertPolls(t, c, ins, d, plan);
    PrunePolls(InsertMessage(t, c, ins), c, d, plan);
  }

  lemma ReplayedPolls(t: Tables, h: HistoryChat, ms: seq<Message>, d: Jid, plan: Plan)
    requires PollSound(t, d, plan) && Sound(t, d) && Legal(Replay(h, ms), plan)
    ensures PollSound(Batch(t, h, ms).0, d, plan)
  {
    BatchPolls(t, h, ms, d, plan);
  }

  lemma CompletePolls(t: Tables, c: Jid, id: Id, media: Media, d: Jid, plan: Plan)
    requires PollSound(t, d, plan) && Legal(Complete(c, id, media), plan)
    ensures PollSound(UpdateMedia(t, c, id, media), d, plan)
  {
    MediaPolls(t, c, id, media, d, plan);
  }

  lemma CastVotePolls(t: Tables, v: Polls.VoteCall, d: Jid, plan: Plan)
    requires PollSound(t, d, plan) && Sound(t, d)
    ensures PollSound(Polls.ApplyVote(t, v), d, plan)
  {
    VotePolls(t, v, d, plan);
  }

  lemma SweepPolls(t: Tables, c: Jid, at: int, d: Jid, plan: Plan)
    requires PollSound(t, d, plan) && Sound(t, d)
    ensures PollSound(ClearChat(t, c, at), d, plan) && PollSound(DeleteChat(t, c, at), d, plan)
  {
    ClearPolls(t, c, at, d, plan);
  }

  lemma ApplyPolls(t: Tables, e: Event, d: Jid, plan: Plan)
    requires PollSound(t, d, plan) && Sound(t, d) && Legal(e, plan)
    ensures PollSound(Apply(t, e), d, plan)
  {
    hide PollSound, Sound, Legal;
    hide InsertAndPrune, Batch, UpdateContactName, UpdateMedia;
    hide ApplyBoundary, ExplicitUnread, StampReadState, ReconcileUnread;
    hide ClearChat, DeleteChat, DeleteMessage, Receipts.ReceiveAll, Polls.ApplyVote, Polls.Reopen;
    hide Reactions.ApplyReaction, ReadOutbox.QueueReads, ReadOutbox.FinishBatch;
    if KeepsRows(e) {
      BesidePolls(t, e, d, plan);
    } else {
      match e
      case Arrive(c, ins) => ArrivePolls(t, c, ins, d, plan);
      case Replay(h, ms) => ReplayedPolls(t, h, ms, d, plan);
      case Name(jid, name, source) => NamePolls(t, jid, name, source, d, plan);
      case Complete(c, id, media) => CompletePolls(t, c, id, media, d, plan);
      case Boundary(c, at, ids) => BoundaryPolls(t, c, at, ids, d, plan);
      case Clear(c, at) => SweepPolls(t, c, at, d, plan);
      case Delete(c, at) => SweepPolls(t, c, at, d, plan);
      case DeleteOne(c, id) => DeleteMessagePolls(t, c, id, d, plan);
      case Deliver(rs) => DeliverPolls(t, rs, d, plan);
      case Cast(v) => CastVotePolls(t, v, d, plan);
      case Reopened => ReopenPolls(t, d, plan);
    }
  }

  /** In every reachable state every stored card agrees with the vote table. */
  lemma {:induction false} CardsAlwaysAgree(keep: nat, es: seq<Event>, c: Jid, plan: Plan)
    requires keep > 0 && forall i :: 0 <= i < |es| ==> Legal(es[i], plan)
    ensures PollSound(Run(Fresh(keep), es), c, plan)
  {
    if es != [] {
      var front := es[..|es| - 1];
      forall i | 0 <= i < |front| ensures Legal(front[i], plan) { assert front[i] == es[i]; }
      CardsAlwaysAgree(keep, front, c, plan);
      ReachableIsSound(keep, front, c);
      ApplyPolls(Run(Fresh(keep), front), es[|es| - 1], c, plan);
    }
  }

  /** In every reachable state, on a single-choice poll whose distinct options never
      change, the option counts add up to the number of people who voted. */
  lemma SingleChoiceAlwaysSums(keep: nat, es: seq<Event>, c: Jid, plan: Plan, r: Row)
    requires keep > 0 && forall i :: 0 <= i < |es| ==> Legal(es[i], plan)
    requires r in Rows(Run(Fresh(keep), es).messages, c) && r.media.Some? && r.media.value.Poll?
    requires plan.form(c, r.id).Some? && plan.form(c, r.id).value.selectable == 1
    requires Distinct(plan.form(c, r.id).value.names)
    ensures Polls.VoteSum(r.media.value.options) == r.media.value.totalVoters
  {
    var t := Run(Fresh(keep), es);
    CardsAlwaysAgree(keep, es, c, plan);
    var i :| 0 <= i < |Rows(t.messages, c)| && Rows(t.messages, c)[i] == r;
    assert Polls.Agrees(t, c, r) && Formed(r.media, plan.form(c, r.id));
    var votes, options := Inner(t.votes, c, r.id), r.media.value.options;
    assert forall j :: 0 <= j < |options| ==> options[j].name == Names(options)[j];
    assert Fits(votes, plan.form(c, r.id));
    forall v, s | v in votes && s in votes[v].selected ensures Polls.NamesOption(options, s) {
      assert s in Names(options);
      var j :| 0 <= j < |Names(options)| && Names(options)[j] == s;
      assert options[j].name == s;
    }
    Polls.SingleChoiceSum(t, c, r);
  }
}
