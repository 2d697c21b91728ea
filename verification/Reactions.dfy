/** Reactions: one last-writer-wins register per (chat, message, reactor). */
module Reactions {
  import opened Prelude
  import opened Schema

  datatype Event = Event(emoji: string, fromMe: bool, timestamp: int)

  /** The rows one key has in `reactions` and `reaction_tombstones`. */
  datatype Cell = Cell(visible: Option<Reaction>, tombstone: Option<int>)

  predicate Removes(e: Event) {
    e.emoji == ""
  }

  function ApplyToCell(x: Cell, e: Event): Cell {
    if Removes(e) then
      Cell(if x.visible.Some? && x.visible.value.timestamp <= e.timestamp then None else x.visible,
           if x.tombstone.None? || e.timestamp > x.tombstone.value then Some(e.timestamp) else x.tombstone)
    else if x.tombstone.Some? && x.tombstone.value >= e.timestamp then x
    else
      Cell(if x.visible.None? || e.timestamp >= x.visible.value.timestamp
           then Some(Reaction(e.emoji, e.fromMe, e.timestamp)) else x.visible,
           None)
  }

  function CellOf(t: Tables, k: ReactionKey): Cell {
    Cell(if k in t.reactions then Some(t.reactions[k]) else None,
         if k in t.reactionTombstones then Some(t.reactionTombstones[k]) else None)
  }

  function WithCell(t: Tables, k: ReactionKey, x: Cell): Tables {
    t.(reactions := if x.visible.Some? then t.reactions[k := x.visible.value] else t.reactions - {k},
       reactionTombstones := if x.tombstone.Some? then t.reactionTombstones[k := x.tombstone.value]
                             else t.reactionTombstones - {k})
  }

  function ApplyReaction(t: Tables, k: ReactionKey, e: Event): Tables {
    WithCell(t, k, ApplyToCell(CellOf(t, k), e))
  }

  /** The flag: an add reports the visible row, a removal either row. */
  predicate ReactionChanges(t: Tables, k: ReactionKey, e: Event) {
    var x, y := CellOf(t, k), ApplyToCell(CellOf(t, k), e);
    x.visible != y.visible || (Removes(e) && x.tombstone != y.tombstone)
  }

  /** A removal reports whether it moved anything; an add whether what shows is another. */
  lemma ReactionFlag(t: Tables, k: ReactionKey, e: Event)
    ensures var u := ApplyReaction(t, k, e);
      && (Removes(e) ==> (ReactionChanges(t, k, e) <==> u != t))
      && (!Removes(e) ==> (ReactionChanges(t, k, e) <==> u.reactions != t.reactions))
  {
    var x, y := CellOf(t, k), ApplyToCell(CellOf(t, k), e);
    var u := WithCell(t, k, y);
    assert CellOf(u, k) == y;
    if x == y { assert u == t; }
    if x.visible == y.visible { assert u.reactions == t.reactions; }
  }

  function FoldCell(x: Cell, es: seq<Event>): Cell {
    if es == [] then x else ApplyToCell(FoldCell(x, es[..|es| - 1]), es[|es| - 1])
  }

  const Empty := Cell(None, None)

  // --------------------------------------------------- what a register holds

  /** Event i is an add no other add follows, by timestamp and then by arrival. */
  predicate LastAdd(es: seq<Event>, i: nat) {
    && i < |es| && !Removes(es[i])
    && (forall j :: 0 <= j < |es| && !Removes(es[j]) ==> es[j].timestamp <= es[i].timestamp)
    && (forall j :: i < j < |es| && !Removes(es[j]) ==> es[j].timestamp < es[i].timestamp)
  }

  predicate AboveRemovals(es: seq<Event>, timestamp: int) {
    forall j :: 0 <= j < |es| && Removes(es[j]) ==> es[j].timestamp < timestamp
  }

  /** The add that wins: the last one, if it is strictly above every removal. */
  predicate Wins(es: seq<Event>, i: nat) {
    LastAdd(es, i) && AboveRemovals(es, es[i].timestamp)
  }

  /** The tombstone while nothing shows: the greatest removal, above every add. */
  predicate Buried(es: seq<Event>, tombstone: Option<int>) {
    && (forall j :: 0 <= j < |es| ==> tombstone.Some? && es[j].timestamp <= tombstone.value)
    && (tombstone.Some? ==> exists j :: 0 <= j < |es| && Removes(es[j]) && es[j].timestamp == tombstone.value)
  }

  predicate Explains(es: seq<Event>, x: Cell, i: nat) {
    if x.visible.None? then Buried(es, x.tombstone)
    else
      && Wins(es, i) && x.visible.value == Reaction(es[i].emoji, es[i].fromMe, es[i].timestamp)
      && (x.tombstone.Some? ==> x.tombstone.value < es[i].timestamp)
  }

  lemma {:induction false} CellExplained(es: seq<Event>) returns (i: nat)
    ensures Explains(es, FoldCell(Empty, es), i)
  {
    i := 0;
    if es != [] {
      var n := |es| - 1;
      var before := CellExplained(es[..n]);
      i := StepExplained(es, FoldCell(Empty, es[..n]), before);
    }
  }

  lemma StepExplained(es: seq<Event>, x: Cell, before: nat) returns (i: nat)
    requires es != [] && Explains(es[..|es| - 1], x, before)
    ensures Explains(es, ApplyToCell(x, es[|es| - 1]), i)
  {
    var n := |es| - 1;
    var e, y := es[n], ApplyToCell(x, es[n]);
    assert forall j :: 0 <= j < n ==> es[..n][j] == es[j];
    i := if y.visible.Some? && y.visible != x.visible then n else before;
    if y.visible.None? {
      if y.tombstone == Some(e.timestamp) && Removes(e) {
        assert es[n].timestamp == y.tombstone.value;
      } else {
        assert x.visible.None? && y.tombstone == x.tombstone;
        var j :| 0 <= j < n && Removes(es[..n][j]) && es[..n][j].timestamp == x.tombstone.value;
        assert Removes(es[j]);
      }
    } else if x.visible.Some? && y.visible == x.visible && !Removes(e) && e.timestamp == es[before].timestamp {
      i := n;
    }
  }

  /** After any events, the visible reaction is the winning add, and there is one
      exactly when some add wins. */
  lemma VisibleIsWinner(es: seq<Event>, i: nat)
    ensures Wins(es, i) ==> FoldCell(Empty, es).visible == Some(Reaction(es[i].emoji, es[i].fromMe, es[i].timestamp))
    ensures FoldCell(Empty, es).visible.None? ==> !Wins(es, i)
    ensures FoldCell(Empty, es).visible.Some? ==> exists w :: Wins(es, w)
  {
    var w := CellExplained(es);
    if Wins(es, i) && FoldCell(Empty, es).visible.Some? {
      assert w == i;
    }
  }

  ghost predicate SameEvents(a: seq<Event>, b: seq<Event>) {
    forall e :: e in a <==> e in b
  }

  /** The adds that share the winner's timestamp are the winner again. */
  predicate WinnersAgree(es: seq<Event>) {
    forall i, j :: 0 <= i < |es| && 0 <= j < |es| && Wins(es, i) && !Removes(es[j]) ==>
      (es[j].timestamp == es[i].timestamp ==> es[j] == es[i])
  }

  /** Devices that saw the same events, in any order and any number of times, agree,
      unless two different adds share the winning timestamp. */
  lemma ReactionsConverge(a: seq<Event>, b: seq<Event>)
    requires SameEvents(a, b)
    requires WinnersAgree(a)
    ensures FoldCell(Empty, a).visible == FoldCell(Empty, b).visible
  {
    var i := CellExplained(a);
    var j := CellExplained(b);
    if FoldCell(Empty, a).visible.Some? {
      Covers(a, b, i);
      var w :| Wins(b, w);
      VisibleIsWinner(b, w);
    } else if FoldCell(Empty, b).visible.Some? {
      Covers(b, a, j);
    }
    if Wins(a, i) && Wins(b, j) {
      assert a[i] in b && b[j] in a;
      var k :| 0 <= k < |a| && a[k] == b[j];
      var l :| 0 <= l < |b| && b[l] == a[i];
      assert a[k].timestamp == a[i].timestamp;
    }
  }

  /** And in that case they do differ by order alone: some rearrangement of the very same
      events shows another reaction. */
  lemma ReactionsConvergeIff(a: seq<Event>)
    ensures WinnersAgree(a) <==>
      (forall b :: multiset(b) == multiset(a) ==> FoldCell(Empty, b).visible == FoldCell(Empty, a).visible)
  {
    hide FoldCell, Wins, Removes;
    forall b | WinnersAgree(a) && multiset(b) == multiset(a)
      ensures FoldCell(Empty, b).visible == FoldCell(Empty, a).visible
    {
      forall e ensures e in a <==> e in b { assert e in multiset(a) <==> e in multiset(b); }
      ReactionsConverge(a, b);
    }
    if !WinnersAgree(a) {
      var i, j :|
        && 0 <= i < |a| && 0 <= j < |a| && Wins(a, i) && !Removes(a[j])
        && a[j].timestamp == a[i].timestamp && a[j] != a[i];
      var b := PutLast(a, i, j);
      VisibleIsWinner(a, i);
      VisibleIsWinner(b, |a| - 1);
      assert multiset(b) == multiset(a) && FoldCell(Empty, b).visible != FoldCell(Empty, a).visible;
    }
  }

  /** Any add of the winning time can come last, and then wins. */
  lemma PutLast(a: seq<Event>, i: nat, j: nat) returns (b: seq<Event>)
    requires i < |a| && j < |a| && Wins(a, i) && !Removes(a[j]) && a[j].timestamp == a[i].timestamp
    ensures multiset(b) == multiset(a) && |b| == |a| && b[|a| - 1] == a[j] && Wins(b, |a| - 1)
  {
    b := a[..j] + a[j + 1..] + [a[j]];
    assert a == a[..j] + [a[j]] + a[j + 1..];
    forall k | 0 <= k < |b| ensures b[k] in a {}
  }

  lemma Covers(a: seq<Event>, b: seq<Event>, i: nat)
    requires SameEvents(a, b)
    requires Wins(a, i)
    ensures exists j :: Wins(b, j)
  {
    assert a[i] in b;
    forall j | 0 <= j < |b| ensures b[j] in a { assert b[j] in b; }
    var l :| 0 <= l < |b| && b[l] == a[i];
    forall j | 0 <= j < |b| && !Removes(b[j]) ensures b[j].timestamp <= a[i].timestamp {
      assert b[j] in a;
      var k :| 0 <= k < |a| && a[k] == b[j];
    }
    forall j | 0 <= j < |b| && Removes(b[j]) ensures b[j].timestamp < a[i].timestamp {
      assert b[j] in a;
      var k :| 0 <= k < |a| && a[k] == b[j];
    }
    var last := LatestAt(b, a[i].timestamp, l);
    assert Wins(b, last);
  }

  /** The last arrival among the adds of one timestamp. */
  lemma LatestAt(es: seq<Event>, timestamp: int, l: nat) returns (last: nat)
    requires l < |es| && !Removes(es[l]) && es[l].timestamp == timestamp
    ensures last < |es| && !Removes(es[last]) && es[last].timestamp == timestamp
    ensures forall j :: last < j < |es| && !Removes(es[j]) ==> es[j].timestamp != timestamp
    decreases |es| - l
  {
    if j :| l < j < |es| && !Removes(es[j]) && es[j].timestamp == timestamp {
      last := LatestAt(es, timestamp, j);
    } else {
      last := l;
    }
  }

  // --------------------------------------------------- in the tables

  datatype Reacted = Reacted(key: ReactionKey, event: Event)

  function ApplyReactions(t: Tables, rs: seq<Reacted>): Tables {
    if rs == [] then t
    else ApplyReaction(ApplyReactions(t, rs[..|rs| - 1]), rs[|rs| - 1].key, rs[|rs| - 1].event)
  }

  function EventsAt(rs: seq<Reacted>, k: ReactionKey): seq<Event> {
    if rs == [] then []
    else
      var last := rs[|rs| - 1];
      EventsAt(rs[..|rs| - 1], k) + if last.key == k then [last.event] else []
  }

  /** Interleaved keys do not disturb one another. */
  lemma {:induction false} KeysAreIndependent(t: Tables, rs: seq<Reacted>, k: ReactionKey)
    ensures CellOf(ApplyReactions(t, rs), k) == FoldCell(CellOf(t, k), EventsAt(rs, k))
  {
    if rs != [] {
      var n := |rs| - 1;
      KeysAreIndependent(t, rs[..n], k);
      var es := EventsAt(rs[..n], k);
      if rs[n].key == k {
        assert (es + [rs[n].event])[..|es|] == es;
      } else {
        assert es + [] == es;
      }
    }
  }
}
