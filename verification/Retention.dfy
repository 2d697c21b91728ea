/** `prune_chat_history`: keep the newest rows of a chat, the earlier rowid on ties. */
module Retention {
  import opened Prelude
  import opened Schema

  function RemoveAt(rows: seq<Row>, i: nat): (out: seq<Row>)
    requires i < |rows|
    ensures |out| == |rows| - 1
  {
    rows[..i] + rows[i + 1..]
  }

  /** The row every other row precedes: the oldest, and the last inserted of those. */
  function Worst(rows: seq<Row>): (w: nat)
    requires rows != []
    ensures w < |rows|
    ensures forall i :: 0 <= i < |rows| ==> rows[w].timestamp <= rows[i].timestamp
    ensures forall i :: w < i < |rows| ==> rows[w].timestamp < rows[i].timestamp
  {
    var n := |rows| - 1;
    if n == 0 then 0
    else
      var w := Worst(rows[..n]);
      if rows[n].timestamp <= rows[w].timestamp then n else w
  }

  lemma WorstIsUnique(rows: seq<Row>, w: nat)
    requires w < |rows|
    requires forall i :: 0 <= i < |rows| ==> rows[w].timestamp <= rows[i].timestamp
    requires forall i :: w < i < |rows| ==> rows[w].timestamp < rows[i].timestamp
    ensures w == Worst(rows)
  {
  }

  function Retain(rows: seq<Row>, k: nat): (out: seq<Row>)
    ensures |out| == Min(|rows|, k)
    ensures forall r :: r in out ==> r in rows
    decreases |rows|
  {
    if |rows| <= k then rows else Retain(RemoveAt(rows, Worst(rows)), k)
  }

  // ------------------------------------------------------------ what survives

  lemma {:induction false} RetainKeepsKeys(rows: seq<Row>, k: nat)
    requires UniqueKeys(rows)
    ensures UniqueKeys(Retain(rows, k))
    decreases |rows|
  {
    if |rows| > k { RetainKeepsKeys(RemoveAt(rows, Worst(rows)), k); }
  }

  lemma {:induction false} RemoveUnread(rows: seq<Row>, i: nat)
    requires i < |rows|
    ensures UnreadCount(RemoveAt(rows, i)) + (if Unread(rows[i]) then 1 else 0) == UnreadCount(rows)
  {
    var n := |rows| - 1;
    var out := RemoveAt(rows, i);
    if i == n {
      assert out == rows[..n];
    } else {
      RemoveUnread(rows[..n], i);
      assert out[..n - 1] == RemoveAt(rows[..n], i);
      assert out[n - 1] == rows[n];
    }
  }

  lemma {:induction false} RetainUnread(rows: seq<Row>, k: nat)
    ensures UnreadCount(Retain(rows, k)) <= UnreadCount(rows)
    decreases |rows|
  {
    if |rows| > k {
      RemoveUnread(rows, Worst(rows));
      RetainUnread(RemoveAt(rows, Worst(rows)), k);
    }
  }

  lemma RemovedIsOneRow(rows: seq<Row>, i: nat, r: Row)
    requires i < |rows| && r in rows && r !in RemoveAt(rows, i)
    ensures r == rows[i]
  {
    assert rows == rows[..i] + [rows[i]] + rows[i + 1..];
  }

  /** Every kept row is at least as new as every evicted one. */
  lemma {:induction false} EvictedIsOlder(rows: seq<Row>, k: nat, kept: Row, gone: Row)
    requires kept in Retain(rows, k) && gone in rows && gone !in Retain(rows, k)
    ensures gone.timestamp <= kept.timestamp
    decreases |rows|
  {
    if |rows| > k {
      var rest := RemoveAt(rows, Worst(rows));
      if gone in rest {
        EvictedIsOlder(rest, k, kept, gone);
      } else {
        RemovedIsOneRow(rows, Worst(rows), gone);
        assert kept in rows;
      }
    }
  }

  // ------------------------------------- ORDER BY timestamp DESC LIMIT k, by rank

  /** Row j comes ahead of row i in `ORDER BY timestamp DESC`. */
  predicate Ahead(rows: seq<Row>, j: nat, i: nat)
    requires j < |rows| && i < |rows|
  {
    rows[j].timestamp > rows[i].timestamp || (rows[j].timestamp == rows[i].timestamp && j < i)
  }

  /** How many of the first n rows come ahead of row i. */
  function Rank(rows: seq<Row>, i: nat, n: nat): (r: nat)
    requires i < |rows| && n <= |rows|
    ensures r <= n
  {
    if n == 0 then 0 else Rank(rows, i, n - 1) + if Ahead(rows, n - 1, i) then 1 else 0
  }

  /** Everything is ahead of the worst row, and it is ahead of nothing. */
  lemma {:induction false} RankOfWorst(rows: seq<Row>, n: nat)
    requires rows != [] && n <= |rows|
    ensures Rank(rows, Worst(rows), n) == if n <= Worst(rows) then n else n - 1
  {
    if n > 0 { RankOfWorst(rows, n - 1); }
  }

  lemma AheadWithoutWorst(rows: seq<Row>, j: nat, i: nat)
    requires i < |rows| && j < |rows| && i != Worst(rows) && j != Worst(rows)
    ensures Ahead(RemoveAt(rows, Worst(rows)), Shifted(rows, j), Shifted(rows, i)) == Ahead(rows, j, i)
  {
  }

  lemma WorstIsBehind(rows: seq<Row>, i: nat)
    requires i < |rows| && i != Worst(rows)
    ensures !Ahead(rows, Worst(rows), i)
  {
  }

  lemma {:induction false} RankWithoutWorst(rows: seq<Row>, i: nat, n: nat)
    requires i < |rows| && n <= |rows| && i != Worst(rows)
    ensures var w := Worst(rows);
            Rank(RemoveAt(rows, w), if i < w then i else i - 1, if n <= w then n else n - 1) == Rank(rows, i, n)
  {
    hide RemoveAt, Ahead;
    if n > 0 {
      RankWithoutWorst(rows, i, n - 1);
      if n - 1 != Worst(rows) { AheadWithoutWorst(rows, n - 1, i); } else { WorstIsBehind(rows, i); }
    }
  }

  /** Where row i is once the worst row is gone. */
  function Shifted(rows: seq<Row>, i: nat): (j: nat)
    requires i < |rows| && i != Worst(rows)
    ensures j < |rows| - 1 && RemoveAt(rows, Worst(rows))[j] == rows[i]
  {
    if i < Worst(rows) then i else i - 1
  }

  lemma RankShifted(rows: seq<Row>, i: nat)
    requires i < |rows| && i != Worst(rows)
    ensures var rest := RemoveAt(rows, Worst(rows));
      Rank(rest, Shifted(rows, i), |rest|) == Rank(rows, i, |rows|)
  {
    RankWithoutWorst(rows, i, |rows|);
  }

  /** A row survives exactly when fewer than k rows are ahead of it. */
  lemma {:induction false} RetainIsTopK(rows: seq<Row>, k: nat, i: nat)
    requires UniqueKeys(rows) && i < |rows|
    ensures rows[i] in Retain(rows, k) <==> Rank(rows, i, |rows|) < k
    decreases |rows|
  {
    if |rows| <= k {
      AllSurvive(rows, k, i);
    } else if i == Worst(rows) {
      WorstGoes(rows, k);
    } else {
      RemoveKeepsKeys(rows, Worst(rows));
      RetainIsTopK(RemoveAt(rows, Worst(rows)), k, Shifted(rows, i));
      RankShifted(rows, i);
      ShiftedSurvives(rows, k, i);
    }
  }

  lemma ShiftedSurvives(rows: seq<Row>, k: nat, i: nat)
    requires |rows| > k && i < |rows| && i != Worst(rows)
    ensures rows[i] in Retain(rows, k) <==>
      RemoveAt(rows, Worst(rows))[Shifted(rows, i)] in Retain(RemoveAt(rows, Worst(rows)), k)
  {
  }

  lemma AllSurvive(rows: seq<Row>, k: nat, i: nat)
    requires i < |rows| <= k
    ensures rows[i] in Retain(rows, k) && Rank(rows, i, |rows|) < k
  {
    RankBelowLength(rows, i, |rows|);
  }

  lemma WorstGoes(rows: seq<Row>, k: nat)
    requires UniqueKeys(rows) && |rows| > k
    ensures rows[Worst(rows)] !in Retain(rows, k) && Rank(rows, Worst(rows), |rows|) >= k
  {
    RemoveKeepsKeys(rows, Worst(rows));
    RankOfWorst(rows, |rows|);
  }

  lemma RemoveKeepsKeys(rows: seq<Row>, w: nat)
    requires UniqueKeys(rows) && w < |rows|
    ensures UniqueKeys(RemoveAt(rows, w)) && rows[w] !in RemoveAt(rows, w)
  {
    var rest := RemoveAt(rows, w);
    assert forall j :: 0 <= j < |rest| ==> rest[j] == rows[if j < w then j else j + 1];
  }

  lemma {:induction false} RankBelowLength(rows: seq<Row>, i: nat, n: nat)
    requires i < |rows| && n <= |rows|
    ensures i < n ==> Rank(rows, i, n) < n
  {
    if n > 0 { RankBelowLength(rows, i, n - 1); }
  }

  // ------------------------------------------------- the batched fast path

  /** Keeping the newest after every insert equals keeping them once. */
  lemma {:induction false} RetainAppend(rows: seq<Row>, m: Row, k: nat)
    requires k > 0
    ensures Retain(Retain(rows, k) + [m], k) == Retain(rows + [m], k)
    decreases |rows|
  {
    if |rows| > k {
      if m.timestamp <= rows[Worst(rows)].timestamp {
        AppendOldest(rows, m, k);
      } else {
        AppendNewer(rows, m, k);
        RetainAppend(RemoveAt(rows, Worst(rows)), m, k);
      }
    }
  }

  lemma AppendOldest(rows: seq<Row>, m: Row, k: nat)
    requires |rows| > k && m.timestamp <= rows[Worst(rows)].timestamp
    ensures Retain(Retain(rows, k) + [m], k) == Retain(rows + [m], k)
  {
    var kept := Retain(rows, k);
    forall i | 0 <= i < |kept| ensures m.timestamp <= kept[i].timestamp { assert kept[i] in rows; }
    RetainOldest(rows, m, k);
    RetainOldest(kept, m, k);
  }

  /** A newer row does not become the worst, so the same row goes first. */
  lemma AppendNewer(rows: seq<Row>, m: Row, k: nat)
    requires |rows| > k && m.timestamp > rows[Worst(rows)].timestamp
    ensures Retain(rows + [m], k) == Retain(RemoveAt(rows, Worst(rows)) + [m], k)
  {
    WorstIsUnique(rows + [m], Worst(rows));
    AppendRemove(rows, m, Worst(rows));
  }

  lemma AppendRemove(rows: seq<Row>, m: Row, w: nat)
    requires w < |rows|
    ensures RemoveAt(rows + [m], w) == RemoveAt(rows, w) + [m]
  {
  }

  /** A row no newer than k others is evicted as soon as it is appended. */
  lemma {:induction false} RetainOldest(rows: seq<Row>, m: Row, k: nat)
    requires |rows| >= k
    requires forall i :: 0 <= i < |rows| ==> m.timestamp <= rows[i].timestamp
    ensures Retain(rows + [m], k) == Retain(rows, k)
  {
    WorstIsUnique(rows + [m], |rows|);
    assert RemoveAt(rows + [m], |rows|) == rows;
  }

  lemma {:induction false} RetainEdit(e: Edit, rows: seq<Row>, k: nat)
    ensures Retain(EditRows(e, rows), k) == EditRows(e, Retain(rows, k))
    decreases |rows|
  {
    if |rows| > k {
      EditWorst(e, rows);
      EditRemove(e, rows, Worst(rows));
      RetainEdit(e, RemoveAt(rows, Worst(rows)), k);
    }
  }

  lemma EditWorst(e: Edit, rows: seq<Row>)
    requires rows != []
    ensures Worst(EditRows(e, rows)) == Worst(rows)
  {
    WorstIsUnique(EditRows(e, rows), Worst(rows));
  }

  lemma EditRemove(e: Edit, rows: seq<Row>, w: nat)
    requires w < |rows|
    ensures RemoveAt(EditRows(e, rows), w) == EditRows(e, RemoveAt(rows, w))
  {
  }
}
