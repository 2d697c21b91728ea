/** Folding events into a state, when events commute and repeat harmlessly. */
module Joins {

  ghost function Fold<X, E>(f: (X, E) -> X, x: X, es: seq<E>): X {
    if es == [] then x else f(Fold(f, x, es[..|es| - 1]), es[|es| - 1])
  }

  ghost predicate Commutes<X(!new), E(!new)>(f: (X, E) -> X) {
    forall x, a, b :: f(f(x, a), b) == f(f(x, b), a)
  }

  ghost predicate Repeatable<X(!new), E(!new)>(f: (X, E) -> X) {
    forall x, a :: f(f(x, a), a) == f(x, a)
  }

  /** One event moves past a whole sequence. */
  lemma {:induction false} Past<X(!new), E(!new)>(f: (X, E) -> X, x: X, e: E, es: seq<E>)
    requires Commutes(f)
    ensures Fold(f, f(x, e), es) == f(Fold(f, x, es), e)
  {
    if es != [] {
      var n := |es| - 1;
      Past(f, x, e, es[..n]);
      assert f(f(Fold(f, x, es[..n]), e), es[n]) == f(f(Fold(f, x, es[..n]), es[n]), e);
    }
  }

  lemma {:induction false} Swap<X(!new), E(!new)>(f: (X, E) -> X, x: X, a: seq<E>, b: seq<E>)
    requires Commutes(f)
    ensures Fold(f, Fold(f, x, a), b) == Fold(f, Fold(f, x, b), a)
  {
    if b != [] {
      var n := |b| - 1;
      Swap(f, x, a, b[..n]);
      Past(f, Fold(f, x, b[..n]), b[n], a);
    }
  }

  /** An event already folded in changes nothing. */
  lemma {:induction false} Again<X(!new), E(!new)>(f: (X, E) -> X, x: X, e: E, es: seq<E>)
    requires Commutes(f) && Repeatable(f) && e in es
    ensures f(Fold(f, x, es), e) == Fold(f, x, es)
  {
    var n := |es| - 1;
    var y := Fold(f, x, es[..n]);
    if es[n] != e {
      assert es == es[..n] + [es[n]];
      Again(f, x, e, es[..n]);
      assert f(f(y, es[n]), e) == f(f(y, e), es[n]);
    } else {
      assert f(f(y, e), e) == f(y, e);
    }
  }

  lemma {:induction false} Absorb<X(!new), E(!new)>(f: (X, E) -> X, x: X, a: seq<E>, b: seq<E>)
    requires Commutes(f) && Repeatable(f) && forall e :: e in b ==> e in a
    ensures Fold(f, Fold(f, x, a), b) == Fold(f, x, a)
  {
    if b != [] {
      var n := |b| - 1;
      assert b == b[..n] + [b[n]];
      Absorb(f, x, a, b[..n]);
      Again(f, x, b[n], a);
    }
  }

  /** Order, duplication and grouping do not matter: only which events arrived. */
  lemma SameEvents<X(!new), E(!new)>(f: (X, E) -> X, x: X, a: seq<E>, b: seq<E>)
    requires Commutes(f) && Repeatable(f) && forall e :: e in a <==> e in b
    ensures Fold(f, x, a) == Fold(f, x, b)
  {
    Absorb(f, x, a, b);
    Absorb(f, x, b, a);
    Swap(f, x, a, b);
  }
}
