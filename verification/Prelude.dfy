/** Shared vocabulary: optional values, trimming, and the orders SQL sorts by. */
module Prelude {

  datatype Option<+T> = None | Some(value: T) {
    function GetOr(default: T): T {
      match this
      case Some(v) => v
      case None => default
    }
  }

  datatype Result<+T, +E> = Ok(value: T) | Err(error: E)

  function Max(a: int, b: int): int {
    if a >= b then a else b
  }

  function Min(a: int, b: int): int {
    if a <= b then a else b
  }

  /** The `COALESCE(a, b)` of two nullable columns. */
  function Coalesce<T>(a: Option<T>, b: Option<T>): Option<T> {
    if a.Some? then a else b
  }

  predicate Distinct<T(==)>(s: seq<T>) {
    forall i, j :: 0 <= i < j < |s| ==> s[i] != s[j]
  }

  // ---------------------------------------------------------------- trimming

  /** The Unicode `White_Space` property, which `str::trim` strips. */
  predicate IsSpace(c: char) {
    var n := c as int;
    || 0x09 <= n <= 0x0D
    || n == 0x20 || n == 0x85 || n == 0xA0 || n == 0x1680
    || 0x2000 <= n <= 0x200A
    || n == 0x2028 || n == 0x2029 || n == 0x202F || n == 0x205F || n == 0x3000
  }

  function TrimStart(s: string): string {
    if s != "" && IsSpace(s[0]) then TrimStart(s[1..]) else s
  }

  function TrimEnd(s: string): string {
    if s != "" && IsSpace(s[|s| - 1]) then TrimEnd(s[..|s| - 1]) else s
  }

  function Trim(s: string): string {
    TrimEnd(TrimStart(s))
  }

  predicate AllSpace(s: string) {
    forall i :: 0 <= i < |s| ==> IsSpace(s[i])
  }

  /** What is left has no space at either end, and only spaces went. */
  lemma {:induction false} TrimIs(s: string) returns (a: string, b: string)
    ensures s == a + Trim(s) + b && AllSpace(a) && AllSpace(b)
    ensures Trim(s) != "" ==> !IsSpace(Trim(s)[0]) && !IsSpace(Trim(s)[|Trim(s)| - 1])
  {
    a := TrimStartIs(s);
    b := TrimEndIs(TrimStart(s));
  }

  lemma {:induction false} TrimStartIs(s: string) returns (a: string)
    ensures s == a + TrimStart(s) && AllSpace(a) && (TrimStart(s) != "" ==> !IsSpace(TrimStart(s)[0]))
  {
    a := "";
    if s != "" && IsSpace(s[0]) {
      a := TrimStartIs(s[1..]);
      a := [s[0]] + a;
    }
  }

  lemma {:induction false} TrimEndIs(s: string) returns (b: string)
    ensures s == TrimEnd(s) + b && AllSpace(b) && (TrimEnd(s) != "" ==> !IsSpace(TrimEnd(s)[|TrimEnd(s)| - 1]))
  {
    b := "";
    if s != "" && IsSpace(s[|s| - 1]) {
      var front := TrimEndIs(s[..|s| - 1]);
      b := front + [s[|s| - 1]];
      assert s == s[..|s| - 1] + [s[|s| - 1]];
    }
  }

  // ------------------------------------------- ORDER BY a number, then a text

  /** `BINARY` collation: code points compare as their UTF-8 bytes do. */
  predicate StrLess(a: string, b: string) {
    if b == "" then false
    else if a == "" then true
    else a[0] < b[0] || (a[0] == b[0] && StrLess(a[1..], b[1..]))
  }

  lemma {:induction false} StrLessTotal(a: string, b: string)
    ensures a != b ==> StrLess(a, b) || StrLess(b, a)
    ensures !(StrLess(a, b) && StrLess(b, a))
    ensures !StrLess(a, a)
  {
    if a != "" {
      StrLessTotal(a[1..], a[1..]);
      if b != "" && a[0] == b[0] {
        StrLessTotal(a[1..], b[1..]);
        assert a == [a[0]] + a[1..] && b == [b[0]] + b[1..];
      }
    }
  }

  lemma {:induction false} StrLessTransitive(a: string, b: string, c: string)
    requires StrLess(a, b) && StrLess(b, c)
    ensures StrLess(a, c)
  {
    if a != "" && a[0] == b[0] == c[0] {
      StrLessTransitive(a[1..], b[1..], c[1..]);
    }
  }

  /** `ORDER BY time, name` places (t, a) strictly ahead of (u, b). */
  predicate Before(t: int, a: string, u: int, b: string) {
    t < u || (t == u && StrLess(a, b))
  }

  /** The key that `ORDER BY value, key LIMIT 1` selects. */
  ghost predicate IsFirst(m: map<string, int>, k: string) {
    k in m && forall j :: j in m && j != k ==> Before(m[k], k, m[j], j)
  }

  lemma {:induction false} FirstExists(m: map<string, int>)
    requires m != map[]
    ensures exists k :: IsFirst(m, k)
    decreases |m|
  {
    var k :| k in m;
    var rest := m - {k};
    if rest == map[] {
      assert forall j :: j in m && j != k ==> j in rest.Keys;
      assert IsFirst(m, k);
    } else {
      assert rest.Keys == m.Keys - {k};
      FirstExists(rest);
      var f :| IsFirst(rest, f);
      StrLessTotal(k, f);
      if Before(m[k], k, m[f], f) {
        forall j | j in m && j != k ensures Before(m[k], k, m[j], j) {
          assert j in rest;
          if j != f && m[k] == m[f] == m[j] { StrLessTransitive(k, f, j); }
        }
        assert IsFirst(m, k);
      } else {
        forall j | j in m && j != f ensures Before(m[f], f, m[j], j) {
          if j != k { assert j in rest; }
        }
        assert IsFirst(m, f);
      }
    }
  }

  lemma FirstUnique(m: map<string, int>, a: string, b: string)
    requires IsFirst(m, a) && IsFirst(m, b)
    ensures a == b
  {
    StrLessTotal(a, b);
  }

  /** `SELECT key ... ORDER BY value, key LIMIT 1`. */
  ghost function First(m: map<string, int>): (k: string)
    requires m != map[]
    ensures IsFirst(m, k)
  {
    FirstExists(m);
    var k :| IsFirst(m, k);
    k
  }

  method SelectFirst(m: map<string, int>) returns (k: string)
    requires m != map[]
    ensures k == First(m) && IsFirst(m, k)
  {
    k :| k in m;
    var left := m.Keys - {k};
    while left != {}
      invariant k in m && left <= m.Keys - {k}
      invariant forall j :: j in m && j !in left && j != k ==> Before(m[k], k, m[j], j)
    {
      var j :| j in left;
      StrLessTotal(j, k);
      if Before(m[j], j, m[k], k) {
        forall i | i in m && i !in left && i != k ensures Before(m[j], j, m[i], i) {
          BeforeTransitive(m[j], j, m[k], k, m[i], i);
        }
        left := left - {j};
        k := j;
      } else {
        left := left - {j};
      }
    }
    FirstUnique(m, k, First(m));
  }

  lemma BeforeTransitive(t: int, a: string, u: int, b: string, v: int, c: string)
    requires Before(t, a, u, b) && Before(u, b, v, c)
    ensures Before(t, a, v, c)
  {
    if t == u == v { StrLessTransitive(a, b, c); }
  }

  /** `SELECT key ... ORDER BY value, key`: every key once, in order. */
  ghost function Listing(m: map<string, int>): (s: seq<string>)
    decreases |m|
  {
    if m == map[] then []
    else
      assert (m - {First(m)}).Keys == m.Keys - {First(m)};
      [First(m)] + Listing(m - {First(m)})
  }

  predicate Lists(s: seq<string>, keys: set<string>) {
    && (forall k :: k in s ==> k in keys)
    && (forall k :: k in keys ==> k in s)
    && (forall i, j :: 0 <= i < j < |s| ==> s[i] != s[j])
  }

  ghost predicate Ordered(s: seq<string>, m: map<string, int>)
    requires forall k :: k in s ==> k in m
  {
    forall i, j :: 0 <= i < j < |s| ==> Before(m[s[i]], s[i], m[s[j]], s[j])
  }

  lemma ListsCons(k: string, tail: seq<string>, m: map<string, int>)
    requires k in m && Lists(tail, m.Keys - {k})
    ensures Lists([k] + tail, m.Keys)
  {
    forall j | j in m.Keys ensures j in [k] + tail {
      if j != k { assert j in tail; }
    }
  }

  lemma OrderedCons(k: string, tail: seq<string>, m: map<string, int>)
    requires IsFirst(m, k) && Lists(tail, m.Keys - {k})
    requires (forall j :: j in tail ==> j in m - {k}) && Ordered(tail, m - {k})
    ensures forall j :: j in [k] + tail ==> j in m
    ensures Ordered([k] + tail, m)
  {
    var s := [k] + tail;
    forall j | j in s ensures j in m {}
    forall i, j | 0 <= i < j < |s| ensures s[i] in m && s[j] in m && Before(m[s[i]], s[i], m[s[j]], s[j]) {
      assert s[j] == tail[j - 1] && tail[j - 1] in tail;
      if i > 0 {
        assert s[i] == tail[i - 1] && tail[i - 1] in tail;
        assert Before((m - {k})[tail[i - 1]], tail[i - 1], (m - {k})[tail[j - 1]], tail[j - 1]);
      }
    }
  }

  /** The listing is the one sequence that holds every key once and follows the order. */
  lemma {:induction false} ListingIsSorted(m: map<string, int>)
    ensures Lists(Listing(m), m.Keys) && Ordered(Listing(m), m) && |Listing(m)| == |m|
    decreases |m|
  {
    if m != map[] {
      var k := First(m);
      assert (m - {k}).Keys == m.Keys - {k};
      ListingIsSorted(m - {k});
      ListsCons(k, Listing(m - {k}), m);
      OrderedCons(k, Listing(m - {k}), m);
    }
  }

  method SelectAll(m: map<string, int>) returns (s: seq<string>)
    ensures s == Listing(m)
  {
    s := [];
    var left := m;
    while left != map[]
      invariant s + Listing(left) == Listing(m)
      decreases |left|
    {
      var k := SelectFirst(left);
      assert (left - {k}).Keys == left.Keys - {k};
      s := s + [k];
      left := left - {k};
    }
  }
}
