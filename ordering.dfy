/** The Python built-ins the search engine leans on, stated for the values it
    applies them to: comparison and `sorted` on strings, `max` with a key, and
    the slice `xs[:b]`. */
module Ordering {

  predicate Distinct<T(==)>(s: seq<T>)
  {
    forall i, j :: 0 <= i < j < |s| ==> s[i] != s[j]
  }

  /** A list that enumerates a set: every member once, nothing else. This is
      what iterating over a Python `set` yields, in an order the model leaves
      open. */
  predicate IsListing<T(==)>(s: set<T>, xs: seq<T>)
  {
    && Distinct(xs)
    && (forall i :: 0 <= i < |xs| ==> xs[i] in s)
    && (forall x :: x in s ==> x in xs)
  }

  lemma {:induction false} ListingSize<T>(s: set<T>, xs: seq<T>)
    requires IsListing(s, xs)
    ensures |xs| == |s|
    decreases |xs|
  {
    if xs != [] {
      var n := |xs| - 1;
      var init := xs[..n];
      assert xs == init + [xs[n]];
      forall x | x in s - {xs[n]} ensures x in init {
        var i :| 0 <= i < |xs| && xs[i] == x;
        assert i != n;
      }
      forall i | 0 <= i < n ensures init[i] in s - {xs[n]} {
        assert init[i] == xs[i] && xs[i] != xs[n];
      }
      ListingSize(s - {xs[n]}, init);
    } else {
      assert forall x :: x in s ==> false;
      assert s == {};
    }
  }

  /** A subset as large as its superset is the whole superset. */
  lemma SubsetSameSize<T>(a: set<T>, b: set<T>)
    requires a <= b && |a| == |b|
    ensures a == b
  {
    assert a + b == b && a * b == a && a - b == {};
    assert |b - a| == 0;
  }

  lemma {:induction false} DistinctMultiplicity<T>(xs: seq<T>, x: T)
    requires Distinct(xs)
    ensures multiset(xs)[x] <= 1
  {
    if xs != [] {
      var n := |xs| - 1;
      assert xs == xs[..n] + [xs[n]];
      DistinctMultiplicity(xs[..n], x);
      if xs[n] == x {
        assert x !in xs[..n];
      }
    }
  }

  /** A rearrangement of a list without duplicates has none either. */
  lemma DistinctPermutation<T>(xs: seq<T>, ys: seq<T>)
    requires multiset(xs) == multiset(ys) && Distinct(xs)
    ensures Distinct(ys)
  {
    forall i, j | 0 <= i < j < |ys| ensures ys[i] != ys[j] {
      if ys[i] == ys[j] {
        assert ys == ys[..j] + ys[j..];
        assert ys[i] in multiset(ys[..j]) && ys[j] == ys[j..][0];
        assert multiset(ys)[ys[i]] >= 2;
        DistinctMultiplicity(xs, ys[i]);
      }
    }
  }

  // ---------------------------------------------------------------------
  // String order: Python compares `str` values code point by code point,
  // and a proper prefix comes first.
  // ---------------------------------------------------------------------

  predicate StrLess(a: string, b: string)
  {
    if a == [] then b != []
    else if b == [] then false
    else if a[0] != b[0] then a[0] < b[0]
    else StrLess(a[1..], b[1..])
  }

  predicate StrLeq(a: string, b: string)
  {
    a == b || StrLess(a, b)
  }

  lemma {:induction false} StrLessIrreflexive(a: string)
    ensures !StrLess(a, a)
  {
    if a != [] {
      StrLessIrreflexive(a[1..]);
    }
  }

  lemma {:induction false} StrLessTotal(a: string, b: string)
    ensures a == b || StrLess(a, b) || StrLess(b, a)
  {
    if a != [] && b != [] && a[0] == b[0] {
      StrLessTotal(a[1..], b[1..]);
      if a[1..] == b[1..] {
        assert a == [a[0]] + a[1..] && b == [b[0]] + b[1..];
      }
    }
  }

  lemma {:induction false} StrLessTransitive(a: string, b: string, c: string)
    requires StrLess(a, b) && StrLess(b, c)
    ensures StrLess(a, c)
  {
    if a != [] && a[0] == b[0] && b[0] == c[0] {
      StrLessTransitive(a[1..], b[1..], c[1..]);
    }
  }

  lemma StrLeqTransitive(a: string, b: string, c: string)
    requires StrLeq(a, b) && StrLeq(b, c)
    ensures StrLeq(a, c)
  {
    if a != b && b != c {
      StrLessTransitive(a, b, c);
    }
  }

  /** Every pair, not only neighbours, is in order. */
  predicate Ascending(s: seq<string>)
  {
    forall i, j :: 0 <= i < j < |s| ==> StrLeq(s[i], s[j])
  }

  /** Insertion of one string into an ascending list, in front of the first
      element that is not smaller. */
  function Insert(x: string, s: seq<string>): seq<string>
  {
    if s == [] then [x]
    else if !StrLess(s[0], x) then [x] + s
    else [s[0]] + Insert(x, s[1..])
  }

  lemma {:induction false} InsertPermutes(x: string, s: seq<string>)
    ensures multiset(Insert(x, s)) == multiset(s) + multiset{x}
  {
    if s != [] && StrLess(s[0], x) {
      InsertPermutes(x, s[1..]);
      assert s == [s[0]] + s[1..];
    }
  }

  /** A lower bound of `x` and of every element of `s` bounds the insertion. */
  lemma {:induction false} InsertBounded(x: string, s: seq<string>, lo: string)
    requires StrLeq(lo, x) && forall j :: 0 <= j < |s| ==> StrLeq(lo, s[j])
    ensures forall j :: 0 <= j < |Insert(x, s)| ==> StrLeq(lo, Insert(x, s)[j])
  {
    if s != [] && StrLess(s[0], x) {
      InsertBounded(x, s[1..], lo);
      var rest := Insert(x, s[1..]);
      forall j | 0 <= j < |rest| + 1 ensures StrLeq(lo, ([s[0]] + rest)[j]) {
        if j > 0 { assert ([s[0]] + rest)[j] == rest[j - 1]; }
      }
    } else if s != [] {
      forall j | 0 <= j < |s| + 1 ensures StrLeq(lo, ([x] + s)[j]) {
        if j > 0 { assert ([x] + s)[j] == s[j - 1]; }
      }
    }
  }

  lemma {:induction false} InsertAscending(x: string, s: seq<string>)
    requires Ascending(s)
    ensures Ascending(Insert(x, s))
  {
    if s == [] {
    } else if !StrLess(s[0], x) {
      assert StrLeq(x, s[0]) by { StrLessTotal(x, s[0]); }
      forall j | 0 <= j < |s| ensures StrLeq(x, s[j]) {
        if j > 0 { StrLeqTransitive(x, s[0], s[j]); }
      }
      var r := [x] + s;
      forall i, j | 0 <= i < j < |r| ensures StrLeq(r[i], r[j]) {
        assert r[j] == s[j - 1];
        if i > 0 { assert r[i] == s[i - 1]; }
      }
    } else {
      var rest := Insert(x, s[1..]);
      InsertAscending(x, s[1..]);
      assert StrLeq(s[0], x) by { StrLessTotal(x, s[0]); }
      forall j | 0 <= j < |s[1..]| ensures StrLeq(s[0], s[1..][j]) {
        assert s[1..][j] == s[j + 1];
      }
      InsertBounded(x, s[1..], s[0]);
      var r := [s[0]] + rest;
      forall i, j | 0 <= i < j < |r| ensures StrLeq(r[i], r[j]) {
        assert r[j] == rest[j - 1];
        if i > 0 { assert r[i] == rest[i - 1]; }
      }
    }
  }

  /** Python's `sorted(xs)` on a list of strings: ascending, and a
      rearrangement of the input (duplicates are kept). */
  function SortStrings(xs: seq<string>): (r: seq<string>)
    ensures Ascending(r)
    ensures multiset(r) == multiset(xs)
  {
    if xs == [] then []
    else
      var rest := SortStrings(xs[1..]);
      InsertAscending(xs[0], rest);
      InsertPermutes(xs[0], rest);
      assert xs == [xs[0]] + xs[1..];
      Insert(xs[0], rest)
  }

  // ---------------------------------------------------------------------
  // max(xs, key=...): the FIRST element whose key is maximal.
  // ---------------------------------------------------------------------

  /** Index of the element Python's `max` returns for the keys `xs`: it keeps
      the current best and replaces it only by a strictly greater key. */
  function ArgMax(xs: seq<real>): (i: nat)
    requires |xs| > 0
    ensures i < |xs|
    ensures forall j :: 0 <= j < |xs| ==> xs[j] <= xs[i]
    ensures forall j :: 0 <= j < i ==> xs[j] < xs[i]
  {
    if |xs| == 1 then 0
    else
      var i := ArgMax(xs[..|xs| - 1]);
      assert forall j :: 0 <= j < |xs| - 1 ==> xs[..|xs| - 1][j] == xs[j];
      if xs[|xs| - 1] > xs[i] then |xs| - 1 else i
  }

  /** On keys that never increase, `max` picks the first element. */
  lemma ArgMaxOfDescending(xs: seq<real>)
    requires |xs| > 0
    requires forall i, j :: 0 <= i < j < |xs| ==> xs[i] >= xs[j]
    ensures ArgMax(xs) == 0
  {
  }

  // ---------------------------------------------------------------------
  // xs[:b]
  // ---------------------------------------------------------------------

  /** Length of Python's `xs[:b]` for a list of length `n`; a negative `b`
      counts from the end. */
  function SliceLen(n: nat, b: int): (m: nat)
    ensures m <= n
    ensures b >= 0 ==> m <= b
  {
    if b >= 0 then (if b < n then b else n)
    else if n + b > 0 then n + b else 0
  }

  function SliceTo<T>(xs: seq<T>, b: int): (r: seq<T>)
    ensures |r| == SliceLen(|xs|, b) && r == xs[..|r|]
  {
    xs[..SliceLen(|xs|, b)]
  }
}
