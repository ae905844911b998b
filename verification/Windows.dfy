/** The last elements of a list that is in order, when some are tied at the edge of the window. */
module Windows {
  import opened Lists

  ghost predicate InOrder<T(!new)>(s: seq<T>, at: T -> int) {
    forall i, j :: 0 <= i < j < |s| ==> at(s[i]) <= at(s[j])
  }

  ghost predicate SameElements<T(!new)>(a: seq<T>, b: seq<T>) {
    AllApart(a) && AllApart(b) && forall x :: x in a <==> x in b
  }

  lemma {:induction false} TotalAppend<T>(a: seq<T>, b: seq<T>, f: T -> real)
    ensures Total(a + b, f) == Total(a, f) + Total(b, f)
  {
    if b == [] {
      assert a + b == a;
    } else {
      assert (a + b)[..|a + b| - 1] == a + b[..|b| - 1];
      TotalAppend(a, b[..|b| - 1], f);
    }
  }

  lemma {:induction false} TotalConst<T>(s: seq<T>, f: T -> real, w: real)
    requires forall i :: 0 <= i < |s| ==> f(s[i]) == w
    ensures Total(s, f) == |s| as real * w
  {
    if s != [] { TotalConst(s[..|s| - 1], f, w); }
  }

  lemma {:induction false} TotalAlike<T>(s: seq<T>, f: T -> real, g: T -> real)
    requires forall i :: 0 <= i < |s| ==> f(s[i]) == g(s[i])
    ensures Total(s, f) == Total(s, g)
  {
    if s != [] { TotalAlike(s[..|s| - 1], f, g); }
  }

  function Before<T>(at: T -> int, t: int): T -> real { x => One(at(x) < t) }
  function From<T>(at: T -> int, t: int, f: T -> real): T -> real { x => if at(x) >= t then f(x) else 0.0 }

  /** Where the elements from time `t` on begin. */
  ghost predicate BeginsAt<T(!new)>(s: seq<T>, at: T -> int, t: int, k: nat) {
    k <= |s| && (forall i :: 0 <= i < k ==> at(s[i]) < t) && (forall i :: k <= i < |s| ==> at(s[i]) >= t)
  }

  lemma {:induction false} SomeBegin<T(!new)>(s: seq<T>, at: T -> int, t: int) returns (k: nat)
    requires InOrder(s, at)
    ensures BeginsAt(s, at, t, k)
  {
    if s == [] || at(s[|s| - 1]) < t {
      k := |s|;
    } else {
      var most := s[..|s| - 1];
      k := SomeBegin(most, at, t);
      assert forall i :: 0 <= i < |most| ==> most[i] == s[i];
    }
  }

  lemma CountedBefore<T(!new)>(s: seq<T>, at: T -> int, t: int, k: nat)
    requires BeginsAt(s, at, t, k)
    ensures Total(s, Before(at, t)) == k as real
  {
    assert s == s[..k] + s[k..];
    TotalAppend(s[..k], s[k..], Before(at, t));
    TotalConst(s[..k], Before(at, t), 1.0);
    TotalConst(s[k..], Before(at, t), 0.0);
  }

  /** It begins at the same place in any two lists of the same elements. */
  lemma SameBegin<T(!new)>(a: seq<T>, b: seq<T>, at: T -> int, t: int, k: nat)
    requires SameElements(a, b) && InOrder(b, at) && BeginsAt(a, at, t, k)
    ensures BeginsAt(b, at, t, k) && |a| == |b|
  {
    var l := SomeBegin(b, at, t);
    TotalOfSame(a, b, Before(at, t));
    CountedBefore(a, at, t, k);
    CountedBefore(b, at, t, l);
  }

  lemma TotalFrom<T(!new)>(s: seq<T>, at: T -> int, t: int, f: T -> real, k: nat)
    requires BeginsAt(s, at, t, k)
    ensures Total(s, From(at, t, f)) == Total(s[k..], f)
  {
    assert s == s[..k] + s[k..];
    TotalAppend(s[..k], s[k..], From(at, t, f));
    TotalConst(s[..k], From(at, t, f), 0.0);
    TotalAlike(s[k..], From(at, t, f), f);
  }

  /** What counts from a time on has the same total in any two lists of the same elements. */
  lemma SameFrom<T(!new)>(a: seq<T>, b: seq<T>, at: T -> int, t: int, f: T -> real, k: nat)
    requires SameElements(a, b) && InOrder(b, at) && BeginsAt(a, at, t, k)
    ensures |a| == |b| && BeginsAt(b, at, t, k) && Total(a[k..], f) == Total(b[k..], f)
  {
    SameBegin(a, b, at, t, k);
    TotalFrom(a, at, t, f, k);
    TotalFrom(b, at, t, f, k);
    TotalOfSame(a, b, From(at, t, f));
  }

  /** No tie over the edge, or one whose elements count alike. */
  ghost predicate Settled<T(!new)>(s: seq<T>, at: T -> int, f: T -> real, e: nat)
    requires 0 < e < |s|
  {
    at(s[e - 1]) != at(s[e]) || forall x, y :: x in s && y in s && at(x) == at(s[e]) == at(y) ==> f(x) == f(y)
  }

  /** The elements of time `t` after the edge. */
  lemma TiedAt<T(!new)>(s: seq<T>, at: T -> int, t: int, f: T -> real, k: nat, e: nat, m: nat, w: real)
    requires BeginsAt(s, at, t, k) && BeginsAt(s, at, t + 1, m) && k <= e <= m
    requires forall x :: x in s && at(x) == t ==> f(x) == w
    ensures Total(s[e..], f) == Total(s[e..m], f) + Total(s[m..], f)
    ensures forall i :: 0 <= i < m - e ==> f(s[e..m][i]) == w
  {
    assert s[e..] == s[e..m] + s[m..];
    TotalAppend(s[e..m], s[m..], f);
    forall i | 0 <= i < m - e ensures f(s[e..m][i]) == w {
      assert s[e..m][i] == s[e + i] && s[e + i] in s && at(s[e + i]) == t;
    }
  }

  lemma TiedBothTotals<T(!new)>(
    a: seq<T>, b: seq<T>, at: T -> int, t: int, f: T -> real, k: nat, e: nat, m: nat, w: real)
    requires |a| == |b| && BeginsAt(a, at, t, k) && BeginsAt(a, at, t + 1, m) && k <= e <= m
    requires BeginsAt(b, at, t, k) && BeginsAt(b, at, t + 1, m) && Total(a[m..], f) == Total(b[m..], f)
    requires forall x :: (x in a || x in b) && at(x) == t ==> f(x) == w
    ensures Total(a[e..], f) == Total(b[e..], f)
  {
    TiedAt(a, at, t, f, k, e, m, w);
    TiedAt(b, at, t, f, k, e, m, w);
    TotalPointwise(a[e..m], b[e..m], f, f);
  }

  lemma UntiedTotals<T(!new)>(a: seq<T>, b: seq<T>, at: T -> int, f: T -> real, e: nat)
    requires SameElements(a, b) && InOrder(a, at) && InOrder(b, at) && 0 < e < |a| && at(a[e - 1]) != at(a[e])
    ensures |a| == |b| && Total(a[e..], f) == Total(b[e..], f)
  {
    forall i | 0 <= i < e ensures at(a[i]) < at(a[e]) {
      assert at(a[i]) <= at(a[e - 1]) <= at(a[e]);
    }
    SameFrom(a, b, at, at(a[e]), f, e);
  }

  lemma TiedTotals<T(!new)>(a: seq<T>, b: seq<T>, at: T -> int, f: T -> real, e: nat, t: int)
    requires SameElements(a, b) && InOrder(a, at) && InOrder(b, at) && 0 < e < |a| && at(a[e - 1]) == t == at(a[e])
    requires forall x :: x in a && at(x) == t ==> f(x) == f(a[e])
    ensures |a| == |b| && Total(a[e..], f) == Total(b[e..], f)
  {
    var k := SomeBegin(a, at, t);
    var m := SomeBegin(a, at, t + 1);
    assert k <= e < m;
    SameFrom(a, b, at, t, f, k);
    SameFrom(a, b, at, t + 1, f, m);
    TiedBothTotals(a, b, at, t, f, k, e, m, f(a[e]));
  }

  /** Then the last elements have the same total, however the ties are listed. */
  lemma SettledTotals<T(!new)>(a: seq<T>, b: seq<T>, at: T -> int, f: T -> real, e: nat)
    requires SameElements(a, b) && InOrder(a, at) && InOrder(b, at) && 0 < e < |a| && Settled(a, at, f, e)
    ensures |a| == |b| && Total(a[e..], f) == Total(b[e..], f)
  {
    if at(a[e - 1]) != at(a[e]) {
      UntiedTotals(a, b, at, f, e);
    } else {
      assert a[e] in a;
      TiedTotals(a, b, at, f, e, at(a[e]));
    }
  }

  // ---- an unsettled edge --------------------------------------------------------------------------

  function Swapped<T>(s: seq<T>, i: nat, j: nat): seq<T>
    requires i < |s| && j < |s|
  {
    s[i := s[j]][j := s[i]]
  }

  /** Two tied elements that count differently, one on each side of the edge. */
  ghost predicate Straddle<T(!new)>(s: seq<T>, at: T -> int, f: T -> real, e: nat, i: nat, j: nat) {
    i < e <= j < |s| && at(s[i]) == at(s[j]) && f(s[i]) != f(s[j])
  }

  lemma SomeStraddle<T(!new)>(s: seq<T>, at: T -> int, f: T -> real, e: nat) returns (i: nat, j: nat)
    requires 0 < e < |s| && !Settled(s, at, f, e)
    ensures Straddle(s, at, f, e, i, j) && at(s[i]) == at(s[e])
  {
    var x, y :| x in s && y in s && at(x) == at(s[e]) == at(y) && f(x) != f(y);
    var odd := if f(x) != f(s[e]) then x else y;
    var k :| 0 <= k < |s| && s[k] == odd;
    if f(s[e - 1]) != f(s[e]) {
      i, j := e - 1, e;
    } else if k < e {
      i, j := k, e;
    } else {
      i, j := e - 1, k;
    }
  }

  lemma SwapChangesTotal<T(!new)>(s: seq<T>, at: T -> int, f: T -> real, e: nat, i: nat, j: nat)
    requires Straddle(s, at, f, e, i, j)
    ensures Total(Swapped(s, i, j)[e..], f) != Total(s[e..], f)
  {
    assert Swapped(s, i, j)[e..] == s[e..][j - e := s[i]];
    TotalReplaced(s[e..], f, j - e, s[i]);
  }

  // ---- filtering and swapping -----------------------------------------------------------------------

  lemma {:induction false} FilterAppend<T(!new)>(a: seq<T>, b: seq<T>, f: T -> bool)
    ensures Filter(a + b, f) == Filter(a, f) + Filter(b, f)
  {
    if b == [] {
      assert a + b == a;
    } else {
      assert (a + b)[..|a + b| - 1] == a + b[..|b| - 1];
      FilterAppend(a, b[..|b| - 1], f);
    }
  }

  lemma FilterOne<T(!new)>(x: T, f: T -> bool)
    requires f(x)
    ensures Filter([x], f) == [x]
  {
    FilterSnoc([], x, f);
    assert [] + [x] == [x];
  }

  lemma FilterParts<T(!new)>(a: seq<T>, x: T, b: seq<T>, y: T, c: seq<T>, f: T -> bool)
    requires f(x) && f(y)
    ensures Filter(a + [x] + b + [y] + c, f) == Filter(a, f) + [x] + Filter(b, f) + [y] + Filter(c, f)
  {
    FilterOne(x, f);
    FilterOne(y, f);
    FilterAppend(a, [x], f);
    FilterAppend(a + [x], b, f);
    FilterAppend(a + [x] + b, [y], f);
    FilterAppend(a + [x] + b + [y], c, f);
  }

  lemma SplitAt<T>(s: seq<T>, p: nat, q: nat)
    requires p < q < |s|
    ensures s == s[..p] + [s[p]] + s[p + 1..q] + [s[q]] + s[q + 1..]
  {
  }

  lemma SwappedSplit<T>(s: seq<T>, p: nat, q: nat)
    requires p < q < |s|
    ensures Swapped(s, p, q) == s[..p] + [s[q]] + s[p + 1..q] + [s[p]] + s[q + 1..]
  {
  }

  /** Two lists of the same parts but for two elements. */
  lemma Exchanged<T>(r: seq<T>, t: seq<T>, a: seq<T>, x: T, b: seq<T>, y: T, c: seq<T>)
    requires r == a + [x] + b + [y] + c && t == a + [y] + b + [x] + c
    ensures |a| + 1 + |b| < |r| && r[|a|] == x && r[|a| + 1 + |b|] == y && t == Swapped(r, |a|, |a| + 1 + |b|)
  {
  }

  lemma FilteredSplit<T(!new)>(s: seq<T>, f: T -> bool, p: nat, q: nat)
    requires p < q < |s| && f(s[p]) && f(s[q])
    ensures Filter(s, f) == Filter(s[..p], f) + [s[p]] + Filter(s[p + 1..q], f) + [s[q]] + Filter(s[q + 1..], f)
  {
    SplitAt(s, p, q);
    FilterParts(s[..p], s[p], s[p + 1..q], s[q], s[q + 1..], f);
  }

  lemma FilteredSwap<T(!new)>(s: seq<T>, f: T -> bool, p: nat, q: nat)
    requires p < q < |s| && f(s[p]) && f(s[q])
    ensures Filter(Swapped(s, p, q), f)
      == Filter(s[..p], f) + [s[q]] + Filter(s[p + 1..q], f) + [s[p]] + Filter(s[q + 1..], f)
  {
    SwappedSplit(s, p, q);
    FilterParts(s[..p], s[q], s[p + 1..q], s[p], s[q + 1..], f);
  }

  /** Swapping two elements that pass swaps them in the filtered list. */
  lemma FilterSwapped<T(!new)>(s: seq<T>, f: T -> bool, p: nat, q: nat) returns (i: nat, j: nat)
    requires p < q < |s| && f(s[p]) && f(s[q])
    ensures var r := Filter(s, f);
      i < j < |r| && r[i] == s[p] && r[j] == s[q] && Filter(Swapped(s, p, q), f) == Swapped(r, i, j)
  {
    var a, b, c := Filter(s[..p], f), Filter(s[p + 1..q], f), Filter(s[q + 1..], f);
    FilteredSplit(s, f, p, q);
    FilteredSwap(s, f, p, q);
    Exchanged(Filter(s, f), Filter(Swapped(s, p, q), f), a, s[p], b, s[q], c);
    i, j := |a|, |a| + 1 + |b|;
  }
}
