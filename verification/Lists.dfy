/** Filtering, ordering and totalling lists, last element first. */
module Lists {

  function Filter<T(!new)>(s: seq<T>, f: T -> bool): (r: seq<T>)
    ensures forall x :: x in r <==> x in s && f(x)
    ensures |r| <= |s|
  {
    if s == [] then []
    else
      var rest := Filter(s[..|s| - 1], f);
      assert s == s[..|s| - 1] + [s[|s| - 1]];
      if f(s[|s| - 1]) then rest + [s[|s| - 1]] else rest
  }

  lemma FilterSnoc<T(!new)>(s: seq<T>, x: T, f: T -> bool)
    ensures Filter(s + [x], f) == if f(x) then Filter(s, f) + [x] else Filter(s, f)
  {
    assert (s + [x])[..|s + [x]| - 1] == s;
  }

  lemma FilterNext<T(!new)>(s: seq<T>, i: nat, f: T -> bool)
    requires i < |s|
    ensures Filter(s[..i + 1], f) == if f(s[i]) then Filter(s[..i], f) + [s[i]] else Filter(s[..i], f)
  {
    assert s[..i + 1] == s[..i] + [s[i]];
    FilterSnoc(s[..i], s[i], f);
  }

  lemma FilterWhole<T(!new)>(s: seq<T>, f: T -> bool)
    ensures Filter(s[..|s|], f) == Filter(s, f)
  {
    assert s[..|s|] == s;
  }

  lemma {:induction false} FilterSame<T(!new)>(s: seq<T>, f: T -> bool, g: T -> bool)
    requires forall x :: x in s ==> f(x) == g(x)
    ensures Filter(s, f) == Filter(s, g)
  {
    if s != [] {
      assert s == s[..|s| - 1] + [s[|s| - 1]];
      FilterSame(s[..|s| - 1], f, g);
    }
  }

  function Both<T(!new)>(f: T -> bool, g: T -> bool): T -> bool {
    x => f(x) && g(x)
  }

  lemma {:induction false} FilterTwice<T(!new)>(s: seq<T>, f: T -> bool, g: T -> bool)
    ensures Filter(Filter(s, f), g) == Filter(s, Both(f, g))
  {
    if s != [] {
      var most, last := s[..|s| - 1], s[|s| - 1];
      FilterTwice(most, f, g);
      if f(last) { FilterSnoc(Filter(most, f), last, g); }
    }
  }

  /** A filtered list is empty exactly when nothing passes. */
  lemma FilterEmpty<T(!new)>(s: seq<T>, f: T -> bool)
    ensures Filter(s, f) == [] <==> forall x :: x in s ==> !f(x)
  {
    if Filter(s, f) == [] {
      forall x | x in s ensures !f(x) {
        assert f(x) <==> x in Filter(s, f);
      }
    } else {
      assert Filter(s, f)[0] in Filter(s, f);
    }
  }

  /** The first element that passes comes first. */
  lemma {:induction false} FilterFirst<T(!new)>(s: seq<T>, f: T -> bool) returns (k: nat)
    requires Filter(s, f) != []
    ensures k < |s| && s[k] == Filter(s, f)[0] && f(s[k]) && forall j :: 0 <= j < k ==> !f(s[j])
  {
    var most := s[..|s| - 1];
    if Filter(most, f) != [] {
      k := FilterFirst(most, f);
    } else {
      FilterEmpty(most, f);
      k := |s| - 1;
      forall j | 0 <= j < k ensures !f(s[j]) {
        assert s[j] == most[j] && most[j] in most;
      }
    }
  }

  /** The last element that passes comes last. */
  lemma {:induction false} FilterLast<T(!new)>(s: seq<T>, f: T -> bool) returns (k: nat)
    requires Filter(s, f) != []
    ensures k < |s| && s[k] == Filter(s, f)[|Filter(s, f)| - 1] && f(s[k]) && forall j :: k < j < |s| ==> !f(s[j])
  {
    if f(s[|s| - 1]) {
      k := |s| - 1;
    } else {
      k := FilterLast(s[..|s| - 1], f);
    }
  }

  /** An element that occurs once and passes is before the last of the filtered list exactly when
      another passes after it. */
  lemma {:induction false} BeforeTheLast<T(!new)>(s: seq<T>, f: T -> bool, i: nat)
    requires i < |s| && f(s[i]) && forall j, k :: 0 <= j < k < |s| ==> s[j] != s[k]
    ensures var r := Filter(s, f);
      r != [] && (s[i] in r[..|r| - 1] <==> exists j :: i < j < |s| && f(s[j]))
  {
    var most, last := s[..|s| - 1], s[|s| - 1];
    var r := Filter(s, f);
    assert s == most + [last];
    assert s[i] in r;
    if i < |most| {
      BeforeTheLast(most, f, i);
      var rest := Filter(most, f);
      if f(last) {
        assert r == rest + [last] && r[..|r| - 1] == rest && most[i] in rest;
        assert s[|s| - 1] == last;
      } else {
        assert forall j :: i < j < |s| && f(s[j]) ==> j < |most| && most[j] == s[j];
        if exists j :: i < j < |most| && f(most[j]) {
          var j :| i < j < |most| && f(most[j]);
          assert f(s[j]);
        }
      }
    } else {
      assert r == Filter(most, f) + [last] && r[..|r| - 1] == Filter(most, f);
      forall x | x in most ensures x != last {
        var j :| 0 <= j < |most| && most[j] == x;
        assert s[j] != s[|s| - 1];
      }
    }
  }

  // ---- ascending lists ------------------------------------------------------------------------

  ghost predicate Ascending<T(!new)>(s: seq<T>, at: T -> int) {
    forall i, j :: 0 <= i < j < |s| ==> at(s[i]) < at(s[j])
  }

  lemma LastIsGreatest<T(!new)>(s: seq<T>, at: T -> int, x: T)
    requires Ascending(s, at) && x in s
    ensures x == s[|s| - 1] || at(x) < at(s[|s| - 1])
  {
    var i :| 0 <= i < |s| && s[i] == x;
    if i < |s| - 1 { assert at(s[i]) < at(s[|s| - 1]); }
  }

  lemma ButTheGreatest<T(!new)>(s: seq<T>, at: T -> int, x: T)
    requires s != [] && Ascending(s, at)
    ensures Ascending(s[..|s| - 1], at) && (x in s[..|s| - 1] <==> x in s && x != s[|s| - 1])
  {
    assert s == s[..|s| - 1] + [s[|s| - 1]];
    if x in s[..|s| - 1] {
      var i :| 0 <= i < |s| - 1 && s[i] == x;
      assert at(s[i]) < at(s[|s| - 1]);
    }
  }

  /** Two ascending lists of the same elements are the same list. */
  lemma {:induction false} AscendingIsUnique<T(!new)>(a: seq<T>, b: seq<T>, at: T -> int)
    requires Ascending(a, at) && Ascending(b, at) && forall x :: x in a <==> x in b
    ensures a == b
  {
    if a == [] {
      assert forall i :: 0 <= i < |b| ==> b[i] in b;
    } else {
      assert a[|a| - 1] in a && a[|a| - 1] in b;
      LastIsGreatest(b, at, a[|a| - 1]);
      LastIsGreatest(a, at, b[|b| - 1]);
      var p, q := a[..|a| - 1], b[..|b| - 1];
      forall x ensures x in p <==> x in q {
        ButTheGreatest(a, at, x);
        ButTheGreatest(b, at, x);
      }
      ButTheGreatest(a, at, a[|a| - 1]);
      ButTheGreatest(b, at, b[|b| - 1]);
      AscendingIsUnique(p, q, at);
      assert a == p + [a[|a| - 1]] && b == q + [b[|b| - 1]];
    }
  }

  lemma {:induction false} FilterAscends<T(!new)>(s: seq<T>, f: T -> bool, at: T -> int)
    requires forall i, j :: 0 <= i < j < |s| && f(s[i]) && f(s[j]) ==> at(s[i]) < at(s[j])
    ensures Ascending(Filter(s, f), at)
  {
    if s != [] {
      var most, last := s[..|s| - 1], s[|s| - 1];
      FilterAscends(most, f, at);
      if f(last) {
        var rest := Filter(most, f);
        forall i | 0 <= i < |rest| ensures at(rest[i]) < at(last) {
          assert rest[i] in rest;
          var k :| 0 <= k < |most| && most[k] == rest[i];
          assert s[k] == rest[i];
        }
        assert Filter(s, f) == rest + [last];
      }
    }
  }

  // ---- totals ---------------------------------------------------------------------------------

  function Total<T>(s: seq<T>, f: T -> real): real {
    if s == [] then 0.0 else Total(s[..|s| - 1], f) + f(s[|s| - 1])
  }

  lemma {:induction false} TotalPointwise<S, T>(a: seq<S>, b: seq<T>, f: S -> real, g: T -> real)
    requires |a| == |b| && forall i :: 0 <= i < |a| ==> f(a[i]) == g(b[i])
    ensures Total(a, f) == Total(b, g)
  {
    if a != [] { TotalPointwise(a[..|a| - 1], b[..|b| - 1], f, g); }
  }

  lemma {:induction false} TotalWithout<T>(s: seq<T>, f: T -> real, k: nat)
    requires k < |s|
    ensures Total(s, f) == Total(s[..k] + s[k + 1..], f) + f(s[k])
  {
    var t := s[..k] + s[k + 1..];
    if k == |s| - 1 {
      assert t == s[..|s| - 1];
    } else {
      var most := s[..|s| - 1];
      TotalWithout(most, f, k);
      assert t[..|t| - 1] == most[..k] + most[k + 1..] && t[|t| - 1] == s[|s| - 1];
    }
  }

  function One(b: bool): real { if b then 1.0 else 0.0 }

  predicate AllApart<T(==)>(s: seq<T>) {
    forall i, j :: 0 <= i < j < |s| ==> s[i] != s[j]
  }

  lemma {:induction false} FilterApart<T(!new)>(s: seq<T>, f: T -> bool)
    requires AllApart(s)
    ensures AllApart(Filter(s, f))
  {
    if s != [] {
      var most, last := s[..|s| - 1], s[|s| - 1];
      FilterApart(most, f);
      forall i | 0 <= i < |Filter(most, f)| ensures Filter(most, f)[i] != last {
        assert Filter(most, f)[i] in most;
        var j :| 0 <= j < |most| && most[j] == Filter(most, f)[i];
        assert s[j] != s[|s| - 1];
      }
    }
  }

  lemma TotalReplaced<T>(s: seq<T>, f: T -> real, k: nat, x: T)
    requires k < |s|
    ensures Total(s[k := x], f) == Total(s, f) - f(s[k]) + f(x)
  {
    TotalWithout(s, f, k);
    TotalWithout(s[k := x], f, k);
    assert s[k := x][..k] + s[k := x][k + 1..] == s[..k] + s[k + 1..];
  }

  lemma WithoutOne<T(!new)>(a: seq<T>, b: seq<T>, k: nat)
    requires AllApart(a) && AllApart(b) && (forall x :: x in a <==> x in b)
    requires a != [] && k < |b| && b[k] == a[|a| - 1]
    ensures var p, q := a[..|a| - 1], b[..k] + b[k + 1..];
      AllApart(p) && AllApart(q) && (forall x :: x in p <==> x in q)
  {
    var p, q := a[..|a| - 1], b[..k] + b[k + 1..];
    assert a == p + [a[|a| - 1]];
    assert b == b[..k] + [b[k]] + b[k + 1..];
    assert forall i :: 0 <= i < |q| ==> q[i] == if i < k then b[i] else b[i + 1];
    forall x | x in q ensures x in p {
      assert x in b && x in a;
      assert x != b[k];
    }
    forall x | x in p ensures x in q {
      assert x in a && x in b;
      var i :| 0 <= i < |p| && p[i] == x;
      assert a[i] != a[|a| - 1];
    }
  }

  /** A total does not depend on the order. */
  lemma {:induction false} TotalOfSame<T(!new)>(a: seq<T>, b: seq<T>, f: T -> real)
    requires AllApart(a) && AllApart(b) && forall x :: x in a <==> x in b
    ensures Total(a, f) == Total(b, f) && |a| == |b|
  {
    if a == [] {
      assert forall i :: 0 <= i < |b| ==> b[i] in b;
    } else {
      assert a[|a| - 1] in b;
      var k :| 0 <= k < |b| && b[k] == a[|a| - 1];
      WithoutOne(a, b, k);
      TotalWithout(b, f, k);
      TotalOfSame(a[..|a| - 1], b[..k] + b[k + 1..], f);
    }
  }
}
