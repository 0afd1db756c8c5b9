/** Names of models, sets and pools, ordered as Go's `sort.Strings` orders them. */
module Names {

  /** Strict lexicographic order. */
  predicate Before(a: string, b: string)
  {
    if b == "" then false
    else if a == "" then true
    else if a[0] != b[0] then a[0] < b[0]
    else Before(a[1..], b[1..])
  }

  lemma {:induction false} BeforeTotal(a: string, b: string)
    ensures a == b || Before(a, b) || Before(b, a)
    ensures !(Before(a, b) && Before(b, a)) && !Before(a, a)
  {
    if a != "" {
      BeforeTotal(a[1..], a[1..]);
    }
    if a != "" && b != "" && a[0] == b[0] {
      BeforeTotal(a[1..], b[1..]);
      assert a == [a[0]] + a[1..] && b == [b[0]] + b[1..];
    }
  }

  /** The first place where two names differ decides, and a name comes before all that
      it begins. */
  lemma {:induction false} BeforeMeans(a: string, b: string)
    ensures Before(a, b) <==> exists k :: DecidesAt(a, b, k)
  {
    if a != "" && b != "" && a[0] == b[0] {
      BeforeMeans(a[1..], b[1..]);
      if k :| DecidesAt(a[1..], b[1..], k) {
        assert a[..k + 1] == [a[0]] + a[1..][..k] && b[..k + 1] == [b[0]] + b[1..][..k];
        assert DecidesAt(a, b, k + 1);
      }
      if k :| DecidesAt(a, b, k) {
        assert a[1..][..k - 1] == a[1..k] && b[1..][..k - 1] == b[1..k];
        assert a[1..k] == a[..k][1..] && b[1..k] == b[..k][1..];
        assert DecidesAt(a[1..], b[1..], k - 1);
      }
    } else {
      forall k | DecidesAt(a, b, k)
        ensures k == 0
      {
        if k > 0 {
          FirstAgrees(a, b, k);
          assert false;
        }
      }
      assert a[..0] == b[..0];
      assert DecidesAt(a, b, 0) <==> Before(a, b);
    }
  }

  lemma FirstAgrees(a: string, b: string, k: int)
    requires 0 < k <= |a| && k <= |b| && a[..k] == b[..k]
    ensures a[0] == b[0]
  {
    assert a[..k][0] == a[0] && b[..k][0] == b[0];
  }

  /** Up to `k` the names agree; there the first one ends, or has the smaller character. */
  ghost predicate DecidesAt(a: string, b: string, k: int)
  {
    0 <= k <= |a| && k < |b| && a[..k] == b[..k] && (k == |a| || a[k] < b[k])
  }

  lemma {:induction false} BeforeTransitive(a: string, b: string, c: string)
    requires Before(a, b) && Before(b, c)
    ensures Before(a, c)
  {
    if a != "" && a[0] == b[0] == c[0] {
      BeforeTransitive(a[1..], b[1..], c[1..]);
    }
  }

  function Elements<T>(xs: seq<T>): set<T> { set x | x in xs }

  lemma SomeMember<T>(xs: seq<T>)
    ensures xs != [] ==> exists x :: x in xs
  {
    if xs != [] {
      assert xs[0] in xs;
    }
  }

  ghost predicate StrictlySorted(xs: seq<string>)
  {
    forall i, j :: 0 <= i < j < |xs| ==> Before(xs[i], xs[j])
  }

  lemma {:induction false} Smallest(s: set<string>) returns (m: string)
    requires s != {}
    ensures m in s && forall x :: x in s && x != m ==> Before(m, x)
  {
    var first :| first in s;
    m := first;
    if s != {first} {
      var n := Smallest(s - {first});
      BeforeTotal(first, n);
      m := if Before(n, first) then n else first;
      forall x | x in s && x != m
        ensures Before(m, x)
      {
        if m == first && x != n {
          BeforeTransitive(first, n, x);
        }
      }
    }
  }

  /** The one strictly sorted listing of a finite set of names. */
  ghost function SortedListing(s: set<string>): (xs: seq<string>)
    ensures StrictlySorted(xs) && Elements(xs) == s
  {
    if s == {} then []
    else
      assert exists m :: m in s && forall x :: x in s && x != m ==> Before(m, x) by {
        var m := Smallest(s);
      }
      var m :| m in s && forall x :: x in s && x != m ==> Before(m, x);
      var rest := SortedListing(s - {m});
      assert forall i :: 0 <= i < |rest| ==> rest[i] in Elements(rest);
      assert Elements([m] + rest) == {m} + Elements(rest);
      [m] + rest
  }

  /** Sorting is canonical: a strictly sorted list is fixed by its elements. */
  lemma {:induction false} SortedIsUnique(xs: seq<string>, ys: seq<string>)
    requires StrictlySorted(xs) && StrictlySorted(ys) && Elements(xs) == Elements(ys)
    ensures xs == ys
  {
    assert forall i :: 0 <= i < |xs| ==> xs[i] in Elements(xs);
    assert forall i :: 0 <= i < |ys| ==> ys[i] in Elements(ys);
    if xs != [] && ys != [] {
      assert xs[0] in Elements(ys) && ys[0] in Elements(xs);
      BeforeTotal(xs[0], ys[0]);
      assert xs[0] == ys[0];
      forall x
        ensures x in Elements(xs[1..]) <==> x in Elements(ys[1..])
      {
        BeforeTotal(xs[0], x);
        assert x in xs[1..] <==> x in Elements(xs) && x != xs[0] by { Head(xs, x); }
        assert x in ys[1..] <==> x in Elements(ys) && x != ys[0] by { Head(ys, x); }
      }
      SortedIsUnique(xs[1..], ys[1..]);
    }
  }

  lemma Head(xs: seq<string>, x: string)
    requires StrictlySorted(xs) && xs != []
    ensures x in xs[1..] <==> x in xs && x != xs[0]
  {
    BeforeTotal(x, x);
    if x in xs[1..] {
      var i :| 1 <= i < |xs| && xs[i] == x;
      assert Before(xs[0], xs[i]);
    }
  }

  /** `sort.Strings` on a list without duplicates. */
  method SortStrings(names: seq<string>) returns (sorted: seq<string>)
    requires forall i, j :: 0 <= i < j < |names| ==> names[i] != names[j]
    ensures sorted == SortedListing(Elements(names))
  {
    sorted := [];
    for n := 0 to |names|
      invariant StrictlySorted(sorted) && Elements(sorted) == Elements(names[..n])
    {
      var x := names[n];
      assert x !in Elements(names[..n]);
      var at := 0;
      while at < |sorted| && Before(sorted[at], x)
        invariant at <= |sorted|
        invariant forall i :: 0 <= i < at ==> Before(sorted[i], x)
      {
        at := at + 1;
      }
      InsertAt(sorted, x, at);
      assert names[..n + 1] == names[..n] + [x];
      sorted := sorted[..at] + [x] + sorted[at..];
    }
    assert names[..|names|] == names;
    SortedIsUnique(sorted, SortedListing(Elements(names)));
  }

  lemma InsertAt(sorted: seq<string>, x: string, at: nat)
    requires StrictlySorted(sorted) && x !in sorted && at <= |sorted|
    requires forall i :: 0 <= i < at ==> Before(sorted[i], x)
    requires at < |sorted| ==> !Before(sorted[at], x)
    ensures StrictlySorted(sorted[..at] + [x] + sorted[at..])
    ensures Elements(sorted[..at] + [x] + sorted[at..]) == Elements(sorted) + {x}
  {
    var r := sorted[..at] + [x] + sorted[at..];
    forall j | at <= j < |sorted|
      ensures Before(x, sorted[j])
    {
      BeforeTotal(x, sorted[at]);
      if at < j {
        BeforeTransitive(x, sorted[at], sorted[j]);
      }
    }
    assert sorted == sorted[..at] + sorted[at..];
    forall y
      ensures y in Elements(r) <==> y in Elements(sorted) + {x}
    {}
  }
}
