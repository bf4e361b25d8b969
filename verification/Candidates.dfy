/** Scored candidates, and the heaps that keep them in (distance, id) order. */
module Candidates {
  import opened Base

  /** Distances are any totally ordered values; a kernel producing NaN is outside this model. */
  datatype Cand = Cand(dist: int, id: nat)

  predicate Before(a: Cand, b: Cand) { a.dist < b.dist || (a.dist == b.dist && a.id < b.id) }

  /** Strictly ascending, so no candidate twice. */
  predicate Sorted(s: seq<Cand>) { forall i, j :: 0 <= i < j < |s| ==> Before(s[i], s[j]) }

  function Rest(s: seq<Cand>): seq<Cand>
    requires s != []
  {
    s[1..]
  }

  /** A heap is kept as its sorted contents: pushing is insertion, popping takes an end. */
  function Insert(s: seq<Cand>, c: Cand): (r: seq<Cand>)
    ensures |r| == |s| + 1
    ensures forall x :: x in r <==> x == c || x in s
    ensures Sorted(s) && c !in s ==> Sorted(r)
  {
    if s == [] then [c]
    else if Before(c, s[0]) then [c] + s
    else
      var t := Insert(Rest(s), c);
      assert s == [s[0]] + Rest(s);
      assert forall x :: x in s <==> x == s[0] || x in Rest(s);
      PrependSorted(s, c, t);
      [s[0]] + t
  }

  lemma PrependSorted(s: seq<Cand>, c: Cand, t: seq<Cand>)
    requires s != [] && !Before(c, s[0]) && forall x :: x in t <==> x == c || x in Rest(s)
    ensures Sorted(s) && c !in s && (Sorted(Rest(s)) ==> Sorted(t)) ==> Sorted([s[0]] + t)
  {
    if Sorted(s) && c !in s {
      forall j | 0 <= j < |t| ensures Before(s[0], t[j]) {
        assert t[j] in t;
        if t[j] != c { var i :| 0 <= i < |Rest(s)| && Rest(s)[i] == t[j]; assert Before(s[0], s[i + 1]); }
      }
    }
  }

  /** sort_unstable over candidates with distinct ids. */
  function Sort(s: seq<Cand>): (r: seq<Cand>)
    ensures |r| == |s|
    ensures forall x :: x in r <==> x in s
  {
    if s == [] then [] else
    assert forall x :: x in s <==> x in s[..|s| - 1] || x == s[|s| - 1];
    Insert(Sort(s[..|s| - 1]), s[|s| - 1])
  }

  predicate Distinct<T(==)>(s: seq<T>) { forall i, j :: 0 <= i < j < |s| ==> s[i] != s[j] }

  lemma {:induction false} SortSorted(s: seq<Cand>)
    requires Distinct(s)
    ensures Sorted(Sort(s))
  {
    if s != [] {
      var init := s[..|s| - 1];
      SortSorted(init);
      assert s[|s| - 1] !in init;
    }
  }

  /** One sequence only is sorted and has given members: ties and all, order is determined. */
  lemma {:induction false} SortedUnique(a: seq<Cand>, b: seq<Cand>)
    requires Sorted(a) && Sorted(b) && forall x :: x in a <==> x in b
    ensures a == b
  {
    assert a != [] ==> a[0] in a;
    assert b != [] ==> b[0] in b;
    if a != [] {
      assert a[0] in b && b[0] in a;
      assert a[0] == b[0];
      forall x ensures x in a[1..] <==> x in b[1..] {
        assert x in a <==> x == a[0] || x in a[1..] by { assert a == [a[0]] + a[1..]; }
        assert x in b <==> x == b[0] || x in b[1..] by { assert b == [b[0]] + b[1..]; }
        if x in a[1..] { var i :| 0 <= i < |a[1..]| && a[1..][i] == x; assert Before(a[0], a[i + 1]); }
        if x in b[1..] { var i :| 0 <= i < |b[1..]| && b[1..][i] == x; assert Before(b[0], b[i + 1]); }
      }
      SortedUnique(a[1..], b[1..]);
    }
  }
}
