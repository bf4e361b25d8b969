/** Which neighbors the heuristic takes: the greedy rule that determines them, and nothing else does. */
module Selection {
  import opened Base
  import opened Candidates
  import opened Graphs
  import opened Queries
  import opened Insertion

  /** An earlier pick, nearer to the base, is nearer to `c` than the base is. */
  ghost predicate Rejected(g: Graph, dist: Distance, picks: seq<Cand>, c: Cand) {
    exists i :: 0 <= i < |picks| && Before(picks[i], c) && Between(g, dist, c.id, picks[i].id) < c.dist
  }

  ghost predicate AllBefore(s: seq<Cand>, c: Cand) { forall i :: 0 <= i < |s| ==> Before(s[i], c) }

  /** The first pass takes candidates nearest first, each at least as far from the picks as from the base, and leaves
      one out only for an earlier pick or for want of room. */
  ghost predicate Picks(g: Graph, dist: Distance, cands: seq<Cand>, m: nat, picks: seq<Cand>) {
    && |picks| <= m && Sorted(picks) && (forall c :: c in picks ==> c in cands)
    && (forall i, j :: 0 <= i < j < |picks| ==> Between(g, dist, picks[j].id, picks[i].id) >= picks[j].dist)
    && forall c :: c in cands && c !in picks ==>
         Rejected(g, dist, picks, c) || (|picks| == m && AllBefore(picks, c))
  }

  /** The second fills up with the nearest of the others. */
  ghost predicate Fills(cands: seq<Cand>, m: nat, picks: seq<Cand>, fill: seq<Cand>) {
    && |picks| + |fill| <= m && Sorted(fill) && (forall c :: c in fill ==> c in cands && c !in picks)
    && forall c :: c in cands && c !in picks && c !in fill ==> |picks| + |fill| == m && AllBefore(fill, c)
  }

  ghost predicate IsSelection(g: Graph, dist: Distance, cands: seq<Cand>, m: nat, picks: seq<Cand>, fill: seq<Cand>) {
    Picks(g, dist, cands, m, picks) && Fills(cands, m, picks, fill)
  }

  // --- the two passes follow it --------------------------------------------------------------

  lemma CandIdsAppend(s: seq<Cand>, c: Cand)
    ensures CandIds(s + [c]) == CandIds(s) + [c.id]
  {
  }

  lemma SortedParts(done: seq<Cand>, rest: seq<Cand>, c: Cand)
    requires Sorted(done + rest) && rest != [] && c in done
    ensures Before(c, rest[0])
  {
    var i :| 0 <= i < |done| && done[i] == c;
    assert (done + rest)[i] == c && (done + rest)[|done|] == rest[0];
  }

  lemma PickTaken(g: Graph, dist: Distance, done: seq<Cand>, c: Cand, picks: seq<Cand>, m: nat)
    requires Picks(g, dist, done, m, picks) && |picks| < m && forall x :: x in done ==> Before(x, c)
    requires Diverse(g, dist, c, CandIds(picks))
    ensures Picks(g, dist, done + [c], m, picks + [c])
  {
    hide Rejected, AllBefore, Between;
    var next := picks + [c];
    forall i | 0 <= i < |picks| ensures Before(picks[i], c) && Between(g, dist, c.id, picks[i].id) >= c.dist {
      assert picks[i] in picks && CandIds(picks)[i] in CandIds(picks);
    }
    forall x | x in done + [c] && x !in next
      ensures Rejected(g, dist, next, x) || (|next| == m && AllBefore(next, x))
    {
      StillRejected(g, dist, picks, next, x);
    }
  }

  lemma PickLeft(g: Graph, dist: Distance, done: seq<Cand>, c: Cand, picks: seq<Cand>, m: nat)
    requires Picks(g, dist, done, m, picks) && |picks| < m && forall x :: x in done ==> Before(x, c)
    requires !Diverse(g, dist, c, CandIds(picks))
    ensures Picks(g, dist, done + [c], m, picks)
  {
    hide AllBefore, Between;
    var ids := CandIds(picks);
    var r :| r in ids && Between(g, dist, c.id, r) < c.dist;
    var i :| 0 <= i < |ids| && ids[i] == r;
    assert picks[i] in picks;
    assert Rejected(g, dist, picks, c);
  }

  lemma StillRejected(g: Graph, dist: Distance, picks: seq<Cand>, next: seq<Cand>, x: Cand)
    requires picks <= next
    ensures Rejected(g, dist, picks, x) ==> Rejected(g, dist, next, x)
  {
    if Rejected(g, dist, picks, x) {
      var i :| 0 <= i < |picks| && Before(picks[i], x) && Between(g, dist, x.id, picks[i].id) < x.dist;
      assert next[i] == picks[i];
    }
  }

  lemma NoRoom(g: Graph, dist: Distance, done: seq<Cand>, rest: seq<Cand>, picks: seq<Cand>, m: nat)
    requires Picks(g, dist, done, m, picks) && |picks| == m && Sorted(done + rest)
    ensures Picks(g, dist, done + rest, m, picks)
  {
    forall c | c in done + rest && c !in picks
      ensures Rejected(g, dist, picks, c) || (|picks| == m && AllBefore(picks, c))
    {
      if c !in done {
        var k :| 0 <= k < |rest| && rest[k] == c;
        forall i | 0 <= i < |picks| ensures Before(picks[i], c) {
          assert picks[i] in picks;
          var d :| 0 <= d < |done| && done[d] == picks[i];
          assert (done + rest)[d] == picks[i] && (done + rest)[|done| + k] == c;
        }
      }
    }
  }

  lemma {:induction false} PickFollows(g: Graph, dist: Distance, done: seq<Cand>, rest: seq<Cand>, picks: seq<Cand>,
                                       m: nat)
    returns (all: seq<Cand>)
    requires Sorted(done + rest) && Picks(g, dist, done, m, picks)
    ensures CandIds(all) == Pick(g, dist, rest, CandIds(picks), m) && Picks(g, dist, done + rest, m, all)
    decreases |rest|
  {
    hide Picks, Diverse;
    all := picks;
    if rest == [] {
      assert done + rest == done;
    } else if |picks| >= m {
      PicksFit(g, dist, done, m, picks);
      NoRoom(g, dist, done, rest, picks, m);
    } else {
      var c := rest[0];
      forall x | x in done ensures Before(x, c) { SortedParts(done, rest, x); }
      if Diverse(g, dist, c, CandIds(picks)) { PickTaken(g, dist, done, c, picks, m); }
      else { PickLeft(g, dist, done, c, picks, m); }
      CandIdsAppend(picks, c);
      assert (done + [c]) + rest[1..] == done + rest;
      all := PickFollows(g, dist, done + [c], rest[1..],
                         if Diverse(g, dist, c, CandIds(picks)) then picks + [c] else picks, m);
    }
  }

  lemma PicksFit(g: Graph, dist: Distance, cands: seq<Cand>, m: nat, picks: seq<Cand>)
    requires Picks(g, dist, cands, m, picks)
    ensures |picks| <= m && Sorted(picks) && forall c :: c in picks ==> c in cands
  {
  }

  /** An id selects one candidate. */
  lemma SelectedIs(all: seq<Cand>, taken: seq<Cand>, c: Cand)
    requires DistinctIds(all) && c in all && forall x :: x in taken ==> x in all
    ensures c.id in CandIds(taken) <==> c in taken
  {
    if c.id in CandIds(taken) {
      var i :| 0 <= i < |taken| && CandIds(taken)[i] == c.id;
      assert taken[i] in taken;
      var a :| 0 <= a < |all| && all[a] == taken[i];
      var b :| 0 <= b < |all| && all[b] == c;
    }
    if c in taken {
      var i :| 0 <= i < |taken| && taken[i] == c;
      assert CandIds(taken)[i] == c.id;
    }
  }

  lemma FillOne(done: seq<Cand>, c: Cand, picks: seq<Cand>, fill: seq<Cand>, m: nat)
    requires Fills(done, m, picks, fill) && |picks| + |fill| < m && forall x :: x in done ==> Before(x, c)
    ensures Fills(done + [c], m, picks, if c in picks + fill then fill else fill + [c])
  {
    forall i | 0 <= i < |fill| ensures Before(fill[i], c) { assert fill[i] in fill; }
  }

  lemma FillNoRoom(done: seq<Cand>, rest: seq<Cand>, picks: seq<Cand>, fill: seq<Cand>, m: nat)
    requires Fills(done, m, picks, fill) && |picks| + |fill| == m && Sorted(done + rest)
    ensures Fills(done + rest, m, picks, fill)
  {
    forall c | c in done + rest && c !in picks && c !in fill ensures AllBefore(fill, c) {
      if c !in done {
        var k :| 0 <= k < |rest| && rest[k] == c;
        forall i | 0 <= i < |fill| ensures Before(fill[i], c) {
          assert fill[i] in fill;
          var d :| 0 <= d < |done| && done[d] == fill[i];
          assert (done + rest)[d] == fill[i] && (done + rest)[|done| + k] == c;
        }
      }
    }
  }

  lemma {:induction false} BackfillFollows(done: seq<Cand>, rest: seq<Cand>, picks: seq<Cand>, fill: seq<Cand>, m: nat)
    returns (all: seq<Cand>)
    requires Sorted(done + rest) && DistinctIds(done + rest) && Fills(done, m, picks, fill)
    requires forall c :: c in picks ==> c in done + rest
    ensures CandIds(picks + all) == Backfill(rest, CandIds(picks + fill), m) && Fills(done + rest, m, picks, all)
    decreases |rest|
  {
    hide Fills;
    all := fill;
    FillsFit(done, m, picks, fill);
    if rest == [] {
      assert done + rest == done;
    } else if |picks| + |fill| >= m {
      FillNoRoom(done, rest, picks, fill, m);
    } else {
      var c := rest[0];
      forall x | x in done ensures Before(x, c) { SortedParts(done, rest, x); }
      FillOne(done, c, picks, fill, m);
      SelectedIs(done + rest, picks + fill, c);
      CandIdsAppend(picks + fill, c);
      assert (picks + fill) + [c] == picks + (fill + [c]);
      assert (done + [c]) + rest[1..] == done + rest;
      all := BackfillFollows(done + [c], rest[1..], picks, if c in picks + fill then fill else fill + [c], m);
    }
  }

  lemma FillsFit(cands: seq<Cand>, m: nat, picks: seq<Cand>, fill: seq<Cand>)
    requires Fills(cands, m, picks, fill)
    ensures |picks| + |fill| <= m && Sorted(fill) && forall c :: c in fill ==> c in cands
  {
  }

  /** What the heuristic returns obeys the greedy rule. */
  lemma SelectGreedy(g: Graph, dist: Distance, cands: seq<Cand>, m: nat) returns (picks: seq<Cand>, fill: seq<Cand>)
    requires DistinctIds(cands)
    ensures Select(g, dist, cands, m) == CandIds(picks + fill) && IsSelection(g, dist, cands, m, picks, fill)
  {
    hide Pick, Backfill, Rejected, Diverse, Between;
    var sorted := Sort(cands);
    SortDistinctIds(cands);
    assert Distinct(cands);
    SortSorted(cands);
    assert [] + sorted == sorted && CandIds([]) == [];
    picks := PickFollows(g, dist, [], sorted, [], m);
    fill := [];
    if |picks| < m {
      fill := BackfillFollows([], sorted, picks, [], m);
    }
    assert picks + [] == picks;
  }

  // --- and the rule allows one selection -------------------------------------------------------

  /** Where two selections agreed before, the nearer next pick is in both. */
  lemma PickInBoth(g: Graph, dist: Distance, cands: seq<Cand>, m: nat, a: seq<Cand>, b: seq<Cand>, i: nat)
    requires Picks(g, dist, cands, m, a) && Picks(g, dist, cands, m, b)
    requires i < |a| && i <= |b| && a[..i] == b[..i] && (i < |b| ==> a[i] == b[i] || Before(a[i], b[i]))
    ensures a[i] in b
  {
    var c := a[i];
    assert c in a && c in cands;
    forall k | 0 <= k < |b| && Before(b[k], c) ensures k < i && b[k] == a[k] {
      if k < i { assert a[..i][k] == b[..i][k]; } else { NotBefore(b, i, k, c); }
    }
    assert !Rejected(g, dist, b, c);
    assert !(|b| == m && AllBefore(b, c));
  }

  lemma NotBefore(b: seq<Cand>, i: nat, k: nat, c: Cand)
    requires Sorted(b) && i <= k < |b| && (c == b[i] || Before(c, b[i]))
    ensures !Before(b[k], c)
  {
    assert k > i ==> Before(b[i], b[k]);
  }

  lemma SameNext(a: seq<Cand>, b: seq<Cand>, i: nat)
    requires Sorted(a) && Sorted(b) && i < |a| && i <= |b| && a[..i] == b[..i] && a[i] in b
    requires i < |b| ==> a[i] == b[i] || Before(a[i], b[i])
    ensures i < |b| && a[i] == b[i]
  {
    forall j | 0 <= j < i ensures a[j] == b[j] && Before(a[j], a[i]) { assert a[..i][j] == b[..i][j]; }
    var k :| 0 <= k < |b| && b[k] == a[i];
    assert i < k ==> Before(b[i], b[k]);
  }

  lemma {:induction false} PicksUnique(g: Graph, dist: Distance, cands: seq<Cand>, m: nat, a: seq<Cand>, b: seq<Cand>,
                                       i: nat)
    requires Picks(g, dist, cands, m, a) && Picks(g, dist, cands, m, b)
    requires i <= |a| && i <= |b| && a[..i] == b[..i]
    ensures a == b
    decreases |a| - i
  {
    PicksFit(g, dist, cands, m, a);
    PicksFit(g, dist, cands, m, b);
    hide Picks;
    if i == |a| && i == |b| {
      assert a == a[..i] && b == b[..i];
    } else {
      if i < |a| && (i == |b| || a[i] == b[i] || Before(a[i], b[i])) {
        PickInBoth(g, dist, cands, m, a, b, i);
        SameNext(a, b, i);
      } else {
        PickInBoth(g, dist, cands, m, b, a, i);
        SameNext(b, a, i);
      }
      assert a[..i + 1] == a[..i] + [a[i]] && b[..i + 1] == b[..i] + [b[i]];
      PicksUnique(g, dist, cands, m, a, b, i + 1);
    }
  }

  lemma FillInBoth(cands: seq<Cand>, m: nat, picks: seq<Cand>, a: seq<Cand>, b: seq<Cand>, i: nat)
    requires Fills(cands, m, picks, a) && Fills(cands, m, picks, b)
    requires i < |a| && i <= |b| && a[..i] == b[..i] && (i < |b| ==> a[i] == b[i] || Before(a[i], b[i]))
    ensures a[i] in b
  {
    var c := a[i];
    assert c in a && c in cands && c !in picks;
    assert !(|picks| + |b| == m && AllBefore(b, c));
  }

  lemma {:induction false} FillUnique(cands: seq<Cand>, m: nat, picks: seq<Cand>, a: seq<Cand>, b: seq<Cand>, i: nat)
    requires Fills(cands, m, picks, a) && Fills(cands, m, picks, b)
    requires i <= |a| && i <= |b| && a[..i] == b[..i]
    ensures a == b
    decreases |a| - i
  {
    FillsFit(cands, m, picks, a);
    FillsFit(cands, m, picks, b);
    hide Fills;
    if i == |a| && i == |b| {
      assert a == a[..i] && b == b[..i];
    } else {
      if i < |a| && (i == |b| || a[i] == b[i] || Before(a[i], b[i])) {
        FillInBoth(cands, m, picks, a, b, i);
        SameNext(a, b, i);
      } else {
        FillInBoth(cands, m, picks, b, a, i);
        SameNext(b, a, i);
      }
      assert a[..i + 1] == a[..i] + [a[i]] && b[..i + 1] == b[..i] + [b[i]];
      FillUnique(cands, m, picks, a, b, i + 1);
    }
  }

  /** The candidates, their distances and the room determine the selection, order included. */
  lemma SelectionUnique(g: Graph, dist: Distance, cands: seq<Cand>, m: nat, picks: seq<Cand>, fill: seq<Cand>)
    requires DistinctIds(cands) && IsSelection(g, dist, cands, m, picks, fill)
    ensures Select(g, dist, cands, m) == CandIds(picks + fill)
  {
    hide Picks, Fills, Select;
    var p, f := SelectGreedy(g, dist, cands, m);
    PicksUnique(g, dist, cands, m, picks, p, 0);
    FillUnique(cands, m, picks, fill, f, 0);
  }
}
