/** What whole searches find: where the descent stops, what a query cannot have missed, and when a filtered one is
    exact. */
module QueryOptimal {
  import opened Base
  import opened Filter
  import opened Candidates
  import opened Graphs
  import opened Search
  import opened SearchBounds
  import opened SearchReach
  import opened LiveSearch
  import opened Queries
  import opened SearchOptimal
  import opened FilteredReach
  import opened Insertion

  // --- the greedy descent -------------------------------------------------------------------

  /** No live neighbor on the layer is nearer to the query. */
  ghost predicate NearestAround(p: Probe, id: nat) {
    forall y: nat :: y in Adjacent(p, id) && !Deleted(p.g, y) ==> DistanceTo(p, id) <= DistanceTo(p, y)
  }

  /** A search for one node stops where no neighbor is nearer, and no farther off than it started. */
  lemma NearestStep(p: Probe, ep: nat, tr: Budget)
    requires InRange(p.g) && !Filtered(p.pred) && ep < Size(p.g)
    ensures var n := Nearest(SearchLayer(p, [ep], 1, tr).0, ep);
            && n < Size(p.g) && NearestAround(p, n)
            && (!Deleted(p.g, ep) ==> !Deleted(p.g, n) && DistanceTo(p, n) <= DistanceTo(p, ep))
  {
    hide SearchLayer, LayerBeam, NodeMatches;
    var w := SearchLayer(p, [ep], 1, tr).0;
    var n := Nearest(w, ep);
    SearchLayerSound(p, [ep], 1, tr);
    assert ep in Set([ep]);
    if w == [] {
      forall y: nat | y in Adjacent(p, n) ensures Deleted(p.g, y) {
        assert Reaches(p, y, y, 0);
        assert Reaches(p, ep, y, 1);
        assert y in Neighbors(p.g, ep, p.layer);
        if !Deleted(p.g, y) { FindsReached(p, [ep], 1, tr, ep, y, 1); }
      }
      if !Deleted(p.g, ep) { LiveSeed(p, [ep], ep); FindsLiveIff(p, [ep], 1, tr); }
    } else {
      assert w == [w[0]] && w[0] in w;
      SearchLayerNearest(p, [ep], 1, tr);
      forall y: nat | y in Adjacent(p, n) && !Deleted(p.g, y) ensures DistanceTo(p, n) <= DistanceTo(p, y) {
        assert Admissible(p, y) by { UnfilteredMatches(p, y); }
      }
      if !Deleted(p.g, ep) { assert Admissible(p, ep) by { UnfilteredMatches(p, ep); } }
    }
  }

  lemma UnfilteredMatches(p: Probe, id: nat)
    requires !Filtered(p.pred)
    ensures NodeMatches(p, id)
  {
  }

  /** An insertion's descent hands over where no live neighbor on the layer above is nearer. */
  lemma {:induction false} DescendToNearest(g: Graph, dist: Distance, vector: Vec, layer: nat, stop: nat, ep: nat)
    requires InRange(g) && ep < Size(g) && stop < layer
    ensures NearestAround(BuildProbe(g, dist, vector, stop + 1), DescendTo(g, dist, vector, layer, stop, ep))
  {
    hide SearchLayer, NearestAround;
    NearestStep(BuildProbe(g, dist, vector, layer), ep, UNFILTERED);
    if layer > stop + 1 {
      var next := Nearest(SearchLayer(BuildProbe(g, dist, vector, layer), [ep], 1, UNFILTERED).0, ep);
      DescendToNearest(g, dist, vector, layer - 1, stop, next);
    }
  }

  lemma NavigateNearest(q: Query, layer: nat, d: Descent)
    requires InRange(q.g) && Lands(q, d)
    ensures Lands(q, Navigate(q, layer, d))
    ensures NearestAround(ProbeAt(q, layer, None), Navigate(q, layer, d).ep)
    ensures DescendOne(q, layer, d).ep == Navigate(q, layer, d).ep
  {
    hide SearchLayer, NearestAround;
    NearestStep(ProbeAt(q, layer, None), d.ep, d.tr);
    assert Navigate(q, layer, d).ep == Nearest(SearchLayer(ProbeAt(q, layer, None), [d.ep], 1, d.tr).0, d.ep);
  }

  /** So does a query's, filter or no filter: no live neighbor on layer 1 is nearer. */
  lemma {:induction false} DescendNearest(q: Query, layer: nat, d: Descent)
    requires InRange(q.g) && Lands(q, d) && layer > 0
    ensures NearestAround(ProbeAt(q, 1, None), Descend(q, layer, d).ep)
  {
    hide SearchLayer, NearestAround, Navigate, DescendOne;
    NavigateNearest(q, layer, d);
    if layer > 1 {
      DescendOneLands(q, layer, d);
      DescendNearest(q, layer - 1, DescendOne(q, layer, d));
    }
  }

  // --- the footholds a filter needs ---------------------------------------------------------------

  ghost predicate NoneNearer(p: Probe, x: nat) {
    forall y: nat :: y in Adjacent(p, x) && Admissible(p, y) ==> DistanceTo(p, x) <= DistanceTo(p, y)
  }

  ghost predicate NoneAround(p: Probe, x: nat) { forall y: nat :: y in Adjacent(p, x) ==> !Admissible(p, y) }

  lemma SingleNearest(p: Probe, w: seq<Cand>)
    requires LocallyNearest(p, w, 1) && |w| == 1 && w[0] == Scored(p, w[0].id)
    ensures NoneNearer(p, w[0].id)
  {
    hide Admissible;
    forall y: nat | y in Adjacent(p, w[0].id) && Admissible(p, y) ensures w[0].dist <= DistanceTo(p, y) {
      assert w[0] in w;
    }
  }

  /** Probing a layer yields a live matching node no farther off than any it started from. While expansions are left it
      yields none only where no node it started from has one beside it, and one that has none nearer beside it. */
  lemma FootholdFound(q: Query, layer: nat, d: Descent)
    requires InRange(q.g) && Lands(q, d)
    ensures var p, f := ProbeAt(q, layer, q.pred), FindFoothold(q, layer, d);
            && f.ep == d.ep && |f.seeds| <= 1 && (forall x :: x in f.seeds ==> x < Size(q.g) && Admissible(p, x))
            && (forall v :: v in [d.ep] + d.seeds && Admissible(p, v) ==>
                  f.seeds != [] && DistanceTo(p, f.seeds[0]) <= DistanceTo(p, v))
            && (f.tr.expansions > 0 ==>
                  if f.seeds == [] then forall v :: v in [d.ep] + d.seeds ==> NoneAround(p, v)
                  else NoneNearer(p, f.seeds[0]))
  {
    hide SearchLayer, LayerBeam, Admissible;
    var p, seeds := ProbeAt(q, layer, q.pred), [d.ep] + d.seeds;
    forall x | x in seeds ensures x < Size(q.g) {}
    SearchLayerSound(p, seeds, 1, d.tr);
    var (w, t) := SearchLayer(p, seeds, 1, d.tr);
    if w == [] {
      forall v, y: nat | v in seeds && y in Adjacent(p, v) && t.expansions > 0 ensures !Admissible(p, y) {
        assert v in Set(seeds);
        NothingMissed(p, seeds, 1, d.tr, v, y);
      }
      forall v | v in seeds ensures !Admissible(p, v) { assert v in Set(seeds); }
    } else {
      assert w == [w[0]] && w[0] in w;
      assert FindFoothold(q, layer, d).seeds == CandIds(w) == [w[0].id];
      forall v | v in seeds && Admissible(p, v) ensures w[0].dist <= DistanceTo(p, v) { assert v in Set(seeds); }
      if t.expansions > 0 {
        SearchLayerNearest(p, seeds, 1, d.tr);
        SingleNearest(p, w);
      }
    }
  }

  /** A foothold once found is never lost further down, nor given up for a farther one. */
  lemma {:induction false} DescendKeepsFoothold(q: Query, layer: nat, d: Descent)
    requires InRange(q.g) && Filtered(q.pred) && Lands(q, d)
    requires d.seeds != [] && Admissible(ProbeAt(q, 0, q.pred), d.seeds[0])
    ensures var p, r := ProbeAt(q, 0, q.pred), Descend(q, layer, d).seeds;
            r != [] && r[0] < Size(q.g) && Admissible(p, r[0]) && DistanceTo(p, r[0]) <= DistanceTo(p, d.seeds[0])
  {
    hide SearchLayer, Admissible;
    assert d.seeds[0] in d.seeds;
    if layer > 0 {
      var n, p := Navigate(q, layer, d), ProbeAt(q, layer, q.pred);
      NavigateNearest(q, layer, d);
      SameAdmissible(q, layer);
      NavigatesTo(q, layer, d);
      FootholdFound(q, layer, n);
      var f := FindFoothold(q, layer, n);
      assert n.seeds[0] in [n.ep] + n.seeds;
      DescendOneLands(q, layer, d);
      assert f.seeds[0] in f.seeds;
      DescendKeepsFoothold(q, layer - 1, f);
    }
  }

  lemma SameAdmissible(q: Query, layer: nat)
    ensures forall x :: Admissible(ProbeAt(q, layer, q.pred), x) <==> Admissible(ProbeAt(q, 0, q.pred), x)
    ensures forall x :: DistanceTo(ProbeAt(q, layer, q.pred), x) == DistanceTo(ProbeAt(q, 0, q.pred), x)
  {
  }

  // --- what the descent leaves of the allowance ---------------------------------------------------

  lemma DescendOneLeaves(q: Query, layer: nat, d: Descent, w: nat)
    requires InRange(q.g) && Filtered(q.pred) && NarrowGraph(q.g, w) && Lands(q, d)
    ensures var t := DescendOne(q, layer, d).tr;
            && d.tr.expansions <= t.expansions + Size(q.g)
            && d.tr.expansions + d.tr.cost.expansions <= t.expansions + t.cost.expansions
  {
    hide SearchLayer, NarrowGraph, NearestAround;
    var n := Navigate(q, layer, d);
    NavigateNearest(q, layer, d);
    UnfilteredLayerCost(ProbeAt(q, layer, None), [d.ep], 1, d.tr);
    FootholdCost(q, layer, n, w);
    forall x | x in [n.ep] + n.seeds ensures x < Size(q.g) {}
    LayerExpandsOnce(ProbeAt(q, layer, q.pred), [n.ep] + n.seeds, 1, n.tr);
  }

  /** Each layer expands every node at most once. */
  lemma {:induction false} DescendLeaves(q: Query, layer: nat, d: Descent, w: nat)
    requires InRange(q.g) && Filtered(q.pred) && NarrowGraph(q.g, w) && Lands(q, d)
    ensures var t := Descend(q, layer, d).tr;
            && d.tr.expansions <= t.expansions + layer * Size(q.g)
            && d.tr.expansions + d.tr.cost.expansions <= t.expansions + t.cost.expansions
  {
    hide DescendOne, NarrowGraph;
    if layer > 0 {
      DescendOneLands(q, layer, d);
      DescendOneLeaves(q, layer, d, w);
      DescendLeaves(q, layer - 1, DescendOne(q, layer, d), w);
      assert layer * Size(q.g) == (layer - 1) * Size(q.g) + Size(q.g);
    }
  }

  lemma LandingLeaves(q: Query, ef: nat)
    requires StructurallyValid(q.g) && q.g.entry.Some? && Filtered(q.pred)
    ensures var t := Landing(q, q.g.entry.value, ef).tr;
            && Min(16 * ef, U64_MAX) <= t.expansions + q.g.maxLayer * Size(q.g)
            && Min(16 * ef, U64_MAX) <= t.expansions + t.cost.expansions
  {
    forall id: nat, layer: nat ensures |Neighbors(q.g, id, layer)| <= q.g.m0Cap {}
    DescendLeaves(q, q.g.maxLayer, Descent(q.g.entry.value, [], BudgetFor(ef)), q.g.m0Cap);
  }

  // --- a query's results are locally nearest -----------------------------------------------------------

  lemma TruncatedNearest(p: Probe, w: seq<Cand>, ef: nat, k: nat)
    requires LocallyNearest(p, w, ef) && Sorted(w) && |w| <= ef && k <= ef
    ensures LocallyNearest(p, Truncated(w, k), k)
  {
    hide Admissible;
    var out := Truncated(w, k);
    assert forall i :: 0 <= i < |out| ==> out[i] == w[i] && out[i] in out;
    forall c: Cand, y: nat | c in out && y in Adjacent(p, c.id) && Admissible(p, y) && Scored(p, y) !in out
      ensures |out| == k && forall d :: d in out ==> d.dist <= DistanceTo(p, y)
    {
      assert c in w;
      if Scored(p, y) in w && |w| > k {
        var i :| 0 <= i < |w| && w[i] == Scored(p, y);
        assert i >= |out|;
        forall d | d in out ensures d.dist <= DistanceTo(p, y) {
          var j :| 0 <= j < |out| && out[j] == d;
          assert Before(w[j], w[i]);
        }
      }
    }
  }

  lemma BottomNearest(q: Query, ef: nat)
    requires StructurallyValid(q.g) && q.g.entry.Some?
    ensures var d := Landing(q, q.g.entry.value, ef);
            var p := ProbeAt(q, 0, q.pred);
            var (w, t) := SearchLayer(p, [d.ep] + d.seeds, ef, BottomBudget(q, d.tr, ef));
            && Sorted(w) && |w| <= ef
            && (!Filtered(q.pred) || t.cost.expansions < Min(16 * ef, U64_MAX) ==> LocallyNearest(p, w, ef))
  {
    hide SearchLayer, Landing, LocallyNearest, LayerBeam;
    var d := Landing(q, q.g.entry.value, ef);
    var p, start := ProbeAt(q, 0, q.pred), BottomBudget(q, d.tr, ef);
    BottomSeeds(q, ef);
    SearchLayerSound(p, [d.ep] + d.seeds, ef, start);
    var t := SearchLayer(p, [d.ep] + d.seeds, ef, start).1;
    if !Filtered(q.pred) {
      SearchLayerNearest(p, [d.ep] + d.seeds, ef, start);
    } else if t.cost.expansions < Min(16 * ef, U64_MAX) {
      LandingLeaves(q, ef);
      forall id ensures |Adjacent(p, id)| <= q.g.m0Cap {}
      FilteredLayerCost(p, [d.ep] + d.seeds, ef, start, q.g.m0Cap);
      SearchLayerNearest(p, [d.ep] + d.seeds, ef, start);
    }
  }

  /** Unless a filter cost it all its expansions, a query leaves out no live matching neighbor of a result that is
      nearer
      than the `k`-th. */
  lemma SearchLocallyNearest(q: Query, k: nat, efSearch: nat)
    requires StructurallyValid(q.g) && SearchInner(q, k, efSearch).Ok?
    requires !Filtered(q.pred)
             || SearchInner(q, k, efSearch).value.1.expansions < Min(16 * (if efSearch >= k then efSearch else k),
                 U64_MAX)
    ensures LocallyNearest(ProbeAt(q, 0, q.pred), SearchInner(q, k, efSearch).value.0, k)
  {
    hide SearchLayer, Landing, LocallyNearest, BottomBudget, Truncated;
    var p := ProbeAt(q, 0, q.pred);
    if q.g.entry.None? || k == 0 {
      assert LocallyNearest(p, [], k) by { NothingNearest(p, k); }
    } else {
      var ef := if efSearch >= k then efSearch else k;
      BottomNearest(q, ef);
      var d := Landing(q, q.g.entry.value, ef);
      TruncatedNearest(p, SearchLayer(p, [d.ep] + d.seeds, ef, BottomBudget(q, d.tr, ef)).0, ef, k);
    }
  }

  lemma NothingNearest(p: Probe, k: nat)
    ensures LocallyNearest(p, [], k)
  {
  }

  // --- a filtered query that is exact -----------------------------------------------------------------

  /** Live nodes among the first `n` that satisfy the predicate, scored. */
  function MatchingScored(p: Probe, n: nat): seq<Cand> {
    if n == 0 then [] else MatchingScored(p, n - 1) + (if Admissible(p, n - 1) then [Scored(p, n - 1)] else [])
  }

  lemma {:induction false} MatchingScoredIs(p: Probe, n: nat)
    ensures Distinct(MatchingScored(p, n))
    ensures forall c :: c in MatchingScored(p, n) <==> c.id < n && Admissible(p, c.id) && c == Scored(p, c.id)
  {
    hide Admissible;
    if n > 0 {
      MatchingScoredIs(p, n - 1);
      var s := MatchingScored(p, n - 1);
      assert forall i :: 0 <= i < |s| ==> s[i] in s;
    }
  }

  lemma FilteredBottomIsExact(q: Query, seeds: seq<nat>, ef: nat, tr: Budget)
    requires InRange(q.g) && Filtered(q.pred) && StronglyConnected(q)
    requires seeds != [] && forall x :: x in seeds ==> x < Size(q.g)
    requires Size(q.g) <= ef && Size(q.g) <= tr.expansions && Size(q.g) <= tr.detours
    ensures var p := ProbeAt(q, 0, q.pred); SearchLayer(p, seeds, ef, tr).0 == Sort(MatchingScored(p, Size(q.g)))
  {
    hide SearchLayer, Admissible;
    var p, plain := ProbeAt(q, 0, q.pred), ProbeAt(q, 0, None);
    var w, all := SearchLayer(p, seeds, ef, tr).0, MatchingScored(p, Size(q.g));
    FilteredLayerReach(p, seeds, ef, tr);
    MatchingScoredIs(p, Size(q.g));
    SortSorted(all);
    forall c ensures c in w <==> c in Sort(all) {
      if c.id < Size(q.g) {
        assert seeds[0] in seeds;
        assert Reachable(plain, [seeds[0]], c.id);
        SameReachable(plain, p, [seeds[0]], c.id);
        var a, n :| a in [seeds[0]] && Reaches(p, a, c.id, n);
        assert Reachable(p, seeds, c.id);
      }
    }
    SortedUnique(w, Sort(all));
  }

  /** With a beam as wide as the graph, expansions for every node on every layer and a strongly connected bottom layer,
      a
      filtered query is exact, tombstones or not, however the matching nodes lie among the others. */
  lemma FilteredSearchIsExact(q: Query, k: nat, efSearch: nat)
    requires StructurallyValid(q.g) && Filtered(q.pred) && StronglyConnected(q)
    requires Size(q.g) <= efSearch && (q.g.maxLayer + 1) * Size(q.g) <= Min(16 * efSearch, U64_MAX)
    ensures match SearchInner(q, k, efSearch)
            case Ok(r) => r.0 == Truncated(Sort(MatchingScored(ProbeAt(q, 0, q.pred), Size(q.g))), k)
            case Err(e) => k > 0 && Size(q.g) > 0 && |q.vec| != q.g.dim && e == DimensionMismatch(q.g.dim, |q.vec|)
  {
    hide SearchLayer, Landing, StronglyConnected, MatchingScored;
    var p := ProbeAt(q, 0, q.pred);
    if q.g.entry.None? {
      NothingMatches(p);
    } else if k > 0 && |q.vec| == q.g.dim {
      var ef := if efSearch >= k then efSearch else k;
      var d := Landing(q, q.g.entry.value, ef);
      BottomSeeds(q, ef);
      LandingLeaves(q, ef);
      assert (q.g.maxLayer + 1) * Size(q.g) == q.g.maxLayer * Size(q.g) + Size(q.g);
      var tr := BottomBudget(q, d.tr, ef);
      assert Size(q.g) <= tr.expansions && Size(q.g) <= tr.detours;
      FilteredBottomIsExact(q, [d.ep] + d.seeds, ef, tr);
    }
  }

  lemma NothingMatches(p: Probe)
    ensures MatchingScored(p, 0) == []
  {
  }
}
