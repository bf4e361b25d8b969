/** Whole searches: the descent, the footholds a filter leaves on the way down, and the exact answer they are held
    to. */
module Queries {
  import opened Base
  import opened Filter
  import opened Candidates
  import opened Graphs
  import opened Search
  import opened SearchBounds
  import opened SearchReach

  datatype HnswError =
    | EmptyVector
    | DimensionMismatch(expected: nat, got: nat)
    | DimensionTooLarge(size: nat, max: nat)
    | NodeLimitReached(limit: nat)
    | UnknownNode(id: nat)

  const NO_COST := Cost(0, 0, 0)
  const DETOURS_PER_EF: nat := 4
  const EXPANSIONS_PER_EF: nat := 16

  function SaturatingMul(a: nat, b: nat): nat { Min(a * b, U64_MAX) }

  function BudgetFor(ef: nat): Budget {
    Budget(SaturatingMul(ef, DETOURS_PER_EF), SaturatingMul(ef, EXPANSIONS_PER_EF), NO_COST)
  }

  const UNFILTERED := Budget(0, 0, NO_COST)

  function Refilled(t: Budget, ef: nat): Budget { t.(detours := SaturatingMul(ef, DETOURS_PER_EF)) }

  type Distance = (Metric, Vec, Vec) -> int

  /** A query against one graph. */
  datatype Query = Query(g: Graph, dist: Distance, vec: Vec, pred: Option<Predicate>)

  function ProbeAt(q: Query, layer: nat, pred: Option<Predicate>): Probe { Probe(q.g, q.dist, q.vec, layer, pred) }

  function CandIds(s: seq<Cand>): (r: seq<nat>)
    ensures |r| == |s| && forall i :: 0 <= i < |s| ==> r[i] == s[i].id
  {
    seq(|s|, i requires 0 <= i < |s| => s[i].id)
  }

  /** Where the descent stands: the navigation entry, the footholds found, the budget. */
  datatype Descent = Descent(ep: nat, seeds: seq<nat>, tr: Budget)

  /** Greedy navigation ignores the filter. */
  function Navigate(q: Query, layer: nat, d: Descent): Descent
    requires InRange(q.g)
  {
    var (w, t) := SearchLayer(ProbeAt(q, layer, None), [d.ep], 1, d.tr);
    d.(ep := if w == [] then d.ep else w[0].id, tr := t)
  }

  /** A filtered query also probes the layer for a node that matches. */
  function FindFoothold(q: Query, layer: nat, d: Descent): Descent
    requires InRange(q.g)
  {
    var (found, t) := SearchLayer(ProbeAt(q, layer, q.pred), [d.ep] + d.seeds, 1, d.tr);
    Descent(d.ep, CandIds(found), t)
  }

  function DescendOne(q: Query, layer: nat, d: Descent): Descent
    requires InRange(q.g)
  {
    if Filtered(q.pred) then FindFoothold(q, layer, Navigate(q, layer, d)) else Navigate(q, layer, d)
  }

  /** Layers `layer` down to 1. */
  function Descend(q: Query, layer: nat, d: Descent): Descent
    requires InRange(q.g)
  {
    if layer == 0 then d else Descend(q, layer - 1, DescendOne(q, layer, d))
  }

  function Truncated<T>(s: seq<T>, k: nat): seq<T> { if |s| > k then s[..k] else s }

  function Landing(q: Query, entry: nat, ef: nat): Descent
    requires InRange(q.g)
  {
    Descend(q, q.g.maxLayer, Descent(entry, [], if Filtered(q.pred) then BudgetFor(ef) else UNFILTERED))
  }

  function BottomBudget(q: Query, t: Budget, ef: nat): Budget { if Filtered(q.pred) then Refilled(t, ef) else t }

  /** search_inner. */
  function SearchInner(q: Query, k: nat, efSearch: nat): Result<(seq<Cand>, Cost), HnswError>
    requires InRange(q.g)
  {
    if q.g.entry.None? then Ok(([], NO_COST))
    else if k == 0 then Ok(([], NO_COST))
    else if |q.vec| != q.g.dim then Err(DimensionMismatch(q.g.dim, |q.vec|))
    else
      var ef := if efSearch >= k then efSearch else k;
      var d := Landing(q, q.g.entry.value, ef);
      var (w, t) := SearchLayer(ProbeAt(q, 0, q.pred), [d.ep] + d.seeds, ef, BottomBudget(q, d.tr, ef));
      Ok((Truncated(w, k), t.cost))
  }

  /** Live nodes among the first `n`, scored. */
  function LiveScored(p: Probe, n: nat): seq<Cand> {
    if n == 0 then [] else
    LiveScored(p, n - 1) + (if Deleted(p.g, n - 1) then [] else [Scored(p, n - 1)])
  }

  /** Exact k nearest neighbors. */
  function BruteForce(q: Query, k: nat): Result<seq<Cand>, HnswError> {
    if Size(q.g) != 0 && |q.vec| != q.g.dim then Err(DimensionMismatch(q.g.dim, |q.vec|))
    else Ok(Truncated(Sort(LiveScored(ProbeAt(q, 0, None), Size(q.g))), k))
  }

  // --- the descent lands on the graph ------------------------------------------------------

  ghost predicate Lands(q: Query, d: Descent) {
    d.ep < Size(q.g) && |d.seeds| <= 1 && forall x :: x in d.seeds ==> x < Size(q.g)
  }

  lemma NavigatesTo(q: Query, layer: nat, d: Descent)
    requires InRange(q.g)
    ensures var w, n := SearchLayer(ProbeAt(q, layer, None), [d.ep], 1, d.tr).0, Navigate(q, layer, d);
            n.seeds == d.seeds && (if w == [] then n.ep == d.ep else w[0] in w && n.ep == w[0].id)
  {
    hide SearchLayer;
  }

  lemma DescendOneLands(q: Query, layer: nat, d: Descent)
    requires InRange(q.g) && Lands(q, d)
    ensures Lands(q, DescendOne(q, layer, d))
    ensures !Filtered(q.pred) ==> DescendOne(q, layer, d).seeds == d.seeds
  {
    hide SearchLayer;
    SearchLayerSound(ProbeAt(q, layer, None), [d.ep], 1, d.tr);
    NavigatesTo(q, layer, d);
    var n := Navigate(q, layer, d);
    if Filtered(q.pred) {
      assert forall x :: x in [n.ep] + n.seeds ==> x == n.ep || x in n.seeds;
      SearchLayerSound(ProbeAt(q, layer, q.pred), [n.ep] + n.seeds, 1, n.tr);
    }
  }

  lemma {:induction false} DescendLands(q: Query, layer: nat, d: Descent)
    requires InRange(q.g) && Lands(q, d)
    ensures Lands(q, Descend(q, layer, d))
    ensures !Filtered(q.pred) ==> Descend(q, layer, d).seeds == d.seeds
  {
    hide SearchLayer, DescendOne;
    if layer > 0 {
      DescendOneLands(q, layer, d);
      DescendLands(q, layer - 1, DescendOne(q, layer, d));
    }
  }

  lemma BottomSeeds(q: Query, ef: nat)
    requires InRange(q.g) && q.g.entry.Some? && q.g.entry.value < Size(q.g)
    ensures var d := Landing(q, q.g.entry.value, ef);
            && Lands(q, d)
            && |[d.ep] + d.seeds| <= 2
            && (forall x :: x in [d.ep] + d.seeds ==> x < Size(q.g))
            && (!Filtered(q.pred) ==> [d.ep] + d.seeds == [d.ep])
  {
    var t := if Filtered(q.pred) then BudgetFor(ef) else UNFILTERED;
    DescendLands(q, q.g.maxLayer, Descent(q.g.entry.value, [], t));
  }

  // --- soundness ------------------------------------------------------------------------------

  /** Whatever a filtered search returns is live, satisfies the predicate, is scored truly, and comes in order, at most
      `k` of it. */
  lemma SearchSound(q: Query, k: nat, efSearch: nat)
    requires StructurallyValid(q.g) && SearchInner(q, k, efSearch).Ok?
    ensures var out := SearchInner(q, k, efSearch).value.0;
            && |out| <= k && Sorted(out)
            && forall c :: c in out ==>
                 c.id < Size(q.g) && c == Scored(ProbeAt(q, 0, q.pred), c.id) && Admissible(ProbeAt(q, 0, q.pred), c.id)
  {
    if q.g.entry.Some? && k > 0 {
      var ef := if efSearch >= k then efSearch else k;
      var d := Landing(q, q.g.entry.value, ef);
      BottomSeeds(q, ef);
      SearchLayerSound(ProbeAt(q, 0, q.pred), [d.ep] + d.seeds, ef, BottomBudget(q, d.tr, ef));
      var w := SearchLayer(ProbeAt(q, 0, q.pred), [d.ep] + d.seeds, ef, BottomBudget(q, d.tr, ef)).0;
      assert forall c :: c in Truncated(w, k) ==> c in w;
    }
  }

  // --- exactness -------------------------------------------------------------------------------

  lemma {:induction false} LiveScoredIs(p: Probe, n: nat)
    ensures Distinct(LiveScored(p, n))
    ensures forall c :: c in LiveScored(p, n) <==> c.id < n && !Deleted(p.g, c.id) && c == Scored(p, c.id)
  {
    if n > 0 {
      LiveScoredIs(p, n - 1);
      var s := LiveScored(p, n - 1);
      assert forall i :: 0 <= i < |s| ==> s[i] in s;
    }
  }

  /** Every node is linked, however far, to every other on layer 0. */
  ghost predicate StronglyConnected(q: Query) {
    forall a: nat, b: nat :: a < Size(q.g) && b < Size(q.g) ==> Reachable(ProbeAt(q, 0, None), [a], b)
  }

  lemma BottomIsExact(q: Query, pred: Option<Predicate>, ep: nat, ef: nat, tr: Budget)
    requires Exhaustive(ProbeAt(q, 0, pred), ef) && StronglyConnected(q) && ep < Size(q.g)
    ensures SearchLayer(ProbeAt(q, 0, pred), [ep], ef, tr).0 == Sort(LiveScored(ProbeAt(q, 0, None), Size(q.g)))
  {
    var p, plain := ProbeAt(q, 0, pred), ProbeAt(q, 0, None);
    var w, all := SearchLayer(p, [ep], ef, tr).0, LiveScored(plain, Size(q.g));
    SearchLayerReach(p, [ep], ef, tr);
    LiveScoredIs(plain, Size(q.g));
    SortSorted(all);
    forall c ensures c in w <==> c in Sort(all) {
      if c.id < Size(q.g) {
        assert Reachable(plain, [ep], c.id);
        SameReachable(plain, p, [ep], c.id);
      }
    }
    SortedUnique(w, Sort(all));
  }

  /** With nothing deleted, a beam as wide as the graph and a strongly connected bottom layer, the search is exact,
      ties and all. The two disagree only on a query nobody asks results of, which only brute force validates. */
  lemma SearchIsExact(q: Query, k: nat, efSearch: nat)
    requires StructurallyValid(q.g) && !Filtered(q.pred)
    requires (forall id :: !Deleted(q.g, id)) && efSearch >= Size(q.g) && StronglyConnected(q)
    ensures (match SearchInner(q, k, efSearch) case Ok(r) => BruteForce(q, k) == Ok(r.0)
            case Err(e) => BruteForce(q, k) == Err(e))
            <==> !(k == 0 && Size(q.g) != 0 && |q.vec| != q.g.dim)
  {
    var p := ProbeAt(q, 0, None);
    if q.g.entry.None? {
      assert LiveScored(p, 0) == [];
    } else if k > 0 && |q.vec| == q.g.dim {
      var ef := if efSearch >= k then efSearch else k;
      var d := Landing(q, q.g.entry.value, ef);
      BottomSeeds(q, ef);
      BottomIsExact(q, q.pred, d.ep, ef, d.tr);
    }
  }

  // --- cost --------------------------------------------------------------------------------------

  /** What the predicate-aware layer searches of a descent spent. */
  datatype Spend = Spend(expansions: nat, detours: nat, distances: nat)

  function SpentOn(a: Budget, b: Budget): Spend
    requires Conserved(a, b)
  {
    Spend(b.cost.expansions - a.cost.expansions, b.cost.detours - a.cost.detours, b.cost.distances - a.cost.distances)
  }

  function Plus(a: Spend, b: Spend): Spend {
    Spend(a.expansions + b.expansions, a.detours + b.detours, a.distances + b.distances)
  }

  ghost predicate NarrowGraph(g: Graph, w: nat) {
    g.m <= w && forall id: nat, layer: nat :: |Neighbors(g, id, layer)| <= w
  }

  lemma FootholdCost(q: Query, layer: nat, d: Descent, w: nat)
    requires InRange(q.g) && Filtered(q.pred) && NarrowGraph(q.g, w) && |d.seeds| <= 1
    ensures Conserved(d.tr, FindFoothold(q, layer, d).tr)
    ensures SpentOn(d.tr, FindFoothold(q, layer, d).tr).distances
            <= 2 + 2 * w * SpentOn(d.tr, FindFoothold(q, layer, d).tr).expansions
  {
    var p := ProbeAt(q, layer, q.pred);
    forall id ensures |Adjacent(p, id)| <= w {}
    FilteredLayerCost(p, [d.ep] + d.seeds, 1, d.tr, w);
  }

  /** The bill of the predicate-aware searches of a descent, layer by layer. */
  ghost function DescentSpend(q: Query, layer: nat, d: Descent, w: nat): Spend
    requires InRange(q.g) && Filtered(q.pred) && NarrowGraph(q.g, w) && Lands(q, d)
  {
    if layer == 0 then Spend(0, 0, 0) else
    var n := Navigate(q, layer, d);
    DescendOneLands(q, layer, d);
    FootholdCost(q, layer, n, w);
    Plus(SpentOn(n.tr, FindFoothold(q, layer, n).tr), DescentSpend(q, layer - 1, DescendOne(q, layer, d), w))
  }

  lemma {:induction false} DescentBounded(q: Query, layer: nat, d: Descent, w: nat)
    requires InRange(q.g) && Filtered(q.pred) && NarrowGraph(q.g, w) && Lands(q, d)
    ensures var s, t := DescentSpend(q, layer, d, w), Descend(q, layer, d).tr;
            && s.expansions + t.expansions == d.tr.expansions
            && s.detours + t.detours == d.tr.detours
            && s.distances <= 2 * layer + 2 * w * s.expansions
  {
    hide SearchLayer;
    if layer > 0 {
      var n := Navigate(q, layer, d);
      var f := FindFoothold(q, layer, n);
      DescendOneLands(q, layer, d);
      UnfilteredLayerCost(ProbeAt(q, layer, None), [d.ep], 1, d.tr);
      FootholdCost(q, layer, n, w);
      DescentBounded(q, layer - 1, f, w);
      Distribute(w, SpentOn(n.tr, f.tr).expansions, DescentSpend(q, layer - 1, f, w).expansions);
    }
  }

  lemma Distribute(w: nat, i: nat, j: nat)
    ensures 2 * w * (i + j) == 2 * w * i + 2 * w * j
  {
  }

  /** However large the graph: 16*ef expansions, spent by the predicate-aware searches or left over, 4*ef detours for
      the
      descent and 4*ef for layer 0, and at most two distances per layer for the seeds plus twice the degree cap per
      expansion. */
  lemma FilteredSearchBounded(q: Query, ef: nat)
    requires StructurallyValid(q.g) && q.g.entry.Some? && Filtered(q.pred)
    ensures NarrowGraph(q.g, q.g.m0Cap) && Lands(q, Descent(q.g.entry.value, [], BudgetFor(ef)))
    ensures var w := q.g.m0Cap;
            var descent := DescentSpend(q, q.g.maxLayer, Descent(q.g.entry.value, [], BudgetFor(ef)), w);
            var d := Landing(q, q.g.entry.value, ef);
            var start := BottomBudget(q, d.tr, ef);
            var end := SearchLayer(ProbeAt(q, 0, q.pred), [d.ep] + d.seeds, ef, start).1;
            && Conserved(start, end)
            && var bottom := SpentOn(start, end);
               && descent.expansions + bottom.expansions + end.expansions == Min(16 * ef, U64_MAX)
               && descent.detours + d.tr.detours == Min(4 * ef, U64_MAX)
               && bottom.detours + end.detours == Min(4 * ef, U64_MAX)
               && descent.distances + bottom.distances
                  <= 2 * (q.g.maxLayer + 1) + 2 * w * (descent.expansions + bottom.expansions)
  {
    hide SearchLayer;
    var w := q.g.m0Cap;
    forall id: nat, layer: nat ensures |Neighbors(q.g, id, layer)| <= w {}
    var d0 := Descent(q.g.entry.value, [], BudgetFor(ef));
    var d := Landing(q, q.g.entry.value, ef);
    var start := BottomBudget(q, d.tr, ef);
    DescentBounded(q, q.g.maxLayer, d0, w);
    BottomSeeds(q, ef);
    FilteredLayerCost(ProbeAt(q, 0, q.pred), [d.ep] + d.seeds, ef, start, w);
    var end := SearchLayer(ProbeAt(q, 0, q.pred), [d.ep] + d.seeds, ef, start).1;
    Distribute(w, DescentSpend(q, q.g.maxLayer, d0, w).expansions, SpentOn(start, end).expansions);
  }
}
