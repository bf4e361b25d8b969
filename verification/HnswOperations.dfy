/** Insertion and search over the flat arrays, loop for loop, against the functions of modules Insertion and Queries. */
module HnswOperations {
  import opened Base
  import opened Filter
  import opened Candidates
  import opened Graphs
  import opened BeamSearch
  import Hnsw
  import FlatLinks
  import Search
  import Queries
  import Insertion

  // --- insertion -----------------------------------------------------------------------------

  /** Append `id` to the list of every selected neighbor, pruning as needed. */
  method LinkBack(h: Hnsw.Hnsw, selected: seq<nat>, layer: nat, id: nat)
    requires h.Consistent() && Insertion.Linkable(h.View(), selected, layer, id)
    modifies h
    ensures h.Consistent()
    ensures h.View() == Insertion.LinkBack(old(h.View()), h.kernel.dist, selected, layer, id)
  {
    var i := 0;
    while i < |selected|
      invariant 0 <= i <= |selected| && h.Consistent()
      invariant Insertion.Linkable(h.View(), selected[i..], layer, id)
      invariant Insertion.LinkBack(h.View(), h.kernel.dist, selected[i..], layer, id)
             == Insertion.LinkBack(old(h.View()), h.kernel.dist, selected, layer, id)
    {
      Tail(selected, i);
      Insertion.LinkableNext(h.View(), h.kernel.dist, selected[i..], layer, id);
      assert selected[i..][0] in selected[i..];
      Hnsw.LinkOne(h, selected[i], layer, id);
      i := i + 1;
    }
  }

  /** Choose a layer's neighbors for `id` and link both ways. */
  method Connect(h: Hnsw.Hnsw, id: nat, layer: nat, w: seq<Cand>)
    requires h.Consistent() && Insertion.Sound(h.View()) && LinkOk(h.View(), layer, id)
    requires Insertion.DistinctIds(w) && Insertion.Unlinked(h.View(), id, layer + 1)
    requires forall c :: c in w ==> LinkOk(h.View(), layer, c.id) && c.id != id
    modifies h
    ensures h.Consistent()
    ensures h.View() == Insertion.Connect(old(h.View()), h.kernel.dist, id, layer, w)
  {
    Insertion.ConnectLinkable(h.View(), h.kernel.dist, id, layer, w);
    Hnsw.ViewShape(h, id, layer);
    var selected := h.SelectNeighborsHeuristic(w, MaxDegree(h.View(), layer));
    h.SetNeighbors(id, layer, selected);
    LinkBack(h, selected, layer, id);
  }

  /** Greedy descent to just above layer `stop`. */
  method DescendTo(g: Graph, dist: Queries.Distance, vector: Vec, top: nat, stop: nat, entry: nat) returns (ep: nat)
    requires InRange(g)
    ensures ep == Insertion.DescendTo(g, dist, vector, top, stop, entry)
  {
    var lc: nat := top;
    ep := entry;
    while lc > stop
      invariant Insertion.DescendTo(g, dist, vector, lc, stop, ep)
                == Insertion.DescendTo(g, dist, vector, top, stop, entry)
    {
      var build := new Traversal(Queries.UNFILTERED);
      var w := SearchLayer(Insertion.BuildProbe(g, dist, vector, lc), [ep], 1, build);
      ep := Insertion.Nearest(w, ep);
      lc := lc - 1;
    }
  }

  lemma LayerReady(g: Graph, dist: Queries.Distance, id: nat, entry: nat, n: nat, eps: seq<nat>)
    requires Insertion.Building(g, id, entry, n, eps) && n > 0
    ensures InRange(g) && id < Size(g)
    ensures var w := Insertion.LayerCandidates(g, dist, id, n - 1, eps);
            && Insertion.DistinctIds(w) && (forall c :: c in w ==> LinkOk(g, n - 1, c.id) && c.id != id)
            && Insertion.Building(Insertion.Connect(g, dist, id, n - 1, w), id, entry, n - 1,
                Insertion.NextSeeds(w, entry))
  {
    ValidInRange(g);
    Insertion.BuildingNext(g, dist, id, entry, n, eps);
    Insertion.BuildSearch(g, dist, g.vectors[id], id, n - 1, eps, g.efConstruction, Queries.UNFILTERED);
  }

  lemma ConnectStep(g: Graph, dist: Queries.Distance, id: nat, entry: nat, n: nat, eps: seq<nat>) returns (w: seq<Cand>)
    requires Insertion.Building(g, id, entry, n, eps) && n > 0
    ensures InRange(g) && id < Size(g) && w == Insertion.LayerCandidates(g, dist, id, n - 1, eps)
    ensures var h, next := Insertion.Connect(g, dist, id, n - 1, w), Insertion.NextSeeds(w, entry);
            && Insertion.Building(h, id, entry, n - 1, next)
            && Insertion.ConnectDown(g, dist, id, entry, n, eps)
                == Insertion.ConnectDown(h, dist, id, entry, n - 1, next)
  {
    LayerReady(g, dist, id, entry, n, eps);
    w := Insertion.LayerCandidates(g, dist, id, n - 1, eps);
  }

  /** Search a layer and connect `id` on it; what was found seeds the layer below. */
  method ConnectLayer(h: Hnsw.Hnsw, id: nat, entry: nat, n: nat, eps: seq<nat>) returns (next: seq<nat>)
    requires h.Consistent() && Insertion.Building(h.View(), id, entry, n, eps) && n > 0
    modifies h
    ensures h.Consistent()
    ensures Insertion.Building(h.View(), id, entry, n - 1, next)
    ensures Insertion.ConnectDown(h.View(), h.kernel.dist, id, entry, n - 1, next)
         == Insertion.ConnectDown(old(h.View()), h.kernel.dist, id, entry, n, eps)
  {
    var g := h.View();
    LayerReady(g, h.kernel.dist, id, entry, n, eps);
    ghost var _ := ConnectStep(g, h.kernel.dist, id, entry, n, eps);
    var build := new Traversal(Queries.UNFILTERED);
    var w := SearchLayer(Insertion.BuildProbe(g, h.kernel.dist, g.vectors[id], n - 1), eps, g.efConstruction, build);
    assert w == Insertion.LayerCandidates(g, h.kernel.dist, id, n - 1, eps);
    Connect(h, id, n - 1, w);
    next := if w == [] then [entry] else Queries.CandIds(w);
  }

  /** Link `id` on layers `layers - 1` down to 0, each layer seeding the next. */
  lemma ConnectedDown(g: Graph, dist: Queries.Distance, id: nat, entry: nat, eps: seq<nat>)
    requires Insertion.Building(g, id, entry, 0, eps)
    ensures Insertion.ConnectDown(g, dist, id, entry, 0, eps) == g
  {
  }

  method ConnectDown(h: Hnsw.Hnsw, id: nat, entry: nat, layers: nat, seeds: seq<nat>)
    requires h.Consistent() && Insertion.Building(h.View(), id, entry, layers, seeds)
    modifies h
    ensures h.Consistent()
    ensures h.View() == Insertion.ConnectDown(old(h.View()), h.kernel.dist, id, entry, layers, seeds)
  {
    var n: nat, eps := layers, seeds;
    hide Insertion.ConnectDown, Hnsw.Hnsw.Consistent;
    ghost var linked := Insertion.ConnectDown(h.View(), h.kernel.dist, id, entry, n, eps);
    while n > 0
      invariant h.Consistent() && Insertion.Building(h.View(), id, entry, n, eps)
      invariant Insertion.ConnectDown(h.View(), h.kernel.dist, id, entry, n, eps) == linked
    {
      eps := ConnectLayer(h, id, entry, n, eps);
      n := n - 1;
    }
    ConnectedDown(h.View(), h.kernel.dist, id, entry, eps);
  }

  /** Fix the dimension on first use and draw the new node's top layer. */
  method Draw(h: Hnsw.Hnsw, vector: Vec) returns (level: nat)
    requires h.Consistent() && (h.dim == 0 ==> h.n == 0)
    modifies h
    ensures h.Consistent()
    ensures h.View() == Insertion.Drawn(h.kernel, old(h.View()), vector)
            && level == Insertion.LevelOf(h.kernel, old(h.View()))
  {
    if h.dim == 0 { h.dim := |vector|; }
    level := h.kernel.draw(h.m, h.rng).0;
    h.rng := h.kernel.draw(h.m, h.rng).1;
  }

  /** A node above the old top takes over as entry point. */
  method Crown(h: Hnsw.Hnsw, id: nat, level: nat)
    requires h.Consistent()
    modifies h
    ensures h.Consistent() && h.View() == Insertion.Crowned(old(h.View()), id, level)
  {
    if level > h.maxLayer {
      h.maxLayer := level;
      h.entryPoint := Some(id);
    }
  }

  /** Link a node just pushed: descend to its top layer, connect it there and on every layer below. */
  method LinkNode(h: Hnsw.Hnsw, vector: Vec, id: nat, level: nat, entry: nat)
    requires h.Consistent() && InRange(h.View())
    requires Insertion.Building(h.View(), id, entry, Min(level, h.maxLayer) + 1,
                                [Insertion.DescendTo(h.View(), h.kernel.dist, vector, h.maxLayer, level, entry)])
    modifies h
    ensures h.Consistent()
    ensures var g := old(h.View());
            h.View() == Insertion.Crowned(
              Insertion.ConnectDown(g, h.kernel.dist, id, entry, Min(level, g.maxLayer) + 1,
                                    [Insertion.DescendTo(g, h.kernel.dist, vector, g.maxLayer, level, entry)]),
              id, level)
  {
    hide Insertion.ConnectDown, Insertion.DescendTo, Insertion.Building, InRange, Hnsw.Hnsw.Consistent;
    var top := h.maxLayer;
    var ep := DescendTo(h.View(), h.kernel.dist, vector, top, level, entry);
    ConnectDown(h, id, entry, Min(level, top) + 1, [ep]);
    Crown(h, id, level);
  }

  method Push(h: Hnsw.Hnsw, ghost g: Graph, vector: Vec, row: Attrs, level: nat) returns (id: nat)
    requires Insertion.Refusal(g, vector).None? && level == Insertion.LevelOf(h.kernel, g)
    requires h.Consistent() && h.View() == Insertion.Drawn(h.kernel, g, vector)
    modifies h
    ensures h.Consistent() && id == Size(g) && h.View() == Insertion.Placed(h.kernel, g, vector, row)
    ensures h.entryPoint == g.entry && h.maxLayer == g.maxLayer
  {
    id := h.n;
    h.PushNode(vector, row, level + 1);
  }

  method First(h: Hnsw.Hnsw, id: nat, level: nat)
    requires h.Consistent()
    modifies h
    ensures h.Consistent() && h.View() == old(h.View()).(entry := Some(id), maxLayer := level)
  {
    h.entryPoint := Some(id);
    h.maxLayer := level;
  }

  /** Store the node, make it the entry point of an empty graph or link it into one that has an entry point. */
  method Place(h: Hnsw.Hnsw, ghost g: Graph, vector: Vec, row: Attrs, level: nat)
    requires Valid(g) && Insertion.Refusal(g, vector).None? && level == Insertion.LevelOf(h.kernel, g)
    requires h.Consistent() && h.View() == Insertion.Drawn(h.kernel, g, vector)
    modifies h
    ensures h.Consistent() && h.View() == Insertion.Accepted(h.kernel, g, vector, row)
  {
    hide Insertion.ConnectDown, Insertion.DescendTo, Insertion.Building, Insertion.Placed, Insertion.Crowned;
    hide Valid, InRange, Hnsw.Hnsw.Consistent;
    var id := Push(h, g, vector, row, level);
    if h.entryPoint.None? {
      First(h, id, level);
      return;
    }
    Insertion.PlacedBuilds(h.kernel, g, vector, row, h.entryPoint.value);
    LinkNode(h, vector, id, level, h.entryPoint.value);
  }

  /** insert_with_attrs. A full graph still fixes its dimension and draws a level before it refuses. */
  method InsertWithAttrs(h: Hnsw.Hnsw, vector: Vec, row: Attrs) returns (r: Result<nat, Queries.HnswError>)
    requires h.Consistent() && Valid(h.View())
    modifies h
    ensures h.Consistent() && (h.View(), r) == Insertion.InsertNode(h.kernel, old(h.View()), vector, row)
  {
    hide Insertion.Accepted;
    ghost var g := h.View();
    if |vector| == 0 { return Err(Queries.EmptyVector); }
    if |vector| > Insertion.MAX_DIM { return Err(Queries.DimensionTooLarge(|vector|, Insertion.MAX_DIM)); }
    if h.dim != 0 && |vector| != h.dim { return Err(Queries.DimensionMismatch(h.dim, |vector|)); }
    var id := h.n;
    var level := Draw(h, vector);
    if id >= Insertion.MAX_NODES { return Err(Queries.NodeLimitReached(Insertion.MAX_NODES)); }
    Place(h, g, vector, row, level);
    r := Ok(id);
  }

  // --- search ------------------------------------------------------------------------------------

  /** One greedy step, and a foothold beside it when the query is filtered. */
  method DescendOne(q: Queries.Query, layer: nat, ep0: nat, seeds0: seq<nat>, tr: Traversal)
    returns (ep: nat, seeds: seq<nat>)
    requires InRange(q.g)
    modifies tr
    ensures Queries.Descent(ep, seeds, tr.View())
         == Queries.DescendOne(q, layer, Queries.Descent(ep0, seeds0, old(tr.View())))
  {
    ep, seeds := ep0, seeds0;
    var w := SearchLayer(Queries.ProbeAt(q, layer, None), [ep], 1, tr);
    if w != [] { ep := w[0].id; }
    if Search.Filtered(q.pred) {
      var found := SearchLayer(Queries.ProbeAt(q, layer, q.pred), [ep] + seeds, 1, tr);
      seeds := Queries.CandIds(found);
    }
  }

  method Descend(q: Queries.Query, top: nat, entry: nat, tr: Traversal) returns (ep: nat, seeds: seq<nat>)
    requires InRange(q.g)
    modifies tr
    ensures Queries.Descent(ep, seeds, tr.View())
         == Queries.Descend(q, top, Queries.Descent(entry, [], old(tr.View())))
  {
    hide Queries.DescendOne;
    ep, seeds := entry, [];
    var lc: nat := top;
    ghost var d := Queries.Descent(entry, [], tr.View());
    ghost var landing := Queries.Descend(q, top, d);
    while lc > 0
      invariant d == Queries.Descent(ep, seeds, tr.View()) && Queries.Descend(q, lc, d) == landing
    {
      d := Queries.DescendOne(q, lc, d);
      ep, seeds := DescendOne(q, lc, ep, seeds, tr);
      lc := lc - 1;
    }
  }

  /** search_inner: one greedy step per upper layer, a foothold beside it when filtered, then layer 0 in earnest. */
  method SearchInner(h: Hnsw.Hnsw, query: Vec, k: nat, efSearch: nat, pred: Option<Predicate>)
    returns (r: Result<(seq<Cand>, Search.Cost), Queries.HnswError>)
    requires h.Consistent() && InRange(h.View())
    ensures r == Queries.SearchInner(Queries.Query(h.View(), h.kernel.dist, query, pred), k, efSearch)
  {
    if h.entryPoint.None? { return Ok(([], Queries.NO_COST)); }
    if k == 0 { return Ok(([], Queries.NO_COST)); }
    if |query| != h.dim { return Err(Queries.DimensionMismatch(h.dim, |query|)); }
    var q := Queries.Query(h.View(), h.kernel.dist, query, pred);
    var filtered := Search.Filtered(pred);
    var ef := if efSearch >= k then efSearch else k;
    var tr := new Traversal(if filtered then Queries.BudgetFor(ef) else Queries.UNFILTERED);
    var ep, seeds := Descend(q, h.maxLayer, h.entryPoint.value, tr);
    if filtered { tr.RefillDetours(ef); }
    var w := SearchLayer(Queries.ProbeAt(q, 0, pred), [ep] + seeds, ef, tr);
    r := Ok((if |w| > k then w[..k] else w, tr.cost));
  }

  /** brute_force: score every live node and sort. */
  method BruteForce(h: Hnsw.Hnsw, query: Vec, k: nat) returns (r: Result<seq<Cand>, Queries.HnswError>)
    requires h.Consistent()
    ensures r == Queries.BruteForce(Queries.Query(h.View(), h.kernel.dist, query, None), k)
  {
    if h.n != 0 && |query| != h.dim { return Err(Queries.DimensionMismatch(h.dim, |query|)); }
    var p := Queries.ProbeAt(Queries.Query(h.View(), h.kernel.dist, query, None), 0, None);
    var scored: seq<Cand>, id := [], 0;
    while id < h.n
      invariant 0 <= id <= h.n && scored == Queries.LiveScored(p, id)
    {
      if !h.deleted[id] { scored := scored + [Search.Scored(p, id)]; }
      id := id + 1;
    }
    var sorted := Sort(scored);
    r := Ok(if |sorted| > k then sorted[..k] else sorted);
  }
}
