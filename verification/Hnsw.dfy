/** The in-memory graph over flat arrays. Every method is proved against the function of the graph's value it
    computes. */
module Hnsw {
  import opened Base
  import opened Filter
  import opened Candidates
  import opened Graphs
  import opened FlatLinks
  import Search
  import SearchBounds
  import Queries
  import Insertion
  import BeamSearch

  // --- vectors end to end ------------------------------------------------------------------

  lemma Stride(dim: nat, n: nat)
    requires n > 0
    ensures (n - 1) * dim + dim == n * dim && 0 <= (n - 1) * dim
  {
  }

  /** The first `n` rows of a flat store of `dim`-wide rows. */
  function Rows(flat: seq<u32>, dim: nat, n: nat): (r: seq<Vec>)
    requires |flat| >= n * dim
    ensures |r| == n && forall i :: 0 <= i < n ==> |r[i]| == dim
  {
    if n == 0 then [] else
    Stride(dim, n);
    Rows(flat, dim, n - 1) + [flat[(n - 1) * dim..(n - 1) * dim + dim]]
  }

  lemma {:induction false} RowAt(flat: seq<u32>, dim: nat, n: nat, i: nat)
    requires |flat| >= n * dim && i < n
    ensures 0 <= i * dim && i * dim + dim <= |flat| && Rows(flat, dim, n)[i] == flat[i * dim..i * dim + dim]
  {
    Stride(dim, n);
    if i < n - 1 { RowAt(flat, dim, n - 1, i); }
  }

  lemma {:induction false} RowsPrefix(a: seq<u32>, b: seq<u32>, dim: nat, n: nat)
    requires |a| >= n * dim && |b| >= n * dim && a[..n * dim] == b[..n * dim]
    ensures Rows(a, dim, n) == Rows(b, dim, n)
  {
    if n > 0 {
      Stride(dim, n);
      var k := (n - 1) * dim;
      assert a[..k] == a[..n * dim][..k] == b[..k];
      assert a[k..k + dim] == a[..n * dim][k..k + dim] == b[k..k + dim];
      RowsPrefix(a, b, dim, n - 1);
    }
  }

  lemma RowsAppend(flat: seq<u32>, dim: nat, n: nat, v: Vec)
    requires |flat| == n * dim && |v| == dim
    ensures |flat + v| == (n + 1) * dim && Rows(flat + v, dim, n + 1) == Rows(flat, dim, n) + [v]
  {
    Stride(dim, n + 1);
    RowsPrefix(flat, flat + v, dim, n);
    assert (flat + v)[n * dim..n * dim + dim] == v;
  }

  class Hnsw {
    const kernel: Kernel
    var metric: Metric
    var m: nat
    var gamma: u32
    var mCap: nat
    var m0Cap: nat
    var efConstruction: nat
    var dim: nat
    var seed: u64
    var n: nat
    var vectors: seq<u32>
    var layerBase: seq<nat>
    var linkCounts: seq<nat>
    var links: seq<nat>
    var attrs: seq<Attrs>
    var deleted: seq<bool>
    var entryPoint: Option<nat>
    var maxLayer: nat
    var rng: u64

    /** Slot runs are one wider than the cap: a neighbor is appended before the list is pruned. */
    function Slots(): Flat
      reads this
    {
      Flat(m0Cap + 1, mCap + 1, layerBase, linkCounts, links)
    }

    ghost predicate Consistent()
      reads this
    {
      && WellFormed(Slots()) && Nodes(Slots()) == n
      && |vectors| == n * dim && |attrs| == n && |deleted| == n
    }

    /** The graph these arrays stand for. Slots past a list's count are not part of it. */
    function View(): Graph
      requires Consistent()
      reads this
    {
      Graph(metric, m, gamma, mCap, m0Cap, efConstruction, dim, seed,
            Rows(vectors, dim, n), Nested(Slots()), attrs, deleted, entryPoint, maxLayer, rng)
    }

    /** An empty index: `m` at least 2, a nonzero seed, a candidate pool no smaller than the floor. */
    constructor (kernel: Kernel, metric: Metric, m: nat, efConstruction: nat, gamma: u32, efFloor: nat, seed: u64)
      requires var c := kernel.caps(if m >= 2 then m else 2, gamma); 2 <= (if m >= 2 then m else 2) <= c.0 <= c.1
      ensures Consistent() && Valid(View()) && n == 0 && this.kernel == kernel && View().metric == metric
      ensures rng != 0 && this.seed != 0 && this.efConstruction >= efFloor && this.efConstruction >= efConstruction
    {
      var m2 := if m >= 2 then m else 2;
      var caps := kernel.caps(m2, gamma);
      var seed2: u64 := if seed == 0 then 0x9E37_79B9_7F4A_7C15 else seed;
      this.kernel := kernel;
      this.metric, this.m, this.gamma, this.mCap, this.m0Cap := metric, m2, gamma, caps.0, caps.1;
      this.efConstruction := if efConstruction >= efFloor then efConstruction else efFloor;
      dim, this.seed, n, vectors, layerBase, linkCounts, links := 0, seed2, 0, [], [0], [], [];
      attrs, deleted, entryPoint, maxLayer, rng := [], [], None, 0, seed2;
      new;
      forall id: nat, layer: nat ensures ListOk(View(), id, layer) {}
    }

    /** A graph to be filled from its serialized form: the header's fields, and no node yet. */
    constructor Restored(kernel: Kernel, metric: Metric, m: nat, gamma: u32, mCap: nat, m0Cap: nat, efConstruction: nat,
                         dim: nat, maxLayer: nat, seed: u64, rng: u64, entryPoint: Option<nat>)
      ensures Consistent() && n == 0 && links == [] && linkCounts == [] && this.kernel == kernel
      ensures View() == Graph(metric, m, gamma, mCap, m0Cap, efConstruction, dim, seed, [], [], [], [], entryPoint,
              maxLayer, rng)
    {
      this.kernel := kernel;
      this.metric, this.m, this.gamma, this.mCap, this.m0Cap := metric, m, gamma, mCap, m0Cap;
      this.efConstruction, this.dim, this.maxLayer, this.seed, this.rng := efConstruction, dim, maxLayer, seed, rng;
      n, vectors, layerBase, linkCounts, links := 0, [], [0], [], [];
      attrs, deleted, this.entryPoint := [], [], entryPoint;
    }

    lemma NeighborsList(id: nat, layer: nat)
      requires Consistent()
      ensures Graphs.Neighbors(View(), id, layer) == List(Slots(), id, layer)
    {
    }

    /** A borrowed list: the live part of a slot run, found by arithmetic on the prefix sum. */
    method Neighbors(id: nat, layer: nat) returns (ids: seq<nat>)
      requires Consistent()
      ensures ids == Graphs.Neighbors(View(), id, layer)
    {
      NeighborsList(id, layer);
      if id >= n || layer >= layerBase[id + 1] - layerBase[id] { return []; }
      var start := SlotStart(id, layer);
      CountInBounds(Slots(), id, layer);
      var count := linkCounts[layerBase[id] + layer];
      ids := links[start..start + count];
    }

    method SlotStart(id: nat, layer: nat) returns (start: nat)
      requires Consistent() && HasLayer(Slots(), id, layer)
      ensures start == LayerSlot(Slots(), id, layer)
    {
      LinkBaseClosed(Slots(), id);
      WithinClosed(Slots(), layer);
      var upper := layerBase[id] - id;
      var within := if layer == 0 then 0 else (m0Cap + 1) + (layer - 1) * (mCap + 1);
      start := id * (m0Cap + 1) + upper * (mCap + 1) + within;
    }

    /** Replace one neighbor list. */
    method SetNeighbors(id: nat, layer: nat, ids: seq<nat>)
      requires Consistent() && HasLayer(Slots(), id, layer) && |ids| <= Width(Slots(), layer)
      modifies this
      ensures Consistent() && View() == Insertion.SetList(old(View()), id, layer, ids) && n == old(n)
      ensures |links| == |old(links)| && |linkCounts| == |old(linkCounts)|
    {
      ghost var f := Slots();
      var start := SlotStart(id, layer);
      CountInBounds(f, id, layer);
      SetRunWellFormed(f, id, layer, ids);
      links := links[..start] + ids + links[start + |ids|..];
      linkCounts := linkCounts[layerBase[id] + layer := |ids|];
      assert Slots() == SetRun(f, id, layer, ids);
      NestedSet(f, id, layer, ids);
    }

    /** Append one neighbor, returning the new length. */
    method PushNeighbor(id: nat, layer: nat, t: nat) returns (len: nat)
      requires Consistent() && HasLayer(Slots(), id, layer) && |List(Slots(), id, layer)| < Width(Slots(), layer)
      modifies this
      ensures Consistent() && n == old(n) && len == |old(List(Slots(), id, layer))| + 1
      ensures View() == Insertion.SetList(old(View()), id, layer, old(List(Slots(), id, layer)) + [t])
    {
      ghost var f := Slots();
      var start := SlotStart(id, layer);
      CountInBounds(f, id, layer);
      PushRunLists(f, id, layer, t);
      var count := linkCounts[layerBase[id] + layer];
      links := links[start + count := t];
      linkCounts := linkCounts[layerBase[id] + layer := count + 1];
      assert Slots() == PushRun(f, id, layer, t);
      SetRunWellFormed(f, id, layer, List(f, id, layer) + [t]);
      NestedSet(f, id, layer, List(f, id, layer) + [t]);
      len := count + 1;
    }

    /** Append a node's storage across the flat arrays. */
    method PushNode(vector: Vec, row: Attrs, levels: nat)
      requires Consistent() && |vector| == dim && levels > 0
      modifies this
      ensures Consistent() && n == old(n) + 1 && View() == Insertion.PushNode(old(View()), vector, row, levels)
      ensures |links| == |old(links)| + (m0Cap + 1) + (levels - 1) * (mCap + 1)
              && |linkCounts| == |old(linkCounts)| + levels
    {
      ghost var f := Slots();
      Pushed(f, vectors, dim, vector, levels);
      vectors := vectors + vector;
      attrs := attrs + [row];
      deleted := deleted + [false];
      layerBase := layerBase + [layerBase[n] + levels];
      linkCounts := linkCounts + Zeros(levels);
      links := links + Zeros((m0Cap + 1) + (levels - 1) * (mCap + 1));
      n := n + 1;
      assert Slots() == PushSlots(f, levels);
    }

    /** Closer to the base than to every neighbor selected so far. */
    method KeepsDiverse(c: Cand, selected: seq<nat>) returns (keep: bool)
      requires Consistent()
      ensures keep == Insertion.Diverse(View(), kernel.dist, c, selected)
    {
      var g, r := View(), 0;
      while r < |selected|
        invariant 0 <= r <= |selected|
        invariant forall x :: x in selected[..r] ==> Insertion.Between(g, kernel.dist, c.id, x) >= c.dist
      {
        assert selected[r] in selected && selected[..r + 1] == selected[..r] + [selected[r]];
        if Insertion.Between(g, kernel.dist, c.id, selected[r]) < c.dist { return false; }
        r := r + 1;
      }
      assert selected[..r] == selected;
      keep := true;
    }

    /** Malkov's heuristic over a slice of candidates. */
    method SelectNeighborsHeuristic(candidates: seq<Cand>, limit: nat) returns (selected: seq<nat>)
      requires Consistent()
      ensures selected == Insertion.Select(View(), kernel.dist, candidates, limit)
    {
      var g := View();
      var sorted, i := Sort(candidates), 0;
      selected := [];
      while i < |sorted| && |selected| < limit
        invariant 0 <= i <= |sorted|
        invariant Insertion.Pick(g, kernel.dist, sorted[i..], selected, limit)
                  == Insertion.Pick(g, kernel.dist, sorted, [], limit)
      {
        BeamSearch.Tail(sorted, i);
        var keep := KeepsDiverse(sorted[i], selected);
        if keep { selected := selected + [sorted[i].id]; }
        i := i + 1;
      }
      ghost var picked := selected;
      assert picked == Insertion.Pick(g, kernel.dist, sorted, [], limit);
      if |selected| < limit {
        i := 0;
        while i < |sorted| && |selected| < limit
          invariant 0 <= i <= |sorted|
          invariant Insertion.Backfill(sorted[i..], selected, limit) == Insertion.Backfill(sorted, picked, limit)
        {
          BeamSearch.Tail(sorted, i);
          if sorted[i].id !in selected { selected := selected + [sorted[i].id]; }
          i := i + 1;
        }
      }
    }

    /** Tombstone a node; an unknown id is an error, a second call changes nothing. */
    method Delete(id: nat) returns (r: Result<(), Queries.HnswError>)
      requires Consistent()
      modifies this
      ensures Consistent()
      ensures r == if id < old(n) then Ok(()) else Err(Queries.UnknownNode(id))
      ensures View() == if id < old(n) then old(View()).(deleted := old(deleted)[id := true]) else old(View())
    {
      if id >= |deleted| { return Err(Queries.UnknownNode(id)); }
      deleted := deleted[id := true];
      r := Ok(());
    }
  }

  /** One more row and one more node's slots: the arithmetic of the appended run is that of the prefix sum. */
  lemma Pushed(f: Flat, flat: seq<u32>, dim: nat, vector: Vec, levels: nat)
    requires WellFormed(f) && |flat| == Nodes(f) * dim && |vector| == dim && levels > 0
    ensures |flat + vector| == (Nodes(f) + 1) * dim
    ensures Rows(flat + vector, dim, Nodes(f) + 1) == Rows(flat, dim, Nodes(f)) + [vector]
    ensures WellFormed(PushSlots(f, levels)) && Nodes(PushSlots(f, levels)) == Nodes(f) + 1
    ensures Nested(PushSlots(f, levels)) == Nested(f) + [Insertion.EmptyLists(levels)]
    ensures PushSlots(f, levels).links == f.links + Zeros(f.w0 + (levels - 1) * f.w1)
  {
    RowsAppend(flat, dim, Nodes(f), vector);
    PushSlotsWellFormed(f, levels);
    PushSlotsBase(f, levels, Nodes(f));
    WithinClosed(f, levels);
    NestedPush(f, levels);
  }

  lemma ViewShape(h: Hnsw, id: nat, layer: nat)
    requires h.Consistent()
    ensures Size(h.View()) == h.n && |h.View().links| == h.n
    ensures layer < Graphs.Levels(h.View(), id) <==> HasLayer(h.Slots(), id, layer)
    ensures Width(h.Slots(), layer) == MaxDegree(h.View(), layer) + 1
    ensures |List(h.Slots(), id, layer)| == |Graphs.Neighbors(h.View(), id, layer)|
  {
    h.NeighborsList(id, layer);
  }

  /** Append a back link and prune, in place. */
  method LinkOne(h: Hnsw, target: nat, layer: nat, id: nat)
    requires h.Consistent() && Insertion.Sound(h.View()) && LinkOk(h.View(), layer, target)
    modifies h
    ensures h.Consistent() && h.n == old(h.n)
    ensures h.View() == Insertion.AddLink(old(h.View()), h.kernel.dist, target, layer, id)
  {
    ghost var g := h.View();
    ViewShape(h, target, layer);
    h.NeighborsList(target, layer);
    assert ListOk(g, target, layer);
    var cap := MaxDegree(h.View(), layer);
    var len := h.PushNeighbor(target, layer, id);
    ViewShape(h, target, layer);
    if len > cap {
      var ids := h.Neighbors(target, layer);
      var cands := Insertion.Around(h.View(), h.kernel.dist, target, ids);
      PruneSame(g, h.View(), h.kernel.dist, target, layer, Graphs.Neighbors(g, target, layer) + [id]);
      var kept := h.SelectNeighborsHeuristic(cands, cap);
      SelectFits(h.View(), h.kernel.dist, cands, cap);
      h.SetNeighbors(target, layer, kept);
    }
  }

  lemma SelectFits(g: Graph, dist: Queries.Distance, cands: seq<Cand>, m: nat)
    ensures |Insertion.Select(g, dist, cands, m)| <= m
  {
    PickFits(g, dist, Sort(cands), [], m);
    BackfillFits(Sort(cands), Insertion.Pick(g, dist, Sort(cands), [], m), m);
  }

  lemma {:induction false} PickFits(g: Graph, dist: Queries.Distance, s: seq<Cand>, selected: seq<nat>, m: nat)
    requires |selected| <= m
    ensures |Insertion.Pick(g, dist, s, selected, m)| <= m
    decreases |s|
  {
    if s != [] && |selected| < m {
      PickFits(g, dist, s[1..], if Insertion.Diverse(g, dist, s[0], selected) then selected + [s[0].id]
          else selected, m);
    }
  }

  lemma {:induction false} BackfillFits(s: seq<Cand>, selected: seq<nat>, m: nat)
    requires |selected| <= m
    ensures |Insertion.Backfill(s, selected, m)| <= m
    decreases |s|
  {
    if s != [] && |selected| < m {
      BackfillFits(s[1..], if s[0].id in selected then selected else selected + [s[0].id], m);
    }
  }

  /** Selection looks at vectors only, so it does not matter that the list being pruned is already one too long. */
  lemma PruneSame(g: Graph, over: Graph, dist: Queries.Distance, n: nat, layer: nat, ids: seq<nat>)
    requires over == Insertion.SetList(g, n, layer, ids)
    ensures Insertion.Around(over, dist, n, ids) == Insertion.Around(g, dist, n, ids)
    ensures forall cands, m :: Insertion.Select(over, dist, cands, m) == Insertion.Select(g, dist, cands, m)
    ensures forall kept :: Insertion.SetList(over, n, layer, kept) == Insertion.SetList(g, n, layer, kept)
  {
    forall cands, m ensures Insertion.Select(over, dist, cands, m) == Insertion.Select(g, dist, cands, m) {
      PickSame(g, over, dist, Sort(cands), [], m);
    }
    assert Insertion.Around(over, dist, n, ids) == Insertion.Around(g, dist, n, ids);
    forall kept ensures Insertion.SetList(over, n, layer, kept) == Insertion.SetList(g, n, layer, kept) {
      if n < |g.links| && layer < |g.links[n]| {
        assert over.links[n][layer := kept] == g.links[n][layer := kept];
        assert over.links[n := over.links[n][layer := kept]] == g.links[n := g.links[n][layer := kept]];
      }
    }
  }

  lemma {:induction false} PickSame(g: Graph, h: Graph, dist: Queries.Distance, s: seq<Cand>, selected: seq<nat>,
                                    m: nat)
    requires h.vectors == g.vectors && h.metric == g.metric
    ensures Insertion.Pick(h, dist, s, selected, m) == Insertion.Pick(g, dist, s, selected, m)
    decreases |s|
  {
    if s != [] && |selected| < m {
      PickSame(g, h, dist, s[1..], if Insertion.Diverse(g, dist, s[0], selected) then selected + [s[0].id]
          else selected, m);
    }
  }

  lemma NestedSet(f: Flat, id: nat, layer: nat, ids: seq<nat>)
    requires WellFormed(f) && HasLayer(f, id, layer) && |ids| <= Width(f, layer)
    ensures WellFormed(SetRun(f, id, layer, ids))
    ensures Nested(SetRun(f, id, layer, ids)) == Nested(f)[id := Nested(f)[id][layer := ids]]
  {
    var h := SetRun(f, id, layer, ids);
    SetRunWellFormed(f, id, layer, ids);
    var want := Nested(f)[id := Nested(f)[id][layer := ids]];
    forall x | 0 <= x < Nodes(f) ensures Nested(h)[x] == want[x] {
      forall l | 0 <= l < LevelCount(f, x)
        ensures Nested(h)[x][l] == want[x][l]
      {
        SetRunLists(f, id, layer, ids, x, l);
      }
    }
  }

  lemma NestedPush(f: Flat, levels: nat)
    requires WellFormed(f) && levels > 0
    ensures WellFormed(PushSlots(f, levels))
    ensures Nested(PushSlots(f, levels)) == Nested(f) + [Insertion.EmptyLists(levels)]
  {
    var h := PushSlots(f, levels);
    PushSlotsWellFormed(f, levels);
    PushSlotsBase(f, levels, Nodes(f));
    var want := Nested(f) + [Insertion.EmptyLists(levels)];
    forall x | 0 <= x <= Nodes(f) ensures Nested(h)[x] == want[x] {
      PushSlotsBase(f, levels, x);
      forall l | 0 <= l < LevelCount(h, x) ensures Nested(h)[x][l] == want[x][l] { PushSlotsLists(f, levels, x, l); }
    }
  }
}
