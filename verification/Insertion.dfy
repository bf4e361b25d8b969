/** Inserting a node: descent, neighbor selection, linking and pruning, as functions on the graph's value. */
module Insertion {
  import opened Base
  import opened Candidates
  import opened Graphs
  import opened Search
  import opened SearchBounds
  import opened Queries

  const MAX_DIM: nat := 16000
  const MAX_NODES: nat := U32_MAX

  // --- neighbor selection -------------------------------------------------------------

  function Between(g: Graph, dist: Distance, a: nat, b: nat): int {
    if a < Size(g) && b < Size(g) then dist(g.metric, g.vectors[a], g.vectors[b]) else 0
  }

  /** Closer to the base than to every neighbor already selected. */
  predicate Diverse(g: Graph, dist: Distance, c: Cand, selected: seq<nat>) {
    forall r :: r in selected ==> Between(g, dist, c.id, r) >= c.dist
  }

  function Pick(g: Graph, dist: Distance, sorted: seq<Cand>, selected: seq<nat>, m: nat): seq<nat> {
    if sorted == [] || |selected| >= m then selected
    else Pick(g, dist, sorted[1..], if Diverse(g, dist, sorted[0], selected) then selected + [sorted[0].id]
        else selected, m)
  }

  function Backfill(sorted: seq<Cand>, selected: seq<nat>, m: nat): seq<nat> {
    if sorted == [] || |selected| >= m then selected
    else Backfill(sorted[1..], if sorted[0].id in selected then selected else selected + [sorted[0].id], m)
  }

  function Select(g: Graph, dist: Distance, cands: seq<Cand>, m: nat): seq<nat> {
    var sorted := Sort(cands);
    var picked := Pick(g, dist, sorted, [], m);
    if |picked| < m then Backfill(sorted, picked, m) else picked
  }

  predicate DistinctIds(s: seq<Cand>) { forall i, j :: 0 <= i < j < |s| ==> s[i].id != s[j].id }

  ghost predicate FromIds(ids: seq<nat>, s: seq<Cand>) { forall x :: x in ids ==> exists c :: c in s && c.id == x }

  lemma {:induction false} PickOk(g: Graph, dist: Distance, sorted: seq<Cand>, selected: seq<nat>, m: nat)
    requires Distinct(selected) && DistinctIds(sorted) && forall c :: c in sorted ==> c.id !in selected
    ensures var r := Pick(g, dist, sorted, selected, m);
            && Distinct(r) && (|selected| <= m ==> |r| <= m) && selected <= r
            && forall x :: x in r ==> x in selected || exists c :: c in sorted && c.id == x
    decreases |sorted|
  {
    if sorted != [] && |selected| < m {
      var s' := if Diverse(g, dist, sorted[0], selected) then selected + [sorted[0].id] else selected;
      assert sorted[0] in sorted;
      forall c | c in sorted[1..] ensures c.id !in s' && c in sorted {
        var i :| 0 <= i < |sorted[1..]| && sorted[1..][i] == c;
        assert sorted[0].id != sorted[i + 1].id;
      }
      PickOk(g, dist, sorted[1..], s', m);
    }
  }

  lemma {:induction false} BackfillOk(sorted: seq<Cand>, selected: seq<nat>, m: nat)
    requires Distinct(selected)
    ensures var r := Backfill(sorted, selected, m);
            && Distinct(r) && (|selected| <= m ==> |r| <= m) && selected <= r
            && (forall x :: x in r ==> x in selected || exists c :: c in sorted && c.id == x)
            && (|r| < m ==> forall c :: c in sorted ==> c.id in r)
    decreases |sorted|
  {
    if sorted != [] && |selected| < m {
      var s' := if sorted[0].id in selected then selected else selected + [sorted[0].id];
      assert sorted[0] in sorted && forall c :: c in sorted[1..] ==> c in sorted;
      BackfillOk(sorted[1..], s', m);
      var r := Backfill(sorted[1..], s', m);
      assert forall x :: x in s' ==> x in r;
      forall c | |r| < m && c in sorted ensures c.id in r { if c !in sorted[1..] { assert c == sorted[0]; } }
    }
  }

  lemma SortDistinctIds(s: seq<Cand>)
    requires DistinctIds(s)
    ensures DistinctIds(Sort(s))
  {
    var r := Sort(s);
    assert Distinct(s);
    SortSorted(s);
    forall i, j | 0 <= i < j < |r| ensures r[i].id != r[j].id {
      assert r[i] in s && r[j] in s && Before(r[i], r[j]);
    }
  }

  /** At most `m` distinct neighbors, all candidates, and fewer only when every candidate was taken. */
  lemma SelectOk(g: Graph, dist: Distance, cands: seq<Cand>, m: nat)
    requires DistinctIds(cands)
    ensures var r := Select(g, dist, cands, m);
            && Distinct(r) && |r| <= m && FromIds(r, cands)
            && (|r| < m ==> forall c :: c in cands ==> c.id in r)
  {
    SortDistinctIds(cands);
    PickOk(g, dist, Sort(cands), [], m);
    BackfillOk(Sort(cands), Pick(g, dist, Sort(cands), [], m), m);
  }

  /** The heuristic's point: each pick is at least as far from every earlier pick as from the base. */
  ghost predicate Spread(g: Graph, dist: Distance, ids: seq<nat>, toBase: nat -> int) {
    forall i, j :: 0 <= i < j < |ids| ==> Between(g, dist, ids[j], ids[i]) >= toBase(ids[j])
  }

  lemma {:induction false} PickSpread(g: Graph, dist: Distance, sorted: seq<Cand>, selected: seq<nat>, m: nat,
                                      toBase: nat -> int)
    requires Spread(g, dist, selected, toBase) && forall c :: c in sorted ==> c.dist == toBase(c.id)
    ensures Spread(g, dist, Pick(g, dist, sorted, selected, m), toBase)
    decreases |sorted|
  {
    if sorted != [] && |selected| < m {
      assert sorted[0] in sorted && forall c :: c in sorted[1..] ==> c in sorted;
      PickSpread(g, dist, sorted[1..], if Diverse(g, dist, sorted[0], selected) then selected + [sorted[0].id]
          else selected, m, toBase);
    }
  }

  // --- linking -------------------------------------------------------------------------

  function SetList(g: Graph, id: nat, layer: nat, ids: seq<nat>): Graph {
    if id < |g.links| && layer < |g.links[id]| then g.(links := g.links[id := g.links[id][layer := ids]]) else g
  }

  function Around(g: Graph, dist: Distance, n: nat, ids: seq<nat>): (r: seq<Cand>)
    ensures |r| == |ids| && forall i :: 0 <= i < |ids| ==> r[i] == Cand(Between(g, dist, n, ids[i]), ids[i])
  {
    seq(|ids|, i requires 0 <= i < |ids| => Cand(Between(g, dist, n, ids[i]), ids[i]))
  }

  function Pruned(g: Graph, dist: Distance, n: nat, layer: nat, ids: seq<nat>): seq<nat> {
    if |ids| > MaxDegree(g, layer) then Select(g, dist, Around(g, dist, n, ids), MaxDegree(g, layer)) else ids
  }

  /** Append `id` to `n`'s list and prune back to the cap. */
  function AddLink(g: Graph, dist: Distance, n: nat, layer: nat, id: nat): Graph {
    SetList(g, n, layer, Pruned(g, dist, n, layer, Neighbors(g, n, layer) + [id]))
  }

  function LinkBack(g: Graph, dist: Distance, selected: seq<nat>, layer: nat, id: nat): Graph
    decreases |selected|
  {
    if selected == [] then g else LinkBack(AddLink(g, dist, selected[0], layer, id), dist, selected[1..], layer, id)
  }

  function Connect(g: Graph, dist: Distance, id: nat, layer: nat, w: seq<Cand>): Graph {
    var selected := Select(g, dist, w, MaxDegree(g, layer));
    LinkBack(SetList(g, id, layer, selected), dist, selected, layer, id)
  }

  // --- what linking keeps -------------------------------------------------------------------

  ghost predicate Sound(g: Graph) { CapsOk(g) && Shaped(g) && ListsOk(g) }

  /** Everything but the lists themselves. */
  predicate SameNodes(g: Graph, h: Graph) {
    && h == g.(links := h.links) && |h.links| == |g.links|
    && forall id :: 0 <= id < |g.links| ==> |h.links[id]| == |g.links[id]|
  }

  /** No list below `top` mentions `id`. */
  ghost predicate Unlinked(g: Graph, id: nat, top: nat) {
    forall x: nat, l: nat :: l < top ==> id !in Neighbors(g, x, l)
  }

  lemma SetListAt(g: Graph, id: nat, layer: nat, ids: seq<nat>, x: nat, l: nat)
    requires layer < Levels(g, id)
    ensures SameNodes(g, SetList(g, id, layer, ids))
    ensures Neighbors(SetList(g, id, layer, ids), x, l) == if x == id && l == layer then ids else Neighbors(g, x, l)
  {
  }

  /** A list fit for its place keeps the graph sound. */
  lemma SetListSound(g: Graph, id: nat, layer: nat, ids: seq<nat>)
    requires Sound(g) && layer < Levels(g, id)
    requires |ids| <= MaxDegree(g, layer) && Distinct(ids) && id !in ids && forall t :: t in ids ==> LinkOk(g, layer, t)
    ensures Sound(SetList(g, id, layer, ids)) && SameNodes(g, SetList(g, id, layer, ids))
  {
    var h := SetList(g, id, layer, ids);
    SetListAt(g, id, layer, ids, 0, 0);
    forall x: nat, l: nat ensures ListOk(h, x, l) {
      assert ListOk(g, x, l);
      SetListAt(g, id, layer, ids, x, l);
    }
  }

  lemma PrunedOk(g: Graph, dist: Distance, n: nat, layer: nat, ids: seq<nat>)
    requires Distinct(ids)
    ensures var r := Pruned(g, dist, n, layer, ids);
            Distinct(r) && |r| <= MaxDegree(g, layer) && forall x :: x in r ==> x in ids
  {
    var a := Around(g, dist, n, ids);
    SelectOk(g, dist, a, MaxDegree(g, layer));
    forall c | c in a ensures c.id in ids {}
  }

  lemma AddLinkKeeps(g: Graph, dist: Distance, n: nat, layer: nat, id: nat, top: nat)
    requires Sound(g) && layer < Levels(g, n) && LinkOk(g, layer, id) && id != n && id !in Neighbors(g, n, layer)
    requires top <= layer && Unlinked(g, id, top)
    ensures var h := AddLink(g, dist, n, layer, id);
            && Sound(h) && SameNodes(g, h) && Unlinked(h, id, top)
            && forall x: nat :: x != n ==> Neighbors(h, x, layer) == Neighbors(g, x, layer)
  {
    var ids := Neighbors(g, n, layer) + [id];
    assert ListOk(g, n, layer);
    PrunedOk(g, dist, n, layer, ids);
    var kept := Pruned(g, dist, n, layer, ids);
    forall t | t in kept ensures LinkOk(g, layer, t) && t != n { assert t in ids; }
    SetListSound(g, n, layer, kept);
    forall x: nat, l: nat | l < top ensures id !in Neighbors(AddLink(g, dist, n, layer, id), x, l) {
      SetListAt(g, n, layer, kept, x, l);
    }
    forall x: nat | x != n ensures Neighbors(AddLink(g, dist, n, layer, id), x, layer) == Neighbors(g, x, layer) {
      SetListAt(g, n, layer, kept, x, layer);
    }
  }

  /** `id` may still be appended to the list of every node in `selected`. */
  ghost predicate Linkable(g: Graph, selected: seq<nat>, layer: nat, id: nat) {
    && Sound(g) && LinkOk(g, layer, id) && Distinct(selected) && Unlinked(g, id, layer)
    && forall n :: n in selected ==> LinkOk(g, layer, n) && n != id && id !in Neighbors(g, n, layer)
  }

  lemma LinkableNext(g: Graph, dist: Distance, selected: seq<nat>, layer: nat, id: nat)
    requires Linkable(g, selected, layer, id) && selected != []
    ensures var h := AddLink(g, dist, selected[0], layer, id);
            Linkable(h, selected[1..], layer, id) && SameNodes(g, h)
  {
    var n, h := selected[0], AddLink(g, dist, selected[0], layer, id);
    assert n in selected;
    AddLinkKeeps(g, dist, n, layer, id, layer);
    forall x | x in selected[1..]
      ensures LinkOk(h, layer, x) && x != id && id !in Neighbors(h, x, layer)
    {
      var i :| 0 <= i < |selected[1..]| && selected[1..][i] == x;
      assert x == selected[i + 1] && x in selected && x != n;
    }
  }

  lemma {:induction false} LinkBackKeeps(g: Graph, dist: Distance, selected: seq<nat>, layer: nat, id: nat)
    requires Linkable(g, selected, layer, id)
    ensures var h := LinkBack(g, dist, selected, layer, id);
            Sound(h) && SameNodes(g, h) && Unlinked(h, id, layer)
    decreases |selected|
  {
    if selected != [] {
      LinkableNext(g, dist, selected, layer, id);
      LinkBackKeeps(AddLink(g, dist, selected[0], layer, id), dist, selected[1..], layer, id);
    }
  }

  lemma ConnectLinkable(g: Graph, dist: Distance, id: nat, layer: nat, w: seq<Cand>)
    requires Sound(g) && LinkOk(g, layer, id) && DistinctIds(w) && Unlinked(g, id, layer + 1)
    requires forall c :: c in w ==> LinkOk(g, layer, c.id) && c.id != id
    ensures var selected := Select(g, dist, w, MaxDegree(g, layer));
            var g1 := SetList(g, id, layer, selected);
            |selected| <= MaxDegree(g, layer) && Linkable(g1, selected, layer, id) && SameNodes(g, g1)
  {
    var selected := Select(g, dist, w, MaxDegree(g, layer));
    SelectOk(g, dist, w, MaxDegree(g, layer));
    SetListSound(g, id, layer, selected);
    var g1 := SetList(g, id, layer, selected);
    forall x: nat, l: nat | l < layer + 1
      ensures id !in Neighbors(g1, x, l)
    {
      SetListAt(g, id, layer, selected, x, l);
    }
    forall n | n in selected ensures LinkOk(g1, layer, n) && n != id && id !in Neighbors(g1, n, layer) {}
  }

  lemma ConnectKeeps(g: Graph, dist: Distance, id: nat, layer: nat, w: seq<Cand>)
    requires Sound(g) && LinkOk(g, layer, id) && DistinctIds(w) && Unlinked(g, id, layer + 1)
    requires forall c :: c in w ==> LinkOk(g, layer, c.id) && c.id != id
    ensures var h := Connect(g, dist, id, layer, w);
            Sound(h) && SameNodes(g, h) && Unlinked(h, id, layer)
  {
    var selected := Select(g, dist, w, MaxDegree(g, layer));
    ConnectLinkable(g, dist, id, layer, w);
    LinkBackKeeps(SetList(g, id, layer, selected), dist, selected, layer, id);
  }

  // --- the layer searches of an insertion ------------------------------------------------------

  function BuildProbe(g: Graph, dist: Distance, vector: Vec, layer: nat): Probe { Probe(g, dist, vector, layer, None) }

  ghost predicate SeedsOk(g: Graph, id: nat, layer: nat, eps: seq<nat>) {
    eps != [] && forall e :: e in eps ==> LinkOk(g, layer, e) && e != id
  }

  /** Nodes on this layer other than `id`. */
  ghost function OnLayer(g: Graph, id: nat, layer: nat): set<nat> {
    set x | x in Ids(Size(g)) && LinkOk(g, layer, x) && x != id
  }

  /** A search before `id` is linked on a layer finds nodes of that layer, never `id` itself. */
  lemma BuildSearch(g: Graph, dist: Distance, vector: Vec, id: nat, layer: nat, eps: seq<nat>, ef: nat, tr: Budget)
    requires Sound(g) && InRange(g) && SeedsOk(g, id, layer, eps) && Unlinked(g, id, layer + 1)
    ensures var w := SearchLayer(BuildProbe(g, dist, vector, layer), eps, ef, tr).0;
            DistinctIds(w) && forall c :: c in w ==> LinkOk(g, layer, c.id) && c.id != id
  {
    var p, s := BuildProbe(g, dist, vector, layer), OnLayer(g, id, layer);
    forall x, y | x in s && y in Adjacent(p, x) ensures y in s {
      assert ListOk(g, x, layer);
      assert id !in Neighbors(g, x, layer);
    }
    SearchLayerWithin(p, eps, ef, tr, s);
    SearchLayerSound(p, eps, ef, tr);
    var w := SearchLayer(p, eps, ef, tr).0;
    forall i, j | 0 <= i < j < |w| ensures w[i].id != w[j].id {
      assert w[i] in w && w[j] in w && Before(w[i], w[j]);
    }
  }

  function Nearest(w: seq<Cand>, ep: nat): nat { if w == [] then ep else w[0].id }

  /** Greedy descent through layers `layer` down to `stop + 1`. */
  function DescendTo(g: Graph, dist: Distance, vector: Vec, layer: nat, stop: nat, ep: nat): nat
    requires InRange(g)
  {
    if layer <= stop then ep else
    DescendTo(g, dist, vector, layer - 1, stop,
              Nearest(SearchLayer(BuildProbe(g, dist, vector, layer), [ep], 1, UNFILTERED).0, ep))
  }

  lemma {:induction false} DescendToOk(g: Graph, dist: Distance, vector: Vec, id: nat, layer: nat, stop: nat, ep: nat)
    requires Sound(g) && InRange(g) && LinkOk(g, layer, ep) && ep != id && Unlinked(g, id, layer + 1)
    ensures var e := DescendTo(g, dist, vector, layer, stop, ep);
            LinkOk(g, if layer <= stop then layer else stop, e) && e != id
  {
    if layer > stop {
      BuildSearch(g, dist, vector, id, layer, [ep], 1, UNFILTERED);
      var w := SearchLayer(BuildProbe(g, dist, vector, layer), [ep], 1, UNFILTERED).0;
      if w != [] { assert w[0] in w; }
      DescendToOk(g, dist, vector, id, layer - 1, stop, Nearest(w, ep));
    }
  }

  /** What must hold before connecting `id` on the `n` lowest layers. */
  ghost predicate Building(g: Graph, id: nat, entry: nat, n: nat, eps: seq<nat>) {
    && Sound(g) && Unlinked(g, id, n)
    && (n > 0 ==> LinkOk(g, n - 1, id) && LinkOk(g, n - 1, entry) && entry != id && SeedsOk(g, id, n - 1, eps))
  }

  function NextSeeds(w: seq<Cand>, entry: nat): seq<nat> { if w == [] then [entry] else CandIds(w) }

  function LayerCandidates(g: Graph, dist: Distance, id: nat, layer: nat, eps: seq<nat>): seq<Cand>
    requires InRange(g) && id < Size(g)
  {
    SearchLayer(BuildProbe(g, dist, g.vectors[id], layer), eps, g.efConstruction, UNFILTERED).0
  }

  lemma LinkOkLater(g: Graph, h: Graph, layer: nat, l: nat, t: nat)
    requires SameNodes(g, h) && LinkOk(g, layer, t) && l <= layer
    ensures LinkOk(h, l, t)
  {
  }

  lemma NextSeedsOk(g: Graph, id: nat, entry: nat, layer: nat, w: seq<Cand>)
    requires LinkOk(g, layer, entry) && entry != id
    requires forall c :: c in w ==> LinkOk(g, layer, c.id) && c.id != id
    ensures SeedsOk(g, id, layer, NextSeeds(w, entry))
  {
    forall e | e in NextSeeds(w, entry) ensures e != id && LinkOk(g, layer, e) {
      if w != [] { var i :| 0 <= i < |w| && w[i].id == e; assert w[i] in w; }
    }
  }

  lemma BuildingNext(g: Graph, dist: Distance, id: nat, entry: nat, n: nat, eps: seq<nat>)
    requires Building(g, id, entry, n, eps) && n > 0 && InRange(g)
    ensures var w := LayerCandidates(g, dist, id, n - 1, eps);
            var h := Connect(g, dist, id, n - 1, w);
            Building(h, id, entry, n - 1, NextSeeds(w, entry)) && SameNodes(g, h)
  {
    hide SearchLayer, Connect;
    var w := LayerCandidates(g, dist, id, n - 1, eps);
    var h := Connect(g, dist, id, n - 1, w);
    BuildSearch(g, dist, g.vectors[id], id, n - 1, eps, g.efConstruction, UNFILTERED);
    ConnectKeeps(g, dist, id, n - 1, w);
    NextSeedsOk(g, id, entry, n - 1, w);
    if n > 1 { StillBuilding(g, h, id, entry, n, NextSeeds(w, entry)); }
  }

  lemma StillBuilding(g: Graph, h: Graph, id: nat, entry: nat, n: nat, eps: seq<nat>)
    requires SameNodes(g, h) && n > 1 && entry != id
    requires LinkOk(g, n - 1, id) && LinkOk(g, n - 1, entry) && SeedsOk(g, id, n - 1, eps)
    ensures LinkOk(h, n - 2, id) && LinkOk(h, n - 2, entry) && SeedsOk(h, id, n - 2, eps)
  {
    LinkOkLater(g, h, n - 1, n - 2, id);
    LinkOkLater(g, h, n - 1, n - 2, entry);
    forall e | e in eps ensures LinkOk(h, n - 2, e) && e != id { LinkOkLater(g, h, n - 1, n - 2, e); }
  }

  /** Connect `id` on layers `n - 1` down to 0. */
  function ConnectDown(g: Graph, dist: Distance, id: nat, entry: nat, n: nat, eps: seq<nat>): (h: Graph)
    requires Building(g, id, entry, n, eps)
    ensures Sound(h) && SameNodes(g, h)
    decreases n
  {
    if n == 0 then g else
    ValidInRange(g);
    BuildingNext(g, dist, id, entry, n, eps);
    var w := LayerCandidates(g, dist, id, n - 1, eps);
    ConnectDown(Connect(g, dist, id, n - 1, w), dist, id, entry, n - 1, NextSeeds(w, entry))
  }

  // --- the whole insertion -------------------------------------------------------------------------

  function EmptyLists(n: nat): (r: seq<seq<nat>>)
    ensures |r| == n && forall i :: 0 <= i < n ==> r[i] == []
  {
    seq(n, _ => [])
  }

  function PushNode(g: Graph, vector: Vec, attrs: Attrs, levels: nat): Graph {
    g.(vectors := g.vectors + [vector], links := g.links + [EmptyLists(levels)],
       attrs := g.attrs + [attrs], deleted := g.deleted + [false])
  }

  function Refusal(g: Graph, vector: Vec): Option<HnswError> {
    if vector == [] then Some(EmptyVector)
    else if |vector| > MAX_DIM then Some(DimensionTooLarge(|vector|, MAX_DIM))
    else if g.dim != 0 && |vector| != g.dim then Some(DimensionMismatch(g.dim, |vector|))
    else if Size(g) >= MAX_NODES then Some(NodeLimitReached(MAX_NODES))
    else None
  }

  /** The graph with its dimension fixed and its PRNG advanced: what even a full graph keeps of an attempt. */
  function Drawn(k: Kernel, g: Graph, vector: Vec): Graph {
    g.(dim := if g.dim == 0 then |vector| else g.dim, rng := k.draw(g.m, g.rng).1)
  }

  function LevelOf(k: Kernel, g: Graph): nat { k.draw(g.m, g.rng).0 }

  /** A new node above the old top takes over as entry point. */
  function Crowned(g: Graph, id: nat, level: nat): Graph {
    if level > g.maxLayer then g.(maxLayer := level, entry := Some(id)) else g
  }

  function Placed(k: Kernel, g: Graph, vector: Vec, attrs: Attrs): Graph {
    PushNode(Drawn(k, g, vector), vector, attrs, LevelOf(k, g) + 1)
  }

  function Accepted(k: Kernel, g: Graph, vector: Vec, attrs: Attrs): Graph
    requires Valid(g) && Refusal(g, vector).None?
  {
    var id, level, placed := Size(g), LevelOf(k, g), Placed(k, g, vector, attrs);
    match g.entry
    case None => placed.(entry := Some(id), maxLayer := level)
    case Some(e) =>
      PlacedBuilds(k, g, vector, attrs, e);
      var top := Min(level, g.maxLayer);
      Crowned(ConnectDown(placed, k.dist, id, e, top + 1, [DescendTo(placed, k.dist, vector, g.maxLayer, level, e)]),
          id, level)
  }

  /** insert_with_attrs: the graph afterwards, and the new id or the refusal. */
  function InsertNode(k: Kernel, g: Graph, vector: Vec, attrs: Attrs): (Graph, Result<nat, HnswError>)
    requires Valid(g)
  {
    match Refusal(g, vector)
    case Some(NodeLimitReached(limit)) => (Drawn(k, g, vector), Err(NodeLimitReached(limit)))
    case Some(e) => (g, Err(e))
    case None => (Accepted(k, g, vector, attrs), Ok(Size(g)))
  }

  lemma PlacedLists(k: Kernel, g: Graph, vector: Vec, attrs: Attrs, x: nat, l: nat)
    requires Valid(g)
    ensures Neighbors(Placed(k, g, vector, attrs), x, l) == Neighbors(g, x, l)
    ensures Size(g) !in Neighbors(g, x, l)
    ensures LinkOk(g, l, x) ==> LinkOk(Placed(k, g, vector, attrs), l, x)
  {
    assert ListOk(g, x, l);
  }

  lemma PlacedSound(k: Kernel, g: Graph, vector: Vec, attrs: Attrs)
    requires Valid(g) && Refusal(g, vector).None?
    ensures var placed := Placed(k, g, vector, attrs);
            && Sound(placed) && InRange(placed)
            && (forall top: nat :: Unlinked(placed, Size(g), top))
            && LinkOk(placed, LevelOf(k, g), Size(g))
  {
    var placed := Placed(k, g, vector, attrs);
    forall x: nat, l: nat ensures ListOk(placed, x, l) && Size(g) !in Neighbors(placed, x, l) {
      assert ListOk(g, x, l);
      PlacedLists(k, g, vector, attrs, x, l);
      forall t | t in Neighbors(placed, x, l) ensures LinkOk(placed, l, t) { PlacedLists(k, g, vector, attrs, t, l); }
    }
    ValidInRange(placed);
  }

  lemma PlacedBuilds(k: Kernel, g: Graph, vector: Vec, attrs: Attrs, e: nat)
    requires Valid(g) && Refusal(g, vector).None? && g.entry == Some(e)
    ensures var placed, level := Placed(k, g, vector, attrs), LevelOf(k, g);
            && InRange(placed)
            && Building(placed, Size(g), e, Min(level, g.maxLayer) + 1,
                        [DescendTo(placed, k.dist, vector, g.maxLayer, level, e)])
  {
    var placed, level, id := Placed(k, g, vector, attrs), LevelOf(k, g), Size(g);
    PlacedSound(k, g, vector, attrs);
    PlacedLists(k, g, vector, attrs, e, g.maxLayer);
    DescendToOk(placed, k.dist, vector, id, g.maxLayer, level, e);
  }

  /** Insertion keeps the whole invariant: degree caps, no duplicates or self-loops, links only to nodes that have
      the layer, and an entry point that owns the top layer. */
  lemma InsertKeepsValid(k: Kernel, g: Graph, vector: Vec, attrs: Attrs)
    requires Valid(g)
    ensures InsertNode(k, g, vector, attrs).1.Ok? ==> Valid(InsertNode(k, g, vector, attrs).0)
  {
    if Refusal(g, vector).None? {
      var placed, level := Placed(k, g, vector, attrs), LevelOf(k, g);
      PlacedSound(k, g, vector, attrs);
      match g.entry {
        case None => SameLists(placed, placed.(entry := Some(Size(g)), maxLayer := level));
        case Some(e) =>
          PlacedBuilds(k, g, vector, attrs, e);
          var h := ConnectDown(placed, k.dist, Size(g), e, Min(level, g.maxLayer) + 1,
                               [DescendTo(placed, k.dist, vector, g.maxLayer, level, e)]);
          SameLists(h, Crowned(h, Size(g), level));
          CrownedTop(g, h, level);
      }
    }
  }

  /** Soundness looks at the nodes and their lists, not at who stands on top. */
  lemma SameLists(g: Graph, h: Graph)
    requires Sound(g) && h.links == g.links && h.vectors == g.vectors && h.attrs == g.attrs && h.deleted == g.deleted
    requires h.m == g.m && h.mCap == g.mCap && h.m0Cap == g.m0Cap && h.dim == g.dim
    ensures Sound(h)
  {
    forall x: nat, l: nat ensures ListOk(h, x, l) { assert ListOk(g, x, l); }
  }

  lemma CrownedTop(g: Graph, h: Graph, level: nat)
    requires Valid(g) && g.entry.Some? && |h.links| == Size(g) + 1 == Size(h)
    requires forall id :: 0 <= id <= Size(g) ==> |h.links[id]| == if id < Size(g) then |g.links[id]| else level + 1
    requires h.entry == g.entry && h.maxLayer == g.maxLayer
    ensures EntryOk(Crowned(h, Size(g), level)) && UnderTop(Crowned(h, Size(g), level))
  {
  }

  /** The new node gets the next id; older nodes keep their vectors, attributes, tombstones and levels. */
  lemma InsertKeepsNodes(k: Kernel, g: Graph, vector: Vec, attrs: Attrs)
    requires Valid(g) && InsertNode(k, g, vector, attrs).1.Ok?
    ensures var (h, r) := InsertNode(k, g, vector, attrs);
            && r == Ok(Size(g))
            && h.vectors == g.vectors + [vector] && h.attrs == g.attrs + [attrs] && h.deleted == g.deleted + [false]
            && |h.links| == |g.links| + 1 && |h.links[Size(g)]| == LevelOf(k, g) + 1
            && (forall id :: 0 <= id < Size(g) ==> |h.links[id]| == |g.links[id]|)
            && h.dim == |vector| && h.metric == g.metric && h.m == g.m && h.gamma == g.gamma && h.seed == g.seed
            && h.mCap == g.mCap && h.m0Cap == g.m0Cap && h.efConstruction == g.efConstruction
  {
    if g.entry.Some? { PlacedBuilds(k, g, vector, attrs, g.entry.value); }
  }
}
