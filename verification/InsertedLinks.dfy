/** Every list an insertion writes: whom the new node links to, how many, and what becomes of the lists it joins. */
module InsertedLinks {
  import opened Base
  import opened Candidates
  import opened Graphs
  import opened Search
  import opened SearchBounds
  import opened SearchReach
  import opened SearchOptimal
  import opened Queries
  import opened Insertion
  import opened Selection
  import opened LiveSearch
  import Linking

  // --- how many a search and a selection return ---------------------------------------------------

  lemma IdsOfResults(p: Probe, out: seq<Cand>)
    requires Sorted(out) && forall c :: c in out ==> c == Scored(p, c.id)
    ensures |Set(CandIds(out))| == |out| && forall x :: x in Set(CandIds(out)) <==> Scored(p, x) in out
  {
    var ids := CandIds(out);
    forall i, j | 0 <= i < j < |ids| ensures ids[i] != ids[j] {
      assert out[i] in out && out[j] in out && Before(out[i], out[j]);
    }
    DistinctCount(ids);
    forall x ensures x in Set(ids) <==> Scored(p, x) in out {
      if x in Set(ids) { var i :| 0 <= i < |ids| && ids[i] == x; assert out[i] in out; }
      if Scored(p, x) in out { var i :| 0 <= i < |out| && out[i] == Scored(p, x); assert ids[i] == x; }
    }
  }

  lemma UnfilledIsReached(p: Probe, seeds: seq<nat>, ef: nat, tr: Budget)
    requires InRange(p.g) && !Filtered(p.pred) && (forall x :: x in seeds ==> x < Size(p.g))
    requires (forall id :: !Deleted(p.g, id)) && |SearchLayer(p, seeds, ef, tr).0| < ef
    ensures ReachSet(p, seeds) <= Set(CandIds(SearchLayer(p, seeds, ef, tr).0))
  {
    hide SearchLayer, LayerBeam;
    var out := SearchLayer(p, seeds, ef, tr).0;
    var s := Set(CandIds(out));
    SearchLayerSound(p, seeds, ef, tr);
    SearchLayerNearest(p, seeds, ef, tr);
    IdsOfResults(p, out);
    forall x, y | x in s && y in Adjacent(p, x) ensures y in s { assert Scored(p, x) in out && Admissible(p, y); }
    forall b | b in ReachSet(p, seeds) ensures b in s {
      var a, n :| a in seeds && Reaches(p, a, b, n);
      assert a in Set(seeds) && Admissible(p, a);
      ClosedReaches(p, s, a, b, n);
    }
  }

  /** With nothing tombstoned, a search returns as many as it may of the nodes its seeds reach. */
  lemma ReachCount(p: Probe, seeds: seq<nat>, ef: nat, tr: Budget)
    requires InRange(p.g) && !Filtered(p.pred) && (forall x :: x in seeds ==> x < Size(p.g))
    requires forall id :: !Deleted(p.g, id)
    ensures |SearchLayer(p, seeds, ef, tr).0| == Min(ef, |ReachSet(p, seeds)|)
  {
    hide SearchLayer, LayerBeam, ReachSet;
    var out := SearchLayer(p, seeds, ef, tr).0;
    SearchLayerSound(p, seeds, ef, tr);
    IdsOfResults(p, out);
    ReachSetClosed(p, seeds);
    SearchLayerWithin(p, seeds, ef, tr, ReachSet(p, seeds));
    SubsetCount(Set(CandIds(out)), ReachSet(p, seeds));
    if |out| < ef {
      UnfilledIsReached(p, seeds, ef, tr);
      SubsetCount(ReachSet(p, seeds), Set(CandIds(out)));
    }
  }

  /** The heuristic never leaves room unused. */
  lemma SelectCount(g: Graph, dist: Distance, cands: seq<Cand>, m: nat)
    requires DistinctIds(cands)
    ensures |Select(g, dist, cands, m)| == Min(m, |cands|)
  {
    hide Select;
    var r, ids := Select(g, dist, cands, m), CandIds(cands);
    SelectOk(g, dist, cands, m);
    DistinctCount(r);
    DistinctCount(ids);
    forall x | x in Set(r) ensures x in Set(ids) {
      var c :| c in cands && c.id == x;
      var i :| 0 <= i < |cands| && cands[i] == c;
      assert ids[i] == x;
    }
    SubsetCount(Set(r), Set(ids));
    if |r| < m {
      forall x | x in Set(ids) ensures x in Set(r) {
        var i :| 0 <= i < |ids| && ids[i] == x;
        assert cands[i] in cands;
      }
      SubsetCount(Set(ids), Set(r));
    }
  }

  // --- what becomes of a list the new node joins ------------------------------------------------------

  /** All of `ids` when they fit, and the greedy selection among them otherwise. */
  ghost predicate ListChosen(g: Graph, dist: Distance, n: nat, layer: nat, ids: seq<nat>, r: seq<nat>) {
    if |ids| <= MaxDegree(g, layer) then r == ids else
    exists picks, fill ::
      IsSelection(g, dist, Around(g, dist, n, ids), MaxDegree(g, layer), picks, fill) && r == CandIds(picks + fill)
  }

  ghost predicate SameVectors(g: Graph, h: Graph) {
    h.metric == g.metric && h.vectors == g.vectors && h.mCap == g.mCap && h.m0Cap == g.m0Cap
  }

  lemma SameSelection(g: Graph, h: Graph, dist: Distance, cands: seq<Cand>, m: nat, picks: seq<Cand>, fill: seq<Cand>)
    requires SameVectors(g, h) && IsSelection(g, dist, cands, m, picks, fill)
    ensures IsSelection(h, dist, cands, m, picks, fill)
  {
    hide Fills;
    forall a: nat, b: nat ensures Between(h, dist, a, b) == Between(g, dist, a, b) {}
    forall c | c in cands && c !in picks ensures Rejected(g, dist, picks, c) ==> Rejected(h, dist, picks, c) {}
  }

  lemma SameChosen(g: Graph, h: Graph, dist: Distance, n: nat, layer: nat, ids: seq<nat>, r: seq<nat>)
    requires SameVectors(g, h) && ListChosen(g, dist, n, layer, ids, r)
    ensures ListChosen(h, dist, n, layer, ids, r)
  {
    hide IsSelection;
    if |ids| > MaxDegree(g, layer) {
      var picks, fill :|
        IsSelection(g, dist, Around(g, dist, n, ids), MaxDegree(g, layer), picks, fill) && r == CandIds(picks + fill);
      assert Around(h, dist, n, ids) == Around(g, dist, n, ids);
      SameSelection(g, h, dist, Around(g, dist, n, ids), MaxDegree(g, layer), picks, fill);
    }
  }

  lemma PrunedChosen(g: Graph, dist: Distance, n: nat, layer: nat, ids: seq<nat>)
    requires Distinct(ids)
    ensures ListChosen(g, dist, n, layer, ids, Pruned(g, dist, n, layer, ids))
  {
    hide IsSelection, Select;
    if |ids| > MaxDegree(g, layer) {
      var a := Around(g, dist, n, ids);
      var picks, fill := SelectGreedy(g, dist, a, MaxDegree(g, layer));
    }
  }

  lemma AddLinkChosen(g: Graph, dist: Distance, n: nat, layer: nat, id: nat)
    requires Sound(g) && layer < Levels(g, n) && id !in Neighbors(g, n, layer)
    ensures var h := AddLink(g, dist, n, layer, id);
            && ListChosen(g, dist, n, layer, Neighbors(g, n, layer) + [id], Neighbors(h, n, layer))
            && SameVectors(g, h)
  {
    hide Pruned, ListChosen;
    var ids := Neighbors(g, n, layer) + [id];
    assert ListOk(g, n, layer);
    PrunedChosen(g, dist, n, layer, ids);
    SetListAt(g, n, layer, Pruned(g, dist, n, layer, ids), n, layer);
  }

  /** Each selected node's list is the old one with `id`, pruned if it no longer fits. */
  lemma {:induction false} LinkBackChosen(g: Graph, dist: Distance, selected: seq<nat>, layer: nat, id: nat, x: nat)
    requires Linkable(g, selected, layer, id) && x in selected
    ensures var h := LinkBack(g, dist, selected, layer, id);
            ListChosen(g, dist, x, layer, Neighbors(g, x, layer) + [id], Neighbors(h, x, layer))
    decreases |selected|
  {
    hide AddLink, Sound, Unlinked, ListChosen;
    var n := selected[0];
    var m := AddLink(g, dist, n, layer, id);
    assert n in selected;
    LinkableNext(g, dist, selected, layer, id);
    Linking.LinkableSound(g, selected, layer, id);
    Linking.AddLinkAnswers(g, dist, n, layer, id);
    AddLinkChosen(g, dist, n, layer, id);
    if x == n {
      NotLater(selected);
      Linking.LinkBackAnswers(m, dist, selected[1..], layer, id);
    } else {
      LinkBackChosen(m, dist, selected[1..], layer, id, x);
      SameChosen(m, g, dist, x, layer, Neighbors(g, x, layer) + [id],
                 Neighbors(LinkBack(g, dist, selected, layer, id), x, layer));
    }
  }

  lemma NotLater(s: seq<nat>)
    requires Distinct(s) && s != []
    ensures s[0] !in s[1..]
  {
    forall i | 0 <= i < |s[1..]| ensures s[1..][i] != s[0] { assert s[i + 1] != s[0]; }
  }

  /** What connecting a layer does to each of its lists. */
  lemma ConnectChosen(g: Graph, dist: Distance, id: nat, layer: nat, w: seq<Cand>)
    requires Sound(g) && LinkOk(g, layer, id) && DistinctIds(w) && Unlinked(g, id, layer + 1)
    requires forall c :: c in w ==> LinkOk(g, layer, c.id) && c.id != id
    ensures var h, selected := Connect(g, dist, id, layer, w), Select(g, dist, w, MaxDegree(g, layer));
            && Neighbors(h, id, layer) == selected
            && (forall x: nat :: x != id && x !in selected ==> Neighbors(h, x, layer) == Neighbors(g, x, layer))
            && forall x: nat :: x in selected ==>
                 ListChosen(g, dist, x, layer, Neighbors(g, x, layer) + [id], Neighbors(h, x, layer))
  {
    hide Select, LinkBack, Linkable, Sound, ListChosen, AddLink;
    var selected := Select(g, dist, w, MaxDegree(g, layer));
    var g1, h := SetList(g, id, layer, selected), Connect(g, dist, id, layer, w);
    ConnectLinkable(g, dist, id, layer, w);
    Linking.LinkableSound(g1, selected, layer, id);
    Linking.LinkBackAnswers(g1, dist, selected, layer, id);
    forall x: nat ensures Neighbors(g1, x, layer) == if x == id then selected else Neighbors(g, x, layer) {
      SetListAt(g, id, layer, selected, x, layer);
    }
    forall x: nat | x in selected
      ensures ListChosen(g, dist, x, layer, Neighbors(g, x, layer) + [id], Neighbors(h, x, layer))
    {
      LinkBackChosen(g1, dist, selected, layer, id, x);
      SameChosen(g1, g, dist, x, layer, Neighbors(g, x, layer) + [id], Neighbors(h, x, layer));
    }
  }

  // --- one layer of an insertion ------------------------------------------------------------------------

  /** The graph a layer is connected in differs from the one the insertion started from on the layers above alone. */
  ghost predicate Reached(g: Graph, m: Graph, id: nat, l: nat, seeds: seq<nat>) {
    && SameNodes(g, m) && Sound(m) && Unlinked(m, id, l + 1) && LinkOk(m, l, id) && SeedsOk(m, id, l, seeds)
    && forall x: nat :: Neighbors(m, x, l) == Neighbors(g, x, l)
  }

  lemma {:induction false} ConnectDownAt(g: Graph, dist: Distance, id: nat, entry: nat, n: nat, eps: seq<nat>, l: nat)
    returns (m: Graph, seeds: seq<nat>)
    requires Building(g, id, entry, n, eps) && l < n
    ensures Reached(g, m, id, l, seeds) && InRange(m)
    ensures var h := ConnectDown(g, dist, id, entry, n, eps);
            forall x: nat :: Neighbors(h, x, l)
                          == Neighbors(Connect(m, dist, id, l, LayerCandidates(m, dist, id, l, seeds)), x, l)
    decreases n
  {
    hide Connect, LayerCandidates, Sound, Unlinked, Linking.Answered, Neighbors;
    Linking.BuildingInRange(g, id, entry, n, eps);
    BuildingNext(g, dist, id, entry, n, eps);
    var w := LayerCandidates(g, dist, id, n - 1, eps);
    var c, next := Connect(g, dist, id, n - 1, w), NextSeeds(w, entry);
    Linking.LayerLinks(g, dist, id, entry, n, eps);
    assert ConnectDown(g, dist, id, entry, n, eps) == ConnectDown(c, dist, id, entry, n - 1, next);
    if l == n - 1 {
      Linking.ConnectDownAnswers(c, dist, id, entry, n - 1, next);
      m, seeds := g, eps;
    } else {
      m, seeds := ConnectDownAt(c, dist, id, entry, n - 1, next, l);
    }
  }

  lemma PlacedAt(k: Kernel, g: Graph, vector: Vec, attrs: Attrs, l: nat) returns (m: Graph, seeds: seq<nat>)
    requires Valid(g) && Refusal(g, vector).None? && g.entry.Some? && l <= LevelOf(k, g) && l <= g.maxLayer
    ensures Reached(Placed(k, g, vector, attrs), m, Size(g), l, seeds) && InRange(m)
    ensures var h := InsertNode(k, g, vector, attrs).0;
            forall x: nat :: Neighbors(h, x, l)
                          == Neighbors(Connect(m, k.dist, Size(g), l,
                                               LayerCandidates(m, k.dist, Size(g), l, seeds)), x, l)
  {
    hide ConnectDown, Connect, LayerCandidates, DescendTo, Building, Reached;
    var placed, level, id, e := Placed(k, g, vector, attrs), LevelOf(k, g), Size(g), g.entry.value;
    PlacedBuilds(k, g, vector, attrs, e);
    var eps := [DescendTo(placed, k.dist, vector, g.maxLayer, level, e)];
    m, seeds := ConnectDownAt(placed, k.dist, id, e, Min(level, g.maxLayer) + 1, eps, l);
    ReachedSize(placed, m, id, l, seeds);
    var c := ConnectDown(placed, k.dist, id, e, Min(level, g.maxLayer) + 1, eps);
    assert InsertNode(k, g, vector, attrs).0 == Crowned(c, id, level);
  }

  lemma ReachedSize(g: Graph, m: Graph, id: nat, l: nat, seeds: seq<nat>)
    requires Reached(g, m, id, l, seeds)
    ensures Size(m) == Size(g) && id < Size(m)
  {
  }

  /** Nothing has happened yet to the nodes and to this layer's lists. */
  ghost predicate Extends(g: Graph, m: Graph, vector: Vec, l: nat) {
    && m.metric == g.metric && m.efConstruction == g.efConstruction && m.vectors == g.vectors + [vector]
    && m.deleted == g.deleted + [false] && m.mCap == g.mCap && m.m0Cap == g.m0Cap
    && (forall x: nat :: Neighbors(m, x, l) == Neighbors(g, x, l))
    && forall x: nat :: x < Size(g) ==> (LinkOk(m, l, x) <==> LinkOk(g, l, x))
  }

  lemma ReachedExtends(k: Kernel, g: Graph, vector: Vec, attrs: Attrs, m: Graph, l: nat, seeds: seq<nat>)
    requires Valid(g) && Reached(Placed(k, g, vector, attrs), m, Size(g), l, seeds)
    ensures Extends(g, m, vector, l)
    ensures seeds != [] && forall x :: x in seeds ==> x < Size(g) && LinkOk(g, l, x)
  {
    hide ListsOk, Unlinked;
    var placed := Placed(k, g, vector, attrs);
    forall x: nat ensures Neighbors(m, x, l) == Neighbors(g, x, l) { PlacedLists(k, g, vector, attrs, x, l); }
    forall x: nat | x < Size(g) ensures LinkOk(m, l, x) <==> LinkOk(g, l, x) {
      assert |m.links[x]| == |placed.links[x]| == |g.links[x]|;
    }
  }

  /** On the nodes there were, a search of the extended graph sees what one of the graph would. */
  lemma ExtendsScores(g: Graph, m: Graph, dist: Distance, vector: Vec, l: nat, x: nat)
    requires Shaped(g) && Extends(g, m, vector, l) && x < Size(g)
    ensures Scored(BuildProbe(m, dist, vector, l), x) == Scored(BuildProbe(g, dist, vector, l), x)
    ensures Admissible(BuildProbe(m, dist, vector, l), x) <==> Admissible(BuildProbe(g, dist, vector, l), x)
    ensures Admissible(BuildProbe(g, dist, vector, l), x) <==> !Deleted(g, x)
  {
  }

  lemma ExtendsNearest(g: Graph, m: Graph, dist: Distance, vector: Vec, l: nat, w: seq<Cand>, ef: nat)
    requires Shaped(g) && InRange(g) && Extends(g, m, vector, l)
    requires LocallyNearest(BuildProbe(m, dist, vector, l), w, ef)
    ensures LocallyNearest(BuildProbe(g, dist, vector, l), w, ef)
  {
    hide Extends, Admissible;
    var p, q := BuildProbe(g, dist, vector, l), BuildProbe(m, dist, vector, l);
    forall c: Cand, y: nat | c in w && y in Adjacent(p, c.id) && Admissible(p, y)
      ensures Scored(p, y) in w || (|w| == ef && forall d :: d in w ==> d.dist <= DistanceTo(p, y))
    {
      assert y in Neighbors(g, c.id, l);
      assert Adjacent(q, c.id) == Adjacent(p, c.id) by { ExtendsLists(g, m, vector, l, c.id); }
      ExtendsScores(g, m, dist, vector, l, y);
    }
  }

  lemma ExtendsLists(g: Graph, m: Graph, vector: Vec, l: nat, x: nat)
    requires Extends(g, m, vector, l)
    ensures Neighbors(m, x, l) == Neighbors(g, x, l)
  {
  }

  /** The candidates a layer is connected from. */
  ghost predicate Pool(g: Graph, dist: Distance, vector: Vec, l: nat, w: seq<Cand>) {
    && Sorted(w) && |w| <= g.efConstruction
    && (forall c :: c in w ==>
          LinkOk(g, l, c.id) && !Deleted(g, c.id) && c == Scored(BuildProbe(g, dist, vector, l), c.id))
    && LocallyNearest(BuildProbe(g, dist, vector, l), w, g.efConstruction)
  }

  lemma CandidatesPool(g: Graph, m: Graph, dist: Distance, vector: Vec, l: nat, seeds: seq<nat>)
    requires Valid(g) && Extends(g, m, vector, l) && InRange(m) && Sound(m) && Unlinked(m, Size(g), l + 1)
    requires SeedsOk(m, Size(g), l, seeds)
    ensures Pool(g, dist, vector, l, LayerCandidates(m, dist, Size(g), l, seeds))
    ensures DistinctIds(LayerCandidates(m, dist, Size(g), l, seeds))
    ensures forall c :: c in LayerCandidates(m, dist, Size(g), l, seeds) ==> LinkOk(m, l, c.id) && c.id != Size(g)
  {
    hide SearchLayer, LayerBeam, LocallyNearest, Unlinked, ListsOk;
    var p := BuildProbe(m, dist, vector, l);
    ValidInRange(g);
    BuildSearch(m, dist, vector, Size(g), l, seeds, m.efConstruction, UNFILTERED);
    SearchLayerSound(p, seeds, m.efConstruction, UNFILTERED);
    SearchLayerNearest(p, seeds, m.efConstruction, UNFILTERED);
    ExtendsNearest(g, m, dist, vector, l, LayerCandidates(m, dist, Size(g), l, seeds), m.efConstruction);
    forall c | c in LayerCandidates(m, dist, Size(g), l, seeds)
      ensures LinkOk(g, l, c.id) && !Deleted(g, c.id) && c == Scored(BuildProbe(g, dist, vector, l), c.id)
    {
      ExtendsScores(g, m, dist, vector, l, c.id);
    }
  }

  // --- the whole insertion ---------------------------------------------------------------------------------

  lemma ShareVectors(k: Kernel, g: Graph, vector: Vec, attrs: Attrs, m: Graph, l: nat)
    requires Valid(g) && InsertNode(k, g, vector, attrs).1.Ok? && Extends(g, m, vector, l)
    ensures SameVectors(m, InsertNode(k, g, vector, attrs).0)
    ensures MaxDegree(m, l) == MaxDegree(g, l)
  {
    InsertKeepsNodes(k, g, vector, attrs);
  }

  lemma NotRefused(k: Kernel, g: Graph, vector: Vec, attrs: Attrs)
    requires Valid(g) && InsertNode(k, g, vector, attrs).1.Ok?
    ensures Refusal(g, vector).None?
  {
  }

  /** On each layer it shares with the graph the new node links to the greedy selection among a pool of at most
      `efConstruction` live nodes, none of which has a nearer live neighbor that was passed over. */
  lemma InsertedListChosen(k: Kernel, g: Graph, vector: Vec, attrs: Attrs, l: nat)
    returns (w: seq<Cand>, picks: seq<Cand>, fill: seq<Cand>)
    requires Valid(g) && InsertNode(k, g, vector, attrs).1.Ok? && g.entry.Some?
    requires l <= LevelOf(k, g) && l <= g.maxLayer
    ensures var h := InsertNode(k, g, vector, attrs).0;
            && Pool(g, k.dist, vector, l, w)
            && IsSelection(h, k.dist, w, MaxDegree(g, l), picks, fill)
            && Neighbors(h, Size(g), l) == CandIds(picks + fill)
  {
    hide InsertNode, Placed, IsSelection, Pool, Extends, LayerCandidates, Select, Connect, Neighbors;
    NotRefused(k, g, vector, attrs);
    var m, seeds := PlacedAt(k, g, vector, attrs, l);
    ReachedExtends(k, g, vector, attrs, m, l, seeds);
    ReachedSize(Placed(k, g, vector, attrs), m, Size(g), l, seeds);
    w := LayerCandidates(m, k.dist, Size(g), l, seeds);
    CandidatesPool(g, m, k.dist, vector, l, seeds);
    ConnectChosen(m, k.dist, Size(g), l, w);
    ShareVectors(k, g, vector, attrs, m, l);
    picks, fill := SelectGreedy(m, k.dist, w, MaxDegree(m, l));
    SameSelection(m, InsertNode(k, g, vector, attrs).0, k.dist, w, MaxDegree(m, l), picks, fill);
  }

  /** The lists of older nodes: as they were, unless the new node links there; then they gain it, and are pruned by the
      same rule when that is one too many. */
  lemma InsertRelinks(k: Kernel, g: Graph, vector: Vec, attrs: Attrs, l: nat, x: nat)
    requires Valid(g) && InsertNode(k, g, vector, attrs).1.Ok? && x < Size(g)
    ensures var h := InsertNode(k, g, vector, attrs).0;
            if x in Neighbors(h, Size(g), l)
            then ListChosen(h, k.dist, x, l, Neighbors(g, x, l) + [Size(g)], Neighbors(h, x, l))
            else Neighbors(h, x, l) == Neighbors(g, x, l)
  {
    hide InsertNode, Placed, ListChosen, Extends, LayerCandidates, Select, Connect, Neighbors;
    var h := InsertNode(k, g, vector, attrs).0;
    if g.entry.Some? && l <= LevelOf(k, g) && l <= g.maxLayer {
      NotRefused(k, g, vector, attrs);
      var m, seeds := PlacedAt(k, g, vector, attrs, l);
      ReachedExtends(k, g, vector, attrs, m, l, seeds);
      ReachedSize(Placed(k, g, vector, attrs), m, Size(g), l, seeds);
      CandidatesPool(g, m, k.dist, vector, l, seeds);
      ConnectChosen(m, k.dist, Size(g), l, LayerCandidates(m, k.dist, Size(g), l, seeds));
      ShareVectors(k, g, vector, attrs, m, l);
      ExtendsLists(g, m, vector, l, x);
      if x in Neighbors(h, Size(g), l) {
        SameChosen(m, h, k.dist, x, l, Neighbors(g, x, l) + [Size(g)], Neighbors(h, x, l));
      }
    } else {
      UnsharedLayer(k, g, vector, attrs, l, x);
    }
  }

  lemma UnsharedLayer(k: Kernel, g: Graph, vector: Vec, attrs: Attrs, l: nat, x: nat)
    requires Valid(g) && InsertNode(k, g, vector, attrs).1.Ok? && x < Size(g)
    requires g.entry.None? || l > LevelOf(k, g) || l > g.maxLayer
    ensures var h := InsertNode(k, g, vector, attrs).0;
            Neighbors(h, Size(g), l) == [] && Neighbors(h, x, l) == Neighbors(g, x, l)
  {
    hide ConnectDown, DescendTo, Building;
    var placed, level := Placed(k, g, vector, attrs), LevelOf(k, g);
    PlacedLists(k, g, vector, attrs, x, l);
    Linking.NewLists(k, g, vector, attrs, l);
    if g.entry.Some? {
      var e := g.entry.value;
      PlacedBuilds(k, g, vector, attrs, e);
      Linking.ConnectDownAnswers(placed, k.dist, Size(g), e, Min(level, g.maxLayer) + 1,
                                 [DescendTo(placed, k.dist, vector, g.maxLayer, level, e)]);
    }
  }

  /** The nodes that have this layer. */
  ghost function NodesOn(g: Graph, l: nat): set<nat> { set x | x in Ids(Size(g)) && LinkOk(g, l, x) }

  /** Every node of this layer is linked, however far, to every other. */
  ghost predicate LayerConnected(g: Graph, l: nat) {
    forall a: nat, b: nat :: LinkOk(g, l, a) && LinkOk(g, l, b) ==> Reachable(LayerOf(g, l), [a], b)
  }

  lemma ReachesLayer(g: Graph, m: Graph, dist: Distance, vector: Vec, l: nat, seeds: seq<nat>)
    requires Valid(g) && Extends(g, m, vector, l) && LayerConnected(g, l) && InRange(m)
    requires seeds != [] && forall x :: x in seeds ==> LinkOk(g, l, x)
    ensures ReachSet(BuildProbe(m, dist, vector, l), seeds) == NodesOn(g, l)
  {
    hide Extends;
    var p, r := BuildProbe(m, dist, vector, l), ReachSet(BuildProbe(m, dist, vector, l), seeds);
    forall x: nat ensures Adjacent(p, x) == Neighbors(g, x, l) { ExtendsLists(g, m, vector, l, x); }
    assert Size(m) == Size(g) + 1 by { ExtendsSize(g, m, vector, l); }
    forall x, y | x in NodesOn(g, l) && y in Adjacent(p, x) ensures y in NodesOn(g, l) {
      assert ListOk(g, x, l);
      assert LinkOk(g, l, y);
    }
    forall b | b in r ensures b in NodesOn(g, l) {
      var a, n :| a in seeds && Reaches(p, a, b, n);
      ClosedReaches(p, NodesOn(g, l), a, b, n);
    }
    forall b | b in NodesOn(g, l) ensures b in r {
      assert seeds[0] in seeds;
      assert Reachable(LayerOf(g, l), [seeds[0]], b);
      SameReachable(LayerOf(g, l), p, [seeds[0]], b);
      var a, n :| a in [seeds[0]] && Reaches(p, a, b, n);
      assert Reachable(p, seeds, b);
    }
  }

  lemma ExtendsSize(g: Graph, m: Graph, vector: Vec, l: nat)
    requires Extends(g, m, vector, l)
    ensures Size(m) == Size(g) + 1 && m.efConstruction == g.efConstruction && m.vectors[Size(g)] == vector
    ensures (forall id :: !Deleted(g, id)) ==> forall id :: !Deleted(m, id)
  {
    if forall id :: !Deleted(g, id) {
      forall id: nat ensures !Deleted(m, id) { assert !Deleted(g, id); }
    }
  }

  /** With nothing tombstoned and the layer connected, the new node gets as many links there as there are nodes, as the
      pool holds and as the cap allows, whichever is least. */
  lemma InsertedLinkCount(k: Kernel, g: Graph, vector: Vec, attrs: Attrs, l: nat)
    requires Valid(g) && InsertNode(k, g, vector, attrs).1.Ok?
    requires l <= LevelOf(k, g) && l <= g.maxLayer && LayerConnected(g, l) && forall id :: !Deleted(g, id)
    ensures |Neighbors(InsertNode(k, g, vector, attrs).0, Size(g), l)|
         == Min(MaxDegree(g, l), Min(g.efConstruction, |NodesOn(g, l)|))
  {
    hide InsertNode, Placed, Extends, Select, Connect, Neighbors, SearchLayer, LayerConnected;
    if g.entry.None? {
      NoNodes(k, g, vector, attrs, l);
    } else {
      NotRefused(k, g, vector, attrs);
      var m, seeds := PlacedAt(k, g, vector, attrs, l);
      ReachedExtends(k, g, vector, attrs, m, l, seeds);
      ReachedSize(Placed(k, g, vector, attrs), m, Size(g), l, seeds);
      CandidatesPool(g, m, k.dist, vector, l, seeds);
      var w := LayerCandidates(m, k.dist, Size(g), l, seeds);
      ConnectChosen(m, k.dist, Size(g), l, w);
      SelectCount(m, k.dist, w, MaxDegree(m, l));
      ShareVectors(k, g, vector, attrs, m, l);
      ExtendsSize(g, m, vector, l);
      ReachesLayer(g, m, k.dist, vector, l, seeds);
      ReachCount(BuildProbe(m, k.dist, vector, l), seeds, m.efConstruction, UNFILTERED);
    }
  }

  lemma NoNodes(k: Kernel, g: Graph, vector: Vec, attrs: Attrs, l: nat)
    requires Valid(g) && g.entry.None? && InsertNode(k, g, vector, attrs).1.Ok?
    ensures NodesOn(g, l) == {} && Neighbors(InsertNode(k, g, vector, attrs).0, Size(g), l) == []
  {
    Linking.NewLists(k, g, vector, attrs, l);
  }
}
