/** A shortfall of insertion: once no live node is in reach of the entry point, no row inserted is either.

    The graph is cut off. New nodes take no link until one draws a level above the top, and no search finds anything. */
module Isolation {
  import opened Base
  import opened Filter
  import opened Candidates
  import opened Graphs
  import opened Search
  import opened SearchBounds
  import opened LiveSearch
  import opened SearchReach
  import opened Queries
  import opened Insertion
  import opened Linking

  /** On no layer does the entry point reach a node that is not tombstoned. */
  ghost predicate Cut(g: Graph) { g.entry.Some? && !LiveAbove(g, 0) }

  lemma CutAt(g: Graph, l: nat)
    requires Cut(g) && l <= g.maxLayer
    ensures !LiveFrom(g, l, g.entry.value)
  {
  }

  ghost predicate AllTombstoned(g: Graph) { forall x: nat :: x < Size(g) ==> Deleted(g, x) }

  /** A vacuum that removes every row cuts the graph off. */
  lemma AllTombstonedIsCut(g: Graph)
    requires AllTombstoned(g) && g.entry.Some?
    ensures Cut(g)
  {
  }

  // --- what searches find --------------------------------------------------------------------

  /** A query's descent ends on a live node exactly when it starts on one or meets one on the way. */
  lemma {:induction false} DescendLive(q: Query, layer: nat, d: Descent)
    requires InRange(q.g) && d.ep < Size(q.g) && !Filtered(q.pred)
    ensures var r := Descend(q, layer, d);
            && r.seeds == d.seeds && r.ep < Size(q.g) && (Deleted(q.g, r.ep) ==> r.ep == d.ep)
            && (!Deleted(q.g, r.ep) <==> !Deleted(q.g, d.ep) || (0 < layer && LiveWithin(q.g, d.ep, 1, layer)))
  {
    hide SearchLayer, LiveWithin, LiveFrom;
    if layer > 0 {
      FindsFromIff(ProbeAt(q, layer, None), d.ep, 1, d.tr);
      LiveWithinTop(q.g, d.ep, 1, layer);
      DescendLive(q, layer - 1, DescendOne(q, layer, d));
    }
  }

  /** With or without a filter, a search of a graph that is cut off meets nothing. */
  lemma {:induction false} DescendsNowhere(q: Query, layer: nat, d: Descent)
    requires InRange(q.g) && Cut(q.g) && layer <= q.g.maxLayer && q.g.entry == Some(d.ep) && d.ep < Size(q.g)
             && d.seeds == []
    ensures Descend(q, layer, d).ep == d.ep && Descend(q, layer, d).seeds == []
  {
    hide SearchLayer, Cut;
    if layer > 0 {
      CutAt(q.g, layer);
      NothingFrom(ProbeAt(q, layer, None), d.ep, 1, d.tr);
      var n := Navigate(q, layer, d);
      assert [n.ep] + n.seeds == [d.ep];
      NothingFrom(ProbeAt(q, layer, q.pred), d.ep, 1, n.tr);
      DescendsNowhere(q, layer - 1, DescendOne(q, layer, d));
    }
  }

  lemma NothingFrom(p: Probe, x: nat, ef: nat, tr: Budget)
    requires InRange(p.g) && x < Size(p.g) && !LiveFrom(p.g, p.layer, x)
    ensures SearchLayer(p, [x], ef, tr).0 == []
  {
    SameLive(LayerOf(p.g, p.layer), p, [x]);
    NothingReached(p, [x], ef, tr);
  }

  ghost predicate FindsNothing(q: Query, k: nat, efSearch: nat)
    requires InRange(q.g)
  {
    SearchInner(q, k, efSearch).Ok? ==> SearchInner(q, k, efSearch).value.0 == []
  }

  /** No search of a graph that is cut off returns anything, filtered or not, whatever its budget. */
  lemma CutFindsNothing(q: Query, k: nat, efSearch: nat)
    requires InRange(q.g) && Cut(q.g) && q.g.entry.value < Size(q.g)
    ensures FindsNothing(q, k, efSearch)
  {
    hide SearchLayer, Descend, Cut;
    if k > 0 && |q.vec| == q.g.dim && q.g.entry.Some? {
      var ef, e := if efSearch >= k then efSearch else k, q.g.entry.value;
      DescendsNowhere(q, q.g.maxLayer, Descent(e, [], if Filtered(q.pred) then BudgetFor(ef) else UNFILTERED));
      var d := Landing(q, e, ef);
      CutAt(q.g, 0);
      assert [d.ep] + d.seeds == [e];
      NothingFrom(ProbeAt(q, 0, q.pred), e, ef, BottomBudget(q, d.tr, ef));
    }
  }

  /** An unfiltered query that asks for something comes back empty exactly when the graph is cut off. */
  lemma SearchEmptyIff(q: Query, k: nat, efSearch: nat)
    requires InRange(q.g) && q.g.entry.Some? && q.g.entry.value < Size(q.g)
    requires !Filtered(q.pred) && |q.vec| == q.g.dim && k > 0
    ensures SearchInner(q, k, efSearch).Ok? && (SearchInner(q, k, efSearch).value.0 == [] <==> Cut(q.g))
  {
    hide SearchLayer, Descend, LiveWithin, LiveFrom;
    var ef, e, g := if efSearch >= k then efSearch else k, q.g.entry.value, q.g;
    DescendLive(q, g.maxLayer, Descent(e, [], UNFILTERED));
    var d := Landing(q, e, ef);
    assert [d.ep] + d.seeds == [d.ep];
    FindsFromIff(ProbeAt(q, 0, q.pred), d.ep, ef, BottomBudget(q, d.tr, ef));
    if g.maxLayer > 0 { LiveWithinSplit(g, e, 0, 0, g.maxLayer); }
    LiveWithinTop(g, e, 0, 0);
    if !Deleted(g, e) { FindsFromIff(LayerOf(g, 0), e, 0, UNFILTERED); LiveWithinSplit(g, e, 0, 0, g.maxLayer); }
  }

  // --- what insertion does ---------------------------------------------------------------------

  lemma ConnectNothing(g: Graph, dist: Distance, id: nat, layer: nat)
    requires Neighbors(g, id, layer) == [] && CapsOk(g)
    ensures Connect(g, dist, id, layer, []) == g
  {
    assert Select(g, dist, [], MaxDegree(g, layer)) == [];
    if id < |g.links| && layer < |g.links[id]| {
      assert g.links[id][layer := []] == g.links[id];
      assert g.links[id := g.links[id]] == g.links;
    }
  }

  lemma {:induction false} ConnectDownNothing(g: Graph, dist: Distance, id: nat, entry: nat, n: nat)
    requires Building(g, id, entry, n, [entry]) && forall l: nat :: Neighbors(g, id, l) == []
    requires forall l: nat :: l < n ==> !LiveFrom(g, l, entry)
    ensures ConnectDown(g, dist, id, entry, n, [entry]) == g
    decreases n
  {
    hide SearchLayer, Connect, LiveFrom;
    if n > 0 {
      BuildingInRange(g, id, entry, n, [entry]);
      BuildingNext(g, dist, id, entry, n, [entry]);
      NothingFrom(BuildProbe(g, dist, g.vectors[id], n - 1), entry, g.efConstruction, UNFILTERED);
      ConnectNothing(g, dist, id, n - 1);
      ConnectDownNothing(g, dist, id, entry, n - 1);
    }
  }

  /** A node inserted into a graph that is cut off is stored and linked to nothing; one that draws a level above the top
      at least becomes the entry point. */
  lemma InsertsIsolated(k: Kernel, g: Graph, vector: Vec, attrs: Attrs)
    requires Valid(g) && Refusal(g, vector).None? && Cut(g)
    ensures InsertNode(k, g, vector, attrs)
            == (Crowned(Placed(k, g, vector, attrs), Size(g), LevelOf(k, g)), Ok(Size(g)))
  {
    hide ConnectDown, DescendTo, ListsOk, Building, LiveFrom, LiveWithin;
    var placed, e := Placed(k, g, vector, attrs), g.entry.value;
    PlacedBuilds(k, g, vector, attrs, e);
    forall l: nat | l <= g.maxLayer
      ensures !LiveFrom(placed, l, e)
    {
      CutAt(g, l);
      PlacedLive(k, g, vector, attrs, l, e);
    }
    forall l: nat ensures Neighbors(placed, Size(g), l) == [] { NewLists(k, g, vector, attrs, l); }
    StaysPut(k, g, vector, attrs, e);
    ConnectDownNothing(placed, k.dist, Size(g), e, Min(LevelOf(k, g), g.maxLayer) + 1);
  }

  lemma StaysPut(k: Kernel, g: Graph, vector: Vec, attrs: Attrs, e: nat)
    requires Valid(g) && Refusal(g, vector).None? && Cut(g) && g.entry == Some(e)
    ensures var placed := Placed(k, g, vector, attrs);
            InRange(placed) && DescendTo(placed, k.dist, vector, g.maxLayer, LevelOf(k, g), e) == e
  {
    hide DescendTo, ListsOk, LiveFrom, LiveWithin;
    var placed, level := Placed(k, g, vector, attrs), LevelOf(k, g);
    PlacedSound(k, g, vector, attrs);
    DescendToLive(placed, k.dist, vector, g.maxLayer, level, e);
    EntryDead(g);
    PlacedLiveWithin(k, g, vector, attrs, level + 1, g.maxLayer, e);
    if level < g.maxLayer { LiveWithinSplit(g, e, 0, level, g.maxLayer); }
  }

  lemma EntryDead(g: Graph)
    requires Valid(g) && Cut(g)
    ensures Deleted(g, g.entry.value)
  {
    ValidInRange(g);
    CutAt(g, 0);
    FindsFromIff(LayerOf(g, 0), g.entry.value, 0, UNFILTERED);
  }

  /** The graph stays cut off until a level above the top is drawn, and not beyond. */
  lemma CutKeptIff(k: Kernel, g: Graph, vector: Vec, attrs: Attrs)
    requires Valid(g) && Refusal(g, vector).None? && Cut(g)
    ensures var h := InsertNode(k, g, vector, attrs).0;
            && (Cut(h) <==> LevelOf(k, g) <= g.maxLayer) && Size(h) == Size(g) + 1
            && (forall l: nat :: Neighbors(h, Size(g), l) == [])
            && (forall x: nat, l: nat :: x < Size(g) ==> Neighbors(h, x, l) == Neighbors(g, x, l))
  {
    hide InsertNode, LiveFrom, LiveWithin, ListsOk;
    InsertsIsolated(k, g, vector, attrs);
    var placed, h, id := Placed(k, g, vector, attrs), InsertNode(k, g, vector, attrs).0, Size(g);
    forall x: nat, l: nat ensures Neighbors(h, x, l) == Neighbors(g, x, l) && id !in Neighbors(g, x, l) {
      PlacedLists(k, g, vector, attrs, x, l);
    }
    forall l: nat ensures Neighbors(h, id, l) == [] { NewLists(k, g, vector, attrs, l); }
    PlacedLiveWithin(k, g, vector, attrs, 0, g.maxLayer, g.entry.value);
    if LevelOf(k, g) > g.maxLayer { LiveEntry(h); }
  }

  lemma LiveEntry(g: Graph)
    requires g.entry.Some? && g.entry.value < Size(g) && !Deleted(g, g.entry.value)
    ensures !Cut(g)
  {
    LiveSeed(LayerOf(g, g.maxLayer), [g.entry.value], g.entry.value);
    assert LiveFrom(g, g.maxLayer, g.entry.value);
  }

  /** Tombstoning more nodes leaves a graph cut off. */
  lemma BuryKeepsCut(g: Graph, h: Graph)
    requires Cut(g) && h == g.(deleted := h.deleted) && forall x: nat :: Deleted(g, x) ==> Deleted(h, x)
    ensures Cut(h)
  {
    forall l: nat | l <= g.maxLayer ensures !LiveFrom(h, l, h.entry.value) {
      CutAt(g, l);
      if LiveFrom(h, l, h.entry.value) { BuryLive(g, h, l); }
    }
  }

  lemma BuryLive(g: Graph, h: Graph, l: nat)
    requires h == g.(deleted := h.deleted) && (forall x: nat :: Deleted(g, x) ==> Deleted(h, x))
    requires g.entry.Some? && LiveFrom(h, l, g.entry.value)
    ensures LiveFrom(g, l, g.entry.value)
  {
    var p, q, e := LayerOf(h, l), LayerOf(g, l), g.entry.value;
    var v: nat :| v < Size(h) && !Deleted(h, v) && Reachable(p, [e], v);
    var a, n :| a in [e] && Reaches(p, a, v, n);
    SameReaches(p, q, a, v, n);
    assert Reachable(q, [e], v);
  }

  // --- the row's own fate ------------------------------------------------------------------------

  lemma OnlyFound(p: Probe, id: nat, ef: nat, tr: Budget)
    requires InRange(p.g) && id < Size(p.g) && Adjacent(p, id) == [] && Admissible(p, id) && ef > 0
    ensures SearchLayer(p, [id], ef, tr).0 == [Scored(p, id)]
  {
    hide SearchLayer;
    SearchLayerSound(p, [id], ef, tr);
    SearchLayerWithin(p, [id], ef, tr, {id});
    var w := SearchLayer(p, [id], ef, tr).0;
    assert id in Set([id]);
    assert w != [] by { assert |w| < ef ==> Scored(p, id) in w; }
    forall i | 0 <= i < |w| ensures w[i] == Scored(p, id) { assert w[i] in w; }
    assert |w| > 1 ==> Before(w[0], w[1]);
  }

  ghost predicate Linkless(g: Graph, id: nat) { forall l: nat :: Neighbors(g, id, l) == [] }

  lemma {:induction false} DescendsOnto(q: Query, id: nat, layer: nat, d: Descent)
    requires InRange(q.g) && id < Size(q.g) && Linkless(q.g, id) && !Deleted(q.g, id) && q.pred.None?
    requires d.ep == id && d.seeds == []
    ensures Descend(q, layer, d).ep == id && Descend(q, layer, d).seeds == []
  {
    hide SearchLayer;
    if layer > 0 {
      OnlyFound(ProbeAt(q, layer, None), id, 1, d.tr);
      DescendsOnto(q, id, layer - 1, DescendOne(q, layer, d));
    }
  }

  lemma SearchFindsIt(q: Query, id: nat, k: nat, efSearch: nat)
    requires InRange(q.g) && id < Size(q.g) && Linkless(q.g, id) && !Deleted(q.g, id) && q.pred.None?
    requires q.g.entry == Some(id) && |q.vec| == q.g.dim && k > 0
    ensures SearchInner(q, k, efSearch).Ok? && SearchInner(q, k, efSearch).value.0 == [Scored(ProbeAt(q, 0, None), id)]
  {
    hide SearchLayer, Descend;
    var ef := if efSearch >= k then efSearch else k;
    DescendsOnto(q, id, q.g.maxLayer, Descent(id, [], UNFILTERED));
    var d := Landing(q, id, ef);
    assert [d.ep] + d.seeds == [id];
    OnlyFound(ProbeAt(q, 0, None), id, ef, BottomBudget(q, d.tr, ef));
  }

  /** The graph an insertion into one that is cut off leaves. */
  lemma AfterInsert(kernel: Kernel, g: Graph, vector: Vec, attrs: Attrs)
    requires Valid(g) && Refusal(g, vector).None? && Cut(g)
    ensures var h := InsertNode(kernel, g, vector, attrs).0;
            && InRange(h) && Size(h) == Size(g) + 1 && !Deleted(h, Size(g)) && h.vectors[Size(g)] == vector
            && h.dim == |vector| && h.metric == g.metric && Linkless(h, Size(g))
            && h.entry == if LevelOf(kernel, g) > g.maxLayer then Some(Size(g)) else g.entry
  {
    hide ListsOk, InsertNode, LiveWithin, LiveFrom;
    InsertsIsolated(kernel, g, vector, attrs);
    PlacedSound(kernel, g, vector, attrs);
    CutKeptIff(kernel, g, vector, attrs);
    CrownedInRange(Placed(kernel, g, vector, attrs), Size(g), LevelOf(kernel, g));
  }

  lemma CrownedInRange(g: Graph, id: nat, level: nat)
    requires InRange(g)
    ensures InRange(Crowned(g, id, level))
  {
    var h := Crowned(g, id, level);
    forall x: nat, l: nat, t | t in Neighbors(h, x, l)
      ensures t < Size(h)
    {
      assert Neighbors(h, x, l) == Neighbors(g, x, l);
    }
  }

  /** The row inserted into a graph that is cut off is live and in the exact ranking; a search, whatever its budget,
      finds it, and it alone, exactly when it drew a level above the top. */
  lemma InsertedRowFoundIff(kernel: Kernel, g: Graph, vector: Vec, attrs: Attrs, vec: Vec, k: nat, efSearch: nat)
    requires Valid(g) && Refusal(g, vector).None? && Cut(g) && |vec| == |vector| && k > 0
    ensures InRange(InsertNode(kernel, g, vector, attrs).0)
    ensures var q := Query(InsertNode(kernel, g, vector, attrs).0, kernel.dist, vec, None);
            var row := Cand(kernel.dist(g.metric, vec, vector), Size(g));
            && SearchInner(q, k, efSearch).Ok?
            && SearchInner(q, k, efSearch).value.0 == (if LevelOf(kernel, g) > g.maxLayer then [row] else [])
            && BruteForce(q, Size(q.g)).Ok? && row in BruteForce(q, Size(q.g)).value
  {
    hide InsertNode, SearchInner, LiveWithin, LiveFrom, ListsOk;
    AfterInsert(kernel, g, vector, attrs);
    CutKeptIff(kernel, g, vector, attrs);
    var q := Query(InsertNode(kernel, g, vector, attrs).0, kernel.dist, vec, None);
    if LevelOf(kernel, g) > g.maxLayer { SearchFindsIt(q, Size(g), k, efSearch); }
    else { SearchEmptyIff(q, k, efSearch); }
    LiveIsRanked(q, Size(g));
  }

  lemma {:induction false} LiveScoredCount(p: Probe, n: nat)
    ensures |LiveScored(p, n)| <= n
  {
    if n > 0 { LiveScoredCount(p, n - 1); }
  }

  lemma LiveIsRanked(q: Query, id: nat)
    requires id < Size(q.g) && !Deleted(q.g, id) && |q.vec| == q.g.dim
    ensures BruteForce(q, Size(q.g)).Ok? && Scored(ProbeAt(q, 0, None), id) in BruteForce(q, Size(q.g)).value
  {
    var p := ProbeAt(q, 0, None);
    LiveScoredIs(p, Size(q.g));
    LiveScoredCount(p, Size(q.g));
  }
}
