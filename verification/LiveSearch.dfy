/** Tombstones or not, an unfiltered layer search returns something exactly when its seeds reach a live node. */
module LiveSearch {
  import opened Base
  import opened Filter
  import opened Candidates
  import opened Graphs
  import opened Search
  import opened SearchBounds
  import opened SearchReach

  /** Something is held already, or every node scored but `x` is still to be expanded or done with. */
  ghost predicate Seeking(p: Probe, b: Beam, x: Option<nat>) {
    BeamOk(p, b) && b.ef > 0 && (b.results != [] || forall v: nat :: Some(v) != x ==> OpenAt(p, b, v))
  }

  lemma PushHolds(b: Beam, c: Cand, admissible: bool)
    requires b.ef > 0
    ensures b.results != [] ==> Push(b, c, admissible).results != []
    ensures admissible ==> Push(b, c, admissible).results != []
    ensures forall d :: d in Push(b, c, admissible).frontier <==> d == c || d in b.frontier
  {
    assert |Candidates.Insert(b.results, c)| == |b.results| + 1 || c in b.results;
  }

  /** A node seen for the first time while nothing is held joins the frontier. */
  lemma VisitOpens(p: Probe, id: nat, b: Beam, v: nat)
    requires b.ef > 0 && b.results == []
    ensures OpenAt(p, b, v) ==> OpenAt(p, Visit(p, id, b).0, v)
    ensures id !in b.visited ==> OpenAt(p, Visit(p, id, b).0, id)
  {
    PushHolds(b.(visited := b.visited + {id}, tr := Measured(b.tr)), Scored(p, id), Admissible(p, id));
  }

  lemma VisitSeeks(p: Probe, id: nat, b: Beam, x: Option<nat>)
    requires Seeking(p, b, x) && id < Size(p.g)
    ensures Seeking(p, Visit(p, id, b).0, x) && Visit(p, id, b).0.ef == b.ef
  {
    var c := Visit(p, id, b).0;
    VisitKeepsOk(p, id, b);
    VisitVisited(p, id, b);
    if b.results != [] {
      PushHolds(b.(visited := b.visited + {id}, tr := Measured(b.tr)), Scored(p, id), Admissible(p, id));
    } else {
      forall v: nat | Some(v) != x ensures OpenAt(p, c, v) {
        assert OpenAt(p, b, v);
        VisitOpens(p, id, b, v);
      }
    }
  }

  lemma {:induction false} VisitAllSeeks(p: Probe, ids: seq<nat>, b: Beam, x: Option<nat>)
    requires Seeking(p, b, x) && Set(ids) <= Ids(Size(p.g))
    ensures Seeking(p, VisitAll(p, ids, b), x) && VisitAll(p, ids, b).ef == b.ef
  {
    hide Visit, Seeking;
    if ids != [] {
      SetTail(ids);
      assert ids[0] in Set(ids);
      VisitSeeks(p, ids[0], b, x);
      VisitAllSeeks(p, ids[1..], Visit(p, ids[0], b).0, x);
    }
  }

  lemma WalkStepSeeks(p: Probe, b: Beam)
    requires InRange(p.g) && !Filtered(p.pred) && Seeking(p, b, None) && b.frontier != []
    ensures Seeking(p, WalkStep(p, b), None) && WalkStep(p, b).ef == b.ef
  {
    var c := b.frontier[0];
    var q := Popped(b).(tr := Spent(p, b.tr));
    PoppedOk(p, b, Spent(p, b.tr));
    AdjacentIn(p, c.id);
    assert b.frontier == [c] + q.frontier;
    forall v | b.results == [] && v != c.id ensures OpenAt(p, q, v) { assert OpenAt(p, b, v); }
    VisitAllSeeks(p, Adjacent(p, c.id), q, Some(c.id));
    assert WalkStep(p, b) == VisitAll(p, Adjacent(p, c.id), q);
    VisitAllVisited(p, Adjacent(p, c.id), q);
    if WalkStep(p, b).results == [] {
      forall v ensures OpenAt(p, WalkStep(p, b), v) {}
    }
  }

  lemma {:induction false} WalkSeeks(p: Probe, b: Beam)
    requires InRange(p.g) && !Filtered(p.pred) && Seeking(p, b, None)
    ensures Seeking(p, Walk(p, b), None) && (Walk(p, b).results == [] ==> Walk(p, b).frontier == [])
    decreases Measure(p, b)
  {
    if b.frontier != [] {
      if Stops(p, b.frontier[0], b) {
        PoppedOk(p, b, b.tr);
      } else {
        WalkStepSeeks(p, b);
        WalkStepMeasure(p, b);
        WalkSeeks(p, WalkStep(p, b));
      }
    }
  }

  lemma SeedSeeks(p: Probe, id: nat, b: Beam)
    requires Seeking(p, b, None) && id < Size(p.g)
    ensures Seeking(p, Seed(p, id, b), None) && Seed(p, id, b).ef == b.ef
  {
    if id !in b.visited {
      SeedOk(p, id, b);
      PushHolds(b.(visited := b.visited + {id}, tr := Measured(b.tr)), Scored(p, id), Admissible(p, id));
      if b.results == [] {
        forall v ensures OpenAt(p, Seed(p, id, b), v) { assert OpenAt(p, b, v); }
      }
    }
  }

  lemma {:induction false} SeedAllSeeks(p: Probe, ids: seq<nat>, b: Beam)
    requires Seeking(p, b, None) && forall x :: x in ids ==> x < Size(p.g)
    ensures Seeking(p, SeedAll(p, ids, b), None)
  {
    if ids != [] {
      assert ids[0] in ids && forall x :: x in ids[1..] ==> x in ids;
      SeedSeeks(p, ids[0], b);
      SeedAllSeeks(p, ids[1..], Seed(p, ids[0], b));
    }
  }

  /** The seeds reach a node that is not tombstoned. */
  ghost predicate LiveReached(p: Probe, seeds: seq<nat>) {
    exists v: nat :: v < Size(p.g) && !Deleted(p.g, v) && Reachable(p, seeds, v)
  }

  /** A search that ends empty-handed has scored everything its seeds reach. */
  lemma EmptyIsClosed(p: Probe, seeds: seq<nat>, ef: nat, tr: Budget)
    requires InRange(p.g) && !Filtered(p.pred) && ef > 0 && (forall x :: x in seeds ==> x < Size(p.g))
    requires SearchLayer(p, seeds, ef, tr).0 == []
    ensures Closed(p, LayerBeam(p, seeds, ef, tr).visited)
  {
    var b := LayerBeam(p, seeds, ef, tr);
    SeedAllSeeks(p, seeds, NewBeam(ef, tr));
    WalkSeeks(p, SeedAll(p, seeds, NewBeam(ef, tr)));
    assert b == Walk(p, SeedAll(p, seeds, NewBeam(ef, tr)));
    forall x, y | x in b.visited && y in Adjacent(p, x) ensures y in b.visited { assert OpenAt(p, b, x); }
  }

  lemma FindsReached(p: Probe, seeds: seq<nat>, ef: nat, tr: Budget, a: nat, v: nat, n: nat)
    requires InRange(p.g) && !Filtered(p.pred) && ef > 0 && (forall x :: x in seeds ==> x < Size(p.g))
    requires a in seeds && Reaches(p, a, v, n) && !Deleted(p.g, v)
    ensures SearchLayer(p, seeds, ef, tr).0 != []
  {
    var w, scored := SearchLayer(p, seeds, ef, tr).0, LayerBeam(p, seeds, ef, tr).visited;
    SearchLayerSound(p, seeds, ef, tr);
    assert a in Set(seeds) && Admissible(p, v);
    if w == [] {
      EmptyIsClosed(p, seeds, ef, tr);
      ClosedReaches(p, scored, a, v, n);
    }
    assert w == [] ==> v in scored && |w| < ef;
  }

  /** Whatever the filter, nothing live within reach is nothing found. */
  lemma NothingReached(p: Probe, seeds: seq<nat>, ef: nat, tr: Budget)
    requires InRange(p.g) && (forall x :: x in seeds ==> x < Size(p.g)) && !LiveReached(p, seeds)
    ensures SearchLayer(p, seeds, ef, tr).0 == []
  {
    var w := SearchLayer(p, seeds, ef, tr).0;
    assert w != [] ==> w[0] in w;
    SearchLayerSound(p, seeds, ef, tr);
    ReachSetClosed(p, seeds);
    SearchLayerWithin(p, seeds, ef, tr, ReachSet(p, seeds));
  }

  lemma FindsLiveIff(p: Probe, seeds: seq<nat>, ef: nat, tr: Budget)
    requires InRange(p.g) && !Filtered(p.pred) && (forall x :: x in seeds ==> x < Size(p.g))
    ensures SearchLayer(p, seeds, ef, tr).0 != [] <==> ef > 0 && LiveReached(p, seeds)
  {
    SearchLayerSound(p, seeds, ef, tr);
    if !LiveReached(p, seeds) {
      NothingReached(p, seeds, ef, tr);
    } else if ef > 0 {
      var v: nat :| v < Size(p.g) && !Deleted(p.g, v) && Reachable(p, seeds, v);
      var a, n :| a in seeds && Reaches(p, a, v, n);
      FindsReached(p, seeds, ef, tr, a, v, n);
    }
  }

  /** What a search returns is live, so anything it starts from next finds something again. */
  lemma LiveSeed(p: Probe, seeds: seq<nat>, x: nat)
    requires x in seeds && x < Size(p.g) && !Deleted(p.g, x)
    ensures LiveReached(p, seeds)
  {
    assert Reaches(p, x, x, 0);
  }

  // --- what tombstones hide -------------------------------------------------------------------------

  /** Nothing is held but `x`, and all that is queued is farther off. */
  ghost predicate Shielded(p: Probe, b: Beam, x: nat) {
    b.results == [Scored(p, x)] && forall c :: c in b.frontier ==> c.dist > DistanceTo(p, x)
  }

  lemma {:induction false} VisitAllShielded(p: Probe, ids: seq<nat>, b: Beam, x: nat)
    requires Shielded(p, b, x)
    requires forall y :: y in ids ==> Deleted(p.g, y) && DistanceTo(p, y) > DistanceTo(p, x)
    ensures Shielded(p, VisitAll(p, ids, b), x)
  {
    if ids != [] {
      assert ids[0] in ids && forall y :: y in ids[1..] ==> y in ids;
      VisitAllShielded(p, ids[1..], Visit(p, ids[0], b).0, x);
    }
  }

  lemma OneSeed(p: Probe, x: nat, b: Beam)
    ensures SeedAll(p, [x], b) == Seed(p, x, b)
  {
    assert [x][1..] == [] && SeedAll(p, [], Seed(p, x, b)) == Seed(p, x, b);
  }

  /** A live node among farther tombstones is all that an unfiltered search from it finds, however many it may hold and
      whatever lies behind them. */
  lemma TombstonesShield(p: Probe, x: nat, ef: nat, tr: Budget)
    requires InRange(p.g) && !Filtered(p.pred) && ef > 0 && x < Size(p.g) && !Deleted(p.g, x)
    requires forall y :: y in Adjacent(p, x) ==> Deleted(p.g, y) && DistanceTo(p, y) > DistanceTo(p, x)
    ensures SearchLayer(p, [x], ef, tr).0 == [Scored(p, x)]
  {
    hide VisitAll;
    var b := Seed(p, x, NewBeam(ef, tr));
    assert SeedAll(p, [x], NewBeam(ef, tr)) == b by { OneSeed(p, x, NewBeam(ef, tr)); }
    assert b.frontier == [Scored(p, x)] && b.results == [Scored(p, x)];
    var q := Popped(b).(tr := Spent(p, b.tr));
    VisitAllShielded(p, Adjacent(p, x), q, x);
    WalkStepMeasure(p, b);
    var s := WalkStep(p, b);
    assert s == VisitAll(p, Adjacent(p, x), q);
    assert Walk(p, b) == Walk(p, s);
    assert s.frontier != [] ==> s.frontier[0] in s.frontier && Stops(p, s.frontier[0], s);
  }

  // --- one layer of a graph, whatever is asked of it ---------------------------------------------------

  function LayerOf(g: Graph, layer: nat): Probe { Probe(g, (_, _, _) => 0, [], layer, None) }

  /** On this layer the node reaches a live one. */
  ghost predicate LiveFrom(g: Graph, layer: nat, x: nat) { LiveReached(LayerOf(g, layer), [x]) }

  /** Reaching something live depends on the layer's lists and the tombstones alone. */
  lemma SameLive(p: Probe, q: Probe, seeds: seq<nat>)
    requires InRange(p.g) && (forall x :: x in seeds ==> x < Size(p.g)) && Size(p.g) <= Size(q.g)
    requires forall x: nat :: Adjacent(q, x) == Adjacent(p, x)
    requires forall x: nat :: x < Size(p.g) ==> (Deleted(q.g, x) <==> Deleted(p.g, x))
    ensures LiveReached(q, seeds) <==> LiveReached(p, seeds)
  {
    if LiveReached(p, seeds) {
      var v: nat :| v < Size(p.g) && !Deleted(p.g, v) && Reachable(p, seeds, v);
      var a, n :| a in seeds && Reaches(p, a, v, n);
      SameReaches(p, q, a, v, n);
      assert Reachable(q, seeds, v);
    }
    if LiveReached(q, seeds) {
      var v: nat :| v < Size(q.g) && !Deleted(q.g, v) && Reachable(q, seeds, v);
      var a, n :| a in seeds && Reaches(q, a, v, n);
      SameReaches(q, p, a, v, n);
      forall x, y | x in Ids(Size(p.g)) && y in Adjacent(p, x) ensures y in Ids(Size(p.g)) {
        assert y in Neighbors(p.g, x, p.layer);
      }
      ClosedReaches(p, Ids(Size(p.g)), a, v, n);
      assert Reachable(p, seeds, v);
    }
  }

  /** The search of a layer from one node. */
  lemma FindsFromIff(p: Probe, x: nat, ef: nat, tr: Budget)
    requires InRange(p.g) && !Filtered(p.pred) && x < Size(p.g)
    ensures var w := SearchLayer(p, [x], ef, tr).0;
            && (w != [] <==> ef > 0 && LiveFrom(p.g, p.layer, x))
            && (w != [] ==> w[0].id < Size(p.g) && !Deleted(p.g, w[0].id))
            && (!Deleted(p.g, x) ==> LiveFrom(p.g, p.layer, x))
  {
    var w := SearchLayer(p, [x], ef, tr).0;
    FindsLiveIff(p, [x], ef, tr);
    SearchLayerSound(p, [x], ef, tr);
    SameLive(p, LayerOf(p.g, p.layer), [x]);
    assert w != [] ==> w[0] in w;
    if !Deleted(p.g, x) { LiveSeed(LayerOf(p.g, p.layer), [x], x); }
  }

  /** Somewhere on layers `lo` to `hi` the node reaches a live one. */
  ghost predicate LiveWithin(g: Graph, x: nat, lo: nat, hi: nat) {
    exists l: nat :: lo <= l <= hi && LiveFrom(g, l, x)
  }

  lemma LiveWithinTop(g: Graph, x: nat, lo: nat, hi: nat)
    requires lo <= hi
    ensures LiveWithin(g, x, lo, hi) <==> LiveFrom(g, hi, x) || (lo < hi && LiveWithin(g, x, lo, hi - 1))
  {
    if LiveWithin(g, x, lo, hi) {
      var l: nat :| lo <= l <= hi && LiveFrom(g, l, x);
      assert l < hi ==> lo <= l <= hi - 1;
    }
  }
}
