/** Without a filter, tombstones or a binding beam width, a layer search returns exactly what its seeds reach. */
module SearchReach {
  import opened Base
  import opened Filter
  import opened Candidates
  import opened Graphs
  import opened Search
  import opened SearchBounds

  /** Nothing is filtered or deleted, and the beam could hold every node. */
  ghost predicate Exhaustive(p: Probe, ef: nat) {
    InRange(p.g) && !Filtered(p.pred) && Size(p.g) <= ef && forall id :: !Deleted(p.g, id)
  }

  lemma AllAdmissible(p: Probe, ef: nat, id: nat)
    requires Exhaustive(p, ef)
    ensures Admissible(p, id)
  {
  }

  lemma {:induction false} IdsCount(n: nat)
    ensures |Ids(n)| == n
  {
    if n > 0 {
      IdsCount(n - 1);
      var s := Ids(n - 1);
      assert n - 1 !in s && Ids(n) == s + {n - 1};
    }
  }

  lemma {:induction false} SubsetCount(a: set<nat>, b: set<nat>)
    requires a <= b
    ensures |a| <= |b|
  {
    if a != {} {
      var x :| x in a;
      SubsetCount(a - {x}, b - {x});
    }
  }

  lemma {:induction false} DistinctCount(s: seq<nat>)
    requires Distinct(s)
    ensures |Set(s)| == |s|
  {
    if s != [] {
      SetTail(s);
      DistinctCount(s[1..]);
      forall i | 0 <= i < |s[1..]| ensures s[1..][i] != s[0] { assert s[i + 1] != s[0]; }
    }
  }

  /** Everything scored is held. */
  ghost predicate FullOk(p: Probe, b: Beam) {
    && BeamOk(p, b) && |b.results| == |b.visited|
    && forall v :: v in b.visited ==> Scored(p, v) in b.results
  }

  /** Still to be expanded, or done with. */
  ghost predicate OpenAt(p: Probe, b: Beam, v: nat) {
    v in b.visited ==> Scored(p, v) in b.frontier || Set(Adjacent(p, v)) <= b.visited
  }

  ghost predicate Sweeping(p: Probe, b: Beam) { FullOk(p, b) && forall v :: OpenAt(p, b, v) }

  lemma RoomLeft(p: Probe, b: Beam, id: nat)
    requires Exhaustive(p, b.ef) && FullOk(p, b) && id < Size(p.g) && id !in b.visited
    ensures |b.results| < b.ef
  {
    IdsCount(Size(p.g));
    SubsetCount(b.visited + {id}, Ids(Size(p.g)));
  }

  lemma PushFull(p: Probe, b: Beam, id: nat, t: Budget)
    requires Exhaustive(p, b.ef) && FullOk(p, b) && id < Size(p.g) && id !in b.visited
    requires BeamOk(p, Push(b.(visited := b.visited + {id}, tr := t), Scored(p, id), true))
    ensures var b' := Push(b.(visited := b.visited + {id}, tr := t), Scored(p, id), true);
            && FullOk(p, b')
            && (forall c :: c in b'.frontier <==> c == Scored(p, id) || c in b.frontier)
  {
    RoomLeft(p, b, id);
  }

  lemma VisitFull(p: Probe, id: nat, b: Beam)
    requires Exhaustive(p, b.ef) && FullOk(p, b) && id < Size(p.g)
    ensures FullOk(p, Visit(p, id, b).0) && Visit(p, id, b).0.visited == b.visited + {id}
    ensures forall v :: OpenAt(p, b, v) || (v == id && id !in b.visited) ==> OpenAt(p, Visit(p, id, b).0, v)
  {
    if id !in b.visited {
      RoomLeft(p, b, id);
      AllAdmissible(p, b.ef, id);
      VisitKeepsOk(p, id, b);
      PushFull(p, b, id, Measured(b.tr));
    }
  }

  lemma {:induction false} VisitAllFull(p: Probe, ids: seq<nat>, b: Beam, x: nat)
    requires Exhaustive(p, b.ef) && FullOk(p, b) && Set(ids) <= Ids(Size(p.g))
    requires forall v :: v != x ==> OpenAt(p, b, v)
    ensures FullOk(p, VisitAll(p, ids, b)) && VisitAll(p, ids, b).visited == b.visited + Set(ids)
    ensures forall v :: v != x ==> OpenAt(p, VisitAll(p, ids, b), v)
  {
    hide Visit, OpenAt, Exhaustive, FullOk, Visited;
    if ids != [] {
      SetTail(ids);
      assert ids[0] in Set(ids);
      var c := Visit(p, ids[0], b).0;
      VisitFull(p, ids[0], b);
      VisitVisited(p, ids[0], b);
      forall v | v != x ensures OpenAt(p, c, v) { assert OpenAt(p, b, v); }
      VisitAllFull(p, ids[1..], c, x);
    }
  }

  /** The nearest of the frontier is held, so nothing cuts the walk off. */
  lemma NeverStops(p: Probe, b: Beam)
    requires Exhaustive(p, b.ef) && FullOk(p, b) && b.frontier != []
    ensures !Stops(p, b.frontier[0], b)
  {
    var c := b.frontier[0];
    assert c in b.frontier && Scored(p, c.id) == c;
    assert c in b.results;
    InLast(b.results, c);
  }

  lemma WalkStepSweeps(p: Probe, b: Beam)
    requires Exhaustive(p, b.ef) && Sweeping(p, b) && b.frontier != []
    ensures Sweeping(p, WalkStep(p, b)) && WalkStep(p, b).ef == b.ef
  {
    var c := b.frontier[0];
    var q := Popped(b).(tr := Spent(p, b.tr));
    PoppedOk(p, b, Spent(p, b.tr));
    AdjacentIn(p, c.id);
    assert b.frontier == [c] + q.frontier;
    forall v | v != c.id ensures OpenAt(p, q, v) { assert OpenAt(p, b, v); }
    VisitAllFull(p, Adjacent(p, c.id), q, c.id);
    assert WalkStep(p, b) == VisitAll(p, Adjacent(p, c.id), q);
    VisitAllVisited(p, Adjacent(p, c.id), q);
    forall v ensures OpenAt(p, WalkStep(p, b), v) {}
  }

  lemma {:induction false} WalkSweeps(p: Probe, b: Beam)
    requires Exhaustive(p, b.ef) && Sweeping(p, b)
    ensures Sweeping(p, Walk(p, b)) && Walk(p, b).frontier == [] && b.visited <= Walk(p, b).visited
    decreases Measure(p, b)
  {
    if b.frontier != [] {
      NeverStops(p, b);
      WalkStepSweeps(p, b);
      WalkStepOk(p, b);
      WalkStepMeasure(p, b);
      WalkSweeps(p, WalkStep(p, b));
    }
  }

  lemma SeedSweeps(p: Probe, id: nat, b: Beam)
    requires Exhaustive(p, b.ef) && Sweeping(p, b) && id < Size(p.g)
    ensures Sweeping(p, Seed(p, id, b)) && Seed(p, id, b).ef == b.ef
  {
    if id !in b.visited {
      AllAdmissible(p, b.ef, id);
      SeedOk(p, id, b);
      PushFull(p, b, id, Measured(b.tr));
      forall v ensures OpenAt(p, Seed(p, id, b), v) { assert OpenAt(p, b, v); }
    }
  }

  lemma {:induction false} SeedAllSweeps(p: Probe, ids: seq<nat>, b: Beam)
    requires Exhaustive(p, b.ef) && Sweeping(p, b) && forall x :: x in ids ==> x < Size(p.g)
    ensures Sweeping(p, SeedAll(p, ids, b)) && SeedAll(p, ids, b).ef == b.ef
  {
    if ids != [] {
      assert ids[0] in ids && forall x :: x in ids[1..] ==> x in ids;
      SeedSweeps(p, ids[0], b);
      SeedAllSweeps(p, ids[1..], Seed(p, ids[0], b));
    }
  }

  // --- reachability ---------------------------------------------------------------------

  /** `b` is `n` links away from `a` on this layer. */
  ghost predicate Reaches(p: Probe, a: nat, b: nat, n: nat)
    decreases n
  {
    if n == 0 then a == b else exists x :: x in Adjacent(p, a) && Reaches(p, x, b, n - 1)
  }

  ghost predicate Reachable(p: Probe, seeds: seq<nat>, b: nat) { exists a, n :: a in seeds && Reaches(p, a, b, n) }

  lemma {:induction false} ClosedReaches(p: Probe, s: set<nat>, a: nat, b: nat, n: nat)
    requires Closed(p, s) && a in s && Reaches(p, a, b, n)
    ensures b in s
    decreases n
  {
    if n > 0 {
      var x :| x in Adjacent(p, a) && Reaches(p, x, b, n - 1);
      ClosedReaches(p, s, x, b, n - 1);
    }
  }

  lemma {:induction false} ReachesNext(p: Probe, a: nat, b: nat, n: nat, y: nat)
    requires Reaches(p, a, b, n) && y in Adjacent(p, b)
    ensures Reaches(p, a, y, n + 1)
    decreases n
  {
    if n == 0 {
      assert Reaches(p, y, y, 0);
    } else {
      var x :| x in Adjacent(p, a) && Reaches(p, x, b, n - 1);
      ReachesNext(p, x, b, n - 1, y);
    }
  }

  /** Reachability is a matter of one layer's links. */
  lemma {:induction false} SameReaches(p: Probe, q: Probe, a: nat, b: nat, n: nat)
    requires (forall x: nat :: Adjacent(q, x) == Adjacent(p, x)) && Reaches(p, a, b, n)
    ensures Reaches(q, a, b, n)
    decreases n
  {
    if n > 0 {
      var x :| x in Adjacent(p, a) && Reaches(p, x, b, n - 1);
      SameReaches(p, q, x, b, n - 1);
    }
  }

  lemma SameReachable(p: Probe, q: Probe, seeds: seq<nat>, b: nat)
    requires (forall x: nat :: Adjacent(q, x) == Adjacent(p, x)) && Reachable(p, seeds, b)
    ensures Reachable(q, seeds, b)
  {
    var a, n :| a in seeds && Reaches(p, a, b, n);
    SameReaches(p, q, a, b, n);
  }

  ghost function ReachSet(p: Probe, seeds: seq<nat>): set<nat> {
    set x | x in Ids(Size(p.g)) && Reachable(p, seeds, x)
  }

  lemma ReachSetClosed(p: Probe, seeds: seq<nat>)
    requires InRange(p.g) && forall x :: x in seeds ==> x < Size(p.g)
    ensures Closed(p, ReachSet(p, seeds)) && Set(seeds) <= ReachSet(p, seeds)
  {
    forall x, y | x in ReachSet(p, seeds) && y in Adjacent(p, x) ensures y in ReachSet(p, seeds) {
      assert y in Neighbors(p.g, x, p.layer);
      var a, n :| a in seeds && Reaches(p, a, x, n);
      ReachesNext(p, a, x, n, y);
    }
    forall x | x in seeds ensures x in ReachSet(p, seeds) { assert Reaches(p, x, x, 0); }
  }

  /** The search returns precisely the nodes its seeds reach, each scored, in (distance, id) order. */
  lemma SearchLayerReach(p: Probe, seeds: seq<nat>, ef: nat, tr: Budget)
    requires Exhaustive(p, ef) && forall x :: x in seeds ==> x < Size(p.g)
    ensures var out := SearchLayer(p, seeds, ef, tr).0;
            && Sorted(out)
            && forall c :: c in out <==> c.id < Size(p.g) && c == Scored(p, c.id) && Reachable(p, seeds, c.id)
  {
    var b := LayerBeam(p, seeds, ef, tr);
    SeedAllSweeps(p, seeds, NewBeam(ef, tr));
    WalkSweeps(p, SeedAll(p, seeds, NewBeam(ef, tr)));
    assert Rounds(p, SeedAll(p, seeds, NewBeam(ef, tr))) == Walk(p, SeedAll(p, seeds, NewBeam(ef, tr)));
    SearchLayerSound(p, seeds, ef, tr);
    assert Closed(p, b.visited) by {
      forall x, y | x in b.visited && y in Adjacent(p, x) ensures y in b.visited { assert OpenAt(p, b, x); }
    }
    ReachSetClosed(p, seeds);
    SearchLayerWithin(p, seeds, ef, tr, ReachSet(p, seeds));
    forall v: nat | v < Size(p.g) && Reachable(p, seeds, v) ensures Scored(p, v) in b.results {
      var a, n :| a in seeds && Reaches(p, a, v, n);
      assert a in Set(seeds);
      ClosedReaches(p, b.visited, a, v, n);
    }
  }
}
