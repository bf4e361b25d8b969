/** When a layer search may stop: nothing it returns has a neighbor that belongs there and was left out. */
module SearchOptimal {
  import opened Base
  import opened Filter
  import opened Candidates
  import opened Graphs
  import opened Search
  import opened SearchBounds
  import opened BeamSteps
  import opened Queries

  // --- what is held is still to be expanded, or has been ---------------------------------------

  /** Every neighbor that may be returned has been scored. */
  ghost predicate Explored(p: Probe, b: Beam, v: nat) {
    forall y: nat :: y in Adjacent(p, v) && Admissible(p, y) ==> y in b.visited
  }

  /** A result; or, while there is none, any node scored. */
  ghost predicate Pivotal(p: Probe, b: Beam, v: nat) {
    Scored(p, v) in b.results || (b.results == [] && v in b.visited)
  }

  ghost predicate HeldAt(p: Probe, b: Beam, v: nat, x: Option<nat>) {
    Pivotal(p, b, v) && Some(v) != x ==> Scored(p, v) in b.frontier || Explored(p, b, v)
  }

  /** But for `x`, if any. */
  ghost predicate HeldOpen(p: Probe, b: Beam, x: Option<nat>) { forall v: nat :: HeldAt(p, b, v, x) }

  ghost predicate AddsAt(p: Probe, a: Beam, b: Beam, v: nat) {
    && (v in a.visited ==> v in b.visited)
    && (Scored(p, v) in a.frontier ==> Scored(p, v) in b.frontier)
    && (Pivotal(p, b, v) ==> Pivotal(p, a, v) || Scored(p, v) in b.frontier)
  }

  /** Whatever joins the results, or the nodes scored in vain, joins the frontier, and nothing leaves it. */
  ghost predicate Adds(p: Probe, a: Beam, b: Beam) { forall v: nat :: AddsAt(p, a, b, v) }

  ghost function Adding(p: Probe): Relation { (a: Beam, b: Beam) => Adds(p, a, b) }

  lemma AddsTrans(p: Probe, a: Beam, b: Beam, c: Beam)
    requires Adds(p, a, b) && Adds(p, b, c)
    ensures Adds(p, a, c)
  {
    forall v: nat ensures AddsAt(p, a, c, v) { assert AddsAt(p, a, b, v) && AddsAt(p, b, c, v); }
  }

  lemma PushShrinksNot(b: Beam, c: Cand, adm: bool)
    ensures |Push(b, c, adm).results| >= |b.results|
  {
  }

  lemma PushAdds(p: Probe, b: Beam, id: nat, adm: bool, t: Budget)
    ensures Adds(p, b, Push(b.(visited := b.visited + {id}, tr := t), Scored(p, id), adm))
  {
    var c := Push(b.(visited := b.visited + {id}, tr := t), Scored(p, id), adm);
    assert c.results == [] ==> b.results == [] by { PushShrinksNot(b, Scored(p, id), adm); }
    forall v: nat ensures AddsAt(p, b, c, v) {
      if Scored(p, v) in c.results && adm { KeptIn(Insert(b.results, Scored(p, id)), b.ef, Scored(p, v)); }
    }
  }

  lemma SameAdds(p: Probe, a: Beam, b: Beam)
    requires a.visited <= b.visited && b.frontier == a.frontier && b.results == a.results
    requires a.results != [] || b.visited == a.visited
    ensures Adds(p, a, b)
  {
  }

  lemma VisitAdds(p: Probe, id: nat, b: Beam)
    ensures Adds(p, b, Visit(p, id, b).0)
    ensures Payable(p, id, b) ==> Adds(p, b, PaidVisit(p, id, b))
  {
    hide Adds, Push;
    var c := Visit(p, id, b).0;
    PushAdds(p, b, id, Admissible(p, id), Measured(b.tr));
    if !Visit(p, id, b).1 { SameAdds(p, b, c); }
    if Payable(p, id, b) {
      SameAdds(p, c, PaidVisit(p, id, b));
      AddsTrans(p, b, c, PaidVisit(p, id, b));
    }
  }

  lemma AddsStepwise(p: Probe)
    ensures Stepwise(p, Adding(p))
  {
    hide Adds, Visit, PaidVisit, Payable;
    var r := Adding(p);
    forall b ensures r(b, b) { SameAdds(p, b, b); }
    forall a, b, c | r(a, b) && r(b, c) ensures r(a, c) { AddsTrans(p, a, b, c); }
    forall id: nat, b | id < Size(p.g) ensures r(b, Visit(p, id, b).0) { VisitAdds(p, id, b); }
    forall id: nat, b | id < Size(p.g) && Payable(p, id, b) ensures r(b, PaidVisit(p, id, b)) { VisitAdds(p, id, b); }
  }

  lemma AddsHeld(p: Probe, a: Beam, b: Beam, x: Option<nat>)
    requires HeldOpen(p, a, x) && Adds(p, a, b)
    ensures HeldOpen(p, b, x)
    ensures forall v: nat :: Explored(p, a, v) ==> Explored(p, b, v)
  {
    forall v: nat | Explored(p, a, v) ensures Explored(p, b, v) { AddsExplored(p, a, b, v); }
    forall v: nat ensures HeldAt(p, b, v, x) { assert HeldAt(p, a, v, x) && AddsAt(p, a, b, v); }
  }

  lemma AddsExplored(p: Probe, a: Beam, b: Beam, v: nat)
    requires Adds(p, a, b) && Explored(p, a, v)
    ensures Explored(p, b, v)
  {
    forall y: nat | y in Adjacent(p, v) && Admissible(p, y) ensures y in b.visited { assert AddsAt(p, a, b, y); }
  }

  // --- the walk ------------------------------------------------------------------------------------

  lemma PoppedHeld(p: Probe, b: Beam, t: Budget)
    requires HeldOpen(p, b, None) && b.frontier != []
    ensures HeldOpen(p, Popped(b).(tr := t), Some(b.frontier[0].id))
  {
    var q := Popped(b).(tr := t);
    assert b.frontier == [b.frontier[0]] + q.frontier;
    forall v: nat ensures HeldAt(p, q, v, Some(b.frontier[0].id)) { assert HeldAt(p, b, v, None); }
  }

  lemma NowHeld(p: Probe, b: Beam, x: nat)
    requires HeldOpen(p, b, Some(x)) && Explored(p, b, x)
    ensures HeldOpen(p, b, None)
  {
    forall v: nat ensures HeldAt(p, b, v, None) { assert HeldAt(p, b, v, Some(x)); }
  }

  lemma DeferHeld(p: Probe, b: Beam, d: seq<Cand>)
    requires HeldOpen(p, b, None)
    ensures HeldOpen(p, b.(deferred := d), None)
  {
    forall v: nat ensures HeldAt(p, b.(deferred := d), v, None) { assert HeldAt(p, b, v, None); }
  }

  lemma WalkStepHeld(p: Probe, b: Beam)
    requires InRange(p.g) && HeldOpen(p, b, None) && b.frontier != []
    ensures HeldOpen(p, WalkStep(p, b), None)
  {
    hide HeldOpen, Expand;
    var c := b.frontier[0];
    var q := Popped(b).(tr := Spent(p, b.tr));
    PoppedHeld(p, b, Spent(p, b.tr));
    AddsStepwise(p);
    ExpandSteps(p, Adding(p), c.id, q);
    var e := Expand(p, c.id, q).0;
    AddsHeld(p, q, e, Some(c.id));
    forall y: nat | y in Adjacent(p, c.id) && Admissible(p, y) ensures y in e.visited { ExpandCovers(p, c.id, q, y); }
    NowHeld(p, e, c.id);
    DeferHeld(p, e, e.deferred + [c]);
  }

  /** Out of expansions, a filtered walk is over. */
  ghost predicate Exhausted(p: Probe, b: Beam) { Filtered(p.pred) && b.tr.expansions == 0 }

  ghost predicate AllExplored(p: Probe, b: Beam) { forall v: nat :: Pivotal(p, b, v) ==> Explored(p, b, v) }

  /** A held candidate is never farther than the farthest, so none is in the frontier when the walk breaks off. */
  lemma StoppedExplored(p: Probe, b: Beam)
    requires BeamOk(p, b) && HeldOpen(p, b, None) && b.frontier != [] && Stops(p, b.frontier[0], b) && !Exhausted(p, b)
    ensures AllExplored(p, Popped(b))
  {
    var last := b.results[|b.results| - 1];
    forall v: nat | Pivotal(p, b, v) ensures Explored(p, Popped(b), v) {
      InLast(b.results, Scored(p, v));
      assert HeldAt(p, b, v, None);
      if Scored(p, v) in b.frontier { InFirst(b.frontier, Scored(p, v)); }
      assert Explored(p, b, v);
    }
  }

  lemma InFirst(s: seq<Cand>, x: Cand)
    requires Sorted(s) && x in s
    ensures s[0].dist <= x.dist
  {
  }

  lemma EmptyExplored(p: Probe, b: Beam)
    requires HeldOpen(p, b, None) && b.frontier == []
    ensures AllExplored(p, b)
  {
    forall v: nat | Pivotal(p, b, v) ensures Explored(p, b, v) { assert HeldAt(p, b, v, None); }
  }

  lemma {:induction false} WalkExplores(p: Probe, b: Beam)
    requires InRange(p.g) && BeamOk(p, b) && (HeldOpen(p, b, None) || Exhausted(p, b))
    ensures AllExplored(p, Walk(p, b)) || Exhausted(p, Walk(p, b))
    decreases Measure(p, b)
  {
    hide HeldOpen, BeamOk, AllExplored, WalkStep;
    if b.frontier == [] {
      if HeldOpen(p, b, None) { EmptyExplored(p, b); }
    } else if Stops(p, b.frontier[0], b) {
      if !Exhausted(p, b) { StoppedExplored(p, b); }
    } else {
      WalkStepOk(p, b);
      WalkStepHeld(p, b);
      WalkStepMeasure(p, b);
      WalkExplores(p, WalkStep(p, b));
    }
  }

  lemma ExploredHeld(p: Probe, b: Beam)
    requires AllExplored(p, b)
    ensures HeldOpen(p, b.(deferred := []), None)
  {
    forall v: nat ensures HeldAt(p, b.(deferred := []), v, None) {
      if Pivotal(p, b, v) { assert Explored(p, b, v); }
    }
  }

  // --- the rescue, and the whole search ---------------------------------------------------------------

  lemma {:induction false} RescueAllExpansions(p: Probe, cands: seq<Cand>, b: Beam)
    ensures RescueAll(p, cands, b).0.tr.expansions == b.tr.expansions
  {
    hide BridgeOut;
    if cands != [] && b.tr.detours > 0 {
      BridgeOutVisited(p, Adjacent(p, cands[0].id), b);
      RescueAllExpansions(p, cands[1..], BridgeOut(p, Adjacent(p, cands[0].id), b).0);
    }
  }

  lemma RescuedHeld(p: Probe, w: Beam)
    requires InRange(p.g) && FrontierOk(p, w) && (AllExplored(p, w) || Exhausted(p, w))
    ensures HeldOpen(p, Rescued(p, w).0, None) || Exhausted(p, Rescued(p, w).0)
    ensures !Rescued(p, w).1 && AllExplored(p, w) ==> AllExplored(p, Rescued(p, w).0)
  {
    hide HeldOpen, RescueAll, Adds;
    var w0, r := w.(deferred := []), Rescued(p, w).0;
    RescueAllExpansions(p, Sort(w.deferred), w0);
    if AllExplored(p, w) {
      ExploredHeld(p, w);
      AddsStepwise(p);
      RescueAllSteps(p, Adding(p), Sort(w.deferred), w0);
      AddsHeld(p, w0, r, None);
      if !Rescued(p, w).1 {
        RescueIdle(p, Sort(w.deferred), w0);
        forall v: nat | Pivotal(p, r, v) ensures Explored(p, r, v) { IdleExplored(p, w, r, v); }
      }
    }
  }

  /** A rescue that queued nothing: what it scored it could not queue, so there were results. */
  lemma IdleExplored(p: Probe, w: Beam, r: Beam, v: nat)
    requires AllExplored(p, w) && Adds(p, w.(deferred := []), r) && Pivotal(p, r, v)
    requires r.results == w.results && r.frontier == w.frontier && FrontierOk(p, w)
    ensures Explored(p, r, v)
  {
    assert AddsAt(p, w.(deferred := []), r, v);
    assert Explored(p, w, v);
    AddsExplored(p, w.(deferred := []), r, v);
  }

  lemma {:induction false} RoundsExplores(p: Probe, b: Beam)
    requires InRange(p.g) && BeamOk(p, b) && (HeldOpen(p, b, None) || Exhausted(p, b))
    ensures AllExplored(p, Rounds(p, b)) || Exhausted(p, Rounds(p, b))
    decreases b.tr.detours
  {
    hide HeldOpen, AllExplored, Walk, RescueAll, BeamOk;
    var w := Walk(p, b);
    WalkOk(p, b);
    WalkExplores(p, b);
    if Rescuable(p, w) {
      DeferOk(p, w, []);
      RescueAllOk(p, Sort(w.deferred), w.(deferred := []));
      RescueAllDetours(p, Sort(w.deferred), w.(deferred := []));
      RescueAllExpansions(p, Sort(w.deferred), w.(deferred := []));
      RescuedHeld(p, w);
      if Rescued(p, w).1 { RoundsExplores(p, Rescued(p, w).0); }
    }
  }

  lemma {:induction false} SeedAllHeld(p: Probe, ids: seq<nat>, b: Beam)
    requires HeldOpen(p, b, None)
    ensures HeldOpen(p, SeedAll(p, ids, b), None)
  {
    hide HeldOpen, Push;
    if ids != [] {
      if ids[0] !in b.visited {
        PushAdds(p, b, ids[0], Admissible(p, ids[0]), Measured(b.tr));
        AddsHeld(p, b, Seed(p, ids[0], b), None);
      }
      SeedAllHeld(p, ids[1..], Seed(p, ids[0], b));
    }
  }

  /** Every neighbor of a result that may be returned is returned, or the result is full and holds nothing farther. */
  ghost predicate LocallyNearest(p: Probe, out: seq<Cand>, ef: nat) {
    forall c: Cand, y: nat :: c in out && y in Adjacent(p, c.id) && Admissible(p, y) ==>
      Scored(p, y) in out || (|out| == ef && forall d :: d in out ==> d.dist <= DistanceTo(p, y))
  }

  /** A layer search, filtered or not, stops only where its results cannot be bettered by one more hop, or where its
      allowance of expansions ends. */
  lemma SearchLayerNearest(p: Probe, seeds: seq<nat>, ef: nat, tr: Budget)
    requires InRange(p.g) && forall x :: x in seeds ==> x < Size(p.g)
    requires !Filtered(p.pred) || SearchLayer(p, seeds, ef, tr).1.expansions > 0
    ensures LocallyNearest(p, SearchLayer(p, seeds, ef, tr).0, ef)
  {
    hide HeldOpen, Rounds, SeedAll;
    var b0 := NewBeam(ef, tr);
    assert HeldOpen(p, b0, None) by { NewHeld(p, ef, tr); }
    NewBeamOk(p, ef, tr);
    SeedAllHeld(p, seeds, b0);
    SeedAllOk(p, seeds, b0);
    RoundsExplores(p, SeedAll(p, seeds, b0));
    SearchLayerSound(p, seeds, ef, tr);
    var b, out := LayerBeam(p, seeds, ef, tr), SearchLayer(p, seeds, ef, tr).0;
    forall c: Cand, y: nat | c in out && y in Adjacent(p, c.id) && Admissible(p, y)
      ensures Scored(p, y) in out || (|out| == ef && forall d :: d in out ==> d.dist <= DistanceTo(p, y))
    {
      assert Explored(p, b, c.id);
      assert y in b.visited;
    }
  }

  /** One that comes back with nothing, and not for want of expansions, has scored nothing with a neighbor to return. */
  lemma NothingMissed(p: Probe, seeds: seq<nat>, ef: nat, tr: Budget, x: nat, y: nat)
    requires InRange(p.g) && ef > 0 && forall x :: x in seeds ==> x < Size(p.g)
    requires SearchLayer(p, seeds, ef, tr).0 == []
    requires !Filtered(p.pred) || SearchLayer(p, seeds, ef, tr).1.expansions > 0
    requires x in LayerBeam(p, seeds, ef, tr).visited && (y == x || y in Adjacent(p, x))
    ensures !Admissible(p, y)
  {
    hide HeldOpen, Rounds, SeedAll, Admissible;
    var b0, b := NewBeam(ef, tr), LayerBeam(p, seeds, ef, tr);
    assert HeldOpen(p, b0, None) by { NewHeld(p, ef, tr); }
    NewBeamOk(p, ef, tr);
    SeedAllHeld(p, seeds, b0);
    SeedAllOk(p, seeds, b0);
    RoundsExplores(p, SeedAll(p, seeds, b0));
    SearchLayerSound(p, seeds, ef, tr);
    assert Explored(p, b, x);
    assert y in b.visited && Admissible(p, y) ==> Scored(p, y) in b.results;
  }

  lemma NewHeld(p: Probe, ef: nat, tr: Budget)
    ensures HeldOpen(p, NewBeam(ef, tr), None)
  {
  }
}
