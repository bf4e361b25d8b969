/** What one layer search returns, where it can go and what it may cost. */
module SearchBounds {
  import opened Base
  import opened Filter
  import opened Candidates
  import opened Graphs
  import opened Search

  // --- soundness -------------------------------------------------------------------

  lemma PoppedOk(p: Probe, b: Beam, t: Budget)
    requires BeamOk(p, b) && b.frontier != []
    ensures BeamOk(p, Popped(b).(tr := t))
    ensures b.frontier[0] == Scored(p, b.frontier[0].id) && b.frontier[0].id in b.visited
  {
    var b' := Popped(b).(tr := t);
    assert b.frontier == [b.frontier[0]] + b'.frontier;
    forall v ensures HeldOrFull(p, b', v) { assert HeldOrFull(p, b, v); }
  }

  lemma DeferOk(p: Probe, b: Beam, d: seq<Cand>)
    requires BeamOk(p, b)
    ensures BeamOk(p, b.(deferred := d))
  {
    forall v ensures HeldOrFull(p, b.(deferred := d), v) { assert HeldOrFull(p, b, v); }
  }

  lemma WalkStepOk(p: Probe, b: Beam)
    requires InRange(p.g) && BeamOk(p, b) && b.frontier != []
    ensures BeamOk(p, WalkStep(p, b))
    ensures b.visited <= WalkStep(p, b).visited <= b.visited + TwoHops(p, b.frontier[0].id)
    ensures WalkStep(p, b).ef == b.ef
  {
    var c := b.frontier[0];
    var q := Popped(b).(tr := Spent(p, b.tr));
    PoppedOk(p, b, Spent(p, b.tr));
    ExpandVisited(p, c.id, q);
    TwoHopsIn(p, c.id);
    var e := Expand(p, c.id, q).0;
    DeferOk(p, e, e.deferred + [c]);
  }

  lemma {:induction false} WalkOk(p: Probe, b: Beam)
    requires InRange(p.g) && BeamOk(p, b)
    ensures BeamOk(p, Walk(p, b)) && b.visited <= Walk(p, b).visited && Walk(p, b).ef == b.ef
    decreases Measure(p, b)
  {
    if b.frontier != [] {
      if Stops(p, b.frontier[0], b) {
        PoppedOk(p, b, b.tr);
      } else {
        WalkStepOk(p, b);
        WalkStepMeasure(p, b);
        WalkOk(p, WalkStep(p, b));
      }
    }
  }

  lemma {:induction false} RescueAllOk(p: Probe, cands: seq<Cand>, b: Beam)
    requires InRange(p.g) && BeamOk(p, b)
    ensures var r := RescueAll(p, cands, b).0; BeamOk(p, r) && b.visited <= r.visited && r.ef == b.ef
  {
    if cands != [] && b.tr.detours > 0 {
      BridgeOutVisited(p, Adjacent(p, cands[0].id), b);
      AdjacentIn(p, cands[0].id);
      RescueAllOk(p, cands[1..], BridgeOut(p, Adjacent(p, cands[0].id), b).0);
    }
  }

  lemma AdjacentIn(p: Probe, id: nat)
    requires InRange(p.g)
    ensures Set(Adjacent(p, id)) <= Ids(Size(p.g))
  {
    forall x | x in Adjacent(p, id) ensures x < Size(p.g) { assert x in Neighbors(p.g, id, p.layer); }
  }

  lemma {:induction false} RoundsOk(p: Probe, b: Beam)
    requires InRange(p.g) && BeamOk(p, b)
    ensures BeamOk(p, Rounds(p, b)) && b.visited <= Rounds(p, b).visited && Rounds(p, b).ef == b.ef
    decreases b.tr.detours
  {
    var w := Walk(p, b);
    WalkOk(p, b);
    if Rescuable(p, w) {
      DeferOk(p, w, []);
      RescueAllOk(p, Sort(w.deferred), w.(deferred := []));
      RescueAllDetours(p, Sort(w.deferred), w.(deferred := []));
      if Rescued(p, w).1 { RoundsOk(p, Rescued(p, w).0); }
    }
  }

  lemma SeedOk(p: Probe, id: nat, b: Beam)
    requires BeamOk(p, b) && id < Size(p.g)
    ensures BeamOk(p, Seed(p, id, b)) && Seed(p, id, b).ef == b.ef
    ensures Seed(p, id, b).visited == b.visited + {id}
  {
    if id !in b.visited {
      var b' := Seed(p, id, b);
      PushFrontier(p, b, id, Admissible(p, id));
      if Admissible(p, id) { PushResults(p, b, id); }
      forall v ensures HeldOrFull(p, b', v) {
        assert HeldOrFull(p, b, v);
        if Admissible(p, id) { PushHeld(p, b, id, v); }
      }
    }
  }

  lemma {:induction false} SeedAllOk(p: Probe, ids: seq<nat>, b: Beam)
    requires BeamOk(p, b) && forall x :: x in ids ==> x < Size(p.g)
    ensures BeamOk(p, SeedAll(p, ids, b)) && SeedAll(p, ids, b).ef == b.ef
    ensures SeedAll(p, ids, b).visited == b.visited + Set(ids)
  {
    if ids != [] {
      assert ids[0] in ids && forall x :: x in ids[1..] ==> x in ids;
      SeedOk(p, ids[0], b);
      SeedAllOk(p, ids[1..], Seed(p, ids[0], b));
      SetTail(ids);
    }
  }

  /** What a beam holds of what it scored. */
  lemma BeamHolds(p: Probe, b: Beam)
    requires BeamOk(p, b)
    ensures |b.results| < b.ef ==> forall v :: v in b.visited && Admissible(p, v) ==> Scored(p, v) in b.results
    ensures forall v, c :: v in b.visited && Admissible(p, v) && Scored(p, v) !in b.results && c in b.results ==>
              c.dist <= DistanceTo(p, v)
  {
    forall v | v in b.visited && Admissible(p, v)
      ensures |b.results| < b.ef ==> Scored(p, v) in b.results
      ensures forall c :: Scored(p, v) !in b.results && c in b.results ==> c.dist <= DistanceTo(p, v)
    {
      assert HeldOrFull(p, b, v);
      forall c | Scored(p, v) !in b.results && c in b.results ensures c.dist <= DistanceTo(p, v) {
        InLast(b.results, c);
      }
    }
  }

  /** Results are sorted by (distance, id), distinct, at most `ef`, live and satisfying the predicate. Fewer than `ef`
      are all the admissible nodes ever scored; otherwise none left out is strictly nearer than any returned. */
  lemma SearchLayerSound(p: Probe, seeds: seq<nat>, ef: nat, tr: Budget)
    requires InRange(p.g) && forall x :: x in seeds ==> x < Size(p.g)
    ensures var scored, out := LayerBeam(p, seeds, ef, tr).visited, SearchLayer(p, seeds, ef, tr).0;
            && Set(seeds) <= scored
            && Sorted(out) && |out| <= ef
            && (forall c :: c in out ==>
                  c.id in scored && c.id < Size(p.g) && c == Scored(p, c.id) && Admissible(p, c.id))
            && (|out| < ef ==> forall v :: v in scored && Admissible(p, v) ==> Scored(p, v) in out)
            && (forall v, c :: v in scored && Admissible(p, v) && Scored(p, v) !in out && c in out ==>
                  c.dist <= DistanceTo(p, v))
  {
    hide Rounds, SeedAll, HeldOrFull, Admissible;
    var b0 := NewBeam(ef, tr);
    NewBeamOk(p, ef, tr);
    SeedAllOk(p, seeds, b0);
    RoundsOk(p, SeedAll(p, seeds, b0));
    BeamHolds(p, LayerBeam(p, seeds, ef, tr));
  }

  lemma NewBeamOk(p: Probe, ef: nat, tr: Budget)
    ensures BeamOk(p, NewBeam(ef, tr))
  {
  }

  // --- confinement ---------------------------------------------------------------------

  /** No link of this layer leads out of `s`. */
  ghost predicate Closed(p: Probe, s: set<nat>) { forall x, y :: x in s && y in Adjacent(p, x) ==> y in s }

  lemma {:induction false} WalkWithin(p: Probe, b: Beam, s: set<nat>)
    requires InRange(p.g) && BeamOk(p, b) && Closed(p, s) && b.visited <= s
    requires forall c :: c in b.deferred ==> c.id in s
    ensures Walk(p, b).visited <= s && forall c :: c in Walk(p, b).deferred ==> c.id in s
    decreases Measure(p, b)
  {
    if b.frontier != [] && !Stops(p, b.frontier[0], b) {
      WalkStepOk(p, b);
      WalkStepMeasure(p, b);
      TwoHopsWithin(p, b.frontier[0].id, s);
      ExpandVisited(p, b.frontier[0].id, Popped(b).(tr := Spent(p, b.tr)));
      WalkWithin(p, WalkStep(p, b), s);
    }
  }

  lemma TwoHopsWithin(p: Probe, id: nat, s: set<nat>)
    requires Closed(p, s) && id in s
    ensures TwoHops(p, id) <= s && Set(Adjacent(p, id)) <= s
  {
  }

  lemma {:induction false} RescueAllWithin(p: Probe, cands: seq<Cand>, b: Beam, s: set<nat>)
    requires Closed(p, s) && b.visited <= s && forall c :: c in cands ==> c.id in s
    ensures RescueAll(p, cands, b).0.visited <= s && RescueAll(p, cands, b).0.deferred == b.deferred
  {
    if cands != [] && b.tr.detours > 0 {
      BridgeOutVisited(p, Adjacent(p, cands[0].id), b);
      TwoHopsWithin(p, cands[0].id, s);
      assert cands[0] in cands;
      RescueAllWithin(p, cands[1..], BridgeOut(p, Adjacent(p, cands[0].id), b).0, s);
    }
  }

  lemma {:induction false} RoundsWithin(p: Probe, b: Beam, s: set<nat>)
    requires InRange(p.g) && BeamOk(p, b) && Closed(p, s) && b.visited <= s
    requires forall c :: c in b.deferred ==> c.id in s
    ensures Rounds(p, b).visited <= s
    decreases b.tr.detours
  {
    var w := Walk(p, b);
    WalkOk(p, b);
    WalkWithin(p, b, s);
    if Rescuable(p, w) {
      var w0 := w.(deferred := []);
      DeferOk(p, w, []);
      RescueAllOk(p, Sort(w.deferred), w0);
      RescueAllDetours(p, Sort(w.deferred), w0);
      RescueAllWithin(p, Sort(w.deferred), w0, s);
      if Rescued(p, w).1 { RoundsWithin(p, Rescued(p, w).0, s); }
    }
  }

  /** A search scores nothing outside any set its seeds are in and its links do not leave. */
  lemma SearchLayerWithin(p: Probe, seeds: seq<nat>, ef: nat, tr: Budget, s: set<nat>)
    requires InRange(p.g) && (forall x :: x in seeds ==> x < Size(p.g)) && Closed(p, s) && Set(seeds) <= s
    ensures LayerBeam(p, seeds, ef, tr).visited <= s
    ensures forall c :: c in SearchLayer(p, seeds, ef, tr).0 ==> c.id in s
  {
    SeedAllOk(p, seeds, NewBeam(ef, tr));
    SeedAllDeferred(p, seeds, NewBeam(ef, tr));
    RoundsWithin(p, SeedAll(p, seeds, NewBeam(ef, tr)), s);
    SearchLayerSound(p, seeds, ef, tr);
  }

  lemma {:induction false} SeedAllDeferred(p: Probe, ids: seq<nat>, b: Beam)
    ensures SeedAll(p, ids, b).deferred == b.deferred
  {
    if ids != [] { SeedAllDeferred(p, ids[1..], Seed(p, ids[0], b)); }
  }

  // --- cost ----------------------------------------------------------------------------

  /** Every list fits `w`, and so does `m`. */
  ghost predicate Narrow(p: Probe, w: nat) { p.g.m <= w && forall id :: |Adjacent(p, id)| <= w }

  /** Distances computed, plus what the rescue could still compute from the deferred expansions. */
  function Bill(b: Beam, w: nat): nat { b.tr.cost.distances + w * |b.deferred| }

  /** From `a` to `b`: allowances conserved, and at most `2w` distances for each expansion. */
  ghost predicate Affordable(a: Beam, b: Beam, w: nat) {
    && Conserved(a.tr, b.tr)
    && Bill(b, w) <= Bill(a, w) + 2 * w * (b.tr.cost.expansions - a.tr.cost.expansions)
  }

  lemma AffordableTrans(a: Beam, b: Beam, c: Beam, w: nat)
    requires Affordable(a, b, w) && Affordable(b, c, w)
    ensures Affordable(a, c, w)
  {
    var i, j := b.tr.cost.expansions - a.tr.cost.expansions, c.tr.cost.expansions - b.tr.cost.expansions;
    assert 2 * w * i + 2 * w * j == 2 * w * (i + j);
  }

  lemma WalkStepAffordable(p: Probe, b: Beam, w: nat)
    requires Filtered(p.pred) && Narrow(p, w) && b.frontier != [] && b.tr.expansions > 0
    ensures Affordable(b, WalkStep(p, b), w)
  {
    var c := b.frontier[0];
    var q := Popped(b).(tr := Spent(p, b.tr));
    ExpandVisited(p, c.id, q);
    assert Width(p, c.id) <= w;
    var e := Expand(p, c.id, q).0;
    var r := WalkStep(p, b);
    assert |r.deferred| <= |b.deferred| + 1;
    assert w * |r.deferred| <= w * |b.deferred| + w by { assert w * (|b.deferred| + 1) == w * |b.deferred| + w; }
    assert r.tr.cost.expansions == b.tr.cost.expansions + 1;
  }

  lemma {:induction false} WalkAffordable(p: Probe, b: Beam, w: nat)
    requires InRange(p.g) && Filtered(p.pred) && Narrow(p, w)
    ensures Affordable(b, Walk(p, b), w)
    decreases Measure(p, b)
  {
    if b.frontier != [] && !Stops(p, b.frontier[0], b) {
      WalkStepAffordable(p, b, w);
      WalkStepMeasure(p, b);
      WalkAffordable(p, WalkStep(p, b), w);
      AffordableTrans(b, WalkStep(p, b), Walk(p, b), w);
    }
  }

  lemma Times(w: nat, n: nat)
    ensures w * (n + 1) == w * n + w && 0 <= w * n
  {
  }

  lemma {:induction false} RescueAllCost(p: Probe, cands: seq<Cand>, b: Beam, w: nat)
    requires Narrow(p, w)
    ensures var r := RescueAll(p, cands, b).0;
            && Conserved(b.tr, r.tr) && r.tr.cost.expansions == b.tr.cost.expansions && r.deferred == b.deferred
            && r.tr.cost.distances <= b.tr.cost.distances + w * |cands|
  {
    if cands != [] && b.tr.detours > 0 {
      var c := BridgeOut(p, Adjacent(p, cands[0].id), b).0;
      BridgeOutVisited(p, Adjacent(p, cands[0].id), b);
      RescueAllCost(p, cands[1..], c, w);
      assert |Adjacent(p, cands[0].id)| <= w;
      Times(w, |cands| - 1);
    } else {
      Times(w, |cands|);
    }
  }

  /** Each expansion is rescued at most once, so the rescue is already paid for. */
  lemma {:induction false} RoundsAffordable(p: Probe, b: Beam, w: nat)
    requires InRange(p.g) && Filtered(p.pred) && Narrow(p, w)
    ensures Affordable(b, Rounds(p, b), w)
    decreases b.tr.detours
  {
    var k := Walk(p, b);
    WalkAffordable(p, b, w);
    if Rescuable(p, k) {
      var r := Rescued(p, k).0;
      RescueAllCost(p, Sort(k.deferred), k.(deferred := []), w);
      RescueAllDetours(p, Sort(k.deferred), k.(deferred := []));
      assert Bill(r, w) <= Bill(k, w);
      assert Affordable(k, r, w);
      AffordableTrans(b, k, r, w);
      if Rescued(p, k).1 {
        RoundsAffordable(p, r, w);
        AffordableTrans(b, r, Rounds(p, b), w);
      }
    }
  }

  lemma {:induction false} SeedAllCost(p: Probe, ids: seq<nat>, b: Beam)
    ensures var t := SeedAll(p, ids, b).tr;
            && t.detours == b.tr.detours && t.expansions == b.tr.expansions
            && t.cost.detours == b.tr.cost.detours && t.cost.expansions == b.tr.cost.expansions
            && b.tr.cost.distances <= t.cost.distances <= b.tr.cost.distances + |ids|
  {
    if ids != [] { SeedAllCost(p, ids[1..], Seed(p, ids[0], b)); }
  }

  /** A filtered layer search spends from its allowances, and at most one distance per seed
      plus `2w` per expansion, the rescue loop included. */
  lemma FilteredLayerCost(p: Probe, seeds: seq<nat>, ef: nat, tr: Budget, w: nat)
    requires InRange(p.g) && Filtered(p.pred) && Narrow(p, w)
    ensures var t := SearchLayer(p, seeds, ef, tr).1;
            && Conserved(tr, t)
            && t.cost.distances - tr.cost.distances
               <= |seeds| + 2 * w * (t.cost.expansions - tr.cost.expansions)
  {
    hide Rounds, SeedAll, Narrow, Affordable;
    var b := SeedAll(p, seeds, NewBeam(ef, tr));
    SeedAllCost(p, seeds, NewBeam(ef, tr));
    SeedAllDeferred(p, seeds, NewBeam(ef, tr));
    RoundsAffordable(p, b, w);
    AffordableCost(b, Rounds(p, b), w);
  }

  /** With nothing deferred yet, the bill is the distances. */
  lemma AffordableCost(a: Beam, b: Beam, w: nat)
    requires Affordable(a, b, w) && a.deferred == []
    ensures Conserved(a.tr, b.tr)
    ensures b.tr.cost.distances <= a.tr.cost.distances + 2 * w * (b.tr.cost.expansions - a.tr.cost.expansions)
  {
    Times(w, |b.deferred|);
    assert w * 0 == 0;
  }

  /** An unfiltered layer search draws on no allowance. */
  lemma UnfilteredLayerCost(p: Probe, seeds: seq<nat>, ef: nat, tr: Budget)
    requires InRange(p.g) && !Filtered(p.pred)
    ensures var t := SearchLayer(p, seeds, ef, tr).1;
            && t.detours == tr.detours && t.expansions == tr.expansions && t.cost.detours == tr.cost.detours
            && tr.cost.expansions <= t.cost.expansions
  {
    SeedAllCost(p, seeds, NewBeam(ef, tr));
    UnfilteredWalkCost(p, SeedAll(p, seeds, NewBeam(ef, tr)));
  }

  lemma {:induction false} UnfilteredWalkCost(p: Probe, b: Beam)
    requires InRange(p.g) && !Filtered(p.pred)
    ensures var t := Walk(p, b).tr;
            && t.detours == b.tr.detours && t.expansions == b.tr.expansions && t.cost.detours == b.tr.cost.detours
            && b.tr.cost.expansions <= t.cost.expansions
    decreases Measure(p, b)
  {
    if b.frontier != [] && !Stops(p, b.frontier[0], b) {
      ExpandVisited(p, b.frontier[0].id, Popped(b).(tr := Spent(p, b.tr)));
      WalkStepMeasure(p, b);
      UnfilteredWalkCost(p, WalkStep(p, b));
    }
  }
}
