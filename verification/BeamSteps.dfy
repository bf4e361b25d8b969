/** Every part of a layer search is a run of visits, some of them paid for: what each visit keeps, all of it keeps. */
module BeamSteps {
  import opened Base
  import opened Filter
  import opened Candidates
  import opened Graphs
  import opened Search
  import opened SearchBounds

  /** A visit that queued its node, charged to the detour allowance. */
  predicate Payable(p: Probe, id: nat, b: Beam) { Visit(p, id, b).1 && Visit(p, id, b).0.tr.detours > 0 }

  function PaidVisit(p: Probe, id: nat, b: Beam): Beam
    requires Payable(p, id, b)
  {
    Visit(p, id, b).0.(tr := Charged(Visit(p, id, b).0.tr))
  }

  type Relation = (Beam, Beam) -> bool

  ghost predicate Preorder(r: Relation) {
    (forall b :: r(b, b)) && forall a, b, c :: r(a, b) && r(b, c) ==> r(a, c)
  }

  ghost predicate Stepwise(p: Probe, r: Relation) {
    && Preorder(r)
    && (forall id: nat, b :: id < Size(p.g) ==> r(b, Visit(p, id, b).0))
    && (forall id: nat, b :: id < Size(p.g) && Payable(p, id, b) ==> r(b, PaidVisit(p, id, b)))
  }

  predicate Within(p: Probe, ids: seq<nat>) { forall x :: x in ids ==> x < Size(p.g) }

  lemma WithinTail(p: Probe, ids: seq<nat>)
    requires Within(p, ids) && ids != []
    ensures Within(p, ids[1..]) && ids[0] < Size(p.g)
  {
    assert ids[0] in ids && forall x :: x in ids[1..] ==> x in ids;
  }

  lemma AdjacentWithin(p: Probe, id: nat)
    requires InRange(p.g)
    ensures Within(p, Adjacent(p, id))
  {
    forall x | x in Adjacent(p, id) ensures x < Size(p.g) { assert x in Neighbors(p.g, id, p.layer); }
  }

  lemma {:induction false} VisitAllSteps(p: Probe, r: Relation, ids: seq<nat>, b: Beam)
    requires Stepwise(p, r) && Within(p, ids)
    ensures r(b, VisitAll(p, ids, b))
  {
    hide Visit, Within;
    if ids != [] {
      WithinTail(p, ids);
      VisitAllSteps(p, r, ids[1..], Visit(p, ids[0], b).0);
    }
  }

  lemma {:induction false} ClassifySteps(p: Probe, r: Relation, ids: seq<nat>, c: Classified)
    requires Stepwise(p, r) && Within(p, ids)
    ensures r(c.beam, Classify(p, ids, c).beam)
  {
    hide Visit, Within, NodeMatches;
    if ids != [] {
      WithinTail(p, ids);
      if NodeMatches(p, ids[0]) {
        ClassifySteps(p, r, ids[1..], Classified(Visit(p, ids[0], c.beam).0, c.matching + 1, c.bridges));
      } else {
        ClassifySteps(p, r, ids[1..], if |c.bridges| < p.g.m then c.(bridges := c.bridges + [ids[0]]) else c);
      }
    }
  }

  lemma {:induction false} HopOverSteps(p: Probe, r: Relation, ids: seq<nat>, c: Classified)
    requires Stepwise(p, r) && Within(p, ids)
    ensures r(c.beam, HopOver(p, ids, c).beam)
  {
    hide Visit, Within, NodeMatches;
    if ids != [] && c.matching < p.g.m {
      WithinTail(p, ids);
      if NodeMatches(p, ids[0]) {
        HopOverSteps(p, r, ids[1..], Classified(Visit(p, ids[0], c.beam).0, c.matching + 1, c.bridges));
      } else {
        HopOverSteps(p, r, ids[1..], c);
      }
    }
  }

  lemma {:induction false} HopAllSteps(p: Probe, r: Relation, bridges: seq<nat>, c: Classified)
    requires Stepwise(p, r) && InRange(p.g)
    ensures r(c.beam, HopAll(p, bridges, c).beam)
  {
    hide Visit, Within, HopOver, Adjacent;
    if bridges != [] && c.matching < p.g.m {
      AdjacentWithin(p, bridges[0]);
      HopOverSteps(p, r, Adjacent(p, bridges[0]), c);
      HopAllSteps(p, r, bridges[1..], HopOver(p, Adjacent(p, bridges[0]), c));
    }
  }

  lemma {:induction false} BridgeOutSteps(p: Probe, r: Relation, ids: seq<nat>, b: Beam)
    requires Stepwise(p, r) && Within(p, ids)
    ensures r(b, BridgeOut(p, ids, b).0)
  {
    hide Visit, Within;
    if ids != [] && b.tr.detours > 0 {
      WithinTail(p, ids);
      var (seen, queued) := Visit(p, ids[0], b);
      if queued && seen.tr.detours > 0 {
        assert PaidVisit(p, ids[0], b) == seen.(tr := Charged(seen.tr));
        BridgeOutSteps(p, r, ids[1..], seen.(tr := Charged(seen.tr)));
      } else {
        BridgeOutSteps(p, r, ids[1..], seen);
      }
    }
  }

  lemma ExpandSteps(p: Probe, r: Relation, id: nat, b: Beam)
    requires Stepwise(p, r) && InRange(p.g)
    ensures r(b, Expand(p, id, b).0)
  {
    hide Stepwise, VisitAll, Classify, HopAll, BridgeOut, Within, Adjacent;
    var ids := Adjacent(p, id);
    AdjacentWithin(p, id);
    if !Filtered(p.pred) {
      VisitAllSteps(p, r, ids, b);
    } else {
      var near := Classify(p, ids, Classified(b, 0, []));
      var far := HopAll(p, near.bridges, near);
      ClassifySteps(p, r, ids, Classified(b, 0, []));
      HopAllSteps(p, r, near.bridges, near);
      Chain(p, r, b, near.beam, far.beam);
      if far.matching == 0 {
        BridgeOutSteps(p, r, ids, far.beam);
        Chain(p, r, b, far.beam, BridgeOut(p, ids, far.beam).0);
      }
    }
  }

  lemma Chain(p: Probe, r: Relation, a: Beam, b: Beam, c: Beam)
    requires Stepwise(p, r) && r(a, b) && r(b, c)
    ensures r(a, c)
  {
  }

  lemma {:induction false} RescueAllSteps(p: Probe, r: Relation, cands: seq<Cand>, b: Beam)
    requires Stepwise(p, r) && InRange(p.g)
    ensures r(b, RescueAll(p, cands, b).0)
  {
    hide Stepwise, BridgeOut, Within, Adjacent;
    if cands != [] && b.tr.detours > 0 {
      AdjacentWithin(p, cands[0].id);
      var c := BridgeOut(p, Adjacent(p, cands[0].id), b).0;
      BridgeOutSteps(p, r, Adjacent(p, cands[0].id), b);
      RescueAllSteps(p, r, cands[1..], c);
      Chain(p, r, b, c, RescueAll(p, cands, b).0);
    } else {
      Reflexive(p, r, b);
    }
  }

  lemma Reflexive(p: Probe, r: Relation, b: Beam)
    requires Stepwise(p, r)
    ensures r(b, b)
  {
  }

  // --- what an expansion covers ------------------------------------------------------------------

  ghost predicate Sees(a: Beam, b: Beam) { a.visited <= b.visited }

  ghost function SeesMore(): Relation { (a: Beam, b: Beam) => Sees(a, b) }

  lemma SeesStepwise(p: Probe)
    ensures Stepwise(p, SeesMore())
  {
    forall id: nat, b ensures SeesMore()(b, Visit(p, id, b).0) {}
  }

  lemma {:induction false} ClassifyCovers(p: Probe, ids: seq<nat>, c: Classified, y: nat)
    requires Within(p, ids) && y in ids && NodeMatches(p, y)
    ensures y in Classify(p, ids, c).beam.visited
  {
    hide Visit, NodeMatches;
    WithinTail(p, ids);
    SeesStepwise(p);
    if y == ids[0] {
      var d := Classified(Visit(p, ids[0], c.beam).0, c.matching + 1, c.bridges);
      VisitVisited(p, ids[0], c.beam);
      ClassifySteps(p, SeesMore(), ids[1..], d);
    } else if NodeMatches(p, ids[0]) {
      ClassifyCovers(p, ids[1..], Classified(Visit(p, ids[0], c.beam).0, c.matching + 1, c.bridges), y);
    } else {
      ClassifyCovers(p, ids[1..], if |c.bridges| < p.g.m then c.(bridges := c.bridges + [ids[0]]) else c, y);
    }
  }

  /** Every neighbor that may be returned is scored. */
  lemma ExpandCovers(p: Probe, id: nat, b: Beam, y: nat)
    requires InRange(p.g) && y in Adjacent(p, id) && (!Filtered(p.pred) || NodeMatches(p, y))
    ensures y in Expand(p, id, b).0.visited
  {
    hide VisitAll, Classify, HopAll, BridgeOut, NodeMatches;
    var ids := Adjacent(p, id);
    AdjacentWithin(p, id);
    SeesStepwise(p);
    if !Filtered(p.pred) {
      VisitAllVisited(p, ids, b);
      assert y in Set(ids);
    } else {
      var near := Classify(p, ids, Classified(b, 0, []));
      ClassifyCovers(p, ids, Classified(b, 0, []), y);
      HopAllSteps(p, SeesMore(), near.bridges, near);
      BridgeOutSteps(p, SeesMore(), ids, HopAll(p, near.bridges, near).beam);
    }
  }

  /** Bridging out of a node scores all its neighbors, unless the allowance runs out. */
  lemma {:induction false} BridgeOutCovers(p: Probe, ids: seq<nat>, b: Beam)
    requires Within(p, ids)
    ensures BridgeOut(p, ids, b).0.tr.detours == 0 || Set(ids) <= BridgeOut(p, ids, b).0.visited
  {
    hide Visit, Within;
    if ids != [] && b.tr.detours > 0 {
      WithinTail(p, ids);
      SetTail(ids);
      var (seen, queued) := Visit(p, ids[0], b);
      VisitVisited(p, ids[0], b);
      var next := if queued && seen.tr.detours > 0 then seen.(tr := Charged(seen.tr)) else seen;
      SeesStepwise(p);
      BridgeOutSteps(p, SeesMore(), ids[1..], next);
      BridgeOutCovers(p, ids[1..], next);
    }
  }

  /** One that queues nothing changes neither frontier nor results. */
  lemma {:induction false} BridgeOutIdle(p: Probe, ids: seq<nat>, b: Beam)
    requires !BridgeOut(p, ids, b).1
    ensures BridgeOut(p, ids, b).0.frontier == b.frontier && BridgeOut(p, ids, b).0.results == b.results
    ensures BridgeOut(p, ids, b).0.tr.detours == b.tr.detours
  {
    if ids != [] && b.tr.detours > 0 { BridgeOutIdle(p, ids[1..], Visit(p, ids[0], b).0); }
  }

  lemma {:induction false} RescueIdle(p: Probe, cands: seq<Cand>, b: Beam)
    requires !RescueAll(p, cands, b).1
    ensures RescueAll(p, cands, b).0.frontier == b.frontier && RescueAll(p, cands, b).0.results == b.results
  {
    hide BridgeOut;
    if cands != [] && b.tr.detours > 0 {
      BridgeOutIdle(p, Adjacent(p, cands[0].id), b);
      RescueIdle(p, cands[1..], BridgeOut(p, Adjacent(p, cands[0].id), b).0);
    }
  }
}
