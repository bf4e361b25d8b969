/** What a filter costs the search: with room and allowances enough, nothing but the nodes that do not match. */
module FilteredReach {
  import opened Base
  import opened Filter
  import opened Candidates
  import opened Graphs
  import opened Search
  import opened SearchBounds
  import opened SearchReach
  import opened BeamSteps
  import opened Queries

  // --- a layer search expands no node twice ------------------------------------------------------

  /** The frontier grows by no more than what is newly scored, one distance each, and nothing is expanded. */
  ghost predicate Grows(a: Beam, b: Beam) {
    && a.visited <= b.visited && |b.frontier| + |a.visited| <= |a.frontier| + |b.visited|
    && b.tr.cost.expansions == a.tr.cost.expansions && b.tr.expansions == a.tr.expansions
    && b.tr.cost.distances + |a.visited| == a.tr.cost.distances + |b.visited|
  }

  ghost function Growing(): Relation { (a: Beam, b: Beam) => Grows(a, b) }

  lemma VisitGrows(p: Probe, id: nat, b: Beam)
    ensures Grows(b, Visit(p, id, b).0)
    ensures Payable(p, id, b) ==> Grows(b, PaidVisit(p, id, b))
  {
    if id !in b.visited { assert |b.visited + {id}| == |b.visited| + 1; }
  }

  lemma GrowsStepwise(p: Probe)
    ensures Stepwise(p, Growing())
  {
    hide Visit, Payable, PaidVisit;
    var r := Growing();
    forall id: nat, b | id < Size(p.g) ensures r(b, Visit(p, id, b).0) { VisitGrows(p, id, b); }
    forall id: nat, b | id < Size(p.g) && Payable(p, id, b) ensures r(b, PaidVisit(p, id, b)) { VisitGrows(p, id, b); }
  }

  /** Nodes expanded and nodes still to be expanded are nodes scored, each scored once. */
  ghost predicate Thrifty(b: Beam, from: Cost) {
    && b.tr.cost.expansions + |b.frontier| <= from.expansions + |b.visited|
    && b.tr.cost.distances == from.distances + |b.visited|
  }

  lemma WalkStepThrifty(p: Probe, b: Beam, from: Cost)
    requires InRange(p.g) && b.frontier != [] && Thrifty(b, from)
    ensures Thrifty(WalkStep(p, b), from)
  {
    hide Expand, Stepwise;
    GrowsStepwise(p);
    ExpandSteps(p, Growing(), b.frontier[0].id, Popped(b).(tr := Spent(p, b.tr)));
  }

  lemma {:induction false} WalkThrifty(p: Probe, b: Beam, from: Cost)
    requires InRange(p.g) && Thrifty(b, from)
    ensures Thrifty(Walk(p, b), from)
    decreases Measure(p, b)
  {
    hide WalkStep, Stops;
    if b.frontier != [] && !Stops(p, b.frontier[0], b) {
      WalkStepThrifty(p, b, from);
      WalkStepMeasure(p, b);
      WalkThrifty(p, WalkStep(p, b), from);
    }
  }

  lemma {:induction false} RoundsThrifty(p: Probe, b: Beam, from: Cost)
    requires InRange(p.g) && Thrifty(b, from)
    ensures Thrifty(Rounds(p, b), from)
    decreases b.tr.detours
  {
    hide Walk, RescueAll, Stepwise;
    var w := Walk(p, b);
    WalkThrifty(p, b, from);
    if Rescuable(p, w) {
      GrowsStepwise(p);
      RescueAllSteps(p, Growing(), Sort(w.deferred), w.(deferred := []));
      RescueAllDetours(p, Sort(w.deferred), w.(deferred := []));
      if Rescued(p, w).1 { RoundsThrifty(p, Rescued(p, w).0, from); }
    }
  }

  lemma {:induction false} SeedAllThrifty(p: Probe, ids: seq<nat>, b: Beam, from: Cost)
    requires Thrifty(b, from)
    ensures Thrifty(SeedAll(p, ids, b), from)
  {
    if ids != [] {
      if ids[0] !in b.visited { assert |b.visited + {ids[0]}| == |b.visited| + 1; }
      SeedAllThrifty(p, ids[1..], Seed(p, ids[0], b), from);
    }
  }

  lemma SeenAtMost(p: Probe, b: Beam)
    requires BeamOk(p, b)
    ensures |b.visited| <= Size(p.g)
  {
    IdsCount(Size(p.g));
    SubsetCount(b.visited, Ids(Size(p.g)));
  }

  /** One layer's search computes one distance for each node it scores, and expands at most as many as there are. */
  lemma LayerExpandsOnce(p: Probe, seeds: seq<nat>, ef: nat, tr: Budget)
    requires InRange(p.g) && forall x :: x in seeds ==> x < Size(p.g)
    ensures var cost, scored := SearchLayer(p, seeds, ef, tr).1.cost, LayerBeam(p, seeds, ef, tr).visited;
            && cost.distances == tr.cost.distances + |scored| && |scored| <= Size(p.g)
            && cost.expansions <= tr.cost.expansions + |scored|
  {
    hide Rounds, SeedAll;
    var b0 := NewBeam(ef, tr);
    NewBeamOk(p, ef, tr);
    SeedAllOk(p, seeds, b0);
    SeedAllThrifty(p, seeds, b0, tr.cost);
    RoundsOk(p, SeedAll(p, seeds, b0));
    RoundsThrifty(p, SeedAll(p, seeds, b0), tr.cost);
    SeenAtMost(p, LayerBeam(p, seeds, ef, tr));
  }

  // --- with room for every node, each one scored is queued --------------------------------------------

  ghost predicate Roomy(p: Probe, b: Beam) { BeamOk(p, b) && Size(p.g) <= b.ef }

  /** No more results than nodes scored, and one fewer if one of these is not held. */
  lemma HeldCount(p: Probe, b: Beam, s: set<nat>)
    requires ResultsOk(p, b) && forall c :: c in b.results ==> c.id in s
    ensures |b.results| <= |s|
  {
    var ids := CandIds(b.results);
    forall i, j | 0 <= i < j < |ids| ensures ids[i] != ids[j] {
      assert b.results[i] in b.results && b.results[j] in b.results && Before(b.results[i], b.results[j]);
    }
    DistinctCount(ids);
    forall x | x in Set(ids) ensures x in s {
      var i :| 0 <= i < |ids| && ids[i] == x;
      assert b.results[i] in b.results;
    }
    SubsetCount(Set(ids), s);
  }

  lemma Room(p: Probe, b: Beam, id: nat)
    requires Roomy(p, b) && id !in b.visited && id < Size(p.g)
    ensures |b.results| < b.ef
  {
    HeldCount(p, b, b.visited);
    IdsCount(Size(p.g));
    SubsetCount(b.visited + {id}, Ids(Size(p.g)));
  }

  lemma AllHeld(p: Probe, b: Beam, v: nat)
    requires Roomy(p, b) && v in b.visited && Admissible(p, v)
    ensures Scored(p, v) in b.results
  {
    assert HeldOrFull(p, b, v);
    if Scored(p, v) !in b.results {
      HeldCount(p, b, b.visited - {v});
      SeenAtMost(p, b);
    }
  }

  ghost predicate OpensAt(p: Probe, a: Beam, b: Beam, v: nat) {
    && (Scored(p, v) in a.frontier ==> Scored(p, v) in b.frontier)
    && (v in b.visited ==> v in a.visited || Scored(p, v) in b.frontier)
  }

  /** Whatever is newly scored is queued, and pays for its own detour. */
  ghost predicate Opens(p: Probe, a: Beam, b: Beam) {
    && Roomy(p, b) && b.ef == a.ef && b.deferred == a.deferred && Grows(a, b)
    && a.tr.detours + |a.visited| <= b.tr.detours + |b.visited|
    && forall v: nat :: OpensAt(p, a, b, v)
  }

  ghost predicate OpensIfRoomy(p: Probe, a: Beam, b: Beam) { Roomy(p, a) ==> Opens(p, a, b) }

  ghost function Opening(p: Probe): Relation { (a: Beam, b: Beam) => OpensIfRoomy(p, a, b) }

  lemma OpensSelf(p: Probe, b: Beam)
    ensures OpensIfRoomy(p, b, b)
  {
  }

  lemma OpensTrans(p: Probe, a: Beam, b: Beam, c: Beam)
    requires OpensIfRoomy(p, a, b) && OpensIfRoomy(p, b, c)
    ensures OpensIfRoomy(p, a, c)
  {
    hide BeamOk;
    if Roomy(p, a) {
      forall v: nat ensures OpensAt(p, a, c, v) { assert OpensAt(p, a, b, v) && OpensAt(p, b, c, v); }
    }
  }

  lemma VisitOpens(p: Probe, id: nat, b: Beam)
    requires id < Size(p.g) && Roomy(p, b)
    ensures Opens(p, b, Visit(p, id, b).0)
    ensures Payable(p, id, b) ==> Opens(p, b, PaidVisit(p, id, b))
  {
    hide BeamOk, Admissible;
    var c := Visit(p, id, b).0;
    VisitKeepsOk(p, id, b);
    if id !in b.visited {
      Room(p, b, id);
      assert |b.visited + {id}| == |b.visited| + 1;
    }
    if Payable(p, id, b) {
      assert BeamOk(p, PaidVisit(p, id, b)) by { ChargedVisited(p, c); }
    }
  }

  lemma OpensStepwise(p: Probe)
    ensures Stepwise(p, Opening(p))
  {
    hide OpensIfRoomy, Visit, PaidVisit, Payable;
    var r := Opening(p);
    forall b ensures r(b, b) { OpensSelf(p, b); }
    forall a, b, c | r(a, b) && r(b, c) ensures r(a, c) { OpensTrans(p, a, b, c); }
    forall id: nat, b | id < Size(p.g) ensures r(b, Visit(p, id, b).0) { VisitOpensIf(p, id, b); }
    forall id: nat, b | id < Size(p.g) && Payable(p, id, b) ensures r(b, PaidVisit(p, id, b)) {
      VisitOpensIf(p, id, b);
    }
  }

  lemma VisitOpensIf(p: Probe, id: nat, b: Beam)
    requires id < Size(p.g)
    ensures OpensIfRoomy(p, b, Visit(p, id, b).0)
    ensures Payable(p, id, b) ==> OpensIfRoomy(p, b, PaidVisit(p, id, b))
  {
    hide Opens, Visit, Payable, PaidVisit;
    if Roomy(p, b) { VisitOpens(p, id, b); }
  }

  // --- the walk ---------------------------------------------------------------------------------------------

  /** Queued, done with, or put off. */
  ghost predicate TendedAt(p: Probe, b: Beam, v: nat) {
    v in b.visited ==>
      Scored(p, v) in b.frontier || Scored(p, v) in b.deferred || Set(Adjacent(p, v)) <= b.visited
  }

  ghost predicate AllSeen(p: Probe, b: Beam) { Ids(Size(p.g)) <= b.visited }

  /** Every node scored is tended, but for `x`; what is left of the allowances is enough for every node not scored
      yet. */
  ghost predicate Tended(p: Probe, b: Beam, x: Option<nat>) {
    && Roomy(p, b) && (forall v: nat :: Some(v) != x ==> TendedAt(p, b, v))
    && Size(p.g) + |b.frontier| <= b.tr.expansions + |b.visited|
    && Size(p.g) <= b.tr.detours + |b.visited|
  }

  lemma SeenAll(p: Probe, b: Beam)
    requires BeamOk(p, b) && Size(p.g) <= |b.visited|
    ensures AllSeen(p, b)
  {
    IdsCount(Size(p.g));
    forall v | v in Ids(Size(p.g)) ensures v in b.visited {
      if v !in b.visited { SubsetCount(b.visited + {v}, Ids(Size(p.g))); }
    }
  }

  lemma SeenTended(p: Probe, b: Beam)
    requires InRange(p.g) && BeamOk(p, b) && AllSeen(p, b)
    ensures forall v: nat :: TendedAt(p, b, v)
  {
    forall v: nat ensures TendedAt(p, b, v) { AdjacentIn(p, v); }
  }

  lemma OpensTended(p: Probe, a: Beam, b: Beam, x: Option<nat>)
    requires Tended(p, a, x) && Opens(p, a, b)
    ensures Tended(p, b, x)
  {
    hide BeamOk;
    forall v: nat | Some(v) != x ensures TendedAt(p, b, v) { assert TendedAt(p, a, v) && OpensAt(p, a, b, v); }
  }

  lemma PoppedTended(p: Probe, b: Beam)
    requires Filtered(p.pred) && Tended(p, b, None) && b.frontier != []
    ensures b.tr.expansions > 0
    ensures Tended(p, Popped(b).(tr := Spent(p, b.tr)), Some(b.frontier[0].id))
    ensures b.frontier[0] == Scored(p, b.frontier[0].id)
  {
    var q := Popped(b).(tr := Spent(p, b.tr));
    SeenAtMost(p, b);
    PoppedOk(p, b, Spent(p, b.tr));
    assert b.frontier == [b.frontier[0]] + q.frontier;
    forall v: nat | v != b.frontier[0].id ensures TendedAt(p, q, v) { assert TendedAt(p, b, v); }
  }

  /** An expansion that bridged out is done with; one that did not is put off. */
  lemma NowTended(p: Probe, e: Beam, x: nat, bridged: bool)
    requires InRange(p.g) && Tended(p, e, Some(x))
    requires bridged ==> e.tr.detours == 0 || Set(Adjacent(p, x)) <= e.visited
    ensures Tended(p, if bridged then e else e.(deferred := e.deferred + [Scored(p, x)]), None)
  {
    if bridged {
      if e.tr.detours == 0 {
        SeenAll(p, e);
        SeenTended(p, e);
      }
      forall v: nat ensures TendedAt(p, e, v) {}
    } else {
      var r := e.(deferred := e.deferred + [Scored(p, x)]);
      DeferOk(p, e, r.deferred);
      forall v: nat ensures TendedAt(p, r, v) { if v != x { assert TendedAt(p, e, v); } }
    }
  }

  /** One that reports bridging has queued every neighbor, as long as the allowance lasts. */
  lemma ExpandBridges(p: Probe, id: nat, b: Beam)
    requires InRange(p.g) && Expand(p, id, b).1
    ensures var e := Expand(p, id, b).0; e.tr.detours == 0 || Set(Adjacent(p, id)) <= e.visited
  {
    hide Classify, HopAll, BridgeOut, VisitAll, Within;
    var ids := Adjacent(p, id);
    AdjacentWithin(p, id);
    var near := Classify(p, ids, Classified(b, 0, []));
    BridgeOutCovers(p, ids, HopAll(p, near.bridges, near).beam);
  }

  lemma WalkStepTended(p: Probe, b: Beam)
    requires InRange(p.g) && Filtered(p.pred) && Tended(p, b, None) && b.frontier != []
    ensures Tended(p, WalkStep(p, b), None)
  {
    hide Tended, Expand, Stepwise, Opens;
    var c := b.frontier[0];
    var q := Popped(b).(tr := Spent(p, b.tr));
    PoppedTended(p, b);
    OpensStepwise(p);
    ExpandSteps(p, Opening(p), c.id, q);
    TendedRoomy(p, q, Some(c.id));
    var (e, bridged) := Expand(p, c.id, q);
    OpensTended(p, q, e, Some(c.id));
    if bridged { ExpandBridges(p, c.id, q); }
    NowTended(p, e, c.id, bridged);
  }

  lemma TendedRoomy(p: Probe, b: Beam, x: Option<nat>)
    requires Tended(p, b, x)
    ensures Roomy(p, b)
  {
  }

  /** Only a set of results as large as the graph stops a walk that its allowance does not. */
  lemma StopsAllSeen(p: Probe, b: Beam)
    requires Filtered(p.pred) && Tended(p, b, None) && b.frontier != [] && Stops(p, b.frontier[0], b)
    ensures AllSeen(p, Popped(b)) && Tended(p, Popped(b), Some(b.frontier[0].id))
  {
    PoppedTended(p, b);
    PoppedOk(p, b, b.tr);
    HeldCount(p, b, b.visited);
    SeenAll(p, b);
    forall v: nat | v != b.frontier[0].id ensures TendedAt(p, Popped(b), v) {
      assert TendedAt(p, b, v);
      assert b.frontier == [b.frontier[0]] + Popped(b).frontier;
    }
  }

  lemma {:induction false} WalkTends(p: Probe, b: Beam)
    requires InRange(p.g) && Filtered(p.pred) && Tended(p, b, None)
    ensures var w := Walk(p, b); Tended(p, w, None) && (w.frontier == [] || AllSeen(p, w))
    decreases Measure(p, b)
  {
    hide Tended, WalkStep, BeamOk, AllSeen;
    if b.frontier != [] {
      if Stops(p, b.frontier[0], b) {
        StopsAllSeen(p, b);
        SeenStays(p, Popped(b), Some(b.frontier[0].id));
      } else {
        WalkStepTended(p, b);
        WalkStepMeasure(p, b);
        WalkTends(p, WalkStep(p, b));
      }
    }
  }

  lemma SeenStays(p: Probe, b: Beam, x: Option<nat>)
    requires InRange(p.g) && Tended(p, b, x) && AllSeen(p, b)
    ensures Tended(p, b, None)
  {
    SeenTended(p, b);
  }

  // --- the rescue, and the whole search ------------------------------------------------------------------

  /** The rescue bridges out of every expansion put off, or runs out of detours. */
  lemma {:induction false} RescueCovers(p: Probe, cands: seq<Cand>, b: Beam, c: Cand)
    requires InRange(p.g) && c in cands
    ensures var r := RescueAll(p, cands, b).0; r.tr.detours == 0 || Set(Adjacent(p, c.id)) <= r.visited
  {
    hide BridgeOut, Adjacent, Within, Stepwise;
    if b.tr.detours > 0 {
      var ids := Adjacent(p, cands[0].id);
      var next := BridgeOut(p, ids, b).0;
      AdjacentWithin(p, cands[0].id);
      BridgeOutCovers(p, ids, b);
      if c == cands[0] {
        SeesStepwise(p);
        RescueAllSteps(p, SeesMore(), cands[1..], next);
        RescueAllDetours(p, cands[1..], next);
      } else {
        RescueCovers(p, cands[1..], next, c);
      }
    }
  }

  lemma RescuedTended(p: Probe, w: Beam)
    requires InRange(p.g) && Tended(p, w, None)
    ensures Tended(p, Rescued(p, w).0, None)
  {
    hide RescueAll, BeamOk, Opens, Stepwise;
    var w0, r := w.(deferred := []), Rescued(p, w).0;
    DeferOk(p, w, []);
    OpensStepwise(p);
    RescueAllSteps(p, Opening(p), Sort(w.deferred), w0);
    assert Opens(p, w0, r);
    RescuedTendedAt(p, w, r);
  }

  lemma RescuedTendedAt(p: Probe, w: Beam, r: Beam)
    requires InRange(p.g) && Tended(p, w, None) && Opens(p, w.(deferred := []), r) && r == Rescued(p, w).0
    ensures Tended(p, r, None)
  {
    hide RescueAll, BeamOk;
    if r.tr.detours == 0 {
      SeenAll(p, r);
      SeenTended(p, r);
    } else {
      forall v: nat ensures TendedAt(p, r, v) {
        assert TendedAt(p, w, v) && OpensAt(p, w.(deferred := []), r, v);
        if Scored(p, v) in w.deferred { RescueCovers(p, Sort(w.deferred), w.(deferred := []), Scored(p, v)); }
      }
    }
  }

  lemma TendedClosed(p: Probe, b: Beam)
    requires InRange(p.g) && Tended(p, b, None) && (AllSeen(p, b) || (b.frontier == [] && b.deferred == []))
    ensures Closed(p, b.visited)
  {
    hide BeamOk;
    forall x, y | x in b.visited && y in Adjacent(p, x) ensures y in b.visited {
      assert TendedAt(p, b, x);
      assert y in Set(Adjacent(p, x));
      AdjacentIn(p, x);
    }
  }

  lemma UnrescuableSeen(p: Probe, w: Beam)
    requires p.layer == 0 && Filtered(p.pred) && Tended(p, w, None) && !Rescuable(p, w)
    ensures AllSeen(p, w) || w.deferred == []
  {
    HeldCount(p, w, w.visited);
    if w.deferred != [] { SeenAll(p, w); }
  }

  lemma RescuedSeen(p: Probe, w: Beam)
    requires InRange(p.g) && !Rescued(p, w).1
    ensures Rescued(p, w).0.frontier == w.frontier && Rescued(p, w).0.deferred == []
    ensures AllSeen(p, w) ==> AllSeen(p, Rescued(p, w).0)
  {
    hide RescueAll, Stepwise;
    RescueIdle(p, Sort(w.deferred), w.(deferred := []));
    SeesStepwise(p);
    RescueAllSteps(p, SeesMore(), Sort(w.deferred), w.(deferred := []));
    RescueAllDeferred(p, Sort(w.deferred), w.(deferred := []));
  }

  lemma {:induction false} RescueAllDeferred(p: Probe, cands: seq<Cand>, b: Beam)
    ensures RescueAll(p, cands, b).0.deferred == b.deferred
  {
    hide BridgeOut;
    if cands != [] && b.tr.detours > 0 {
      BridgeOutVisited(p, Adjacent(p, cands[0].id), b);
      RescueAllDeferred(p, cands[1..], BridgeOut(p, Adjacent(p, cands[0].id), b).0);
    }
  }

  lemma {:induction false} RoundsClosed(p: Probe, b: Beam)
    requires InRange(p.g) && p.layer == 0 && Filtered(p.pred) && Tended(p, b, None)
    ensures Tended(p, Rounds(p, b), None) && Closed(p, Rounds(p, b).visited)
    decreases b.tr.detours
  {
    hide Tended, Walk, RescueAll, AllSeen, Rescuable, Closed;
    var w := Walk(p, b);
    WalkTends(p, b);
    if !Rescuable(p, w) {
      UnrescuableSeen(p, w);
      TendedClosed(p, w);
    } else {
      RescueAllDetours(p, Sort(w.deferred), w.(deferred := []));
      assert w.tr.detours <= b.tr.detours;
      RescuedTended(p, w);
      if Rescued(p, w).1 {
        RoundsClosed(p, Rescued(p, w).0);
      } else {
        RescuedSeen(p, w);
        TendedClosed(p, Rescued(p, w).0);
      }
    }
  }

  lemma SeedTended(p: Probe, id: nat, b: Beam)
    requires id < Size(p.g) && Tended(p, b, None)
    ensures Tended(p, Seed(p, id, b), None)
  {
    hide BeamOk, Admissible;
    var c := Seed(p, id, b);
    SeedOk(p, id, b);
    if id !in b.visited {
      assert |b.visited + {id}| == |b.visited| + 1;
      forall v: nat ensures TendedAt(p, c, v) { assert TendedAt(p, b, v); }
    }
  }

  lemma {:induction false} SeedAllTended(p: Probe, ids: seq<nat>, b: Beam)
    requires Within(p, ids) && Tended(p, b, None)
    ensures Tended(p, SeedAll(p, ids, b), None)
  {
    hide Tended, Seed, Within;
    if ids != [] {
      WithinTail(p, ids);
      SeedTended(p, ids[0], b);
      SeedAllTended(p, ids[1..], Seed(p, ids[0], b));
    }
  }

  lemma NewTended(p: Probe, ef: nat, tr: Budget)
    requires Size(p.g) <= ef && Size(p.g) <= tr.expansions && Size(p.g) <= tr.detours
    ensures Tended(p, NewBeam(ef, tr), None)
  {
    NewBeamOk(p, ef, tr);
  }

  /** A filtered search of layer 0 with room for every node, and as many expansions and detours, returns exactly the
      live
      matching nodes its seeds reach, through whatever does not match. */
  lemma FilteredLayerReach(p: Probe, seeds: seq<nat>, ef: nat, tr: Budget)
    requires InRange(p.g) && p.layer == 0 && Filtered(p.pred) && forall x :: x in seeds ==> x < Size(p.g)
    requires Size(p.g) <= ef && Size(p.g) <= tr.expansions && Size(p.g) <= tr.detours
    ensures var out := SearchLayer(p, seeds, ef, tr).0;
            && Sorted(out)
            && forall c :: c in out <==>
                 c.id < Size(p.g) && c == Scored(p, c.id) && Admissible(p, c.id) && Reachable(p, seeds, c.id)
  {
    hide Rounds, SeedAll, Tended, Admissible;
    assert Within(p, seeds);
    var b := LayerBeam(p, seeds, ef, tr);
    NewTended(p, ef, tr);
    SeedAllTended(p, seeds, NewBeam(ef, tr));
    RoundsClosed(p, SeedAll(p, seeds, NewBeam(ef, tr)));
    TendedRoomy(p, b, None);
    SearchLayerSound(p, seeds, ef, tr);
    ReachSetClosed(p, seeds);
    SearchLayerWithin(p, seeds, ef, tr, ReachSet(p, seeds));
    forall v: nat | v < Size(p.g) && Admissible(p, v) && Reachable(p, seeds, v) ensures Scored(p, v) in b.results {
      var a, n :| a in seeds && Reaches(p, a, v, n);
      assert a in Set(seeds);
      ClosedReaches(p, b.visited, a, v, n);
      AllHeld(p, b, v);
    }
  }
}
