/** The search loops over mutable beams, proved step for step against the functions of modules Search and Queries. */
module BeamSearch {
  import opened Base
  import opened Filter
  import opened Candidates
  import opened Graphs
  import Search
  import SearchBounds
  import Queries
  import Insertion

  /** Allowances and bill shared by all the layers of one search. */
  class Traversal {
    var detours: nat
    var expansions: nat
    var cost: Search.Cost

    constructor (t: Search.Budget)
      ensures View() == t
    {
      detours, expansions, cost := t.detours, t.expansions, t.cost;
    }

    function View(): Search.Budget
      reads this
    {
      Search.Budget(detours, expansions, cost)
    }

    method RefillDetours(ef: nat)
      modifies this
      ensures View() == Queries.Refilled(old(View()), ef)
    {
      detours := Queries.SaturatingMul(ef, Queries.DETOURS_PER_EF);
    }
  }

  /** One layer's beam; both heaps are kept as their sorted contents. */
  class Beam {
    var visited: set<nat>
    var frontier: seq<Cand>
    var results: seq<Cand>
    var deferred: seq<Cand>
    const ef: nat
    const tr: Traversal

    constructor (ef: nat, tr: Traversal)
      ensures this.ef == ef && this.tr == tr && View() == Search.NewBeam(ef, tr.View())
    {
      visited, frontier, results, deferred := {}, [], [], [];
      this.ef, this.tr := ef, tr;
    }

    function View(): Search.Beam
      reads this, tr
    {
      Search.Beam(visited, frontier, results, ef, deferred, tr.View())
    }

    /** Queue for expansion, and keep as a result when admissible, dropping the farthest of one too many. */
    method Push(c: Cand, admissible: bool)
      modifies this
      ensures View() == Search.Push(old(View()), c, admissible)
    {
      frontier := Insert(frontier, c);
      if admissible {
        results := Insert(results, c);
        if |results| > ef { results := results[..|results| - 1]; }
      }
    }
  }

  /** Score `id` and fold it in; reports whether it joined the frontier. */
  method Visit(p: Search.Probe, id: nat, beam: Beam) returns (joined: bool)
    modifies beam, beam.tr
    ensures (beam.View(), joined) == Search.Visit(p, id, old(beam.View()))
  {
    if id in beam.visited { return false; }
    beam.visited := beam.visited + {id};
    var d := Search.DistanceTo(p, id);
    beam.tr.cost := beam.tr.cost.(distances := beam.tr.cost.distances + 1);
    if |beam.results| < beam.ef || Search.Nearer(d, beam.results) {
      beam.Push(Cand(d, id), Search.Admissible(p, id));
      return true;
    }
    joined := false;
  }

  lemma Tail<T>(s: seq<T>, i: nat)
    requires i < |s|
    ensures s[i..] != [] && s[i..][0] == s[i] && s[i..][1..] == s[i + 1..]
  {
  }

  method VisitAll(p: Search.Probe, ids: seq<nat>, beam: Beam)
    modifies beam, beam.tr
    ensures beam.View() == Search.VisitAll(p, ids, old(beam.View()))
  {
    var i := 0;
    while i < |ids|
      invariant 0 <= i <= |ids|
      invariant Search.VisitAll(p, ids[i..], beam.View()) == Search.VisitAll(p, ids, old(beam.View()))
    {
      Tail(ids, i);
      var _ := Visit(p, ids[i], beam);
      i := i + 1;
    }
  }

  method Classify(p: Search.Probe, ids: seq<nat>, beam: Beam) returns (matching: nat, bridges: seq<nat>)
    modifies beam, beam.tr
    ensures Search.Classified(beam.View(), matching, bridges)
         == Search.Classify(p, ids, Search.Classified(old(beam.View()), 0, []))
  {
    var i := 0;
    matching, bridges := 0, [];
    while i < |ids|
      invariant 0 <= i <= |ids|
      invariant Search.Classify(p, ids[i..], Search.Classified(beam.View(), matching, bridges))
             == Search.Classify(p, ids, Search.Classified(old(beam.View()), 0, []))
    {
      Tail(ids, i);
      if Search.NodeMatches(p, ids[i]) {
        matching := matching + 1;
        var _ := Visit(p, ids[i], beam);
      } else if |bridges| < p.g.m {
        bridges := bridges + [ids[i]];
      }
      i := i + 1;
    }
  }

  method HopOver(p: Search.Probe, ids: seq<nat>, beam: Beam, found: nat) returns (matching: nat)
    modifies beam, beam.tr
    ensures forall bridges :: (Search.Classified(beam.View(), matching, bridges)
                               == Search.HopOver(p, ids, Search.Classified(old(beam.View()), found, bridges)))
  {
    var i := 0;
    matching := found;
    while i < |ids| && matching < p.g.m
      invariant 0 <= i <= |ids|
      invariant forall bridges :: (Search.HopOver(p, ids[i..], Search.Classified(beam.View(), matching, bridges))
                                   == Search.HopOver(p, ids, Search.Classified(old(beam.View()), found, bridges)))
    {
      Tail(ids, i);
      if Search.NodeMatches(p, ids[i]) {
        matching := matching + 1;
        var _ := Visit(p, ids[i], beam);
      }
      i := i + 1;
    }
  }

  method HopAll(p: Search.Probe, bridges: seq<nat>, beam: Beam, found: nat) returns (matching: nat)
    modifies beam, beam.tr
    ensures Search.Classified(beam.View(), matching, bridges)
         == Search.HopAll(p, bridges, Search.Classified(old(beam.View()), found, bridges))
  {
    var i := 0;
    matching := found;
    while i < |bridges| && matching < p.g.m
      invariant 0 <= i <= |bridges|
      invariant Search.HopAll(p, bridges[i..], Search.Classified(beam.View(), matching, bridges))
             == Search.HopAll(p, bridges, Search.Classified(old(beam.View()), found, bridges))
    {
      Tail(bridges, i);
      matching := HopOver(p, Search.Adjacent(p, bridges[i]), beam, matching);
      i := i + 1;
    }
  }

  /** Enqueue neighbors regardless of the predicate, one detour each. */
  method BridgeOut(p: Search.Probe, id: nat, beam: Beam) returns (queued: bool)
    modifies beam, beam.tr
    ensures (beam.View(), queued) == Search.BridgeOut(p, Search.Adjacent(p, id), old(beam.View()))
  {
    hide Search.Visit;
    var ids, i := Search.Adjacent(p, id), 0;
    queued := false;
    while i < |ids| && beam.tr.detours > 0
      invariant 0 <= i <= |ids|
      invariant Search.BridgeOut(p, ids[i..], beam.View()).0 == Search.BridgeOut(p, ids, old(beam.View())).0
      invariant (queued || Search.BridgeOut(p, ids[i..], beam.View()).1) == Search.BridgeOut(p, ids, old(beam.View())).1
    {
      Tail(ids, i);
      Search.VisitVisited(p, ids[i], beam.View());
      var joined := Visit(p, ids[i], beam);
      if joined {
        beam.tr.detours := beam.tr.detours - 1;
        beam.tr.cost := beam.tr.cost.(detours := beam.tr.cost.detours + 1);
        queued := true;
      }
      i := i + 1;
    }
  }

  method Expand(p: Search.Probe, id: nat, beam: Beam) returns (bridged: bool)
    modifies beam, beam.tr
    ensures (beam.View(), bridged) == Search.Expand(p, id, old(beam.View()))
  {
    var ids := Search.Adjacent(p, id);
    if !Search.Filtered(p.pred) {
      VisitAll(p, ids, beam);
      return false;
    }
    var matching, bridges := Classify(p, ids, beam);
    matching := HopAll(p, bridges, beam, matching);
    if matching == 0 {
      var _ := BridgeOut(p, id, beam);
      return true;
    }
    bridged := false;
  }

  method Walk(p: Search.Probe, beam: Beam)
    requires InRange(p.g)
    modifies beam, beam.tr
    ensures beam.View() == Search.Walk(p, old(beam.View()))
  {
    while beam.frontier != []
      invariant Search.Walk(p, beam.View()) == Search.Walk(p, old(beam.View()))
      decreases Search.Measure(p, beam.View())
    {
      ghost var b := beam.View();
      Search.WalkStepMeasure(p, b);
      var c := beam.frontier[0];
      beam.frontier := beam.frontier[1..];
      var filtered := Search.Filtered(p.pred);
      if Search.Farther(c.dist, beam.results) && (!filtered || |beam.results| >= beam.ef) { return; }
      if filtered {
        if beam.tr.expansions == 0 { return; }
        beam.tr.expansions := beam.tr.expansions - 1;
      }
      beam.tr.cost := beam.tr.cost.(expansions := beam.tr.cost.expansions + 1);
      assert beam.View() == Search.Popped(b).(tr := Search.Spent(p, b.tr));
      var bridged := Expand(p, c.id, beam);
      if filtered && !bridged { beam.deferred := beam.deferred + [c]; }
      assert beam.View() == Search.WalkStep(p, b);
    }
  }

  method Rescue(p: Search.Probe, cands: seq<Cand>, beam: Beam) returns (progressed: bool)
    modifies beam, beam.tr
    ensures (beam.View(), progressed) == Search.RescueAll(p, cands, old(beam.View()))
  {
    var i := 0;
    progressed := false;
    while i < |cands| && beam.tr.detours > 0
      invariant 0 <= i <= |cands|
      invariant Search.RescueAll(p, cands[i..], beam.View()).0 == Search.RescueAll(p, cands, old(beam.View())).0
      invariant (progressed || Search.RescueAll(p, cands[i..], beam.View()).1)
                == Search.RescueAll(p, cands, old(beam.View())).1
    {
      Tail(cands, i);
      var queued := BridgeOut(p, cands[i].id, beam);
      progressed := progressed || queued;
      i := i + 1;
    }
  }

  method SeedBeam(p: Search.Probe, seeds: seq<nat>, beam: Beam)
    modifies beam, beam.tr
    ensures beam.View() == Search.SeedAll(p, seeds, old(beam.View()))
  {
    var i := 0;
    while i < |seeds|
      invariant 0 <= i <= |seeds|
      invariant Search.SeedAll(p, seeds[i..], beam.View()) == Search.SeedAll(p, seeds, old(beam.View()))
    {
      Tail(seeds, i);
      if seeds[i] !in beam.visited {
        beam.visited := beam.visited + {seeds[i]};
        var d := Search.DistanceTo(p, seeds[i]);
        beam.tr.cost := beam.tr.cost.(distances := beam.tr.cost.distances + 1);
        beam.Push(Cand(d, seeds[i]), Search.Admissible(p, seeds[i]));
      }
      i := i + 1;
    }
  }

  /** search_layer. */
  method SearchLayer(p: Search.Probe, seeds: seq<nat>, ef: nat, tr: Traversal) returns (out: seq<Cand>)
    requires InRange(p.g)
    modifies tr
    ensures (out, tr.View()) == Search.SearchLayer(p, seeds, ef, old(tr.View()))
  {
    var beam := new Beam(ef, tr);
    SeedBeam(p, seeds, beam);
    ghost var start := beam.View();
    assert start == Search.SeedAll(p, seeds, Search.NewBeam(ef, old(tr.View())));
    var again := true;
    while again
      invariant again ==> Search.Rounds(p, beam.View()) == Search.Rounds(p, start)
      invariant !again ==> beam.View() == Search.Rounds(p, start)
      decreases again, beam.tr.detours
    {
      ghost var b := beam.View();
      Walk(p, beam);
      ghost var w := beam.View();
      assert w == Search.Walk(p, b) && w.tr.detours <= b.tr.detours;
      if p.layer != 0 || !Search.Filtered(p.pred) || |beam.results| >= beam.ef || beam.tr.detours == 0 { break; }
      var deferred := beam.deferred;
      beam.deferred := [];
      if deferred == [] { break; }
      Search.RescueAllDetours(p, Sort(deferred), beam.View());
      again := Rescue(p, Sort(deferred), beam);
      assert (beam.View(), again) == Search.Rescued(p, w);
    }
    assert beam.View() == Search.Rounds(p, start);
    out := beam.results;
  }
}
