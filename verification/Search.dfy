/** One layer's beam search, as functions on the state of the beam. */
module Search {
  import opened Base
  import opened Filter
  import opened Candidates
  import opened Graphs

  datatype Cost = Cost(distances: nat, expansions: nat, detours: nat)

  /** Allowances left and work done. */
  datatype Budget = Budget(detours: nat, expansions: nat, cost: Cost)

  datatype Beam = Beam(
    visited: set<nat>, frontier: seq<Cand>, results: seq<Cand>, ef: nat, deferred: seq<Cand>, tr: Budget)

  /** What one layer search looks at. */
  datatype Probe = Probe(g: Graph, dist: (Metric, Vec, Vec) -> int, query: Vec, layer: nat, pred: Option<Predicate>)

  predicate Filtered(pred: Option<Predicate>) { pred.Some? && !pred.value.All? }

  predicate NodeMatches(p: Probe, id: nat) { p.pred.None? || Matches(p.pred.value, AttrsOf(p.g, id)) }

  /** Live, and satisfying the predicate. */
  predicate Admissible(p: Probe, id: nat) { !Deleted(p.g, id) && NodeMatches(p, id) }

  function DistanceTo(p: Probe, id: nat): int {
    if id < Size(p.g) then p.dist(p.g.metric, p.query, p.g.vectors[id]) else 0
  }

  function Scored(p: Probe, id: nat): Cand { Cand(DistanceTo(p, id), id) }

  function Adjacent(p: Probe, id: nat): seq<nat> { Neighbors(p.g, id, p.layer) }

  /** Nearer than the farthest result, infinity standing for none. */
  predicate Nearer(d: int, results: seq<Cand>) { results == [] || d < results[|results| - 1].dist }

  predicate Farther(d: int, results: seq<Cand>) { results != [] && d > results[|results| - 1].dist }

  // --- steps on the beam ----------------------------------------------------------

  function Kept(results: seq<Cand>, ef: nat): seq<Cand> {
    if |results| > ef then results[..|results| - 1] else results
  }

  function Push(b: Beam, c: Cand, admissible: bool): Beam {
    b.(frontier := Insert(b.frontier, c),
       results := if admissible then Kept(Insert(b.results, c), b.ef) else b.results)
  }

  function Measured(t: Budget): Budget { t.(cost := t.cost.(distances := t.cost.distances + 1)) }

  function Charged(t: Budget): Budget
    requires t.detours > 0
  {
    t.(detours := t.detours - 1, cost := t.cost.(detours := t.cost.detours + 1))
  }

  /** Score `id` unless seen; join the frontier unless too far to improve a full result set. */
  function Visit(p: Probe, id: nat, b: Beam): (Beam, bool) {
    if id in b.visited then (b, false) else
    var c := Scored(p, id);
    var seen := b.(visited := b.visited + {id}, tr := Measured(b.tr));
    if |b.results| < b.ef || Nearer(c.dist, b.results) then (Push(seen, c, Admissible(p, id)), true) else (seen, false)
  }

  function VisitAll(p: Probe, ids: seq<nat>, b: Beam): Beam {
    if ids == [] then b else VisitAll(p, ids[1..], Visit(p, ids[0], b).0)
  }

  datatype Classified = Classified(beam: Beam, matching: nat, bridges: seq<nat>)

  /** Visit the matching neighbors, remember up to `m` of the others as bridges. */
  function Classify(p: Probe, ids: seq<nat>, c: Classified): Classified {
    if ids == [] then c
    else if NodeMatches(p, ids[0]) then
      Classify(p, ids[1..], Classified(Visit(p, ids[0], c.beam).0, c.matching + 1, c.bridges))
    else
      Classify(p, ids[1..], if |c.bridges| < p.g.m then c.(bridges := c.bridges + [ids[0]]) else c)
  }

  /** Visit a bridge's matching neighbors until `m` matches have been produced. */
  function HopOver(p: Probe, ids: seq<nat>, c: Classified): Classified {
    if ids == [] || c.matching >= p.g.m then c
    else if NodeMatches(p, ids[0]) then
      HopOver(p, ids[1..], Classified(Visit(p, ids[0], c.beam).0, c.matching + 1, c.bridges))
    else HopOver(p, ids[1..], c)
  }

  function HopAll(p: Probe, bridges: seq<nat>, c: Classified): Classified {
    if bridges == [] || c.matching >= p.g.m then c
    else HopAll(p, bridges[1..], HopOver(p, Adjacent(p, bridges[0]), c))
  }

  /** Enqueue neighbors whether or not they match, one detour each. */
  function BridgeOut(p: Probe, ids: seq<nat>, b: Beam): (Beam, bool) {
    if ids == [] || b.tr.detours == 0 then (b, false) else
    var (seen, queued) := Visit(p, ids[0], b);
    if queued && seen.tr.detours > 0
    then (BridgeOut(p, ids[1..], seen.(tr := Charged(seen.tr))).0, true)
    else BridgeOut(p, ids[1..], seen)
  }

  /** Fold a node's neighbors into the beam; true when it had to bridge out. */
  function Expand(p: Probe, id: nat, b: Beam): (Beam, bool) {
    var ids := Adjacent(p, id);
    if !Filtered(p.pred) then (VisitAll(p, ids, b), false) else
    var near := Classify(p, ids, Classified(b, 0, []));
    var far := HopAll(p, near.bridges, near);
    if far.matching == 0 then (BridgeOut(p, ids, far.beam).0, true) else (far.beam, false)
  }

  // --- what every step of it keeps ----------------------------------------------------

  function Ids(n: nat): (r: set<nat>)
    ensures forall i: nat :: i in r <==> i < n
  {
    if n == 0 then {} else Ids(n - 1) + {n - 1}
  }

  /** Falls with every pop, and no visit raises it. */
  function Measure(p: Probe, b: Beam): nat { 2 * |Ids(Size(p.g)) - b.visited| + |b.frontier| }

  ghost predicate FrontierOk(p: Probe, b: Beam) {
    Sorted(b.frontier) && forall c :: c in b.frontier ==> c.id in b.visited && c == Scored(p, c.id)
  }

  ghost predicate ResultsOk(p: Probe, b: Beam) {
    && Sorted(b.results) && |b.results| <= b.ef
    && forall c :: c in b.results ==> c.id in b.visited && c == Scored(p, c.id) && Admissible(p, c.id)
  }

  /** An admissible node scored and not held lost its place to a full set of results no farther than it. */
  ghost predicate HeldOrFull(p: Probe, b: Beam, v: nat) {
    v in b.visited && Admissible(p, v) ==>
      Scored(p, v) in b.results || (|b.results| == b.ef && !Nearer(DistanceTo(p, v), b.results)) || b.ef == 0
  }

  ghost predicate BeamOk(p: Probe, b: Beam) {
    && FrontierOk(p, b) && ResultsOk(p, b)
    && (forall v :: HeldOrFull(p, b, v))
    && b.visited <= Ids(Size(p.g))
  }

  /** Detours and expansions are conserved between allowance and bill. */
  predicate Conserved(t: Budget, t': Budget) {
    t.detours + t.cost.detours == t'.detours + t'.cost.detours
    && t.expansions + t.cost.expansions == t'.expansions + t'.cost.expansions
    && t.cost.detours <= t'.cost.detours && t.cost.expansions <= t'.cost.expansions
    && t.cost.distances <= t'.cost.distances
  }

  /** Visits and nothing else: `k` at most, among `ids`. */
  ghost predicate Visited(p: Probe, b: Beam, b': Beam, ids: set<nat>, k: nat) {
    && b'.ef == b.ef && b'.deferred == b.deferred
    && b.visited <= b'.visited <= b.visited + ids
    && (ids <= Ids(Size(p.g)) ==> Measure(p, b') <= Measure(p, b))
    && Conserved(b.tr, b'.tr) && b'.tr.cost.expansions == b.tr.cost.expansions
    && b'.tr.cost.distances <= b.tr.cost.distances + k
    && (BeamOk(p, b) && ids <= Ids(Size(p.g)) ==> BeamOk(p, b'))
  }

  lemma VisitedNone(p: Probe, b: Beam, ids: set<nat>)
    ensures Visited(p, b, b, ids, 0)
  {
  }

  lemma VisitedTrans(p: Probe, a: Beam, b: Beam, c: Beam, s: set<nat>, t: set<nat>, u: set<nat>, j: nat, k: nat)
    requires Visited(p, a, b, s, j) && Visited(p, b, c, t, k) && s + t <= u
    ensures Visited(p, a, c, u, j + k)
  {
  }

  lemma IdsMinus(n: nat, v: set<nat>, id: nat)
    requires id !in v && id < n
    ensures |Ids(n) - (v + {id})| == |Ids(n) - v| - 1
  {
    assert Ids(n) - (v + {id}) == (Ids(n) - v) - {id};
  }

  lemma PushFrontier(p: Probe, b: Beam, id: nat, adm: bool)
    requires FrontierOk(p, b) && id !in b.visited
    ensures FrontierOk(p, Push(b.(visited := b.visited + {id}), Scored(p, id), adm))
  {
  }

  lemma KeptIn(r: seq<Cand>, ef: nat, x: Cand)
    requires x in Kept(r, ef)
    ensures x in r
  {
  }

  lemma PushResults(p: Probe, b: Beam, id: nat)
    requires ResultsOk(p, b) && id !in b.visited && Admissible(p, id)
    ensures ResultsOk(p, Push(b.(visited := b.visited + {id}), Scored(p, id), true))
  {
    var r := Insert(b.results, Scored(p, id));
    forall x | x in Kept(r, b.ef) ensures x in r { KeptIn(r, b.ef, x); }
    assert Sorted(r);
  }

  /** Inserting never moves the farthest but one beyond what was the farthest. */
  lemma FarthestShrinks(s: seq<Cand>, c: Cand)
    requires Sorted(s) && s != [] && c !in s
    ensures var r := Insert(s, c); r[|r| - 2].dist <= s[|s| - 1].dist
  {
    var r := Insert(s, c);
    assert Sorted(r) && s[|s| - 1] in r;
    var i :| 0 <= i < |r| && r[i] == s[|s| - 1];
    assert r[|r| - 2] in r;
    if i < |r| - 2 {
      assert r[|r| - 1] in r && Before(r[i], r[|r| - 2]) && Before(r[i], r[|r| - 1]);
      InLast(s, if r[|r| - 2] == c then r[|r| - 1] else r[|r| - 2]);
    }
  }

  /** Popping the farthest of one too many loses only a candidate the full set is no farther than. */
  lemma KeptOrFarther(s: seq<Cand>, c: Cand, ef: nat, x: Cand)
    requires Sorted(s) && c !in s && 0 < ef && |s| <= ef
    requires x == c || x in s || (|s| == ef && !Nearer(x.dist, s))
    ensures var k := Kept(Insert(s, c), ef); x in k || (|k| == ef && !Nearer(x.dist, k))
  {
    hide Insert;
    var r := Insert(s, c);
    assert Sorted(r);
    if |r| > ef {
      var k, last := r[..|r| - 1], r[|r| - 1];
      assert r == k + [last] && Before(k[|k| - 1], last);
      if x !in r { FarthestShrinks(s, c); }
    }
  }

  lemma PushHeld(p: Probe, b: Beam, id: nat, v: nat)
    requires ResultsOk(p, b) && id !in b.visited && Admissible(p, id)
    requires HeldOrFull(p, b, v)
    ensures HeldOrFull(p, Push(b.(visited := b.visited + {id}), Scored(p, id), true), v)
  {
    hide Insert, Kept, Nearer, Admissible;
    if v in b.visited + {id} && Admissible(p, v) && b.ef > 0 {
      KeptOrFarther(b.results, Scored(p, id), b.ef, Scored(p, v));
    }
  }

  lemma InLast(s: seq<Cand>, x: Cand)
    requires Sorted(s) && s != [] && x in s
    ensures !Before(s[|s| - 1], x)
  {
  }

  lemma VisitMeasure(p: Probe, id: nat, b: Beam)
    requires id < Size(p.g)
    ensures Measure(p, Visit(p, id, b).0) <= Measure(p, b)
  {
    if id !in b.visited { IdsMinus(Size(p.g), b.visited, id); }
  }

  lemma VisitKeepsOk(p: Probe, id: nat, b: Beam)
    requires BeamOk(p, b) && id < Size(p.g)
    ensures BeamOk(p, Visit(p, id, b).0)
  {
    if id !in b.visited {
      var c, adm := Scored(p, id), Admissible(p, id);
      var seen := b.(visited := b.visited + {id}, tr := Measured(b.tr));
      var b' := Visit(p, id, b).0;
      if |b.results| < b.ef || Nearer(c.dist, b.results) {
        PushFrontier(p, b, id, adm);
        if adm { PushResults(p, b, id); }
      }
      forall v ensures HeldOrFull(p, b', v) {
        assert HeldOrFull(p, b, v);
        if adm && (|b.results| < b.ef || Nearer(c.dist, b.results)) { PushHeld(p, b, id, v); }
      }
    }
  }

  lemma VisitVisited(p: Probe, id: nat, b: Beam)
    ensures Visited(p, b, Visit(p, id, b).0, {id}, 1)
    ensures Visit(p, id, b).0.tr.detours == b.tr.detours
    ensures id in Visit(p, id, b).0.visited
  {
    if id < Size(p.g) {
      VisitMeasure(p, id, b);
      if BeamOk(p, b) { VisitKeepsOk(p, id, b); }
    } else {
      assert id !in Ids(Size(p.g));
    }
  }

  function Set(ids: seq<nat>): set<nat> { set x | x in ids }

  lemma SetTail(ids: seq<nat>)
    requires ids != []
    ensures Set(ids) == {ids[0]} + Set(ids[1..])
  {
    assert ids == [ids[0]] + ids[1..];
  }

  lemma {:induction false} VisitAllVisited(p: Probe, ids: seq<nat>, b: Beam)
    ensures Visited(p, b, VisitAll(p, ids, b), Set(ids), |ids|)
    ensures VisitAll(p, ids, b).visited == b.visited + Set(ids)
    ensures VisitAll(p, ids, b).tr.detours == b.tr.detours
  {
    if ids != [] {
      var v := Visit(p, ids[0], b).0;
      VisitVisited(p, ids[0], b);
      VisitAllVisited(p, ids[1..], v);
      SetTail(ids);
      VisitedTrans(p, b, v, VisitAll(p, ids, b), {ids[0]}, Set(ids[1..]), Set(ids), 1, |ids| - 1);
    }
  }

  lemma {:induction false} ClassifyBridges(p: Probe, ids: seq<nat>, c: Classified)
    ensures Set(Classify(p, ids, c).bridges) <= Set(c.bridges) + Set(ids)
  {
    if ids != [] {
      SetTail(ids);
      if NodeMatches(p, ids[0]) {
        ClassifyBridges(p, ids[1..], Classified(Visit(p, ids[0], c.beam).0, c.matching + 1, c.bridges));
      } else {
        ClassifyBridges(p, ids[1..], if |c.bridges| < p.g.m then c.(bridges := c.bridges + [ids[0]]) else c);
      }
    }
  }

  lemma {:induction false} ClassifyVisited(p: Probe, ids: seq<nat>, c: Classified)
    ensures var r := Classify(p, ids, c);
            && c.matching <= r.matching <= c.matching + |ids|
            && Visited(p, c.beam, r.beam, Set(ids), r.matching - c.matching)
            && r.beam.tr.detours == c.beam.tr.detours
  {
    hide Visited, Visit;
    VisitedNone(p, c.beam, Set(ids));
    if ids != [] {
      SetTail(ids);
      if NodeMatches(p, ids[0]) {
        var d := Classified(Visit(p, ids[0], c.beam).0, c.matching + 1, c.bridges);
        var r := Classify(p, ids, c);
        VisitVisited(p, ids[0], c.beam);
        ClassifyVisited(p, ids[1..], d);
        VisitedTrans(p, c.beam, d.beam, r.beam, {ids[0]}, Set(ids[1..]), Set(ids), 1, r.matching - d.matching);
      } else {
        var d := if |c.bridges| < p.g.m then c.(bridges := c.bridges + [ids[0]]) else c;
        var r := Classify(p, ids, c);
        ClassifyVisited(p, ids[1..], d);
        VisitedTrans(p, c.beam, c.beam, r.beam, {}, Set(ids[1..]), Set(ids), 0, r.matching - c.matching);
      }
    }
  }

  /** At most `m` matches in all, however many bridges it takes. */
  lemma {:induction false} HopOverVisited(p: Probe, ids: seq<nat>, c: Classified)
    ensures var r := HopOver(p, ids, c);
            && c.matching <= r.matching && (r.matching <= p.g.m || r.matching == c.matching)
            && Visited(p, c.beam, r.beam, Set(ids), r.matching - c.matching)
            && r.bridges == c.bridges && r.beam.tr.detours == c.beam.tr.detours
  {
    hide Visited, Visit;
    VisitedNone(p, c.beam, Set(ids));
    if ids != [] && c.matching < p.g.m {
      SetTail(ids);
      var r := HopOver(p, ids, c);
      if NodeMatches(p, ids[0]) {
        var d := Classified(Visit(p, ids[0], c.beam).0, c.matching + 1, c.bridges);
        VisitVisited(p, ids[0], c.beam);
        HopOverVisited(p, ids[1..], d);
        VisitedTrans(p, c.beam, d.beam, r.beam, {ids[0]}, Set(ids[1..]), Set(ids), 1, r.matching - d.matching);
      } else {
        HopOverVisited(p, ids[1..], c);
        VisitedTrans(p, c.beam, c.beam, r.beam, {}, Set(ids[1..]), Set(ids), 0, r.matching - c.matching);
      }
    }
  }

  /** The nodes one hop beyond the bridges. */
  function Beyond(p: Probe, bridges: seq<nat>): set<nat> {
    if bridges == [] then {} else Set(Adjacent(p, bridges[0])) + Beyond(p, bridges[1..])
  }

  lemma {:induction false} HopAllVisited(p: Probe, bridges: seq<nat>, c: Classified)
    ensures var r := HopAll(p, bridges, c);
            && c.matching <= r.matching && (r.matching <= p.g.m || r.matching == c.matching)
            && Visited(p, c.beam, r.beam, Beyond(p, bridges), r.matching - c.matching)
            && r.beam.tr.detours == c.beam.tr.detours
  {
    if bridges != [] && c.matching < p.g.m {
      var s := Set(Adjacent(p, bridges[0]));
      var d := HopOver(p, Adjacent(p, bridges[0]), c);
      var r := HopAll(p, bridges, c);
      HopOverVisited(p, Adjacent(p, bridges[0]), c);
      HopAllVisited(p, bridges[1..], d);
      VisitedTrans(p, c.beam, d.beam, r.beam, s, Beyond(p, bridges[1..]), Beyond(p, bridges),
                   d.matching - c.matching, r.matching - d.matching);
    }
  }

  lemma ChargedVisited(p: Probe, b: Beam)
    requires b.tr.detours > 0
    ensures Visited(p, b, b.(tr := Charged(b.tr)), {}, 0)
  {
    var b' := b.(tr := Charged(b.tr));
    if BeamOk(p, b) {
      forall v ensures HeldOrFull(p, b', v) { assert HeldOrFull(p, b, v); }
    }
  }

  /** Never more enqueued than the allowance, each one charged; true exactly when some allowance was spent. */
  lemma {:induction false} BridgeOutVisited(p: Probe, ids: seq<nat>, b: Beam)
    ensures var r := BridgeOut(p, ids, b);
            && Visited(p, b, r.0, Set(ids), |ids|)
            && (r.1 <==> r.0.tr.detours < b.tr.detours)
  {
    if ids != [] && b.tr.detours > 0 {
      var (seen, queued) := Visit(p, ids[0], b);
      var r := BridgeOut(p, ids, b).0;
      SetTail(ids);
      VisitVisited(p, ids[0], b);
      if queued {
        var paid := seen.(tr := Charged(seen.tr));
        ChargedVisited(p, seen);
        VisitedTrans(p, b, seen, paid, {ids[0]}, {}, {ids[0]}, 1, 0);
        BridgeOutVisited(p, ids[1..], paid);
        VisitedTrans(p, b, paid, r, {ids[0]}, Set(ids[1..]), Set(ids), 1, |ids| - 1);
      } else {
        BridgeOutVisited(p, ids[1..], seen);
        VisitedTrans(p, b, seen, r, {ids[0]}, Set(ids[1..]), Set(ids), 1, |ids| - 1);
      }
    }
  }

  /** Everything within two hops. */
  function TwoHops(p: Probe, id: nat): set<nat> {
    Set(Adjacent(p, id)) + set x, y | x in Adjacent(p, id) && y in Adjacent(p, x) :: y
  }

  lemma {:induction false} BeyondWithin(p: Probe, bridges: seq<nat>, id: nat)
    requires Set(bridges) <= Set(Adjacent(p, id))
    ensures Beyond(p, bridges) <= TwoHops(p, id)
  {
    if bridges != [] {
      SetTail(bridges);
      BeyondWithin(p, bridges[1..], id);
      assert bridges[0] in Set(bridges) && bridges[0] in Adjacent(p, id);
    }
  }

  /** As many nodes as one expansion may score. */
  function Width(p: Probe, id: nat): nat { if |Adjacent(p, id)| >= p.g.m then |Adjacent(p, id)| else p.g.m }

  /** One expansion reaches two hops at most, and scores no more nodes than its list holds or than `m`. */
  lemma ExpandVisited(p: Probe, id: nat, b: Beam)
    ensures var r := Expand(p, id, b);
            && Visited(p, b, r.0, TwoHops(p, id), Width(p, id))
            && (!Filtered(p.pred) ==>
                  r.0.visited == b.visited + Set(Adjacent(p, id)) && r.0.tr.detours == b.tr.detours && !r.1)
  {
    var ids := Adjacent(p, id);
    if !Filtered(p.pred) {
      VisitAllVisited(p, ids, b);
    } else {
      var start := Classified(b, 0, []);
      var near := Classify(p, ids, start);
      var far := HopAll(p, near.bridges, near);
      ClassifyVisited(p, ids, start);
      ClassifyBridges(p, ids, start);
      HopAllVisited(p, near.bridges, near);
      BeyondWithin(p, near.bridges, id);
      VisitedTrans(p, b, near.beam, far.beam, Set(ids), Beyond(p, near.bridges), TwoHops(p, id),
                   near.matching, far.matching - near.matching);
      if far.matching == 0 {
        BridgeOutVisited(p, ids, far.beam);
        VisitedTrans(p, b, far.beam, Expand(p, id, b).0, TwoHops(p, id), Set(ids), TwoHops(p, id), 0, |ids|);
      }
    }
  }

  // --- the walk, the rescue and the whole layer search -------------------------------------

  /** Why the walk stops before expanding `c`, if it does. */
  predicate Stops(p: Probe, c: Cand, b: Beam) {
    (Farther(c.dist, b.results) && (!Filtered(p.pred) || |b.results| >= b.ef))
    || (Filtered(p.pred) && b.tr.expansions == 0)
  }

  function Spent(p: Probe, t: Budget): Budget {
    t.(expansions := if Filtered(p.pred) && t.expansions > 0 then t.expansions - 1 else t.expansions,
       cost := t.cost.(expansions := t.cost.expansions + 1))
  }

  function Popped(b: Beam): Beam
    requires b.frontier != []
  {
    b.(frontier := b.frontier[1..])
  }

  /** Expand the nearest of the frontier. */
  function WalkStep(p: Probe, b: Beam): Beam
    requires b.frontier != []
  {
    var c := b.frontier[0];
    var (e, bridged) := Expand(p, c.id, Popped(b).(tr := Spent(p, b.tr)));
    if Filtered(p.pred) && !bridged then e.(deferred := e.deferred + [c]) else e
  }

  lemma TwoHopsIn(p: Probe, id: nat)
    requires InRange(p.g)
    ensures TwoHops(p, id) <= Ids(Size(p.g))
  {
    forall x, y | x in Adjacent(p, id) && y in Adjacent(p, x)
      ensures x < Size(p.g) && y < Size(p.g)
    {
      assert x in Neighbors(p.g, id, p.layer) && y in Neighbors(p.g, x, p.layer);
    }
    forall x | x in Adjacent(p, id) ensures x < Size(p.g) { assert x in Neighbors(p.g, id, p.layer); }
  }

  lemma WalkStepMeasure(p: Probe, b: Beam)
    requires InRange(p.g) && b.frontier != []
    ensures Measure(p, WalkStep(p, b)) < Measure(p, b)
    ensures WalkStep(p, b).tr.detours <= b.tr.detours
  {
    var c := b.frontier[0];
    ExpandVisited(p, c.id, Popped(b).(tr := Spent(p, b.tr)));
    TwoHopsIn(p, c.id);
  }

  function Walk(p: Probe, b: Beam): (r: Beam)
    requires InRange(p.g)
    ensures r.tr.detours <= b.tr.detours
    decreases Measure(p, b)
  {
    if b.frontier == [] then b
    else if Stops(p, b.frontier[0], b) then Popped(b)
    else
      WalkStepMeasure(p, b);
      Walk(p, WalkStep(p, b))
  }

  /** Bridge out of each deferred expansion in turn while any allowance is left. */
  function RescueAll(p: Probe, cands: seq<Cand>, b: Beam): (Beam, bool) {
    if cands == [] || b.tr.detours == 0 then (b, false) else
    var (c, progressed) := BridgeOut(p, Adjacent(p, cands[0].id), b);
    var (r, more) := RescueAll(p, cands[1..], c);
    (r, progressed || more)
  }

  lemma {:induction false} RescueAllDetours(p: Probe, cands: seq<Cand>, b: Beam)
    ensures RescueAll(p, cands, b).0.tr.detours <= b.tr.detours
    ensures RescueAll(p, cands, b).1 ==> RescueAll(p, cands, b).0.tr.detours < b.tr.detours
  {
    if cands != [] && b.tr.detours > 0 {
      BridgeOutVisited(p, Adjacent(p, cands[0].id), b);
      RescueAllDetours(p, cands[1..], BridgeOut(p, Adjacent(p, cands[0].id), b).0);
    }
  }

  /** Whether a finished walk may try again from the expansions it deferred. */
  predicate Rescuable(p: Probe, b: Beam) {
    p.layer == 0 && Filtered(p.pred) && |b.results| < b.ef && b.tr.detours > 0 && b.deferred != []
  }

  function Rescued(p: Probe, b: Beam): (Beam, bool) { RescueAll(p, Sort(b.deferred), b.(deferred := [])) }

  function Rounds(p: Probe, b: Beam): Beam
    requires InRange(p.g)
    decreases b.tr.detours
  {
    var w := Walk(p, b);
    if !Rescuable(p, w) then w else
    RescueAllDetours(p, Sort(w.deferred), w.(deferred := []));
    var (r, progressed) := Rescued(p, w);
    if !progressed then r else Rounds(p, r)
  }

  /** Seeds route even when they may not be returned, and no cutoff applies to them. */
  function Seed(p: Probe, id: nat, b: Beam): Beam {
    if id in b.visited then b
    else Push(b.(visited := b.visited + {id}, tr := Measured(b.tr)), Scored(p, id), Admissible(p, id))
  }

  function SeedAll(p: Probe, ids: seq<nat>, b: Beam): Beam {
    if ids == [] then b else SeedAll(p, ids[1..], Seed(p, ids[0], b))
  }

  function NewBeam(ef: nat, tr: Budget): Beam { Beam({}, [], [], ef, [], tr) }

  function LayerBeam(p: Probe, seeds: seq<nat>, ef: nat, tr: Budget): Beam
    requires InRange(p.g)
  {
    Rounds(p, SeedAll(p, seeds, NewBeam(ef, tr)))
  }

  /** SEARCH-LAYER: up to `ef` candidates, nearest first, and the budget left. */
  function SearchLayer(p: Probe, seeds: seq<nat>, ef: nat, tr: Budget): (seq<Cand>, Budget)
    requires InRange(p.g)
  {
    (LayerBeam(p, seeds, ef, tr).results, LayerBeam(p, seeds, ef, tr).tr)
  }
}
