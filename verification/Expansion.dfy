/** What one expansion scores under a filter, as lists rather than loops with counters, and the order of a rescue. */
module Expansion {
  import opened Base
  import opened Filter
  import opened Candidates
  import opened Graphs
  import opened Search
  import opened BeamSteps
  import opened Queries

  function Matching(p: Probe, ids: seq<nat>): seq<nat> {
    if ids == [] then [] else (if NodeMatches(p, ids[0]) then [ids[0]] else []) + Matching(p, ids[1..])
  }

  function Failing(p: Probe, ids: seq<nat>): seq<nat> {
    if ids == [] then [] else (if NodeMatches(p, ids[0]) then [] else [ids[0]]) + Failing(p, ids[1..])
  }

  /** The matching neighbors of each bridge in turn, repeats and all. */
  function Across(p: Probe, bridges: seq<nat>): seq<nat> {
    if bridges == [] then [] else Matching(p, Adjacent(p, bridges[0])) + Across(p, bridges[1..])
  }

  function Less(a: nat, b: nat): nat { if a > b then a - b else 0 }

  lemma {:induction false} VisitAllAppend(p: Probe, a: seq<nat>, c: seq<nat>, b: Beam)
    ensures VisitAll(p, a + c, b) == VisitAll(p, c, VisitAll(p, a, b))
  {
    hide Visit;
    if a == [] {
      assert a + c == c;
    } else {
      assert (a + c)[1..] == a[1..] + c;
      VisitAllAppend(p, a[1..], c, Visit(p, a[0], b).0);
    }
  }

  lemma TruncatedNone<T>(s: seq<T>)
    ensures Truncated(s, 0) == []
  {
  }

  lemma TruncatedFirst<T>(x: T, s: seq<T>, k: nat)
    requires k > 0
    ensures Truncated([x] + s, k) == [x] + Truncated(s, k - 1)
  {
  }

  lemma {:induction false} HopOverIs(p: Probe, ids: seq<nat>, c: Classified)
    ensures var found := Truncated(Matching(p, ids), Less(p.g.m, c.matching));
            HopOver(p, ids, c) == Classified(VisitAll(p, found, c.beam), c.matching + |found|, c.bridges)
  {
    hide Visit, NodeMatches, Truncated;
    TruncatedNone(Matching(p, ids));
    if ids == [] {
      assert Truncated(Matching(p, ids), Less(p.g.m, c.matching)) == [] by { TruncatedEmpty(Less(p.g.m, c.matching)); }
    } else if c.matching < p.g.m {
      if NodeMatches(p, ids[0]) {
        HopOverIs(p, ids[1..], Classified(Visit(p, ids[0], c.beam).0, c.matching + 1, c.bridges));
        TruncatedFirst(ids[0], Matching(p, ids[1..]), p.g.m - c.matching);
        var rest := Truncated(Matching(p, ids[1..]), p.g.m - c.matching - 1);
        assert ([ids[0]] + rest)[1..] == rest;
      } else {
        HopOverIs(p, ids[1..], c);
        assert Matching(p, ids) == Matching(p, ids[1..]);
      }
    }
  }

  lemma TruncatedEmpty(k: nat)
    ensures Truncated<nat>([], k) == []
  {
  }

  lemma {:induction false} ClassifyIs(p: Probe, ids: seq<nat>, c: Classified)
    requires |c.bridges| <= p.g.m
    ensures Classify(p, ids, c)
         == Classified(VisitAll(p, Matching(p, ids), c.beam), c.matching + |Matching(p, ids)|,
                       c.bridges + Truncated(Failing(p, ids), p.g.m - |c.bridges|))
  {
    hide Visit, NodeMatches, Truncated;
    var room := p.g.m - |c.bridges|;
    TruncatedNone(Failing(p, ids));
    if ids == [] {
      TruncatedEmpty(room);
    } else if NodeMatches(p, ids[0]) {
      ClassifyIs(p, ids[1..], Classified(Visit(p, ids[0], c.beam).0, c.matching + 1, c.bridges));
      assert Matching(p, ids)[1..] == Matching(p, ids[1..]);
      assert Failing(p, ids) == Failing(p, ids[1..]);
    } else {
      assert Matching(p, ids) == Matching(p, ids[1..]);
      if room > 0 {
        TruncatedFirst(ids[0], Failing(p, ids[1..]), room);
        ClassifyIs(p, ids[1..], c.(bridges := c.bridges + [ids[0]]));
        var rest := Truncated(Failing(p, ids[1..]), room - 1);
        assert c.bridges + [ids[0]] + rest == c.bridges + ([ids[0]] + rest);
      } else {
        TruncatedNone(Failing(p, ids[1..]));
        ClassifyIs(p, ids[1..], c);
      }
    }
  }

  /** Taking some of one list leaves so much room for the next. */
  lemma TruncatedAppend(a: seq<nat>, b: seq<nat>, k: nat)
    ensures Truncated(a + b, k) == Truncated(a, k) + Truncated(b, Less(k, |Truncated(a, k)|))
  {
  }

  lemma {:induction false} HopAllIs(p: Probe, bridges: seq<nat>, c: Classified)
    ensures var found, r := Truncated(Across(p, bridges), Less(p.g.m, c.matching)), HopAll(p, bridges, c);
            r.beam == VisitAll(p, found, c.beam) && r.matching == c.matching + |found|
  {
    hide Truncated, HopOver;
    TruncatedNone(Across(p, bridges));
    if bridges == [] {
      TruncatedEmpty(Less(p.g.m, c.matching));
    } else if c.matching < p.g.m {
      var near, far := Matching(p, Adjacent(p, bridges[0])), Across(p, bridges[1..]);
      var room := Less(p.g.m, c.matching);
      HopOverIs(p, Adjacent(p, bridges[0]), c);
      HopAllIs(p, bridges[1..], HopOver(p, Adjacent(p, bridges[0]), c));
      TruncatedAppend(near, far, room);
      TruncatedFits(near, room);
      VisitAllAppend(p, Truncated(near, room), Truncated(far, Less(room, |Truncated(near, room)|)), c.beam);
    }
  }

  lemma TruncatedFits(s: seq<nat>, k: nat)
    ensures |Truncated(s, k)| <= k
  {
  }

  /** Under a filter an expansion scores every matching neighbor and then, as long as that makes no more than `m`, the
      matching neighbors of its first `m` others; only when there are none of either does it bridge out. */
  lemma ExpandIs(p: Probe, id: nat, b: Beam)
    requires Filtered(p.pred)
    ensures var ids := Adjacent(p, id);
            var near := Matching(p, ids);
            var far := Truncated(Across(p, Truncated(Failing(p, ids), p.g.m)), Less(p.g.m, |near|));
            Expand(p, id, b) ==
            if near + far == [] then (BridgeOut(p, ids, b).0, true) else (VisitAll(p, near + far, b), false)
  {
    hide Truncated, Classify, HopAll, BridgeOut, VisitAll;
    var ids := Adjacent(p, id);
    var near := Matching(p, ids);
    var bridges := Truncated(Failing(p, ids), p.g.m);
    var far := Truncated(Across(p, bridges), Less(p.g.m, |near|));
    ClassifyIs(p, ids, Classified(b, 0, []));
    assert [] + bridges == bridges;
    HopAllIs(p, bridges, Classify(p, ids, Classified(b, 0, [])));
    VisitAllAppend(p, near, far, b);
    VisitNone(p, b);
  }

  lemma VisitNone(p: Probe, b: Beam)
    ensures VisitAll(p, [], b) == b
  {
  }

  // --- the rescue ---------------------------------------------------------------------------------

  ghost predicate Ordered(s: seq<Cand>) { forall i, j :: 0 <= i < j < |s| ==> !Before(s[j], s[i]) }

  lemma {:induction false} InsertOrdered(s: seq<Cand>, c: Cand)
    requires Ordered(s)
    ensures Ordered(Candidates.Insert(s, c))
  {
    if s != [] && !Before(c, s[0]) {
      InsertOrdered(Rest(s), c);
      var t := Candidates.Insert(Rest(s), c);
      forall j | 0 <= j < |t| ensures !Before(t[j], s[0]) {
        assert t[j] in t;
        if t[j] != c { var i :| 0 <= i < |Rest(s)| && Rest(s)[i] == t[j]; }
      }
    }
  }

  lemma {:induction false} SortOrdered(s: seq<Cand>)
    ensures Ordered(Sort(s))
  {
    if s != [] {
      SortOrdered(s[..|s| - 1]);
      InsertOrdered(Sort(s[..|s| - 1]), s[|s| - 1]);
    }
  }

  lemma {:induction false} RescueInOrder(p: Probe, cands: seq<Cand>, b: Beam, c: Cand, y: nat, v: nat) returns (d: Cand)
    requires InRange(p.g) && Ordered(cands) && c in cands && y in Adjacent(p, c.id)
    requires y !in RescueAll(p, cands, b).0.visited && v in RescueAll(p, cands, b).0.visited && v !in b.visited
    ensures d in cands && v in Adjacent(p, d.id) && !Before(c, d)
  {
    hide BridgeOut, Adjacent, Within, Stepwise;
    var ids := Adjacent(p, cands[0].id);
    var next := BridgeOut(p, ids, b).0;
    BridgeOutVisited(p, ids, b);
    if v in next.visited {
      d := cands[0];
    } else {
      AdjacentWithin(p, cands[0].id);
      BridgeOutCovers(p, ids, b);
      SeesStepwise(p);
      RescueAllSteps(p, SeesMore(), cands[1..], next);
      assert y in Set(Adjacent(p, c.id));
      assert c != cands[0];
      d := RescueInOrder(p, cands[1..], next, c, y, v);
    }
  }

  /** The rescue spends its detours nearest first: while a deferred expansion has a neighbor left unscored, nothing
      newly
      scored is beside farther ones alone. */
  lemma RescueNearestFirst(p: Probe, w: Beam, c: Cand, y: nat, v: nat) returns (d: Cand)
    requires InRange(p.g) && c in w.deferred && y in Adjacent(p, c.id) && y !in Rescued(p, w).0.visited
    requires v in Rescued(p, w).0.visited && v !in w.visited
    ensures d in w.deferred && v in Adjacent(p, d.id) && !Before(c, d)
  {
    SortOrdered(w.deferred);
    d := RescueInOrder(p, Sort(w.deferred), w.(deferred := []), c, y, v);
  }
}
