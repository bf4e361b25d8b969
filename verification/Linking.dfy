/** What linking achieves: the new node is connected both ways on every layer it shares with the graph. */
module Linking {
  import opened Base
  import opened Candidates
  import opened Graphs
  import opened Search
  import opened SearchBounds
  import opened Queries
  import opened Insertion
  import opened LiveSearch
  import SearchReach

  /** `x` links back to `id`, unless its list is full. */
  predicate AnsweredBy(g: Graph, id: nat, layer: nat, x: nat) {
    id in Neighbors(g, x, layer) || |Neighbors(g, x, layer)| == MaxDegree(g, layer)
  }

  predicate Answered(g: Graph, id: nat, layer: nat) {
    forall x :: x in Neighbors(g, id, layer) ==> AnsweredBy(g, id, layer, x)
  }

  predicate AnsweredBelow(g: Graph, id: nat, n: nat, layer: nat) { layer < n ==> Answered(g, id, layer) }

  /** Every list but those of layer `layer` is as it was. */
  ghost predicate OtherLayersSame(g: Graph, h: Graph, layer: nat) {
    forall x: nat, l: nat :: l != layer ==> Neighbors(h, x, l) == Neighbors(g, x, l)
  }

  /** Pruning a list one too long leaves it exactly full. */
  lemma PrunedFull(g: Graph, dist: Distance, n: nat, layer: nat, ids: seq<nat>)
    requires Distinct(ids) && |ids| > MaxDegree(g, layer)
    ensures |Pruned(g, dist, n, layer, ids)| == MaxDegree(g, layer)
  {
    hide Select;
    var a, cap := Around(g, dist, n, ids), MaxDegree(g, layer);
    var r := Select(g, dist, a, cap);
    SelectOk(g, dist, a, cap);
    if |r| < cap {
      forall x | x in Set(ids) ensures x in Set(r) { var i :| 0 <= i < |ids| && ids[i] == x; assert a[i] in a; }
      SearchReach.DistinctCount(ids);
      SearchReach.DistinctCount(r);
      SearchReach.SubsetCount(Set(ids), Set(r));
    }
  }

  lemma AddLinkAnswers(g: Graph, dist: Distance, n: nat, layer: nat, id: nat)
    requires Sound(g) && layer < Levels(g, n) && id !in Neighbors(g, n, layer)
    ensures var h := AddLink(g, dist, n, layer, id);
            && AnsweredBy(h, id, layer, n) && SameNodes(g, h)
            && forall x: nat, l: nat :: x != n || l != layer ==> Neighbors(h, x, l) == Neighbors(g, x, l)
  {
    hide Pruned;
    var ids := Neighbors(g, n, layer) + [id];
    assert ListOk(g, n, layer);
    var kept := Pruned(g, dist, n, layer, ids);
    PrunedKeepsShort(g, dist, n, layer, ids);
    if |ids| > MaxDegree(g, layer) { PrunedFull(g, dist, n, layer, ids); }
    forall x: nat, l: nat
      ensures Neighbors(AddLink(g, dist, n, layer, id), x, l) ==
              if x == n && l == layer then kept else Neighbors(g, x, l)
    {
      SetListAt(g, n, layer, kept, x, l);
    }
    SetListAt(g, n, layer, kept, n, layer);
  }

  lemma PrunedKeepsShort(g: Graph, dist: Distance, n: nat, layer: nat, ids: seq<nat>)
    ensures |ids| <= MaxDegree(g, layer) ==> Pruned(g, dist, n, layer, ids) == ids
  {
    hide Select;
  }

  lemma {:induction false} LinkBackAnswers(g: Graph, dist: Distance, selected: seq<nat>, layer: nat, id: nat)
    requires Linkable(g, selected, layer, id)
    ensures var h := LinkBack(g, dist, selected, layer, id);
            && SameNodes(g, h) && OtherLayersSame(g, h, layer)
            && (forall x :: x in selected ==> AnsweredBy(h, id, layer, x))
            && forall x: nat :: x !in selected ==> Neighbors(h, x, layer) == Neighbors(g, x, layer)
    decreases |selected|
  {
    hide AddLink, Sound, Unlinked;
    if selected != [] {
      var n := selected[0];
      var m := AddLink(g, dist, n, layer, id);
      assert n in selected;
      LinkableNext(g, dist, selected, layer, id);
      LinkableSound(g, selected, layer, id);
      AddLinkAnswers(g, dist, n, layer, id);
      LinkBackAnswers(m, dist, selected[1..], layer, id);
      forall x | x in selected ensures AnsweredBy(LinkBack(g, dist, selected, layer, id), id, layer, x) {
        if x !in selected[1..] { assert x == n; }
      }
    }
  }

  lemma LinkableSound(g: Graph, selected: seq<nat>, layer: nat, id: nat)
    requires Linkable(g, selected, layer, id)
    ensures Sound(g) && id !in selected
    ensures forall n :: n in selected ==> layer < Levels(g, n) && id !in Neighbors(g, n, layer)
  {
  }

  /** Connecting a layer gives `id` the selected neighbors, each of which answers, and touches no other layer. */
  lemma ConnectAnswers(g: Graph, dist: Distance, id: nat, layer: nat, w: seq<Cand>)
    requires Sound(g) && LinkOk(g, layer, id) && DistinctIds(w) && Unlinked(g, id, layer + 1)
    requires forall c :: c in w ==> LinkOk(g, layer, c.id) && c.id != id
    ensures var h := Connect(g, dist, id, layer, w);
            && OtherLayersSame(g, h, layer) && Answered(h, id, layer) && SameNodes(g, h)
            && (w == [] <==> Neighbors(h, id, layer) == [])
  {
    hide Select, LinkBack, Linkable, Sound;
    var cap := MaxDegree(g, layer);
    var selected := Select(g, dist, w, cap);
    var g1 := SetList(g, id, layer, selected);
    ConnectLinkable(g, dist, id, layer, w);
    LinkableSound(g1, selected, layer, id);
    LinkBackAnswers(g1, dist, selected, layer, id);
    SelectOk(g, dist, w, cap);
    SetListAt(g, id, layer, selected, id, layer);
    CapPositive(g, layer);
    SelectSome(g, dist, w, cap);
    forall x: nat, l: nat | l != layer ensures Neighbors(Connect(g, dist, id, layer, w), x, l) == Neighbors(g, x, l) {
      SetListAt(g, id, layer, selected, x, l);
    }
  }

  lemma CapPositive(g: Graph, layer: nat)
    requires Sound(g)
    ensures MaxDegree(g, layer) > 0
  {
  }

  lemma SelectSome(g: Graph, dist: Distance, w: seq<Cand>, cap: nat)
    requires DistinctIds(w) && cap > 0
    ensures w == [] <==> Select(g, dist, w, cap) == []
  {
    hide Select;
    SelectOk(g, dist, w, cap);
    var r := Select(g, dist, w, cap);
    assert w != [] ==> w[0] in w;
    assert r != [] ==> r[0] in r;
  }

  /** On each of the layers connected, the new node's neighbors answer. */
  lemma {:induction false} ConnectDownAnswers(g: Graph, dist: Distance, id: nat, entry: nat, n: nat, eps: seq<nat>)
    requires Building(g, id, entry, n, eps)
    ensures var h := ConnectDown(g, dist, id, entry, n, eps);
            && (forall l: nat :: AnsweredBelow(h, id, n, l))
            && (forall x: nat, l: nat :: l >= n ==> Neighbors(h, x, l) == Neighbors(g, x, l))
    decreases n
  {
    hide Connect, LayerCandidates, Sound, Answered, Neighbors, Unlinked, SeedsOk, LiveReached, SameNodes;
    if n > 0 {
      BuildingInRange(g, id, entry, n, eps);
      BuildingNext(g, dist, id, entry, n, eps);
      var w := LayerCandidates(g, dist, id, n - 1, eps);
      var m := Connect(g, dist, id, n - 1, w);
      LayerLinks(g, dist, id, entry, n, eps);
      ConnectDownAnswers(m, dist, id, entry, n - 1, NextSeeds(w, entry));
      var h := ConnectDown(g, dist, id, entry, n, eps);
      assert h == ConnectDown(m, dist, id, entry, n - 1, NextSeeds(w, entry));
      Kept(m, h, id, n - 1);
      forall l: nat ensures AnsweredBelow(h, id, n, l) { assert AnsweredBelow(h, id, n - 1, l); }
    }
  }

  lemma BuildingInRange(g: Graph, id: nat, entry: nat, n: nat, eps: seq<nat>)
    requires Building(g, id, entry, n, eps)
    ensures InRange(g)
  {
    ValidInRange(g);
  }

  /** Lower layers are connected without touching what this one has. */
  lemma Kept(m: Graph, h: Graph, id: nat, layer: nat)
    requires SameNodes(m, h) && Answered(m, id, layer)
    requires forall x: nat, l: nat :: l >= layer ==> Neighbors(h, x, l) == Neighbors(m, x, l)
    ensures Answered(h, id, layer)
  {
    forall x | x in Neighbors(h, id, layer) ensures AnsweredBy(h, id, layer, x) { assert AnsweredBy(m, id, layer, x); }
  }

  lemma LayerLinks(g: Graph, dist: Distance, id: nat, entry: nat, n: nat, eps: seq<nat>)
    requires Building(g, id, entry, n, eps) && n > 0 && InRange(g)
    ensures var w := LayerCandidates(g, dist, id, n - 1, eps);
            var m := Connect(g, dist, id, n - 1, w);
            && OtherLayersSame(g, m, n - 1) && Answered(m, id, n - 1) && SameNodes(g, m)
            && (Neighbors(m, id, n - 1) != [] <==> w != [])
            && (w != [] <==> g.efConstruction > 0 && LiveReached(LayerOf(g, n - 1), eps))
            && forall c :: c in w ==> c.id < Size(g) && !Deleted(g, c.id)
  {
    hide Connect, SearchLayer;
    var w := LayerCandidates(g, dist, id, n - 1, eps);
    BuildSearch(g, dist, g.vectors[id], id, n - 1, eps, g.efConstruction, UNFILTERED);
    ConnectAnswers(g, dist, id, n - 1, w);
    var p := BuildProbe(g, dist, g.vectors[id], n - 1);
    SearchLayerSound(p, eps, g.efConstruction, UNFILTERED);
    FindsLiveIff(p, eps, g.efConstruction, UNFILTERED);
    SameLive(p, LayerOf(g, n - 1), eps);
  }

  // --- when the new node is linked at all -------------------------------------------------------------

  /** Connecting one layer changes nothing another layer's search sees. */
  lemma LiveElsewhere(g: Graph, m: Graph, layer: nat, l: nat, x: nat)
    requires OtherLayersSame(g, m, layer) && SameNodes(g, m) && InRange(g) && l != layer && x < Size(g)
    ensures LiveFrom(m, l, x) <==> LiveFrom(g, l, x)
  {
    SameLive(LayerOf(g, l), LayerOf(m, l), [x]);
  }

  lemma LiveWithinElsewhere(g: Graph, m: Graph, layer: nat, lo: nat, hi: nat, x: nat)
    requires OtherLayersSame(g, m, layer) && SameNodes(g, m) && InRange(g) && hi < layer && x < Size(g)
    ensures LiveWithin(m, x, lo, hi) <==> LiveWithin(g, x, lo, hi)
  {
    forall l: nat | l <= hi ensures LiveFrom(m, l, x) <==> LiveFrom(g, l, x) { LiveElsewhere(g, m, layer, l, x); }
  }

  /** Linked on a layer exactly when something live is in reach there, or was on a layer connected before it. */
  lemma {:induction false} ConnectDownLinkedIff(g: Graph, dist: Distance, id: nat, entry: nat, n: nat, eps: seq<nat>,
                                                l: nat)
    requires Building(g, id, entry, n, eps) && l < n
    ensures Neighbors(ConnectDown(g, dist, id, entry, n, eps), id, l) != [] <==>
            && g.efConstruction > 0
            && (LiveReached(LayerOf(g, n - 1), eps) || (l < n - 1 && LiveWithin(g, entry, l, n - 2)))
    decreases n
  {
    hide Connect, LayerCandidates, Sound, LiveReached, LiveWithin, LiveFrom, Unlinked, SeedsOk, Answered,
         OtherLayersSame, Neighbors;
    BuildingInRange(g, id, entry, n, eps);
    BuildingNext(g, dist, id, entry, n, eps);
    var w := LayerCandidates(g, dist, id, n - 1, eps);
    var m, next := Connect(g, dist, id, n - 1, w), NextSeeds(w, entry);
    LayerLinks(g, dist, id, entry, n, eps);
    var h := ConnectDown(g, dist, id, entry, n, eps);
    assert h == ConnectDown(m, dist, id, entry, n - 1, next);
    if l == n - 1 {
      ConnectDownAnswers(m, dist, id, entry, n - 1, next);
    } else {
      ConnectDownLinkedIff(m, dist, id, entry, n - 1, next, l);
      if w != [] {
        assert w[0] in w && next[0] == w[0].id;
        LiveSeed(LayerOf(m, n - 2), next, w[0].id);
      } else {
        LiveFromIs(m, n - 2, entry);
        LiveWithinTop(m, entry, l, n - 2);
        LiveWithinElsewhere(g, m, n - 1, l, n - 2, entry);
      }
    }
  }

  lemma LiveFromIs(g: Graph, layer: nat, x: nat)
    ensures LiveFrom(g, layer, x) <==> LiveReached(LayerOf(g, layer), [x])
  {
  }

  /** The greedy descent ends on a live node exactly when it starts on one or meets one on the way. */
  lemma {:induction false} DescendToLive(g: Graph, dist: Distance, vector: Vec, layer: nat, stop: nat, ep: nat)
    requires InRange(g) && ep < Size(g)
    ensures var r := DescendTo(g, dist, vector, layer, stop, ep);
            && r < Size(g) && (Deleted(g, r) ==> r == ep)
            && (!Deleted(g, r) <==> !Deleted(g, ep) || (stop < layer && LiveWithin(g, ep, stop + 1, layer)))
  {
    hide SearchLayer, LiveWithin, LiveFrom;
    if layer > stop {
      var p := BuildProbe(g, dist, vector, layer);
      FindsFromIff(p, ep, 1, UNFILTERED);
      var next := Nearest(SearchLayer(p, [ep], 1, UNFILTERED).0, ep);
      LiveWithinTop(g, ep, stop + 1, layer);
      DescendToLive(g, dist, vector, layer - 1, stop, next);
    }
  }

  /** A live node is in reach of the entry point, on this layer or on one above it. */
  ghost predicate LiveAbove(g: Graph, layer: nat) { g.entry.Some? && LiveWithin(g, g.entry.value, layer, g.maxLayer) }

  lemma PlacedLive(k: Kernel, g: Graph, vector: Vec, attrs: Attrs, l: nat, x: nat)
    requires Valid(g) && Refusal(g, vector).None? && x < Size(g)
    ensures LiveFrom(Placed(k, g, vector, attrs), l, x) <==> LiveFrom(g, l, x)
  {
    var placed := Placed(k, g, vector, attrs);
    ValidInRange(g);
    forall y: nat ensures Neighbors(placed, y, l) == Neighbors(g, y, l) { PlacedLists(k, g, vector, attrs, y, l); }
    SameLive(LayerOf(g, l), LayerOf(placed, l), [x]);
  }

  lemma PlacedLiveWithin(k: Kernel, g: Graph, vector: Vec, attrs: Attrs, lo: nat, hi: nat, x: nat)
    requires Valid(g) && Refusal(g, vector).None? && x < Size(g)
    ensures LiveWithin(Placed(k, g, vector, attrs), x, lo, hi) <==> LiveWithin(g, x, lo, hi)
  {
    forall l: nat ensures LiveFrom(Placed(k, g, vector, attrs), l, x) <==> LiveFrom(g, l, x) {
      PlacedLive(k, g, vector, attrs, l, x);
    }
  }

  /** Where the descent of an insertion hands over: a live node if it met one, the entry point otherwise. */
  lemma StartLive(k: Kernel, g: Graph, vector: Vec, attrs: Attrs, e: nat, l: nat)
    requires Valid(g) && Refusal(g, vector).None? && g.entry == Some(e) && l <= LevelOf(k, g) && l <= g.maxLayer
    ensures var placed, level := Placed(k, g, vector, attrs), LevelOf(k, g);
            var n := Min(level, g.maxLayer) + 1;
            InRange(placed) && e < Size(placed)
            && var ep := DescendTo(placed, k.dist, vector, g.maxLayer, level, e);
               (LiveFrom(placed, n - 1, ep) || (l < n - 1 && LiveWithin(placed, e, l, n - 2))) <==> LiveAbove(g, l)
  {
    hide LiveFrom, LiveWithin, DescendTo, ListsOk;
    var placed, level := Placed(k, g, vector, attrs), LevelOf(k, g);
    var n := Min(level, g.maxLayer) + 1;
    PlacedSound(k, g, vector, attrs);
    DescendToLive(placed, k.dist, vector, g.maxLayer, level, e);
    var ep := DescendTo(placed, k.dist, vector, g.maxLayer, level, e);
    LiveWithinTop(placed, e, l, n - 1);
    PlacedLiveWithin(k, g, vector, attrs, l, g.maxLayer, e);
    LiveWithinSplit(placed, e, l, n - 1, g.maxLayer);
    if !Deleted(placed, ep) { FindsFromIff(LayerOf(placed, n - 1), ep, 0, UNFILTERED); }
    if !Deleted(placed, e) {
      FindsFromIff(LayerOf(placed, g.maxLayer), e, 0, UNFILTERED);
      LiveWithinAt(placed, e, l, g.maxLayer);
    }
  }

  lemma LiveWithinAt(g: Graph, x: nat, lo: nat, hi: nat)
    requires lo <= hi && LiveFrom(g, hi, x)
    ensures LiveWithin(g, x, lo, hi)
  {
  }

  lemma LiveWithinSplit(g: Graph, x: nat, lo: nat, mid: nat, hi: nat)
    requires lo <= mid <= hi
    ensures LiveWithin(g, x, lo, hi) <==> LiveWithin(g, x, lo, mid) || (mid < hi && LiveWithin(g, x, mid + 1, hi))
  {
    if LiveWithin(g, x, lo, hi) {
      var l: nat :| lo <= l <= hi && LiveFrom(g, l, x);
      assert l > mid ==> mid + 1 <= l <= hi;
    }
  }

  /** Every link the new node gets is returned, or its target's list is full; and it has a link on a layer it shares
      with the graph if and only if the entry point reaches a live node on that layer or on one above. */
  lemma InsertLinksBothWays(k: Kernel, g: Graph, vector: Vec, attrs: Attrs)
    requires Valid(g) && InsertNode(k, g, vector, attrs).1.Ok?
    ensures var h := InsertNode(k, g, vector, attrs).0;
            && (forall l: nat :: Answered(h, Size(g), l))
            && (forall l: nat :: l <= LevelOf(k, g) && l <= g.maxLayer ==>
                  (Neighbors(h, Size(g), l) != [] <==> g.efConstruction > 0 && LiveAbove(g, l)))
            && (forall l: nat :: l > LevelOf(k, g) || l > g.maxLayer ==> Neighbors(h, Size(g), l) == [])
  {
    hide ConnectDown, DescendTo, ListsOk, Building, LiveWithin, LiveFrom;
    var placed, level, id := Placed(k, g, vector, attrs), LevelOf(k, g), Size(g);
    var h := InsertNode(k, g, vector, attrs).0;
    match g.entry {
      case None =>
        forall l: nat ensures Answered(h, id, l) && Neighbors(h, id, l) == [] { NewLists(k, g, vector, attrs, l); }
      case Some(e) =>
        var n := Min(level, g.maxLayer) + 1;
        PlacedBuilds(k, g, vector, attrs, e);
        var eps := [DescendTo(placed, k.dist, vector, g.maxLayer, level, e)];
        ConnectDownAnswers(placed, k.dist, id, e, n, eps);
        var c := ConnectDown(placed, k.dist, id, e, n, eps);
        forall l: nat ensures Answered(c, id, l) {
          NewLists(k, g, vector, attrs, l);
          AllAnswered(placed, k.dist, id, e, n, eps, l);
        }
        CrownedLists(c, id, level);
        assert h == Crowned(c, id, level);
        forall l: nat | l > level || l > g.maxLayer
          ensures Neighbors(h, id, l) == []
        {
          NewLists(k, g, vector, attrs, l);
        }
        forall l: nat | l <= level && l <= g.maxLayer
          ensures Neighbors(h, id, l) != [] <==> g.efConstruction > 0 && LiveAbove(g, l)
        {
          ConnectDownLinkedIff(placed, k.dist, id, e, n, eps, l);
          StartLive(k, g, vector, attrs, e, l);
          LiveFromIs(placed, n - 1, eps[0]);
        }
    }
  }

  /** A layer the node starts with no links on has, afterwards, only links that answer. */
  lemma AllAnswered(g: Graph, dist: Distance, id: nat, entry: nat, n: nat, eps: seq<nat>, l: nat)
    requires Building(g, id, entry, n, eps) && Neighbors(g, id, l) == []
    ensures Answered(ConnectDown(g, dist, id, entry, n, eps), id, l)
  {
    ConnectDownAnswers(g, dist, id, entry, n, eps);
    assert AnsweredBelow(ConnectDown(g, dist, id, entry, n, eps), id, n, l);
    assert l >= n ==> Neighbors(ConnectDown(g, dist, id, entry, n, eps), id, l) == Neighbors(g, id, l);
  }

  lemma NewLists(k: Kernel, g: Graph, vector: Vec, attrs: Attrs, l: nat)
    requires Valid(g)
    ensures Neighbors(Placed(k, g, vector, attrs), Size(g), l) == []
  {
  }

  lemma CrownedLists(c: Graph, id: nat, level: nat)
    requires forall l: nat :: Answered(c, id, l)
    ensures forall x: nat, l: nat :: Neighbors(Crowned(c, id, level), x, l) == Neighbors(c, x, l)
    ensures forall l: nat :: Answered(Crowned(c, id, level), id, l)
  {
    forall l: nat ensures Answered(Crowned(c, id, level), id, l) {
      assert Answered(c, id, l);
      forall x | x in Neighbors(c, id, l)
        ensures AnsweredBy(Crowned(c, id, level), id, l, x)
      {
        assert AnsweredBy(c, id, l, x);
      }
    }
  }
}
