/** Neighbor lists in fixed-width slot runs addressed by a prefix sum of layer counts. */
module FlatLinks {
  import opened Base

  /** The three flat arrays, and the widths of a layer-0 run and of an upper-layer run. */
  datatype Flat = Flat(w0: nat, w1: nat, layerBase: seq<nat>, linkCounts: seq<nat>, links: seq<nat>)

  function Nodes(f: Flat): nat { if f.layerBase == [] then 0 else |f.layerBase| - 1 }

  function Width(f: Flat, layer: nat): nat { if layer == 0 then f.w0 else f.w1 }

  predicate Increasing(b: seq<nat>) { b != [] && b[0] == 0 && forall i :: 0 <= i < |b| - 1 ==> b[i] < b[i + 1] }

  function LevelCount(f: Flat, id: nat): nat
    requires Increasing(f.layerBase) && id < Nodes(f)
  {
    f.layerBase[id + 1] - f.layerBase[id]
  }

  /** Slots a node's first `layer` layers take. */
  function Within(f: Flat, layer: nat): nat {
    if layer == 0 then 0 else Within(f, layer - 1) + Width(f, layer - 1)
  }

  /** Start of a node's slots: after every run of every node before it. */
  function LinkBase(f: Flat, id: nat): nat
    requires Increasing(f.layerBase) && id <= Nodes(f)
  {
    if id == 0 then 0 else LinkBase(f, id - 1) + Within(f, LevelCount(f, id - 1))
  }

  function LayerSlot(f: Flat, id: nat, layer: nat): nat
    requires Increasing(f.layerBase) && id < Nodes(f)
  {
    LinkBase(f, id) + Within(f, layer)
  }

  predicate HasLayer(f: Flat, id: nat, layer: nat) {
    Increasing(f.layerBase) && id < Nodes(f) && layer < LevelCount(f, id)
  }

  function CountAt(f: Flat, id: nat, layer: nat): nat
    requires HasLayer(f, id, layer)
  {
    f.layerBase[id] + layer
  }

  function CountOf(f: Flat, id: nat, layer: nat): nat {
    if HasLayer(f, id, layer) && CountAt(f, id, layer) < |f.linkCounts| then f.linkCounts[CountAt(f, id, layer)] else 0
  }

  predicate CountOk(f: Flat, id: nat, layer: nat) { CountOf(f, id, layer) <= Width(f, layer) }

  ghost predicate WellFormed(f: Flat) {
    && Increasing(f.layerBase)
    && |f.linkCounts| == f.layerBase[Nodes(f)]
    && |f.links| == LinkBase(f, Nodes(f))
    && forall id: nat, layer: nat :: CountOk(f, id, layer)
  }

  // --- addressing ------------------------------------------------------------------------

  lemma {:induction false} LinkBaseGrows(f: Flat, i: nat, j: nat)
    requires Increasing(f.layerBase) && i <= j <= Nodes(f)
    ensures LinkBase(f, i) <= LinkBase(f, j)
    decreases j
  {
    if i < j { LinkBaseGrows(f, i, j - 1); }
  }

  lemma {:induction false} WithinGrows(f: Flat, a: nat, b: nat)
    requires a < b
    ensures Within(f, a) + Width(f, a) <= Within(f, b)
    decreases b
  {
    if a < b - 1 { WithinGrows(f, a, b - 1); }
  }

  lemma Scale(a: int, b: int, w: int)
    ensures a * w + b * w == (a + b) * w
  {
  }

  lemma {:induction false} WithinClosed(f: Flat, layer: nat)
    ensures Within(f, layer) == if layer == 0 then 0 else f.w0 + (layer - 1) * f.w1
  {
    if layer > 1 {
      WithinClosed(f, layer - 1);
      Scale(layer - 2, 1, f.w1);
    } else if layer == 1 {
      assert Within(f, 0) == 0 && 0 * f.w1 == 0;
    }
  }

  /** Each earlier node took one layer-0 run, and the prefix sum counts their upper layers: no walk is needed. */
  lemma {:induction false} LinkBaseClosed(f: Flat, id: nat)
    requires Increasing(f.layerBase) && id <= Nodes(f)
    ensures f.layerBase[id] >= id
    ensures LinkBase(f, id) == id * f.w0 + (f.layerBase[id] - id) * f.w1
  {
    if id > 0 {
      var k := LevelCount(f, id - 1);
      LinkBaseClosed(f, id - 1);
      WithinClosed(f, k);
      Scale(f.layerBase[id - 1] - (id - 1), k - 1, f.w1);
      Scale(id - 1, 1, f.w0);
    }
  }

  /** Every run is in bounds. */
  lemma RunInBounds(f: Flat, id: nat, layer: nat)
    requires HasLayer(f, id, layer)
    ensures LayerSlot(f, id, layer) + Width(f, layer) <= LinkBase(f, id + 1) <= LinkBase(f, Nodes(f))
  {
    WithinGrows(f, layer, LevelCount(f, id));
    LinkBaseGrows(f, id + 1, Nodes(f));
  }

  predicate Earlier(id: nat, layer: nat, id': nat, layer': nat) { id < id' || (id == id' && layer < layer') }

  /** Runs of different lists never overlap. */
  lemma RunsDisjoint(f: Flat, id: nat, layer: nat, id': nat, layer': nat)
    requires HasLayer(f, id, layer) && HasLayer(f, id', layer') && Earlier(id, layer, id', layer')
    ensures LayerSlot(f, id, layer) + Width(f, layer) <= LayerSlot(f, id', layer')
    ensures CountAt(f, id, layer) < CountAt(f, id', layer')
  {
    if id == id' {
      WithinGrows(f, layer, layer');
    } else {
      RunInBounds(f, id, layer);
      LinkBaseGrows(f, id + 1, id');
      BasesOrdered(f.layerBase, id + 1, id');
    }
  }

  lemma {:induction false} BasesOrdered(b: seq<nat>, i: nat, j: nat)
    requires Increasing(b) && i <= j < |b|
    ensures b[i] <= b[j]
    decreases j - i
  {
    if i < j { BasesOrdered(b, i + 1, j); }
  }

  lemma CountInBounds(f: Flat, id: nat, layer: nat)
    requires WellFormed(f) && HasLayer(f, id, layer)
    ensures CountAt(f, id, layer) < |f.linkCounts|
    ensures CountOf(f, id, layer) == f.linkCounts[CountAt(f, id, layer)] <= Width(f, layer)
    ensures LayerSlot(f, id, layer) + CountOf(f, id, layer) <= LayerSlot(f, id, layer) + Width(f, layer) <= |f.links|
  {
    BasesOrdered(f.layerBase, id + 1, Nodes(f));
    assert CountOk(f, id, layer);
    RunInBounds(f, id, layer);
  }

  // --- lists -------------------------------------------------------------------------------

  /** The live part of a run; empty where there is no such list. */
  function List(f: Flat, id: nat, layer: nat): seq<nat>
    requires WellFormed(f)
  {
    if !HasLayer(f, id, layer) then [] else
    CountInBounds(f, id, layer);
    f.links[LayerSlot(f, id, layer)..LayerSlot(f, id, layer) + CountOf(f, id, layer)]
  }

  function Splice(s: seq<nat>, at: nat, ids: seq<nat>): (r: seq<nat>)
    requires at + |ids| <= |s|
    ensures |r| == |s|
  {
    s[..at] + ids + s[at + |ids|..]
  }

  lemma SpliceOutside(s: seq<nat>, at: nat, ids: seq<nat>, a: nat, b: nat)
    requires at + |ids| <= |s| && a <= b <= |s| && (b <= at || at + |ids| <= a)
    ensures Splice(s, at, ids)[a..b] == s[a..b]
  {
  }

  lemma SpliceInside(s: seq<nat>, at: nat, ids: seq<nat>)
    requires at + |ids| <= |s|
    ensures Splice(s, at, ids)[at..at + |ids|] == ids
  {
  }

  /** Overwrite the head of a run and its count. */
  function SetRun(f: Flat, id: nat, layer: nat, ids: seq<nat>): Flat
    requires WellFormed(f) && HasLayer(f, id, layer) && |ids| <= Width(f, layer)
  {
    CountInBounds(f, id, layer);
    f.(links := Splice(f.links, LayerSlot(f, id, layer), ids),
       linkCounts := f.linkCounts[CountAt(f, id, layer) := |ids|])
  }

  /** Append to a run that has room. */
  function PushRun(f: Flat, id: nat, layer: nat, t: nat): Flat
    requires WellFormed(f) && HasLayer(f, id, layer) && |List(f, id, layer)| < Width(f, layer)
  {
    CountInBounds(f, id, layer);
    var c := CountOf(f, id, layer);
    f.(links := f.links[LayerSlot(f, id, layer) + c := t],
       linkCounts := f.linkCounts[CountAt(f, id, layer) := c + 1])
  }

  function Zeros(n: nat): (r: seq<nat>)
    ensures |r| == n && forall i :: 0 <= i < n ==> r[i] == 0
  {
    seq(n, _ => 0)
  }

  /** Storage for one more node of `levels` layers. */
  function PushSlots(f: Flat, levels: nat): Flat
    requires Increasing(f.layerBase) && levels > 0
  {
    f.(layerBase := f.layerBase + [f.layerBase[Nodes(f)] + levels],
       linkCounts := f.linkCounts + Zeros(levels),
       links := f.links + Zeros(Within(f, levels)))
  }

  /** Addresses depend on the prefix sum and the widths alone. */
  ghost predicate SameShape(f: Flat, h: Flat) { h.layerBase == f.layerBase && h.w0 == f.w0 && h.w1 == f.w1 }

  lemma {:induction false} SameWithin(f: Flat, h: Flat, layer: nat)
    requires h.w0 == f.w0 && h.w1 == f.w1
    ensures Within(h, layer) == Within(f, layer)
  {
    if layer > 0 { SameWithin(f, h, layer - 1); }
  }

  /** Up to a node both prefix sums agree on, so do the slots. */
  lemma {:induction false} SameLinkBase(f: Flat, h: Flat, id: nat)
    requires Increasing(f.layerBase) && Increasing(h.layerBase) && h.w0 == f.w0 && h.w1 == f.w1
    requires id <= Nodes(f) && id <= Nodes(h) && f.layerBase[..id + 1] == h.layerBase[..id + 1]
    ensures LinkBase(h, id) == LinkBase(f, id)
  {
    if id > 0 {
      assert f.layerBase[..id] == f.layerBase[..id + 1][..id] == h.layerBase[..id];
      assert f.layerBase[id] == f.layerBase[..id + 1][id] == h.layerBase[id];
      assert f.layerBase[id - 1] == f.layerBase[..id + 1][id - 1] == h.layerBase[id - 1];
      SameLinkBase(f, h, id - 1);
      SameWithin(f, h, LevelCount(f, id - 1));
    }
  }

  lemma SameAddress(f: Flat, h: Flat, id: nat, layer: nat)
    requires SameShape(f, h) && HasLayer(f, id, layer)
    ensures HasLayer(h, id, layer)
    ensures LayerSlot(h, id, layer) == LayerSlot(f, id, layer) && CountAt(h, id, layer) == CountAt(f, id, layer)
    ensures Width(h, layer) == Width(f, layer)
  {
    SameLinkBase(f, h, id);
    SameWithin(f, h, layer);
  }

  lemma SetRunCount(f: Flat, id: nat, layer: nat, ids: seq<nat>, x: nat, l: nat)
    requires WellFormed(f) && HasLayer(f, id, layer) && |ids| <= Width(f, layer) && HasLayer(f, x, l)
    ensures CountOf(SetRun(f, id, layer, ids), x, l) == if x == id && l == layer then |ids| else CountOf(f, x, l)
  {
    CountInBounds(f, x, l);
    CountInBounds(f, id, layer);
    if Earlier(x, l, id, layer) { RunsDisjoint(f, x, l, id, layer); }
    else if Earlier(id, layer, x, l) { RunsDisjoint(f, id, layer, x, l); }
  }

  lemma SetRunWellFormed(f: Flat, id: nat, layer: nat, ids: seq<nat>)
    requires WellFormed(f) && HasLayer(f, id, layer) && |ids| <= Width(f, layer)
    ensures WellFormed(SetRun(f, id, layer, ids))
  {
    var h := SetRun(f, id, layer, ids);
    SameLinkBase(f, h, Nodes(f));
    CountInBounds(f, id, layer);
    assert |h.linkCounts| == |f.linkCounts|;
    forall x: nat, l: nat ensures CountOk(h, x, l) {
      if HasLayer(h, x, l) {
        SetRunCount(f, id, layer, ids, x, l);
        CountInBounds(f, x, l);
      }
    }
  }

  lemma SetRunSlots(f: Flat, id: nat, layer: nat, ids: seq<nat>, x: nat, l: nat)
    requires WellFormed(f) && HasLayer(f, id, layer) && |ids| <= Width(f, layer) && HasLayer(f, x, l)
    requires !(x == id && l == layer)
    ensures var s, c := LayerSlot(f, x, l), CountOf(f, x, l);
            s + c <= |f.links| && SetRun(f, id, layer, ids).links[s..s + c] == f.links[s..s + c]
  {
    var s, c := LayerSlot(f, x, l), CountOf(f, x, l);
    CountInBounds(f, x, l);
    CountInBounds(f, id, layer);
    if Earlier(x, l, id, layer) { RunsDisjoint(f, x, l, id, layer); } else { RunsDisjoint(f, id, layer, x, l); }
    SpliceOutside(f.links, LayerSlot(f, id, layer), ids, s, s + c);
  }

  /** set_neighbors changes exactly one list. */
  lemma SetRunLists(f: Flat, id: nat, layer: nat, ids: seq<nat>, x: nat, l: nat)
    requires WellFormed(f) && HasLayer(f, id, layer) && |ids| <= Width(f, layer)
    ensures WellFormed(SetRun(f, id, layer, ids))
    ensures List(SetRun(f, id, layer, ids), x, l) == if x == id && l == layer then ids else List(f, x, l)
  {
    var h := SetRun(f, id, layer, ids);
    SetRunWellFormed(f, id, layer, ids);
    if HasLayer(f, x, l) {
      SameAddress(f, h, x, l);
      SetRunCount(f, id, layer, ids, x, l);
      if x == id && l == layer {
        CountInBounds(f, id, layer);
        SpliceInside(f.links, LayerSlot(f, id, layer), ids);
      } else {
        SetRunSlots(f, id, layer, ids, x, l);
      }
    }
  }

  /** push_neighbor appends to one list and disturbs no other; a list at its degree cap still has room for one. */
  lemma PushRunLists(f: Flat, id: nat, layer: nat, t: nat)
    requires WellFormed(f) && HasLayer(f, id, layer) && |List(f, id, layer)| < Width(f, layer)
    ensures PushRun(f, id, layer, t) == SetRun(f, id, layer, List(f, id, layer) + [t])
  {
    CountInBounds(f, id, layer);
    var s, c := LayerSlot(f, id, layer), CountOf(f, id, layer);
    assert f.links[s + c := t] == Splice(f.links, s, f.links[s..s + c] + [t]);
  }

  /** Appending to a node's list on the first layer it lacks, which nothing on the way checks, appends to the layer-0
      list
      of the node after it. */
  lemma StrayPush(f: Flat, id: nat, t: nat)
    requires WellFormed(f) && id + 1 < Nodes(f) && |List(f, id + 1, 0)| < Width(f, 0)
    ensures var layer := LevelCount(f, id);
            var idx := f.layerBase[id] + layer;
            && HasLayer(f, id + 1, 0) && idx < |f.linkCounts|
            && var at := LayerSlot(f, id, layer) + f.linkCounts[idx];
               && at < |f.links|
               && f.(links := f.links[at := t], linkCounts := f.linkCounts[idx := f.linkCounts[idx] + 1])
                  == PushRun(f, id + 1, 0, t)
  {
    CountInBounds(f, id + 1, 0);
  }

  lemma PushSlotsBase(f: Flat, levels: nat, id: nat)
    requires WellFormed(f) && levels > 0 && id <= Nodes(f)
    ensures var h := PushSlots(f, levels);
            && Increasing(h.layerBase) && Nodes(h) == Nodes(f) + 1
            && LinkBase(h, id) == LinkBase(f, id)
            && LevelCount(h, Nodes(f)) == levels && (id < Nodes(f) ==> LevelCount(h, id) == LevelCount(f, id))
  {
    var h := PushSlots(f, levels);
    assert Increasing(h.layerBase);
    assert f.layerBase[..id + 1] == h.layerBase[..id + 1];
    SameLinkBase(f, h, id);
  }

  lemma PushSlotsAt(f: Flat, levels: nat, x: nat, l: nat)
    requires WellFormed(f) && levels > 0 && HasLayer(f, x, l)
    ensures var h := PushSlots(f, levels);
            HasLayer(h, x, l) && LayerSlot(h, x, l) == LayerSlot(f, x, l) && CountOf(h, x, l) == CountOf(f, x, l)
  {
    PushSlotsBase(f, levels, x);
    SameWithin(f, PushSlots(f, levels), l);
    CountInBounds(f, x, l);
  }

  lemma PushSlotsNew(f: Flat, levels: nat, l: nat)
    requires WellFormed(f) && 0 <= l < levels
    ensures var h := PushSlots(f, levels);
            HasLayer(h, Nodes(f), l) && CountOf(h, Nodes(f), l) == 0
  {
    PushSlotsBase(f, levels, Nodes(f));
  }

  lemma PushSlotsWellFormed(f: Flat, levels: nat)
    requires WellFormed(f) && levels > 0
    ensures WellFormed(PushSlots(f, levels))
  {
    var h := PushSlots(f, levels);
    PushSlotsBase(f, levels, Nodes(f));
    SameWithin(f, h, levels);
    forall x: nat, l: nat ensures CountOk(h, x, l) {
      if x < Nodes(f) {
        PushSlotsBase(f, levels, x);
        if HasLayer(f, x, l) { PushSlotsAt(f, levels, x, l); CountInBounds(f, x, l); }
      } else if HasLayer(h, x, l) {
        PushSlotsNew(f, levels, l);
      }
    }
  }

  /** push_node gives the new node empty lists and disturbs none. */
  lemma PushSlotsLists(f: Flat, levels: nat, x: nat, l: nat)
    requires WellFormed(f) && levels > 0
    ensures WellFormed(PushSlots(f, levels))
    ensures List(PushSlots(f, levels), x, l) == List(f, x, l)
  {
    var h := PushSlots(f, levels);
    PushSlotsWellFormed(f, levels);
    PushSlotsBase(f, levels, if x < Nodes(f) then x else Nodes(f));
    if HasLayer(f, x, l) {
      PushSlotsAt(f, levels, x, l);
      CountInBounds(f, x, l);
    } else if HasLayer(h, x, l) {
      assert x == Nodes(f);
      PushSlotsNew(f, levels, l);
      CountInBounds(h, x, l);
      assert List(h, x, l) == [];
    }
  }

  /** The nested map the arrays stand for. */
  function Nested(f: Flat): (r: seq<seq<seq<nat>>>)
    requires WellFormed(f)
    ensures |r| == Nodes(f)
    ensures forall id :: 0 <= id < Nodes(f) ==> |r[id]| == LevelCount(f, id)
    ensures forall id, l :: 0 <= id < Nodes(f) && 0 <= l < LevelCount(f, id) ==> r[id][l] == List(f, id, l)
  {
    seq(Nodes(f), id requires 0 <= id < Nodes(f) =>
      seq(LevelCount(f, id), l requires 0 <= l < LevelCount(f, id) => List(f, id, l)))
  }
}
