/** Decoding a graph into the flat arrays, and an index out of its pages. */
module GraphLoader {
  import opened Base
  import opened ByteStrings
  import opened Codec
  import opened Pages
  import opened Loader
  import opened Graphs
  import Hnsw
  import FlatLinks
  import Decoder
  import Payload
  import Images
  import Insertion

  // --- a node's lists ------------------------------------------------------------------------

  /** Where the loop over a node's layers is: the bottom list read, then some of the upper ones. */
  ghost predicate LayersLoop(hd: Header, levels: nat, start: Option<Stream>, mid: Option<Stream>, lists: seq<seq<nat>>,
                             now: Option<Stream>) {
    && |lists| <= levels
    && (lists == [] ==> now == start)
    && (lists != [] ==>
         && Follows(ListReader(hd.n, hd.m0Cap), start, Ok(lists[0]), mid)
         && Looping(levels - 1, ListReader(hd.n, hd.mCap), mid, lists[1..], levels - |lists|, now))
  }

  function CapOf(hd: Header, layer: nat): nat { if layer == 0 then hd.m0Cap else hd.mCap }

  lemma LayersStep(hd: Header, levels: nat, start: Option<Stream>, mid: Option<Stream>, lists: seq<seq<nat>>,
                   before: Option<Stream>,
                   ids: seq<nat>, after: Option<Stream>) returns (mid': Option<Stream>)
    requires LayersLoop(hd, levels, start, mid, lists, before) && |lists| < levels
    requires Follows(ListReader(hd.n, CapOf(hd, |lists|)), before, Ok(ids), after)
    ensures LayersLoop(hd, levels, start, mid', lists + [ids], after)
  {
    hide Looping, Follows;
    if lists == [] {
      mid' := after;
      LoopStart(levels - 1, ListReader(hd.n, hd.mCap), after);
      assert ([] + [ids])[1..] == [];
    } else {
      mid' := mid;
      LoopStep(levels - 1, ListReader(hd.n, hd.mCap), mid, lists[1..], levels - |lists|, before, ids, after);
      assert (lists + [ids])[1..] == lists[1..] + [ids];
    }
  }

  function LayersReader(hd: Header, levels: nat): Bytes -> Read<seq<seq<nat>>>
    requires levels > 0
  {
    b => Codec.ReadLayers(hd, levels, b)
  }

  lemma LayersEnd(hd: Header, levels: nat, start: Option<Stream>, mid: Option<Stream>, lists: seq<seq<nat>>,
                  now: Option<Stream>)
    requires levels > 0 && LayersLoop(hd, levels, start, mid, lists, now) && |lists| == levels
    ensures Follows(LayersReader(hd, levels), start, Ok(lists), now)
  {
    hide Looping, Many, Codec.ReadList;
    LoopEnd(levels - 1, ListReader(hd.n, hd.mCap), mid, lists[1..], now);
    assert [lists[0]] + lists[1..] == lists;
  }

  lemma LayersFail(hd: Header, levels: nat, start: Option<Stream>, mid: Option<Stream>, lists: seq<seq<nat>>,
                   before: Option<Stream>,
                   e: DecodeError, after: Option<Stream>)
    requires LayersLoop(hd, levels, start, mid, lists, before) && |lists| < levels
    requires Follows(ListReader(hd.n, CapOf(hd, |lists|)), before, Err(e), after)
    ensures Follows(LayersReader(hd, levels), start, Err(e), after)
  {
    hide Looping, Many, Codec.ReadList;
    if lists != [] {
      LoopFails(levels - 1, ListReader(hd.n, hd.mCap), mid, lists[1..], levels - |lists|, before, e, after);
    }
  }

  /** The lists read so far, and empty ones where the rest will go. */
  function Filled(g: Graph, id: nat, lists: seq<seq<nat>>): Graph
    requires id < |g.links| && |lists| <= |g.links[id]|
  {
    g.(links := g.links[id := lists + Insertion.EmptyLists(|g.links[id]| - |lists|)])
  }

  lemma FilledStep(g: Graph, id: nat, lists: seq<seq<nat>>, ids: seq<nat>)
    requires id < |g.links| && |lists| < |g.links[id]|
    ensures Insertion.SetList(Filled(g, id, lists), id, |lists|, ids) == Filled(g, id, lists + [ids])
  {
    var n := |g.links[id]|;
    assert (lists + Insertion.EmptyLists(n - |lists|))[|lists| := ids]
           == (lists + [ids]) + Insertion.EmptyLists(n - |lists| - 1);
    assert g.links[id := lists + Insertion.EmptyLists(n - |lists|)][id := (lists + [ids])
           + Insertion.EmptyLists(n - |lists| - 1)]
        == g.links[id := (lists + [ids]) + Insertion.EmptyLists(n - |lists| - 1)];
  }

  lemma FilledNone(g: Graph, id: nat, levels: nat)
    requires id < |g.links| && g.links[id] == Insertion.EmptyLists(levels)
    ensures Filled(g, id, []) == g
  {
    assert [] + Insertion.EmptyLists(levels) == g.links[id];
    assert g.links[id := g.links[id]] == g.links;
  }

  /** One list of node `id`, into its slot run. */
  method ReadOneLayer(src: PageBytes, h: Hnsw.Hnsw, hd: Header, id: nat, layer: nat)
    returns (r: Result<seq<nat>, DecodeError>)
    requires src.Valid() && h.Consistent() && id < h.n && hd.mCap == h.mCap && hd.m0Cap == h.m0Cap
    requires layer < Levels(h.View(), id)
    modifies src, h
    ensures src.Valid() && src.left <= old(src.left) && h.Consistent() && h.n == old(h.n)
    ensures r.Ok? ==> src.Slack() == old(src.Slack())
    ensures |h.links| == |old(h.links)| && |h.linkCounts| == |old(h.linkCounts)|
    ensures r.Ok? ==> h.View() == Insertion.SetList(old(h.View()), id, layer, r.value)
    ensures Follows(ListReader(hd.n, CapOf(hd, layer)), old(src.State()), r, src.State())
  {
    hide Follows, PageBytes.State, PageBytes.Slack;
    Hnsw.ViewShape(h, id, layer);
    var ids :- Loader.ReadList(src, hd.n, CapOf(hd, layer));
    h.SetNeighbors(id, layer, ids);
    r := Ok(ids);
  }

  /** All the lists of a node just pushed. */
  method ReadLayers(src: PageBytes, h: Hnsw.Hnsw, hd: Header, id: nat, levels: nat)
    returns (r: Result<(), DecodeError>, ghost lists: seq<seq<nat>>)
    requires src.Valid() && h.Consistent() && id < h.n && hd.mCap == h.mCap && hd.m0Cap == h.m0Cap
    requires levels > 0 && h.View().links[id] == Insertion.EmptyLists(levels)
    modifies src, h
    ensures src.Valid() && src.left <= old(src.left) && h.Consistent() && h.n == old(h.n)
    ensures r.Ok? ==> src.Slack() == old(src.Slack())
    ensures |h.links| == |old(h.links)| && |h.linkCounts| == |old(h.linkCounts)|
    ensures r.Ok? ==> |lists| == levels && h.View() == old(h.View()).(links := old(h.View()).links[id := lists])
    ensures Follows(LayersReader(hd, levels), old(src.State()), if r.Ok? then Ok(lists) else Err(r.error), src.State())
  {
    hide Follows, PageBytes.State, PageBytes.Slack, LayersLoop;
    ghost var g, start, mid := h.View(), src.State(), None;
    lists := [];
    LayersBegin(hd, levels, start);
    FilledNone(g, id, levels);
    var layer := 0;
    while layer < levels
      invariant src.Valid() && src.left <= old(src.left) && src.Slack() == old(src.Slack()) && h.Consistent()
                && h.n == old(h.n)
      invariant hd.mCap == h.mCap && hd.m0Cap == h.m0Cap
      invariant |h.links| == |old(h.links)| && |h.linkCounts| == |old(h.linkCounts)|
      invariant 0 <= layer <= levels && |lists| == layer && h.View() == Filled(g, id, lists)
      invariant LayersLoop(hd, levels, start, mid, lists, src.State())
    {
      ghost var before := src.State();
      var ids := ReadOneLayer(src, h, hd, id, layer);
      if ids.Err? {
        LayersFail(hd, levels, start, mid, lists, before, ids.error, src.State());
        r := Err(ids.error);
        return;
      }
      FilledStep(g, id, lists, ids.value);
      mid := LayersStep(hd, levels, start, mid, lists, before, ids.value, src.State());
      lists := lists + [ids.value];
      layer := layer + 1;
    }
    LayersEnd(hd, levels, start, mid, lists, src.State());
    assert lists + Insertion.EmptyLists(0) == lists;
    r := Ok(());
  }

  lemma LayersBegin(hd: Header, levels: nat, start: Option<Stream>)
    ensures LayersLoop(hd, levels, start, None, [], start)
  {
  }

  // --- a node ------------------------------------------------------------------------------------

  /** The arrays were opened for this header. */
  ghost predicate OpenedFor(h: Hnsw.Hnsw, hd: Header)
    reads h
  {
    && h.Consistent() && h.metric == hd.metric && h.m == hd.m && h.gamma == hd.gamma && h.mCap == hd.mCap
        && h.m0Cap == hd.m0Cap
    && h.efConstruction == hd.efConstruction && h.dim == hd.dim && h.maxLayer == hd.maxLayer && h.seed == hd.seed
    && h.rng == hd.rng && h.entryPoint == hd.entry
  }

  /** Layers and slots the arrays have taken. */
  function Taken(h: Hnsw.Hnsw): Used
    reads h
  {
    Used(|h.linkCounts|, |h.links|)
  }

  function Appended(g: Graph, node: NodeData): Graph {
    g.(vectors := g.vectors + [node.vector], links := g.links + [node.lists],
       attrs := g.attrs + [node.row], deleted := g.deleted + [node.deleted])
  }

  lemma AppendedIs(g: Graph, vector: Vec, levels: nat, lists: seq<seq<nat>>, row: Attrs, dead: bool)
    requires Decoder.Columns(g)
    ensures var p := Insertion.PushNode(g, vector, [], levels);
            && p.links[Size(g)] == Insertion.EmptyLists(levels)
            && p.(links := p.links[Size(g) := lists], attrs := p.attrs[Size(g) := row],
                deleted := p.deleted[Size(g) := dead])
               == Appended(g, NodeData(dead, vector, lists, row))
  {
  }

  function ReservedReader(hd: Header, maxSlots: nat, used: Used): Bytes -> Read<NodeHead> {
    b => Codec.ReadReserved(hd, maxSlots, used, b)
  }

  /** A node's storage is reserved only after its layers and slots have been checked against what is left. */
  method ReserveNode(src: PageBytes, h: Hnsw.Hnsw, hd: Header, maxSlots: nat) returns (r: Result<NodeHead, DecodeError>)
    requires src.Valid() && OpenedFor(h, hd)
    modifies src, h
    ensures src.Valid() && src.left <= old(src.left)
    ensures r.Ok? ==> src.Slack() == old(src.Slack())
    ensures r.Ok? ==>
            && HeadFits(hd, r.value) && OpenedFor(h, hd) && h.n == old(h.n) + 1
            && h.View() == Insertion.PushNode(old(h.View()), r.value.vector, [], r.value.levels)
            && Taken(h) == After(hd, old(Taken(h)), r.value.levels) && Room(Taken(h), maxSlots)
    ensures Follows(ReservedReader(hd, maxSlots, old(Taken(h))), old(src.State()), r, src.State())
  {
    hide Codec.ReadHead, PageBytes.Slack;
    var head :- Loader.ReadHead(src, hd);
    if head.levels > src.left / 8 { return Err(Truncated); }
    if |h.linkCounts| + head.levels > U32_MAX { return Err(Invalid("too many layers")); }
    if |h.links| + (h.m0Cap + 1) + (head.levels - 1) * (h.mCap + 1) > maxSlots {
      return Err(Invalid("link storage exceeds what the payload could describe"));
    }
    h.PushNode(head.vector, [], head.levels);
    r := Ok(head);
  }

  /** The columns beside the arrays. */
  method Finish(h: Hnsw.Hnsw, hd: Header, id: nat, row: Attrs, dead: bool)
    requires OpenedFor(h, hd) && id < h.n
    modifies h
    ensures OpenedFor(h, hd) && h.n == old(h.n) && Taken(h) == old(Taken(h))
    ensures h.View() == old(h.View()).(attrs := old(h.attrs)[id := row], deleted := old(h.deleted)[id := dead])
  {
    h.attrs := h.attrs[id := row];
    h.deleted := h.deleted[id := dead];
  }

  function NodeReader(hd: Header, maxSlots: nat, used: Used): Bytes -> Read<NodeData> {
    b => Codec.ReadNode(hd, maxSlots, used, b)
  }

  method ReadNode(src: PageBytes, h: Hnsw.Hnsw, hd: Header, maxSlots: nat)
    returns (r: Result<(), DecodeError>, ghost node: NodeData)
    requires src.Valid() && OpenedFor(h, hd)
    modifies src, h
    ensures src.Valid() && src.left <= old(src.left)
    ensures r.Ok? ==> src.Slack() == old(src.Slack())
    ensures r.Ok? ==>
            && OpenedFor(h, hd) && h.n == old(h.n) + 1 && h.View() == Appended(old(h.View()), node)
            && Taken(h) == After(hd, old(Taken(h)), |node.lists|) && Room(Taken(h), maxSlots)
    ensures Follows(NodeReader(hd, maxSlots, old(Taken(h))), old(src.State()),
            if r.Ok? then Ok(node) else Err(r.error), src.State())
  {
    hide Codec.ReadLayers, Codec.ReadRow, Codec.ReadReserved, PageBytes.State, PageBytes.Slack;
    ghost var g := h.View();
    node := NodeData(false, [], [], []);
    var head := ReserveNode(src, h, hd, maxSlots);
    if head.Err? { r := Err(head.error); return; }
    ghost var lists;
    r, lists := ReadLayers(src, h, hd, h.n - 1, head.value.levels);
    if r.Err? { return; }
    var row := Loader.ReadRow(src);
    if row.Err? { r := Err(row.error); return; }
    Finish(h, hd, h.n - 1, row.value, head.value.deleted);
    node := NodeData(head.value.deleted, head.value.vector, lists, row.value);
    AppendedIs(g, head.value.vector, head.value.levels, lists, row.value, head.value.deleted);
    r := Ok(());
  }

  // --- the graph -----------------------------------------------------------------------------------

  /** Where the loop over the nodes is. */
  ghost predicate NodesLoop(hd: Header, maxSlots: nat, start: Option<Stream>, nodes: seq<NodeData>, used: Used,
                            now: Option<Stream>) {
    && |nodes| <= hd.n
    && (start.Some? ==>
         && now.Some? && now.value.beyond == start.value.beyond
         && ReadNodes(hd, maxSlots, hd.n, Used(0, 0), start.value.view)
            == Prepended(nodes, ReadNodes(hd, maxSlots, hd.n - |nodes|, used, now.value.view)))
  }

  lemma NodesBegin(hd: Header, maxSlots: nat, start: Option<Stream>)
    ensures NodesLoop(hd, maxSlots, start, [], Used(0, 0), start)
  {
    if start.Some? {
      var all := ReadNodes(hd, maxSlots, hd.n, Used(0, 0), start.value.view);
      if all.Ok? { assert [] + all.value.0 == all.value.0; }
    }
  }

  lemma NodesStep(hd: Header, maxSlots: nat, start: Option<Stream>, nodes: seq<NodeData>, used: Used,
                  before: Option<Stream>,
                  node: NodeData, after: Option<Stream>)
    requires NodesLoop(hd, maxSlots, start, nodes, used, before) && |nodes| < hd.n
    requires Follows(NodeReader(hd, maxSlots, used), before, Ok(node), after)
    ensures NodesLoop(hd, maxSlots, start, nodes + [node], After(hd, used, |node.lists|), after)
  {
    hide Codec.ReadNode;
    if start.Some? {
      var more := ReadNodes(hd, maxSlots, hd.n - |nodes| - 1, After(hd, used, |node.lists|), after.value.view);
      if more.Ok? { assert nodes + ([node] + more.value.0) == (nodes + [node]) + more.value.0; }
    }
  }

  lemma NodesFail(hd: Header, maxSlots: nat, start: Option<Stream>, nodes: seq<NodeData>, used: Used,
                  before: Option<Stream>,
                  e: DecodeError, after: Option<Stream>)
    requires NodesLoop(hd, maxSlots, start, nodes, used, before) && |nodes| < hd.n
    requires Follows(NodeReader(hd, maxSlots, used), before, Err(e), after)
    ensures start.Some? ==> ReadNodes(hd, maxSlots, hd.n, Used(0, 0), start.value.view) == Err(e)
  {
    hide Codec.ReadNode;
  }

  function NodesReader(hd: Header, maxSlots: nat): Bytes -> Read<seq<NodeData>> {
    b => ReadNodes(hd, maxSlots, hd.n, Used(0, 0), b)
  }

  lemma NodesEnd(hd: Header, maxSlots: nat, start: Option<Stream>, nodes: seq<NodeData>, used: Used,
                 now: Option<Stream>)
    requires NodesLoop(hd, maxSlots, start, nodes, used, now) && |nodes| == hd.n
    ensures Follows(NodesReader(hd, maxSlots), start, Ok(nodes), now)
  {
    assert nodes + [] == nodes;
  }

  lemma GraphOfAppend(hd: Header, nodes: seq<NodeData>, node: NodeData)
    ensures Appended(Decoder.GraphOf(hd, nodes), node) == Decoder.GraphOf(hd, nodes + [node])
  {
    var a, b := Appended(Decoder.GraphOf(hd, nodes), node), Decoder.GraphOf(hd, nodes + [node]);
    assert a.vectors == b.vectors && a.links == b.links && a.attrs == b.attrs && a.deleted == b.deleted;
  }

  /** Every node, into arrays that hold none. */
  method ReadAllNodes(src: PageBytes, h: Hnsw.Hnsw, hd: Header, maxSlots: nat)
    returns (r: Result<(), DecodeError>, ghost nodes: seq<NodeData>)
    requires src.Valid() && OpenedFor(h, hd) && h.n == 0 && Taken(h) == Used(0, 0)
    requires h.View() == Decoder.GraphOf(hd, [])
    modifies src, h
    ensures src.Valid() && src.left <= old(src.left)
    ensures r.Ok? ==> src.Slack() == old(src.Slack())
    ensures r.Ok? ==>
            && OpenedFor(h, hd) && |nodes| == hd.n == h.n && h.View() == Decoder.GraphOf(hd, nodes)
            && Room(Taken(h), maxSlots)
    ensures Follows(NodesReader(hd, maxSlots), old(src.State()), if r.Ok? then Ok(nodes) else Err(r.error), src.State())
  {
    hide Codec.ReadNode, NodesLoop, PageBytes.State, PageBytes.Slack;
    ghost var start := src.State();
    nodes := [];
    var id := 0;
    NodesBegin(hd, maxSlots, start);
    while id < hd.n
      invariant src.Valid() && src.left <= old(src.left) && src.Slack() == old(src.Slack()) && OpenedFor(h, hd)
      invariant 0 <= id <= hd.n && |nodes| == id == h.n && h.View() == Decoder.GraphOf(hd, nodes)
                && Room(Taken(h), maxSlots)
      invariant NodesLoop(hd, maxSlots, start, nodes, Taken(h), src.State())
    {
      ghost var before, used := src.State(), Taken(h);
      ghost var node;
      r, node := ReadNode(src, h, hd, maxSlots);
      if r.Err? {
        NodesFail(hd, maxSlots, start, nodes, used, before, r.error, src.State());
        return;
      }
      NodesStep(hd, maxSlots, start, nodes, used, before, node, src.State());
      GraphOfAppend(hd, nodes, node);
      nodes := nodes + [node];
      id := id + 1;
    }
    NodesEnd(hd, maxSlots, start, nodes, Taken(h), src.State());
    r := Ok(());
  }

  /** insert relies on the entry point owning the top layer. */
  method CheckEntry(h: Hnsw.Hnsw) returns (r: Result<(), DecodeError>)
    requires h.Consistent() && (h.entryPoint.Some? ==> h.entryPoint.value < h.n)
    ensures r == match h.entryPoint
                 case Some(e) =>
                   if |h.View().links[e]| == h.maxLayer + 1 then Ok(())
                       else Err(Invalid("entry point does not own the top layer"))
                 case None => if h.maxLayer == 0 then Ok(()) else Err(Invalid("empty graph with nonzero top layer"))
  {
    match h.entryPoint {
      case Some(e) =>
        Hnsw.ViewShape(h, e, 0);
        if h.layerBase[e + 1] - h.layerBase[e] - 1 != h.maxLayer {
          return Err(Invalid("entry point does not own the top layer"));
        }
      case None =>
        if h.maxLayer != 0 { return Err(Invalid("empty graph with nonzero top layer")); }
    }
    r := Ok(());
  }

  /** from_graph_bytes: the graph the bytes before the fence decode to, in arrays no larger than those bytes warrant. */
  method FromGraphBytes(k: Kernel, src: PageBytes) returns (r: Result<Hnsw.Hnsw, DecodeError>)
    requires src.Valid()
    modifies src
    ensures src.Valid() && src.left <= old(src.left)
    ensures r.Ok? ==> src.Slack() == old(src.Slack())
    ensures r.Ok? ==> fresh(r.value) && r.value.Consistent() && r.value.kernel == k && src.left == 0
    ensures r.Ok? ==> |r.value.links| <= old(src.left) + SLOT_FLOOR
    ensures old(src.State()).None? ==> r.Err?
    ensures old(src.State()).Some? ==>
            var s := old(src.State()).value;
            match Decoder.Decode(k, s.view)
            case Ok(g) => r.Ok? && r.value.View() == g && src.State() == Some(Stream([], s.beyond))
            case Err(e) => r == Err(e)
  {
    hide Codec.ReadHeader, ReadNodes, Hnsw.Hnsw.Consistent;
    var hd :- Loader.ReadHeader(k, src);
    var maxSlots := src.left + SLOT_FLOOR;
    var h := new Hnsw.Hnsw.Restored(k, hd.metric, hd.m, hd.gamma, hd.mCap, hd.m0Cap, hd.efConstruction,
                                    hd.dim, hd.maxLayer, hd.seed, hd.rng, hd.entry);
    var read, nodes := ReadAllNodes(src, h, hd, maxSlots);
    if read.Err? { return Err(read.error); }
    if src.left != 0 { return Err(Invalid("trailing bytes")); }
    var _ :- CheckEntry(h);
    r := Ok(h);
  }
}
