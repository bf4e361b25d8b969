/** Whole graphs to bytes and back: which byte strings are graphs, which graphs are byte strings. */
module Decoder {
  import opened Base
  import opened ByteStrings
  import opened Codec
  import opened Graphs
  import opened Candidates
  import Insertion

  const HEADER_BYTES: nat := 76

  /** One row in every column. */
  predicate Columns(g: Graph) { |g.links| == |g.vectors| == |g.attrs| == |g.deleted| }

  function HeaderOf(g: Graph): Header {
    Header(g.metric, g.m, g.gamma, g.mCap, g.m0Cap, g.efConstruction, g.dim, g.maxLayer, g.seed, g.rng, g.entry,
        |g.vectors|)
  }

  function NodesOf(g: Graph): (r: seq<NodeData>)
    requires Columns(g)
    ensures |r| == |g.vectors|
  {
    seq(|g.vectors|, i requires 0 <= i < |g.vectors| => NodeData(g.deleted[i], g.vectors[i], g.links[i], g.attrs[i]))
  }

  function GraphOf(hd: Header, nodes: seq<NodeData>): Graph {
    var n := |nodes|;
    Graph(hd.metric, hd.m, hd.gamma, hd.mCap, hd.m0Cap, hd.efConstruction, hd.dim, hd.seed,
          seq(n, i requires 0 <= i < n => nodes[i].vector), seq(n, i requires 0 <= i < n => nodes[i].lists),
          seq(n, i requires 0 <= i < n => nodes[i].row), seq(n, i requires 0 <= i < n => nodes[i].deleted),
          hd.entry, hd.maxLayer, hd.rng)
  }

  lemma GraphOfParts(g: Graph)
    requires Columns(g)
    ensures GraphOf(HeaderOf(g), NodesOf(g)) == g
  {
    var h := GraphOf(HeaderOf(g), NodesOf(g));
    assert h.vectors == g.vectors && h.links == g.links && h.attrs == g.attrs && h.deleted == g.deleted;
  }

  lemma PartsOfGraph(hd: Header, nodes: seq<NodeData>)
    requires hd.n == |nodes|
    ensures Columns(GraphOf(hd, nodes)) && HeaderOf(GraphOf(hd, nodes)) == hd && NodesOf(GraphOf(hd, nodes)) == nodes
  {
    assert NodesOf(GraphOf(hd, nodes)) == nodes;
  }

  /** to_bytes. */
  function Encode(g: Graph): Bytes
    requires Columns(g)
  {
    EncodeHeader(HeaderOf(g), 0, EncodeNodes(NodesOf(g), []))
  }

  function ReadGraph(k: Kernel, b: Bytes): (r: Read<(Header, seq<NodeData>)>)
    ensures r.Ok? ==>
            |r.value.0.1| == r.value.0.0.n && (r.value.0.0.entry.Some? ==> r.value.0.0.entry.value < r.value.0.0.n)
  {
    var (hd, b) :- ReadHeader(k, b);
    var (nodes, b) :- ReadNodes(hd, |b| + SLOT_FLOOR, hd.n, Used(0, 0), b);
    Ok(((hd, nodes), b))
  }

  predicate OwnsTop(hd: Header, nodes: seq<NodeData>)
    requires hd.entry.Some? ==> hd.entry.value < |nodes|
  {
    match hd.entry case Some(e) => |nodes[e].lists| == hd.maxLayer + 1 case None => hd.maxLayer == 0
  }

  /** from_bytes. */
  function Decode(k: Kernel, b: Bytes): Result<Graph, DecodeError> {
    var ((hd, nodes), rest) :- ReadGraph(k, b);
    if rest != [] then Err(Invalid("trailing bytes")) else
    if OwnsTop(hd, nodes) then Ok(GraphOf(hd, nodes)) else
    match hd.entry
    case Some(_) => Err(Invalid("entry point does not own the top layer"))
    case None => Err(Invalid("empty graph with nonzero top layer"))
  }

  /** The degree caps of in-range parameters: what rounding m * gamma and 2 * m * gamma gives. */
  ghost predicate CapsGrow(k: Kernel) {
    forall m: nat, gamma: u32 :: 2 <= m && GAMMA_ONE <= gamma <= MAX_GAMMA
        ==> m <= k.caps(m, gamma).0 <= k.caps(m, gamma).1
  }

  /** Layers and link slots of a whole graph. */
  function Occupied(g: Graph): Used
    requires Columns(g)
  {
    Total(HeaderOf(g), Used(0, 0), NodesOf(g))
  }

  /** The decoder's declared limits and structural checks, no more and no less. */
  ghost predicate Loadable(k: Kernel, g: Graph) {
    && Columns(g) && HeaderFits(k, HeaderOf(g)) && NodesFit(HeaderOf(g), NodesOf(g)) && OwnsTop(HeaderOf(g), NodesOf(g))
    && Room(Occupied(g), |Encode(g)| - HEADER_BYTES + SLOT_FLOOR)
  }

  lemma {:induction false} HeaderLength(hd: Header, reserved: nat, rest: Bytes)
    ensures |EncodeHeader(hd, reserved, rest)| == HEADER_BYTES + |rest|
  {
  }

  lemma Sized(k: Kernel, hd: Header)
    requires CapsGrow(k) && HeaderFits(k, hd)
    ensures HeaderSized(hd)
  {
    assert hd.mCap == k.caps(hd.m, hd.gamma).0 && hd.m0Cap == k.caps(hd.m, hd.gamma).1;
    assert MAX_LAYER0_DEGREE < Bound(8);
  }

  // --- round trip -------------------------------------------------------------------------------

  /** Everything about a loadable graph survives encoding and decoding; the padding of the link arrays is not part of
      it. */
  lemma DecodeOfEncode(k: Kernel, g: Graph)
    requires CapsGrow(k) && Loadable(k, g)
    ensures Decode(k, Encode(g)) == Ok(g)
  {
    hide Codec.EncodeHeader, Codec.EncodeNodes, Codec.ReadHeader, Codec.ReadNodes;
    var hd, nodes := HeaderOf(g), NodesOf(g);
    var body := EncodeNodes(nodes, []);
    HeaderLength(hd, 0, body);
    Sized(k, hd);
    HeaderWrites(k, hd, 0, body);
    NodesWrite(hd, |body| + SLOT_FLOOR, Used(0, 0), nodes, []);
    GraphOfParts(g);
  }

  lemma ReadGraphIs(k: Kernel, b: Bytes) returns (reserved: nat)
    requires CapsGrow(k) && ReadGraph(k, b).Ok?
    ensures var ((hd, nodes), rest) := ReadGraph(k, b).value;
            && HeaderFits(k, hd) && NodesFit(hd, nodes) && reserved < Bound(1)
            && |b| >= HEADER_BYTES && Room(Total(hd, Used(0, 0), nodes), |b| - HEADER_BYTES + SLOT_FLOOR)
            && b == EncodeHeader(hd, reserved, EncodeNodes(nodes, rest))
  {
    hide Codec.EncodeHeader, Codec.EncodeNodes, Codec.ReadHeader, Codec.ReadNodes;
    reserved := HeaderReads(k, b);
    var (hd, body) := ReadHeader(k, b).value;
    HeaderLength(hd, reserved, body);
    Sized(k, hd);
    NodesRead(hd, |body| + SLOT_FLOOR, hd.n, Used(0, 0), body);
  }

  function Front(metric: Metric): (r: Bytes)
    ensures |r| == 7
  {
    LE(CODEC_MAGIC, 4) + LE(CODEC_VERSION, 2) + LE(Code(metric), 1)
  }

  lemma PrologueFlat(metric: Metric, reserved: nat, rest: Bytes)
    requires reserved < Bound(1)
    ensures EncodePrologue(metric, reserved, rest) == Front(metric) + [reserved] + rest
  {
    assert LE(reserved, 1) == [reserved];
    hide LE;
  }

  lemma ReservedByte(hd: Header, reserved: nat, rest: Bytes)
    requires reserved < Bound(1)
    ensures |EncodeHeader(hd, reserved, rest)| > 7
    ensures EncodeHeader(hd, reserved, rest)[7 := 0] == EncodeHeader(hd, 0, rest)
  {
    hide Front, EncodePrologue, EncodeParams, EncodeShape;
    var tail := EncodeParams(hd, EncodeShape(hd, rest));
    PrologueFlat(hd.metric, reserved, tail);
    PrologueFlat(hd.metric, 0, tail);
    assert (Front(hd.metric) + [reserved] + tail)[7 := 0] == Front(hd.metric) + [0] + tail;
  }

  /** Whatever the decoder accepts is, but for the reserved byte it skips, the encoding of what it returns: nothing was
      guessed, dropped or left unread. */
  lemma EncodeOfDecode(k: Kernel, b: Bytes)
    requires CapsGrow(k) && Decode(k, b).Ok?
    ensures var g := Decode(k, b).value;
            Loadable(k, g) && |b| >= HEADER_BYTES && b[7 := 0] == Encode(g)
  {
    hide Codec.EncodeHeader, Codec.EncodeNodes, Codec.ReadHeader, Codec.ReadNodes, Codec.Total;
    var reserved := ReadGraphIs(k, b);
    var ((hd, nodes), _) := ReadGraph(k, b).value;
    PartsOfGraph(hd, nodes);
    ReservedByte(hd, reserved, EncodeNodes(nodes, []));
    HeaderLength(hd, reserved, EncodeNodes(nodes, []));
    HeaderLength(hd, 0, EncodeNodes(nodes, []));
  }

  /** The decoder's range is exactly the loadable graphs. */
  lemma LoadableIff(k: Kernel, g: Graph)
    requires CapsGrow(k)
    ensures Loadable(k, g) <==> exists b :: Decode(k, b) == Ok(g)
  {
    hide Encode, Decode, Loadable;
    if exists b :: Decode(k, b) == Ok(g) {
      var b :| Decode(k, b) == Ok(g);
      EncodeOfDecode(k, b);
    }
    if Loadable(k, g) {
      LoadableColumns(k, g);
      DecodeOfEncode(k, g);
    }
  }

  lemma LoadableColumns(k: Kernel, g: Graph)
    requires Loadable(k, g)
    ensures Columns(g)
  {
  }

  // --- consumed completely ---------------------------------------------------------------------

  /** Bytes after an accepted string are noticed, whatever they are. */
  lemma TrailingBytesRefused(k: Kernel, b: Bytes, extra: Bytes)
    requires CapsGrow(k) && Decode(k, b).Ok? && extra != []
    ensures Decode(k, b + extra) == Err(Invalid("trailing bytes"))
  {
    hide Codec.EncodeHeader, Codec.EncodeNodes, Codec.ReadHeader, Codec.ReadNodes, Codec.Total;
    var reserved := ReadGraphIs(k, b);
    var ((hd, nodes), _) := ReadGraph(k, b).value;
    HeaderAppend(hd, reserved, EncodeNodes(nodes, []), extra);
    NodesAppend(nodes, [], extra);
    var body := EncodeNodes(nodes, extra);
    assert [] + extra == extra;
    HeaderLength(hd, reserved, EncodeNodes(nodes, []));
    HeaderLength(hd, reserved, body);
    Sized(k, hd);
    HeaderWrites(k, hd, reserved, body);
    NodesWrite(hd, |body| + SLOT_FLOOR, Used(0, 0), nodes, extra);
  }

  lemma HeaderAppend(hd: Header, reserved: nat, rest: Bytes, extra: Bytes)
    ensures EncodeHeader(hd, reserved, rest) + extra == EncodeHeader(hd, reserved, rest + extra)
  {
    hide LE;
    ShapeAppend(hd, rest, extra);
    assert EncodeParams(hd, EncodeShape(hd, rest)) + extra == EncodeParams(hd, EncodeShape(hd, rest) + extra);
  }

  lemma ShapeAppend(hd: Header, rest: Bytes, extra: Bytes)
    ensures EncodeShape(hd, rest) + extra == EncodeShape(hd, rest + extra)
  {
    hide LE;
  }

  lemma NodeAppend(node: NodeData, rest: Bytes, extra: Bytes)
    ensures EncodeNode(node, rest) + extra == EncodeNode(node, rest + extra)
  {
    hide LE, All, EncodeRow;
    assert EncodeBody(node.lists, node.row, rest) + extra == EncodeBody(node.lists, node.row, rest + extra);
  }

  lemma {:induction false} NodesAppend(nodes: seq<NodeData>, rest: Bytes, extra: Bytes)
    ensures EncodeNodes(nodes, rest) + extra == EncodeNodes(nodes, rest + extra)
  {
    hide EncodeNode;
    if nodes != [] {
      NodesAppend(nodes[1..], rest, extra);
      NodeAppend(nodes[0], EncodeNodes(nodes[1..], rest), extra);
    }
  }

  /** No proper prefix of an accepted string is accepted; a torn write cannot pass for a smaller graph. */
  lemma PrefixRefused(k: Kernel, b: Bytes, n: nat)
    requires CapsGrow(k) && Decode(k, b).Ok? && n < |b|
    ensures Decode(k, b[..n]).Err?
  {
    hide Decode;
    if Decode(k, b[..n]).Ok? {
      assert b[..n] + b[n..] == b;
      TrailingBytesRefused(k, b[..n], b[n..]);
    }
  }

  // --- what a decoded graph is good for ---------------------------------------------------------------

  lemma LoadedNode(k: Kernel, g: Graph, id: nat)
    requires Loadable(k, g) && id < Size(g)
    ensures |g.vectors[id]| == g.dim && 1 <= |g.links[id]| <= g.maxLayer + 1
    ensures forall layer: nat :: ListFits(Size(g), MaxDegree(g, layer), Neighbors(g, id, layer))
  {
    var node := NodesOf(g)[id];
    assert NodeFits(HeaderOf(g), node);
    forall layer: nat ensures ListFits(Size(g), MaxDegree(g, layer), Neighbors(g, id, layer)) {
      if 0 < layer < |node.lists| { assert node.lists[1..][layer - 1] in node.lists[1..]; }
    }
  }

  /** Ids in range, lists within their caps, a layer for every node, an entry point that owns the top layer, and at most
      one link slot reserved for each byte of nodes beyond the floor. */
  lemma DecodedIsStructurallyValid(k: Kernel, b: Bytes)
    requires CapsGrow(k) && Decode(k, b).Ok?
    ensures var g := Decode(k, b).value;
            StructurallyValid(g) && |b| >= HEADER_BYTES && Occupied(g).slots <= |b| - HEADER_BYTES + SLOT_FLOOR
  {
    hide Encode, Decode, Total, Codec.NodesFit;
    EncodeOfDecode(k, b);
    var g := Decode(k, b).value;
    assert |Encode(g)| == |b|;
    forall id: nat | id < Size(g)
      ensures |g.vectors[id]| == g.dim && 1 <= |g.links[id]| <= g.maxLayer + 1
    {
      LoadedNode(k, g, id);
    }
    forall id: nat, layer: nat ensures ListFits(Size(g), MaxDegree(g, layer), Neighbors(g, id, layer)) {
      if id < Size(g) { LoadedNode(k, g, id); }
    }
    assert CapsOk(g) by { assert g.mCap == k.caps(g.m, g.gamma).0 && g.m0Cap == k.caps(g.m, g.gamma).1; }
  }

  /** The declared limits on parameters and sizes; a graph built by inserts keeps to the rest of itself. */
  ghost predicate WithinLimits(k: Kernel, g: Graph) {
    Columns(g) && HeaderFits(k, HeaderOf(g)) && forall id :: 0 <= id < |g.attrs| ==> RowFits(g.attrs[id])
  }

  lemma ValidNodesFit(k: Kernel, g: Graph)
    requires Valid(g) && WithinLimits(k, g)
    ensures NodesFit(HeaderOf(g), NodesOf(g))
  {
    var hd, nodes := HeaderOf(g), NodesOf(g);
    forall id: nat | id < |nodes| ensures NodeFits(hd, nodes[id]) {
      forall layer: nat | layer < |g.links[id]| ensures ListFits(Size(g), MaxDegree(g, layer), g.links[id][layer]) {
        assert ListOk(g, id, layer);
        forall t | t in g.links[id][layer] ensures t < Size(g) { assert LinkOk(g, layer, t); }
      }
      forall ids | ids in g.links[id][1..] ensures ListFits(hd.n, hd.mCap, ids) {
        var l :| 0 <= l < |g.links[id][1..]| && g.links[id][1..][l] == ids;
        assert ids == g.links[id][l + 1];
      }
    }
  }

  /** A graph insertion built, within the declared limits, is read back exactly when its link slots, full stride on
      every
      layer, are no more than the bytes of its nodes and the floor: a sparse graph of wide caps can be written and never
      read. */
  lemma ReadableIff(k: Kernel, g: Graph)
    requires CapsGrow(k) && Valid(g) && WithinLimits(k, g)
    ensures Decode(k, Encode(g)) == Ok(g) <==> Room(Occupied(g), |Encode(g)| - HEADER_BYTES + SLOT_FLOOR)
  {
    hide Encode, Decode, Total;
    ValidNodesFit(k, g);
    if Decode(k, Encode(g)) == Ok(g) { EncodeOfDecode(k, Encode(g)); }
    if Room(Occupied(g), |Encode(g)| - HEADER_BYTES + SLOT_FLOOR) { DecodeOfEncode(k, g); }
  }

  lemma EncodedLength(g: Graph)
    requires Columns(g)
    ensures |Encode(g)| == HEADER_BYTES + |EncodeNodes(NodesOf(g), [])|
  {
    HeaderLength(HeaderOf(g), 0, EncodeNodes(NodesOf(g), []));
  }

  lemma TwoNodes(hd: Header, nodes: seq<NodeData>)
    requires |nodes| == 2 && |nodes[0].lists| == 2 && |nodes[1].lists| == 1 && hd.mCap == 2 && hd.m0Cap == 4
    ensures Total(hd, Used(0, 0), nodes) == Used(3, 13)
  {
    assert Total(hd, Used(3, 13), []) == Used(3, 13);
    assert nodes[1..] == [nodes[1]] && nodes[1..][1..] == [];
  }

  /** The decoder does not check that a link's target has the layer: it accepts graphs insertion never builds. */
  lemma LinkTargetsUnchecked(k: Kernel) returns (g: Graph)
    requires CapsGrow(k) && k.caps(2, GAMMA_ONE) == (2, 4)
    ensures Loadable(k, g) && !ListsOk(g)
  {
    hide Total, EncodeHeader, EncodeNodes;
    g := Graph(L2, 2, GAMMA_ONE, 2, 4, 2, 1, 1, [[0], [0]], [[[1], [1]], [[0]]], [[], []], [false, false], Some(0), 1,
        1);
    var nodes := NodesOf(g);
    assert nodes == [NodeData(false, [0], [[1], [1]], []), NodeData(false, [0], [[0]], [])];
    assert nodes[0].lists[1..] == [[1]] && nodes[1].lists[1..] == [];
    assert NodesFit(HeaderOf(g), nodes);
    HeaderLength(HeaderOf(g), 0, EncodeNodes(nodes, []));
    TwoNodes(HeaderOf(g), nodes);
    assert Neighbors(g, 0, 1) == [1];
    assert !ListOk(g, 0, 1) by { assert 1 in Neighbors(g, 0, 1) && !LinkOk(g, 1, 1); }
  }
}
