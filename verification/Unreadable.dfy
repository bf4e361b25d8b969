/** Histories under which a graph stays cut off, and a graph such a history builds that no backend can read. */
module Unreadable {
  import opened Base
  import opened ByteStrings
  import opened Codec
  import opened Decoder
  import opened Graphs
  import opened GraphHistory
  import Filter
  import Images
  import Insertion
  import Isolation
  import Queries

  // --- any run of inserts and vacuums ------------------------------------------------------------

  /** `h` extends `h0` by tombstones, and by inserts none of which draws a level above the top. */
  ghost predicate LowDraws(k: Kernel, empty: Graph, h0: Hist, h: Hist)
    requires Fresh(empty) && Buildable(h)
  {
    h == h0 || match h
    case Empty => false
    case Insert(p, _) => LowDraws(k, empty, h0, p)
         && Insertion.LevelOf(k, Build(k, empty, p)) <= Build(k, empty, p).maxLayer
    case Tombstone(p, _) => LowDraws(k, empty, h0, p)
  }

  lemma Extended(k: Kernel, empty: Graph, h0: Hist, h: Hist)
    requires Fresh(empty) && Buildable(h) && LowDraws(k, empty, h0, h)
    ensures Buildable(h0) && |Images.Nodes(h0)| <= |Images.Nodes(h)|
  {
  }

  /** A graph once cut off stays so, whatever is inserted and tombstoned, until a level above the top is drawn: no node
      inserted since has a link on any layer, and no search, filtered or not, returns anything. */
  lemma {:induction false} StaysCut(k: Kernel, empty: Graph, h0: Hist, h: Hist)
    requires Fresh(empty) && Buildable(h) && LowDraws(k, empty, h0, h)
    requires Buildable(h0) && Isolation.Cut(Build(k, empty, h0))
    ensures Isolation.Cut(Build(k, empty, h))
    ensures forall id: nat, l: nat :: id >= |Images.Nodes(h0)| ==> Neighbors(Build(k, empty, h), id, l) == []
  {
    hide Isolation.Cut, Valid, Insertion.InsertNode;
    var n := |Images.Nodes(h0)|;
    if h != h0 {
      match h {
        case Insert(p, node) =>
          StaysCut(k, empty, h0, p);
          Extended(k, empty, h0, p);
          var g := Build(k, empty, p);
          RefusalsAgree(g, p, node.vector);
          Isolation.CutKeptIff(k, g, node.vector, node.attrs);
          forall id: nat, l: nat | id >= n ensures Neighbors(Build(k, empty, h), id, l) == [] {
            assert Neighbors(g, id, l) == [];
            InsertedList(k, g, node, id, l);
          }
        case Tombstone(p, id) =>
          StaysCut(k, empty, h0, p);
          BuriedCut(Build(k, empty, p), id);
      }
    } else {
      forall id: nat, l: nat | id >= n
        ensures Neighbors(Build(k, empty, h), id, l) == []
      {
        NoSuchNode(Build(k, empty, h), id, l);
      }
    }
  }

  lemma NoSuchNode(g: Graph, id: nat, l: nat)
    requires Valid(g) && id >= Size(g)
    ensures Neighbors(g, id, l) == []
  {
  }

  lemma InsertedList(k: Kernel, g: Graph, node: Images.Node, id: nat, l: nat)
    requires Valid(g) && Insertion.Refusal(g, node.vector).None? && Isolation.Cut(g) && Neighbors(g, id, l) == []
    ensures Neighbors(Insertion.InsertNode(k, g, node.vector, node.attrs).0, id, l) == []
  {
    hide Insertion.InsertNode, Isolation.Cut;
    Isolation.CutKeptIff(k, g, node.vector, node.attrs);
    var h := Insertion.InsertNode(k, g, node.vector, node.attrs).0;
    Insertion.InsertKeepsValid(k, g, node.vector, node.attrs);
    InsertsOrNot(k, g, node.vector, node.attrs);
    if id < Size(g) {
      assert Neighbors(h, id, l) == Neighbors(g, id, l);
    } else if id == Size(g) {
      assert Neighbors(h, Size(g), l) == [];
    } else {
      NoSuchNode(h, id, l);
    }
  }

  lemma BuriedCut(g: Graph, id: nat)
    requires Isolation.Cut(g)
    ensures Isolation.Cut(Buried(g, id))
    ensures forall x: nat, l: nat :: Neighbors(Buried(g, id), x, l) == Neighbors(g, x, l)
  {
    hide Isolation.Cut;
    var h := Buried(g, id);
    assert h == g.(deleted := h.deleted);
    forall x: nat ensures Deleted(g, x) ==> Deleted(h, x) {}
    Isolation.BuryKeepsCut(g, h);
  }

  /** So nothing such a history adds is ever found. */
  lemma NothingFoundAgain(k: Kernel, empty: Graph, h0: Hist, h: Hist, vec: Vec, pred: Option<Filter.Predicate>,
                          n: nat, ef: nat)
    requires Fresh(empty) && Buildable(h) && LowDraws(k, empty, h0, h)
    requires Buildable(h0) && Isolation.Cut(Build(k, empty, h0))
    ensures InRange(Build(k, empty, h))
    ensures Isolation.FindsNothing(Queries.Query(Build(k, empty, h), k.dist, vec, pred), n, ef)
  {
    hide Queries.SearchInner, Isolation.Cut;
    StaysCut(k, empty, h0, h);
    ValidInRange(Build(k, empty, h));
    CutEntry(Build(k, empty, h));
    Isolation.CutFindsNothing(Queries.Query(Build(k, empty, h), k.dist, vec, pred), n, ef);
  }

  lemma CutEntry(g: Graph)
    requires Valid(g) && Isolation.Cut(g)
    ensures g.entry.Some? && g.entry.value < Size(g)
  {
  }

  // --- insert and vacuum, over and over -------------------------------------------------------------

  const ROW := Images.Node([0], [])

  /** `n` times: insert a row, vacuum it away. */
  function Churn(n: nat): Hist {
    if n == 0 then Images.Empty else Images.Tombstone(Images.Insert(Churn(n - 1), ROW), n - 1)
  }

  lemma {:induction false} ChurnIs(n: nat)
    requires n <= Images.MAX_NODES
    ensures Buildable(Churn(n)) && |Images.Nodes(Churn(n))| == n
    ensures forall i :: 0 <= i < n ==> Images.Nodes(Churn(n))[i] == ROW && i in Images.Dead(Churn(n))
  {
    if n > 0 { ChurnIs(n - 1); }
  }

  /** `n - 1` rounds of it, and one more insert. */
  function Filled(n: nat): Hist
    requires n > 0
  {
    Images.Insert(Churn(n - 1), ROW)
  }

  lemma FilledIs(n: nat)
    requires 0 < n <= Images.MAX_NODES
    ensures Buildable(Filled(n)) && |Images.Nodes(Filled(n))| == n
    ensures forall i :: 0 <= i < n ==> Images.Nodes(Filled(n))[i] == ROW
  {
    ChurnIs(n - 1);
  }

  ghost predicate SameParams(g: Graph, h: Graph) {
    g.metric == h.metric && g.m == h.m && g.gamma == h.gamma && g.mCap == h.mCap && g.m0Cap == h.m0Cap
    && g.efConstruction == h.efConstruction && g.seed == h.seed
  }

  ghost predicate Bare(g: Graph) { forall id: nat, l: nat :: Neighbors(g, id, l) == [] }

  /** Each row goes into a graph whose nodes are all tombstoned, so none is ever linked. */
  lemma {:induction false} ChurnIsBare(k: Kernel, empty: Graph, n: nat)
    requires Fresh(empty) && n <= Images.MAX_NODES && Buildable(Churn(n))
    ensures Bare(Build(k, empty, Churn(n))) && SameParams(Build(k, empty, Churn(n)), empty)
  {
    hide Valid, Insertion.InsertNode;
    ChurnIs(n);
    if n == 0 {
      FreshIsBare(empty);
    } else {
      ChurnIsBare(k, empty, n - 1);
      NextIsBare(k, empty, n - 1);
      BuriedBare(Build(k, empty, Images.Insert(Churn(n - 1), ROW)), n - 1);
    }
  }

  lemma NextIsBare(k: Kernel, empty: Graph, n: nat)
    requires Fresh(empty) && n < Images.MAX_NODES && Buildable(Images.Insert(Churn(n), ROW))
    requires Bare(Build(k, empty, Churn(n))) && SameParams(Build(k, empty, Churn(n)), empty)
    ensures Bare(Build(k, empty, Images.Insert(Churn(n), ROW)))
    ensures SameParams(Build(k, empty, Images.Insert(Churn(n), ROW)), empty)
  {
    hide Valid, Insertion.InsertNode;
    ChurnIs(n);
    var g := Build(k, empty, Churn(n));
    RefusalsAgree(g, Churn(n), ROW.vector);
    forall x: nat | x < Size(g) ensures Deleted(g, x) { assert AgreeAt(g, Churn(n), x); }
    InsertsBare(k, g);
  }

  lemma BuriedBare(g: Graph, id: nat)
    requires Bare(g)
    ensures Bare(Buried(g, id)) && SameParams(Buried(g, id), g)
  {
    forall x: nat, l: nat ensures Neighbors(Buried(g, id), x, l) == [] { assert Neighbors(g, x, l) == []; }
  }

  lemma FreshIsBare(g: Graph)
    requires Fresh(g)
    ensures Bare(g)
  {
  }

  lemma InsertsBare(k: Kernel, g: Graph)
    requires Valid(g) && Insertion.Refusal(g, ROW.vector).None? && Bare(g) && Isolation.AllTombstoned(g)
    ensures Bare(Insertion.InsertNode(k, g, ROW.vector, ROW.attrs).0)
    ensures SameParams(Insertion.InsertNode(k, g, ROW.vector, ROW.attrs).0, g)
  {
    var h := Insertion.InsertNode(k, g, ROW.vector, ROW.attrs).0;
    Insertion.InsertKeepsNodes(k, g, ROW.vector, ROW.attrs);
    if g.entry.Some? {
      Isolation.AllTombstonedIsCut(g);
      forall id: nat, l: nat ensures Neighbors(h, id, l) == [] {
        assert Neighbors(g, id, l) == [];
        InsertedList(k, g, ROW, id, l);
      }
    } else {
      assert Size(g) == 0;
    }
  }

  // --- what it costs --------------------------------------------------------------------------------

  predicate BareNode(node: NodeData) {
    |node.vector| == 1 && node.row == [] && node.lists != []
    && forall l :: 0 <= l < |node.lists| ==> node.lists[l] == []
  }

  lemma {:induction false} EmptyListsLength(lists: seq<seq<nat>>)
    requires forall l :: 0 <= l < |lists| ==> lists[l] == []
    ensures |All(lists, EncodeList)| == 8 * |lists|
  {
    if lists != [] {
      EmptyListsLength(lists[1..]);
      assert |EncodeList([])| == 8;
    }
  }

  /** 29 bytes with one layer, and eight more for every other. */
  lemma BareLength(node: NodeData, rest: Bytes)
    requires BareNode(node)
    ensures |EncodeNode(node, rest)| == 21 + 8 * |node.lists| + |rest|
  {
    EmptyListsLength(node.lists);
    assert node.vector[1..] == [];
    assert |All(node.vector, EncodeWord)| == 4;
    assert |EncodeRow(node.row)| == 8;
  }

  /** Where upper layers have at least seven slots, each node reserves `m0Cap - 28` slots more than it has bytes. */
  lemma {:induction false} BareCost(hd: Header, used: Used, nodes: seq<NodeData>)
    requires hd.m0Cap >= 28 && hd.mCap >= 7 && forall i :: 0 <= i < |nodes| ==> BareNode(nodes[i])
    ensures Total(hd, used, nodes).slots >= used.slots + |EncodeNodes(nodes, [])| + (hd.m0Cap - 28) * |nodes|
    decreases |nodes|
  {
    hide EncodeNode, NodeSlots;
    if nodes != [] {
      var levels := |nodes[0].lists|;
      BareCost(hd, After(hd, used, levels), nodes[1..]);
      BareLength(nodes[0], EncodeNodes(nodes[1..], []));
      BareSlots(hd, levels);
      Times(hd.m0Cap - 28, |nodes| - 1);
    }
  }

  lemma Times(a: nat, b: nat)
    ensures a * (b + 1) == a * b + a
  {
  }

  lemma BareSlots(hd: Header, levels: nat)
    requires hd.m0Cap >= 28 && hd.mCap >= 7 && levels > 0
    ensures NodeSlots(hd, levels) >= (hd.m0Cap - 28) + 21 + 8 * levels
  {
    More(levels - 1, hd.mCap + 1);
  }

  lemma More(a: nat, b: nat)
    requires b >= 8
    ensures a * b >= a * 8
  {
  }

  lemma BareNodes(g: Graph)
    requires Valid(g) && Bare(g) && forall x: nat :: x < Size(g) ==> |g.vectors[x]| == 1 && g.attrs[x] == []
    ensures forall i :: 0 <= i < |NodesOf(g)| ==> BareNode(NodesOf(g)[i])
  {
    forall i, l: nat | 0 <= i < Size(g) && l < |g.links[i]|
      ensures g.links[i][l] == []
    {
      assert Neighbors(g, i, l) == [];
    }
  }

  lemma FilledIsBare(k: Kernel, empty: Graph, n: nat)
    requires Fresh(empty) && 0 < n <= Images.MAX_NODES && Buildable(Filled(n))
    ensures Bare(Build(k, empty, Filled(n))) && SameParams(Build(k, empty, Filled(n)), empty)
  {
    hide Build, Bare, Churn, SameParams;
    ChurnIs(n - 1);
    ChurnIsBare(k, empty, n - 1);
    NextIsBare(k, empty, n - 1);
  }

  lemma FilledNodes(k: Kernel, empty: Graph, n: nat)
    requires Fresh(empty) && 0 < n <= Images.MAX_NODES && Buildable(Filled(n))
    ensures var g := Build(k, empty, Filled(n));
            Columns(g) && |NodesOf(g)| == n && forall i :: 0 <= i < n ==> BareNode(NodesOf(g)[i])
  {
    FilledIs(n);
    FilledIsBare(k, empty, n);
    var g := Build(k, empty, Filled(n));
    forall x: nat | x < Size(g) ensures |g.vectors[x]| == 1 && g.attrs[x] == [] { assert AgreeAt(g, Filled(n), x); }
    BareNodes(g);
  }

  /** After `n - 1` rounds of insert and vacuum, the next insert's commit writes a graph that no backend can read, as
      soon
      as the slots reserved beyond its bytes pass the floor. It is valid, and within every other limit if its draws
      are. */
  lemma ChurnUnreadable(k: Kernel, empty: Graph, n: nat)
    requires CapsGrow(k) && Fresh(empty) && 0 < n <= Images.MAX_NODES
    requires empty.m0Cap >= 28 && empty.mCap >= 7 && (empty.m0Cap - 28) * n > SLOT_FLOOR
    ensures Buildable(Filled(n))
    ensures var g := Build(k, empty, Filled(n));
            && Valid(g) && Columns(g) && Decode(k, Encode(g)) != Ok(g)
            && (ParamsFit(k, HeaderOf(empty)) && g.maxLayer <= MAX_LAYER && g.seed != 0 && g.rng != 0
                ==> WithinLimits(k, g))
  {
    hide Encode, Decode, Total, EncodeNodes, Build, Bare;
    FilledIs(n);
    FilledNodes(k, empty, n);
    FilledIsBare(k, empty, n);
    var g := Build(k, empty, Filled(n));
    assert HeaderOf(g).m0Cap == empty.m0Cap && HeaderOf(g).mCap == empty.mCap;
    BareCost(HeaderOf(g), Used(0, 0), NodesOf(g));
    EncodedLength(g);
    if Decode(k, Encode(g)) == Ok(g) {
      EncodeOfDecode(k, Encode(g));
    }
    FilledLimits(k, empty, n);
  }

  lemma FilledLimits(k: Kernel, empty: Graph, n: nat)
    requires Fresh(empty) && 0 < n <= Images.MAX_NODES && Buildable(Filled(n))
    requires var g := Build(k, empty, Filled(n)); Columns(g) && SameParams(g, empty)
    ensures var g := Build(k, empty, Filled(n));
            ParamsFit(k, HeaderOf(empty)) && g.maxLayer <= MAX_LAYER && g.seed != 0 && g.rng != 0 ==> WithinLimits(k, g)
  {
    hide Build, Filled, ParamsFit, Shaped, UnderTop;
    FilledIs(n);
    var g := Build(k, empty, Filled(n));
    assert n > 0 ==> Images.Nodes(Filled(n))[0] == ROW;
    if g.maxLayer <= MAX_LAYER && g.seed != 0 && g.rng != 0 { ShapeWithin(g); }
    ParamsWithin(k, empty, g);
    forall id: nat | id < |g.attrs| ensures RowFits(g.attrs[id]) { assert AgreeAt(g, Filled(n), id); }
  }

  lemma ShapeWithin(g: Graph)
    requires Valid(g) && g.dim <= Insertion.MAX_DIM && Size(g) <= Images.MAX_NODES
    requires g.maxLayer <= MAX_LAYER && g.seed != 0 && g.rng != 0
    ensures ShapeFits(HeaderOf(g))
  {
    assert Bound(8) > Images.MAX_NODES;
  }

  lemma ParamsWithin(k: Kernel, empty: Graph, g: Graph)
    requires SameParams(g, empty)
    ensures ParamsFit(k, HeaderOf(g)) <==> ParamsFit(k, HeaderOf(empty))
  {
  }

  /** With m = 2 and gamma = 512, which the options allow, 2077 rows are enough. */
  lemma UnreadableGraph(k: Kernel, empty: Graph)
    requires CapsGrow(k) && Fresh(empty) && empty.mCap == 1024 && empty.m0Cap == 2048
    ensures Buildable(Filled(2077)) && Valid(Build(k, empty, Filled(2077))) && Columns(Build(k, empty, Filled(2077)))
    ensures var g := Build(k, empty, Filled(2077));
            && Decode(k, Encode(g)) != Ok(g)
            && (ParamsFit(k, HeaderOf(empty)) && g.maxLayer <= MAX_LAYER && g.seed != 0 && g.rng != 0
                ==> WithinLimits(k, g))
  {
    hide Encode, Decode, Build, Filled;
    ChurnUnreadable(k, empty, 2077);
  }
}
