/** The HNSW graph each history stands for, and the promise that the two never disagree about which rows are
    accepted. */
module GraphHistory {
  import opened Base
  import opened Graphs
  import Candidates
  import Images
  import Insertion
  import Queries

  type Hist = Images.Graph

  /** Every insert in the history was accepted, and every tombstone names a node. */
  predicate Buildable(h: Hist) {
    match h
    case Empty => true
    case Insert(p, node) => Buildable(p) && Images.Accepts(p, node.vector)
    case Tombstone(p, id) => Buildable(p) && id < |Images.Nodes(p)|
  }

  ghost predicate AgreeAt(g: Graph, h: Hist, id: nat) {
    id < Size(g) && id < |Images.Nodes(h)| ==>
      && g.vectors[id] == Images.Nodes(h)[id].vector
      && AttrsOf(g, id) == Images.Nodes(h)[id].attrs
      && (Deleted(g, id) <==> id in Images.Dead(h))
  }

  /** One node for one insert, tombstones and all. */
  ghost predicate Agrees(g: Graph, h: Hist) {
    && Size(g) == |Images.Nodes(h)| && g.dim == Images.Dim(h)
    && forall id: nat :: AgreeAt(g, h, id)
  }

  function Buried(g: Graph, id: nat): Graph { if id < |g.deleted| then g.(deleted := g.deleted[id := true]) else g }

  /** Parameters and nothing else. */
  ghost predicate Fresh(g: Graph) { Valid(g) && Size(g) == 0 }

  /** Fold the history's inserts and tombstones over an empty graph. */
  function Build(k: Kernel, empty: Graph, h: Hist): (g: Graph)
    requires Fresh(empty) && Buildable(h)
    ensures Valid(g) && Agrees(g, h)
  {
    match h
    case Empty => AgreesEmpty(empty); empty
    case Insert(p, node) =>
      BuildInsert(k, Build(k, empty, p), p, node);
      Insertion.InsertNode(k, Build(k, empty, p), node.vector, node.attrs).0
    case Tombstone(p, id) =>
      BuriedKeeps(Build(k, empty, p), p, id);
      Buried(Build(k, empty, p), id)
  }

  lemma AgreesEmpty(g: Graph)
    requires Fresh(g)
    ensures Agrees(g, Images.Empty)
  {
  }

  /** Insertion refuses exactly what the history refuses. */
  lemma RefusalsAgree(g: Graph, h: Hist, v: Vec)
    requires Valid(g) && Agrees(g, h)
    ensures Insertion.Refusal(g, v).None? <==> Images.Accepts(h, v)
  {
    hide ListsOk, AgreeAt;
  }

  lemma BuildInsert(k: Kernel, g: Graph, p: Hist, node: Images.Node)
    requires Valid(g) && Agrees(g, p) && Buildable(p) && Images.Accepts(p, node.vector)
    ensures var r := Insertion.InsertNode(k, g, node.vector, node.attrs);
            r.1 == Ok(Size(g)) && Valid(r.0) && Agrees(r.0, Images.Insert(p, node))
  {
    hide Insertion.Accepted, ListsOk;
    RefusalsAgree(g, p, node.vector);
    Insertion.InsertKeepsValid(k, g, node.vector, node.attrs);
    Insertion.InsertKeepsNodes(k, g, node.vector, node.attrs);
    var r, h := Insertion.InsertNode(k, g, node.vector, node.attrs).0, Images.Insert(p, node);
    DeadInHistory(p);
    assert Images.Nodes(h) == Images.Nodes(p) + [node] && Images.Dead(h) == Images.Dead(p);
    forall id: nat ensures AgreeAt(r, h, id) {
      assert AgreeAt(g, p, id);
      assert Size(r) == Size(g) + 1 && Shaped(g);
    }
  }

  /** No history names a node it has not inserted yet. */
  lemma {:induction false} DeadInHistory(h: Hist)
    requires Buildable(h)
    ensures forall id :: id in Images.Dead(h) ==> id < |Images.Nodes(h)|
  {
    match h
    case Empty =>
    case Insert(p, _) => DeadInHistory(p);
    case Tombstone(p, _) => DeadInHistory(p);
  }

  /** A tombstone routes on: it changes one flag, and no link. */
  lemma BuriedKeeps(g: Graph, p: Hist, id: nat)
    requires Valid(g) && Agrees(g, p) && id < |Images.Nodes(p)|
    ensures Valid(Buried(g, id)) && Agrees(Buried(g, id), Images.Tombstone(p, id))
  {
    var r, h := Buried(g, id), Images.Tombstone(p, id);
    forall x: nat, l: nat ensures ListOk(r, x, l) { assert ListOk(g, x, l); }
    forall x: nat ensures AgreeAt(r, h, x) { assert AgreeAt(g, p, x); }
  }

  // --- the storage layer keeps to such histories -----------------------------------------------------

  /** Replaying rows appends only what the graph accepts. */
  lemma {:induction false} ReplayBuildable(img: Images.Image, rows: seq<Images.RankedRow>)
    requires Buildable(img.graph) && Images.ReplayRows(img, rows).Some?
    ensures Buildable(Images.ReplayRows(img, rows).value.graph)
  {
    if rows != [] { ReplayBuildable(img, rows[..|rows| - 1]); }
  }

  /** A vacuum tombstones nodes the image has. */
  lemma {:induction false} VacuumBuildable(h: Hist, tids: seq<Tid>, gone: set<Tid>, n: nat)
    requires Buildable(h) && n <= |tids| == |Images.Nodes(h)|
    ensures Buildable(Images.TombstoneGone(h, tids, gone, n))
  {
    if n > 0 {
      VacuumBuildable(h, tids, gone, n - 1);
      Images.TombstoneGoneDead(h, tids, gone, n - 1);
    }
  }

  /** Rows replayed onto an image are inserts made one after another into its graph: a flush writes the graph that
      inserting the staged rows into the graph then stored would give. */
  function InsertAll(k: Kernel, g: Graph, rows: seq<Images.RankedRow>): Option<Graph>
    requires Valid(g)
    ensures InsertAll(k, g, rows).Some? ==> Valid(InsertAll(k, g, rows).value)
  {
    if rows == [] then Some(g) else
    match InsertAll(k, g, rows[..|rows| - 1])
    case None => None
    case Some(h) =>
      var node := rows[|rows| - 1].node;
      Insertion.InsertKeepsValid(k, h, node.vector, node.attrs);
      var r := Insertion.InsertNode(k, h, node.vector, node.attrs);
      if r.1.Ok? then Some(r.0) else None
  }

  lemma {:induction false} ReplayIsInserting(k: Kernel, empty: Graph, img: Images.Image, rows: seq<Images.RankedRow>)
    requires Fresh(empty) && Buildable(img.graph)
    ensures match Images.ReplayRows(img, rows)
            case None => InsertAll(k, Build(k, empty, img.graph), rows) == None
            case Some(m) =>
              Buildable(m.graph)
              && InsertAll(k, Build(k, empty, img.graph), rows) == Some(Build(k, empty, m.graph))
  {
    hide Insertion.InsertNode;
    if rows != [] {
      var init, node := rows[..|rows| - 1], rows[|rows| - 1].node;
      ReplayIsInserting(k, empty, img, init);
      if Images.ReplayRows(img, init).Some? {
        var m := Images.ReplayRows(img, init).value;
        var g := Build(k, empty, m.graph);
        RefusalsAgree(g, m.graph, node.vector);
        InsertsOrNot(k, g, node.vector, node.attrs);
      }
    }
  }

  lemma InsertsOrNot(k: Kernel, g: Graph, v: Vec, attrs: Attrs)
    requires Valid(g)
    ensures Insertion.InsertNode(k, g, v, attrs).1.Ok? <==> Insertion.Refusal(g, v).None?
  {
    hide Insertion.Accepted, Valid;
  }
}
