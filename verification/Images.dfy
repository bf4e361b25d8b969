/** The stored index image, and what replaying rows onto one or vacuuming one means.

    The graph is kept as the history that built it. Insertion is deterministic, so two graphs
    with one history are one graph, and module GraphHistory gives every history its HNSW graph. */
module Images {
  import opened Base

  const MAX_DIM: nat := 16000
  const MAX_NODES: nat := U32_MAX

  datatype Node = Node(vector: Vec, attrs: Attrs)

  datatype Graph = Empty | Insert(prev: Graph, node: Node) | Tombstone(prev: Graph, id: nat)

  function Nodes(g: Graph): seq<Node> {
    match g
    case Empty => []
    case Insert(p, n) => Nodes(p) + [n]
    case Tombstone(p, _) => Nodes(p)
  }

  function Dead(g: Graph): set<nat> {
    match g
    case Empty => {}
    case Insert(p, _) => Dead(p)
    case Tombstone(p, id) => Dead(p) + {id}
  }

  /** Zero until the first row fixes the dimension. */
  function Dim(g: Graph): nat {
    var ns := Nodes(g); if ns == [] then 0 else |ns[0].vector|
  }

  /** Whether inserting `v` succeeds. */
  predicate Accepts(g: Graph, v: Vec) {
    && 0 < |v| <= MAX_DIM
    && (Dim(g) == 0 || |v| == Dim(g))
    && |Nodes(g)| < MAX_NODES
  }

  /** A row that has attributes but no vector. */
  datatype UnrankableRow = UnrankableRow(tid: Tid, attrs: Attrs)

  /** A row that has a vector, with its heap address. */
  datatype RankedRow = RankedRow(node: Node, tid: Tid)

  datatype Image = Image(graph: Graph, tids: seq<Tid>, unrankable: seq<UnrankableRow>)

  /** The TID table covers every node. */
  predicate Valid(img: Image) { |img.tids| == |Nodes(img.graph)| }

  /** Append rows to an image in order; None when the graph refuses one. */
  function ReplayRows(img: Image, rows: seq<RankedRow>): Option<Image> {
    if rows == [] then Some(img) else
    match ReplayRows(img, rows[..|rows| - 1])
    case None => None
    case Some(m) =>
      var r := rows[|rows| - 1];
      if Accepts(m.graph, r.node.vector)
      then Some(Image(Insert(m.graph, r.node), m.tids + [r.tid], m.unrankable))
      else None
  }

  /** Rows of both kinds. */
  function Replay(img: Image, rows: seq<RankedRow>, vrows: seq<UnrankableRow>): Option<Image> {
    match ReplayRows(img, rows)
    case None => None
    case Some(m) => Some(m.(unrankable := img.unrankable + vrows))
  }

  lemma {:induction false} ReplayRowsExtends(img: Image, rows: seq<RankedRow>)
    requires Valid(img) && ReplayRows(img, rows).Some?
    ensures var r := ReplayRows(img, rows).value;
            && Valid(r)
            && r.unrankable == img.unrankable
            && Dead(r.graph) == Dead(img.graph)
            && |r.tids| == |img.tids| + |rows|
            && Nodes(r.graph)[..|img.tids|] == Nodes(img.graph) && r.tids[..|img.tids|] == img.tids
            && forall i :: 0 <= i < |rows| ==>
                 rows[i] == RankedRow(Nodes(r.graph)[|img.tids| + i], r.tids[|img.tids| + i])
  {
    if rows != [] {
      ReplayRowsExtends(img, rows[..|rows| - 1]);
      var m := ReplayRows(img, rows[..|rows| - 1]).value;
      var r := ReplayRows(img, rows).value;
      assert Nodes(r.graph) == Nodes(m.graph) + [rows[|rows| - 1].node];
      assert Nodes(r.graph)[..|img.tids|] == Nodes(m.graph)[..|img.tids|];
      assert r.tids[..|img.tids|] == m.tids[..|img.tids|];
      forall i | 0 <= i < |rows|
        ensures rows[i] == RankedRow(Nodes(r.graph)[|img.tids| + i], r.tids[|img.tids| + i])
      {
        if i < |rows| - 1 { assert rows[..|rows| - 1][i] == rows[i]; }
      }
    }
  }

  /** Replaying in two instalments is replaying at once. */
  lemma {:induction false} ReplayRowsAppend(img: Image, a: seq<RankedRow>, b: seq<RankedRow>)
    ensures ReplayRows(img, a + b) ==
            match ReplayRows(img, a) case None => None case Some(m) => ReplayRows(m, b)
  {
    if b == [] {
      assert a + b == a;
    } else {
      assert (a + b)[..|a + b| - 1] == a + b[..|b| - 1];
      ReplayRowsAppend(img, a, b[..|b| - 1]);
    }
  }

  // --- vacuum --------------------------------------------------------------

  /** Tombstone every node among the first `n` whose heap tuple is gone. */
  function TombstoneGone(g: Graph, tids: seq<Tid>, gone: set<Tid>, n: nat): Graph
    requires n <= |tids|
  {
    if n == 0 then g else
    var p := TombstoneGone(g, tids, gone, n - 1);
    if tids[n - 1] in gone && n - 1 !in Dead(p) then Tombstone(p, n - 1) else p
  }

  function KeepLive(rows: seq<UnrankableRow>, gone: set<Tid>): seq<UnrankableRow> {
    if rows == [] then [] else
    KeepLive(rows[..|rows| - 1], gone) + (if rows[|rows| - 1].tid in gone then [] else [rows[|rows| - 1]])
  }

  function Vacuumed(img: Image, gone: set<Tid>): Image {
    Image(TombstoneGone(img.graph, img.tids, gone, |img.tids|), img.tids, KeepLive(img.unrankable, gone))
  }

  lemma {:induction false} TombstoneGoneDead(g: Graph, tids: seq<Tid>, gone: set<Tid>, n: nat)
    requires n <= |tids|
    ensures Nodes(TombstoneGone(g, tids, gone, n)) == Nodes(g)
    ensures forall i :: i in Dead(TombstoneGone(g, tids, gone, n)) <==>
                        i in Dead(g) || (0 <= i < n && tids[i] in gone)
  {
    if n > 0 { TombstoneGoneDead(g, tids, gone, n - 1); }
  }

  // --- which heap rows an image answers for ----------------------------------

  /** TIDs of live nodes among the first `n`. */
  function LiveNodeTids(tids: seq<Tid>, dead: set<nat>, n: nat): multiset<Tid>
    requires n <= |tids|
  {
    if n == 0 then multiset{} else
    LiveNodeTids(tids, dead, n - 1) + (if n - 1 in dead then multiset{} else multiset{tids[n - 1]})
  }

  function RowTids(rows: seq<RankedRow>): multiset<Tid> {
    if rows == [] then multiset{} else RowTids(rows[..|rows| - 1]) + multiset{rows[|rows| - 1].tid}
  }

  function UnrankableTids(rows: seq<UnrankableRow>): multiset<Tid> {
    if rows == [] then multiset{} else UnrankableTids(rows[..|rows| - 1]) + multiset{rows[|rows| - 1].tid}
  }

  /** Every heap row the image can still return, counted. */
  function LiveTids(img: Image): multiset<Tid> {
    LiveNodeTids(img.tids, Dead(img.graph), |img.tids|) + UnrankableTids(img.unrankable)
  }

  lemma {:induction false} UnrankableTidsAppend(a: seq<UnrankableRow>, b: seq<UnrankableRow>)
    ensures UnrankableTids(a + b) == UnrankableTids(a) + UnrankableTids(b)
  {
    if b == [] {
      assert a + b == a;
    } else {
      assert (a + b)[..|a + b| - 1] == a + b[..|b| - 1];
      UnrankableTidsAppend(a, b[..|b| - 1]);
    }
  }

  lemma {:induction false} RowTidsAppend(a: seq<RankedRow>, b: seq<RankedRow>)
    ensures RowTids(a + b) == RowTids(a) + RowTids(b)
  {
    if b == [] {
      assert a + b == a;
    } else {
      assert (a + b)[..|a + b| - 1] == a + b[..|b| - 1];
      RowTidsAppend(a, b[..|b| - 1]);
    }
  }

  lemma {:induction false} LiveNodeTidsPrefix(s: seq<Tid>, t: seq<Tid>, dead: set<nat>, n: nat)
    requires n <= |s| && n <= |t| && s[..n] == t[..n]
    ensures LiveNodeTids(s, dead, n) == LiveNodeTids(t, dead, n)
  {
    if n > 0 {
      assert s[n - 1] == s[..n][n - 1] == t[n - 1];
      assert s[..n - 1] == s[..n][..n - 1] == t[..n - 1];
      LiveNodeTidsPrefix(s, t, dead, n - 1);
    }
  }

  ghost predicate DeadInRange(img: Image) { forall i :: i in Dead(img.graph) ==> i < |img.tids| }

  lemma LiveTidsInsert(img: Image, row: RankedRow)
    requires Valid(img) && DeadInRange(img)
    ensures LiveTids(Image(Insert(img.graph, row.node), img.tids + [row.tid], img.unrankable))
         == LiveTids(img) + multiset{row.tid}
  {
    LiveNodeTidsPrefix(img.tids, img.tids + [row.tid], Dead(img.graph), |img.tids|);
  }

  lemma {:induction false} ReplayRowsLive(img: Image, rows: seq<RankedRow>)
    requires Valid(img) && DeadInRange(img) && ReplayRows(img, rows).Some?
    ensures LiveTids(ReplayRows(img, rows).value) == LiveTids(img) + RowTids(rows)
    ensures DeadInRange(ReplayRows(img, rows).value)
  {
    if rows != [] {
      ReplayRowsLive(img, rows[..|rows| - 1]);
      ReplayRowsExtends(img, rows[..|rows| - 1]);
      LiveTidsInsert(ReplayRows(img, rows[..|rows| - 1]).value, rows[|rows| - 1]);
    }
  }

  /** A replay answers for exactly the rows it was given on top of those already stored. */
  lemma {:induction false} ReplayLive(img: Image, rows: seq<RankedRow>, vrows: seq<UnrankableRow>)
    requires Valid(img) && DeadInRange(img) && Replay(img, rows, vrows).Some?
    ensures var r := Replay(img, rows, vrows).value;
            && Valid(r) && DeadInRange(r)
            && LiveTids(r) == LiveTids(img) + RowTids(rows) + UnrankableTids(vrows)
  {
    ReplayRowsLive(img, rows);
    ReplayRowsExtends(img, rows);
    UnrankableTidsAppend(img.unrankable, vrows);
  }

  lemma {:induction false} LiveNodeTidsVacuumed(tids: seq<Tid>, gone: set<Tid>, dead: set<nat>, dead': set<nat>,
                                                n: nat, t: Tid)
    requires n <= |tids|
    requires forall i :: 0 <= i < n ==> (i in dead' <==> i in dead || tids[i] in gone)
    ensures LiveNodeTids(tids, dead', n)[t] == if t in gone then 0 else LiveNodeTids(tids, dead, n)[t]
  {
    if n > 0 { LiveNodeTidsVacuumed(tids, gone, dead, dead', n - 1, t); }
  }

  lemma {:induction false} KeepLiveTids(rows: seq<UnrankableRow>, gone: set<Tid>, t: Tid)
    ensures UnrankableTids(KeepLive(rows, gone))[t] == if t in gone then 0 else UnrankableTids(rows)[t]
  {
    if rows != [] {
      KeepLiveTids(rows[..|rows| - 1], gone, t);
      var last := rows[|rows| - 1];
      var k := KeepLive(rows[..|rows| - 1], gone);
      if last.tid !in gone {
        assert (k + [last])[..|k + [last]| - 1] == k;
      } else {
        assert k + [] == k;
      }
    }
  }

  /** Vacuum removes exactly the rows VACUUM named, from both halves of the image, and nothing else. */
  lemma VacuumedLive(img: Image, gone: set<Tid>, t: Tid)
    requires Valid(img) && DeadInRange(img)
    ensures Valid(Vacuumed(img, gone)) && DeadInRange(Vacuumed(img, gone))
    ensures LiveTids(Vacuumed(img, gone))[t] == if t in gone then 0 else LiveTids(img)[t]
  {
    TombstoneGoneDead(img.graph, img.tids, gone, |img.tids|);
    LiveNodeTidsVacuumed(img.tids, gone, Dead(img.graph), Dead(Vacuumed(img, gone).graph), |img.tids|, t);
    KeepLiveTids(img.unrankable, gone, t);
  }
}
