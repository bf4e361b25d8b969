/** An HNSW graph as a value: what the flat arrays of module Hnsw stand for. */
module Graphs {
  import opened Base
  import opened Candidates

  datatype Metric = L2 | Cosine | InnerProduct

  /** The numeric kernels: distance, the level drawn from the PRNG (with its next state), and the degree caps of (m,
      gamma). */
  datatype Kernel = Kernel(
    dist: (Metric, Vec, Vec) -> int,
    draw: (nat, u64) -> (nat, u64),
    caps: (nat, u32) -> (nat, nat))

  datatype Graph = Graph(
    metric: Metric, m: nat, gamma: u32, mCap: nat, m0Cap: nat, efConstruction: nat,
    dim: nat, seed: u64,
    vectors: seq<Vec>,
    links: seq<seq<seq<nat>>>,
    attrs: seq<Attrs>,
    deleted: seq<bool>,
    entry: Option<nat>, maxLayer: nat, rng: u64)

  function Size(g: Graph): nat { |g.vectors| }

  function Levels(g: Graph, id: nat): nat { if id < |g.links| then |g.links[id]| else 0 }

  /** Empty for a node or layer that does not exist. */
  function Neighbors(g: Graph, id: nat, layer: nat): seq<nat> {
    if id < |g.links| && layer < |g.links[id]| then g.links[id][layer] else []
  }

  function AttrsOf(g: Graph, id: nat): Attrs { if id < |g.attrs| then g.attrs[id] else [] }

  predicate Deleted(g: Graph, id: nat) { id < |g.deleted| && g.deleted[id] }

  function MaxDegree(g: Graph, layer: nat): nat { if layer == 0 then g.m0Cap else g.mCap }

  predicate CapsOk(g: Graph) { 2 <= g.m <= g.mCap <= g.m0Cap }

  predicate Shaped(g: Graph) {
    && |g.links| == |g.vectors| == |g.attrs| == |g.deleted|
    && (forall id :: 0 <= id < |g.vectors| ==> |g.vectors[id]| == g.dim)
    && (forall id :: 0 <= id < |g.links| ==> |g.links[id]| >= 1)
  }

  /** A link leads to an existing node that has the layer it is on. */
  predicate LinkOk(g: Graph, layer: nat, t: nat) { t < Size(g) && layer < Levels(g, t) }

  predicate ListOk(g: Graph, id: nat, layer: nat) {
    var ids := Neighbors(g, id, layer);
    && |ids| <= MaxDegree(g, layer)
    && Distinct(ids)
    && id !in ids
    && forall t :: t in ids ==> LinkOk(g, layer, t)
  }

  ghost predicate ListsOk(g: Graph) { forall id: nat, layer: nat :: ListOk(g, id, layer) }

  /** The entry point owns the top layer. */
  predicate EntryOk(g: Graph) {
    match g.entry
    case None => Size(g) == 0 && g.maxLayer == 0
    case Some(e) => e < Size(g) && Levels(g, e) == g.maxLayer + 1
  }

  predicate UnderTop(g: Graph) { forall id :: 0 <= id < |g.links| ==> |g.links[id]| <= g.maxLayer + 1 }

  ghost predicate Valid(g: Graph) {
    CapsOk(g) && Shaped(g) && ListsOk(g) && EntryOk(g) && UnderTop(g) && (g.dim == 0 <==> Size(g) == 0)
  }

  /** Every link on a layer leads to an existing node. */
  ghost predicate InRange(g: Graph) {
    forall id: nat, layer: nat, t :: t in Neighbors(g, id, layer) ==> t < Size(g)
  }

  /** What the decoder checks: enough for every index into the arrays to be in range. */
  ghost predicate StructurallyValid(g: Graph) {
    && CapsOk(g) && Shaped(g) && InRange(g) && EntryOk(g) && UnderTop(g)
    && forall id: nat, layer: nat :: |Neighbors(g, id, layer)| <= MaxDegree(g, layer)
  }

  /** What it does not check of one list. */
  predicate Proper(g: Graph, id: nat, layer: nat) {
    var ids := Neighbors(g, id, layer);
    Distinct(ids) && id !in ids && forall t :: t in ids ==> layer < Levels(g, t)
  }

  /** Insertion's invariant is the decoder's, and proper lists. */
  lemma ValidIff(g: Graph)
    ensures Valid(g) <==> StructurallyValid(g) && (g.dim == 0 <==> Size(g) == 0)
                          && forall id: nat, layer: nat :: Proper(g, id, layer)
  {
    if Valid(g) {
      ValidInRange(g);
      forall id: nat, layer: nat ensures Proper(g, id, layer) && |Neighbors(g, id, layer)| <= MaxDegree(g, layer) {
        assert ListOk(g, id, layer);
      }
    }
    if StructurallyValid(g) && forall id: nat, layer: nat :: Proper(g, id, layer) {
      forall id: nat, layer: nat ensures ListOk(g, id, layer) { assert Proper(g, id, layer); }
    }
  }

  lemma ValidInRange(g: Graph)
    requires ListsOk(g)
    ensures InRange(g)
  {
    forall id: nat, layer: nat, t | t in Neighbors(g, id, layer) ensures t < Size(g) {
      assert ListOk(g, id, layer);
      assert LinkOk(g, layer, t);
    }
  }
}
