/** The ranked scan: one search of the stored graph, its nodes resolved to heap addresses. */
module OrderedScan {
  import opened Base
  import opened Filter
  import opened Candidates
  import opened Graphs
  import Images
  import Scan
  import Search
  import Queries
  import QueryOptimal
  import GraphHistory
  import Hnsw
  import HnswOperations

  datatype ScanError = SearchFailed(cause: Queries.HnswError) | UnmappedNode(id: nat)

  function QueryFor(g: Graph, dist: Queries.Distance, vec: Vec, pred: Predicate): Queries.Query {
    Queries.Query(g, dist, vec, Some(pred))
  }

  /** The search's answer, or none when it failed. */
  function Found(q: Queries.Query, budget: nat): seq<Cand>
    requires InRange(q.g)
  {
    match Queries.SearchInner(q, budget, budget) case Ok(r) => r.0 case Err(_) => []
  }

  /** start: the previous results are cleared before the search, so a failed one leaves nothing behind. */
  method Start(s: Scan.ScanSearch, h: Hnsw.Hnsw, tids: seq<Tid>, query: Vec, efSearch: nat,
               pushed: Scan.PushedPredicate)
    returns (r: Result<(), ScanError>)
    requires h.Consistent() && InRange(h.View())
    modifies s
    ensures s.cursor == 0 && s.recheck == pushed.recheck
    ensures var q, budget := QueryFor(h.View(), h.kernel.dist, query, pushed.pred),
            if efSearch > 1 then efSearch else 1;
            var found := Found(q, budget);
            match Queries.SearchInner(q, budget, budget)
            case Err(e) => r == Err(SearchFailed(e)) && s.results == []
            case Ok(_) =>
              if forall c :: c in found ==> c.id < |tids|
              then r.Ok? && |s.results| == |found| && forall i :: 0 <= i < |found| ==> s.results[i] == tids[found[i].id]
              else r.Err? && r.error.UnmappedNode?
  {
    hide Queries.SearchInner;
    s.cursor, s.results, s.recheck := 0, [], pushed.recheck;
    var budget := if efSearch > 1 then efSearch else 1;
    var found := HnswOperations.SearchInner(h, query, budget, budget, Some(pushed.pred));
    if found.Err? { return Err(SearchFailed(found.error)); }
    var cands, i := found.value.0, 0;
    while i < |cands|
      invariant 0 <= i <= |cands| && s.cursor == 0 && s.recheck == pushed.recheck
      invariant |s.results| == i && forall j :: 0 <= j < i ==> cands[j].id < |tids| && s.results[j] == tids[cands[j].id]
    {
      if cands[i].id >= |tids| {
        assert cands[i] in cands;
        return Err(UnmappedNode(cands[i].id));
      }
      s.results := s.results + [tids[cands[i].id]];
      i := i + 1;
    }
    r := Ok(());
  }

  /** Row `c` of the answer, in the image's own terms: a node that is there, is live, and satisfies the predicate. */
  ghost predicate RowOk(img: Images.Image, pred: Predicate, c: Cand) {
    c.id < |img.tids| && c.id < |Images.Nodes(img.graph)| && c.id !in Images.Dead(img.graph)
    && Matches(pred, Images.Nodes(img.graph)[c.id].attrs)
  }

  /** Every heap address a ranked scan hands out is that of a live row of the image that satisfies what was pushed;
      no node comes twice, none is unmapped, and they come nearest first. */
  lemma RankedScanSound(g: Graph, img: Images.Image, dist: Queries.Distance, vec: Vec, pred: Predicate, budget: nat)
    requires StructurallyValid(g) && Images.Valid(img) && GraphHistory.Agrees(g, img.graph)
    ensures var found := Found(QueryFor(g, dist, vec, pred), budget);
            && |found| <= budget && Sorted(found)
            && (forall c :: c in found ==>
                  RowOk(img, pred, c)
                  && c.dist == dist(g.metric, vec, Images.Nodes(img.graph)[c.id].vector))
            && forall i, j :: 0 <= i < j < |found| ==> found[i].id != found[j].id
  {
    hide Queries.SearchInner, Matches;
    var q := QueryFor(g, dist, vec, pred);
    if Queries.SearchInner(q, budget, budget).Ok? {
      Queries.SearchSound(q, budget, budget);
      var found := Found(q, budget);
      forall c | c in found
        ensures RowOk(img, pred, c) && c.dist == dist(g.metric, vec, Images.Nodes(img.graph)[c.id].vector)
      {
        assert GraphHistory.AgreeAt(g, img.graph, c.id);
      }
      forall i, j | 0 <= i < j < |found| ensures found[i].id != found[j].id {
        assert found[i] in found && found[j] in found && Before(found[i], found[j]);
      }
    }
  }

  /** With every condition of an exact filtered query met, a ranked scan leaves no qualifying row of the image out. */
  lemma RankedScanComplete(g: Graph, img: Images.Image, dist: Queries.Distance, vec: Vec, pred: Predicate, budget: nat,
                           c: Cand)
    requires StructurallyValid(g) && Images.Valid(img) && GraphHistory.Agrees(g, img.graph) && !pred.All?
    requires Queries.StronglyConnected(QueryFor(g, dist, vec, pred)) && |vec| == g.dim
    requires 0 < budget && Size(g) <= budget && (g.maxLayer + 1) * Size(g) <= Min(16 * budget, U64_MAX)
    ensures c in Found(QueryFor(g, dist, vec, pred), budget) <==>
            RowOk(img, pred, c) && c.dist == dist(g.metric, vec, Images.Nodes(img.graph)[c.id].vector)
  {
    hide Queries.SearchInner, Matches, Queries.StronglyConnected;
    var q := QueryFor(g, dist, vec, pred);
    var p := Queries.ProbeAt(q, 0, q.pred);
    var all := QueryOptimal.MatchingScored(p, Size(g));
    QueryOptimal.FilteredSearchIsExact(q, budget, budget);
    QueryOptimal.MatchingScoredIs(p, Size(g));
    MatchingFits(p, Size(g));
    assert Found(q, budget) == Sort(all);
    if c.id < Size(g) { assert GraphHistory.AgreeAt(g, img.graph, c.id); }
  }

  lemma {:induction false} MatchingFits(p: Search.Probe, n: nat)
    ensures |QueryOptimal.MatchingScored(p, n)| <= n
  {
    if n > 0 { MatchingFits(p, n - 1); }
  }
}
