/** Reciprocal Rank Fusion and the hybrid search's fusing of two ranked id lists. Scores are reals: rounding is not
    modelled. */
module Fusion {
  import opened Base

  datatype FusionError = InvalidK

  /** An f64 parameter: a real, or one of the values that are none. */
  datatype Param = NotFinite | Finite(x: real)

  predicate KOk(k: Param) { k.Finite? && k.x >= 0.0 }

  // --- what fusion means ------------------------------------------------------------------------

  /** 1 for the first of the list. */
  function FirstRank<T(==)>(list: seq<T>, id: T): (r: nat)
    requires id in list
    ensures 1 <= r <= |list| && list[r - 1] == id && id !in list[..r - 1]
  {
    if list[0] == id then 1 else
    var r := FirstRank(list[1..], id);
    assert list[..r] == [list[0]] + list[1..][..r - 1];
    1 + r
  }

  function Share(k: real, rank: nat): (r: real)
    requires k >= 0.0 && rank > 0
    ensures r * (k + rank as real) == 1.0
  {
    1.0 / (k + rank as real)
  }

  function Contribution<T(==)>(k: real, list: seq<T>, id: T): real
    requires k >= 0.0
  {
    if id in list then Share(k, FirstRank(list, id)) else 0.0
  }

  function Score<T(==)>(k: real, lists: seq<seq<T>>, id: T): real
    requires k >= 0.0
  {
    if lists == [] then 0.0 else Score(k, lists[..|lists| - 1], id) + Contribution(k, lists[|lists| - 1], id)
  }

  predicate Occurs<T(==)>(lists: seq<seq<T>>, id: T) { exists i :: 0 <= i < |lists| && id in lists[i] }

  datatype Fused = Fused(id: u64, score: real)

  /** Score descending, then id ascending. */
  predicate Above(a: Fused, b: Fused) { a.score > b.score || (a.score == b.score && a.id < b.id) }

  predicate Ranked(s: seq<Fused>) { forall i, j :: 0 <= i < j < |s| ==> Above(s[i], s[j]) }

  ghost predicate IsFusion(k: real, lists: seq<seq<u64>>, out: seq<Fused>)
    requires k >= 0.0
  {
    Ranked(out) && forall f :: f in out <==> Occurs(lists, f.id) && f.score == Score(k, lists, f.id)
  }

  lemma {:induction false} RankedUnique(a: seq<Fused>, b: seq<Fused>)
    requires Ranked(a) && Ranked(b) && forall f :: f in a <==> f in b
    ensures a == b
  {
    assert a != [] ==> a[0] in a;
    assert b != [] ==> b[0] in b;
    if a != [] {
      assert a[0] in b && b[0] in a;
      assert a[0] == b[0];
      forall f ensures f in a[1..] <==> f in b[1..] {
        assert f in a <==> f == a[0] || f in a[1..] by { assert a == [a[0]] + a[1..]; }
        assert f in b <==> f == b[0] || f in b[1..] by { assert b == [b[0]] + b[1..]; }
        if f in a[1..] { var i :| 0 <= i < |a[1..]| && a[1..][i] == f; assert Above(a[0], a[i + 1]); }
        if f in b[1..] { var i :| 0 <= i < |b[1..]| && b[1..][i] == f; assert Above(b[0], b[i + 1]); }
      }
      RankedUnique(a[1..], b[1..]);
    }
  }

  /** Neither the hash map's iteration order nor the unstable sort can show: the fusion of some lists is one list. */
  lemma FusionIsUnique(k: real, lists: seq<seq<u64>>, a: seq<Fused>, b: seq<Fused>)
    requires k >= 0.0 && IsFusion(k, lists, a) && IsFusion(k, lists, b)
    ensures a == b
  {
    hide Score, Occurs;
    RankedUnique(a, b);
  }

  // --- the accumulator --------------------------------------------------------------------------------

  /** Accumulated score, and the last list that contributed to it. */
  type Scores = map<u64, (real, nat)>

  /** What the map holds for `id` once lists[..i] and the first `j` of lists[i] have been seen. */
  ghost predicate HoldsAt(scores: Scores, k: real, lists: seq<seq<u64>>, i: nat, j: nat, id: u64)
    requires k >= 0.0 && i < |lists| && j <= |lists[i]|
  {
    && (id in scores <==> Occurs(lists[..i], id) || id in lists[i][..j])
    && (id in scores ==>
         && scores[id].0 == Score(k, lists[..i], id) + Contribution(k, lists[i][..j], id)
         && scores[id].1 <= i && (scores[id].1 == i <==> id in lists[i][..j]))
  }

  ghost predicate DoneAt(scores: Scores, k: real, lists: seq<seq<u64>>, i: nat, id: u64)
    requires k >= 0.0 && i <= |lists|
  {
    && (id in scores <==> Occurs(lists[..i], id))
    && (id in scores ==> scores[id].0 == Score(k, lists[..i], id) && scores[id].1 < i)
  }

  function Accumulated(scores: Scores, id: u64, share: real, list: nat): Scores {
    if id !in scores then scores[id := (share, list)]
    else if scores[id].1 != list then scores[id := (scores[id].0 + share, list)]
    else scores
  }

  lemma {:induction false} ScoreAbsent(k: real, lists: seq<seq<u64>>, id: u64)
    requires k >= 0.0 && !Occurs(lists, id)
    ensures Score(k, lists, id) == 0.0
  {
    if lists != [] {
      var init, last := lists[..|lists| - 1], lists[|lists| - 1];
      assert id !in last;
      assert forall i :: 0 <= i < |init| ==> init[i] == lists[i];
      ScoreAbsent(k, init, id);
    }
  }

  lemma PrefixRank(list: seq<u64>, j: nat, id: u64)
    requires j < |list|
    ensures list[..j + 1] == list[..j] + [list[j]]
    ensures id != list[j] || id in list[..j] ==> (id in list[..j + 1] <==> id in list[..j])
    ensures id in list[..j] ==> FirstRank(list[..j + 1], id) == FirstRank(list[..j], id)
    ensures id == list[j] && id !in list[..j] ==> id in list[..j + 1] && FirstRank(list[..j + 1], id) == j + 1
  {
    assert list[..j + 1] == list[..j] + [list[j]];
    if id in list[..j] { RankUnique(list[..j + 1], id, FirstRank(list[..j], id)); }
    else if id == list[j] { RankUnique(list[..j + 1], id, j + 1); }
  }

  lemma {:induction false} RankUnique(list: seq<u64>, id: u64, r: nat)
    requires 1 <= r <= |list| && list[r - 1] == id && forall i :: 0 <= i < r - 1 ==> list[i] != id
    ensures id in list && FirstRank(list, id) == r
  {
    if r > 1 {
      assert list[0] != id;
      RankUnique(list[1..], id, r - 1);
    }
  }

  lemma Accumulates(scores: Scores, k: real, lists: seq<seq<u64>>, i: nat, j: nat, id: u64)
    requires k >= 0.0 && i < |lists| && j < |lists[i]|
    requires HoldsAt(scores, k, lists, i, j, id)
    ensures HoldsAt(Accumulated(scores, lists[i][j], Share(k, j + 1), i), k, lists, i, j + 1, id)
  {
    hide Score, Occurs;
    PrefixRank(lists[i], j, id);
    if !Occurs(lists[..i], id) { ScoreAbsent(k, lists[..i], id); }
  }

  lemma ListDone(scores: Scores, k: real, lists: seq<seq<u64>>, i: nat, id: u64)
    requires k >= 0.0 && i < |lists| && HoldsAt(scores, k, lists, i, |lists[i]|, id)
    ensures DoneAt(scores, k, lists, i + 1, id)
  {
    assert lists[i][..|lists[i]|] == lists[i];
    assert lists[..i + 1] == lists[..i] + [lists[i]];
    assert lists[..i + 1][..i] == lists[..i];
    OccursAppend(lists, i, id);
  }

  lemma OccursAppend(lists: seq<seq<u64>>, i: nat, id: u64)
    requires i < |lists|
    ensures Occurs(lists[..i + 1], id) <==> Occurs(lists[..i], id) || id in lists[i]
  {
    if Occurs(lists[..i], id) { var j :| 0 <= j < i && id in lists[..i][j]; assert id in lists[..i + 1][j]; }
    if id in lists[i] { assert id in lists[..i + 1][i]; }
    if Occurs(lists[..i + 1], id) {
      var j :| 0 <= j < i + 1 && id in lists[..i + 1][j];
      if j < i { assert id in lists[..i][j]; }
    }
  }

  lemma ListStart(scores: Scores, k: real, lists: seq<seq<u64>>, i: nat, id: u64)
    requires k >= 0.0 && i < |lists| && DoneAt(scores, k, lists, i, id)
    ensures HoldsAt(scores, k, lists, i, 0, id)
  {
  }

  // --- sorting ----------------------------------------------------------------------------------------

  function InsertRanked(s: seq<Fused>, f: Fused): (r: seq<Fused>)
    ensures |r| == |s| + 1 && forall x :: x in r <==> x == f || x in s
  {
    if s == [] then [f]
    else if Above(f, s[0]) then [f] + s
    else
      assert s == [s[0]] + s[1..];
      [s[0]] + InsertRanked(s[1..], f)
  }

  lemma {:induction false} InsertKeepsRanked(s: seq<Fused>, f: Fused)
    requires Ranked(s) && forall x :: x in s ==> x.id != f.id
    ensures Ranked(InsertRanked(s, f))
  {
    if s != [] && !Above(f, s[0]) {
      InsertKeepsRanked(s[1..], f);
      var t := InsertRanked(s[1..], f);
      forall j | 0 <= j < |t| ensures Above(s[0], t[j]) {
        assert t[j] in t;
        if t[j] != f { var i :| 0 <= i < |s[1..]| && s[1..][i] == t[j]; assert Above(s[0], s[i + 1]); }
      }
    }
  }

  /** Drain the map, in whatever order it iterates, and sort. */
  method SortScores(scores: Scores) returns (out: seq<Fused>)
    ensures Ranked(out) && forall f :: f in out <==> f.id in scores && scores[f.id].0 == f.score
  {
    out := [];
    var rest := scores;
    while rest != map[]
      invariant rest.Keys <= scores.Keys && (forall id :: id in rest ==> rest[id] == scores[id])
      invariant Ranked(out)
      invariant forall f :: f in out <==> f.id in scores && f.id !in rest && scores[f.id].0 == f.score
      decreases |rest.Keys|
    {
      var id :| id in rest;
      InsertKeepsRanked(out, Fused(id, rest[id].0));
      out := InsertRanked(out, Fused(id, rest[id].0));
      assert (rest - {id}).Keys == rest.Keys - {id};
      rest := rest - {id};
    }
  }

  /** rrf: every id of any list once, with the sum of its shares; no per-list set is kept to tell repeats. */
  method Rrf(rankings: seq<seq<u64>>, k: Param) returns (r: Result<seq<Fused>, FusionError>)
    ensures !KOk(k) ==> r == Err(InvalidK)
    ensures KOk(k) ==> r.Ok? && IsFusion(k.x, rankings, r.value)
  {
    if !KOk(k) { return Err(InvalidK); }
    hide Score, Occurs, Contribution;
    var scores: Scores := map[];
    var i := 0;
    NothingYet(k.x, rankings);
    while i < |rankings|
      invariant 0 <= i <= |rankings|
      invariant forall id :: DoneAt(scores, k.x, rankings, i, id)
    {
      forall id ensures HoldsAt(scores, k.x, rankings, i, 0, id) { ListStart(scores, k.x, rankings, i, id); }
      var j := 0;
      while j < |rankings[i]|
        invariant 0 <= j <= |rankings[i]|
        invariant forall id :: HoldsAt(scores, k.x, rankings, i, j, id)
      {
        ghost var next, seen := Accumulated(scores, rankings[i][j], Share(k.x, j + 1), i), j + 1;
        forall id ensures HoldsAt(next, k.x, rankings, i, seen, id) { Accumulates(scores, k.x, rankings, i, j, id); }
        var id, share := rankings[i][j], Share(k.x, j + 1);
        if id !in scores {
          scores := scores[id := (share, i)];
        } else if scores[id].1 != i {
          scores := scores[id := (scores[id].0 + share, i)];
        }
        assert scores == next;
        j := j + 1;
      }
      var done := i + 1;
      forall id ensures DoneAt(scores, k.x, rankings, done, id) { ListDone(scores, k.x, rankings, i, id); }
      i := done;
    }
    assert rankings[..i] == rankings;
    var out := SortScores(scores);
    forall f ensures f in out <==> Occurs(rankings, f.id) && f.score == Score(k.x, rankings, f.id) {
      assert DoneAt(scores, k.x, rankings, i, f.id);
    }
    r := Ok(out);
  }

  lemma NothingYet(k: real, lists: seq<seq<u64>>)
    requires k >= 0.0
    ensures forall id :: DoneAt(map[], k, lists, 0, id)
  {
  }
}
