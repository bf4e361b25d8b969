/** Hybrid search's last step: two ranked id lists fused, cut to `k`, each row with its rank in either source. */
module Hybrid {
  import opened Base
  import opened Fusion

  const SIGN: u64 := 0x8000_0000_0000_0000

  /** Two's complement reinterpreted. */
  function AsUnsigned(i: i64): u64 { if i >= 0 then i else i + 0x1_0000_0000_0000_0000 }

  function AsSigned(u: u64): i64 { if u < SIGN then u else u - 0x1_0000_0000_0000_0000 }

  /** Flipping the sign bit. */
  function Flipped(u: u64): u64 { if u < SIGN then u + SIGN else u - SIGN }

  function KeyOf(id: i64): u64 { Flipped(AsUnsigned(id)) }

  function IdOf(key: u64): i64 { AsSigned(Flipped(key)) }

  /** On machine words that is the exclusive or with the sign bit. */
  lemma FlippedIsXor(word: bv64)
    ensures (word ^ 0x8000_0000_0000_0000) as int == Flipped(word as int)
  {
    assert word ^ 0x8000_0000_0000_0000 ==
           if word < 0x8000_0000_0000_0000 then word + 0x8000_0000_0000_0000 else word - 0x8000_0000_0000_0000;
    if word < 0x8000_0000_0000_0000 {
      assert (word + 0x8000_0000_0000_0000) as int == word as int + SIGN;
    } else {
      assert (word - 0x8000_0000_0000_0000) as int == word as int - SIGN;
    }
  }

  /** An order-preserving bijection. */
  lemma KeysOrdered(a: i64, b: i64, key: u64)
    ensures IdOf(KeyOf(a)) == a && KeyOf(IdOf(key)) == key
    ensures a < b <==> KeyOf(a) < KeyOf(b)
  {
  }

  function Keys(ids: seq<i64>): (r: seq<u64>)
    ensures |r| == |ids| && forall i :: 0 <= i < |ids| ==> r[i] == KeyOf(ids[i])
  {
    seq(|ids|, i requires 0 <= i < |ids| => KeyOf(ids[i]))
  }

  lemma KeysHold(ids: seq<i64>, id: i64)
    ensures KeyOf(id) in Keys(ids) <==> id in ids
  {
    if id in ids { var i :| 0 <= i < |ids| && ids[i] == id; assert Keys(ids)[i] == KeyOf(id); }
    if KeyOf(id) in Keys(ids) {
      var i :| 0 <= i < |ids| && Keys(ids)[i] == KeyOf(id);
      KeysOrdered(ids[i], id, 0);
    }
  }

  lemma {:induction false} KeyRank(ids: seq<i64>, id: i64)
    requires id in ids
    ensures KeyOf(id) in Keys(ids) && FirstRank(Keys(ids), KeyOf(id)) == FirstRank(ids, id)
  {
    KeysHold(ids, id);
    KeysOrdered(ids[0], id, 0);
    if ids[0] != id {
      assert Keys(ids)[1..] == Keys(ids[1..]);
      KeyRank(ids[1..], id);
    }
  }

  // --- fused rows -----------------------------------------------------------------------------------

  datatype HybridRow = HybridRow(id: i64, score: real, vectorRank: Option<nat>, textRank: Option<nat>)

  function RankIn<T(==)>(list: seq<T>, id: T): Option<nat> { if id in list then Some(FirstRank(list, id)) else None }

  function ShareOf(k: real, rank: Option<nat>): real
    requires k >= 0.0 && (rank.Some? ==> rank.value > 0)
  {
    match rank case None => 0.0 case Some(r) => Share(k, r)
  }

  /** A row of the answer: in one source at least, with its true ranks, and a score they account for exactly. */
  predicate RowOk(k: real, vectorIds: seq<i64>, textIds: seq<i64>, row: HybridRow)
    requires k >= 0.0
  {
    && row.vectorRank == RankIn(vectorIds, row.id) && row.textRank == RankIn(textIds, row.id)
    && (row.vectorRank.Some? || row.textRank.Some?)
    && row.score == ShareOf(k, RankIn(vectorIds, row.id)) + ShareOf(k, RankIn(textIds, row.id))
  }

  /** Score descending, then the signed id ascending. */
  predicate RowAbove(a: HybridRow, b: HybridRow) { a.score > b.score || (a.score == b.score && a.id < b.id) }

  /** The whole ranking: every id either source surfaced, once, in order. */
  ghost predicate IsHybrid(k: real, vectorIds: seq<i64>, textIds: seq<i64>, all: seq<HybridRow>)
    requires k >= 0.0
  {
    && (forall i, j :: 0 <= i < j < |all| ==> RowAbove(all[i], all[j]))
    && forall row :: row in all <==> RowOk(k, vectorIds, textIds, row)
  }

  ghost predicate RankedAt(ranks: map<u64, nat>, keys: seq<u64>, key: u64) {
    (key in ranks <==> key in keys) && (key in keys ==> ranks[key] == FirstRank(keys, key))
  }

  lemma RankNext(ranks: map<u64, nat>, keys: seq<u64>, pos: nat, key: u64)
    requires pos < |keys| && RankedAt(ranks, keys[..pos], key)
    requires keys[pos] in ranks <==> keys[pos] in keys[..pos]
    ensures RankedAt(if keys[pos] in ranks then ranks else ranks[keys[pos] := pos + 1], keys[..pos + 1], key)
  {
    PrefixRank(keys, pos, key);
  }


  /** First occurrence is the best rank. */
  method Ranks(keys: seq<u64>) returns (ranks: map<u64, nat>)
    ensures forall key :: key in ranks <==> key in keys
    ensures forall key :: key in keys ==> ranks[key] == FirstRank(keys, key)
  {
    ranks := map[];
    var pos := 0;
    while pos < |keys|
      invariant 0 <= pos <= |keys|
      invariant forall key :: RankedAt(ranks, keys[..pos], key)
    {
      hide FirstRank;
      assert RankedAt(ranks, keys[..pos], keys[pos]);
      ghost var next, seen := if keys[pos] in ranks then ranks else ranks[keys[pos] := pos + 1], pos + 1;
      forall key ensures RankedAt(next, keys[..seen], key) { RankNext(ranks, keys, pos, key); }
      if keys[pos] !in ranks { ranks := ranks[keys[pos] := pos + 1]; }
      assert ranks == next;
      pos := pos + 1;
    }
    assert keys[..pos] == keys;
    forall key
      ensures key in ranks <==> key in keys
      ensures key in keys ==> ranks[key] == FirstRank(keys, key)
    {
      assert RankedAt(ranks, keys[..pos], key);
    }
  }

  function RowOf(vectorKeys: seq<u64>, textKeys: seq<u64>, f: Fused): HybridRow {
    HybridRow(IdOf(f.id), f.score, RankIn(vectorKeys, f.id), RankIn(textKeys, f.id))
  }

  lemma TwoLists(k: real, lists: seq<seq<u64>>, id: u64)
    requires k >= 0.0 && |lists| == 2
    ensures Occurs(lists, id) <==> id in lists[0] || id in lists[1]
    ensures Score(k, lists, id) == Contribution(k, lists[0], id) + Contribution(k, lists[1], id)
  {
    var none: seq<seq<u64>> := [];
    assert lists[..1][..0] == none && lists[..1][0] == lists[0];
    assert Score(k, none, id) == 0.0;
    assert Score(k, lists[..1], id) == Score(k, none, id) + Contribution(k, lists[0], id);
  }

  lemma RowOfIs(k: real, vectorIds: seq<i64>, textIds: seq<i64>, f: Fused)
    requires k >= 0.0
    ensures Occurs([Keys(vectorIds), Keys(textIds)], f.id)
            && f.score == Score(k, [Keys(vectorIds), Keys(textIds)], f.id)
            <==> RowOk(k, vectorIds, textIds, RowOf(Keys(vectorIds), Keys(textIds), f))
  {
    var id, lists := IdOf(f.id), [Keys(vectorIds), Keys(textIds)];
    KeysOrdered(0, 0, f.id);
    KeysHold(vectorIds, id);
    KeysHold(textIds, id);
    if id in vectorIds { KeyRank(vectorIds, id); }
    if id in textIds { KeyRank(textIds, id); }
    TwoLists(k, lists, f.id);
  }

  lemma RowsOf(k: real, vectorIds: seq<i64>, textIds: seq<i64>, fused: seq<Fused>) returns (all: seq<HybridRow>)
    requires k >= 0.0 && IsFusion(k, [Keys(vectorIds), Keys(textIds)], fused)
    ensures |all| == |fused|
    ensures forall i :: 0 <= i < |fused| ==> all[i] == RowOf(Keys(vectorIds), Keys(textIds), fused[i])
    ensures IsHybrid(k, vectorIds, textIds, all)
  {
    hide Score, Occurs, RowOk;
    var vk, tk := Keys(vectorIds), Keys(textIds);
    all := seq(|fused|, i requires 0 <= i < |fused| => RowOf(vk, tk, fused[i]));
    forall i, j | 0 <= i < j < |all| ensures RowAbove(all[i], all[j]) {
      assert Above(fused[i], fused[j]);
      KeysOrdered(0, 0, fused[i].id);
      KeysOrdered(0, 0, fused[j].id);
      KeysOrdered(all[i].id, all[j].id, 0);
    }
    forall row ensures row in all <==> RowOk(k, vectorIds, textIds, row) {
      if row in all {
        var i :| 0 <= i < |all| && all[i] == row;
        assert fused[i] in fused;
        RowOfIs(k, vectorIds, textIds, fused[i]);
      }
      if RowOk(k, vectorIds, textIds, row) {
        var f := Fused(KeyOf(row.id), row.score);
        KeysOrdered(row.id, 0, 0);
        RowIsOwn(k, vectorIds, textIds, row);
        RowOfIs(k, vectorIds, textIds, f);
        var i :| 0 <= i < |fused| && fused[i] == f;
        assert all[i] == row;
      }
    }
  }

  lemma RowIsOwn(k: real, vectorIds: seq<i64>, textIds: seq<i64>, row: HybridRow)
    requires k >= 0.0 && RowOk(k, vectorIds, textIds, row)
    ensures RowOf(Keys(vectorIds), Keys(textIds), Fused(KeyOf(row.id), row.score)) == row
  {
    KeysOrdered(row.id, 0, 0);
    KeysHold(vectorIds, row.id);
    KeysHold(textIds, row.id);
    if row.id in vectorIds { KeyRank(vectorIds, row.id); }
    if row.id in textIds { KeyRank(textIds, row.id); }
  }

  /** `k as usize`: a negative count is a huge one. */
  function Taken(k: int, n: nat): nat { if k < 0 || k >= n then n else k }

  function Get(ranks: map<u64, nat>, key: u64): Option<nat> { if key in ranks then Some(ranks[key]) else None }

  /** fuse: the top `k` of the whole ranking. */
  method Fuse(vectorIds: seq<i64>, textIds: seq<i64>, rrfK: Param, k: int)
    returns (r: Result<seq<HybridRow>, FusionError>, ghost all: seq<HybridRow>)
    ensures !KOk(rrfK) ==> r == Err(InvalidK)
    ensures KOk(rrfK) ==> r.Ok? && IsHybrid(rrfK.x, vectorIds, textIds, all) && r.value == all[..Taken(k, |all|)]
  {
    all := [];
    var vectorKeys, textKeys := Keys(vectorIds), Keys(textIds);
    var vectorRank := Ranks(vectorKeys);
    var textRank := Ranks(textKeys);
    var fused :- Rrf([vectorKeys, textKeys], rrfK);
    all := RowsOf(rrfK.x, vectorIds, textIds, fused);
    hide IsFusion, IsHybrid;
    var rows: seq<HybridRow>, i := [], 0;
    while i < Taken(k, |fused|)
      invariant 0 <= i <= Taken(k, |fused|) && rows == all[..i]
    {
      var f := fused[i];
      rows := rows + [HybridRow(IdOf(f.id), f.score, Get(vectorRank, f.id), Get(textRank, f.id))];
      i := i + 1;
    }
    r := Ok(rows);
  }
}
