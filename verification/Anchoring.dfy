/** A staged write stays anchored to the image its generation names, through every step. */
module Anchoring {
  import opened Base
  import opened Images
  import opened Stash
  import opened Pending
  import opened Savepoints
  import opened Staging
  import opened Transactions
  import opened Coverage

  lemma AsRowsOwner(l: Local<PendingWrite>, ids: seq<SubId>, i: nat)
    ensures OwnerOf(AsRows(l), ids, i) == OwnerOf(l, ids, i)
    ensures OwnerWrite(AsRows(l), ids, i) ==
            match OwnerWrite(l, ids, i) case None => None case Some(w) => Some(AsEntry(w))
  {
    if i < |ids| { MapOwner(l, AsEntry, ids[i]); }
    MapAt(l, AsEntry, OwnerOf(l, ids, i));
  }

  /** What a structured state says of a write reached through position `i`. */
  lemma WriteOkAt(l: Local<PendingWrite>, ids: seq<SubId>, k: nat)
    requires Structured(AsRows(l), ids) && ShapedAt(l, k) && k <= |l.discarded| && WriteAt(l, k).Some?
    ensures EntryOk(AsEntry(WriteAt(l, k).value), |ids|) && WriteOk(WriteAt(l, k).value)
  {
    MapAt(l, AsEntry, k);
    assert OkAt(AsRows(l), |ids|, k);
  }

  lemma PendingOpens(w: World)
    requires Core(w)
    ensures Ready(w)
  {
    if w.l.pending.Some? {
      var n := |w.l.discarded|;
      assert ShapedAt(w.l, n);
      WriteOkAt(w.l, w.ids, n);
      MapAt(w.l, AsEntry, n);
      assert OidAt(AsRows(w.l), w.tx, n);
      assert BoundAt(w.tx, w.store, |w.tx.stack|, w.l.pending.value.indexOid);
      assert FileOk(w.store, w.tx.cur.cat[w.l.pending.value.indexOid]);
    }
  }

  lemma MarkKeepsAnchor(w: PendingWrite, ev: SubEvent, store: Store, cat: Catalog)
    ensures AnchoredTo(MarkEvent(w, ev), store, cat) <==> AnchoredTo(w, store, cat)
    ensures w.ledger.rewindTo == Some(NOTHING) ==> MarkEvent(w, ev).ledger.rewindTo == Some(NOTHING)
    ensures Shaped(w) ==> Shaped(MarkEvent(w, ev))
    ensures Count(MarkEvent(w, ev)) == Count(w)
    ensures Ranked(MarkEvent(w, ev)) == Ranked(w) && Unranked(MarkEvent(w, ev)) == Unranked(w)
  {
    assert Ranked(MarkEvent(w, ev)) == Ranked(w);
  }

  // --- opening ---------------------------------------------------------------------------------

  lemma OpenAnchorAt(w: World, my: SubId, i: nat)
    requires Core(w) && my > Innermost(w.ids) && my > TOP
    ensures AnchorAt(SubxactEvent(w.l, StartSub, my, Innermost(w.ids)), w.ids + [my], SpecSub(w.tx, StartSub), w.store,
            i)
  {
    hide Covers, SpecSub, SubxactEvent, MarkEvent;
    var l', ids', n := SubxactEvent(w.l, StartSub, my, Innermost(w.ids)), w.ids + [my], |w.ids|;
    if i <= n + 1 {
      var i0 := if i <= n then i else n;
      OpenOwner(w, my, i);
      assert AnchorAt(w.l, w.ids, w.tx, w.store, i0);
      SubAt(w.tx, StartSub, i);
      var k := OwnerOf(w.l, w.ids, i0);
      if WriteAt(w.l, k).Some? {
        assert ShapedAt(w.l, k);
        WriteOkAt(w.l, w.ids, k);
        AsEntryMark(WriteAt(w.l, k).value, StartSub);
        EntryShift(AsEntry(WriteAt(w.l, k).value), StartSub, n, i0);
        MarkKeepsAnchor(WriteAt(w.l, k).value, StartSub, w.store, CatAt(w.tx, i0));
      }
    }
  }

  lemma OpenOwner(w: World, my: SubId, i: nat)
    requires Core(w) && my > Innermost(w.ids) && my > TOP && i <= |w.ids| + 1
    ensures var l', n := SubxactEvent(w.l, StartSub, my, Innermost(w.ids)), |w.ids|;
            var k := OwnerOf(w.l, w.ids, if i <= n then i else n);
            && OwnerOf(l', w.ids + [my], i) == k
            && WriteAt(l', k) == match WriteAt(w.l, k) case None => None case Some(p) => Some(MarkEvent(p, StartSub))
  {
    var l', n := SubxactEvent(w.l, StartSub, my, Innermost(w.ids)), |w.ids|;
    StartOwner(AsRows(w.l), w.ids, my, i);
    AsRowsOwner(w.l, w.ids, i);
    AsRowsOwner(l', w.ids + [my], i);
    AsRowsSub(w.l, StartSub, my, Innermost(w.ids));
    MapAt(w.l, p => MarkEvent(p, StartSub), OwnerOf(w.l, w.ids, i));
  }

  // --- closing ---------------------------------------------------------------------------------

  lemma CloseWrite(w: World, ev: SubEvent, i: nat)
    requires Core(w) && w.ids != [] && ev != StartSub && i <= |w.ids| - 1
    ensures var l', ids', n := SubxactEvent(w.l, ev, Innermost(w.ids), Parent(w.ids)), w.ids[..|w.ids| - 1], |w.ids|;
            var i0 := if ev == CommitSub && i == n - 1 then n else i;
            OwnerWrite(l', ids', i) ==
              match OwnerWrite(w.l, w.ids, i0) case None => None case Some(p) => Some(MarkEvent(p, ev))
  {
    hide Covers, Anchored, Views, Homed;
    var ids', m := w.ids[..|w.ids| - 1], Moved(w.l, w.ids, ev);
    StashShape(w);
    var f := (p: PendingWrite) => MarkEvent(p, ev);
    MovedIs(w.l, w.ids, ev);
    if i < |ids'| {
      MovedOwner(w.l, w.ids, ev, i);
      MapOwner(m, f, ids'[i]);
    } else if ev == AbortSub {
      MovedAbort(w.l, w.ids);
    }
    MapAt(m, f, if i < |ids'| then Owner(m.discarded, w.ids[i]) else |m.discarded|);
  }

  lemma StashShape(w: World)
    requires Core(w)
    ensures StashOk(w.l, w.ids)
  {
    var r := AsRows(w.l);
    forall k | 0 <= k < |w.l.discarded| ensures r.discarded[k].subid == w.l.discarded[k].subid {}
  }

  /** For a write that stages nothing, being anchored is being loaded from what is stored. */
  lemma EmptyAnchor(p: PendingWrite, s: Stored)
    requires Shaped(p) && Count(p) == NOTHING
    ensures GenOk(p, s) <==> LoadedFrom(p, s)
  {
    assert s.image.unrankable + [] == s.image.unrankable;
    assert Ranked(p) == [] && Unranked(p) == [];
  }

  lemma EmptyAnchors(w: World, k: nat)
    requires ShapedAt(w.l, k) && k <= |w.l.discarded| && WriteAt(w.l, k).Some?
    ensures var p := WriteAt(w.l, k).value;
            Count(p) == NOTHING ==> forall s :: GenOk(p, s) <==> LoadedFrom(p, s)
  {
    var p := WriteAt(w.l, k).value;
    if Count(p) == NOTHING {
      forall s ensures GenOk(p, s) <==> LoadedFrom(p, s) { EmptyAnchor(p, s); }
    }
  }

  /** What AnchorAt says of one write, at depth `n` and position `i`. */
  predicate Anchor(p: PendingWrite, n: nat, i: nat, store: Store, cat: Catalog) {
    (i < n ==> Covered(AsEntry(p), n, i)) ==> p.ledger.rewindTo == Some(NOTHING) || AnchoredTo(p, store, cat)
  }

  lemma AnchorShift(p: PendingWrite, ev: SubEvent, n: nat, i: nat, store: Store, cat: Catalog)
    requires n > 0 && ev != StartSub && i <= n - 1 && EntryOk(AsEntry(p), n)
    requires Anchor(p, n, if ev == CommitSub && i == n - 1 then n else i, store, cat)
    requires ev == AbortSub && i == n - 1 ==>
             Covered(AsEntry(p), n, n - 1) || Count(p) != NOTHING
             || p.ledger.rewindTo == Some(NOTHING) || AnchoredTo(p, store, cat)
    ensures Anchor(MarkEvent(p, ev), n - 1, i, store, cat)
  {
    AsEntryMark(p, ev);
    EntryShift(AsEntry(p), ev, n, i);
    MarkKeepsAnchor(p, ev, store, cat);
    if ev == AbortSub && i == n - 1 && Count(p) != NOTHING { AbortAnchor(p, n); }
  }

  lemma AnchorAtIs(l: Local<PendingWrite>, ids: seq<SubId>, tx: Tx, store: Store, i: nat)
    ensures AnchorAt(l, ids, tx, store, i) <==>
            var o := OwnerWrite(l, ids, i);
            i <= |ids| && o.Some? ==> Anchor(o.value, |ids|, i, store, CatAt(tx, i))
  {
  }

  lemma CoreShape(w: World)
    requires Core(w)
    ensures |w.tx.stack| == |w.ids| && Structured(AsRows(w.l), w.ids)
  {
  }

  lemma SafeIsAnchored(w: World)
    requires Core(w) && w.ids != [] && SafeToAbort(w)
    ensures var d := |w.ids| - 1;
            var o := OwnerWrite(w.l, w.ids, d);
            o.None? || Covered(AsEntry(o.value), d + 1, d) || Count(o.value) != NOTHING
            || o.value.ledger.rewindTo == Some(NOTHING) || AnchoredTo(o.value, w.store, CatAt(w.tx, d))
  {
    var k := OwnerOf(w.l, w.ids, |w.ids| - 1);
    assert ShapedAt(w.l, k);
    if WriteAt(w.l, k).Some? { EmptyAnchors(w, k); }
  }

  lemma CloseAnchorAt(w: World, ev: SubEvent, i: nat)
    requires Core(w) && w.ids != [] && ev != StartSub && (ev == AbortSub ==> SafeToAbort(w))
    ensures AnchorAt(SubxactEvent(w.l, ev, Innermost(w.ids), Parent(w.ids)), w.ids[..|w.ids| - 1],
                     SpecSub(w.tx, ev), w.store, i)
  {
    hide Covers, SpecSub, SubxactEvent, Refines, ShapedAt, MarkEvent, Covered, AnchorAt, Anchor, AnchoredTo,
         SafeToAbort;
    var n := |w.ids|;
    CoreShape(w);
    AnchorAtIs(SubxactEvent(w.l, ev, Innermost(w.ids), Parent(w.ids)), w.ids[..n - 1], SpecSub(w.tx, ev), w.store, i);
    if i <= n - 1 {
      var i0 := if ev == CommitSub && i == n - 1 then n else i;
      var k := OwnerOf(w.l, w.ids, i0);
      CloseWrite(w, ev, i);
      SubAt(w.tx, ev, i);
      AnchorAtIs(w.l, w.ids, w.tx, w.store, i0);
      assert AnchorAt(w.l, w.ids, w.tx, w.store, i0);
      if ev == AbortSub { SafeIsAnchored(w); }
      if WriteAt(w.l, k).Some? {
        assert ShapedAt(w.l, k);
        WriteOkAt(w.l, w.ids, k);
        AnchorShift(WriteAt(w.l, k).value, ev, n, i, w.store, CatAt(w.tx, i0));
      }
    }
  }

  /** A write no mark covers at the aborted savepoint began inside it: all of it is rolled back. */
  lemma AbortAnchor(p: PendingWrite, depth: nat)
    requires depth > 0 && Count(p) != NOTHING && EntryOk(AsEntry(p), depth)
    ensures Covered(AsEntry(p), depth, depth - 1) || MarkEvent(p, AbortSub).ledger.rewindTo == Some(NOTHING)
  {
  }

  lemma MarkedWrites(m: Local<PendingWrite>, ev: SubEvent, k: nat)
    ensures ShapedAt(m, k) ==> ShapedAt(MapLocal(m, p => MarkEvent(p, ev)), k)
  {
    MapAt(m, p => MarkEvent(p, ev), k);
    if k <= |m.discarded| && WriteAt(m, k).Some? { MarkKeepsAnchor(WriteAt(m, k).value, ev, map[], map[]); }
  }

  lemma CloseWrites(w: World, ev: SubEvent, k: nat)
    requires Core(w) && w.ids != [] && ev != StartSub
    ensures ShapedAt(SubxactEvent(w.l, ev, Innermost(w.ids), Parent(w.ids)), k)
  {
    var m := Moved(w.l, w.ids, ev);
    StashShape(w);
    if k <= |m.discarded| {
      var k0 := MovedFrom(w.l, w.ids, ev, k);
      assert ShapedAt(w.l, k0);
    }
    MarkedWrites(m, ev, k);
    MapAt(m, p => MarkEvent(p, ev), k);
  }

  // --- replacing the pending write --------------------------------------------------------------

  /** A pending write anchored here is anchored at every savepoint its marks cover. */
  lemma PendingAnchorAt(w: World, p: Option<PendingWrite>, i: nat)
    requires Core(w)
    requires p.Some? ==> AnchoredTo(p.value, w.store, w.tx.cur.cat)
    requires p.Some? && p.value.ledger.marks != [] ==>
             w.l.pending.Some? && w.l.pending.value.indexOid == p.value.indexOid
             && |p.value.ledger.marks| <= |w.l.pending.value.ledger.marks|
    ensures AnchorAt(w.l.(pending := p), w.ids, w.tx, w.store, i)
  {
    var l', n := w.l.(pending := p), |w.l.discarded|;
    assert AnchorAt(w.l, w.ids, w.tx, w.store, i);
    if i <= |w.ids| && OwnerOf(w.l, w.ids, i) == n && p.Some? && i < |w.ids| && Covered(AsEntry(p.value), |w.ids|, i) {
      AsRowsOwner(w.l, w.ids, i);
      assert HomeAt(AsRows(w.l), w.ids, w.tx, i, |w.ids|);
    }
  }

  lemma HeldWrites(l: Local<PendingWrite>, p: Option<PendingWrite>, k: nat)
    requires ShapedAt(l, k) && (p.Some? ==> Shaped(p.value))
    ensures ShapedAt(l.(pending := p), k)
  {
  }
}
