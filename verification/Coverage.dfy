/** Every step of a transaction keeps every heap row answered for exactly once. */
module Coverage {
  import opened Base
  import opened Images
  import opened Stash
  import opened Pending
  import opened Savepoints
  import opened Staging
  import opened Transactions

  // --- snapshots and the store ---------------------------------------------------------------

  /** Where position `i` of the stack after the event stood before it. */
  function SubFrom(n: nat, ev: SubEvent, i: nat): nat {
    match ev
    case StartSub => if i <= n then i else n
    case CommitSub => if n > 0 && i < n - 1 then i else n
    case AbortSub => if n > 0 && i <= n - 1 then i else if n > 0 then n - 1 else 0
  }

  lemma SubAt(tx: Tx, ev: SubEvent, i: nat)
    requires ev != StartSub ==> tx.stack != []
    ensures SnapAt(SpecSub(tx, ev), i) == SnapAt(tx, SubFrom(|tx.stack|, ev, i))
    ensures SubFrom(|tx.stack|, ev, i) <= |tx.stack|
  {
  }

  /** Coverage looks at a stack one or two snapshots at a time. */
  lemma SnapCover(tx: Tx, i: nat, tx': Tx, i': nat, store: Store, o: Oid, t: Tid)
    requires SnapAt(tx', i') == SnapAt(tx, i) && i <= |tx.stack|
    requires CoverAt(tx, store, i, o, t) && BoundAt(tx, store, i, o) && KeysAt(tx, i)
    ensures CoverAt(tx', store, i', o, t) && BoundAt(tx', store, i', o) && KeysAt(tx', i')
  {
  }

  lemma SnapPair(tx: Tx, i: nat, j: nat, tx': Tx, i': nat, j': nat, o: Oid, o': Oid)
    requires SnapAt(tx', i') == SnapAt(tx, i) && SnapAt(tx', j') == SnapAt(tx, j)
    requires i' <= j' ==> i <= j <= |tx.stack|
    requires NestedAt(tx, i, j, o) && DistinctAt(tx, i, j, o, o')
    ensures NestedAt(tx', i', j', o) && DistinctAt(tx', i', j', o, o')
  {
  }

  lemma SubCovers(tx: Tx, store: Store, ev: SubEvent)
    requires Covers(tx, store) && (ev != StartSub ==> tx.stack != [])
    ensures Covers(SpecSub(tx, ev), store)
  {
    var tx', n, t0 := SpecSub(tx, ev), |tx.stack|, Tid(0, 0);
    forall i: nat, o, t ensures CoverAt(tx', store, i, o, t) && BoundAt(tx', store, i, o) && KeysAt(tx', i) {
      SubAt(tx, ev, i);
      SnapCover(tx, SubFrom(n, ev, i), tx', i, store, o, t);
    }
    forall i: nat, o ensures BoundAt(tx', store, i, o) && KeysAt(tx', i) { assert CoverAt(tx', store, i, o, t0); }
    forall i: nat ensures KeysAt(tx', i) { assert BoundAt(tx', store, i, 0); }
    forall i: nat, j: nat, o, o' ensures NestedAt(tx', i, j, o) && DistinctAt(tx', i, j, o, o') {
      SubAt(tx, ev, i);
      SubAt(tx, ev, j);
      SnapPair(tx, SubFrom(n, ev, i), SubFrom(n, ev, j), tx', i, j, o, o');
    }
    forall i: nat, j: nat, o ensures NestedAt(tx', i, j, o) { assert DistinctAt(tx', i, j, o, o); }
  }

  lemma DeleteAt(tx: Tx, store: Store, oid: Oid, gone: set<Tid>, i: nat, o: Oid, t: Tid)
    requires CoverAt(tx, store, i, o, t) && BoundAt(tx, store, i, o) && KeysAt(tx, i)
    ensures var tx' := tx.(cur := HeapMinus(tx.cur, oid, gone));
            CoverAt(tx', store, i, o, t) && BoundAt(tx', store, i, o) && KeysAt(tx', i)
  {
  }

  lemma DeleteCovers(tx: Tx, store: Store, oid: Oid, gone: set<Tid>)
    requires Covers(tx, store)
    ensures Covers(tx.(cur := HeapMinus(tx.cur, oid, gone)), store)
  {
    var tx', t0 := tx.(cur := HeapMinus(tx.cur, oid, gone)), Tid(0, 0);
    forall i: nat, o, t ensures CoverAt(tx', store, i, o, t) && BoundAt(tx', store, i, o) && KeysAt(tx', i) {
      DeleteAt(tx, store, oid, gone, i, o, t);
    }
    forall i: nat, o ensures BoundAt(tx', store, i, o) && KeysAt(tx', i) { assert CoverAt(tx', store, i, o, t0); }
    forall i: nat ensures KeysAt(tx', i) { assert BoundAt(tx', store, i, 0); }
    SamePairs(tx, tx');
  }

  /** Nesting and distinctness see relfilenodes and staged rows only. */
  lemma SamePairs(tx: Tx, tx': Tx)
    requires forall i: nat, j: nat, o :: NestedAt(tx, i, j, o)
    requires forall i: nat, j: nat, o, o' :: DistinctAt(tx, i, j, o, o')
    requires tx'.stack == tx.stack && tx'.cur.cat == tx.cur.cat && tx'.cur.slot == tx.cur.slot
    ensures forall i: nat, j: nat, o :: NestedAt(tx', i, j, o)
    ensures forall i: nat, j: nat, o, o' :: DistinctAt(tx', i, j, o, o')
  {
    forall i: nat, j: nat, o ensures NestedAt(tx', i, j, o) { assert NestedAt(tx, i, j, o); }
    forall i: nat, j: nat, o, o' ensures DistinctAt(tx', i, j, o, o') { assert DistinctAt(tx, i, j, o, o'); }
  }

  lemma OthersCovers(w: World, after: Store, arrived: map<Oid, set<Tid>>)
    requires Covers(w.tx, w.store) && Polite(w, after, arrived)
    ensures Covers(Grown(w.tx, arrived), after)
  {
    var tx' := Grown(w.tx, arrived);
    forall i: nat, o, t ensures CoverAt(tx', after, i, o, t) { OthersCoverAt(w, after, arrived, i, o, t); }
    forall i: nat, o ensures BoundAt(tx', after, i, o) {
      GrownAt(w.tx, arrived, i);
      assert BoundAt(w.tx, w.store, i, o);
      if o in CatAt(w.tx, i) { assert EvolvesAt(w.store, after, CatAt(w.tx, i)[o]); }
    }
    forall i: nat ensures KeysAt(tx', i) { GrownAt(w.tx, arrived, i); assert KeysAt(w.tx, i); }
    GrownPairs(w.tx, arrived);
  }

  lemma GrownAt(tx: Tx, arrived: map<Oid, set<Tid>>, i: nat)
    ensures SnapAt(Grown(tx, arrived), i) == GrownSnap(SnapAt(tx, i), arrived)
    ensures SnapAt(Grown(tx, arrived), i).heap.Keys == SnapAt(tx, i).heap.Keys
  {
  }

  lemma GrownPairs(tx: Tx, arrived: map<Oid, set<Tid>>)
    requires forall i: nat, j: nat, o :: NestedAt(tx, i, j, o)
    requires forall i: nat, j: nat, o, o' :: DistinctAt(tx, i, j, o, o')
    ensures forall i: nat, j: nat, o :: NestedAt(Grown(tx, arrived), i, j, o)
    ensures forall i: nat, j: nat, o, o' :: DistinctAt(Grown(tx, arrived), i, j, o, o')
  {
    forall i: nat, j: nat, o ensures NestedAt(Grown(tx, arrived), i, j, o) {
      GrownAt(tx, arrived, i);
      GrownAt(tx, arrived, j);
      assert NestedAt(tx, i, j, o);
    }
    forall i: nat, j: nat, o, o' ensures DistinctAt(Grown(tx, arrived), i, j, o, o') {
      GrownAt(tx, arrived, i);
      GrownAt(tx, arrived, j);
      assert DistinctAt(tx, i, j, o, o');
    }
  }

  lemma OthersCoverAt(w: World, after: Store, arrived: map<Oid, set<Tid>>, i: nat, o: Oid, t: Tid)
    requires Covers(w.tx, w.store) && Polite(w, after, arrived)
    ensures CoverAt(Grown(w.tx, arrived), after, i, o, t)
  {
    GrownAt(w.tx, arrived, i);
    assert CoverAt(w.tx, w.store, i, o, t) && PoliteAt(w, after, arrived, i, o, t) && BoundAt(w.tx, w.store, i, o);
  }

  // --- writing back ---------------------------------------------------------------------------

  /** A write-back of exactly what is staged, onto the relation it is staged for. */
  ghost predicate WritesStaged(tx: Tx, store: Store, o: Oid, img: Image) {
    && o in tx.cur.cat && tx.cur.cat[o] in store
    && Valid(img) && DeadInRange(img)
    && (tx.cur.slot.Staged? ==> tx.cur.slot.oid == o)
    && LiveTids(img) == LiveTids(store[tx.cur.cat[o]].image) + StagedTids(tx.cur.slot, o)
  }

  function Rewritten(store: Store, x: Relfile, img: Image): Store
    requires x in store
  {
    store[x := Stored(store[x].generation + 1, img)]
  }

  lemma WrittenAt(tx: Tx, i: nat)
    ensures CatAt(Written(tx), i) == CatAt(tx, i) && SnapAt(Written(tx), i).heap == SnapAt(tx, i).heap
    ensures SnapAt(Written(tx), i).slot ==
            if i >= |tx.stack| || SameWrite(tx.stack[i], tx.cur) then Nothing else tx.stack[i].slot
  {
  }

  lemma WriteCoverAt(tx: Tx, store: Store, o: Oid, img: Image, i: nat, o': Oid, t: Tid)
    requires Covers(tx, store) && WritesStaged(tx, store, o, img)
    ensures CoverAt(Written(tx), Rewritten(store, tx.cur.cat[o], img), i, o', t)
  {
    var n := |tx.stack|;
    WrittenAt(tx, i);
    assert CoverAt(tx, store, i, o', t) && CoverAt(tx, store, n, o, t);
    assert DistinctAt(tx, i, n, o', o) && NestedAt(tx, i, n, o) && BoundAt(tx, store, i, o') && KeysAt(tx, n);
    if i <= n && o' in CatAt(tx, i) && o' in SnapAt(tx, i).heap {
      if CatAt(tx, i)[o'] == tx.cur.cat[o] { WriteSameFile(tx, store, o, img, i, t); }
      else { WriteOtherFile(tx, i, o'); }
    }
  }

  /** The relation written gains what the snapshot staged for it, and that is no longer staged. */
  lemma WriteSameFile(tx: Tx, store: Store, o: Oid, img: Image, i: nat, t: Tid)
    requires WritesStaged(tx, store, o, img) && i <= |tx.stack| && o in CatAt(tx, i) && o in SnapAt(tx, i).heap
    requires CatAt(tx, i)[o] == tx.cur.cat[o]
    requires CoverAt(tx, store, i, o, t) && CoverAt(tx, store, |tx.stack|, o, t) && NestedAt(tx, i, |tx.stack|, o)
    requires o in tx.cur.heap
    ensures CoverAt(Written(tx), Rewritten(store, tx.cur.cat[o], img), i, o, t)
  {
    WrittenAt(tx, i);
    var s, was := SnapAt(tx, i), LiveTids(store[tx.cur.cat[o]].image)[t];
    assert StagedTids(s.slot, o)[t] <= StagedTids(tx.cur.slot, o)[t];
    assert StagedTids(SnapAt(Written(tx), i).slot, o) == multiset{} by { StagedNow(tx, i, o); }
    assert was + StagedTids(tx.cur.slot, o)[t] <= 1;
  }

  /** After the write nothing is staged for that relation anywhere. */
  lemma StagedNow(tx: Tx, i: nat, o: Oid)
    requires i <= |tx.stack| && o in CatAt(tx, i) && o in tx.cur.cat && CatAt(tx, i)[o] == tx.cur.cat[o]
    requires NestedAt(tx, i, |tx.stack|, o)
    ensures StagedTids(SnapAt(Written(tx), i).slot, o) == multiset{}
  {
    WrittenAt(tx, i);
  }

  lemma WriteOtherFile(tx: Tx, i: nat, o: Oid)
    requires i <= |tx.stack| && o in CatAt(tx, i)
    requires tx.cur.slot.Staged? && tx.cur.slot.oid in tx.cur.cat ==> CatAt(tx, i)[o] != tx.cur.cat[tx.cur.slot.oid]
    ensures i < |tx.stack| ==> StagedTids(SnapAt(Written(tx), i).slot, o) == StagedTids(SnapAt(tx, i).slot, o)
  {
    WrittenAt(tx, i);
  }

  lemma WriteNestedAt(tx: Tx, i: nat, j: nat, o: Oid)
    requires NestedAt(tx, i, j, o) && NestedAt(tx, i, |tx.stack|, o)
    ensures NestedAt(Written(tx), i, j, o)
  {
    WrittenAt(tx, i);
    WrittenAt(tx, j);
  }

  lemma WriteCovers(tx: Tx, store: Store, o: Oid, img: Image)
    requires Covers(tx, store) && WritesStaged(tx, store, o, img)
    ensures Covers(Written(tx), Rewritten(store, tx.cur.cat[o], img))
  {
    var tx', store' := Written(tx), Rewritten(store, tx.cur.cat[o], img);
    forall i: nat, o', t ensures CoverAt(tx', store', i, o', t) { WriteCoverAt(tx, store, o, img, i, o', t); }
    forall i: nat, j: nat, o' ensures NestedAt(tx', i, j, o') {
      assert NestedAt(tx, i, j, o') && NestedAt(tx, i, |tx.stack|, o');
      WriteNestedAt(tx, i, j, o');
    }
    forall i: nat, j: nat, o', o'' ensures DistinctAt(tx', i, j, o', o'') {
      WrittenAt(tx, i);
      WrittenAt(tx, j);
      assert DistinctAt(tx, i, j, o', o'');
    }
    forall i: nat, o' ensures BoundAt(tx', store', i, o') {
      WrittenAt(tx, i);
      assert BoundAt(tx, store, i, o');
    }
    forall i: nat ensures KeysAt(tx', i) {
      WrittenAt(tx, i);
      assert KeysAt(tx, i);
    }
    forall x ensures FileOk(store', x) { assert FileOk(store, x); }
  }

  // --- staging --------------------------------------------------------------------------------

  function Inserted(tx: Tx, o: Oid, row: NewRow): Tx {
    tx.(cur := HeapPlus(tx.cur.(slot := Append(tx.cur.slot, o, row)), o, TidOf(row)))
  }

  lemma AppendTids(slot: Slot, o: Oid, row: NewRow, o': Oid)
    requires slot.Staged? ==> slot.oid == o
    ensures StagedTids(Append(slot, o, row), o') ==
            StagedTids(slot, o') + (if o' == o then multiset{TidOf(row)} else multiset{})
  {
    hide RowTids, UnrankableTids;
    EmptyTids();
    if row.WithVector? {
      RowTidsNext(if slot.Staged? then slot.rows else [], row.row);
    } else {
      UnrankableTidsNext(if slot.Staged? then slot.vrows else [], row.vrow);
    }
  }

  lemma EmptyTids()
    ensures RowTids([]) == multiset{} && UnrankableTids([]) == multiset{}
  {
  }

  lemma RowTidsNext(rows: seq<RankedRow>, row: RankedRow)
    ensures RowTids(rows + [row]) == RowTids(rows) + multiset{row.tid}
  {
    assert (rows + [row])[..|rows + [row]| - 1] == rows;
  }

  lemma UnrankableTidsNext(rows: seq<UnrankableRow>, row: UnrankableRow)
    ensures UnrankableTids(rows + [row]) == UnrankableTids(rows) + multiset{row.tid}
  {
    assert (rows + [row])[..|rows + [row]| - 1] == rows;
  }

  lemma InsertAnswers(s: Snap, store: Store, o: Oid, row: NewRow, o': Oid, t: Tid)
    requires o' in s.cat && s.cat[o'] in store && (s.slot.Staged? ==> s.slot.oid == o)
    ensures var s' := HeapPlus(s.(slot := Append(s.slot, o, row)), o, TidOf(row));
            s'.cat == s.cat
            && Answers(s', store, o', t) == Answers(s, store, o', t) + (if o' == o && t == TidOf(row) then 1 else 0)
  {
    AppendTids(s.slot, o, row, o');
  }

  lemma InsertCoversRow(s: Snap, store: Store, o: Oid, row: NewRow, o': Oid, t: Tid)
    requires CoversRow(s, store, o', t) && (s.slot.Staged? ==> s.slot.oid == o)
    requires o in s.cat && s.cat[o] in store && Answers(s, store, o, TidOf(row)) == 0
    ensures CoversRow(HeapPlus(s.(slot := Append(s.slot, o, row)), o, TidOf(row)), store, o', t)
  {
    if o' in s.cat && s.cat[o'] in store { InsertAnswers(s, store, o, row, o', t); }
  }

  lemma InsertCoverAt(tx: Tx, store: Store, o: Oid, row: NewRow, i: nat, o': Oid, t: Tid)
    requires CoverAt(tx, store, i, o', t)
    requires o in tx.cur.cat && tx.cur.cat[o] in store
    requires tx.cur.slot.Staged? ==> tx.cur.slot.oid == o
    requires Answers(tx.cur, store, o, TidOf(row)) == 0
    ensures CoverAt(Inserted(tx, o, row), store, i, o', t)
  {
    if i == |tx.stack| { InsertCoversRow(tx.cur, store, o, row, o', t); }
  }

  lemma InsertNestedAt(tx: Tx, o: Oid, row: NewRow, i: nat, j: nat, o': Oid)
    requires NestedAt(tx, i, j, o') && (tx.cur.slot.Staged? ==> tx.cur.slot.oid == o)
    ensures NestedAt(Inserted(tx, o, row), i, j, o')
  {
    var tx' := Inserted(tx, o, row);
    AppendTids(tx.cur.slot, o, row, o');
    assert CatAt(tx', i) == CatAt(tx, i) && CatAt(tx', j) == CatAt(tx, j);
    if i < |tx.stack| { assert SnapAt(tx', i) == SnapAt(tx, i); }
    assert StagedTids(SnapAt(tx, j).slot, o') <= StagedTids(SnapAt(tx', j).slot, o');
  }

  lemma InsertCovers(tx: Tx, store: Store, o: Oid, row: NewRow)
    requires Covers(tx, store) && o in tx.cur.cat && tx.cur.cat[o] in store && o in tx.cur.heap
    requires tx.cur.slot.Staged? ==> tx.cur.slot.oid == o
    requires Answers(tx.cur, store, o, TidOf(row)) == 0
    ensures Covers(Inserted(tx, o, row), store)
  {
    var tx' := Inserted(tx, o, row);
    forall i: nat, o', t ensures CoverAt(tx', store, i, o', t) {
      assert CoverAt(tx, store, i, o', t);
      InsertCoverAt(tx, store, o, row, i, o', t);
    }
    forall i: nat, j: nat, o' ensures NestedAt(tx', i, j, o') {
      assert NestedAt(tx, i, j, o');
      InsertNestedAt(tx, o, row, i, j, o');
    }
    forall i: nat, j: nat, o', o'' ensures DistinctAt(tx', i, j, o', o'') { assert DistinctAt(tx, i, j, o', o''); }
    forall i: nat, o' ensures BoundAt(tx', store, i, o') { assert BoundAt(tx, store, i, o'); }
    forall i: nat ensures KeysAt(tx', i) { assert KeysAt(tx, i); }
  }

  // --- rebuilding -----------------------------------------------------------------------------

  ghost predicate Rebuilds(tx: Tx, store: Store, o: Oid, file: Relfile, img: Image) {
    && NewFile(tx, o, file) && file !in store && o in tx.cur.heap
    && Valid(img) && DeadInRange(img)
    && forall t :: HoldsHeapAt(img, tx.cur.heap[o], t)
  }

  predicate HoldsHeapAt(img: Image, heap: set<Tid>, t: Tid) {
    LiveTids(img)[t] <= 1 && (t in heap ==> LiveTids(img)[t] == 1)
  }

  lemma RebuildCoverAt(tx: Tx, store: Store, o: Oid, file: Relfile, img: Image, i: nat, o': Oid, t: Tid)
    requires Covers(tx, store) && Rebuilds(tx, store, o, file, img)
    ensures CoverAt(SpecRebuild(tx, o, file), store[file := Stored(FIRST_GENERATION, img)], i, o', t)
  {
    assert CoverAt(tx, store, i, o', t) && BoundAt(tx, store, i, o');
    assert o in CatAt(tx, i) ==> CatAt(tx, i)[o] < file;
    assert HoldsHeapAt(img, tx.cur.heap[o], t);
  }

  lemma RebuildCovers(tx: Tx, store: Store, o: Oid, file: Relfile, img: Image)
    requires Covers(tx, store) && Rebuilds(tx, store, o, file, img)
    ensures Covers(SpecRebuild(tx, o, file), store[file := Stored(FIRST_GENERATION, img)])
  {
    var tx', store' := SpecRebuild(tx, o, file), store[file := Stored(FIRST_GENERATION, img)];
    forall i: nat, o', t ensures CoverAt(tx', store', i, o', t) { RebuildCoverAt(tx, store, o, file, img, i, o', t); }
    forall i: nat, j: nat, o' ensures NestedAt(tx', i, j, o') {
      assert NestedAt(tx, i, j, o');
      assert o in CatAt(tx, i) ==> CatAt(tx, i)[o] < file;
    }
    forall i: nat, j: nat, o', o'' ensures DistinctAt(tx', i, j, o', o'') {
      assert DistinctAt(tx, i, j, o', o'') && BoundAt(tx, store, i, o') && BoundAt(tx, store, j, o'');
    }
    forall i: nat, o ensures BoundAt(tx', store', i, o) { assert BoundAt(tx, store, i, o); }
    forall i: nat ensures KeysAt(tx', i) { assert KeysAt(tx, i); }
    forall x ensures FileOk(store', x) { assert FileOk(store, x); }
  }
}
