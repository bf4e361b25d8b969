/** Every step of a transaction keeps the staging refined, anchored and covering the heap. */
module Steps {
  import opened Base
  import opened Images
  import opened Stash
  import opened Pending
  import opened Savepoints
  import opened Staging
  import opened Transactions
  import opened Coverage
  import opened Anchoring

  // --- savepoints ---------------------------------------------------------------------------------

  lemma OpenKeeps(w: World, my: SubId)
    requires Core(w) && my > Innermost(w.ids) && my > TOP
    ensures Core(World(SubxactEvent(w.l, StartSub, my, Innermost(w.ids)), w.ids + [my], SpecSub(w.tx, StartSub),
                       w.store))
  {
    var l' := SubxactEvent(w.l, StartSub, my, Innermost(w.ids));
    AsRowsSub(w.l, StartSub, my, Innermost(w.ids));
    StartRefines(AsRows(w.l), w.ids, w.tx, my);
    SubCovers(w.tx, w.store, StartSub);
    forall i: nat ensures AnchorAt(l', w.ids + [my], SpecSub(w.tx, StartSub), w.store, i) { OpenAnchorAt(w, my, i); }
    forall k: nat ensures ShapedAt(l', k) { assert ShapedAt(w.l, k); MarkedWrites(w.l, StartSub, k); }
  }

  lemma CloseKeeps(w: World, ev: SubEvent)
    requires Core(w) && w.ids != [] && ev != StartSub && (ev == AbortSub ==> SafeToAbort(w))
    ensures Core(World(SubxactEvent(w.l, ev, Innermost(w.ids), Parent(w.ids)), w.ids[..|w.ids| - 1],
                       SpecSub(w.tx, ev), w.store))
  {
    var l', ids', tx' := SubxactEvent(w.l, ev, Innermost(w.ids), Parent(w.ids)), w.ids[..|w.ids| - 1],
        SpecSub(w.tx, ev);
    AsRowsSub(w.l, ev, Innermost(w.ids), Parent(w.ids));
    CloseRefines(AsRows(w.l), w.ids, w.tx, ev);
    SubCovers(w.tx, w.store, ev);
    forall i: nat ensures AnchorAt(l', ids', tx', w.store, i) { CloseAnchorAt(w, ev, i); }
    forall k: nat ensures ShapedAt(l', k) { CloseWrites(w, ev, k); }
  }

  ghost predicate HoldsPending(w: World, p: Option<PendingWrite>) {
    && (p.Some? ==> Shaped(p.value) && AnchoredTo(p.value, w.store, w.tx.cur.cat))
    && (p.Some? && p.value.ledger.marks != [] ==>
          w.l.pending.Some? && w.l.pending.value.indexOid == p.value.indexOid
          && |p.value.ledger.marks| <= |w.l.pending.value.ledger.marks|)
  }

  lemma HoldKeeps(w: World, p: Option<PendingWrite>)
    requires Core(w) && HoldsPending(w, p)
    ensures var l' := w.l.(pending := p);
            && AsRows(l') == Held(AsRows(w.l), if p.None? then None else Some(AsEntry(p.value)))
            && (forall k: nat :: ShapedAt(l', k))
            && Anchored(l', w.ids, w.tx, w.store)
  {
    var l' := w.l.(pending := p);
    forall k: nat ensures ShapedAt(l', k) { assert ShapedAt(w.l, k); HeldWrites(w.l, p, k); }
    forall i: nat ensures AnchorAt(l', w.ids, w.tx, w.store, i) { PendingAnchorAt(w, p, i); }
  }

  lemma RewoundAnchored(w: PendingWrite, mark: Mark, s: Stored)
    requires WriteOk(w) && mark.AtMost(Count(w)) && Valid(s.image) && Rewound(w, mark, s).Some?
    ensures GenOk(Rewound(w, mark, s).value, s) && Count(Rewound(w, mark, s).value) == mark
  {
    RewoundKeeps(w, mark, s);
  }

  lemma SettleKeeps(w: World)
    requires Core(w) && Ready(w) && !Settle(w.l.pending, w.tx.cur.cat, w.store).refused
    ensures var w' := w.(l := w.l.(pending := Settle(w.l.pending, w.tx.cur.cat, w.store).pending));
            && Core(w')
            && (w'.l.pending.Some? ==> w'.l.pending.value.ledger.rewindTo.None?)
  {
    var p := Settle(w.l.pending, w.tx.cur.cat, w.store).pending;
    if w.l.pending.None? || w.l.pending.value.ledger.rewindTo.None? {
      assert w.l.(pending := p) == w.l;
    } else {
      SettleOpenable(w.l.pending, w.tx.cur.cat, w.store);
      if p.Some? {
        var was := w.l.pending.value;
        RewoundAnchored(was, was.ledger.rewindTo.value, w.store[w.tx.cur.cat[was.indexOid]]);
      }
      HoldKeeps(w, p);
      SettleAsEntry(w.l.pending, w.tx.cur.cat, w.store);
      SettleRefines(AsRows(w.l), w.ids, w.tx);
    }
  }

  // --- writing back --------------------------------------------------------------------------------

  /** The same-generation fast path writes what a replay onto the stored image would. */
  lemma FlushIsReplay(w: World)
    requires Core(w) && Ready(w) && w.l.pending.Some? && w.l.pending.value.ledger.rewindTo.None?
    ensures var p := w.l.pending.value;
            var s := w.store[w.tx.cur.cat[p.indexOid]];
            FlushImage(p, s) == Replay(s.image, Ranked(p), Unranked(p))
  {
    assert AnchorAt(w.l, w.ids, w.tx, w.store, |w.ids|);
  }

  lemma PendingSlot(p: PendingWrite)
    requires p.ledger.rewindTo.None?
    ensures var slot := Current(AsRows(Local(Some(p), [])));
            (slot.Staged? ==> slot.oid == p.indexOid)
            && StagedTids(slot, p.indexOid) == RowTids(Ranked(p)) + UnrankableTids(Unranked(p))
  {
    assert Take(Ranked(p), |Ranked(p)|) == Ranked(p) && Take(Unranked(p), |Unranked(p)|) == Unranked(p);
  }

  lemma FlushStaged(w: World)
    requires Core(w) && Ready(w) && w.l.pending.Some? && w.l.pending.value.ledger.rewindTo.None?
    requires !Flush(w.l.pending, w.tx.cur.cat, w.store).refused
    ensures var p := w.l.pending.value;
            var x := w.tx.cur.cat[p.indexOid];
            WritesStaged(w.tx, w.store, p.indexOid, FlushImage(p, w.store[x]).value)
  {
    var p := w.l.pending.value;
    var s := w.store[w.tx.cur.cat[p.indexOid]];
    FlushIsReplay(w);
    PendingSlot(p);
    assert w.tx.cur.slot == Current(AsRows(w.l)) == Current(AsRows(Local(Some(p), [])));
    assert DeadInRange(s.image) by { assert FileOk(w.store, w.tx.cur.cat[p.indexOid]); }
    ReplayLive(s.image, Ranked(p), Unranked(p));
  }

  /** Whatever is anchored stays so while generations only grow. */
  lemma EvolvedAnchorAt(l: Local<PendingWrite>, ids: seq<SubId>, tx: Tx, tx': Tx, store: Store, store': Store, i: nat)
    requires AnchorAt(l, ids, tx, store, i) && CatAt(tx', i) == CatAt(tx, i)
    requires forall x :: EvolvesAt(store, store', x)
    ensures AnchorAt(l, ids, tx', store', i)
  {
    var o := OwnerWrite(l, ids, i);
    if o.Some? && AnchoredTo(o.value, store, CatAt(tx, i)) {
      assert EvolvesAt(store, store', CatAt(tx, i)[o.value.indexOid]);
    }
  }

  lemma FlushedAnchorAt(w: World, store': Store, i: nat)
    requires Core(w) && forall x :: EvolvesAt(w.store, store', x)
    ensures AnchorAt(w.l.(pending := None), w.ids, Written(w.tx), store', i)
  {
    PendingAnchorAt(w, None, i);
    WrittenAt(w.tx, i);
    EvolvedAnchorAt(w.l.(pending := None), w.ids, w.tx, Written(w.tx), w.store, store', i);
  }

  lemma FlushRewrites(w: World, img: Image)
    requires Ready(w) && w.l.pending.Some?
    requires FlushImage(w.l.pending.value, w.store[w.tx.cur.cat[w.l.pending.value.indexOid]]) == Some(img)
    ensures var r := Flush(w.l.pending, w.tx.cur.cat, w.store);
            && r.pending.None? && r.store == Rewritten(w.store, w.tx.cur.cat[w.l.pending.value.indexOid], img)
            && forall x :: EvolvesAt(w.store, r.store, x)
  {
    hide FlushImage;
  }

  lemma FlushStore(w: World)
    requires Core(w) && Ready(w) && w.l.pending.Some? && w.l.pending.value.ledger.rewindTo.None?
    requires !Flush(w.l.pending, w.tx.cur.cat, w.store).refused
    ensures var r := Flush(w.l.pending, w.tx.cur.cat, w.store);
            r.pending.None? && Covers(Written(w.tx), r.store) && forall x :: EvolvesAt(w.store, r.store, x)
  {
    hide Refines, Anchored, Covers, EvolvesAt, FlushImage;
    var p := w.l.pending.value;
    var img := FlushImage(p, w.store[w.tx.cur.cat[p.indexOid]]).value;
    FlushStaged(w);
    WriteCovers(w.tx, w.store, p.indexOid, img);
    FlushRewrites(w, img);
  }

  lemma FlushKeeps(w: World)
    requires Core(w) && Ready(w) && w.l.pending.Some? && w.l.pending.value.ledger.rewindTo.None?
    requires !Flush(w.l.pending, w.tx.cur.cat, w.store).refused
    ensures var r := Flush(w.l.pending, w.tx.cur.cat, w.store);
            var w' := World(w.l.(pending := None), w.ids, Written(w.tx), r.store);
            && r.pending.None?
            && Core(w')
  {
    var store' := Flush(w.l.pending, w.tx.cur.cat, w.store).store;
    var l' := w.l.(pending := None);
    FlushStore(w);
    HoldKeeps(w, None);
    WriteRefines(AsRows(w.l), w.ids, w.tx);
    forall i: nat ensures AnchorAt(l', w.ids, Written(w.tx), store', i) { FlushedAnchorAt(w, store', i); }
  }

  lemma WrittenNothing(tx: Tx)
    requires tx.cur.slot.Nothing?
    ensures Written(tx) == tx
  {
    assert Written(tx).stack == tx.stack;
  }

  // --- staging ----------------------------------------------------------------------------------------

  lemma LoadAnchored(oid: Oid, s: Stored)
    ensures GenOk(Load(oid, s), s) && (Valid(s.image) ==> Shaped(Load(oid, s)))
    ensures AsEntry(Load(oid, s)) == Blank(oid)
  {
    assert Ranked(Load(oid, s)) == [];
    assert s.image.unrankable + [] == s.image.unrankable;
  }

  lemma LoadKeeps(w: World, oid: Oid)
    requires Core(w) && w.l.pending.None? && Opens(w.tx.cur.cat, w.store, oid)
    ensures Core(w.(l := w.l.(pending := Some(Load(oid, w.store[w.tx.cur.cat[oid]])))))
  {
    var p := Load(oid, w.store[w.tx.cur.cat[oid]]);
    LoadAnchored(oid, w.store[w.tx.cur.cat[oid]]);
    HoldKeeps(w, Some(p));
    LoadRefines(AsRows(w.l), w.ids, w.tx, oid);
  }

  lemma StageAnchored(p: PendingWrite, row: NewRow, s: Stored)
    requires Shaped(p) && GenOk(p, s) && Stage(p, row).Some?
    ensures GenOk(Stage(p, row).value, s) && AsEntry(Stage(p, row).value) == WithRow(AsEntry(p), row)
  {
    StageAppends(p, row);
    var p' := Stage(p, row).value;
    if row.WithVector? {
      assert Ranked(p')[..|Ranked(p')| - 1] == Ranked(p);
    } else {
      assert Ranked(p') == Ranked(p);
      assert s.image.unrankable + (Unranked(p) + [row.vrow]) == (s.image.unrankable + Unranked(p)) + [row.vrow];
    }
  }

  lemma StagedRefines(w: World, oid: Oid, row: NewRow, p': PendingWrite)
    requires Refines(AsRows(w.l), w.ids, w.tx) && w.l.pending.Some?
    requires w.l.pending.value.ledger.rewindTo.None? && w.l.pending.value.indexOid == oid
    requires AsEntry(p') == WithRow(AsEntry(w.l.pending.value), row)
    ensures Refines(AsRows(w.l.(pending := Some(p'))), w.ids, Inserted(w.tx, oid, row))
    ensures w.tx.cur.slot.Staged? ==> w.tx.cur.slot.oid == oid
  {
    var mid := w.tx.(cur := w.tx.cur.(slot := Append(w.tx.cur.slot, oid, row)));
    StageRefines(AsRows(w.l), w.ids, w.tx, row);
    assert AsRows(w.l.(pending := Some(p'))) == Held(AsRows(w.l), Some(AsEntry(p')));
    HeapIrrelevant(AsRows(w.l.(pending := Some(p'))), w.ids, mid, Inserted(w.tx, oid, row));
  }

  lemma StageKeeps(w: World, oid: Oid, row: NewRow)
    requires Core(w) && w.l.pending.Some? && w.l.pending.value.ledger.rewindTo.None?
    requires w.l.pending.value.indexOid == oid && oid in w.tx.cur.heap
    requires FreshTid(w, oid, TidOf(row)) && Stage(w.l.pending.value, row).Some?
    ensures var p' := Stage(w.l.pending.value, row).value;
            Core(World(w.l.(pending := Some(p')), w.ids, Inserted(w.tx, oid, row), w.store))
  {
    var p, p' := w.l.pending.value, Stage(w.l.pending.value, row).value;
    var l', tx' := w.l.(pending := Some(p')), Inserted(w.tx, oid, row);
    assert AnchorAt(w.l, w.ids, w.tx, w.store, |w.ids|) && ShapedAt(w.l, |w.l.discarded|);
    StageAppends(p, row);
    StageAnchored(p, row, w.store[w.tx.cur.cat[oid]]);
    HoldKeeps(w, Some(p'));
    StagedRefines(w, oid, row, p');
    InsertCovers(w.tx, w.store, oid, row);
    InsertedAnchors(w, l', tx');
  }

  lemma InsertedAnchors(w: World, l': Local<PendingWrite>, tx': Tx)
    requires Anchored(l', w.ids, w.tx, w.store) && tx'.stack == w.tx.stack && tx'.cur.cat == w.tx.cur.cat
    ensures Anchored(l', w.ids, tx', w.store)
  {
    forall i: nat ensures AnchorAt(l', w.ids, tx', w.store, i) {
      assert AnchorAt(l', w.ids, w.tx, w.store, i);
      assert CatAt(tx', i) == CatAt(w.tx, i);
    }
  }

  function SettledWorld(w: World): World
    requires Ready(w)
  {
    w.(l := w.l.(pending := Settle(w.l.pending, w.tx.cur.cat, w.store).pending))
  }

  /** The state once another index's staging has been written back. */
  function RoomMade(a: World, oid: Oid): World
    requires Ready(a)
  {
    if OtherIndex(a.l.pending, oid) then
      World(a.l.(pending := None), a.ids, MakeRoom(a.tx, oid), Flush(a.l.pending, a.tx.cur.cat, a.store).store)
    else a.(tx := MakeRoom(a.tx, oid))
  }

  lemma InsertSettledIs(a: World, oid: Oid, row: NewRow)
    requires Ready(a) && Opens(a.tx.cur.cat, a.store, oid)
    requires !InsertSettled(a.l.pending, oid, row, a.tx.cur.cat, a.store).refused
    ensures var b := RoomMade(a, oid);
            var r := InsertSettled(a.l.pending, oid, row, a.tx.cur.cat, a.store);
            && (OtherIndex(a.l.pending, oid) ==> !Flush(a.l.pending, a.tx.cur.cat, a.store).refused)
            && oid in b.tx.cur.cat && b.tx.cur.cat[oid] in b.store
            && Stage(LoadedFor(b, oid), row).Some?
            && r.pending == Some(Stage(LoadedFor(b, oid), row).value) && r.store == b.store
            && b.l.discarded == a.l.discarded && b.ids == a.ids && b.tx == MakeRoom(a.tx, oid)
  {
  }

  /** Staging a row is: settle, make room, load on first use, append. */
  lemma InsertIs(w: World, oid: Oid, row: NewRow)
    requires Ready(w) && Enabled(w, InsertInto(oid, row)) && Ready(SettledWorld(w))
    ensures var a := SettledWorld(w);
            var b := RoomMade(a, oid);
            && !Settle(w.l.pending, w.tx.cur.cat, w.store).refused
            && (OtherIndex(a.l.pending, oid) ==> !Flush(a.l.pending, a.tx.cur.cat, a.store).refused)
            && oid in b.tx.cur.cat && b.tx.cur.cat[oid] in b.store
            && Stage(LoadedFor(b, oid), row).Some?
            && Step(w, InsertInto(oid, row))
               == World(b.l.(pending := Some(Stage(LoadedFor(b, oid), row).value)), b.ids, Inserted(b.tx, oid, row),
                   b.store)
  {
    InsertSettledIs(SettledWorld(w), oid, row);
  }

  /** Staging keeps every row answered for once, with whatever write-back of another index makes room for it. */
  lemma InsertKeeps(w: World, oid: Oid, row: NewRow)
    requires Core(w) && Ready(w) && Enabled(w, InsertInto(oid, row))
    ensures Core(Step(w, InsertInto(oid, row)))
  {
    hide Refines, Anchored, Settle, Flush, Stage, LoadedFor;
    var a := SettledWorld(w);
    assert !Settle(w.l.pending, w.tx.cur.cat, w.store).refused;
    SettleKeeps(w);
    PendingOpens(a);
    InsertIs(w, oid, row);
    var b := RoomMade(a, oid);
    RoomKeeps(a, oid);
    RoomFresh(a, oid, TidOf(row));
    assert BoundAt(b.tx, b.store, |b.tx.stack|, oid) && FileOk(b.store, b.tx.cur.cat[oid]);
    StageOnto(b, oid, row);
  }

  lemma StageOnto(b: World, oid: Oid, row: NewRow)
    requires Core(b) && FreshTid(b, oid, TidOf(row)) && oid in b.tx.cur.heap
    requires Opens(b.tx.cur.cat, b.store, oid)
    requires b.l.pending.Some? ==> b.l.pending.value.indexOid == oid && b.l.pending.value.ledger.rewindTo.None?
    requires Stage(LoadedFor(b, oid), row).Some?
    ensures Core(World(b.l.(pending := Some(Stage(LoadedFor(b, oid), row).value)), b.ids, Inserted(b.tx, oid, row),
            b.store))
  {
    var p := LoadedFor(b, oid);
    if b.l.pending.None? {
      LoadKeeps(b, oid);
      StageKeeps(b.(l := b.l.(pending := Some(p))), oid, row);
    } else {
      StageKeeps(b, oid, row);
    }
  }

  function LoadedFor(b: World, oid: Oid): PendingWrite
    requires oid in b.tx.cur.cat && b.tx.cur.cat[oid] in b.store
  {
    if b.l.pending.None? then Load(oid, b.store[b.tx.cur.cat[oid]]) else b.l.pending.value
  }

  lemma RoomKeeps(a: World, oid: Oid)
    requires Core(a) && Ready(a) && (a.l.pending.Some? ==> a.l.pending.value.ledger.rewindTo.None?)
    requires OtherIndex(a.l.pending, oid) ==> !Flush(a.l.pending, a.tx.cur.cat, a.store).refused
    ensures var b := RoomMade(a, oid);
            && Core(b)
            && (b.l.pending.Some? ==> b.l.pending.value.indexOid == oid && b.l.pending.value.ledger.rewindTo.None?)
  {
    var n := |a.l.discarded|;
    if OtherIndex(a.l.pending, oid) {
      FlushKeeps(a);
      PendingSlot(a.l.pending.value);
      assert a.tx.cur.slot == Current(AsRows(a.l)) == Current(AsRows(Local(Some(a.l.pending.value), [])));
      if a.tx.cur.slot.Nothing? { WrittenNothing(a.tx); }
    } else {
      if a.l.pending.Some? { PendingSlot(a.l.pending.value); }
      assert a.tx.cur.slot == Current(AsRows(a.l));
      assert MakeRoom(a.tx, oid) == a.tx;
      assert RoomMade(a, oid) == a;
    }
  }

  /** Making room writes another index's relation only. */
  lemma RoomFresh(a: World, oid: Oid, t: Tid)
    requires Ready(a) && FreshTid(a, oid, t)
    requires a.l.pending.Some? ==>
             DistinctAt(a.tx, |a.tx.stack|, |a.tx.stack|, oid, a.l.pending.value.indexOid)
    ensures FreshTid(RoomMade(a, oid), oid, t)
  {
    var b, x := RoomMade(a, oid), a.tx.cur.cat[oid];
    assert b.tx.cur.cat == a.tx.cur.cat;
    if OtherIndex(a.l.pending, oid) {
      assert a.tx.cur.cat[a.l.pending.value.indexOid] != x;
    }
    assert x in b.store && b.store[x] == a.store[x];
    assert StagedTids(b.tx.cur.slot, oid)[t] <= StagedTids(a.tx.cur.slot, oid)[t];
  }

  // --- the remaining events ---------------------------------------------------------------------

  lemma ReadKeeps(w: World, oid: Oid)
    requires Core(w) && Ready(w) && Enabled(w, Scan(oid))
    ensures Core(Step(w, Scan(oid)))
  {
    var a := SettledWorld(w);
    assert !Settle(w.l.pending, w.tx.cur.cat, w.store).refused;
    SettleKeeps(w);
    PendingOpens(a);
    if a.l.pending.Some? {
      PendingSlot(a.l.pending.value);
      assert a.tx.cur.slot == Current(AsRows(a.l)) == Current(AsRows(Local(Some(a.l.pending.value), [])));
      if a.l.pending.value.indexOid == oid {
        FlushKeeps(a);
        if a.tx.cur.slot.Nothing? { WrittenNothing(a.tx); }
      }
    }
  }

  lemma WriteAllKeeps(w: World)
    requires Core(w) && Ready(w) && Enabled(w, WriteAll)
    ensures Core(Step(w, WriteAll))
  {
    var a := SettledWorld(w);
    assert !Settle(w.l.pending, w.tx.cur.cat, w.store).refused;
    SettleKeeps(w);
    PendingOpens(a);
    if a.l.pending.Some? {
      FlushKeeps(a);
    } else {
      assert a.tx.cur.slot == Current(AsRows(a.l)) == Nothing;
      WrittenNothing(a.tx);
      assert Step(w, WriteAll) == a;
    }
  }

  lemma ForgetWrites(w: World, oid: Oid, k: nat)
    requires Core(w)
    ensures var l' := Superseded(w, oid);
            ShapedAt(l', k)
  {
    var n := |w.l.discarded|;
    assert ShapedAt(w.l, k) && ShapedAt(w.l, n);
  }

  lemma ForgetAnchorAt(w: World, oid: Oid, file: Relfile, store': Store, i: nat)
    requires Core(w) && NewFile(w.tx, oid, file) && forall x :: EvolvesAt(w.store, store', x)
    ensures AnchorAt(Superseded(w, oid),
                     w.ids, SpecRebuild(w.tx, oid, file), store', i)
  {
    var r, n := AsRows(w.l), |w.ids|;
    var mine := w.l.pending.Some? && w.l.pending.value.indexOid == oid;
    var l', tx' := Forget(w.l, mine, Innermost(w.ids)), SpecRebuild(w.tx, oid, file);
    assert AnchorAt(w.l, w.ids, w.tx, w.store, i);
    if i < n {
      ForgetOwner(w, oid, i);
      assert CatAt(tx', i) == CatAt(w.tx, i);
      assert AnchorAt(l', w.ids, w.tx, w.store, i);
      EvolvedAnchorAt(l', w.ids, w.tx, tx', w.store, store', i);
    } else if i == n && !mine && w.l.pending.Some? && AnchoredTo(w.l.pending.value, w.store, w.tx.cur.cat) {
      var o := w.l.pending.value.indexOid;
      assert tx'.cur.cat[o] == w.tx.cur.cat[o];
      assert EvolvesAt(w.store, store', w.tx.cur.cat[o]);
    }
  }

  lemma ForgetWriteSame<W>(l: Local<W>, mine: bool, subid: SubId, k: nat)
    requires l.pending.Some? && mine ==> k < |Forget(l, mine, subid).discarded|
    ensures WriteAt(Forget(l, mine, subid), k) == WriteAt(l, k)
  {
  }

  lemma CoreStructured(w: World, oid: Oid)
    requires Core(w)
    ensures Structured(AsRows(w.l), w.ids)
    ensures Mine(AsRows(w.l), oid) <==> w.l.pending.Some? && w.l.pending.value.indexOid == oid
  {
  }

  lemma ForgetOwner(w: World, oid: Oid, i: nat)
    requires Core(w) && i < |w.ids|
    ensures OwnerWrite(Superseded(w, oid), w.ids, i)
         == OwnerWrite(w.l, w.ids, i)
  {
    hide Core, Structured, Forget, OwnerOf, WriteAt, Mine;
    var mine := w.l.pending.Some? && w.l.pending.value.indexOid == oid;
    var l' := Forget(w.l, mine, Innermost(w.ids));
    CoreStructured(w, oid);
    AsRowsForget(w.l, oid, Innermost(w.ids));
    ForgotAt(AsRows(w.l), w.ids, oid, i);
    AsRowsOwner(w.l, w.ids, i);
    AsRowsOwner(l', w.ids, i);
    ForgetWriteSame(w.l, mine, Innermost(w.ids), OwnerOf(w.l, w.ids, i));
  }

  lemma BuiltImage(rows: seq<RankedRow>, vrows: seq<UnrankableRow>)
    requires Replay(EMPTY_IMAGE, rows, vrows).Some?
    ensures var img := Replay(EMPTY_IMAGE, rows, vrows).value;
            Valid(img) && DeadInRange(img) && LiveTids(img) == RowTids(rows) + UnrankableTids(vrows)
  {
    assert LiveTids(EMPTY_IMAGE) == multiset{};
    ReplayLive(EMPTY_IMAGE, rows, vrows);
  }

  lemma BuiltHoldsHeap(rows: seq<RankedRow>, vrows: seq<UnrankableRow>, heap: set<Tid>)
    requires Replay(EMPTY_IMAGE, rows, vrows).Some? && BuiltFrom(rows, vrows, heap)
    ensures forall t :: HoldsHeapAt(Replay(EMPTY_IMAGE, rows, vrows).value, heap, t)
  {
    BuiltImage(rows, vrows);
    forall t ensures HoldsHeapAt(Replay(EMPTY_IMAGE, rows, vrows).value, heap, t) {
      assert BuiltAt(rows, vrows, heap, t);
    }
  }

  lemma RebuildKeeps(w: World, oid: Oid, file: Relfile, rows: seq<RankedRow>, vrows: seq<UnrankableRow>)
    requires Core(w) && Ready(w) && Enabled(w, Rebuild(oid, file, rows, vrows))
    ensures Core(Step(w, Rebuild(oid, file, rows, vrows)))
  {
    var w' := Step(w, Rebuild(oid, file, rows, vrows));
    BuiltImage(rows, vrows);
    BuiltHoldsHeap(rows, vrows, w.tx.cur.heap[oid]);
    RebuildCovers(w.tx, w.store, oid, file, Replay(EMPTY_IMAGE, rows, vrows).value);
    AsRowsForget(w.l, oid, Innermost(w.ids));
    RebuildRefines(AsRows(w.l), w.ids, w.tx, oid, file);
    forall x ensures EvolvesAt(w.store, w'.store, x) {}
    forall k: nat ensures ShapedAt(w'.l, k) { ForgetWrites(w, oid, k); }
    forall i: nat ensures AnchorAt(w'.l, w'.ids, w'.tx, w'.store, i) { ForgetAnchorAt(w, oid, file, w'.store, i); }
  }

  lemma DeleteKeeps(w: World, oid: Oid, tids: set<Tid>)
    requires Core(w) && Ready(w)
    ensures Core(Step(w, Delete(oid, tids)))
  {
    var w' := Step(w, Delete(oid, tids));
    DeleteCovers(w.tx, w.store, oid, tids);
    forall i: nat ensures SameButHeap(SnapAt(w'.tx, i), SnapAt(w.tx, i)) {}
    HeapIrrelevant(AsRows(w.l), w.ids, w.tx, w'.tx);
    forall i: nat ensures AnchorAt(w'.l, w'.ids, w'.tx, w'.store, i) {
      assert AnchorAt(w.l, w.ids, w.tx, w.store, i);
      assert CatAt(w'.tx, i) == CatAt(w.tx, i);
    }
  }

  lemma OthersKeep(w: World, after: Store, arrived: map<Oid, set<Tid>>)
    requires Core(w) && Ready(w) && Enabled(w, Others(after, arrived))
    ensures Core(Step(w, Others(after, arrived)))
  {
    var tx' := Grown(w.tx, arrived);
    OthersCovers(w, after, arrived);
    forall i: nat ensures SameButHeap(SnapAt(tx', i), SnapAt(w.tx, i)) { GrownAt(w.tx, arrived, i); }
    HeapIrrelevant(AsRows(w.l), w.ids, w.tx, tx');
    forall i: nat ensures AnchorAt(w.l, w.ids, tx', after, i) {
      assert AnchorAt(w.l, w.ids, w.tx, w.store, i);
      GrownAt(w.tx, arrived, i);
      EvolvedAnchorAt(w.l, w.ids, w.tx, tx', w.store, after, i);
    }
  }
}
