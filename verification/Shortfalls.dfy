/** Where the write-back protocol loses rows, and exactly when it does not. */
module Shortfalls {
  import opened Base
  import opened Images
  import opened Stash
  import opened Pending
  import opened Savepoints
  import opened Staging
  import opened Transactions
  import opened Coverage
  import opened Anchoring
  import opened Steps
  import opened Failures

  // --- a write that stages nothing, left pending by an abort --------------------------------------

  function WithVectorless(img: Image, v: UnrankableRow): Image { img.(unrankable := img.unrankable + [v]) }

  /** One more row staged on a write that stages nothing, and the write-back at commit. */
  function Committed(p: PendingWrite, v: UnrankableRow, cat: Catalog, store: Store): Option<Store>
    requires Openable(Some(p), cat, store)
  {
    var staged := InsertRow(Some(p), p.indexOid, Vectorless(v), cat, store);
    if staged.refused || !Openable(staged.pending, cat, staged.store) then None else
    var done := WriteBack(staged.pending, cat, staged.store);
    if done.refused then None else Some(done.store)
  }

  predicate Leftover(p: PendingWrite) { WriteOk(p) && Count(p) == NOTHING && p.ledger.rewindTo.None? }

  /** The commit keeps what is stored exactly when the generations differ or the images agree. */
  lemma LeftoverCommits(p: PendingWrite, v: UnrankableRow, cat: Catalog, store: Store)
    requires Leftover(p) && Openable(Some(p), cat, store)
    ensures var x := cat[p.indexOid];
            && Committed(p, v, cat, store).Some? && x in Committed(p, v, cat, store).value
            && var img := Committed(p, v, cat, store).value[x].image;
               && img == WithVectorless(if store[x].generation == p.baseGeneration then p.image else store[x].image, v)
               && (img == WithVectorless(store[x].image, v)
                   <==> (store[x].generation == p.baseGeneration ==> store[x].image == p.image))
  {
    var x, p' := cat[p.indexOid], Stage(p, Vectorless(v)).value;
    StageAppends(p, Vectorless(v));
    assert Ranked(p') == [] && Unranked(p') == [v];
    assert Sane(p'.ledger, Count(p'));
    assert Replay(store[x].image, [], [v]) == Some(WithVectorless(store[x].image, v));
    SameWithVectorless(store[x].image, p.image, v);
  }

  lemma SameWithVectorless(a: Image, b: Image, v: UnrankableRow)
    ensures WithVectorless(a, v) == WithVectorless(b, v) <==> a == b
  {
    assert (a.unrankable + [v])[..|a.unrankable|] == a.unrankable;
    assert (b.unrankable + [v])[..|b.unrankable|] == b.unrankable;
  }

  lemma AbortedWrite(w: World)
    requires Core(w) && w.ids != [] && Aborted(w).l.pending.Some?
    ensures var o, q := OwnerWrite(w.l, w.ids, |w.ids| - 1), Aborted(w).l.pending.value;
            o.Some? && q == MarkEvent(o.value, AbortSub) && q.indexOid in Aborted(w).tx.cur.cat
            && Aborted(w).tx.cur.cat[q.indexOid] in w.store && WriteOk(q)
  {
    var d := |w.ids| - 1;
    CloseWrite(w, AbortSub, d);
    var k := OwnerOf(w.l, w.ids, d);
    assert ShapedAt(w.l, k);
    WriteOkAt(w.l, w.ids, k);
    MapAt(w.l, AsEntry, k);
    assert OidAt(AsRows(w.l), w.tx, k) && MonotoneAt(w.tx, d, |w.tx.stack|);
    assert BoundAt(w.tx, w.store, d, WriteAt(w.l, k).value.indexOid);
    MarkKeepsAnchor(WriteAt(w.l, k).value, AbortSub, map[], map[]);
    LedgerEventSane(WriteAt(w.l, k).value.ledger, Count(WriteAt(w.l, k).value), AbortSub);
  }

  /** After a safe abort, whatever other backends do before it, a commit on a write left empty adds to what is
      stored. */
  lemma SafeAbortKeepsRows(w: World, later: Store, v: UnrankableRow)
    requires Core(w) && w.ids != [] && SafeToAbort(w)
    requires Aborted(w).l.pending.Some? && Leftover(Aborted(w).l.pending.value)
    requires (forall x :: EvolvesAt(w.store, later, x)) && forall x :: FileOk(later, x)
    ensures var p, cat := Aborted(w).l.pending.value, Aborted(w).tx.cur.cat;
            && Openable(Some(p), cat, later)
            && Committed(p, v, cat, later).Some? && cat[p.indexOid] in Committed(p, v, cat, later).value
            && Committed(p, v, cat, later).value[cat[p.indexOid]].image
               == WithVectorless(later[cat[p.indexOid]].image, v)
  {
    hide SafeToAbort, Core, Leftover, Committed, SubxactEvent, SpecSub;
    CoreDepth(w);
    var p, cat := Aborted(w).l.pending.value, Aborted(w).tx.cur.cat;
    AbortSafeIff(w);
    AbortedWrite(w);
    var x := cat[p.indexOid];
    assert EvolvesAt(w.store, later, x) && FileOk(later, x);
    LeftoverShaped(p);
    AnchoredPending(Aborted(w));
    EmptyAnchor(p, w.store[x]);
    LeftoverCommits(p, v, cat, later);
  }

  lemma LeftoverShaped(p: PendingWrite)
    requires Leftover(p)
    ensures Shaped(p) && Count(p) == NOTHING && p.ledger.rewindTo.None?
  {
  }

  lemma AnchoredPending(w: World)
    requires Core(w) && w.l.pending.Some? && w.l.pending.value.ledger.rewindTo.None?
    ensures AnchoredTo(w.l.pending.value, w.store, w.tx.cur.cat)
  {
    assert AnchorAt(w.l, w.ids, w.tx, w.store, |w.ids|);
  }

  /** After an unsafe one, some later commit replaces what is stored by the image the write was loaded from. */
  lemma UnsafeAbortLosesRows(w: World, v: UnrankableRow) returns (later: Store)
    requires Core(w) && w.ids != [] && !SafeToAbort(w)
    ensures (forall x :: EvolvesAt(w.store, later, x)) && forall x :: FileOk(later, x)
    ensures Aborted(w).l.pending.Some?
    ensures var p, cat := Aborted(w).l.pending.value, Aborted(w).tx.cur.cat;
            && Leftover(p) && Openable(Some(p), cat, later)
            && Committed(p, v, cat, later).Some? && cat[p.indexOid] in Committed(p, v, cat, later).value
            && Committed(p, v, cat, later).value[cat[p.indexOid]].image == WithVectorless(p.image, v)
            && p.image != later[cat[p.indexOid]].image
  {
    hide Refines, Anchored, SafeToAbort, Aborted, Leftover, Committed, LoadedFrom, FileOk;
    UnsafeLeftover(w);
    var p := Aborted(w).l.pending.value;
    var x := Aborted(w).tx.cur.cat[p.indexOid];
    later := LosingStore(p, x, w.store, v);
    LeftoverOpens(p, Aborted(w).tx.cur.cat, later);
    LeftoverCommits(p, v, Aborted(w).tx.cur.cat, later);
  }

  /** A store the other backends can reach, in which the write's generation names another image than the write's. */
  lemma LosingStore(p: PendingWrite, x: Relfile, store: Store, v: UnrankableRow) returns (later: Store)
    requires x in store && !LoadedFrom(p, store[x]) && forall y :: FileOk(store, y)
    ensures (forall y :: EvolvesAt(store, later, y)) && forall y :: FileOk(later, y)
    ensures x in later && later[x].generation == p.baseGeneration && later[x].image != p.image
  {
    if p.baseGeneration <= store[x].generation {
      later := store;
    } else {
      var one := WithVectorless(EMPTY_IMAGE, v);
      assert |one.unrankable| == 1;
      later := store[x := Stored(p.baseGeneration, if p.image == EMPTY_IMAGE then one else EMPTY_IMAGE)];
    }
    forall y ensures EvolvesAt(store, later, y) && FileOk(later, y) { assert FileOk(store, y); }
  }

  lemma LeftoverOpens(p: PendingWrite, cat: Catalog, store: Store)
    requires Leftover(p) && p.indexOid in cat && cat[p.indexOid] in store && FileOk(store, cat[p.indexOid])
    ensures Openable(Some(p), cat, store)
  {
  }

  lemma UnsafeLeftover(w: World)
    requires Core(w) && w.ids != [] && !SafeToAbort(w)
    ensures w.tx.stack != [] && Aborted(w).l.pending.Some?
    ensures var p, cat := Aborted(w).l.pending.value, Aborted(w).tx.cur.cat;
            Leftover(p) && p.indexOid in cat && cat[p.indexOid] in w.store && !LoadedFrom(p, w.store[cat[p.indexOid]])
  {
    hide Core, Covered, Leftover, LoadedFrom, OwnerWrite, SubxactEvent, MarkEvent, WriteOk;
    CoreDepth(w);
    var d := |w.ids| - 1;
    CloseWrite(w, AbortSub, d);
    OwnsPending(Aborted(w), d);
    AbortedWrite(w);
    var o := OwnerWrite(w.l, w.ids, d).value;
    MarkedLeftover(o);
    assert CatAt(w.tx, d) == Aborted(w).tx.cur.cat;
  }

  lemma OwnsPending(w: World, d: nat)
    requires d == |w.ids|
    ensures OwnerWrite(w.l, w.ids, d) == w.l.pending
  {
  }

  lemma MarkedLeftover(o: PendingWrite)
    requires Count(o) == NOTHING && o.ledger.rewindTo != Some(NOTHING)
    ensures var p := MarkEvent(o, AbortSub);
            (WriteOk(p) ==> Leftover(p)) && p.indexOid == o.indexOid
            && forall s :: LoadedFrom(p, s) <==> LoadedFrom(o, s)
  {
    MarkKeepsAnchor(o, AbortSub, map[], map[]);
  }

  // --- a refused row ------------------------------------------------------------------------------

  lemma ReplayOne(img: Image, row: RankedRow)
    ensures ReplayRows(img, [row]) ==
            if Accepts(img.graph, row.node.vector)
            then Some(Image(Insert(img.graph, row.node), img.tids + [row.tid], img.unrankable)) else None
  {
    assert [row][..|[row]| - 1] == [];
  }

  /** A refused first row leaves the loaded image pending, with nothing staged. */
  lemma RefusedLoad(oid: Oid, y: Relfile, store: Store, refused: NewRow)
    requires y in store && Valid(store[y].image) && Stage(Load(oid, store[y]), refused).None?
    ensures InsertRow(None, oid, refused, map[oid := y], store) == Effect(Some(Load(oid, store[y])), store, true)
  {
  }

  /** An abort passes over a write that stages nothing. */
  lemma EmptySurvivesAbort(oid: Oid, s: Stored, my: SubId)
    requires Valid(s.image)
    ensures SubxactEvent(Local(Some(Load(oid, s)), []), AbortSub, my, TOP) == Local(Some(Load(oid, s)), [])
    ensures WriteOk(Load(oid, s)) && Ranked(Load(oid, s)) == [] && Unranked(Load(oid, s)) == []
  {
    LoadAnchored(oid, s);
    assert MarkEvent(Load(oid, s), AbortSub) == Load(oid, s);
  }

  /** Staging one row on a leftover load of `s`, then writing it to a relation that holds `now`. */
  lemma WriteLeftover(oid: Oid, x: Relfile, s: Stored, store: Store, row: RankedRow)
    requires x in store && Valid(s.image) && Valid(store[x].image) && WriteOk(Load(oid, s))
    requires Accepts(s.image.graph, row.node.vector) && Accepts(store[x].image.graph, row.node.vector)
    ensures var staged := InsertRow(Some(Load(oid, s)), oid, WithVector(row), map[oid := x], store);
            && !staged.refused && staged.store == store && Openable(staged.pending, map[oid := x], store)
            && var done := WriteBack(staged.pending, map[oid := x], store);
               && !done.refused && x in done.store
               && Some(done.store[x].image) ==
                    Replay(if store[x].generation == s.generation then s.image else store[x].image, [row], [])
  {
    var p := Load(oid, s);
    LoadAnchored(oid, s);
    var p' := Stage(p, WithVector(row)).value;
    StageAppends(p, WithVector(row));
    assert Ranked(p') == [row] && Unranked(p') == [];
    ReplayOne(s.image, row);
    ReplayOne(store[x].image, row);
    assert s.image.unrankable + [] == s.image.unrankable;
    assert WriteBack(Some(p'), map[oid := x], store) == Flush(Some(p'), map[oid := x], store);
  }

  /** TRUNCATE in a savepoint, a row refused by the emptied index, ROLLBACK TO, an insert, COMMIT.
      The image that comes back is `kept`; its rows survive only if it had been written since it was built. */
  lemma RefusedRowThenRollback(oid: Oid, x: Relfile, y: Relfile, kept: Stored, refused: NewRow, row: RankedRow,
                               my: SubId)
    requires x != y && my > TOP && Valid(kept.image)
    requires refused.WithVector? && refused.row.node.vector == []
    requires Accepts(Empty, row.node.vector) && Accepts(kept.image.graph, row.node.vector)
    ensures var store := map[x := kept, y := Stored(FIRST_GENERATION, EMPTY_IMAGE)];
            var inside := InsertRow(None, oid, refused, map[oid := y], store);
            var back := SubxactEvent(Local(inside.pending, []), AbortSub, my, TOP);
            && inside.refused && inside.store == store && Openable(back.pending, map[oid := x], store)
            && var staged := InsertRow(back.pending, oid, WithVector(row), map[oid := x], store);
               && !staged.refused && staged.store == store && Openable(staged.pending, map[oid := x], store)
               && var done := WriteBack(staged.pending, map[oid := x], store);
                  && !done.refused && x in done.store
                  && Some(done.store[x].image) ==
                       Replay(if kept.generation == FIRST_GENERATION then EMPTY_IMAGE else kept.image, [row], [])
  {
    var empty := Stored(FIRST_GENERATION, EMPTY_IMAGE);
    var store: Store := map[x := kept, y := empty];
    RefusedLoad(oid, y, store, refused);
    EmptySurvivesAbort(oid, empty, my);
    WriteLeftover(oid, x, empty, store, row);
  }

  // --- a refused replay --------------------------------------------------------------------------

  /** One row staged, a savepoint, and another backend's commit of a row of a different dimension:
      the next read fails, and rolling back to the savepoint no longer finds the row. */
  lemma RefusedReplayLosesRow(oid: Oid, x: Relfile, row: RankedRow, other: RankedRow, my: SubId)
    requires Accepts(Empty, row.node.vector) && Accepts(Empty, other.node.vector)
    requires |row.node.vector| != |other.node.vector| && my > TOP
    ensures var before := map[x := Stored(FIRST_GENERATION, EMPTY_IMAGE)];
            var after := map[x := Stored(FIRST_GENERATION + 1, Image(Insert(Empty, other.node), [other.tid], []))];
            var p := InsertRow(None, oid, WithVector(row), map[oid := x], before).pending;
            var l := SubxactEvent(Local(p, []), StartSub, my, TOP);
            && Current(AsRows(l)) == Staged(oid, [row], [])
            && Openable(l.pending, map[oid := x], after)
            && var r := Read(l.pending, oid, map[oid := x], after);
               && r.refused
               && Current(AsRows(SubxactEvent(Local(r.pending, []), AbortSub, my, TOP))) == Nothing
  {
    var before: Store := map[x := Stored(FIRST_GENERATION, EMPTY_IMAGE)];
    var img := Image(Insert(Empty, other.node), [other.tid], []);
    ReplayOne(img, row);
    var p0 := Load(oid, before[x]);
    assert Ranked(p0) == [];
    StageAppends(p0, WithVector(row));
    var p := Stage(p0, WithVector(row)).value;
    assert Ranked(p) == [row] && Unranked(p) == [];
    var q := MarkEvent(p, StartSub);
    AsEntryMark(p, StartSub);
    assert Ranked(q) == [row] && Unranked(q) == [];
    assert Nodes(img.graph) == [other.node];
  }

  // --- a moved index ----------------------------------------------------------------------------

  /** ALTER INDEX ... SET TABLESPACE: a new relation with the old one's pages, and no rebuild. */
  function MovedTo(w: World, oid: Oid, file: Relfile): World
    requires oid in w.tx.cur.cat && w.tx.cur.cat[oid] in w.store
  {
    w.(tx := w.tx.(cur := w.tx.cur.(cat := w.tx.cur.cat[oid := file])),
       store := w.store[file := w.store[w.tx.cur.cat[oid]]])
  }

  lemma MovedReady(w: World, oid: Oid, file: Relfile)
    requires Core(w) && Ready(w) && NewFile(w.tx, oid, file) && file !in w.store
    ensures oid in w.tx.cur.cat && w.tx.cur.cat[oid] in w.store && Ready(MovedTo(w, oid, file))
  {
    assert BoundAt(w.tx, w.store, |w.tx.stack|, oid);
    assert FileOk(w.store, w.tx.cur.cat[oid]);
  }

  /** Rows written back after the move reach the new relation only: rolling the move back restores the staging if and
      only if the stash answers for it or nothing was staged at the savepoint. */
  lemma MovedWriteIff(w: World, oid: Oid, file: Relfile)
    requires Core(w) && Ready(w) && w.ids != [] && NewFile(w.tx, oid, file) && file !in w.store
    requires w.l.pending.Some? && w.l.pending.value.indexOid == oid
    requires oid in w.tx.cur.cat && w.tx.cur.cat[oid] in w.store && Ready(MovedTo(w, oid, file))
    requires !EffectOf(MovedTo(w, oid, file), Scan(oid)).refused
    ensures var m, r := MovedTo(w, oid, file), EffectOf(MovedTo(w, oid, file), Scan(oid));
            var back := Aborted(World(w.l.(pending := r.pending), w.ids, m.tx, r.store));
            && (forall y :: y in w.store ==> y in r.store && r.store[y] == w.store[y])
            && (Refines(AsRows(back.l), back.ids, back.tx) <==> Recoverable(w))
    ensures w.tx.stack != [] && Aborted(MovedTo(w, oid, file)).l == Aborted(w).l
            && Aborted(MovedTo(w, oid, file)).tx == Aborted(w).tx
  {
    hide Core, Refines, SubxactEvent, EffectOf, Recoverable, SafeToAbort, Ready, Opens, NewFile;
    RefusedReplayIff(w);
    CoreDepth(w);
    var m, r := MovedTo(w, oid, file), EffectOf(MovedTo(w, oid, file), Scan(oid));
    MovedScan(m, oid);
    SameButStore(World(w.l.(pending := r.pending), w.ids, m.tx, r.store), Emptied(w));
    SameButStore(m, w);
    forall y | y in w.store ensures y in r.store && r.store[y] == w.store[y] { assert y in m.store && y != file; }
  }

  lemma SameButStore(v: World, w: World)
    requires v.l == w.l && v.ids == w.ids && v.tx.stack == w.tx.stack && w.ids != [] && w.tx.stack != []
    ensures Aborted(v).l == Aborted(w).l && Aborted(v).ids == Aborted(w).ids && Aborted(v).tx == Aborted(w).tx
  {
  }

  /** A scan's write-back empties the slot and writes one relation. */
  lemma MovedScan(m: World, oid: Oid)
    requires Ready(m) && m.l.pending.Some? && m.l.pending.value.indexOid == oid && !EffectOf(m, Scan(oid)).refused
    ensures var r := EffectOf(m, Scan(oid));
            && r.pending.None?
            && forall y :: y in m.store && y != m.tx.cur.cat[oid] ==> y in r.store && r.store[y] == m.store[y]
  {
  }
}
