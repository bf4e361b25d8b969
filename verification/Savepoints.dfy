/** A plain snapshot stack, and the proof that one staging slot, a stash, counts and a lazy rewind are one. */
module Savepoints {
  import opened Base
  import opened Images
  import opened Stash
  import opened Pending

  // --- the specification -------------------------------------------------------

  /** The rows staged and not yet written back, all of one index. */
  datatype Slot = Nothing | Staged(oid: Oid, rows: seq<RankedRow>, vrows: seq<UnrankableRow>)

  function MkSlot(oid: Oid, rows: seq<RankedRow>, vrows: seq<UnrankableRow>): Slot {
    if rows == [] && vrows == [] then Nothing else Staged(oid, rows, vrows)
  }

  /** What a savepoint must bring back: relfilenodes, live heap rows, staged rows. */
  datatype Snap = Snap(cat: Catalog, heap: map<Oid, set<Tid>>, slot: Slot)

  datatype Tx = Tx(cur: Snap, stack: seq<Snap>)

  /** Staged for one physical relation. */
  predicate SameWrite(a: Snap, b: Snap) {
    && a.slot.Staged? && b.slot.Staged? && a.slot.oid == b.slot.oid
    && a.slot.oid in a.cat && a.slot.oid in b.cat
    && a.cat[a.slot.oid] == b.cat[a.slot.oid]
  }

  /** Writing back is not transactional: no savepoint can stage those rows again. */
  function Cleared(s: Snap, cur: Snap): Snap { if SameWrite(s, cur) then s.(slot := Nothing) else s }

  function Written(tx: Tx): Tx {
    Tx(tx.cur.(slot := Nothing),
       seq(|tx.stack|, i requires 0 <= i < |tx.stack| => Cleared(tx.stack[i], tx.cur)))
  }

  function Append(slot: Slot, oid: Oid, row: NewRow): Slot {
    var rows := if slot.Staged? then slot.rows else [];
    var vrows := if slot.Staged? then slot.vrows else [];
    match row
    case WithVector(r) => Staged(oid, rows + [r], vrows)
    case Vectorless(v) => Staged(oid, rows, vrows + [v])
  }

  /** One slot serves every index: staging for another writes the first back. */
  function MakeRoom(tx: Tx, oid: Oid): Tx {
    if tx.cur.slot.Staged? && tx.cur.slot.oid != oid then Written(tx) else tx
  }

  function SpecInsert(tx: Tx, oid: Oid, row: NewRow): Tx {
    var t := MakeRoom(tx, oid);
    t.(cur := t.cur.(slot := Append(t.cur.slot, oid, row)))
  }

  function SpecRead(tx: Tx, oid: Oid): Tx {
    if tx.cur.slot.Staged? && tx.cur.slot.oid == oid then Written(tx) else tx
  }

  function SpecRebuild(tx: Tx, oid: Oid, file: Relfile): Tx {
    tx.(cur := tx.cur.(cat := tx.cur.cat[oid := file],
                       slot := if tx.cur.slot.Staged? && tx.cur.slot.oid == oid then Nothing else tx.cur.slot))
  }

  function SpecSub(tx: Tx, ev: SubEvent): Tx
    requires ev != StartSub ==> tx.stack != []
  {
    match ev
    case StartSub => tx.(stack := tx.stack + [tx.cur])
    case CommitSub => tx.(stack := tx.stack[..|tx.stack| - 1])
    case AbortSub => Tx(tx.stack[|tx.stack| - 1], tx.stack[..|tx.stack| - 1])
  }

  // --- writes as the rows they stand for -------------------------------------------

  datatype Entry = Entry(oid: Oid, rows: seq<RankedRow>, vrows: seq<UnrankableRow>, ledger: Ledger)

  function AsEntry(w: PendingWrite): Entry { Entry(w.indexOid, Ranked(w), Unranked(w), w.ledger) }

  function AsRows(l: Local<PendingWrite>): Local<Entry> { MapLocal(l, AsEntry) }

  function Size(e: Entry): Mark { Mark(|e.rows|, |e.vrows|) }

  function Take<T>(s: seq<T>, n: nat): seq<T> { if n <= |s| then s[..n] else s }

  function SlotUpTo(e: Entry, m: Mark): Slot { MkSlot(e.oid, Take(e.rows, m.rows), Take(e.vrows, m.vrows)) }

  function EntryEvent(e: Entry, ev: SubEvent): Entry { e.(ledger := LedgerEvent(e.ledger, Size(e), ev)) }

  function SubRows(l: Local<Entry>, ev: SubEvent, my: SubId, parent: SubId): Local<Entry> {
    MapLocal(MoveStash(l, ev, my, parent), e => EntryEvent(e, ev))
  }

  // --- the abstraction ---------------------------------------------------------

  /** Marks describe the innermost |marks| of `depth` subtransactions. */
  predicate Covered(e: Entry, depth: nat, i: nat) { i < depth <= i + |e.ledger.marks| }

  function MarkFor(e: Entry, depth: nat, i: nat): Mark {
    if Covered(e, depth, i) && |e.ledger.marks| <= depth then e.ledger.marks[i + |e.ledger.marks| - depth] else NOTHING
  }

  predicate EntryOk(e: Entry, depth: nat) { Sane(e.ledger, Size(e)) && |e.ledger.marks| <= depth }

  /** What a write stages as of the start of the i-th open subtransaction. */
  function SlotUnder(o: Option<Entry>, depth: nat, i: nat): Slot {
    if o.None? then Nothing else SlotUpTo(o.value, MarkFor(o.value, depth, i))
  }

  function Current(l: Local<Entry>): Slot {
    if l.pending.None? then Nothing
    else SlotUpTo(l.pending.value, Effective(l.pending.value.ledger, Size(l.pending.value)))
  }

  /** What aborting the i-th open subtransaction would leave staged. */
  function Restored(l: Local<Entry>, ids: seq<SubId>, i: nat): Slot { SlotUnder(OwnerWrite(l, ids, i), |ids|, i) }

  ghost predicate OkAt(l: Local<Entry>, depth: nat, k: nat) {
    k <= |l.discarded| && WriteAt(l, k).Some? ==> EntryOk(WriteAt(l, k).value, depth)
  }

  /** Nothing joins a write in the stash, so savepoints opened since mark all of it. */
  ghost predicate FrozenAt(l: Local<Entry>, ids: seq<SubId>, k: nat, i: nat) {
    k < |l.discarded| && i < |ids| && ids[i] > l.discarded[k].subid ==>
      var e := l.discarded[k].write;
      Covered(e, |ids|, i) && MarkFor(e, |ids|, i) == Effective(e.ledger, Size(e))
  }

  ghost predicate Structured(l: Local<Entry>, ids: seq<SubId>) {
    && StashOk(l, ids)
    && (forall k: nat :: OkAt(l, |ids|, k))
    && (forall k: nat, i: nat :: FrozenAt(l, ids, k, i))
  }

  ghost predicate ViewAt(l: Local<Entry>, ids: seq<SubId>, tx: Tx, i: nat) {
    i < |ids| && i < |tx.stack| ==> tx.stack[i].slot == Restored(l, ids, i)
  }

  ghost predicate Views(l: Local<Entry>, ids: seq<SubId>, tx: Tx) {
    && |tx.stack| == |ids|
    && tx.cur.slot == Current(l)
    && forall i: nat :: ViewAt(l, ids, tx, i)
  }

  function SnapAt(tx: Tx, i: nat): Snap { if i < |tx.stack| then tx.stack[i] else tx.cur }

  function CatAt(tx: Tx, i: nat): Catalog { SnapAt(tx, i).cat }

  ghost predicate MonotoneAt(tx: Tx, i: nat, j: nat) {
    i <= j <= |tx.stack| ==>
      && CatAt(tx, i).Keys == CatAt(tx, j).Keys
      && forall o :: o in CatAt(tx, i) ==> CatAt(tx, i)[o] <= CatAt(tx, j)[o]
  }

  /** Every index exists throughout, and relfilenodes only move forward along the stack. */
  ghost predicate CatsOk(tx: Tx) { forall i: nat, j: nat :: MonotoneAt(tx, i, j) }

  ghost predicate OidAt(l: Local<Entry>, tx: Tx, k: nat) {
    k <= |l.discarded| && WriteAt(l, k).Some? ==> WriteAt(l, k).value.oid in tx.cur.cat
  }

  /** One physical relation underlies every savepoint a write's marks cover. */
  ghost predicate HomeAt(l: Local<Entry>, ids: seq<SubId>, tx: Tx, i: nat, j: nat) {
    var w := OwnerWrite(l, ids, i);
    i < j <= |ids| && OwnerOf(l, ids, j) == OwnerOf(l, ids, i) && w.Some? && Covered(w.value, |ids|, i) ==>
      var o := w.value.oid;
      o in CatAt(tx, i) && o in CatAt(tx, j) && CatAt(tx, i)[o] == CatAt(tx, j)[o]
  }

  /** The rebuild that set an entry aside separates the savepoints before it from those after. */
  ghost predicate RebuiltAt(l: Local<Entry>, ids: seq<SubId>, tx: Tx, k: nat, i: nat, j: nat) {
    k < |l.discarded| && i < j <= |ids| && ids[i] <= l.discarded[k].subid
    && (j < |ids| ==> ids[j] > l.discarded[k].subid) ==>
      var o := l.discarded[k].write.oid;
      o in CatAt(tx, i) && o in CatAt(tx, j) && CatAt(tx, i)[o] < CatAt(tx, j)[o]
  }

  ghost predicate Homed(l: Local<Entry>, ids: seq<SubId>, tx: Tx) {
    && |tx.stack| == |ids|
    && CatsOk(tx)
    && (forall k: nat :: OidAt(l, tx, k))
    && (forall i: nat, j: nat :: HomeAt(l, ids, tx, i, j))
    && (forall k: nat, i: nat, j: nat :: RebuiltAt(l, ids, tx, k, i, j))
  }

  ghost predicate Refines(l: Local<Entry>, ids: seq<SubId>, tx: Tx) {
    Structured(l, ids) && Views(l, ids, tx) && Homed(l, ids, tx)
  }

  lemma Initially(cat: Catalog, heap: map<Oid, set<Tid>>)
    ensures Refines(Local(None, []), [], Tx(Snap(cat, heap, Nothing), []))
  {
  }

  // --- subtransaction events, one write at a time --------------------------------------

  function Deeper(ev: SubEvent, depth: nat): nat {
    if ev == StartSub then depth + 1 else if depth == 0 then 0 else depth - 1
  }

  lemma EntryShift(e: Entry, ev: SubEvent, depth: nat, i: nat)
    requires EntryOk(e, depth) && (ev != StartSub ==> depth > 0)
    ensures var e' := EntryEvent(e, ev);
            && EntryOk(e', Deeper(ev, depth))
            && (i < depth && i < Deeper(ev, depth) ==>
                  MarkFor(e', Deeper(ev, depth), i) == MarkFor(e, depth, i)
                  && (Covered(e', Deeper(ev, depth), i) <==> Covered(e, depth, i)))
            && Effective(e'.ledger, Size(e'))
               == (if ev == AbortSub then MarkFor(e, depth, depth - 1) else Effective(e.ledger, Size(e)))
            && (ev == StartSub ==> Covered(e', depth + 1, depth)
                                   && MarkFor(e', depth + 1, depth) == Effective(e.ledger, Size(e)))
  {
    LedgerEventSane(e.ledger, Size(e), ev);
  }

  lemma EntrySlot(e: Entry, ev: SubEvent, depth: nat, i: nat)
    requires EntryOk(e, depth) && (ev != StartSub ==> depth > 0) && i < depth && i < Deeper(ev, depth)
    ensures SlotUnder(Some(EntryEvent(e, ev)), Deeper(ev, depth), i) == SlotUnder(Some(e), depth, i)
  {
    EntryShift(e, ev, depth, i);
  }

  function Mapped(m: Local<Entry>, ev: SubEvent): Local<Entry> { MapLocal(m, e => EntryEvent(e, ev)) }

  lemma MappedAt(m: Local<Entry>, ev: SubEvent, k: nat)
    ensures var l' := Mapped(m, ev);
            && |l'.discarded| == |m.discarded|
            && (k < |m.discarded| ==> l'.discarded[k].subid == m.discarded[k].subid)
            && WriteAt(l', k) == match WriteAt(m, k) case None => None case Some(e) => Some(EntryEvent(e, ev))
  {
    MapAt(m, e => EntryEvent(e, ev), k);
  }

  lemma MappedOwner(m: Local<Entry>, ev: SubEvent, s: SubId)
    ensures Owner(Mapped(m, ev).discarded, s) == Owner(m.discarded, s)
  {
    MapOwner(m, e => EntryEvent(e, ev), s);
  }

  // --- opening a savepoint ---------------------------------------------------------------

  ghost predicate CanOpen(l: Local<Entry>, ids: seq<SubId>, my: SubId) {
    Structured(l, ids) && my > Innermost(ids) && my > TOP
  }

  lemma StashBelow(l: Local<Entry>, ids: seq<SubId>, my: SubId)
    requires CanOpen(l, ids, my)
    ensures forall k :: 0 <= k < |l.discarded| ==> l.discarded[k].subid < my
    ensures forall i :: 0 <= i < |ids| ==> ids[i] < my
  {
  }

  lemma StartOwner(l: Local<Entry>, ids: seq<SubId>, my: SubId, i: nat)
    requires CanOpen(l, ids, my) && i <= |ids| + 1
    ensures OwnerOf(Mapped(l, StartSub), ids + [my], i) == OwnerOf(l, ids, i)
  {
    StashBelow(l, ids, my);
    if i < |ids| {
      MappedOwner(l, StartSub, ids[i]);
    } else {
      MappedAt(l, StartSub, 0);
      MappedOwner(l, StartSub, my);
      OwnerIs(l.discarded, my, |l.discarded|);
    }
  }

  lemma StartStructured(l: Local<Entry>, ids: seq<SubId>, my: SubId)
    requires CanOpen(l, ids, my)
    ensures Structured(Mapped(l, StartSub), ids + [my])
  {
    var l', ids' := Mapped(l, StartSub), ids + [my];
    StashBelow(l, ids, my);
    forall k: nat ensures OkAt(l', |ids'|, k) { StartOkAt(l, ids, my, k); }
    forall k: nat, i: nat ensures FrozenAt(l', ids', k, i) { StartFrozenAt(l, ids, my, k, i); }
    MappedAt(l, StartSub, 0);
    forall k | 0 <= k < |l'.discarded| ensures l'.discarded[k].subid == TOP || l'.discarded[k].subid in ids' {
      MappedAt(l, StartSub, k);
    }
  }

  lemma StartOkAt(l: Local<Entry>, ids: seq<SubId>, my: SubId, k: nat)
    requires CanOpen(l, ids, my)
    ensures OkAt(Mapped(l, StartSub), |ids| + 1, k)
  {
    MappedAt(l, StartSub, k);
    assert OkAt(l, |ids|, k);
    if k <= |l.discarded| && WriteAt(l, k).Some? { EntryShift(WriteAt(l, k).value, StartSub, |ids|, 0); }
  }

  lemma StartFrozenAt(l: Local<Entry>, ids: seq<SubId>, my: SubId, k: nat, i: nat)
    requires CanOpen(l, ids, my)
    ensures FrozenAt(Mapped(l, StartSub), ids + [my], k, i)
  {
    MappedAt(l, StartSub, k);
    assert OkAt(l, |ids|, k) && FrozenAt(l, ids, k, i);
    if k < |l.discarded| && i <= |ids| { EntryShift(l.discarded[k].write, StartSub, |ids|, i); }
  }

  lemma StartViews(l: Local<Entry>, ids: seq<SubId>, tx: Tx, my: SubId)
    requires CanOpen(l, ids, my) && Views(l, ids, tx)
    ensures Views(Mapped(l, StartSub), ids + [my], SpecSub(tx, StartSub))
  {
    forall i: nat ensures ViewAt(Mapped(l, StartSub), ids + [my], SpecSub(tx, StartSub), i) {
      StartViewAt(l, ids, tx, my, i);
    }
    assert OkAt(l, |ids|, |l.discarded|);
    if l.pending.Some? { EntryShift(l.pending.value, StartSub, |ids|, 0); }
  }

  lemma StartViewAt(l: Local<Entry>, ids: seq<SubId>, tx: Tx, my: SubId, i: nat)
    requires CanOpen(l, ids, my) && Views(l, ids, tx)
    ensures ViewAt(Mapped(l, StartSub), ids + [my], SpecSub(tx, StartSub), i)
  {
    if i <= |ids| {
      var k := OwnerOf(l, ids, i);
      StartOwner(l, ids, my, i);
      MappedAt(l, StartSub, k);
      assert OkAt(l, |ids|, k) && ViewAt(l, ids, tx, i);
      if WriteAt(l, k).Some? { EntryShift(WriteAt(l, k).value, StartSub, |ids|, i); }
    }
  }

  lemma StartHomed(l: Local<Entry>, ids: seq<SubId>, tx: Tx, my: SubId)
    requires CanOpen(l, ids, my) && Homed(l, ids, tx)
    ensures Homed(Mapped(l, StartSub), ids + [my], SpecSub(tx, StartSub))
  {
    var l', ids', tx' := Mapped(l, StartSub), ids + [my], SpecSub(tx, StartSub);
    forall i: nat, j: nat ensures MonotoneAt(tx', i, j) {
      assert MonotoneAt(tx, i, j) && MonotoneAt(tx, i, |ids|);
    }
    forall k: nat ensures OidAt(l', tx', k) { MappedAt(l, StartSub, k); assert OidAt(l, tx, k); }
    forall i: nat, j: nat ensures HomeAt(l', ids', tx', i, j) { StartHomeAt(l, ids, tx, my, i, j); }
    forall k: nat, i: nat, j: nat ensures RebuiltAt(l', ids', tx', k, i, j) { StartRebuiltAt(l, ids, tx, my, k, i, j); }
  }

  lemma StartHomeAt(l: Local<Entry>, ids: seq<SubId>, tx: Tx, my: SubId, i: nat, j: nat)
    requires CanOpen(l, ids, my) && Homed(l, ids, tx)
    ensures HomeAt(Mapped(l, StartSub), ids + [my], SpecSub(tx, StartSub), i, j)
  {
    if i < j <= |ids| + 1 {
      StartOwner(l, ids, my, i);
      StartOwner(l, ids, my, j);
      MappedAt(l, StartSub, OwnerOf(l, ids, i));
      assert HomeAt(l, ids, tx, i, if j <= |ids| then j else |ids|);
      assert OkAt(l, |ids|, OwnerOf(l, ids, i)) && OidAt(l, tx, OwnerOf(l, ids, i));
      if WriteAt(l, OwnerOf(l, ids, i)).Some? { EntryShift(WriteAt(l, OwnerOf(l, ids, i)).value, StartSub, |ids|, i); }
    }
  }

  lemma StartRebuiltAt(l: Local<Entry>, ids: seq<SubId>, tx: Tx, my: SubId, k: nat, i: nat, j: nat)
    requires CanOpen(l, ids, my) && Homed(l, ids, tx)
    ensures RebuiltAt(Mapped(l, StartSub), ids + [my], SpecSub(tx, StartSub), k, i, j)
  {
    StashBelow(l, ids, my);
    MappedAt(l, StartSub, k);
    assert RebuiltAt(l, ids, tx, k, i, if j <= |ids| then j else |ids|);
  }

  lemma StartRefines(l: Local<Entry>, ids: seq<SubId>, tx: Tx, my: SubId)
    requires Refines(l, ids, tx) && my > Innermost(ids) && my > TOP
    ensures Refines(SubRows(l, StartSub, my, Innermost(ids)), ids + [my], SpecSub(tx, StartSub))
  {
    StartStructured(l, ids, my);
    StartViews(l, ids, tx, my);
    StartHomed(l, ids, tx, my);
  }

  // --- closing one -------------------------------------------------------------------------

  ghost predicate CanClose(l: Local<Entry>, ids: seq<SubId>, ev: SubEvent) {
    Structured(l, ids) && ids != [] && ev != StartSub
  }

  lemma CloseOkAt(l: Local<Entry>, ids: seq<SubId>, ev: SubEvent, k: nat)
    requires CanClose(l, ids, ev)
    ensures OkAt(Mapped(Moved(l, ids, ev), ev), |ids| - 1, k)
  {
    var m := Moved(l, ids, ev);
    MappedAt(m, ev, k);
    if k <= |m.discarded| {
      var k0 := MovedFrom(l, ids, ev, k);
      assert OkAt(l, |ids|, k0);
      if WriteAt(m, k).Some? { EntryShift(WriteAt(m, k).value, ev, |ids|, 0); }
    }
  }

  lemma CloseFrozenAt(l: Local<Entry>, ids: seq<SubId>, ev: SubEvent, k: nat, i: nat)
    requires CanClose(l, ids, ev)
    ensures FrozenAt(Mapped(Moved(l, ids, ev), ev), ids[..|ids| - 1], k, i)
  {
    var m := Moved(l, ids, ev);
    MappedAt(m, ev, k);
    if k < |m.discarded| && i < |ids| - 1 {
      var k0 := MovedFrom(l, ids, ev, k);
      CloseBounded(l, ids);
      assert OkAt(l, |ids|, k0) && FrozenAt(l, ids, k0, i) && FrozenAt(l, ids, k0, |ids| - 1);
      EntryShift(m.discarded[k].write, ev, |ids|, i);
    }
  }

  lemma CloseStructured(l: Local<Entry>, ids: seq<SubId>, ev: SubEvent)
    requires CanClose(l, ids, ev)
    ensures Structured(Mapped(Moved(l, ids, ev), ev), ids[..|ids| - 1])
  {
    var l', ids' := Mapped(Moved(l, ids, ev), ev), ids[..|ids| - 1];
    MovedStash(l, ids, ev);
    forall k: nat ensures OkAt(l', |ids'|, k) { CloseOkAt(l, ids, ev, k); }
    forall k: nat, i: nat ensures FrozenAt(l', ids', k, i) { CloseFrozenAt(l, ids, ev, k, i); }
  }

  lemma CloseRestored(l: Local<Entry>, ids: seq<SubId>, ev: SubEvent, i: nat)
    requires CanClose(l, ids, ev) && i < |ids| - 1
    ensures Restored(Mapped(Moved(l, ids, ev), ev), ids[..|ids| - 1], i) == Restored(l, ids, i)
  {
    var m, k := Moved(l, ids, ev), Owner(l.discarded, ids[i]);
    MovedOwner(l, ids, ev, i);
    MappedOwner(m, ev, ids[i]);
    MappedAt(m, ev, k);
    assert OkAt(l, |ids|, k);
    if WriteAt(l, k).Some? { EntrySlot(WriteAt(l, k).value, ev, |ids|, i); }
  }

  lemma CloseViewAt(l: Local<Entry>, ids: seq<SubId>, tx: Tx, ev: SubEvent, i: nat)
    requires CanClose(l, ids, ev) && Views(l, ids, tx)
    ensures ViewAt(Mapped(Moved(l, ids, ev), ev), ids[..|ids| - 1], SpecSub(tx, ev), i)
  {
    if i < |ids| - 1 {
      assert ViewAt(l, ids, tx, i);
      CloseRestored(l, ids, ev, i);
    }
  }

  lemma CloseCurrent(l: Local<Entry>, ids: seq<SubId>, tx: Tx, ev: SubEvent)
    requires CanClose(l, ids, ev) && Views(l, ids, tx)
    ensures SpecSub(tx, ev).cur.slot == Current(Mapped(Moved(l, ids, ev), ev))
  {
    var m := Moved(l, ids, ev);
    MovedIs(l, ids, ev);
    assert ViewAt(l, ids, tx, |ids| - 1);
    if ev == AbortSub { MovedAbort(l, ids); }
    var k := if ev == AbortSub then OwnerOf(l, ids, |ids| - 1) else |l.discarded|;
    assert m.pending == WriteAt(l, k) && OkAt(l, |ids|, k);
    if m.pending.Some? { EntryShift(m.pending.value, ev, |ids|, |ids| - 1); }
  }

  lemma ClosePosition(l: Local<Entry>, ids: seq<SubId>, ev: SubEvent, i: nat)
    requires CanClose(l, ids, ev) && i < |ids| - 1
    ensures var l', ids', w := Mapped(Moved(l, ids, ev), ev), ids[..|ids| - 1], OwnerWrite(l, ids, i);
            && OwnerOf(l', ids', i) == OwnerOf(l, ids, i)
            && (w.None? <==> OwnerWrite(l', ids', i).None?)
            && (w.Some? ==> OwnerWrite(l', ids', i).value.oid == w.value.oid
                            && (Covered(OwnerWrite(l', ids', i).value, |ids'|, i) <==> Covered(w.value, |ids|, i)))
  {
    var m, k := Moved(l, ids, ev), OwnerOf(l, ids, i);
    MovedOwner(l, ids, ev, i);
    MappedOwner(m, ev, ids[i]);
    MappedAt(m, ev, k);
    assert OkAt(l, |ids|, k);
    if WriteAt(l, k).Some? { EntryShift(WriteAt(l, k).value, ev, |ids|, i); }
  }

  /** The running position: an abort takes over the aborted one's, a commit keeps its own unless nothing is left
      there. */
  lemma CloseRunning(l: Local<Entry>, ids: seq<SubId>, ev: SubEvent, i: nat)
    requires CanClose(l, ids, ev) && i < |ids| - 1
    requires OwnerOf(l, ids, i) == |Mapped(Moved(l, ids, ev), ev).discarded|
    ensures OwnerOf(l, ids, i) == OwnerOf(l, ids, if ev == AbortSub then |ids| - 1 else |ids|)
  {
    MovedIs(l, ids, ev);
    CloseBounded(l, ids);
    MappedAt(Moved(l, ids, ev), ev, 0);
    if ev == AbortSub { MovedAbort(l, ids); }
  }

  lemma CloseHomeAt(l: Local<Entry>, ids: seq<SubId>, tx: Tx, ev: SubEvent, i: nat, j: nat)
    requires CanClose(l, ids, ev) && |tx.stack| == |ids|
    requires HomeAt(l, ids, tx, i, j) && HomeAt(l, ids, tx, i, |ids|)
    ensures HomeAt(Mapped(Moved(l, ids, ev), ev), ids[..|ids| - 1], SpecSub(tx, ev), i, j)
  {
    var l', ids', tx' := Mapped(Moved(l, ids, ev), ev), ids[..|ids| - 1], SpecSub(tx, ev);
    if i < j <= |ids'| && OwnerOf(l', ids', j) == OwnerOf(l', ids', i) {
      var j0 := if ev == CommitSub && j == |ids'| then |ids| else j;
      ClosePosition(l, ids, ev, i);
      if j < |ids'| { ClosePosition(l, ids, ev, j); } else { CloseRunning(l, ids, ev, i); }
      assert OwnerOf(l, ids, j0) == OwnerOf(l, ids, i);
      assert CatAt(tx', i) == CatAt(tx, i) && CatAt(tx', j) == CatAt(tx, j0);
    }
  }

  lemma CloseRebuiltAt(l: Local<Entry>, ids: seq<SubId>, tx: Tx, ev: SubEvent, k: nat, i: nat, j: nat)
    requires CanClose(l, ids, ev) && Homed(l, ids, tx)
    ensures RebuiltAt(Mapped(Moved(l, ids, ev), ev), ids[..|ids| - 1], SpecSub(tx, ev), k, i, j)
  {
    var m := Moved(l, ids, ev);
    MappedAt(m, ev, k);
    if k < |m.discarded| && i < j <= |ids| - 1 {
      var k0 := MovedFrom(l, ids, ev, k);
      CloseBounded(l, ids);
      assert RebuiltAt(l, ids, tx, k0, i, if ev == CommitSub && j == |ids| - 1 then |ids| else j);
    }
  }

  lemma CloseHomed(l: Local<Entry>, ids: seq<SubId>, tx: Tx, ev: SubEvent)
    requires CanClose(l, ids, ev) && Homed(l, ids, tx)
    ensures Homed(Mapped(Moved(l, ids, ev), ev), ids[..|ids| - 1], SpecSub(tx, ev))
  {
    hide Moved;
    var l', ids', tx' := Mapped(Moved(l, ids, ev), ev), ids[..|ids| - 1], SpecSub(tx, ev);
    forall i: nat, j: nat ensures MonotoneAt(tx', i, j) {
      assert MonotoneAt(tx, i, j) && MonotoneAt(tx, i, |ids|);
    }
    forall k: nat ensures OidAt(l', tx', k) {
      MappedAt(Moved(l, ids, ev), ev, k);
      if k <= |l'.discarded| {
        var k0 := MovedFrom(l, ids, ev, k);
        assert OidAt(l, tx, k0) && MonotoneAt(tx, |ids| - 1, |ids|);
      }
    }
    forall i: nat, j: nat ensures HomeAt(l', ids', tx', i, j) {
      assert HomeAt(l, ids, tx, i, j) && HomeAt(l, ids, tx, i, |ids|);
      CloseHomeAt(l, ids, tx, ev, i, j);
    }
    forall k: nat, i: nat, j: nat ensures RebuiltAt(l', ids', tx', k, i, j) { CloseRebuiltAt(l, ids, tx, ev, k, i, j); }
  }

  /** Aborting a subtransaction leaves staged what was staged at its start; committing one leaves everything. */
  lemma CloseRefines(l: Local<Entry>, ids: seq<SubId>, tx: Tx, ev: SubEvent)
    requires Refines(l, ids, tx) && ids != [] && ev != StartSub
    ensures Refines(SubRows(l, ev, Innermost(ids), Parent(ids)), ids[..|ids| - 1], SpecSub(tx, ev))
  {
    CloseStructured(l, ids, ev);
    var l', ids', tx' := Mapped(Moved(l, ids, ev), ev), ids[..|ids| - 1], SpecSub(tx, ev);
    forall i: nat ensures ViewAt(l', ids', tx', i) { CloseViewAt(l, ids, tx, ev, i); }
    CloseCurrent(l, ids, tx, ev);
    CloseHomed(l, ids, tx, ev);
  }
}
