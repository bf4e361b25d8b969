/** The theorems about whole runs of a transaction. */
module Runs {
  import opened Base
  import opened Images
  import opened Stash
  import opened Pending
  import opened Savepoints
  import opened Staging
  import opened Transactions
  import opened Coverage
  import opened Anchoring
  import opened Steps
  import opened Failures

  lemma StepKeeps(w: World, e: Event)
    requires Core(w) && Ready(w) && Enabled(w, e)
    ensures Core(Step(w, e)) && Ready(Step(w, e))
  {
    match e {
      case Open(my) => OpenKeeps(w, my);
      case Close(ev) => CloseKeeps(w, ev);
      case InsertInto(oid, row) => InsertKeeps(w, oid, row);
      case Scan(oid) => ReadKeeps(w, oid);
      case WriteAll => WriteAllKeeps(w);
      case Rebuild(oid, file, rows, vrows) => RebuildKeeps(w, oid, file, rows, vrows);
      case Delete(oid, tids) => DeleteKeeps(w, oid, tids);
      case Fails(stmt) => FailKeepsIff(w, stmt);
      case Others(store, arrived) => OthersKeep(w, store, arrived);
    }
    PendingOpens(Step(w, e));
  }

  // --- whole runs ---------------------------------------------------------------------------------

  /** Each event possible where it happens. */
  ghost predicate Legal(w: World, es: seq<Event>)
    decreases |es|
  {
    es == [] || (Ready(w) && Enabled(w, es[0]) && Legal(Step(w, es[0]), es[1..]))
  }

  ghost function Run(w: World, es: seq<Event>): World
    requires Legal(w, es)
    decreases |es|
  {
    if es == [] then w else Run(Step(w, es[0]), es[1..])
  }

  /** In every reachable state the backend refines the snapshot stack and every live row is answered for once. */
  lemma {:induction false} RunKeeps(w: World, es: seq<Event>)
    requires Core(w) && Ready(w) && Legal(w, es)
    ensures Core(Run(w, es)) && Ready(Run(w, es))
    decreases |es|
  {
    if es != [] {
      StepKeeps(w, es[0]);
      RunKeeps(Step(w, es[0]), es[1..]);
    }
  }

  /** A transaction begins with nothing staged and the images covering the heap. */
  ghost predicate Begins(w: World) {
    && w.l == Local(None, []) && w.ids == [] && w.tx.stack == [] && w.tx.cur.slot == Nothing
    && Covers(w.tx, w.store)
  }

  lemma BeginsCore(w: World)
    requires Begins(w)
    ensures Core(w) && Ready(w)
  {
    Initially(w.tx.cur.cat, w.tx.cur.heap);
    assert w.tx == Tx(Snap(w.tx.cur.cat, w.tx.cur.heap, Nothing), []);
    assert AsRows(w.l) == Local(None, []);
  }

  /** Every heap row is in the current image or staged, and never in the two together more than once. */
  lemma EveryRowAnsweredOnce(w: World, es: seq<Event>, o: Oid, t: Tid)
    requires Begins(w) && Legal(w, es)
    ensures var s, store := Run(w, es).tx.cur, Run(w, es).store;
            o in s.cat ==>
              && s.cat[o] in store && o in s.heap
              && Answers(s, store, o, t) <= 1
              && (t in s.heap[o] ==> Answers(s, store, o, t) == 1)
  {
    BeginsCore(w);
    RunKeeps(w, es);
    var v := Run(w, es);
    assert CoverAt(v.tx, v.store, |v.tx.stack|, o, t) && BoundAt(v.tx, v.store, |v.tx.stack|, o)
           && KeysAt(v.tx, |v.tx.stack|);
  }

  /** A scan sees its own transaction's rows: once its index is settled and written, the image alone has every heap row
      once. */
  lemma ScanSeesOwnRows(w: World, es: seq<Event>, o: Oid, t: Tid)
    requires Begins(w) && Legal(w, es + [Scan(o)])
    ensures var s, store := Run(w, es + [Scan(o)]).tx.cur, Run(w, es + [Scan(o)]).store;
            o in s.cat && o in s.heap && t in s.heap[o] ==>
              s.cat[o] in store && LiveTids(store[s.cat[o]].image)[t] == 1
  {
    EveryRowAnsweredOnce(w, es + [Scan(o)], o, t);
    RunAppend(w, es, Scan(o));
  }

  /** At pre-commit, with the last write-back done, the image alone answers for every heap row exactly once. */
  lemma CommitCoversHeap(w: World, es: seq<Event>, o: Oid, t: Tid)
    requires Begins(w) && Legal(w, es + [WriteAll])
    ensures var s, store := Run(w, es + [WriteAll]).tx.cur, Run(w, es + [WriteAll]).store;
            o in s.cat && o in s.heap && t in s.heap[o] ==>
              s.cat[o] in store && LiveTids(store[s.cat[o]].image)[t] == 1
  {
    EveryRowAnsweredOnce(w, es + [WriteAll], o, t);
    RunAppend(w, es, WriteAll);
  }

  lemma {:induction false} RunAppend(w: World, es: seq<Event>, e: Event)
    requires Legal(w, es + [e])
    ensures Legal(w, es) && Ready(Run(w, es)) && Enabled(Run(w, es), e)
    ensures Run(w, es + [e]) == Step(Run(w, es), e)
    decreases |es|
  {
    if es == [] {
      assert (es + [e])[1..] == [];
    } else {
      assert (es + [e])[1..] == es[1..] + [e];
      RunAppend(Step(w, es[0]), es[1..], e);
    }
  }

  // --- rolling back to a savepoint -----------------------------------------------------------------

  /** The run never closes the savepoint open at depth `d`. */
  ghost predicate StaysAbove(w: World, es: seq<Event>, d: nat)
    requires Legal(w, es)
    decreases |es|
  {
    |w.ids| > d && (es == [] || StaysAbove(Step(w, es[0]), es[1..], d))
  }

  /** The relation rows were staged for answers for all of them. */
  ghost predicate InImage(store: Store, cat: Catalog, slot: Slot) {
    slot.Staged? ==>
      && slot.oid in cat && cat[slot.oid] in store
      && StagedTids(slot, slot.oid) <= LiveTids(store[cat[slot.oid]].image)
  }

  /** A snapshot's rows leave staging only into the image. */
  ghost predicate KeptOrWritten(was: Snap, now: Snap, store: Store) {
    now.cat == was.cat && (now.slot == was.slot || (now.slot == Nothing && InImage(store, was.cat, was.slot)))
  }

  /** Heap rows other backends committed during the run. */
  function ArrivedBy(es: seq<Event>, o: Oid): set<Tid>
    decreases |es|
  {
    if es == [] then {} else ArrivedIn(es[0], o) + ArrivedBy(es[1..], o)
  }

  function ArrivedIn(e: Event, o: Oid): set<Tid> { if e.Others? then Arrived(e.arrived, o) else {} }

  lemma ArrivedOne(e: Event, o: Oid)
    ensures ArrivedBy([e], o) == ArrivedIn(e, o)
  {
    assert [e][1..] == [];
  }

  predicate HeapGrewAt(was: Snap, now: Snap, es: seq<Event>, o: Oid) {
    (o in now.heap <==> o in was.heap) && (o in was.heap ==> now.heap[o] == was.heap[o] + ArrivedBy(es, o))
  }

  lemma FlushKeepsSnapshot(a: World, d: nat)
    requires Core(a) && Ready(a) && a.l.pending.Some? && a.l.pending.value.ledger.rewindTo.None?
    requires !Flush(a.l.pending, a.tx.cur.cat, a.store).refused && d < |a.tx.stack|
    ensures KeptOrWritten(a.tx.stack[d], Written(a.tx).stack[d], Flush(a.l.pending, a.tx.cur.cat, a.store).store)
  {
    hide Core, Flush, FlushImage, StagedTids;
    FlushWrites(a);
    if SameWrite(a.tx.stack[d], a.tx.cur) {
      var o := a.tx.cur.slot.oid;
      assert NestedAt(a.tx, d, |a.tx.stack|, o) by { CoreNested(a, d, o); }
      assert CatAt(a.tx, d)[o] == a.tx.cur.cat[o];
    }
  }

  lemma CoreNested(a: World, d: nat, o: Oid)
    requires Core(a)
    ensures NestedAt(a.tx, d, |a.tx.stack|, o)
  {
  }

  /** The relation written answers for everything that was staged. */
  lemma FlushWrites(a: World)
    requires Core(a) && Ready(a) && a.l.pending.Some? && a.l.pending.value.ledger.rewindTo.None?
    requires !Flush(a.l.pending, a.tx.cur.cat, a.store).refused
    ensures var slot, store := a.tx.cur.slot, Flush(a.l.pending, a.tx.cur.cat, a.store).store;
            slot.Staged? ==>
              && slot.oid in a.tx.cur.cat && a.tx.cur.cat[slot.oid] in store
              && StagedTids(slot, slot.oid) <= LiveTids(store[a.tx.cur.cat[slot.oid]].image)
  {
    FlushStaged(a);
    FlushRewrites(a, FlushImage(a.l.pending.value, a.store[a.tx.cur.cat[a.l.pending.value.indexOid]]).value);
  }

  /** The slot is empty, or staged for the pending write's own index. */
  lemma SlotIsPending(a: World)
    requires Core(a) && (a.l.pending.Some? ==> a.l.pending.value.ledger.rewindTo.None?)
    ensures a.tx.cur.slot.Staged? ==> a.l.pending.Some? && a.l.pending.value.indexOid == a.tx.cur.slot.oid
    ensures a.tx.cur.slot.Nothing? ==> Written(a.tx) == a.tx
  {
    assert a.tx.cur.slot == Current(AsRows(a.l));
    if a.l.pending.Some? {
      PendingSlot(a.l.pending.value);
      assert a.tx.cur.slot == Current(AsRows(Local(Some(a.l.pending.value), [])));
    }
    if a.tx.cur.slot.Nothing? { WrittenNothing(a.tx); }
  }

  lemma RoomKeepsSnapshot(a: World, oid: Oid, d: nat)
    requires Core(a) && Ready(a) && (a.l.pending.Some? ==> a.l.pending.value.ledger.rewindTo.None?) && d < |a.tx.stack|
    requires OtherIndex(a.l.pending, oid) ==> !Flush(a.l.pending, a.tx.cur.cat, a.store).refused
    ensures KeptOrWritten(a.tx.stack[d], MakeRoom(a.tx, oid).stack[d], RoomMade(a, oid).store)
  {
    SlotIsPending(a);
    if OtherIndex(a.l.pending, oid) { FlushKeepsSnapshot(a, d); }
  }

  lemma WriteBackKeepsSnapshot(w: World, a: World, e: Event, d: nat)
    requires Ready(w) && Enabled(w, e) && (e.InsertInto? || e.Scan? || e.WriteAll?) && d < |w.tx.stack|
    requires a == SettledWorld(w) && Core(a) && Ready(a)
             && (a.l.pending.Some? ==> a.l.pending.value.ledger.rewindTo.None?)
    ensures d < |Step(w, e).tx.stack|
    ensures KeptOrWritten(w.tx.stack[d], Step(w, e).tx.stack[d], Step(w, e).store)
  {
    SlotIsPending(a);
    if e.InsertInto? {
      InsertIs(w, e.oid, e.row);
      RoomKeepsSnapshot(a, e.oid, d);
    } else if a.tx.cur.slot.Staged? && (e.Scan? ==> a.l.pending.value.indexOid == e.oid) {
      FlushKeepsSnapshot(a, d);
    }
  }

  lemma FailKeepsSnapshot(w: World, stmt: Event, d: nat)
    requires Core(w) && Ready(w) && Errs(w, stmt) && d < |w.tx.stack|
    ensures d < |Failed(w, stmt).tx.stack|
    ensures KeptOrWritten(w.tx.stack[d], Failed(w, stmt).tx.stack[d], Failed(w, stmt).store)
  {
    hide Core;
    if stmt.Rebuild? {
    } else if EffectOf(w, stmt).pending.None? {
      RefusedReplayIs(w, stmt);
    } else {
      RefusedIsInsert(w, stmt);
      RefusedSettles(w, stmt.oid, stmt.row);
      SettleKeeps(w);
      PendingOpens(SettledWorld(w));
      RefusedRowIs(w, stmt.oid, stmt.row);
      RoomKeepsSnapshot(SettledWorld(w), stmt.oid, d);
    }
  }

  lemma StepKeepsSnapshot(w: World, e: Event, d: nat)
    requires Core(w) && Ready(w) && Enabled(w, e) && |w.ids| > d && |Step(w, e).ids| > d
    ensures d < |Step(w, e).tx.stack| && KeptOrWritten(w.tx.stack[d], Step(w, e).tx.stack[d], Step(w, e).store)
  {
    hide Core, SubxactEvent, Forget, Polite, SafeToAbort, Recoverable, InImage;
    CoreDepth(w);
    if e.InsertInto? || e.Scan? || e.WriteAll? {
      var a := SettledWorld(w);
      assert !Settle(w.l.pending, w.tx.cur.cat, w.store).refused;
      SettleKeeps(w);
      PendingOpens(a);
      WriteBackKeepsSnapshot(w, a, e, d);
    } else if e.Fails? {
      FailKeepsSnapshot(w, e.stmt, d);
    }
  }

  /** Nothing but another backend's commit reaches a savepoint's heap. */
  lemma StackHeap(w: World, e: Event, d: nat)
    requires Ready(w) && Enabled(w, e) && d < |w.tx.stack| && d < |Step(w, e).tx.stack|
    ensures Step(w, e).tx.stack[d].heap ==
            if e.Others? then GrownSnap(w.tx.stack[d], e.arrived).heap else w.tx.stack[d].heap
  {
    hide SubxactEvent, InsertRow, Read, WriteBack, EffectOf, SafeToAbort, FailSafe, Errs, Polite, Forget, Replay;
    WrittenAt(w.tx, d);
  }

  lemma StepHeapAt(w: World, e: Event, d: nat, o: Oid)
    requires Ready(w) && Enabled(w, e) && d < |w.tx.stack| && d < |Step(w, e).tx.stack|
    ensures HeapGrewAt(w.tx.stack[d], Step(w, e).tx.stack[d], [e], o)
  {
    hide Step, Enabled, Ready;
    StackHeap(w, e, d);
    ArrivedOne(e, o);
  }

  /** At some point of the run the image answered for everything staged in the slot. */
  ghost predicate EverWritten(w: World, es: seq<Event>, cat: Catalog, slot: Slot)
    requires Legal(w, es)
    decreases |es|
  {
    InImage(w.store, cat, slot) || (es != [] && EverWritten(Step(w, es[0]), es[1..], cat, slot))
  }

  lemma {:induction false} RunKeepsSnapshot(w: World, es: seq<Event>, d: nat)
    requires Core(w) && Ready(w) && Legal(w, es) && StaysAbove(w, es, d)
    ensures Core(Run(w, es)) && Ready(Run(w, es)) && |Run(w, es).ids| > d
    ensures var was, now := w.tx.stack[d], Run(w, es).tx.stack[d];
            && now.cat == was.cat
            && (now.slot == was.slot || (now.slot == Nothing && EverWritten(w, es, was.cat, was.slot)))
    ensures forall o :: HeapGrewAt(w.tx.stack[d], Run(w, es).tx.stack[d], es, o)
    decreases |es|
  {
    hide Core, Step, Enabled, HeapGrewAt, InImage;
    assert |w.tx.stack| == |w.ids| by { CoreDepth(w); }
    if es == [] {
      forall o ensures HeapGrewAt(w.tx.stack[d], w.tx.stack[d], es, o) { HeapStands(w.tx.stack[d], o); }
    } else {
      var u := Step(w, es[0]);
      StepKeeps(w, es[0]);
      assert |u.ids| > d;
      StepKeepsSnapshot(w, es[0], d);
      RunKeepsSnapshot(u, es[1..], d);
      CoreDepth(u);
      CoreDepth(Run(u, es[1..]));
      var was, mid, now := w.tx.stack[d], u.tx.stack[d], Run(w, es).tx.stack[d];
      if mid.slot == was.slot && now.slot != was.slot { assert EverWritten(u, es[1..], was.cat, was.slot); }
      forall o ensures HeapGrewAt(was, now, es, o) {
        StepHeapAt(w, es[0], d, o);
        assert HeapGrewAt(mid, now, es[1..], o);
        HeapGrows(was, mid, now, es, o);
      }
    }
  }

  lemma HeapStands(s: Snap, o: Oid)
    ensures HeapGrewAt(s, s, [], o)
  {
  }

  lemma HeapGrows(was: Snap, mid: Snap, now: Snap, es: seq<Event>, o: Oid)
    requires es != [] && HeapGrewAt(was, mid, [es[0]], o) && HeapGrewAt(mid, now, es[1..], o)
    ensures HeapGrewAt(was, now, es, o)
  {
    if o in was.heap {
      ArrivedOne(es[0], o);
      var first, rest := ArrivedIn(es[0], o), ArrivedBy(es[1..], o);
      assert (was.heap[o] + first) + rest == was.heap[o] + (first + rest);
    }
  }

  /** What the backend holds as staged, as rows. */
  function StagedNowRows(w: World): Slot { Current(AsRows(w.l)) }

  predicate Aborts(e: Event) { e == Close(AbortSub) || e.Fails? }

  /** ROLLBACK TO leaves staged exactly the rows staged at the savepoint and not written back since, whatever inserts,
      scans, rebuilds, errors and inner savepoints happened in between, and whether an error forced it or not. */
  lemma RollbackRestores(w: World, my: SubId, es: seq<Event>, e: Event)
    requires Core(w) && Ready(w) && Enabled(w, Open(my))
    requires Legal(Step(w, Open(my)), es) && StaysAbove(Step(w, Open(my)), es, |w.ids|)
    requires |Run(Step(w, Open(my)), es).ids| == |w.ids| + 1
    requires Ready(Run(Step(w, Open(my)), es)) && Enabled(Run(Step(w, Open(my)), es), e) && Aborts(e)
    ensures var u := Step(w, Open(my));
            var back := Step(Run(u, es), e);
            && (StagedNowRows(back) == StagedNowRows(w)
                || (StagedNowRows(back) == Nothing
                    && (EverWritten(u, es, w.tx.cur.cat, w.tx.cur.slot)
                        || InImage(back.store, w.tx.cur.cat, w.tx.cur.slot))))
            && back.tx.cur.cat == w.tx.cur.cat && |back.ids| == |w.ids|
            && forall o :: HeapGrewAt(w.tx.cur, back.tx.cur, es, o)
  {
    hide Core, Legal, StaysAbove, EverWritten, Run, InImage, HeapGrewAt, StagedNowRows, Step, Enabled, Ready;
    var u, n := Step(w, Open(my)), |w.ids|;
    StepKeeps(w, Open(my));
    RunKeepsSnapshot(u, es, n);
    var v := Run(u, es);
    StepKeeps(v, e);
    StagedIs(w);
    StagedIs(Step(v, e));
    CoreDepth(w);
    CoreDepth(v);
    OpenPushes(w, my);
    AbortBringsBack(v, e);
    forall o ensures HeapGrewAt(w.tx.cur, Step(v, e).tx.cur, es, o) {
      assert HeapGrewAt(u.tx.stack[n], v.tx.stack[n], es, o);
      SameHeap(w.tx.cur, v.tx.stack[n], Step(v, e).tx.cur, es, o);
    }
  }

  lemma OpenPushes(w: World, my: SubId)
    requires Ready(w) && Enabled(w, Open(my)) && |w.tx.stack| == |w.ids|
    ensures |Step(w, Open(my)).tx.stack| == |w.ids| + 1 && Step(w, Open(my)).tx.stack[|w.ids|] == w.tx.cur
  {
  }

  lemma SameHeap(was: Snap, now: Snap, back: Snap, es: seq<Event>, o: Oid)
    requires HeapGrewAt(was, now, es, o) && back.heap == now.heap
    ensures HeapGrewAt(was, back, es, o)
  {
  }

  lemma StagedIs(w: World)
    requires Core(w)
    ensures StagedNowRows(w) == w.tx.cur.slot
  {
  }

  /** The snapshot an abort brings back is its savepoint's, but for rows an error's own write-back wrote. */
  lemma AbortBringsBack(v: World, e: Event)
    requires Core(v) && Ready(v) && Enabled(v, e) && Aborts(e) && |v.tx.stack| == |v.ids|
    ensures v.ids != [] && |Step(v, e).ids| == |v.ids| - 1
    ensures KeptOrWritten(v.tx.stack[|v.ids| - 1], Step(v, e).tx.cur, Step(v, e).store)
    ensures Step(v, e).tx.cur.heap == v.tx.stack[|v.ids| - 1].heap
  {
    hide Core, SubxactEvent, EffectOf, SafeToAbort, FailSafe, InImage;
    if e.Fails? {
      FailKeepsSnapshot(v, e.stmt, |v.ids| - 1);
      WrittenAt(v.tx, |v.ids| - 1);
    }
  }

  /** The stash never holds two entries for one subtransaction. */
  lemma OneEntryEach(w: World, es: seq<Event>, a: nat, b: nat)
    requires Begins(w) && Legal(w, es)
    ensures var stash := Run(w, es).l.discarded;
            a < b < |stash| ==> stash[a].subid != stash[b].subid
  {
    BeginsCore(w);
    RunKeeps(w, es);
    StashShape(Run(w, es));
  }
}
