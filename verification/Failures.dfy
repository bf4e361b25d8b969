/** What an error leaves staged, and exactly when the abort it forces restores its savepoint.

    Two errors leave something behind: a row the graph refuses, raised after the stored image was loaded
    into the pending slot, and a replay another backend's rows make impossible, raised after the slot was emptied. */
module Failures {
  import opened Base
  import opened Images
  import opened Stash
  import opened Pending
  import opened Savepoints
  import opened Staging
  import opened Transactions
  import opened Coverage
  import opened Anchoring
  import opened Steps

  /** An abort keeps every write anchored exactly when the write it leaves pending staged something,
      or was loaded from the relation that comes back. */
  lemma AbortSafeIff(w: World)
    requires Core(w) && w.ids != []
    ensures SafeToAbort(w) <==> Core(Aborted(w))
  {
    hide Covers, SubxactEvent;
    if SafeToAbort(w) {
      CloseKeeps(w, AbortSub);
    } else {
      var d := |w.ids| - 1;
      var p := OwnerWrite(w.l, w.ids, d).value;
      CloseWrite(w, AbortSub, d);
      SubAt(w.tx, AbortSub, d);
      assert ShapedAt(w.l, OwnerOf(w.l, w.ids, d));
      EmptyAnchors(w, OwnerOf(w.l, w.ids, d));
      MarkKeepsAnchor(p, AbortSub, w.store, CatAt(w.tx, d));
      assert MarkEvent(p, AbortSub).ledger.rewindTo == p.ledger.rewindTo;
      assert !AnchorAt(Aborted(w).l, Aborted(w).ids, Aborted(w).tx, w.store, d);
    }
  }

  // --- a refused row ----------------------------------------------------------------------------

  /** A refused row stages nothing, yet can leave the freshly loaded image pending. */
  lemma RefusedRowKeepsCore(w: World, oid: Oid, row: NewRow)
    requires Core(w) && Ready(w) && Risky(w, InsertInto(oid, row)) && Errs(w, InsertInto(oid, row))
    requires EffectOf(w, InsertInto(oid, row)).pending.Some?
    ensures Core(Failed(w, InsertInto(oid, row)))
  {
    hide Core, Settle, Flush, Stage;
    var a := SettledWorld(w);
    RefusedSettles(w, oid, row);
    SettleKeeps(w);
    PendingOpens(a);
    RefusedRowIs(w, oid, row);
    RoomKeeps(a, oid);
    LoadedKeepsCore(RoomMade(a, oid), oid);
  }

  lemma RefusedSettles(w: World, oid: Oid, row: NewRow)
    requires Ready(w) && Risky(w, InsertInto(oid, row)) && EffectOf(w, InsertInto(oid, row)).pending.Some?
    ensures !Settle(w.l.pending, w.tx.cur.cat, w.store).refused
  {
  }

  lemma RefusedRowIs(w: World, oid: Oid, row: NewRow)
    requires Ready(w) && Risky(w, InsertInto(oid, row)) && Ready(SettledWorld(w)) && Errs(w, InsertInto(oid, row))
    requires EffectOf(w, InsertInto(oid, row)).pending.Some?
    ensures var a := SettledWorld(w);
            var b := RoomMade(a, oid);
            && (OtherIndex(a.l.pending, oid) ==> !Flush(a.l.pending, a.tx.cur.cat, a.store).refused)
            && oid in b.tx.cur.cat && b.tx.cur.cat[oid] in b.store
            && Failed(w, InsertInto(oid, row)) == b.(l := b.l.(pending := Some(LoadedFor(b, oid))))
  {
  }

  lemma LoadedKeepsCore(b: World, oid: Oid)
    requires Core(b) && oid in b.tx.cur.cat && b.tx.cur.cat[oid] in b.store
    ensures Core(b.(l := b.l.(pending := Some(LoadedFor(b, oid)))))
  {
    assert FileOk(b.store, b.tx.cur.cat[oid]);
    if b.l.pending.None? { LoadKeeps(b, oid); }
    else { assert b.l.(pending := Some(LoadedFor(b, oid))) == b.l; }
  }

  // --- a refused replay --------------------------------------------------------------------------

  /** A refused replay writes nothing, and has emptied the slot. */
  lemma RefusedReplayIs(w: World, stmt: Event)
    requires Ready(w) && Risky(w, stmt) && Errs(w, stmt) && EffectOf(w, stmt).pending.None?
    ensures Failed(w, stmt) == Emptied(w)
  {
  }

  function Emptied(w: World): World { w.(l := w.l.(pending := None)) }

  lemma EmptiedAbort(w: World)
    requires Core(w) && w.ids != [] && !OwnsLast(w.l.discarded, Innermost(w.ids))
    ensures SubRows(AsRows(Emptied(w).l), AbortSub, Innermost(w.ids), Parent(w.ids)).pending == None
  {
    HeldStructured(AsRows(w.l), None, w.ids);
    MovedIs(Held(AsRows(w.l), None), w.ids, AbortSub);
  }

  /** The same savepoints over a running snapshot with nothing staged and no heap row to answer for. */
  function Drained(w: World): World {
    Emptied(w).(tx := w.tx.(cur := Snap(w.tx.cur.cat, map o | o in w.tx.cur.heap :: {}, Nothing)))
  }

  /** Losing the pending write shows no savepoint when the stash answers for all of them, or nothing was staged. */
  lemma DrainedRefines(w: World)
    requires Core(w) && w.ids != [] && Recoverable(w)
    ensures Refines(AsRows(Drained(w).l), w.ids, Drained(w).tx)
  {
    var r := AsRows(w.l);
    var l', tx' := Held(r, None), Drained(w).tx;
    HeldStructured(r, None, w.ids);
    HeldHomed(r, None, w.ids, w.tx);
    SameCats(l', w.ids, w.tx, tx');
    forall i: nat ensures ViewAt(l', w.ids, tx', i) { DrainedViewAt(r, w.ids, w.tx, tx', i); }
  }

  lemma DrainedViewAt(r: Local<Entry>, ids: seq<SubId>, tx: Tx, tx': Tx, i: nat)
    requires Structured(r, ids) && Views(r, ids, tx) && ids != [] && tx'.stack == tx.stack
    requires OwnsLast(r.discarded, Innermost(ids)) || tx.stack[|ids| - 1].slot == Nothing
    ensures ViewAt(Held(r, None), ids, tx', i)
  {
    var d, n := |ids| - 1, |r.discarded|;
    assert ViewAt(r, ids, tx, i) && ViewAt(r, ids, tx, d);
    HeldAt(r, None, ids, i);
    if i < |ids| && OwnerOf(r, ids, i) == n && r.pending.Some? {
      assert ids[i] <= ids[d];
      assert OwnerOf(r, ids, d) == n;
      assert OkAt(r, |ids|, n);
      NothingBelow(r.pending.value, |ids|, i, d);
    }
  }

  lemma NothingBelow(e: Entry, depth: nat, i: nat, d: nat)
    requires EntryOk(e, depth) && i <= d < depth && SlotUnder(Some(e), depth, d) == Nothing
    ensures SlotUnder(Some(e), depth, i) == Nothing
  {
    var m := MarkFor(e, depth, d);
    assert m.AtMost(Size(e)) && MarkFor(e, depth, i).AtMost(m);
    assert |Take(e.rows, m.rows)| == m.rows && |Take(e.vrows, m.vrows)| == m.vrows;
  }

  /** With nothing pending, rows still staged belong to the stash, so to relations that were rebuilt since. */
  lemma StashedIsRebuilt(l: Local<Entry>, ids: seq<SubId>, tx: Tx, i: nat, o: Oid)
    requires Homed(l, ids, tx) && Views(l, ids, tx) && l.pending.None? && i < |ids|
    requires o in CatAt(tx, i) && o in tx.cur.cat && CatAt(tx, i)[o] == tx.cur.cat[o]
    ensures StagedTids(tx.stack[i].slot, o) == multiset{}
  {
    hide CatsOk, RowTids, UnrankableTids;
    assert ViewAt(l, ids, tx, i);
    assert RebuiltAt(l, ids, tx, OwnerOf(l, ids, i), i, |ids|);
  }

  lemma DrainedNestedAt(w: World, i: nat, j: nat, o: Oid)
    requires Core(w) && Refines(AsRows(Drained(w).l), w.ids, Drained(w).tx)
    ensures NestedAt(Drained(w).tx, i, j, o)
  {
    hide Anchored, Homed, Views, Structured, StagedTids;
    var tx, n := Drained(w).tx, |w.ids|;
    CoreDepth(w);
    assert NestedAt(w.tx, i, j, o);
    if i < j == n && o in CatAt(tx, i) && o in tx.cur.cat && CatAt(tx, i)[o] == tx.cur.cat[o] {
      StashedIsRebuilt(AsRows(Drained(w).l), w.ids, tx, i, o);
    }
  }

  lemma DrainedCovers(w: World)
    requires Core(w) && Refines(AsRows(Drained(w).l), w.ids, Drained(w).tx)
    ensures Covers(Drained(w).tx, w.store)
  {
    hide Refines, Anchored;
    var tx := Drained(w).tx;
    forall i: nat, o, t ensures CoverAt(tx, w.store, i, o, t) { assert CoverAt(w.tx, w.store, i, o, t); }
    forall i: nat, j: nat, o ensures NestedAt(tx, i, j, o) { DrainedNestedAt(w, i, j, o); }
    forall i: nat, j: nat, o, o' ensures DistinctAt(tx, i, j, o, o') { assert DistinctAt(w.tx, i, j, o, o'); }
    forall i: nat, o ensures BoundAt(tx, w.store, i, o) { assert BoundAt(w.tx, w.store, i, o); }
    forall i: nat ensures KeysAt(tx, i) { assert KeysAt(w.tx, i); }
  }

  lemma DrainedKeeps(w: World)
    requires Core(w) && w.ids != [] && Recoverable(w)
    ensures Core(Drained(w)) && Aborted(Drained(w)) == Aborted(Emptied(w))
    ensures SafeToAbort(Drained(w)) <==> SafeToAbort(Emptied(w))
  {
    SameAbort(Drained(w), Emptied(w));
    DrainedRefines(w);
    DrainedCovers(w);
    HoldKeeps(w, None);
    InsertedAnchors(w, Emptied(w).l, Drained(w).tx);
  }

  /** A replay fails after the slot was emptied, so the abort it forces can bring rows back from the stash only. */
  lemma RefusedReplayIff(w: World)
    requires Core(w) && w.ids != []
    ensures Core(Aborted(Emptied(w))) <==> SafeToAbort(Emptied(w)) && Recoverable(w)
    ensures Refines(AsRows(Aborted(Emptied(w)).l), Aborted(Emptied(w)).ids, Aborted(Emptied(w)).tx) <==> Recoverable(w)
  {
    hide Covers, Anchored, SafeToAbort;
    AsRowsSub(Emptied(w).l, AbortSub, Innermost(w.ids), Parent(w.ids));
    if Recoverable(w) {
      DrainedKeeps(w);
      AbortSafeIff(Drained(w));
      CloseRefines(AsRows(Drained(w).l), w.ids, Drained(w).tx, AbortSub);
    } else {
      EmptiedAbort(w);
    }
  }

  // --- a failed build ------------------------------------------------------------------------------

  /** To the abort that undoes it, a failed build is a rebuild of the emptied table. */
  lemma FailedBuildIff(w: World, stmt: Event)
    requires Core(w) && Ready(w) && Errs(w, stmt) && stmt.Rebuild?
    ensures SafeToAbort(Failed(w, stmt)) <==> Core(Aborted(Failed(w, stmt)))
  {
    hide Core, Ready, Enabled, Step, Replay;
    DeleteEnabled(w, stmt);
    var u := Step(w, Delete(stmt.oid, w.tx.cur.heap[stmt.oid]));
    DeleteKeeps(w, stmt.oid, w.tx.cur.heap[stmt.oid]);
    PendingOpens(u);
    EmptyBuild(w, u, stmt);
    RebuildKeeps(u, stmt.oid, stmt.file, [], []);
    CoreDepth(w);
    AbortSafeIff(Step(u, Rebuild(stmt.oid, stmt.file, [], [])));
    SameAbort(Step(u, Rebuild(stmt.oid, stmt.file, [], [])), Failed(w, stmt));
  }

  lemma CoreDepth(w: World)
    requires Core(w)
    ensures |w.tx.stack| == |w.ids|
  {
  }

  lemma DeleteEnabled(w: World, stmt: Event)
    requires Ready(w) && BuildErrs(w, stmt)
    ensures Enabled(w, Delete(stmt.oid, w.tx.cur.heap[stmt.oid]))
  {
  }

  lemma EmptyBuild(w: World, u: World, stmt: Event)
    requires Ready(w) && BuildErrs(w, stmt) && Enabled(w, Delete(stmt.oid, w.tx.cur.heap[stmt.oid]))
    requires u == Step(w, Delete(stmt.oid, w.tx.cur.heap[stmt.oid])) && Ready(u) && w.ids != [] && w.tx.stack != []
    ensures Enabled(u, Rebuild(stmt.oid, stmt.file, [], []))
    ensures var v := Step(u, Rebuild(stmt.oid, stmt.file, [], []));
            v.l == Failed(w, stmt).l && v.ids == w.ids && v.tx.stack == w.tx.stack && v.store == Failed(w, stmt).store
  {
    forall i: nat ensures CatAt(u.tx, i) == CatAt(w.tx, i) {}
    assert u.tx.cur.heap[stmt.oid] == {};
    assert EMPTY_IMAGE.unrankable + [] == [];
    forall t ensures BuiltAt([], [], {}, t) {}
  }

  /** An abort looks at the running snapshot's savepoints, never at the snapshot. */
  lemma SameAbort(v: World, v': World)
    requires v'.l == v.l && v'.ids == v.ids && v'.tx.stack == v.tx.stack && v'.store == v.store
    requires v.ids != [] && |v.tx.stack| == |v.ids|
    ensures Aborted(v') == Aborted(v) && (SafeToAbort(v') <==> SafeToAbort(v))
  {
  }

  // --- any statement that fails --------------------------------------------------------------------

  /** The abort an error forces restores its savepoint, and keeps every row answered for, if and only if it is safe. */
  lemma FailKeepsIff(w: World, stmt: Event)
    requires Core(w) && Ready(w) && Errs(w, stmt)
    ensures FailSafe(w, stmt) <==> Core(Aborted(Failed(w, stmt)))
  {
    hide Core, SafeToAbort, Recoverable, Aborted;
    if stmt.Rebuild? {
      FailedBuildIff(w, stmt);
    } else if Failed(w, stmt).l.pending.None? {
      RefusedReplayIs(w, stmt);
      RefusedReplayIff(w);
    } else {
      RefusedIsInsert(w, stmt);
      RefusedRowKeepsCore(w, stmt.oid, stmt.row);
      AbortSafeIff(Failed(w, stmt));
    }
  }

  lemma RefusedIsInsert(w: World, stmt: Event)
    requires Ready(w) && Risky(w, stmt) && EffectOf(w, stmt).refused && EffectOf(w, stmt).pending.Some?
    ensures stmt.InsertInto?
  {
  }
}
