/** Whole transactions: staging, savepoints, rebuilds and other backends' writes against one heap.

    The claim is the one the index exists for: every live heap row is answered for exactly once,
    by the stored image or by what is staged, and by the image alone once the transaction commits. */
module Transactions {
  import opened Base
  import opened Images
  import opened Stash
  import opened Pending
  import opened Savepoints
  import opened Staging

  /** A backend in a transaction. `tx` is the plain snapshot stack the backend's own state must refine. */
  datatype World = World(l: Local<PendingWrite>, ids: seq<SubId>, tx: Tx, store: Store)

  datatype Event =
    | Open(my: SubId)
    | Close(ev: SubEvent)
    | InsertInto(oid: Oid, row: NewRow)
    | Scan(oid: Oid)
    | WriteAll
    | Rebuild(oid: Oid, file: Relfile, rows: seq<RankedRow>, vrows: seq<UnrankableRow>)
    | Delete(oid: Oid, tids: set<Tid>)
    /** A statement that raises an error, and the abort of its subtransaction. */
    | Fails(stmt: Event)
    /** Other backends' writes, and the heap rows they commit. */
    | Others(store: Store, arrived: map<Oid, set<Tid>>)

  // --- the store -------------------------------------------------------------------------

  ghost predicate FileOk(store: Store, x: Relfile) {
    x in store ==> Valid(store[x].image) && DeadInRange(store[x].image)
  }

  ghost predicate BoundAt(tx: Tx, store: Store, i: nat, o: Oid) {
    o in CatAt(tx, i) ==> CatAt(tx, i)[o] in store
  }

  /** Every write moves the generation: while it stands still, so does the image. */
  ghost predicate EvolvesAt(before: Store, after: Store, x: Relfile) {
    x in before ==>
      && x in after
      && before[x].generation <= after[x].generation
      && (before[x].generation == after[x].generation ==> after[x].image == before[x].image)
  }

  // --- anchoring: what makes the same-generation fast path sound -----------------------------

  /** The staged graph is the replay of the staged rows onto the image its generation names. */
  predicate GenOk(w: PendingWrite, s: Stored) {
    && w.baseGeneration <= s.generation
    && (w.baseGeneration == s.generation ==> Replay(s.image, Ranked(w), Unranked(w)) == Some(w.image))
  }

  predicate AnchoredTo(w: PendingWrite, store: Store, cat: Catalog) {
    w.indexOid in cat && cat[w.indexOid] in store && GenOk(w, store[cat[w.indexOid]])
  }

  /** Wherever an abort could make a write pending, it is anchored to the relation it would be written to,
      unless nothing of it would survive. */
  ghost predicate AnchorAt(l: Local<PendingWrite>, ids: seq<SubId>, tx: Tx, store: Store, i: nat) {
    var o := OwnerWrite(l, ids, i);
    i <= |ids| && o.Some? && (i < |ids| ==> Covered(AsEntry(o.value), |ids|, i)) ==>
      o.value.ledger.rewindTo == Some(NOTHING) || AnchoredTo(o.value, store, CatAt(tx, i))
  }

  ghost predicate Anchored(l: Local<PendingWrite>, ids: seq<SubId>, tx: Tx, store: Store) {
    forall i: nat :: AnchorAt(l, ids, tx, store, i)
  }

  ghost predicate ShapedAt(l: Local<PendingWrite>, k: nat) {
    k <= |l.discarded| && WriteAt(l, k).Some? ==> Shaped(WriteAt(l, k).value)
  }

  // --- coverage ------------------------------------------------------------------------------

  function StagedTids(s: Slot, o: Oid): multiset<Tid> {
    if s.Staged? && s.oid == o then RowTids(s.rows) + UnrankableTids(s.vrows) else multiset{}
  }

  /** How often index `o` answers for heap row `t` in the state snapshot `s` stands for. */
  function Answers(s: Snap, store: Store, o: Oid, t: Tid): nat
    requires o in s.cat && s.cat[o] in store
  {
    LiveTids(store[s.cat[o]].image)[t] + StagedTids(s.slot, o)[t]
  }

  /** Never twice, and exactly once for a live row. */
  predicate CoversRow(s: Snap, store: Store, o: Oid, t: Tid) {
    o in s.cat && s.cat[o] in store && o in s.heap ==>
      Answers(s, store, o, t) <= 1 && (t in s.heap[o] ==> Answers(s, store, o, t) == 1)
  }

  predicate CoverAt(tx: Tx, store: Store, i: nat, o: Oid, t: Tid) {
    i <= |tx.stack| ==> CoversRow(SnapAt(tx, i), store, o, t)
  }

  /** What a savepoint staged for a relation is still staged for it, unless that was written since. */
  predicate NestedAt(tx: Tx, i: nat, j: nat, o: Oid) {
    i <= j <= |tx.stack| && o in CatAt(tx, i) && o in CatAt(tx, j) && CatAt(tx, i)[o] == CatAt(tx, j)[o] ==>
      StagedTids(SnapAt(tx, i).slot, o) <= StagedTids(SnapAt(tx, j).slot, o)
  }

  /** No two indexes share a relation. */
  ghost predicate DistinctAt(tx: Tx, i: nat, j: nat, o: Oid, o': Oid) {
    o in CatAt(tx, i) && o' in CatAt(tx, j) && CatAt(tx, i)[o] == CatAt(tx, j)[o'] ==> o == o'
  }

  predicate KeysAt(tx: Tx, i: nat) { SnapAt(tx, i).heap.Keys == CatAt(tx, i).Keys }

  ghost predicate Covers(tx: Tx, store: Store) {
    && (forall i: nat :: KeysAt(tx, i))
    && (forall i: nat, o, t :: CoverAt(tx, store, i, o, t))
    && (forall i: nat, j: nat, o :: NestedAt(tx, i, j, o))
    && (forall i: nat, j: nat, o, o' :: DistinctAt(tx, i, j, o, o'))
    && (forall i: nat, o :: BoundAt(tx, store, i, o))
    && (forall x :: FileOk(store, x))
  }

  ghost predicate Core(w: World) {
    && Refines(AsRows(w.l), w.ids, w.tx)
    && (forall k: nat :: ShapedAt(w.l, k))
    && Anchored(w.l, w.ids, w.tx, w.store)
    && Covers(w.tx, w.store)
  }

  // --- steps -----------------------------------------------------------------------------------

  function TidOf(row: NewRow): Tid { if row.WithVector? then row.row.tid else row.vrow.tid }

  function HeapPlus(s: Snap, o: Oid, t: Tid): Snap {
    if o in s.heap then s.(heap := s.heap[o := s.heap[o] + {t}]) else s
  }

  function HeapMinus(s: Snap, o: Oid, gone: set<Tid>): Snap {
    if o in s.heap then s.(heap := s.heap[o := s.heap[o] - gone]) else s
  }

  /** The heap hands out an address only once no index entry still names it. */
  predicate FreshTid(w: World, o: Oid, t: Tid) {
    o in w.tx.cur.cat && w.tx.cur.cat[o] in w.store && Answers(w.tx.cur, w.store, o, t) == 0
  }

  const EMPTY_IMAGE := Image(Empty, [], [])

  function Arrived(arrived: map<Oid, set<Tid>>, o: Oid): set<Tid> { if o in arrived then arrived[o] else {} }

  /** Rows other backends commit are live for every snapshot of this transaction. */
  function GrownSnap(s: Snap, arrived: map<Oid, set<Tid>>): Snap {
    s.(heap := map o | o in s.heap :: s.heap[o] + Arrived(arrived, o))
  }

  function Grown(tx: Tx, arrived: map<Oid, set<Tid>>): Tx {
    Tx(GrownSnap(tx.cur, arrived),
       seq(|tx.stack|, i requires 0 <= i < |tx.stack| => GrownSnap(tx.stack[i], arrived)))
  }

  /** Other backends flush rows of their own and vacuum rows no snapshot of this transaction can see. */
  ghost predicate PoliteAt(w: World, after: Store, arrived: map<Oid, set<Tid>>, i: nat, o: Oid, t: Tid) {
    var s := SnapAt(w.tx, i);
    i <= |w.tx.stack| && o in s.cat && s.cat[o] in w.store && s.cat[o] in after && o in s.heap ==>
      var was, now := LiveTids(w.store[s.cat[o]].image)[t], LiveTids(after[s.cat[o]].image)[t];
      && now <= 1
      && (StagedTids(s.slot, o)[t] > 0 ==> now <= was)
      && (t in s.heap[o] ==> now == was)
      && (t in Arrived(arrived, o) ==> now == 1 && StagedTids(s.slot, o)[t] == 0)
  }

  ghost predicate Polite(w: World, after: Store, arrived: map<Oid, set<Tid>>) {
    && (forall x :: EvolvesAt(w.store, after, x))
    && (forall x :: FileOk(after, x))
    && forall i: nat, o, t :: PoliteAt(w, after, arrived, i, o, t)
  }

  predicate Ready(w: World) { Openable(w.l.pending, w.tx.cur.cat, w.store) }

  // --- errors ------------------------------------------------------------------------------------

  /** An empty write taken from `s`: behind it, or holding the same image. */
  predicate LoadedFrom(p: PendingWrite, s: Stored) {
    p.baseGeneration <= s.generation && (p.baseGeneration == s.generation ==> p.image == s.image)
  }

  /** The abort's guard skips a write whose mark equals what it stages. One that stages nothing then stays pending,
      loaded from whatever relation the aborted subtransaction saw: it must be the relation that comes back. */
  ghost predicate SafeToAbort(w: World)
    requires w.ids != []
  {
    var d := |w.ids| - 1;
    var o, cat := OwnerWrite(w.l, w.ids, d), CatAt(w.tx, d);
    o.None? || Covered(AsEntry(o.value), d + 1, d) || Count(o.value) != NOTHING
    || o.value.ledger.rewindTo == Some(NOTHING)
    || (o.value.indexOid in cat && cat[o.value.indexOid] in w.store
        && LoadedFrom(o.value, w.store[cat[o.value.indexOid]]))
  }

  /** Statements whose write-back, replay or insertion can be refused. */
  predicate Risky(w: World, stmt: Event) {
    && (stmt.InsertInto? || stmt.Scan? || stmt.WriteAll?)
    && (stmt.InsertInto? ==> Opens(w.tx.cur.cat, w.store, stmt.oid))
  }

  function EffectOf(w: World, stmt: Event): Effect
    requires Ready(w) && Risky(w, stmt)
  {
    match stmt
    case InsertInto(oid, row) => InsertRow(w.l.pending, oid, row, w.tx.cur.cat, w.store)
    case Scan(oid) => Read(w.l.pending, oid, w.tx.cur.cat, w.store)
    case WriteAll => WriteBack(w.l.pending, w.tx.cur.cat, w.store)
  }

  function Superseded(w: World, oid: Oid): Local<PendingWrite> {
    Forget(w.l, w.l.pending.Some? && w.l.pending.value.indexOid == oid, Innermost(w.ids))
  }

  /** A build sets the staged rows aside before it meets a row the graph refuses. */
  ghost predicate BuildErrs(w: World, stmt: Event) {
    && stmt.Rebuild? && NewFile(w.tx, stmt.oid, stmt.file) && stmt.file !in w.store && stmt.oid in w.tx.cur.heap
    && Replay(EMPTY_IMAGE, stmt.rows, stmt.vrows).None?
  }

  /** An error inside a subtransaction aborts it at once; at top level it ends the transaction. */
  ghost predicate Errs(w: World, stmt: Event)
    requires Ready(w)
  {
    && w.ids != [] && w.tx.stack != []
    && (BuildErrs(w, stmt) || (Risky(w, stmt) && EffectOf(w, stmt).refused))
  }

  /** The state an error leaves: a refused row stages nothing, a refused replay has emptied the slot,
      a failed build leaves a relation nothing will name. */
  ghost function Failed(w: World, stmt: Event): World
    requires Ready(w) && Errs(w, stmt)
  {
    if stmt.Rebuild? then
      World(Superseded(w, stmt.oid), w.ids, w.tx, w.store[stmt.file := Stored(FIRST_GENERATION, EMPTY_IMAGE)])
    else
      var r := EffectOf(w, stmt);
      World(w.l.(pending := r.pending), w.ids,
            if r.pending.Some? && stmt.InsertInto? then MakeRoom(w.tx, stmt.oid) else w.tx, r.store)
  }

  /** Whether the stash answers for what the abort brings back, or nothing was staged there. */
  predicate Recoverable(w: World)
    requires w.tx.stack != []
  {
    OwnsLast(w.l.discarded, Innermost(w.ids)) || w.tx.stack[|w.tx.stack| - 1].slot == Nothing
  }

  /** When the abort an error forces restores its savepoint; module Failures proves it exact. */
  ghost predicate FailSafe(w: World, stmt: Event)
    requires Ready(w) && Errs(w, stmt)
  {
    SafeToAbort(Failed(w, stmt)) && (!stmt.Rebuild? && Failed(w, stmt).l.pending.None? ==> Recoverable(w))
  }

  function Aborted(w: World): World
    requires w.ids != [] && w.tx.stack != []
  {
    World(SubxactEvent(w.l, AbortSub, Innermost(w.ids), Parent(w.ids)), w.ids[..|w.ids| - 1],
          SpecSub(w.tx, AbortSub), w.store)
  }

  // --- events --------------------------------------------------------------------------------------

  /** A build indexes no address twice and every live heap row; it may index dead rows as well. */
  ghost predicate BuiltFrom(rows: seq<RankedRow>, vrows: seq<UnrankableRow>, heap: set<Tid>) {
    forall t :: BuiltAt(rows, vrows, heap, t)
  }

  predicate BuiltAt(rows: seq<RankedRow>, vrows: seq<UnrankableRow>, heap: set<Tid>, t: Tid) {
    var n := RowTids(rows)[t] + UnrankableTids(vrows)[t];
    n <= 1 && (t in heap ==> n == 1)
  }

  /** Each event under the conditions PostgreSQL guarantees; an abort where it is safe. */
  ghost predicate Enabled(w: World, e: Event)
    requires Ready(w)
  {
    match e
    case Open(my) => my > Innermost(w.ids) && my > TOP
    case Close(ev) => w.ids != [] && ev != StartSub && w.tx.stack != [] && (ev == AbortSub ==> SafeToAbort(w))
    case InsertInto(oid, row) =>
      && FreshTid(w, oid, TidOf(row)) && oid in w.tx.cur.heap && Opens(w.tx.cur.cat, w.store, oid)
      && !InsertRow(w.l.pending, oid, row, w.tx.cur.cat, w.store).refused
    case Scan(oid) => !Read(w.l.pending, oid, w.tx.cur.cat, w.store).refused
    case WriteAll => !WriteBack(w.l.pending, w.tx.cur.cat, w.store).refused
    case Rebuild(oid, file, rows, vrows) =>
      && NewFile(w.tx, oid, file) && file !in w.store && oid in w.tx.cur.heap
      && Replay(EMPTY_IMAGE, rows, vrows).Some? && BuiltFrom(rows, vrows, w.tx.cur.heap[oid])
    case Delete(_, _) => true
    case Fails(stmt) => Errs(w, stmt) && FailSafe(w, stmt)
    case Others(store, arrived) => Polite(w, store, arrived)
  }

  ghost function Step(w: World, e: Event): World
    requires Ready(w) && Enabled(w, e)
  {
    match e
    case Open(my) =>
      World(SubxactEvent(w.l, StartSub, my, Innermost(w.ids)), w.ids + [my], SpecSub(w.tx, StartSub), w.store)
    case Close(ev) =>
      World(SubxactEvent(w.l, ev, Innermost(w.ids), Parent(w.ids)), w.ids[..|w.ids| - 1], SpecSub(w.tx, ev), w.store)
    case InsertInto(oid, row) =>
      var r := InsertRow(w.l.pending, oid, row, w.tx.cur.cat, w.store);
      var tx := SpecInsert(w.tx, oid, row);
      World(w.l.(pending := r.pending), w.ids, tx.(cur := HeapPlus(tx.cur, oid, TidOf(row))), r.store)
    case Scan(oid) =>
      var r := Read(w.l.pending, oid, w.tx.cur.cat, w.store);
      World(w.l.(pending := r.pending), w.ids, SpecRead(w.tx, oid), r.store)
    case WriteAll =>
      var r := WriteBack(w.l.pending, w.tx.cur.cat, w.store);
      World(w.l.(pending := r.pending), w.ids, Written(w.tx), r.store)
    case Rebuild(oid, file, rows, vrows) =>
      World(Superseded(w, oid), w.ids, SpecRebuild(w.tx, oid, file),
            w.store[file := Stored(FIRST_GENERATION, Replay(EMPTY_IMAGE, rows, vrows).value)])
    case Delete(oid, tids) => w.(tx := w.tx.(cur := HeapMinus(w.tx.cur, oid, tids)))
    case Fails(stmt) => Aborted(Failed(w, stmt))
    case Others(store, arrived) => w.(tx := Grown(w.tx, arrived), store := store)
  }

  // --- the backend's state refines the snapshot stack --------------------------------------------

  lemma AsEntryMark(w: PendingWrite, ev: SubEvent)
    ensures AsEntry(MarkEvent(w, ev)) == EntryEvent(AsEntry(w), ev)
  {
    assert Ranked(MarkEvent(w, ev)) == Ranked(w);
  }

  lemma AsRowsSub(l: Local<PendingWrite>, ev: SubEvent, my: SubId, parent: SubId)
    ensures AsRows(SubxactEvent(l, ev, my, parent)) == SubRows(AsRows(l), ev, my, parent)
  {
    hide MoveStash, AsEntry, MarkEvent, EntryEvent;
    MoveStashMap(l, AsEntry, ev, my, parent);
    var m := MoveStash(l, ev, my, parent);
    forall k | 0 <= k < |m.discarded|
      ensures AsRows(SubxactEvent(l, ev, my, parent)).discarded[k] == SubRows(AsRows(l), ev, my, parent).discarded[k]
    {
      AsEntryMark(m.discarded[k].write, ev);
    }
    if m.pending.Some? { AsEntryMark(m.pending.value, ev); }
  }

  lemma AsRowsForget(l: Local<PendingWrite>, oid: Oid, subid: SubId)
    ensures AsRows(Forget(l, l.pending.Some? && l.pending.value.indexOid == oid, subid))
         == Forget(AsRows(l), Mine(AsRows(l), oid), subid)
  {
    FirstOfMap(l.discarded, AsEntry, subid);
  }

  /** Two stacks that agree on relfilenodes and staged rows are refined alike. */
  lemma HeapIrrelevant(l: Local<Entry>, ids: seq<SubId>, tx: Tx, tx': Tx)
    requires Refines(l, ids, tx) && |tx'.stack| == |tx.stack|
    requires forall i: nat :: SameButHeap(SnapAt(tx', i), SnapAt(tx, i))
    ensures Refines(l, ids, tx')
  {
    assert SameButHeap(SnapAt(tx', |tx.stack|), SnapAt(tx, |tx.stack|));
    forall i: nat ensures CatAt(tx', i) == CatAt(tx, i) { assert SameButHeap(SnapAt(tx', i), SnapAt(tx, i)); }
    SameCats(l, ids, tx, tx');
    forall i: nat ensures ViewAt(l, ids, tx', i) {
      assert ViewAt(l, ids, tx, i) && SameButHeap(SnapAt(tx', i), SnapAt(tx, i));
    }
  }

  predicate SameButHeap(a: Snap, b: Snap) { a.cat == b.cat && a.slot == b.slot }

  lemma SettleAsEntry(p: Option<PendingWrite>, cat: Catalog, store: Store)
    requires Openable(p, cat, store) && !Settle(p, cat, store).refused
    ensures var s := Settle(p, cat, store);
            (if s.pending.None? then None else Some(AsEntry(s.pending.value)))
            == Settled(if p.None? then None else Some(AsEntry(p.value)))
  {
    if p.Some? && p.value.ledger.rewindTo.Some? && p.value.ledger.rewindTo.value != NOTHING {
      RewoundKeeps(p.value, p.value.ledger.rewindTo.value, store[cat[p.value.indexOid]]);
    }
  }
}
