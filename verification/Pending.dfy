/** The deferred write-back: what one backend stages, rewinds and writes.

    Functions give each operation's effect as a value; module Backend carries
    the same state in mutable fields, as the thread-local cells do, and is proved against them. */
module Pending {
  import opened Base
  import opened Images
  import opened Stash

  /** A physical relation: every rebuild writes a fresh one. */
  type Relfile = nat

  type Catalog = map<Oid, Relfile>
  type Store = map<Relfile, Stored>

  const FIRST_GENERATION: nat := 1

  /** What the pages of one relation hold. */
  datatype Stored = Stored(generation: nat, image: Image)

  datatype PendingWrite = PendingWrite(
    indexOid: Oid,
    baseGeneration: nat,
    image: Image,
    baseN: nat,
    baseUnrankable: nat,
    ledger: Ledger)

  datatype NewRow = WithVector(row: RankedRow) | Vectorless(vrow: UnrankableRow)

  predicate Shaped(w: PendingWrite) {
    && Valid(w.image)
    && w.baseN <= |w.image.tids|
    && w.baseUnrankable <= |w.image.unrankable|
  }

  /** The rows with vectors this transaction staged. */
  function Ranked(w: PendingWrite): seq<RankedRow> {
    if !Shaped(w) then [] else
    seq(|w.image.tids| - w.baseN, i requires 0 <= i < |w.image.tids| - w.baseN =>
      RankedRow(Nodes(w.image.graph)[w.baseN + i], w.image.tids[w.baseN + i]))
  }

  /** The vectorless rows this transaction staged. */
  function Unranked(w: PendingWrite): seq<UnrankableRow> {
    if !Shaped(w) then [] else w.image.unrankable[w.baseUnrankable..]
  }

  function Count(w: PendingWrite): Mark { Mark(|Ranked(w)|, |Unranked(w)|) }

  function MarkEvent(w: PendingWrite, ev: SubEvent): PendingWrite {
    w.(ledger := LedgerEvent(w.ledger, Count(w), ev))
  }

  function SubxactEvent(l: Local<PendingWrite>, ev: SubEvent, my: SubId, parent: SubId): Local<PendingWrite> {
    MapLocal(MoveStash(l, ev, my, parent), w => MarkEvent(w, ev))
  }

  predicate WriteOk(w: PendingWrite) { Shaped(w) && Sane(w.ledger, Count(w)) }

  function Load(oid: Oid, s: Stored): PendingWrite {
    PendingWrite(oid, s.generation, s.image, |s.image.tids|, |s.image.unrankable|, FRESH_LEDGER)
  }

  /** None when the graph refuses the row. */
  function Stage(w: PendingWrite, row: NewRow): Option<PendingWrite> {
    match row
    case Vectorless(v) => Some(w.(image := w.image.(unrankable := w.image.unrankable + [v])))
    case WithVector(r) =>
      if Accepts(w.image.graph, r.node.vector)
      then Some(w.(image := w.image.(graph := Insert(w.image.graph, r.node), tids := w.image.tids + [r.tid])))
      else None
  }

  /** The write a rewind leaves: the surviving rows replayed onto the image stored now. */
  function Rewound(w: PendingWrite, mark: Mark, s: Stored): Option<PendingWrite>
    requires mark.AtMost(Count(w))
  {
    match Replay(s.image, Ranked(w)[..mark.rows], Unranked(w)[..mark.vrows])
    case None => None
    case Some(img) =>
      Some(PendingWrite(w.indexOid, s.generation, img, |s.image.tids|, |s.image.unrankable|,
                        Ledger(w.ledger.marks, None)))
  }

  /** The image a flush writes. */
  function FlushImage(w: PendingWrite, s: Stored): Option<Image> {
    if s.generation == w.baseGeneration then Some(w.image) else Replay(s.image, Ranked(w), Unranked(w))
  }

  predicate Opens(cat: Catalog, store: Store, oid: Oid) {
    oid in cat && cat[oid] in store && Valid(store[cat[oid]].image)
  }

  predicate Openable(p: Option<PendingWrite>, cat: Catalog, store: Store) {
    p.Some? ==> WriteOk(p.value) && Opens(cat, store, p.value.indexOid)
  }

  datatype Effect = Effect(pending: Option<PendingWrite>, store: Store, refused: bool)

  /** A refused replay raises an error after the pending write was already taken. */
  function Settle(p: Option<PendingWrite>, cat: Catalog, store: Store): Effect
    requires Openable(p, cat, store)
  {
    if p.None? || p.value.ledger.rewindTo.None? then Effect(p, store, false)
    else if p.value.ledger.rewindTo.value == NOTHING then Effect(None, store, false)
    else
      var r := Rewound(p.value, p.value.ledger.rewindTo.value, store[cat[p.value.indexOid]]);
      Effect(r, store, r.None?)
  }

  function Flush(p: Option<PendingWrite>, cat: Catalog, store: Store): Effect
    requires Openable(p, cat, store)
  {
    if p.None? then Effect(None, store, false) else
    var x := cat[p.value.indexOid];
    match FlushImage(p.value, store[x])
    case None => Effect(None, store, true)
    case Some(img) => Effect(None, store[x := Stored(store[x].generation + 1, img)], false)
  }

  /** The surviving rows are exactly the first `mark` of each kind. */
  lemma RewoundKeeps(w: PendingWrite, mark: Mark, s: Stored)
    requires WriteOk(w) && mark.AtMost(Count(w)) && Valid(s.image) && Rewound(w, mark, s).Some?
    ensures var w' := Rewound(w, mark, s).value;
            Shaped(w') && Ranked(w') == Ranked(w)[..mark.rows] && Unranked(w') == Unranked(w)[..mark.vrows]
  {
    ReplayRowsExtends(s.image, Ranked(w)[..mark.rows]);
    var w' := Rewound(w, mark, s).value;
    assert Ranked(w') == Ranked(w)[..mark.rows];
    assert Unranked(w') == Unranked(w)[..mark.vrows];
  }

  lemma SettleOpenable(p: Option<PendingWrite>, cat: Catalog, store: Store)
    requires Openable(p, cat, store)
    ensures Openable(Settle(p, cat, store).pending, cat, store)
    ensures Settle(p, cat, store).pending.Some? ==> Settle(p, cat, store).pending.value.ledger.rewindTo == None
  {
    if p.Some? && p.value.ledger.rewindTo.Some? && Settle(p, cat, store).pending.Some? {
      RewoundKeeps(p.value, p.value.ledger.rewindTo.value, store[cat[p.value.indexOid]]);
    }
  }

  /** flush_pending_for: write back what is staged for `oid`, leave another index's staging alone. */
  function Read(p: Option<PendingWrite>, oid: Oid, cat: Catalog, store: Store): Effect
    requires Openable(p, cat, store)
  {
    var s := Settle(p, cat, store);
    SettleOpenable(p, cat, store);
    if s.refused || s.pending.None? || s.pending.value.indexOid != oid then s else Flush(s.pending, cat, store)
  }

  /** flush_pending, and the write at pre-commit. */
  function WriteBack(p: Option<PendingWrite>, cat: Catalog, store: Store): Effect
    requires Openable(p, cat, store)
  {
    var s := Settle(p, cat, store);
    SettleOpenable(p, cat, store);
    if s.refused then s else Flush(s.pending, cat, store)
  }

  /** Whether another index's staging is in the slot. */
  predicate OtherIndex(p: Option<PendingWrite>, oid: Oid) { p.Some? && p.value.indexOid != oid }

  /** pending_insert once settled: write another index's staging back, load on first use, stage. */
  function InsertSettled(p: Option<PendingWrite>, oid: Oid, row: NewRow, cat: Catalog, store: Store): Effect
    requires Openable(p, cat, store) && Opens(cat, store, oid)
  {
    var f := if OtherIndex(p, oid) then Flush(p, cat, store) else Effect(p, store, false);
    if f.refused then f else
    var w := if f.pending.None? then Load(oid, f.store[cat[oid]]) else f.pending.value;
    match Stage(w, row)
    case None => Effect(Some(w), f.store, true)
    case Some(w') => Effect(Some(w'), f.store, false)
  }

  function InsertRow(p: Option<PendingWrite>, oid: Oid, row: NewRow, cat: Catalog, store: Store): Effect
    requires Openable(p, cat, store) && Opens(cat, store, oid)
  {
    var s := Settle(p, cat, store);
    SettleOpenable(p, cat, store);
    if s.refused then s else InsertSettled(s.pending, oid, row, cat, store)
  }

  /** Staging adds one row at the end and touches nothing staged before. */
  lemma StageAppends(w: PendingWrite, row: NewRow)
    requires Shaped(w) && Stage(w, row).Some?
    ensures var w' := Stage(w, row).value;
            && Shaped(w')
            && w'.ledger == w.ledger
            && Ranked(w') == Ranked(w) + (if row.WithVector? then [row.row] else [])
            && Unranked(w') == Unranked(w) + (if row.Vectorless? then [row.vrow] else [])
  {
    var w' := Stage(w, row).value;
    if row.WithVector? {
      assert Nodes(w'.image.graph) == Nodes(w.image.graph) + [row.row.node];
      assert Ranked(w') == Ranked(w) + [row.row];
    } else {
      assert Ranked(w') == Ranked(w) + [];
    }
  }
}
