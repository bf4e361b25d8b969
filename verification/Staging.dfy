/** Staging, rewinding, writing back and setting aside keep the refinement of module Savepoints. */
module Staging {
  import opened Base
  import opened Images
  import opened Stash
  import opened Pending
  import opened Savepoints

  // --- the operations on the rows a write stands for ---------------------------------

  function Settled(o: Option<Entry>): Option<Entry> {
    if o.None? || o.value.ledger.rewindTo.None? then o
    else
      var e, m := o.value, o.value.ledger.rewindTo.value;
      if m == NOTHING then None
      else Some(Entry(e.oid, Take(e.rows, m.rows), Take(e.vrows, m.vrows), Ledger(e.ledger.marks, None)))
  }

  function Blank(oid: Oid): Entry { Entry(oid, [], [], FRESH_LEDGER) }

  function WithRow(e: Entry, row: NewRow): Entry {
    e.(rows := e.rows + (if row.WithVector? then [row.row] else []),
       vrows := e.vrows + (if row.Vectorless? then [row.vrow] else []))
  }

  function Held(l: Local<Entry>, o: Option<Entry>): Local<Entry> { l.(pending := o) }

  lemma HeldAt(l: Local<Entry>, o: Option<Entry>, ids: seq<SubId>, i: nat)
    ensures OwnerOf(Held(l, o), ids, i) == OwnerOf(l, ids, i)
    ensures OwnerOf(l, ids, i) < |l.discarded| ==> OwnerWrite(Held(l, o), ids, i) == OwnerWrite(l, ids, i)
    ensures OwnerOf(l, ids, i) == |l.discarded|
            ==> OwnerWrite(l, ids, i) == l.pending && OwnerWrite(Held(l, o), ids, i) == o
  {
  }

  lemma HeldStructured(l: Local<Entry>, o: Option<Entry>, ids: seq<SubId>)
    requires Structured(l, ids) && (o.Some? ==> EntryOk(o.value, |ids|))
    ensures Structured(Held(l, o), ids)
  {
    var l' := Held(l, o);
    forall k: nat ensures OkAt(l', |ids|, k) { assert OkAt(l, |ids|, k); }
    forall k: nat, i: nat ensures FrozenAt(l', ids, k, i) { assert FrozenAt(l, ids, k, i); }
  }

  /** Replacing the pending write by one of the same index whose marks cover no more keeps its home. */
  lemma HeldHomed(l: Local<Entry>, o: Option<Entry>, ids: seq<SubId>, tx: Tx)
    requires Homed(l, ids, tx)
    requires o.Some? ==> o.value.oid in tx.cur.cat
    requires o.Some? && o.value.ledger.marks != [] ==>
             l.pending.Some? && l.pending.value.oid == o.value.oid
                 && |o.value.ledger.marks| <= |l.pending.value.ledger.marks|
    ensures Homed(Held(l, o), ids, tx)
  {
    var l' := Held(l, o);
    forall k: nat ensures OidAt(l', tx, k) { assert OidAt(l, tx, k); }
    forall i: nat, j: nat ensures HomeAt(l', ids, tx, i, j) {
      assert HomeAt(l, ids, tx, i, j);
      HeldAt(l, o, ids, i);
      HeldAt(l, o, ids, j);
    }
    forall k: nat, i: nat, j: nat ensures RebuiltAt(l', ids, tx, k, i, j) { assert RebuiltAt(l, ids, tx, k, i, j); }
  }

  /** A write of the same index that agrees up to every mark shows every savepoint the same rows. */
  lemma HeldViews(l: Local<Entry>, o: Option<Entry>, ids: seq<SubId>, tx: Tx)
    requires Views(l, ids, tx)
    requires forall i: nat :: i < |ids| ==> SlotUnder(o, |ids|, i) == SlotUnder(l.pending, |ids|, i)
    requires Current(Held(l, o)) == Current(l)
    ensures Views(Held(l, o), ids, tx)
  {
    forall i: nat ensures ViewAt(Held(l, o), ids, tx, i) {
      assert ViewAt(l, ids, tx, i);
      HeldAt(l, o, ids, i);
    }
  }

  // --- carrying out a rewind -----------------------------------------------------------

  lemma SettledEntry(e: Entry, depth: nat, i: nat)
    requires EntryOk(e, depth)
    ensures SlotUnder(Settled(Some(e)), depth, i) == SlotUnder(Some(e), depth, i)
    ensures Settled(Some(e)).Some? ==> EntryOk(Settled(Some(e)).value, depth)
  {
    var m := MarkFor(e, depth, i);
    assert m.AtMost(Effective(e.ledger, Size(e)));
    if Settled(Some(e)).Some? {
      var e' := Settled(Some(e)).value;
      assert MarkFor(e', depth, i) == m;
      assert Take(e'.rows, m.rows) == Take(e.rows, m.rows);
      assert Take(e'.vrows, m.vrows) == Take(e.vrows, m.vrows);
    }
  }

  lemma SettleRefines(l: Local<Entry>, ids: seq<SubId>, tx: Tx)
    requires Refines(l, ids, tx)
    ensures Refines(Held(l, Settled(l.pending)), ids, tx)
  {
    assert OkAt(l, |ids|, |l.discarded|) && OidAt(l, tx, |l.discarded|);
    if l.pending.Some? {
      var e := l.pending.value;
      forall i: nat | i < |ids|
        ensures SlotUnder(Settled(l.pending), |ids|, i) == SlotUnder(l.pending, |ids|, i)
      {
        SettledEntry(e, |ids|, i);
      }
      SettledEntry(e, |ids|, 0);
      HeldStructured(l, Settled(l.pending), ids);
      HeldHomed(l, Settled(l.pending), ids, tx);
      HeldViews(l, Settled(l.pending), ids, tx);
    } else {
      assert Held(l, Settled(l.pending)) == l;
    }
  }

  // --- loading and staging -------------------------------------------------------------

  lemma LoadRefines(l: Local<Entry>, ids: seq<SubId>, tx: Tx, oid: Oid)
    requires Refines(l, ids, tx) && l.pending.None? && oid in tx.cur.cat
    ensures Refines(Held(l, Some(Blank(oid))), ids, tx)
  {
    HeldStructured(l, Some(Blank(oid)), ids);
    HeldHomed(l, Some(Blank(oid)), ids, tx);
    HeldViews(l, Some(Blank(oid)), ids, tx);
  }

  lemma WithRowEntry(e: Entry, row: NewRow, depth: nat, i: nat)
    requires EntryOk(e, depth) && e.ledger.rewindTo.None?
    ensures EntryOk(WithRow(e, row), depth)
    ensures SlotUnder(Some(WithRow(e, row)), depth, i) == SlotUnder(Some(e), depth, i)
    ensures SlotUpTo(WithRow(e, row), Size(WithRow(e, row))) == Append(SlotUpTo(e, Size(e)), e.oid, row)
  {
    var e' := WithRow(e, row);
    var m := MarkFor(e, depth, i);
    assert m.AtMost(Size(e));
    assert Take(e'.rows, m.rows) == Take(e.rows, m.rows);
    assert Take(e'.vrows, m.vrows) == Take(e.vrows, m.vrows);
  }

  lemma StageRefines(l: Local<Entry>, ids: seq<SubId>, tx: Tx, row: NewRow)
    requires Refines(l, ids, tx) && l.pending.Some? && l.pending.value.ledger.rewindTo.None?
    ensures var e := l.pending.value;
            Refines(Held(l, Some(WithRow(e, row))), ids, tx.(cur := tx.cur.(slot := Append(tx.cur.slot, e.oid, row))))
  {
    var e := l.pending.value;
    var l', tx' := Held(l, Some(WithRow(e, row))), tx.(cur := tx.cur.(slot := Append(tx.cur.slot, e.oid, row)));
    assert OkAt(l, |ids|, |l.discarded|) && OidAt(l, tx, |l.discarded|);
    WithRowEntry(e, row, |ids|, 0);
    HeldStructured(l, l'.pending, ids);
    HeldHomed(l, l'.pending, ids, tx);
    SameCats(l', ids, tx, tx');
    forall i: nat ensures ViewAt(l', ids, tx', i) {
      assert ViewAt(l, ids, tx, i);
      HeldAt(l, l'.pending, ids, i);
      WithRowEntry(e, row, |ids|, i);
    }
  }

  /** Homes depend on the relfilenodes alone. */
  lemma SameCats(l: Local<Entry>, ids: seq<SubId>, tx: Tx, tx': Tx)
    requires Homed(l, ids, tx) && |tx'.stack| == |tx.stack|
    requires forall i: nat :: CatAt(tx', i) == CatAt(tx, i)
    ensures Homed(l, ids, tx')
  {
    assert tx'.cur.cat == CatAt(tx', |tx.stack|) == CatAt(tx, |tx.stack|) == tx.cur.cat;
    forall i: nat, j: nat ensures MonotoneAt(tx', i, j) { assert MonotoneAt(tx, i, j); }
    forall k: nat ensures OidAt(l, tx', k) { assert OidAt(l, tx, k); }
    forall i: nat, j: nat ensures HomeAt(l, ids, tx', i, j) { assert HomeAt(l, ids, tx, i, j); }
    forall k: nat, i: nat, j: nat ensures RebuiltAt(l, ids, tx', k, i, j) { assert RebuiltAt(l, ids, tx, k, i, j); }
  }

  // --- writing back --------------------------------------------------------------------

  /** Exactly the savepoints the pending write answers for lose their rows to the write-back. */
  lemma WrittenViewAt(l: Local<Entry>, ids: seq<SubId>, tx: Tx, i: nat)
    requires Refines(l, ids, tx) && l.pending.Some? && l.pending.value.ledger.rewindTo.None?
    ensures ViewAt(Held(l, None), ids, Written(tx), i)
  {
    if i < |ids| {
      var k, e := OwnerOf(l, ids, i), l.pending.value;
      assert ViewAt(l, ids, tx, i) && OkAt(l, |ids|, k);
      HeldAt(l, None, ids, i);
      if k < |l.discarded| {
        assert RebuiltAt(l, ids, tx, k, i, |ids|);
      } else {
        assert HomeAt(l, ids, tx, i, |ids|);
        assert OkAt(l, |ids|, |l.discarded|);
        assert MarkFor(e, |ids|, i).AtMost(Size(e));
      }
    }
  }

  lemma WriteRefines(l: Local<Entry>, ids: seq<SubId>, tx: Tx)
    requires Refines(l, ids, tx) && l.pending.Some? && l.pending.value.ledger.rewindTo.None?
    ensures Refines(Held(l, None), ids, Written(tx))
  {
    HeldStructured(l, None, ids);
    HeldHomed(l, None, ids, tx);
    SameCats(Held(l, None), ids, tx, Written(tx));
    forall i: nat ensures ViewAt(Held(l, None), ids, Written(tx), i) { WrittenViewAt(l, ids, tx, i); }
  }

  // --- a rebuild -------------------------------------------------------------------------

  ghost predicate NewFile(tx: Tx, oid: Oid, file: Relfile) {
    oid in tx.cur.cat && forall i: nat :: oid in CatAt(tx, i) ==> CatAt(tx, i)[oid] < file
  }

  function Mine(l: Local<Entry>, oid: Oid): bool { l.pending.Some? && l.pending.value.oid == oid }

  function Forgot(l: Local<Entry>, ids: seq<SubId>, oid: Oid): Local<Entry> { Forget(l, Mine(l, oid), Innermost(ids)) }

  lemma StashWithin(l: Local<Entry>, ids: seq<SubId>)
    requires Structured(l, ids)
    ensures forall k :: 0 <= k < |l.discarded| ==> l.discarded[k].subid <= Innermost(ids)
    ensures forall i :: 0 <= i < |ids| ==> ids[i] <= Innermost(ids)
  {
  }

  /** Setting the pending write aside changes no savepoint's owner. */
  lemma ForgotAt(l: Local<Entry>, ids: seq<SubId>, oid: Oid, i: nat)
    requires Structured(l, ids) && i < |ids|
    ensures OwnerOf(Forgot(l, ids, oid), ids, i) == OwnerOf(l, ids, i)
    ensures OwnerWrite(Forgot(l, ids, oid), ids, i) == OwnerWrite(l, ids, i)
    ensures Mine(l, oid) ==> OwnerOf(l, ids, i) < |Forgot(l, ids, oid).discarded|
  {
    hide Structured;
    StashWithin(l, ids);
    var l', k := Forgot(l, ids, oid), OwnerOf(l, ids, i);
    if Mine(l, oid) && !HasEntry(l.discarded, Innermost(ids)) {
      assert forall j :: 0 <= j < |l.discarded| ==> l'.discarded[j] == l.discarded[j];
      OwnerIs(l'.discarded, ids[i], k);
    } else {
      assert l'.discarded == l.discarded;
    }
  }

  lemma ForgotStructured(l: Local<Entry>, ids: seq<SubId>, oid: Oid)
    requires Structured(l, ids)
    ensures Structured(Forgot(l, ids, oid), ids)
  {
    StashWithin(l, ids);
    var l', n := Forgot(l, ids, oid), |l.discarded|;
    if Mine(l, oid) && !HasEntry(l.discarded, Innermost(ids)) {
      assert forall k :: 0 <= k < n ==> l.discarded[k].subid < Innermost(ids);
    }
    forall k: nat ensures OkAt(l', |ids|, k) { assert OkAt(l, |ids|, k) && OkAt(l, |ids|, n); }
    forall k: nat, i: nat ensures FrozenAt(l', ids, k, i) { assert FrozenAt(l, ids, k, i); }
  }

  lemma ForgotViews(l: Local<Entry>, ids: seq<SubId>, tx: Tx, oid: Oid, file: Relfile)
    requires Structured(l, ids) && Views(l, ids, tx)
    ensures Views(Forgot(l, ids, oid), ids, SpecRebuild(tx, oid, file))
  {
    var l', tx' := Forgot(l, ids, oid), SpecRebuild(tx, oid, file);
    forall i: nat ensures ViewAt(l', ids, tx', i) {
      assert ViewAt(l, ids, tx, i);
      if i < |ids| { ForgotAt(l, ids, oid, i); }
    }
  }

  lemma ForgotHomeAt(l: Local<Entry>, ids: seq<SubId>, tx: Tx, oid: Oid, file: Relfile, i: nat, j: nat)
    requires Structured(l, ids) && Homed(l, ids, tx) && NewFile(tx, oid, file)
    ensures HomeAt(Forgot(l, ids, oid), ids, SpecRebuild(tx, oid, file), i, j)
  {
    if i < j <= |ids| {
      ForgotAt(l, ids, oid, i);
      if j < |ids| { ForgotAt(l, ids, oid, j); }
      assert HomeAt(l, ids, tx, i, j);
    }
  }

  lemma ForgotRebuiltAt(l: Local<Entry>, ids: seq<SubId>, tx: Tx, oid: Oid, file: Relfile, k: nat, i: nat, j: nat)
    requires Structured(l, ids) && Homed(l, ids, tx) && NewFile(tx, oid, file)
    ensures RebuiltAt(Forgot(l, ids, oid), ids, SpecRebuild(tx, oid, file), k, i, j)
  {
    StashWithin(l, ids);
    assert RebuiltAt(l, ids, tx, k, i, j) && MonotoneAt(tx, i, |ids|);
    assert CatAt(tx, |ids|)[oid] < file;
    if i < |ids| { assert oid in CatAt(tx, i) ==> CatAt(tx, i)[oid] < file; }
  }

  lemma ForgotHomed(l: Local<Entry>, ids: seq<SubId>, tx: Tx, oid: Oid, file: Relfile)
    requires Structured(l, ids) && Homed(l, ids, tx) && NewFile(tx, oid, file)
    ensures Homed(Forgot(l, ids, oid), ids, SpecRebuild(tx, oid, file))
  {
    var l', tx' := Forgot(l, ids, oid), SpecRebuild(tx, oid, file);
    assert CatAt(tx, |ids|)[oid] < file;
    forall i: nat, j: nat ensures MonotoneAt(tx', i, j) { assert MonotoneAt(tx, i, j); }
    forall k: nat ensures OidAt(l', tx', k) { assert OidAt(l, tx, k); }
    forall i: nat, j: nat ensures HomeAt(l', ids, tx', i, j) { ForgotHomeAt(l, ids, tx, oid, file, i, j); }
    forall k: nat, i: nat, j: nat
      ensures RebuiltAt(l', ids, tx', k, i, j)
    {
      ForgotRebuiltAt(l, ids, tx, oid, file, k, i, j);
    }
  }

  /** A rebuild hides the staged rows of its index until the savepoints open now decide its fate. */
  lemma RebuildRefines(l: Local<Entry>, ids: seq<SubId>, tx: Tx, oid: Oid, file: Relfile)
    requires Refines(l, ids, tx) && NewFile(tx, oid, file)
    ensures Refines(Forgot(l, ids, oid), ids, SpecRebuild(tx, oid, file))
  {
    ForgotStructured(l, ids, oid);
    ForgotViews(l, ids, tx, oid, file);
    ForgotHomed(l, ids, tx, oid, file);
  }
}
