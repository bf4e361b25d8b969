/** Savepoint bookkeeping: marks, the lazy rewind, and the stash of writes a rebuild set aside.

    Generic in the write `W`, so that the same steps run on the write a backend holds and on
    the rows it stands for. */
module Stash {
  import opened Base

  type Oid = nat
  type SubId = nat

  /** The top-level transaction's own subtransaction id. */
  const TOP: SubId := 1

  /** Counts of staged graph rows and staged vectorless rows. */
  datatype Mark = Mark(rows: nat, vrows: nat) {
    predicate AtMost(o: Mark) { rows <= o.rows && vrows <= o.vrows }
    function Meet(o: Mark): Mark { Mark(Min(rows, o.rows), Min(vrows, o.vrows)) }
  }

  const NOTHING := Mark(0, 0)

  datatype SubEvent = StartSub | CommitSub | AbortSub

  /** One write's savepoint bookkeeping. */
  datatype Ledger = Ledger(marks: seq<Mark>, rewindTo: Option<Mark>)

  const FRESH_LEDGER := Ledger([], None)

  /** What is staged once an outstanding rewind is carried out. */
  function Effective(g: Ledger, staged: Mark): Mark {
    match g.rewindTo case None => staged case Some(m) => m
  }

  function TopMark(g: Ledger): Mark { if g.marks == [] then NOTHING else g.marks[|g.marks| - 1] }

  function Popped(g: Ledger): Ledger { if g.marks == [] then g else g.(marks := g.marks[..|g.marks| - 1]) }

  function LedgerEvent(g: Ledger, staged: Mark, ev: SubEvent): Ledger {
    match ev
    case StartSub => g.(marks := g.marks + [Effective(g, staged).Meet(staged)])
    case CommitSub => Popped(g)
    case AbortSub =>
      var mark := TopMark(g);
      if mark.rows < staged.rows || mark.vrows < staged.vrows then
        var prior := match g.rewindTo case None => mark case Some(m) => m;
        Popped(g).(rewindTo := Some(prior.Meet(mark)))
      else Popped(g)
  }

  /** Marks are nondecreasing and bounded by what is effectively staged. */
  predicate Sane(g: Ledger, staged: Mark) {
    && Effective(g, staged).AtMost(staged)
    && (forall i :: 0 <= i < |g.marks| ==> g.marks[i].AtMost(Effective(g, staged)))
    && (forall i, j :: 0 <= i < j < |g.marks| ==> g.marks[i].AtMost(g.marks[j]))
  }

  /** An abort leaves staged exactly what the popped mark recorded; the other events leave it alone. */
  lemma LedgerEventSane(g: Ledger, staged: Mark, ev: SubEvent)
    requires Sane(g, staged)
    ensures Sane(LedgerEvent(g, staged, ev), staged)
    ensures Effective(LedgerEvent(g, staged, ev), staged) == if ev == AbortSub then TopMark(g) else Effective(g, staged)
  {
  }

  // --- the stash -----------------------------------------------------------------

  datatype SetAside<W> = SetAside(subid: SubId, write: W)

  datatype Local<W> = Local(pending: Option<W>, discarded: seq<SetAside<W>>)

  /** First entry set aside by subtransaction `my`, or |stash|. */
  function FirstOf<W>(stash: seq<SetAside<W>>, my: SubId): (k: nat)
    ensures k <= |stash|
    ensures k < |stash| ==> stash[k].subid == my
    ensures forall i :: 0 <= i < k ==> stash[i].subid != my
  {
    if stash == [] then 0 else
    var k := FirstOf(stash[..|stash| - 1], my);
    assert forall i :: 0 <= i < |stash| - 1 ==> stash[..|stash| - 1][i] == stash[i];
    if k < |stash| - 1 then k else if stash[|stash| - 1].subid == my then |stash| - 1 else |stash|
  }

  function Without<W>(stash: seq<SetAside<W>>, my: SubId): seq<SetAside<W>> {
    if stash == [] then [] else
    Without(stash[..|stash| - 1], my)
    + (if stash[|stash| - 1].subid == my then [] else [stash[|stash| - 1]])
  }

  function Reparent<W>(stash: seq<SetAside<W>>, my: SubId, parent: SubId): (r: seq<SetAside<W>>)
    ensures |r| == |stash|
    ensures forall i :: 0 <= i < |r| ==>
      r[i] == SetAside(if stash[i].subid == my then parent else stash[i].subid, stash[i].write)
  {
    if stash == [] then [] else
    var e := stash[|stash| - 1];
    Reparent(stash[..|stash| - 1], my, parent) + [SetAside(if e.subid == my then parent else e.subid, e.write)]
  }

  function MapStash<W, V>(stash: seq<SetAside<W>>, f: W -> V): (r: seq<SetAside<V>>)
    ensures |r| == |stash|
    ensures forall i :: 0 <= i < |r| ==> r[i] == SetAside(stash[i].subid, f(stash[i].write))
  {
    if stash == [] then [] else
    MapStash(stash[..|stash| - 1], f) + [SetAside(stash[|stash| - 1].subid, f(stash[|stash| - 1].write))]
  }

  predicate HasEntry<W>(stash: seq<SetAside<W>>, s: SubId) { FirstOf(stash, s) < |stash| }

  /** The stash half of the subtransaction callback. */
  function MoveStash<W>(l: Local<W>, ev: SubEvent, my: SubId, parent: SubId): Local<W> {
    match ev
    case AbortSub =>
      var at := FirstOf(l.discarded, my);
      Local(if at < |l.discarded| then Some(l.discarded[at].write) else l.pending, Without(l.discarded, my))
    case CommitSub =>
      l.(discarded := if HasEntry(l.discarded, parent) then Without(l.discarded, my)
                      else Reparent(l.discarded, my, parent))
    case StartSub => l
  }

  function MapLocal<W, V>(l: Local<W>, f: W -> V): Local<V> {
    Local(if l.pending.None? then None else Some(f(l.pending.value)), MapStash(l.discarded, f))
  }

  /** forget_pending: a rebuild inside `subid` supersedes the staged write of its own index. */
  function Forget<W>(l: Local<W>, mine: bool, subid: SubId): Local<W> {
    if l.pending.None? || !mine then l
    else if HasEntry(l.discarded, subid) then l.(pending := None)
    else Local(None, l.discarded + [SetAside(subid, l.pending.value)])
  }

  // --- what the stash steps do, entry by entry ---------------------------------------

  /** Entries in strictly increasing subtransaction order: at most one a subtransaction, outermost first. */
  predicate Ordered<W>(stash: seq<SetAside<W>>) {
    forall a, b :: 0 <= a < b < |stash| ==> stash[a].subid < stash[b].subid
  }

  lemma {:induction false} WithoutAbsent<W>(stash: seq<SetAside<W>>, my: SubId)
    requires forall k :: 0 <= k < |stash| ==> stash[k].subid != my
    ensures Without(stash, my) == stash
  {
    if stash != [] {
      assert stash == stash[..|stash| - 1] + [stash[|stash| - 1]];
      WithoutAbsent(stash[..|stash| - 1], my);
    }
  }

  /** Whether the innermost subtransaction `my` owns an entry; in an ordered stash that can only be the last. */
  predicate OwnsLast<W>(stash: seq<SetAside<W>>, my: SubId) {
    stash != [] && stash[|stash| - 1].subid == my
  }

  /** The stash without that entry. */
  function Rest<W>(stash: seq<SetAside<W>>, my: SubId): seq<SetAside<W>> {
    if OwnsLast(stash, my) then stash[..|stash| - 1] else stash
  }

  ghost predicate Bounded<W>(stash: seq<SetAside<W>>, my: SubId, parent: SubId) {
    && Ordered(stash) && parent < my
    && forall k :: 0 <= k < |stash| ==> stash[k].subid <= parent || stash[k].subid == my
  }

  lemma RestBelow<W>(stash: seq<SetAside<W>>, my: SubId, parent: SubId)
    requires Bounded(stash, my, parent)
    ensures forall k :: 0 <= k < |Rest(stash, my)| ==> stash[k].subid <= parent
  {
  }

  lemma MoveStashAbort<W>(l: Local<W>, my: SubId, parent: SubId)
    requires Bounded(l.discarded, my, parent)
    ensures MoveStash(l, AbortSub, my, parent) ==
            Local(if OwnsLast(l.discarded, my) then Some(l.discarded[|l.discarded| - 1].write) else l.pending,
                  Rest(l.discarded, my))
  {
    RestBelow(l.discarded, my, parent);
    WithoutAbsent(Rest(l.discarded, my), my);
    assert FirstOf(l.discarded, my) == |Rest(l.discarded, my)|;
  }

  lemma MoveStashCommit<W>(l: Local<W>, my: SubId, parent: SubId)
    requires Bounded(l.discarded, my, parent)
    ensures var rest := Rest(l.discarded, my);
            MoveStash(l, CommitSub, my, parent) ==
            l.(discarded := if OwnsLast(l.discarded, my) && !OwnsLast(rest, parent)
                            then rest + [SetAside(parent, l.discarded[|l.discarded| - 1].write)] else rest)
  {
    var rest := Rest(l.discarded, my);
    RestBelow(l.discarded, my, parent);
    WithoutAbsent(rest, my);
    if OwnsLast(rest, parent) {
      assert FirstOf(l.discarded, parent) < |l.discarded|;
    } else {
      assert forall k :: 0 <= k < |rest| ==> rest[k].subid < parent;
      assert FirstOf(l.discarded, parent) == |l.discarded|;
      ReparentLast(l.discarded, my, parent);
    }
  }

  lemma ReparentLast<W>(stash: seq<SetAside<W>>, my: SubId, parent: SubId)
    requires Bounded(stash, my, parent)
    ensures Reparent(stash, my, parent) ==
            if OwnsLast(stash, my) then Rest(stash, my) + [SetAside(parent, stash[|stash| - 1].write)] else stash
  {
    RestBelow(stash, my, parent);
  }

  // --- which write an open subtransaction's abort brings back -----------------------

  function Innermost(ids: seq<SubId>): SubId { if ids == [] then TOP else ids[|ids| - 1] }

  /** First entry set aside at or inside subtransaction `s`; |stash| stands for the pending write. */
  function Owner<W>(stash: seq<SetAside<W>>, s: SubId): (k: nat)
    ensures k <= |stash|
    ensures k < |stash| ==> stash[k].subid >= s
    ensures forall i :: 0 <= i < k ==> stash[i].subid < s
  {
    if stash == [] then 0 else
    var k := Owner(stash[..|stash| - 1], s);
    assert forall i :: 0 <= i < |stash| - 1 ==> stash[..|stash| - 1][i] == stash[i];
    if k < |stash| - 1 then k else if stash[|stash| - 1].subid >= s then |stash| - 1 else |stash|
  }

  function WriteAt<W>(l: Local<W>, k: nat): Option<W> {
    if k < |l.discarded| then Some(l.discarded[k].write) else l.pending
  }

  /** Which write answers for position `i` of the stack; |ids| is the running subtransaction. */
  function OwnerOf<W>(l: Local<W>, ids: seq<SubId>, i: nat): nat {
    if i < |ids| then Owner(l.discarded, ids[i]) else |l.discarded|
  }

  function OwnerWrite<W>(l: Local<W>, ids: seq<SubId>, i: nat): Option<W> { WriteAt(l, OwnerOf(l, ids, i)) }

  predicate IdsOk(ids: seq<SubId>) {
    && (forall i :: 0 <= i < |ids| ==> ids[i] > TOP)
    && forall i, j :: 0 <= i < j < |ids| ==> ids[i] < ids[j]
  }

  /** Every entry belongs to a subtransaction still open. */
  predicate LiveStash<W>(l: Local<W>, ids: seq<SubId>) {
    forall k :: 0 <= k < |l.discarded| ==> l.discarded[k].subid == TOP || l.discarded[k].subid in ids
  }

  lemma OwnerIs<W>(stash: seq<SetAside<W>>, s: SubId, k: nat)
    requires k <= |stash| && (k < |stash| ==> stash[k].subid >= s) && forall i :: 0 <= i < k ==> stash[i].subid < s
    ensures Owner(stash, s) == k
  {
  }

  ghost predicate StashOk<W>(l: Local<W>, ids: seq<SubId>) { IdsOk(ids) && Ordered(l.discarded) && LiveStash(l, ids) }

  // --- closing the innermost subtransaction --------------------------------------------

  function Parent(ids: seq<SubId>): SubId
    requires ids != []
  { Innermost(ids[..|ids| - 1]) }

  function Moved<W>(l: Local<W>, ids: seq<SubId>, ev: SubEvent): Local<W>
    requires ids != []
  {
    MoveStash(l, ev, Innermost(ids), Parent(ids))
  }

  lemma CloseBounded<W>(l: Local<W>, ids: seq<SubId>)
    requires StashOk(l, ids) && ids != []
    ensures Bounded(l.discarded, Innermost(ids), Parent(ids))
    ensures forall i :: 0 <= i < |ids| - 1 ==> ids[i] <= Parent(ids) < Innermost(ids)
  {
    if |ids| > 1 { assert ids[|ids| - 2] < ids[|ids| - 1]; }
  }

  /** What the stash becomes, spelled out for either way of closing. */
  lemma MovedIs<W>(l: Local<W>, ids: seq<SubId>, ev: SubEvent)
    requires StashOk(l, ids) && ids != [] && ev != StartSub
    ensures var my, parent, n := Innermost(ids), Parent(ids), |l.discarded|;
            var own, rest := OwnsLast(l.discarded, my), Rest(l.discarded, my);
            Moved(l, ids, ev) ==
              if ev == AbortSub then Local(if own then Some(l.discarded[n - 1].write) else l.pending, rest)
              else if own && !OwnsLast(rest, parent)
              then Local(l.pending, rest + [SetAside(parent, l.discarded[n - 1].write)])
              else Local(l.pending, rest)
    ensures Bounded(l.discarded, Innermost(ids), Parent(ids))
    ensures forall k :: 0 <= k < |Rest(l.discarded, Innermost(ids))| ==> l.discarded[k].subid <= Parent(ids)
  {
    CloseBounded(l, ids);
    RestBelow(l.discarded, Innermost(ids), Parent(ids));
    MoveStashAbort(l, Innermost(ids), Parent(ids));
    MoveStashCommit(l, Innermost(ids), Parent(ids));
  }

  /** Closing the innermost subtransaction leaves every outer one with the write it had. */
  lemma MovedOwner<W>(l: Local<W>, ids: seq<SubId>, ev: SubEvent, i: nat)
    requires StashOk(l, ids) && ids != [] && ev != StartSub && i < |ids| - 1
    ensures var m := Moved(l, ids, ev);
            && Owner(m.discarded, ids[i]) == Owner(l.discarded, ids[i])
            && WriteAt(m, Owner(l.discarded, ids[i])) == WriteAt(l, Owner(l.discarded, ids[i]))
  {
    MovedIs(l, ids, ev);
    CloseBounded(l, ids);
    var m, k, n := Moved(l, ids, ev), Owner(l.discarded, ids[i]), |l.discarded|;
    assert forall j :: 0 <= j < k && j < |m.discarded| ==> m.discarded[j] == l.discarded[j];
    OwnerIs(m.discarded, ids[i], k);
  }

  /** An abort makes pending the write that answers for the subtransaction rolled back. */
  lemma MovedAbort<W>(l: Local<W>, ids: seq<SubId>)
    requires StashOk(l, ids) && ids != []
    ensures var m, k := Moved(l, ids, AbortSub), OwnerOf(l, ids, |ids| - 1);
            m.pending == WriteAt(l, k) && |m.discarded| == k
  {
    MovedIs(l, ids, AbortSub);
    var n := |l.discarded|;
    OwnerIs(l.discarded, Innermost(ids), if OwnsLast(l.discarded, Innermost(ids)) then n - 1 else n);
  }

  /** Every write left is one that was there, under its own subtransaction or its parent's. */
  lemma MovedFrom<W>(l: Local<W>, ids: seq<SubId>, ev: SubEvent, k: nat) returns (k0: nat)
    requires StashOk(l, ids) && ids != [] && ev != StartSub && k <= |Moved(l, ids, ev).discarded|
    ensures k0 <= |l.discarded| && WriteAt(l, k0) == WriteAt(Moved(l, ids, ev), k)
    ensures k < |Moved(l, ids, ev).discarded| ==>
            var a, b := Moved(l, ids, ev).discarded[k].subid, l.discarded;
            k0 < |b| && (b[k0].subid == a <= Parent(ids)
                || (ev == CommitSub && b[k0].subid == Innermost(ids) && a == Parent(ids)))
    ensures k < |Moved(l, ids, CommitSub).discarded| && ev == CommitSub ==> k0 == k
  {
    MovedIs(l, ids, ev);
    if k < |Rest(l.discarded, Innermost(ids))| {
      k0 := k;
    } else if ev == AbortSub && OwnsLast(l.discarded, Innermost(ids)) {
      k0 := |l.discarded| - 1;
    } else if k < |Moved(l, ids, ev).discarded| {
      k0 := |l.discarded| - 1;
    } else {
      k0 := |l.discarded|;
    }
  }

  lemma MovedStash<W>(l: Local<W>, ids: seq<SubId>, ev: SubEvent)
    requires StashOk(l, ids) && ids != [] && ev != StartSub
    ensures Ordered(Moved(l, ids, ev).discarded) && LiveStash(Moved(l, ids, ev), ids[..|ids| - 1])
  {
    hide Moved;
    MovedIs(l, ids, ev);
    CloseBounded(l, ids);
    var m, outer := Moved(l, ids, ev), ids[..|ids| - 1];
    forall k | 0 <= k < |m.discarded| ensures m.discarded[k].subid == TOP || m.discarded[k].subid in outer {
      var k0 := MovedFrom(l, ids, ev, k);
      var s := m.discarded[k].subid;
      if s != TOP && s != Parent(ids) {
        var i :| 0 <= i < |ids| && ids[i] == s;
        assert outer[i] == s;
      }
    }
  }

  // --- steps commute with changing what a write is ---------------------------------------

  /** Mapping every write moves none of them. */
  lemma MapAt<W, V>(l: Local<W>, f: W -> V, k: nat)
    ensures var l' := MapLocal(l, f);
            && |l'.discarded| == |l.discarded|
            && (k < |l.discarded| ==> l'.discarded[k].subid == l.discarded[k].subid)
            && WriteAt(l', k) == match WriteAt(l, k) case None => None case Some(e) => Some(f(e))
  {
  }

  lemma MapOwner<W, V>(l: Local<W>, f: W -> V, s: SubId)
    ensures Owner(MapLocal(l, f).discarded, s) == Owner(l.discarded, s)
  {
    OwnerIs(MapLocal(l, f).discarded, s, Owner(l.discarded, s));
  }

  lemma {:induction false} FirstOfMap<W, V>(stash: seq<SetAside<W>>, f: W -> V, s: SubId)
    ensures FirstOf(MapStash(stash, f), s) == FirstOf(stash, s)
  {
    if stash != [] {
      FirstOfMap(stash[..|stash| - 1], f, s);
      assert MapStash(stash, f)[..|stash| - 1] == MapStash(stash[..|stash| - 1], f);
    }
  }

  lemma {:induction false} WithoutMap<W, V>(stash: seq<SetAside<W>>, f: W -> V, s: SubId)
    ensures Without(MapStash(stash, f), s) == MapStash(Without(stash, s), f)
  {
    if stash != [] {
      WithoutMap(stash[..|stash| - 1], f, s);
      assert MapStash(stash, f)[..|stash| - 1] == MapStash(stash[..|stash| - 1], f);
      if stash[|stash| - 1].subid == s {
        assert Without(stash, s) == Without(stash[..|stash| - 1], s);
      } else {
        assert Without(stash, s)[..|Without(stash, s)| - 1] == Without(stash[..|stash| - 1], s);
      }
    }
  }

  lemma ReparentMap<W, V>(stash: seq<SetAside<W>>, f: W -> V, my: SubId, parent: SubId)
    ensures Reparent(MapStash(stash, f), my, parent) == MapStash(Reparent(stash, my, parent), f)
  {
  }

  /** Moving the stash never looks inside a write. */
  lemma MoveStashMap<W, V>(l: Local<W>, f: W -> V, ev: SubEvent, my: SubId, parent: SubId)
    ensures MoveStash(MapLocal(l, f), ev, my, parent) == MapLocal(MoveStash(l, ev, my, parent), f)
  {
    hide FirstOf, Without, Reparent, MapStash;
    match ev {
      case AbortSub =>
        FirstOfMap(l.discarded, f, my);
        WithoutMap(l.discarded, f, my);
      case CommitSub =>
        FirstOfMap(l.discarded, f, parent);
        WithoutMap(l.discarded, f, my);
        ReparentMap(l.discarded, f, my, parent);
      case StartSub =>
    }
  }
}
