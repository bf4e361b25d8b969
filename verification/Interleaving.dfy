/** Any number of backends staging, settling, flushing and vacuuming one index, in any order.

    The stored image is a function of the log of flushes and vacuums, whichever
    backends' staged graphs were written directly and whichever were replayed. */
module Interleaving {
  import opened Base
  import opened Images
  import opened Stash
  import opened Pending
  import opened Transactions
  import opened Anchoring
  import opened Steps

  type BackendId = nat

  datatype Commit = Flushed(rows: seq<RankedRow>, vrows: seq<UnrankableRow>) | Removed(gone: set<Tid>)

  datatype System = System(stored: Stored, writes: map<BackendId, PendingWrite>, log: seq<Commit>)

  datatype Action =
    | StageRow(b: BackendId, row: NewRow)
    | SettleTo(b: BackendId, mark: Mark)
    | FlushWrite(b: BackendId)
    | Abandon(b: BackendId)
    | Vacuum(gone: set<Tid>)

  function WithoutWrite(s: System, b: BackendId): System { s.(writes := s.writes - {b}) }

  const INDEX: Oid := 0

  function Next(s: System, a: Action): System {
    match a
    case StageRow(b, row) =>
      var w := if b in s.writes then s.writes[b] else Load(INDEX, s.stored);
      (match Stage(w, row)
       case None => s.(writes := s.writes[b := w])
       case Some(w') => s.(writes := s.writes[b := w']))
    case SettleTo(b, mark) =>
      if b !in s.writes || !mark.AtMost(Count(s.writes[b])) then s
      else if mark == NOTHING then WithoutWrite(s, b)
      else
        (match Rewound(s.writes[b], mark, s.stored)
         case None => WithoutWrite(s, b)
         case Some(w') => s.(writes := s.writes[b := w']))
    case FlushWrite(b) =>
      if b !in s.writes then s else
      var w := s.writes[b];
      (match FlushImage(w, s.stored)
       case None => WithoutWrite(s, b)
       case Some(img) => System(Stored(s.stored.generation + 1, img), s.writes - {b},
            s.log + [Flushed(Ranked(w), Unranked(w))]))
    case Abandon(b) => WithoutWrite(s, b)
    case Vacuum(gone) =>
      var img := Vacuumed(s.stored.image, gone);
      if img == s.stored.image then s.(log := s.log + [Removed(gone)])
      else System(Stored(s.stored.generation + 1, img), s.writes, s.log + [Removed(gone)])
  }

  function RunAll(s: System, acts: seq<Action>): System
    decreases |acts|
  {
    if acts == [] then s else RunAll(Next(s, acts[0]), acts[1..])
  }

  /** What the log says the image must be: each flush a replay onto the image then stored. */
  function Replayed(img: Image, log: seq<Commit>): Option<Image>
    decreases |log|
  {
    if log == [] then Some(img) else
    match Replayed(img, log[..|log| - 1])
    case None => None
    case Some(m) =>
      match log[|log| - 1]
      case Flushed(rows, vrows) => Replay(m, rows, vrows)
      case Removed(gone) => Some(Vacuumed(m, gone))
  }

  ghost predicate ImageOk(img: Image) { Valid(img) && DeadInRange(img) }

  ghost predicate WriteAnchored(s: System, b: BackendId) {
    b in s.writes ==> Shaped(s.writes[b]) && GenOk(s.writes[b], s.stored)
  }

  ghost predicate Consistent(init: Image, s: System) {
    && ImageOk(init) && ImageOk(s.stored.image)
    && Replayed(init, s.log) == Some(s.stored.image)
    && forall b :: WriteAnchored(s, b)
  }

  lemma NextStaged(s: System, a: Action, b: BackendId)
    requires WriteAnchored(s, b) && WriteAnchored(s, if a.Vacuum? then b else a.b) && ImageOk(s.stored.image)
    requires a.StageRow? || a.SettleTo?
    ensures WriteAnchored(Next(s, a), b)
  {
    LoadAnchored(INDEX, s.stored);
    if b == a.b {
      if a.StageRow? {
        var w := if b in s.writes then s.writes[b] else Load(INDEX, s.stored);
        if Stage(w, a.row).Some? {
          StageAppends(w, a.row);
          StageAnchored(w, a.row, s.stored);
        }
      } else if b in s.writes && a.mark.AtMost(Count(s.writes[b])) && a.mark != NOTHING
                && Rewound(s.writes[b], a.mark, s.stored).Some? {
        SurvivorsAnchored(s.writes[b], a.mark, s.stored);
      }
    }
  }

  lemma SurvivorsAnchored(w: PendingWrite, mark: Mark, s: Stored)
    requires Shaped(w) && mark.AtMost(Count(w)) && Valid(s.image) && Rewound(w, mark, s).Some?
    ensures Shaped(Rewound(w, mark, s).value) && GenOk(Rewound(w, mark, s).value, s)
  {
    var clean := w.(ledger := FRESH_LEDGER);
    assert Ranked(clean) == Ranked(w);
    RewoundAnchored(clean, mark, s);
    RewoundKeeps(clean, mark, s);
    var a, b := Rewound(clean, mark, s).value, Rewound(w, mark, s).value;
    assert Ranked(a) == Ranked(b) && Unranked(a) == Unranked(b);
  }

  lemma NextImage(init: Image, s: System, a: Action)
    requires Consistent(init, s)
    ensures ImageOk(Next(s, a).stored.image) && Replayed(init, Next(s, a).log) == Some(Next(s, a).stored.image)
  {
    var s' := Next(s, a);
    match a {
      case FlushWrite(b) =>
        if b in s.writes && FlushImage(s.writes[b], s.stored).Some? {
          var w := s.writes[b];
          assert WriteAnchored(s, b);
          ReplayLive(s.stored.image, Ranked(w), Unranked(w));
          assert s'.log[..|s'.log| - 1] == s.log;
        }
      case Vacuum(gone) =>
        VacuumedLive(s.stored.image, gone, Tid(0, 0));
        assert s'.log[..|s'.log| - 1] == s.log;
      case StageRow(_, _) =>
      case SettleTo(_, _) =>
      case Abandon(_) =>
    }
  }

  lemma NextConsistent(init: Image, s: System, a: Action)
    requires Consistent(init, s)
    ensures Consistent(init, Next(s, a))
  {
    NextImage(init, s, a);
    forall b ensures WriteAnchored(Next(s, a), b) {
      assert WriteAnchored(s, b);
      if a.StageRow? || a.SettleTo? {
        assert WriteAnchored(s, a.b);
        NextStaged(s, a, b);
      }
    }
  }

  /** Under any interleaving the image is the replay of everything flushed, in flush order, on the image vacuum left:
      the same-generation fast path never writes anything else. */
  lemma {:induction false} RunConsistent(init: Image, s: System, acts: seq<Action>)
    requires Consistent(init, s)
    ensures Consistent(init, RunAll(s, acts))
    decreases |acts|
  {
    if acts != [] {
      NextConsistent(init, s, acts[0]);
      RunConsistent(init, Next(s, acts[0]), acts[1..]);
    }
  }

  /** How often the log leaves the image answering for heap row `t`. */
  function Tally(n: nat, log: seq<Commit>, t: Tid): nat {
    if log == [] then n else
    var m := Tally(n, log[..|log| - 1], t);
    match log[|log| - 1]
    case Flushed(rows, vrows) => m + RowTids(rows)[t] + UnrankableTids(vrows)[t]
    case Removed(gone) => if t in gone then 0 else m
  }

  lemma {:induction false} ReplayedTally(img: Image, log: seq<Commit>, t: Tid)
    requires ImageOk(img) && Replayed(img, log).Some?
    ensures ImageOk(Replayed(img, log).value)
    ensures LiveTids(Replayed(img, log).value)[t] == Tally(LiveTids(img)[t], log, t)
    decreases |log|
  {
    if log != [] {
      ReplayedTally(img, log[..|log| - 1], t);
      var m := Replayed(img, log[..|log| - 1]).value;
      match log[|log| - 1] {
        case Flushed(rows, vrows) => ReplayLive(m, rows, vrows);
        case Removed(gone) => VacuumedLive(m, gone, t);
      }
    }
  }

  /** No flushed row is lost or written twice, and a row vacuum removed comes back only by being flushed again. */
  lemma RowsCountedByLog(init: Image, s: System, acts: seq<Action>, t: Tid)
    requires Consistent(init, s)
    ensures LiveTids(RunAll(s, acts).stored.image)[t] == Tally(LiveTids(init)[t], RunAll(s, acts).log, t)
  {
    RunConsistent(init, s, acts);
    ReplayedTally(init, RunAll(s, acts).log, t);
  }

  /** Node ids, their rows and their tombstones only ever extend. */
  ghost predicate Extends(a: Image, b: Image) {
    && |a.tids| <= |b.tids| && b.tids[..|a.tids|] == a.tids
    && |Nodes(a.graph)| <= |Nodes(b.graph)| && Nodes(b.graph)[..|Nodes(a.graph)|] == Nodes(a.graph)
    && Dead(a.graph) <= Dead(b.graph)
  }

  lemma NextExtends(init: Image, s: System, a: Action)
    requires Consistent(init, s)
    ensures Extends(s.stored.image, Next(s, a).stored.image)
  {
    match a {
      case FlushWrite(b) =>
        if b in s.writes && FlushImage(s.writes[b], s.stored).Some? {
          assert WriteAnchored(s, b);
          ReplayRowsExtends(s.stored.image, Ranked(s.writes[b]));
        }
      case Vacuum(gone) => TombstoneGoneDead(s.stored.image.graph, s.stored.image.tids, gone, |s.stored.image.tids|);
      case StageRow(_, _) =>
      case SettleTo(_, _) =>
      case Abandon(_) =>
    }
  }

  /** A tombstone, once stored, is in every later image, on the same node with the same heap address. */
  lemma {:induction false} TombstonesStay(init: Image, s: System, acts: seq<Action>)
    requires Consistent(init, s)
    ensures Extends(s.stored.image, RunAll(s, acts).stored.image)
    decreases |acts|
  {
    if acts != [] {
      var u := Next(s, acts[0]);
      NextExtends(init, s, acts[0]);
      NextConsistent(init, s, acts[0]);
      TombstonesStay(init, u, acts[1..]);
      var a, b, c := s.stored.image, u.stored.image, RunAll(s, acts).stored.image;
      assert c.tids[..|a.tids|] == c.tids[..|b.tids|][..|a.tids|];
      assert Nodes(c.graph)[..|Nodes(a.graph)|] == Nodes(c.graph)[..|Nodes(b.graph)|][..|Nodes(a.graph)|];
    }
  }
}
