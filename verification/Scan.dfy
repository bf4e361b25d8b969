/** Translating a scan's keys, and the unordered scan that must agree with a sequential one. */
module Scan {
  import opened Base
  import opened Filter
  import opened Images

  datatype TypeOid = Bool | Int2 | Int4 | Int8 | Float4 | Float8 | Other(oid: nat)

  /** An argument's bytes: what reading them as an integer or as a float gives. */
  datatype Datum = Datum(asInt: i64, asFloat: u64)

  datatype ScanKey = ScanKey(
    isNull: bool, rowHeader: bool, searchArray: bool,
    attno: nat, strategy: nat, subtype: Option<TypeOid>, argument: Datum)

  /** The filterable columns' declared types; the vector is column 1 and not among them. */
  type Columns = seq<TypeOid>

  predicate Integral(t: TypeOid) { t.Bool? || t.Int2? || t.Int4? || t.Int8? }

  predicate Floating(t: TypeOid) { t.Float4? || t.Float8? }

  function ValueFromDatum(t: TypeOid, d: Datum): Option<AttrValue> {
    if Integral(t) then Some(Int(d.asInt)) else if Floating(t) then Some(Float(d.asFloat)) else None
  }

  predicate SameFamily(a: TypeOid, b: TypeOid) {
    (Integral(a) && Integral(b)) || (Floating(a) && Floating(b))
  }

  function ArgType(cols: Columns, k: ScanKey): TypeOid
    requires 2 <= k.attno < |cols| + 2
  {
    match k.subtype case None => cols[k.attno - 2] case Some(t) => t
  }

  function AtomFromKey(cols: Columns, k: ScanKey): Option<Atom> {
    if k.isNull || k.rowHeader || k.searchArray then None
    else if k.attno < 2 || k.attno - 2 >= |cols| then None
    else
      var col := k.attno - 2;
      match ValueFromDatum(ArgType(cols, k), k.argument)
      case None => None
      case Some(value) =>
        if !SameFamily(cols[col], ArgType(cols, k)) then None else AtomFor(col, k.strategy, value)
  }

  datatype PushedPredicate = PushedPredicate(pred: Predicate, recheck: bool)

  /** The atoms of the keys that have one, in key order. */
  function Atoms(cols: Columns, keys: seq<ScanKey>): seq<Atom> {
    if keys == [] then [] else
    var a := AtomFromKey(cols, keys[|keys| - 1]);
    Atoms(cols, keys[..|keys| - 1]) + (if a.Some? then [a.value] else [])
  }

  method PredicateFromKeys(cols: Columns, keys: seq<ScanKey>) returns (p: PushedPredicate)
    ensures p.recheck <==> exists i :: 0 <= i < |keys| && AtomFromKey(cols, keys[i]).None?
    ensures forall row :: Matches(p.pred, row) <==>
              forall i :: 0 <= i < |keys| && AtomFromKey(cols, keys[i]).Some? ==>
                AtomMatches(AtomFromKey(cols, keys[i]).value, row)
  {
    var atoms, recheck, n := [], false, 0;
    while n < |keys|
      invariant 0 <= n <= |keys|
      invariant atoms == Atoms(cols, keys[..n])
      invariant recheck <==> exists i :: 0 <= i < n && AtomFromKey(cols, keys[i]).None?
    {
      assert keys[..n + 1][..n] == keys[..n];
      var a := AtomFromKey(cols, keys[n]);
      if a.Some? { atoms := atoms + [a.value]; } else { recheck := true; }
      n := n + 1;
    }
    assert keys[..n] == keys;
    p := PushedPredicate(if atoms == [] then All else And(atoms), recheck);
    forall row
      ensures Matches(p.pred, row) <==>
              forall i :: 0 <= i < |keys| && AtomFromKey(cols, keys[i]).Some? ==>
                AtomMatches(AtomFromKey(cols, keys[i]).value, row)
    {
      AtomsMatch(cols, keys, row);
    }
  }

  lemma {:induction false} AtomsMatch(cols: Columns, keys: seq<ScanKey>, row: Attrs)
    ensures Matches(And(Atoms(cols, keys)), row) <==>
            forall i :: 0 <= i < |keys| && AtomFromKey(cols, keys[i]).Some? ==>
              AtomMatches(AtomFromKey(cols, keys[i]).value, row)
  {
    if keys != [] {
      var init := keys[..|keys| - 1];
      AtomsMatch(cols, init, row);
      var a := AtomFromKey(cols, keys[|keys| - 1]);
      var s, t := Atoms(cols, init), Atoms(cols, keys);
      assert t[..|s|] == s;
      assert forall i :: 0 <= i < |s| ==> t[i] == s[i];
      assert forall i :: 0 <= i < |init| ==> init[i] == keys[i];
      if a.Some? { assert t[|s|] == a.value; }
    }
  }

  // --- what the query means -------------------------------------------------------

  /** A key this access method can express: a plain comparison within one family. */
  predicate Plain(cols: Columns, k: ScanKey) {
    && !k.isNull && !k.rowHeader && !k.searchArray
    && 2 <= k.attno < |cols| + 2
    && SameFamily(cols[k.attno - 2], ArgType(cols, k))
    && LT <= k.strategy <= GT
  }

  /** The truth of a key on a row; any meaning will do for the keys that are not plain comparisons. */
  type Meaning = (ScanKey, Attrs) -> bool

  ghost predicate MeansSql(cols: Columns, truth: Meaning) {
    forall k, row :: Plain(cols, k) && |row| == |cols| ==>
      (truth(k, row) <==>
       SqlTrue(row[k.attno - 2], k.strategy,
               if Integral(ArgType(cols, k)) then Int(k.argument.asInt) else Float(k.argument.asFloat)))
  }

  /** A key is pushed exactly when it is a plain comparison, and then as just that comparison. */
  lemma PushedIffPlain(cols: Columns, k: ScanKey, truth: Meaning, row: Attrs)
    requires MeansSql(cols, truth) && |row| == |cols|
    ensures AtomFromKey(cols, k).Some? <==> Plain(cols, k)
    ensures Plain(cols, k) ==> (AtomMatches(AtomFromKey(cols, k).value, row) <==> truth(k, row))
  {
    if Plain(cols, k) {
      var value := ValueFromDatum(ArgType(cols, k), k.argument).value;
      AtomIsComparison(k.attno - 2, k.strategy, value, row);
    }
  }

  predicate Qualifies(keys: seq<ScanKey>, truth: Meaning, row: Attrs) {
    forall i :: 0 <= i < |keys| ==> truth(keys[i], row)
  }

  function Wanted(keys: seq<ScanKey>, truth: Meaning): Attrs -> bool { row => Qualifies(keys, truth, row) }

  // --- the scan -----------------------------------------------------------------------

  /** One row an index answers for. */
  datatype Entry = Entry(tid: Tid, attrs: Attrs)

  /** Live nodes among the first `n`, in insertion order. */
  function LiveNodes(img: Image, n: nat): seq<Entry>
    requires n <= |img.tids| && Valid(img)
  {
    if n == 0 then [] else
    LiveNodes(img, n - 1)
    + (if n - 1 in Dead(img.graph) then [] else [Entry(img.tids[n - 1], Nodes(img.graph)[n - 1].attrs)])
  }

  function VectorlessEntries(rows: seq<UnrankableRow>): seq<Entry> {
    if rows == [] then [] else
    VectorlessEntries(rows[..|rows| - 1]) + [Entry(rows[|rows| - 1].tid, rows[|rows| - 1].attrs)]
  }

  /** Every row the index covers: live graph nodes, then the vectorless rows. */
  function Covered(img: Image): seq<Entry>
    requires Valid(img)
  {
    LiveNodes(img, |img.tids|) + VectorlessEntries(img.unrankable)
  }

  /** The TIDs of the entries whose attributes satisfy `f`, in order. */
  function Kept(es: seq<Entry>, f: Attrs -> bool): seq<Tid> {
    if es == [] then [] else
    Kept(es[..|es| - 1], f) + (if f(es[|es| - 1].attrs) then [es[|es| - 1].tid] else [])
  }

  lemma {:induction false} KeptAppend(a: seq<Entry>, b: seq<Entry>, f: Attrs -> bool)
    ensures Kept(a + b, f) == Kept(a, f) + Kept(b, f)
  {
    if b == [] {
      assert a + b == a;
    } else {
      assert (a + b)[..|a + b| - 1] == a + b[..|b| - 1];
      KeptAppend(a, b[..|b| - 1], f);
    }
  }

  function Keeps(p: Predicate): Attrs -> bool { row => Matches(p, row) }

  lemma KeptNext(es: seq<Entry>, e: Entry, f: Attrs -> bool)
    ensures Kept(es + [e], f) == Kept(es, f) + (if f(e.attrs) then [e.tid] else [])
  {
    assert (es + [e])[..|es + [e]| - 1] == es;
  }

  class ScanSearch {
    var results: seq<Tid>
    var cursor: nat
    var recheck: bool

    constructor ()
      ensures results == [] && cursor == 0 && !recheck
    {
      results := [];
      cursor := 0;
      recheck := false;
    }

    /** Hnsw::matching, resolved through the TID table. */
    static method MatchNodes(img: Image, p: Predicate) returns (tids: seq<Tid>)
      requires Valid(img)
      ensures tids == Kept(LiveNodes(img, |img.tids|), Keeps(p))
    {
      hide Matches, Dead, Nodes;
      tids := [];
      var id := 0;
      while id < |img.tids|
        invariant 0 <= id <= |img.tids|
        invariant tids == Kept(LiveNodes(img, id), Keeps(p))
      {
        var attrs := Nodes(img.graph)[id].attrs;
        KeptNext(LiveNodes(img, id), Entry(img.tids[id], attrs), Keeps(p));
        assert LiveNodes(img, id) + [] == LiveNodes(img, id);
        if id !in Dead(img.graph) && Matches(p, attrs) {
          tids := tids + [img.tids[id]];
        }
        id := id + 1;
      }
    }

    static method MatchVectorless(rows: seq<UnrankableRow>, p: Predicate) returns (tids: seq<Tid>)
      ensures tids == Kept(VectorlessEntries(rows), Keeps(p))
    {
      tids := [];
      var k := 0;
      while k < |rows|
        invariant 0 <= k <= |rows|
        invariant tids == Kept(VectorlessEntries(rows[..k]), Keeps(p))
      {
        assert rows[..k + 1][..k] == rows[..k];
        KeptNext(VectorlessEntries(rows[..k]), Entry(rows[k].tid, rows[k].attrs), Keeps(p));
        if Matches(p, rows[k].attrs) { tids := tids + [rows[k].tid]; }
        k := k + 1;
      }
      assert rows[..k] == rows;
    }

    /** start_unordered on the image the scan's handle holds: every matching row, no ranking. */
    method StartUnordered(img: Image, pushed: PushedPredicate)
      requires Valid(img)
      modifies this
      ensures results == Kept(Covered(img), Keeps(pushed.pred))
      ensures cursor == 0 && recheck == pushed.recheck
    {
      recheck := pushed.recheck;
      cursor := 0;
      var nodes := MatchNodes(img, pushed.pred);
      var rest := MatchVectorless(img.unrankable, pushed.pred);
      KeptAppend(LiveNodes(img, |img.tids|), VectorlessEntries(img.unrankable), Keeps(pushed.pred));
      results := nodes + rest;
    }

    /** The next TID, or None once the results are spent. */
    method Next() returns (tid: Option<Tid>)
      modifies this`cursor
      ensures if old(cursor) < |results| then tid == Some(results[old(cursor)]) && cursor == old(cursor) + 1
              else tid == None && cursor == old(cursor)
    {
      if cursor < |results| {
        tid := Some(results[cursor]);
        cursor := cursor + 1;
      } else {
        tid := None;
      }
    }
  }

  // --- what the query gets ------------------------------------------------------------

  /** The executor's side: a row the heap no longer has is dropped, and with the recheck flag set each other is
      tried. */
  function Returned(tids: seq<Tid>, recheck: bool, heap: map<Tid, Attrs>, f: Attrs -> bool): seq<Tid> {
    if tids == [] then [] else
    var t := tids[|tids| - 1];
    Returned(tids[..|tids| - 1], recheck, heap, f)
    + (if t in heap && (!recheck || f(heap[t])) then [t] else [])
  }

  /** The attributes stored beside an entry whose row is still in the heap are that row's. */
  ghost predicate Faithful(es: seq<Entry>, heap: map<Tid, Attrs>, cols: Columns) {
    forall i :: 0 <= i < |es| && es[i].tid in heap ==> heap[es[i].tid] == es[i].attrs && |es[i].attrs| == |cols|
  }

  /** The entries whose rows are still there. */
  function Present(es: seq<Entry>, heap: map<Tid, Attrs>): seq<Entry> {
    if es == [] then [] else
    Present(es[..|es| - 1], heap) + (if es[|es| - 1].tid in heap then [es[|es| - 1]] else [])
  }

  /** Narrowing what is wanted down to what is pushed loses nothing, and the recheck undoes whatever it adds. */
  ghost predicate Narrows(cols: Columns, recheck: bool, pushed: Attrs -> bool, wanted: Attrs -> bool) {
    && (forall row :: |row| == |cols| && wanted(row) ==> pushed(row))
    && (!recheck ==> forall row :: |row| == |cols| && pushed(row) ==> wanted(row))
  }

  lemma {:induction false} RecheckKeeps(es: seq<Entry>, heap: map<Tid, Attrs>, cols: Columns,
                                        recheck: bool, pushed: Attrs -> bool, wanted: Attrs -> bool)
    requires Faithful(es, heap, cols) && Narrows(cols, recheck, pushed, wanted)
    ensures Returned(Kept(es, pushed), recheck, heap, wanted) == Kept(Present(es, heap), wanted)
  {
    if es != [] {
      var e, init := es[|es| - 1], es[..|es| - 1];
      RecheckKeeps(init, heap, cols, recheck, pushed, wanted);
      assert e.tid in heap ==> heap[e.tid] == e.attrs && |e.attrs| == |cols|;
      ReturnedNext(Kept(init, pushed), e.tid, recheck, heap, wanted);
      KeptNext(Present(init, heap), e, wanted);
      assert Kept(init, pushed) + [] == Kept(init, pushed) && Present(init, heap) + [] == Present(init, heap);
    }
  }

  lemma ReturnedNext(tids: seq<Tid>, t: Tid, recheck: bool, heap: map<Tid, Attrs>, f: Attrs -> bool)
    ensures Returned(tids + [t], recheck, heap, f)
         == Returned(tids, recheck, heap, f) + (if t in heap && (!recheck || f(heap[t])) then [t] else [])
  {
    assert (tids + [t])[..|tids + [t]| - 1] == tids;
  }

  /** The predicate a scan pushes, as PredicateFromKeys builds it. */
  ghost predicate PushedFor(cols: Columns, keys: seq<ScanKey>, pushed: PushedPredicate) {
    && (pushed.recheck <==> exists i :: 0 <= i < |keys| && AtomFromKey(cols, keys[i]).None?)
    && forall row :: Matches(pushed.pred, row) <==>
         forall i :: 0 <= i < |keys| && AtomFromKey(cols, keys[i]).Some? ==>
           AtomMatches(AtomFromKey(cols, keys[i]).value, row)
  }

  lemma PushedNarrows(cols: Columns, keys: seq<ScanKey>, truth: Meaning, pushed: PushedPredicate)
    requires MeansSql(cols, truth) && PushedFor(cols, keys, pushed)
    ensures Narrows(cols, pushed.recheck, Keeps(pushed.pred), Wanted(keys, truth))
  {
    var p, q := Keeps(pushed.pred), Wanted(keys, truth);
    forall row: Attrs | |row| == |cols|
      ensures q(row) ==> p(row)
      ensures !pushed.recheck && p(row) ==> q(row)
    {
      forall i | 0 <= i < |keys|
        ensures AtomFromKey(cols, keys[i]).Some? ==>
                (AtomMatches(AtomFromKey(cols, keys[i]).value, row) <==> truth(keys[i], row))
      {
        PushedIffPlain(cols, keys[i], truth, row);
      }
    }
  }

  /** What a query gets from an unordered scan of the image. */
  function Answer(img: Image, pushed: PushedPredicate, heap: map<Tid, Attrs>, wanted: Attrs -> bool): seq<Tid>
    requires Valid(img)
  {
    Returned(Kept(Covered(img), Keeps(pushed.pred)), pushed.recheck, heap, wanted)
  }

  /** An unordered scan and the executor's recheck return exactly what a sequential filter over the entries still in the
      heap would, in order: an untranslatable key only widens what is pushed and asks for the recheck. */
  lemma UnorderedScanExact(img: Image, cols: Columns, keys: seq<ScanKey>, truth: Meaning, heap: map<Tid, Attrs>,
                           pushed: PushedPredicate)
    requires Valid(img) && MeansSql(cols, truth) && Faithful(Covered(img), heap, cols) && PushedFor(cols, keys, pushed)
    ensures Answer(img, pushed, heap, Wanted(keys, truth)) == Kept(Present(Covered(img), heap), Wanted(keys, truth))
  {
    PushedNarrows(cols, keys, truth, pushed);
    RecheckKeeps(Covered(img), heap, cols, pushed.recheck, Keeps(pushed.pred), Wanted(keys, truth));
  }

  function EntryTids(es: seq<Entry>): multiset<Tid> {
    if es == [] then multiset{} else EntryTids(es[..|es| - 1]) + multiset{es[|es| - 1].tid}
  }

  lemma {:induction false} EntryTidsAppend(a: seq<Entry>, b: seq<Entry>)
    ensures EntryTids(a + b) == EntryTids(a) + EntryTids(b)
  {
    if b == [] {
      assert a + b == a;
    } else {
      assert (a + b)[..|a + b| - 1] == a + b[..|b| - 1];
      EntryTidsAppend(a, b[..|b| - 1]);
    }
  }

  lemma {:induction false} LiveNodesTids(img: Image, n: nat)
    requires n <= |img.tids| && Valid(img)
    ensures EntryTids(LiveNodes(img, n)) == LiveNodeTids(img.tids, Dead(img.graph), n)
  {
    hide Dead, Nodes;
    if n > 0 {
      LiveNodesTids(img, n - 1);
      var prev, e := LiveNodes(img, n - 1), Entry(img.tids[n - 1], Nodes(img.graph)[n - 1].attrs);
      assert (prev + [e])[..|prev + [e]| - 1] == prev;
      assert prev + [] == prev;
    }
  }

  lemma {:induction false} VectorlessTids(rows: seq<UnrankableRow>)
    ensures EntryTids(VectorlessEntries(rows)) == UnrankableTids(rows)
  {
    if rows != [] {
      VectorlessTids(rows[..|rows| - 1]);
      var prev, e := VectorlessEntries(rows[..|rows| - 1]), Entry(rows[|rows| - 1].tid, rows[|rows| - 1].attrs);
      assert (prev + [e])[..|prev + [e]| - 1] == prev;
    }
  }

  lemma CoveredTids(img: Image)
    requires Valid(img)
    ensures EntryTids(Covered(img)) == LiveTids(img)
  {
    LiveNodesTids(img, |img.tids|);
    VectorlessTids(img.unrankable);
    EntryTidsAppend(LiveNodes(img, |img.tids|), VectorlessEntries(img.unrankable));
  }

  lemma {:induction false} PresentCount(es: seq<Entry>, heap: map<Tid, Attrs>, cols: Columns, f: Attrs -> bool, t: Tid)
    requires Faithful(es, heap, cols)
    ensures multiset(Kept(Present(es, heap), f))[t] == if t in heap && f(heap[t]) then EntryTids(es)[t] else 0
  {
    if es != [] {
      var e, init := es[|es| - 1], es[..|es| - 1];
      PresentCount(init, heap, cols, f, t);
      KeptNext(Present(init, heap), e, f);
      assert Present(init, heap) + [] == Present(init, heap);
      assert e.tid in heap ==> heap[e.tid] == e.attrs;
    }
  }

  /** Where the image answers for each heap row once, the query gets each row that satisfies it once, and nothing else,
      however many entries of deleted rows still await vacuum. */
  lemma UnorderedScanIsFilter(img: Image, cols: Columns, keys: seq<ScanKey>, truth: Meaning, heap: map<Tid, Attrs>,
                              pushed: PushedPredicate, t: Tid)
    requires Valid(img) && MeansSql(cols, truth) && Faithful(Covered(img), heap, cols) && PushedFor(cols, keys, pushed)
    requires t in heap ==> LiveTids(img)[t] == 1
    ensures multiset(Answer(img, pushed, heap, Wanted(keys, truth)))[t]
         == if t in heap && Qualifies(keys, truth, heap[t]) then 1 else 0
  {
    hide Answer, Present, Kept;
    UnorderedScanExact(img, cols, keys, truth, heap, pushed);
    CoveredTids(img);
    PresentCount(Covered(img), heap, cols, Wanted(keys, truth), t);
  }
}
