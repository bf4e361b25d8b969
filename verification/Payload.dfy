/** The index payload: the graph's bytes behind their length, the TID table, and the rows that have no vector. */
module Payload {
  import opened Base
  import opened ByteStrings
  import opened Images
  import Codec
  import Decoder
  import Graphs

  datatype PayloadError =
    | Short
    | TrailingBytes
    | Corrupt(what: string)
    | BadGraph(error: DecodeError)
    | WrongArity(tid: Tid)
    | WrongLength(nodes: nat, tids: nat)

  function Lifted(e: DecodeError): PayloadError { if e.Invalid? then Corrupt(e.what) else Short }

  /** A section's reader, its errors told in the payload's terms. */
  function Section<T>(r: Read<T>): Result<(T, Bytes), PayloadError> {
    match r case Ok(v) => Ok(v) case Err(e) => Err(Lifted(e))
  }

  // --- the TID table -------------------------------------------------------------------

  function EncodeTid(t: Tid): (r: Bytes)
    ensures |r| == 6
  {
    LE(t.block, 4) + LE(t.offset, 2)
  }

  function ReadTid(b: Bytes): Read<Tid> {
    var (x, rest) :- Take(b, 6);
    Ok((Tid(FromLE(x[..4]), FromLE(x[4..])), rest))
  }

  lemma TidInverts()
    ensures Inverts(ReadTid, EncodeTid, Codec.Anything)
  {
    forall t: Tid, rest ensures ReadTid(EncodeTid(t) + rest) == Ok((t, rest)) {
      var x := EncodeTid(t);
      assert (x + rest)[..6] == x && (x + rest)[6..] == rest;
      assert x[..4] == LE(t.block, 4) && x[4..] == LE(t.offset, 2);
      FromLEOfLE(t.block, 4);
      FromLEOfLE(t.offset, 2);
    }
    forall b | ReadTid(b).Ok? ensures b == EncodeTid(ReadTid(b).value.0) + ReadTid(b).value.1 {
      LEOfFromLE(b[..6][..4]);
      LEOfFromLE(b[..6][4..]);
      assert b[..6][..4] + b[..6][4..] == b[..6];
      assert b == b[..6] + b[6..];
    }
  }

  function EncodeTids(tids: seq<Tid>): Bytes { LE(|tids|, 8) + All(tids, EncodeTid) }

  function ReadTids(b: Bytes): Read<seq<Tid>> {
    var (count, rest) :- Len(b);
    if |rest| / 6 < count then Err(Truncated) else Many(count, ReadTid, rest)
  }

  lemma TidListWrites(tids: seq<Tid>, rest: Bytes)
    ensures Many(|tids|, ReadTid, All(tids, EncodeTid) + rest) == Ok((tids, rest))
  {
    TidInverts();
    ManyWrites(tids, ReadTid, EncodeTid, Codec.Anything, rest);
  }

  lemma TidListReads(count: nat, b: Bytes)
    requires Many(count, ReadTid, b).Ok?
    ensures var (tids, rest) := Many(count, ReadTid, b).value; |tids| == count && b == All(tids, EncodeTid) + rest
  {
    TidInverts();
    ManyReads(count, ReadTid, EncodeTid, Codec.Anything, b);
  }

  lemma TidsWrite(tids: seq<Tid>, rest: Bytes)
    requires |tids| < Bound(8)
    ensures ReadTids(EncodeTids(tids) + rest) == Ok((tids, rest))
  {
    hide EncodeTid, ReadTid;
    var tail := All(tids, EncodeTid) + rest;
    assert EncodeTids(tids) + rest == LE(|tids|, 8) + tail;
    UintWrites(|tids|, 8, tail);
    AllLong(tids, EncodeTid, 6);
    TidListWrites(tids, rest);
  }

  lemma TidsRead(b: Bytes)
    requires ReadTids(b).Ok?
    ensures var (tids, rest) := ReadTids(b).value; |tids| < Bound(8) && b == EncodeTids(tids) + rest
  {
    hide EncodeTid, ReadTid;
    UintReads(b, 8);
    var (count, tail) := Len(b).value;
    var (tids, rest) := ReadTids(b).value;
    TidListReads(count, tail);
    assert b == LE(count, 8) + (All(tids, EncodeTid) + rest);
  }

  // --- rows that have no vector ------------------------------------------------------------------

  function EncodeUnrankable(row: UnrankableRow): (r: Bytes)
    ensures |r| >= 14
  {
    EncodeTid(row.tid) + Codec.EncodeRow(row.attrs)
  }

  function ReadUnrankableRow(b: Bytes): Read<UnrankableRow> {
    var (tid, b) :- ReadTid(b);
    var (attrs, b) :- Codec.ReadRow(b);
    Ok((UnrankableRow(tid, attrs), b))
  }

  predicate UnrankableFits(row: UnrankableRow) { Codec.RowFits(row.attrs) }

  lemma UnrankableInverts()
    ensures Inverts(ReadUnrankableRow, EncodeUnrankable, UnrankableFits)
  {
    hide EncodeTid, ReadTid, Codec.EncodeRow, Codec.ReadRow;
    forall row, rest | UnrankableFits(row) ensures ReadUnrankableRow(EncodeUnrankable(row) + rest) == Ok((row, rest)) {
      var tail := Codec.EncodeRow(row.attrs) + rest;
      assert EncodeUnrankable(row) + rest == EncodeTid(row.tid) + tail;
      OneTidWrites(row.tid, tail);
      Codec.RowWrites(row.attrs, rest);
    }
    forall b | ReadUnrankableRow(b).Ok?
      ensures var r := ReadUnrankableRow(b).value; UnrankableFits(r.0) && b == EncodeUnrankable(r.0) + r.1
    {
      var (tid, tail) := ReadTid(b).value;
      var (attrs, rest) := Codec.ReadRow(tail).value;
      OneTidReads(b);
      Codec.RowReads(tail);
      assert b == EncodeTid(tid) + (Codec.EncodeRow(attrs) + rest);
    }
  }

  lemma OneTidWrites(t: Tid, rest: Bytes)
    ensures ReadTid(EncodeTid(t) + rest) == Ok((t, rest))
  {
    TidInverts();
    assert Codec.Anything(t);
  }

  lemma OneTidReads(b: Bytes)
    requires ReadTid(b).Ok?
    ensures b == EncodeTid(ReadTid(b).value.0) + ReadTid(b).value.1
  {
    TidInverts();
  }

  function EncodeUnrankables(rows: seq<UnrankableRow>): Bytes { LE(|rows|, 8) + All(rows, EncodeUnrankable) }

  function ReadUnrankables(b: Bytes): Read<seq<UnrankableRow>> {
    var (count, rest) :- Len(b);
    if |rest| / 14 < count then Err(Truncated) else Many(count, ReadUnrankableRow, rest)
  }

  lemma UnrankableListWrites(rows: seq<UnrankableRow>, rest: Bytes)
    requires forall x :: x in rows ==> UnrankableFits(x)
    ensures Many(|rows|, ReadUnrankableRow, All(rows, EncodeUnrankable) + rest) == Ok((rows, rest))
  {
    UnrankableInverts();
    ManyWrites(rows, ReadUnrankableRow, EncodeUnrankable, UnrankableFits, rest);
  }

  lemma UnrankableListReads(count: nat, b: Bytes)
    requires Many(count, ReadUnrankableRow, b).Ok?
    ensures var (rows, rest) := Many(count, ReadUnrankableRow, b).value;
            |rows| == count && (forall x :: x in rows ==> UnrankableFits(x)) && b == All(rows, EncodeUnrankable) + rest
  {
    UnrankableInverts();
    ManyReads(count, ReadUnrankableRow, EncodeUnrankable, UnrankableFits, b);
  }

  lemma UnrankablesWrite(rows: seq<UnrankableRow>, rest: Bytes)
    requires |rows| < Bound(8) && forall x :: x in rows ==> UnrankableFits(x)
    ensures ReadUnrankables(EncodeUnrankables(rows) + rest) == Ok((rows, rest))
  {
    hide EncodeUnrankable, ReadUnrankableRow;
    var tail := All(rows, EncodeUnrankable) + rest;
    assert EncodeUnrankables(rows) + rest == LE(|rows|, 8) + tail;
    UintWrites(|rows|, 8, tail);
    AllLong(rows, EncodeUnrankable, 14);
    UnrankableListWrites(rows, rest);
  }

  lemma UnrankablesRead(b: Bytes)
    requires ReadUnrankables(b).Ok?
    ensures var (rows, rest) := ReadUnrankables(b).value;
            && |rows| < Bound(8) && (forall x :: x in rows ==> UnrankableFits(x)) && b == EncodeUnrankables(rows) + rest
  {
    hide EncodeUnrankable, ReadUnrankableRow;
    UintReads(b, 8);
    var (count, tail) := Len(b).value;
    var (rows, rest) := ReadUnrankables(b).value;
    UnrankableListReads(count, tail);
    assert b == LE(count, 8) + (All(rows, EncodeUnrankable) + rest);
  }

  // --- the payload ----------------------------------------------------------------------------------

  function EncodePayload(graph: Bytes, tids: seq<Tid>, unrankable: seq<UnrankableRow>): Bytes {
    LE(|graph|, 8) + (graph + (EncodeTids(tids) + EncodeUnrankables(unrankable)))
  }

  function ReadGraphLen(b: Bytes): Result<(nat, Bytes), PayloadError> {
    match Len(b)
    case Err(_) => Err(Short)
    case Ok((len, rest)) => if len > |rest| then Err(Short) else Ok((len, rest))
  }

  /** What follows the graph. */
  function ReadTables(b: Bytes): Result<(seq<Tid>, seq<UnrankableRow>), PayloadError> {
    var (tids, b) :- Section(ReadTids(b));
    var (unrankable, b) :- Section(ReadUnrankables(b));
    if b != [] then Err(TrailingBytes) else Ok((tids, unrankable))
  }

  /** decode_index_payload, on a slice. */
  function DecodePayload(b: Bytes): Result<(Bytes, seq<Tid>, seq<UnrankableRow>), PayloadError> {
    match ReadGraphLen(b)
    case Err(e) => Err(e)
    case Ok((len, rest)) =>
      match ReadTables(rest[len..])
      case Err(e) => Err(e)
      case Ok((tids, unrankable)) => Ok((rest[..len], tids, unrankable))
  }

  datatype Loaded = Loaded(graph: Graphs.Graph, tids: seq<Tid>, unrankable: seq<UnrankableRow>)

  /** Every row of the side table has a value for every attribute column. */
  function ShortRow(rows: seq<UnrankableRow>, arity: nat): Option<Tid> {
    if rows == [] then None
    else if |rows[0].attrs| != arity then Some(rows[0].tid)
    else ShortRow(rows[1..], arity)
  }

  /** load_index: the graph is decoded inside its fence before the tables are read. */
  function Load(k: Graphs.Kernel, arity: nat, b: Bytes): Result<Loaded, PayloadError> {
    match ReadGraphLen(b)
    case Err(e) => Err(e)
    case Ok((len, rest)) =>
      match Decoder.Decode(k, rest[..len])
      case Err(e) => Err(BadGraph(e))
      case Ok(g) =>
        match ReadTables(rest[len..])
        case Err(e) => Err(e)
        case Ok((tids, unrankable)) => Checked(arity, Loaded(g, tids, unrankable))
  }

  function Checked(arity: nat, l: Loaded): Result<Loaded, PayloadError> {
    match ShortRow(l.unrankable, arity)
    case Some(tid) => Err(WrongArity(tid))
    case None => if Graphs.Size(l.graph) != |l.tids| then Err(WrongLength(Graphs.Size(l.graph), |l.tids|)) else Ok(l)
  }

  lemma {:induction false} ShortRowIs(rows: seq<UnrankableRow>, arity: nat)
    ensures ShortRow(rows, arity).None? <==> forall x :: x in rows ==> |x.attrs| == arity
  {
    if rows != [] { ShortRowIs(rows[1..], arity); }
  }

  predicate TablesFit(tids: seq<Tid>, unrankable: seq<UnrankableRow>) {
    |tids| < Bound(8) && |unrankable| < Bound(8) && forall x :: x in unrankable ==> UnrankableFits(x)
  }

  lemma TablesWrite(tids: seq<Tid>, unrankable: seq<UnrankableRow>)
    requires TablesFit(tids, unrankable)
    ensures ReadTables(EncodeTids(tids) + EncodeUnrankables(unrankable)) == Ok((tids, unrankable))
  {
    hide EncodeTids, EncodeUnrankables, ReadTids, ReadUnrankables;
    TidsWrite(tids, EncodeUnrankables(unrankable));
    UnrankablesWrite(unrankable, []);
    assert EncodeUnrankables(unrankable) + [] == EncodeUnrankables(unrankable);
  }

  lemma TablesRead(b: Bytes)
    requires ReadTables(b).Ok?
    ensures var (tids, unrankable) := ReadTables(b).value;
            TablesFit(tids, unrankable) && b == EncodeTids(tids) + EncodeUnrankables(unrankable)
  {
    hide EncodeTids, EncodeUnrankables, ReadTids, ReadUnrankables;
    TidsRead(b);
    UnrankablesRead(ReadTids(b).value.1);
    var unrankable := ReadTables(b).value.1;
    assert EncodeUnrankables(unrankable) + [] == EncodeUnrankables(unrankable);
  }

  /** The framing is a bijection: a payload splits into exactly the parts it was framed from, and from no others. */
  lemma PayloadIff(b: Bytes, graph: Bytes, tids: seq<Tid>, unrankable: seq<UnrankableRow>)
    requires |graph| < Bound(8) && TablesFit(tids, unrankable)
    ensures DecodePayload(b) == Ok((graph, tids, unrankable)) <==> b == EncodePayload(graph, tids, unrankable)
  {
    hide EncodeTids, EncodeUnrankables, ReadTids, ReadUnrankables, ReadTables, LE;
    var tables := EncodeTids(tids) + EncodeUnrankables(unrankable);
    if b == EncodePayload(graph, tids, unrankable) {
      UintWrites(|graph|, 8, graph + tables);
      assert (graph + tables)[..|graph|] == graph && (graph + tables)[|graph|..] == tables;
      TablesWrite(tids, unrankable);
    }
    if DecodePayload(b) == Ok((graph, tids, unrankable)) {
      UintReads(b, 8);
      var (len, rest) := ReadGraphLen(b).value;
      TablesRead(rest[len..]);
      assert rest == rest[..len] + rest[len..];
    }
  }

  /** Loading is splitting the payload, decoding the graph's slice, and the two checks that tie the parts together. */
  lemma LoadIff(k: Graphs.Kernel, arity: nat, b: Bytes, l: Loaded)
    ensures Load(k, arity, b) == Ok(l) <==>
            && DecodePayload(b).Ok?
            && var (graph, tids, unrankable) := DecodePayload(b).value;
               && Decoder.Decode(k, graph) == Ok(l.graph) && l.tids == tids && l.unrankable == unrankable
               && |tids| == Graphs.Size(l.graph) && forall x :: x in unrankable ==> |x.attrs| == arity
  {
    hide Decoder.Decode, ReadTables, ReadGraphLen;
    ShortRowIs(l.unrankable, arity);
  }

  /** What a backend writes, every backend reads back. */
  lemma LoadOfEncode(k: Graphs.Kernel, arity: nat, l: Loaded)
    requires Decoder.CapsGrow(k) && Decoder.Loadable(k, l.graph) && |l.tids| == Graphs.Size(l.graph)
    requires TablesFit(l.tids, l.unrankable) && forall x :: x in l.unrankable ==> |x.attrs| == arity
    requires |Decoder.Encode(l.graph)| < Bound(8)
    ensures Load(k, arity, EncodePayload(Decoder.Encode(l.graph), l.tids, l.unrankable)) == Ok(l)
  {
    hide Decoder.Decode, Decoder.Encode, Decoder.Loadable, EncodePayload, DecodePayload;
    Decoder.LoadableColumns(k, l.graph);
    var b := EncodePayload(Decoder.Encode(l.graph), l.tids, l.unrankable);
    Decoder.DecodeOfEncode(k, l.graph);
    PayloadIff(b, Decoder.Encode(l.graph), l.tids, l.unrankable);
    LoadIff(k, arity, b, l);
  }
}
