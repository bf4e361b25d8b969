/** The graph's serialized form, version 2: its writer, its checking reader, and what each guarantees the other. */
module Codec {
  import opened Base
  import opened ByteStrings
  import opened Graphs
  import opened Candidates
  import Insertion

  const CODEC_MAGIC: nat := 0x4248_4E57
  const CODEC_VERSION: nat := 2
  const MAX_M: nat := 128
  const GAMMA_ONE: u32 := 0x3F80_0000
  const MAX_GAMMA: u32 := 0x4480_0000
  const MAX_LAYER0_DEGREE: nat := 2048
  const MAX_LAYER: nat := 64
  const SLOT_FLOOR: nat := 0x40_0000

  // --- attribute rows -------------------------------------------------------------------

  function Signed(u: u64): i64 { if u < 0x8000_0000_0000_0000 then u else u - 0x1_0000_0000_0000_0000 }

  function Unsigned(v: i64): u64 { if v >= 0 then v else v + 0x1_0000_0000_0000_0000 }

  function EncodeValue(v: AttrValue): (r: Bytes)
    ensures 1 <= |r| <= 9
  {
    match v
    case Null => LE(0, 1)
    case Int(i) => LE(1, 1) + LE(Unsigned(i), 8)
    case Float(bits) => LE(2, 1) + LE(bits, 8)
  }

  function ReadValue(b: Bytes): Read<AttrValue> {
    var (tag, rest) :- Uint(b, 1);
    if tag == 0 then Ok((Null, rest))
    else if tag == 1 then var (u, end) :- Uint(rest, 8); Ok((Int(Signed(u)), end))
    else if tag == 2 then var (u, end) :- Uint(rest, 8); Ok((Float(u), end))
    else Err(Invalid("bad attribute tag"))
  }

  function Anything<T>(x: T): bool { true }

  lemma ValueInverts()
    ensures Inverts(ReadValue, EncodeValue, Anything)
  {
    forall v: AttrValue, rest ensures ReadValue(EncodeValue(v) + rest) == Ok((v, rest)) {
      match v {
        case Null => UintWrites(0, 1, rest);
        case Int(i) =>
          assert EncodeValue(v) + rest == LE(1, 1) + (LE(Unsigned(i), 8) + rest);
          UintWrites(1, 1, LE(Unsigned(i), 8) + rest);
          UintWrites(Unsigned(i), 8, rest);
        case Float(bits) =>
          assert EncodeValue(v) + rest == LE(2, 1) + (LE(bits, 8) + rest);
          UintWrites(2, 1, LE(bits, 8) + rest);
          UintWrites(bits, 8, rest);
      }
    }
    forall b | ReadValue(b).Ok? ensures b == EncodeValue(ReadValue(b).value.0) + ReadValue(b).value.1 {
      UintReads(b, 1);
      var (tag, rest) := Uint(b, 1).value;
      if tag > 0 { UintReads(rest, 8); }
    }
  }

  /** Length-prefixed. */
  function EncodeRow(row: Attrs): Bytes { LE(|row|, 8) + All(row, EncodeValue) }

  function ReadRow(b: Bytes): Read<Attrs> {
    var (count, rest) :- Len(b);
    if count > |rest| then Err(Truncated) else Many(count, ReadValue, rest)
  }

  predicate RowFits(row: Attrs) { |row| < Bound(8) }

  lemma ValuesWrite(row: Attrs, rest: Bytes)
    ensures Many(|row|, ReadValue, All(row, EncodeValue) + rest) == Ok((row, rest))
  {
    ValueInverts();
    ManyWrites(row, ReadValue, EncodeValue, Anything, rest);
  }

  lemma ValuesRead(count: nat, b: Bytes)
    requires Many(count, ReadValue, b).Ok?
    ensures var (row, rest) := Many(count, ReadValue, b).value; |row| == count && b == All(row, EncodeValue) + rest
  {
    ValueInverts();
    ManyReads(count, ReadValue, EncodeValue, Anything, b);
  }

  lemma RowWrites(row: Attrs, rest: Bytes)
    requires RowFits(row)
    ensures ReadRow(EncodeRow(row) + rest) == Ok((row, rest))
  {
    var tail := All(row, EncodeValue) + rest;
    assert EncodeRow(row) + rest == LE(|row|, 8) + tail;
    UintWrites(|row|, 8, tail);
    AllLong(row, EncodeValue, 1);
    ValuesWrite(row, rest);
  }

  lemma RowReads(b: Bytes)
    requires ReadRow(b).Ok?
    ensures RowFits(ReadRow(b).value.0) && b == EncodeRow(ReadRow(b).value.0) + ReadRow(b).value.1
  {
    hide ReadValue, EncodeValue;
    UintReads(b, 8);
    var (count, tail) := Len(b).value;
    var (row, rest) := ReadRow(b).value;
    ValuesRead(count, tail);
    assert b == LE(count, 8) + (All(row, EncodeValue) + rest);
  }

  // --- vectors ------------------------------------------------------------------------------

  function ReadWord(b: Bytes): Read<u32> {
    var (x, rest) :- Uint(b, 4);
    Ok((x, rest))
  }

  function EncodeWord(x: u32): Bytes { LE(x, 4) }

  lemma WordInverts()
    ensures Inverts(ReadWord, EncodeWord, Anything)
  {
    forall x: u32, rest ensures ReadWord(EncodeWord(x) + rest) == Ok((x, rest)) { UintWrites(x, 4, rest); }
    forall b | ReadWord(b).Ok? ensures b == EncodeWord(ReadWord(b).value.0) + ReadWord(b).value.1 { UintReads(b, 4); }
  }

  lemma WordsWrite(v: Vec, rest: Bytes)
    ensures Many(|v|, ReadWord, All(v, EncodeWord) + rest) == Ok((v, rest))
  {
    WordInverts();
    ManyWrites(v, ReadWord, EncodeWord, Anything, rest);
  }

  lemma WordsRead(count: nat, b: Bytes)
    requires Many(count, ReadWord, b).Ok?
    ensures var (v, rest) := Many(count, ReadWord, b).value; |v| == count && b == All(v, EncodeWord) + rest
  {
    WordInverts();
    ManyReads(count, ReadWord, EncodeWord, Anything, b);
  }

  // --- neighbor lists ---------------------------------------------------------------------------

  function EncodeId(id: nat): (r: Bytes)
    ensures |r| == 8
  {
    LE(id, 8)
  }

  function ReadLink(n: nat, b: Bytes): Read<nat> {
    var (id, rest) :- Len(b);
    if id >= n then Err(Invalid("link target out of range")) else Ok((id, rest))
  }

  function LinkReader(n: nat): Bytes -> Read<nat> { b => ReadLink(n, b) }

  ghost function Below(n: nat): nat -> bool { id => id < n }

  lemma LinkInverts(n: nat)
    requires n <= Bound(8)
    ensures Inverts(LinkReader(n), EncodeId, Below(n))
  {
    forall id: nat, rest | Below(n)(id)
      ensures LinkReader(n)(EncodeId(id) + rest) == Ok((id, rest))
    {
      UintWrites(id, 8, rest);
    }
    forall b | LinkReader(n)(b).Ok?
      ensures var r := LinkReader(n)(b).value; Below(n)(r.0) && b == EncodeId(r.0) + r.1
    {
      UintReads(b, 8);
    }
  }

  function EncodeList(ids: seq<nat>): Bytes { LE(|ids|, 8) + All(ids, EncodeId) }

  function ReadList(n: nat, cap: nat, b: Bytes): Read<seq<nat>> {
    var (count, rest) :- Len(b);
    if count > cap then Err(Invalid("neighbor list over degree cap"))
    else if count > |rest| / 8 then Err(Truncated)
    else Many(count, LinkReader(n), rest)
  }

  function ListReader(n: nat, cap: nat): Bytes -> Read<seq<nat>> { b => ReadList(n, cap, b) }

  predicate ListFits(n: nat, cap: nat, ids: seq<nat>) { |ids| <= cap && forall id: nat :: id in ids ==> id < n }

  ghost function FittingList(n: nat, cap: nat): seq<nat> -> bool { ids => ListFits(n, cap, ids) }

  lemma LinksWrite(n: nat, ids: seq<nat>, rest: Bytes)
    requires n <= Bound(8) && forall id: nat :: id in ids ==> id < n
    ensures Many(|ids|, LinkReader(n), All(ids, EncodeId) + rest) == Ok((ids, rest))
  {
    LinkInverts(n);
    forall id: nat | id in ids ensures Below(n)(id) {}
    ManyWrites(ids, LinkReader(n), EncodeId, Below(n), rest);
  }

  lemma LinksRead(n: nat, count: nat, b: Bytes)
    requires n <= Bound(8) && Many(count, LinkReader(n), b).Ok?
    ensures var (ids, rest) := Many(count, LinkReader(n), b).value;
            |ids| == count && (forall id: nat :: id in ids ==> id < n) && b == All(ids, EncodeId) + rest
  {
    LinkInverts(n);
    ManyReads(count, LinkReader(n), EncodeId, Below(n), b);
    forall id: nat | id in Many(count, LinkReader(n), b).value.0 ensures id < n { assert Below(n)(id); }
  }

  lemma ListWrites(n: nat, cap: nat, ids: seq<nat>, rest: Bytes)
    requires n <= Bound(8) && cap < Bound(8) && ListFits(n, cap, ids)
    ensures ReadList(n, cap, EncodeList(ids) + rest) == Ok((ids, rest))
  {
    var tail := All(ids, EncodeId) + rest;
    assert EncodeList(ids) + rest == LE(|ids|, 8) + tail;
    UintWrites(|ids|, 8, tail);
    AllLong(ids, EncodeId, 8);
    LinksWrite(n, ids, rest);
  }

  lemma ListReads(n: nat, cap: nat, b: Bytes)
    requires n <= Bound(8) && ReadList(n, cap, b).Ok?
    ensures var (ids, rest) := ReadList(n, cap, b).value;
            ListFits(n, cap, ids) && b == EncodeList(ids) + rest
  {
    UintReads(b, 8);
    var (count, tail) := Len(b).value;
    var (ids, rest) := ReadList(n, cap, b).value;
    LinksRead(n, count, tail);
    assert b == LE(count, 8) + (All(ids, EncodeId) + rest);
  }

  lemma ListInverts(n: nat, cap: nat)
    requires n <= Bound(8) && cap < Bound(8)
    ensures Inverts(ListReader(n, cap), EncodeList, FittingList(n, cap))
  {
    forall ids, rest | FittingList(n, cap)(ids) ensures ListReader(n, cap)(EncodeList(ids) + rest) == Ok((ids, rest)) {
      ListWrites(n, cap, ids, rest);
    }
    forall b | ListReader(n, cap)(b).Ok?
      ensures var r := ListReader(n, cap)(b).value; FittingList(n, cap)(r.0) && b == EncodeList(r.0) + r.1
    {
      ListReads(n, cap, b);
    }
  }

  // --- the header -------------------------------------------------------------------------------------

  datatype Header = Header(
    metric: Metric, m: nat, gamma: u32, mCap: nat, m0Cap: nat, efConstruction: nat,
    dim: nat, maxLayer: nat, seed: u64, rng: u64, entry: Option<nat>, n: nat)

  function Code(metric: Metric): nat { match metric case L2 => 0 case Cosine => 1 case InnerProduct => 2 }

  function EfFloor(m: nat, gamma: u32, m0Cap: nat): nat { if gamma > GAMMA_ONE then m0Cap else m }

  function RawEntry(entry: Option<nat>): nat { match entry case None => U64_MAX case Some(e) => e }

  /** The declared limits, as numbers: gamma runs from 1.0 to 1024.0. */
  predicate ParamsFit(k: Kernel, hd: Header) {
    && 2 <= hd.m <= 128
    && 0x3F80_0000 <= hd.gamma <= 0x4480_0000
    && (hd.mCap, hd.m0Cap) == k.caps(hd.m, hd.gamma)
    && hd.m0Cap <= 2048
    && EfFloor(hd.m, hd.gamma, hd.m0Cap) <= hd.efConstruction < Bound(8)
  }

  predicate ShapeFits(hd: Header) {
    && hd.dim <= 16000 && hd.maxLayer <= 64
    && hd.seed != 0 && hd.rng != 0
    && hd.n < Bound(8) && (hd.entry.Some? ==> hd.entry.value < hd.n)
    && (hd.n > 0 ==> hd.entry.Some? && hd.dim > 0)
  }

  predicate HeaderFits(k: Kernel, hd: Header) { ParamsFit(k, hd) && ShapeFits(hd) }

  function EncodeShape(hd: Header, rest: Bytes): Bytes {
    LE(hd.dim, 8) + (LE(hd.maxLayer, 8) + (LE(hd.seed, 8)
        + (LE(hd.rng, 8) + (LE(RawEntry(hd.entry), 8) + (LE(hd.n, 8) + rest)))))
  }

  function EncodeParams(hd: Header, rest: Bytes): Bytes {
    LE(hd.m, 8) + (LE(hd.gamma, 4) + (LE(hd.efConstruction, 8) + rest))
  }

  /** Magic, version, metric and a reserved byte. */
  function EncodePrologue(metric: Metric, reserved: nat, rest: Bytes): Bytes {
    LE(CODEC_MAGIC, 4) + (LE(CODEC_VERSION, 2) + (LE(Code(metric), 1) + (LE(reserved, 1) + rest)))
  }

  function EncodeHeader(hd: Header, reserved: nat, rest: Bytes): Bytes {
    EncodePrologue(hd.metric, reserved, EncodeParams(hd, EncodeShape(hd, rest)))
  }

  function ReadMetric(b: Bytes): Read<Metric> {
    var (code, rest) :- Uint(b, 1);
    if code == 0 then Ok((L2, rest))
    else if code == 1 then Ok((Cosine, rest))
    else if code == 2 then Ok((InnerProduct, rest))
    else Err(Invalid("unknown metric code"))
  }

  /** A header with its shape still to come. */
  function ReadParams(k: Kernel, metric: Metric, b: Bytes): Read<Header> {
    var (m, b) :- Len(b);
    if !(2 <= m <= MAX_M) then Err(Invalid("m out of range")) else
    var (gamma, b) :- Uint(b, 4);
    if !(GAMMA_ONE <= gamma <= MAX_GAMMA) then Err(Invalid("gamma out of range")) else
    var (mCap, m0Cap) := k.caps(m, gamma);
    if m0Cap > MAX_LAYER0_DEGREE then Err(Invalid("degree cap out of range")) else
    var (ef, b) :- Len(b);
    if ef < EfFloor(m, gamma, m0Cap) then Err(Invalid("ef_construction below floor")) else
    Ok((Header(metric, m, gamma, mCap, m0Cap, ef, 0, 0, 0, 0, None, 0), b))
  }

  function ReadShape(hd: Header, b: Bytes): (r: Read<Header>)
    ensures r.Ok? && r.value.0.entry.Some? ==> r.value.0.entry.value < r.value.0.n
  {
    var (dim, b) :- Len(b);
    if dim > Insertion.MAX_DIM then Err(Invalid("dimension out of range")) else
    var (maxLayer, b) :- Len(b);
    if maxLayer > MAX_LAYER then Err(Invalid("top layer out of range")) else
    var (seed, b) :- Len(b);
    var (rng, b) :- Len(b);
    if seed == 0 || rng == 0 then Err(Invalid("PRNG state must be nonzero")) else
    var (raw, b) :- Len(b);
    var (n, b) :- Len(b);
    if raw != U64_MAX && raw >= n then Err(Invalid("entry point out of range")) else
    if n > 0 && raw == U64_MAX then Err(Invalid("nonempty graph without entry point")) else
    if n > 0 && dim == 0 then Err(Invalid("nonempty graph with zero dimension")) else
    Ok((hd.(dim := dim, maxLayer := maxLayer, seed := seed, rng := rng,
            entry := if raw == U64_MAX then None else Some(raw), n := n), b))
  }

  function ReadPrologue(b: Bytes): Read<Metric> {
    var (magic, b) :- Uint(b, 4);
    if magic != CODEC_MAGIC then Err(BadMagic) else
    var (version, b) :- Uint(b, 2);
    if version != CODEC_VERSION then Err(UnsupportedVersion(version)) else
    var (metric, b) :- ReadMetric(b);
    var (_, b) :- Uint(b, 1);
    Ok((metric, b))
  }

  function ReadHeader(k: Kernel, b: Bytes): (r: Read<Header>)
    ensures r.Ok? && r.value.0.entry.Some? ==> r.value.0.entry.value < r.value.0.n
  {
    var (metric, b) :- ReadPrologue(b);
    var (params, b) :- ReadParams(k, metric, b);
    ReadShape(params, b)
  }

  function Shapeless(hd: Header): Header { hd.(dim := 0, maxLayer := 0, seed := 0, rng := 0, entry := None, n := 0) }

  lemma ParamsWrite(k: Kernel, hd: Header, rest: Bytes)
    requires ParamsFit(k, hd)
    ensures ReadParams(k, hd.metric, EncodeParams(hd, rest)) == Ok((Shapeless(hd), rest))
  {
    UintWrites(hd.m, 8, LE(hd.gamma, 4) + (LE(hd.efConstruction, 8) + rest));
    UintWrites(hd.gamma, 4, LE(hd.efConstruction, 8) + rest);
    UintWrites(hd.efConstruction, 8, rest);
  }

  lemma ShapeWrites(hd: Header, rest: Bytes)
    requires ShapeFits(hd)
    ensures ReadShape(Shapeless(hd), EncodeShape(hd, rest)) == Ok((hd, rest))
  {
    hide LE, FromLE;
    var b5 := LE(hd.n, 8) + rest;
    var b4 := LE(RawEntry(hd.entry), 8) + b5;
    var b3 := LE(hd.rng, 8) + b4;
    var b2 := LE(hd.seed, 8) + b3;
    UintWrites(hd.dim, 8, LE(hd.maxLayer, 8) + b2);
    UintWrites(hd.maxLayer, 8, b2);
    UintWrites(hd.seed, 8, b3);
    UintWrites(hd.rng, 8, b4);
    UintWrites(RawEntry(hd.entry), 8, b5);
    UintWrites(hd.n, 8, rest);
  }

  lemma PrologueWrites(metric: Metric, reserved: nat, rest: Bytes)
    requires reserved < Bound(1)
    ensures ReadPrologue(EncodePrologue(metric, reserved, rest)) == Ok((metric, rest))
  {
    var b3 := LE(reserved, 1) + rest;
    var b2 := LE(Code(metric), 1) + b3;
    UintWrites(CODEC_MAGIC, 4, LE(CODEC_VERSION, 2) + b2);
    UintWrites(CODEC_VERSION, 2, b2);
    UintWrites(Code(metric), 1, b3);
    UintWrites(reserved, 1, rest);
  }

  lemma HeaderWrites(k: Kernel, hd: Header, reserved: nat, rest: Bytes)
    requires HeaderFits(k, hd) && reserved < Bound(1)
    ensures ReadHeader(k, EncodeHeader(hd, reserved, rest)) == Ok((hd, rest))
  {
    PrologueWrites(hd.metric, reserved, EncodeParams(hd, EncodeShape(hd, rest)));
    ParamsWrite(k, hd, EncodeShape(hd, rest));
    ShapeWrites(hd, rest);
  }

  lemma PrologueReads(b: Bytes) returns (reserved: nat)
    requires ReadPrologue(b).Ok?
    ensures reserved < Bound(1) && b == EncodePrologue(ReadPrologue(b).value.0, reserved, ReadPrologue(b).value.1)
  {
    var (_, b1) := Uint(b, 4).value;
    var (_, b2) := Uint(b1, 2).value;
    var (_, b3) := ReadMetric(b2).value;
    UintReads(b, 4);
    UintReads(b1, 2);
    UintReads(b2, 1);
    UintReads(b3, 1);
    reserved := Uint(b3, 1).value.0;
  }

  lemma ParamsRead(k: Kernel, metric: Metric, b: Bytes)
    requires ReadParams(k, metric, b).Ok?
    ensures var (hd, rest) := ReadParams(k, metric, b).value;
            ParamsFit(k, hd) && hd.metric == metric && hd == Shapeless(hd) && b == EncodeParams(hd, rest)
  {
    UintReads(b, 8);
    var b1 := Len(b).value.1;
    UintReads(b1, 4);
    UintReads(Uint(b1, 4).value.1, 8);
  }

  lemma ShapeReads(hd: Header, b: Bytes)
    requires ReadShape(hd, b).Ok?
    ensures var (full, rest) := ReadShape(hd, b).value;
            ShapeFits(full) && b == EncodeShape(full, rest)
    ensures Shapeless(ReadShape(hd, b).value.0) == Shapeless(hd)
  {
    var (_, b1) := Len(b).value;
    var (_, b2) := Len(b1).value;
    var (_, b3) := Len(b2).value;
    var (_, b4) := Len(b3).value;
    var (_, b5) := Len(b4).value;
    UintReads(b, 8);
    UintReads(b1, 8);
    UintReads(b2, 8);
    UintReads(b3, 8);
    UintReads(b4, 8);
    UintReads(b5, 8);
  }

  /** What the reader accepts is what the writer writes, but for one reserved byte it does not look at. */
  lemma HeaderReads(k: Kernel, b: Bytes) returns (reserved: nat)
    requires ReadHeader(k, b).Ok?
    ensures var (hd, rest) := ReadHeader(k, b).value;
            HeaderFits(k, hd) && reserved < Bound(1) && b == EncodeHeader(hd, reserved, rest)
  {
    reserved := PrologueReads(b);
    var (metric, b1) := ReadPrologue(b).value;
    ParamsRead(k, metric, b1);
    var (params, b2) := ReadParams(k, metric, b1).value;
    ShapeReads(params, b2);
  }

  // --- nodes -------------------------------------------------------------------------------------------

  datatype NodeData = NodeData(deleted: bool, vector: Vec, lists: seq<seq<nat>>, row: Attrs)

  /** What precedes a node's lists. */
  datatype NodeHead = NodeHead(deleted: bool, levels: nat, vector: Vec)

  function HeadOf(node: NodeData): NodeHead { NodeHead(node.deleted, |node.lists|, node.vector) }

  /** Layers and link slots taken by the nodes read so far. */
  datatype Used = Used(layers: nat, slots: nat)

  /** A full stride on every layer, however short the lists. */
  function NodeSlots(hd: Header, levels: nat): nat {
    if levels == 0 then 0 else (hd.m0Cap + 1) + (levels - 1) * (hd.mCap + 1)
  }

  function After(hd: Header, used: Used, levels: nat): Used {
    Used(used.layers + levels, used.slots + NodeSlots(hd, levels))
  }

  predicate Room(used: Used, maxSlots: nat) { used.layers <= U32_MAX && used.slots <= maxSlots }

  predicate UpperFit(hd: Header, upper: seq<seq<nat>>) { forall ids :: ids in upper ==> ListFits(hd.n, hd.mCap, ids) }

  predicate LayersFit(hd: Header, lists: seq<seq<nat>>) {
    lists != [] && ListFits(hd.n, hd.m0Cap, lists[0]) && UpperFit(hd, lists[1..])
  }

  predicate HeadFits(hd: Header, head: NodeHead) {
    |head.vector| == hd.dim && 1 <= head.levels <= hd.maxLayer + 1
  }

  predicate NodeFits(hd: Header, node: NodeData) {
    HeadFits(hd, HeadOf(node)) && LayersFit(hd, node.lists) && RowFits(node.row)
  }

  /** The header's own limits, as far as nodes depend on them. */
  predicate HeaderSized(hd: Header) {
    hd.n <= Bound(8) && hd.m0Cap < Bound(8) && hd.mCap < Bound(8) && hd.maxLayer <= MAX_LAYER
  }

  function ReadHead(hd: Header, b: Bytes): (r: Read<NodeHead>)
    ensures r.Ok? ==> r.value.0.levels > 0
  {
    var (flag, b) :- Uint(b, 1);
    if flag > 1 then Err(Invalid("bad tombstone flag")) else
    var (levels, b) :- Len(b);
    if levels == 0 then Err(Invalid("node with no layers")) else
    if levels - 1 > hd.maxLayer then Err(Invalid("node above the top layer")) else
    var (vector, b) :- Many(hd.dim, ReadWord, b);
    Ok((NodeHead(flag == 1, levels, vector), b))
  }

  function ReadLayers(hd: Header, levels: nat, b: Bytes): (r: Read<seq<seq<nat>>>)
    requires levels > 0
  {
    var (ground, b) :- ReadList(hd.n, hd.m0Cap, b);
    var (upper, b) :- Many(levels - 1, ListReader(hd.n, hd.mCap), b);
    Ok(([ground] + upper, b))
  }

  /** The head of a node whose layers and slots there is room for. */
  function ReadReserved(hd: Header, maxSlots: nat, used: Used, b: Bytes): (r: Read<NodeHead>)
    ensures r.Ok? ==> r.value.0.levels > 0 && Room(After(hd, used, r.value.0.levels), maxSlots)
  {
    var (head, b) :- ReadHead(hd, b);
    if head.levels > |b| / 8 then Err(Truncated) else
    if After(hd, used, head.levels).layers > U32_MAX then Err(Invalid("too many layers")) else
    if After(hd, used, head.levels).slots > maxSlots
        then Err(Invalid("link storage exceeds what the payload could describe")) else
    Ok((head, b))
  }

  function ReadNode(hd: Header, maxSlots: nat, used: Used, b: Bytes): Read<NodeData> {
    var (head, b) :- ReadReserved(hd, maxSlots, used, b);
    var (lists, b) :- ReadLayers(hd, head.levels, b);
    var (row, b) :- ReadRow(b);
    Ok((NodeData(head.deleted, head.vector, lists, row), b))
  }

  function EncodeHead(head: NodeHead, rest: Bytes): Bytes {
    LE(if head.deleted then 1 else 0, 1) + (LE(head.levels, 8) + (All(head.vector, EncodeWord) + rest))
  }

  function EncodeBody(lists: seq<seq<nat>>, row: Attrs, rest: Bytes): Bytes {
    All(lists, EncodeList) + (EncodeRow(row) + rest)
  }

  function EncodeNode(node: NodeData, rest: Bytes): Bytes {
    EncodeHead(HeadOf(node), EncodeBody(node.lists, node.row, rest))
  }

  lemma HeadWrites(hd: Header, head: NodeHead, rest: Bytes)
    requires HeadFits(hd, head) && hd.maxLayer <= MAX_LAYER
    ensures ReadHead(hd, EncodeHead(head, rest)) == Ok((head, rest))
  {
    var b2 := All(head.vector, EncodeWord) + rest;
    UintWrites(if head.deleted then 1 else 0, 1, LE(head.levels, 8) + b2);
    UintWrites(head.levels, 8, b2);
    WordsWrite(head.vector, rest);
  }

  lemma HeadReads(hd: Header, b: Bytes)
    requires ReadHead(hd, b).Ok?
    ensures var (head, rest) := ReadHead(hd, b).value;
            HeadFits(hd, head) && b == EncodeHead(head, rest)
  {
    UintReads(b, 1);
    var (_, b1) := Uint(b, 1).value;
    UintReads(b1, 8);
    WordsRead(hd.dim, Len(b1).value.1);
  }

  lemma UpperWrites(hd: Header, upper: seq<seq<nat>>, rest: Bytes)
    requires HeaderSized(hd) && UpperFit(hd, upper)
    ensures Many(|upper|, ListReader(hd.n, hd.mCap), All(upper, EncodeList) + rest) == Ok((upper, rest))
  {
    ListInverts(hd.n, hd.mCap);
    forall ids | ids in upper ensures FittingList(hd.n, hd.mCap)(ids) {}
    ManyWrites(upper, ListReader(hd.n, hd.mCap), EncodeList, FittingList(hd.n, hd.mCap), rest);
  }

  lemma UpperReads(hd: Header, count: nat, b: Bytes)
    requires HeaderSized(hd) && Many(count, ListReader(hd.n, hd.mCap), b).Ok?
    ensures var (upper, rest) := Many(count, ListReader(hd.n, hd.mCap), b).value;
            |upper| == count && UpperFit(hd, upper) && b == All(upper, EncodeList) + rest
  {
    ListInverts(hd.n, hd.mCap);
    ManyReads(count, ListReader(hd.n, hd.mCap), EncodeList, FittingList(hd.n, hd.mCap), b);
    var upper := Many(count, ListReader(hd.n, hd.mCap), b).value.0;
    forall ids | ids in upper ensures ListFits(hd.n, hd.mCap, ids) { assert FittingList(hd.n, hd.mCap)(ids); }
  }

  lemma LayersWrite(hd: Header, lists: seq<seq<nat>>, rest: Bytes)
    requires HeaderSized(hd) && LayersFit(hd, lists)
    ensures ReadLayers(hd, |lists|, All(lists, EncodeList) + rest) == Ok((lists, rest))
  {
    hide EncodeList, ReadList, ListFits;
    var upper := lists[1..];
    AllFirst(lists, EncodeList, rest);
    ListWrites(hd.n, hd.m0Cap, lists[0], All(upper, EncodeList) + rest);
    UpperWrites(hd, upper, rest);
    assert [lists[0]] + upper == lists;
  }

  lemma LayersRead(hd: Header, levels: nat, b: Bytes)
    requires HeaderSized(hd) && levels > 0 && ReadLayers(hd, levels, b).Ok?
    ensures var (lists, rest) := ReadLayers(hd, levels, b).value;
            |lists| == levels && LayersFit(hd, lists) && b == All(lists, EncodeList) + rest
  {
    hide EncodeList, ReadList, ListFits;
    ListReads(hd.n, hd.m0Cap, b);
    var (ground, tail) := ReadList(hd.n, hd.m0Cap, b).value;
    UpperReads(hd, levels - 1, tail);
    var (upper, rest) := Many(levels - 1, ListReader(hd.n, hd.mCap), tail).value;
    AllCons(ground, upper, EncodeList, rest);
    assert ([ground] + upper)[1..] == upper;
  }

  lemma NodeWrites(hd: Header, maxSlots: nat, used: Used, node: NodeData, rest: Bytes)
    requires HeaderSized(hd) && NodeFits(hd, node) && Room(After(hd, used, |node.lists|), maxSlots)
    ensures ReadNode(hd, maxSlots, used, EncodeNode(node, rest)) == Ok((node, rest))
  {
    HeadWrites(hd, HeadOf(node), EncodeBody(node.lists, node.row, rest));
    AllLong(node.lists, EncodeList, 8);
    LayersWrite(hd, node.lists, EncodeRow(node.row) + rest);
    RowWrites(node.row, rest);
  }

  lemma NodeReads(hd: Header, maxSlots: nat, used: Used, b: Bytes)
    requires HeaderSized(hd) && ReadNode(hd, maxSlots, used, b).Ok?
    ensures var (node, rest) := ReadNode(hd, maxSlots, used, b).value;
            NodeFits(hd, node) && Room(After(hd, used, |node.lists|), maxSlots) && b == EncodeNode(node, rest)
  {
    HeadReads(hd, b);
    var (head, b1) := ReadHead(hd, b).value;
    LayersRead(hd, head.levels, b1);
    RowReads(ReadLayers(hd, head.levels, b1).value.1);
  }

  function ReadNodes(hd: Header, maxSlots: nat, count: nat, used: Used, b: Bytes): (r: Read<seq<NodeData>>)
    ensures r.Ok? ==> |r.value.0| == count
  {
    if count == 0 then Ok(([], b)) else
    var (node, rest) :- ReadNode(hd, maxSlots, used, b);
    var (nodes, end) :- ReadNodes(hd, maxSlots, count - 1, After(hd, used, |node.lists|), rest);
    Ok(([node] + nodes, end))
  }

  function EncodeNodes(nodes: seq<NodeData>, rest: Bytes): Bytes {
    if nodes == [] then rest else EncodeNode(nodes[0], EncodeNodes(nodes[1..], rest))
  }

  /** Layers and slots of all of them. */
  function Total(hd: Header, used: Used, nodes: seq<NodeData>): (r: Used)
    ensures r.layers >= used.layers && r.slots >= used.slots
    decreases |nodes|
  {
    if nodes == [] then used else Total(hd, After(hd, used, |nodes[0].lists|), nodes[1..])
  }

  predicate NodesFit(hd: Header, nodes: seq<NodeData>) { forall i :: 0 <= i < |nodes| ==> NodeFits(hd, nodes[i]) }

  lemma {:induction false} NodesWrite(hd: Header, maxSlots: nat, used: Used, nodes: seq<NodeData>, rest: Bytes)
    requires HeaderSized(hd) && NodesFit(hd, nodes) && Room(Total(hd, used, nodes), maxSlots)
    ensures ReadNodes(hd, maxSlots, |nodes|, used, EncodeNodes(nodes, rest)) == Ok((nodes, rest))
    decreases |nodes|
  {
    hide ReadNode, EncodeNode, NodeFits;
    if nodes != [] {
      NodeWrites(hd, maxSlots, used, nodes[0], EncodeNodes(nodes[1..], rest));
      NodesWrite(hd, maxSlots, After(hd, used, |nodes[0].lists|), nodes[1..], rest);
      assert [nodes[0]] + nodes[1..] == nodes;
    }
  }

  lemma {:induction false} NodesRead(hd: Header, maxSlots: nat, count: nat, used: Used, b: Bytes)
    requires HeaderSized(hd) && ReadNodes(hd, maxSlots, count, used, b).Ok? && Room(used, maxSlots)
    ensures var (nodes, rest) := ReadNodes(hd, maxSlots, count, used, b).value;
            NodesFit(hd, nodes) && Room(Total(hd, used, nodes), maxSlots) && b == EncodeNodes(nodes, rest)
  {
    hide ReadNode, EncodeNode, NodeFits;
    if count > 0 {
      NodeReads(hd, maxSlots, used, b);
      var (node, rest) := ReadNode(hd, maxSlots, used, b).value;
      NodesRead(hd, maxSlots, count - 1, After(hd, used, |node.lists|), rest);
      var nodes := ReadNodes(hd, maxSlots, count - 1, After(hd, used, |node.lists|), rest).value.0;
      assert ([node] + nodes)[1..] == nodes;
    }
  }
}
