/** Where each field lies in the stored bytes: the least significant byte first, at fixed places. */
module Layout {
  import opened Base
  import opened ByteStrings
  import opened Codec
  import opened Graphs
  import Pages
  import Payload

  // --- little-endian fields, byte by byte -----------------------------------------------------------

  function Byte(b: Bytes, at: nat): nat { if at < |b| then b[at] else 0 }

  function Half(b: Bytes, at: nat): nat { Byte(b, at) + 0x100 * Byte(b, at + 1) }

  function Word(b: Bytes, at: nat): nat { Half(b, at) + 0x1_0000 * Half(b, at + 2) }

  function Long(b: Bytes, at: nat): nat { Word(b, at) + 0x1_0000_0000 * Word(b, at + 4) }

  lemma FromLEFirst(b: Bytes, at: nat, to: nat)
    requires at < to <= |b|
    ensures FromLE(b[at..to]) == Byte(b, at) + 0x100 * FromLE(b[at + 1..to])
  {
    assert b[at..to][1..] == b[at + 1..to];
  }

  lemma FromLEByte(b: Bytes, at: nat)
    requires at + 1 <= |b|
    ensures FromLE(b[at..at + 1]) == Byte(b, at)
  {
  }

  lemma FromLEHalf(b: Bytes, at: nat)
    requires at + 2 <= |b|
    ensures FromLE(b[at..at + 2]) == Half(b, at)
  {
    hide FromLE, Byte;
    FromLEFirst(b, at, at + 2);
    FromLEByte(b, at + 1);
  }

  lemma FromLEWord(b: Bytes, at: nat)
    requires at + 4 <= |b|
    ensures FromLE(b[at..at + 4]) == Word(b, at)
  {
    hide FromLE, Byte;
    FromLEFirst(b, at, at + 4);
    FromLEFirst(b, at + 1, at + 4);
    FromLEHalf(b, at + 2);
  }

  lemma FromLELong(b: Bytes, at: nat)
    requires at + 8 <= |b|
    ensures FromLE(b[at..at + 8]) == Long(b, at)
  {
    hide FromLE, Byte;
    FromLEFirst(b, at, at + 8);
    FromLEFirst(b, at + 1, at + 8);
    FromLEFirst(b, at + 2, at + 8);
    FromLEFirst(b, at + 3, at + 8);
    FromLEWord(b, at + 4);
  }

  /** Reading from a place in the bytes. */
  lemma UintAt(b: Bytes, at: nat, width: nat)
    requires at <= |b| && width in {1, 2, 4, 8} && Uint(b[at..], width).Ok?
    ensures at + width <= |b| && Uint(b[at..], width).value.1 == b[at + width..]
    ensures Uint(b[at..], width).value.0 == match width
                                            case 1 => Byte(b, at)
                                            case 2 => Half(b, at)
                                            case 4 => Word(b, at)
                                            case _ => Long(b, at)
  {
    assert b[at..][..width] == b[at..at + width] && b[at..][width..] == b[at + width..];
    if width == 1 { FromLEByte(b, at); }
    else if width == 2 { FromLEHalf(b, at); }
    else if width == 4 { FromLEWord(b, at); }
    else { FromLELong(b, at); }
  }

  // --- the graph's header --------------------------------------------------------------------------------

  lemma PrologueLayout(b: Bytes)
    requires ReadPrologue(b).Ok?
    ensures |b| >= 8 && ReadPrologue(b).value.1 == b[8..]
    ensures Word(b, 0) == 0x4248_4E57 && Half(b, 4) == 2
    ensures Byte(b, 6) == match ReadPrologue(b).value.0 case L2 => 0 case Cosine => 1 case InnerProduct => 2
  {
    hide Word, Half, Byte, FromLE;
    assert b == b[0..];
    UintAt(b, 0, 4);
    UintAt(b, 4, 2);
    UintAt(b, 6, 1);
    UintAt(b, 7, 1);
  }

  lemma ParamsLayout(k: Kernel, metric: Metric, b: Bytes, at: nat)
    requires at <= |b| && ReadParams(k, metric, b[at..]).Ok?
    ensures var (hd, rest) := ReadParams(k, metric, b[at..]).value;
            && |b| >= at + 20 && rest == b[at + 20..]
            && Long(b, at) == hd.m && Word(b, at + 8) == hd.gamma && Long(b, at + 12) == hd.efConstruction
  {
    hide Word, Long, FromLE;
    UintAt(b, at, 8);
    UintAt(b, at + 8, 4);
    UintAt(b, at + 12, 8);
  }

  lemma ShapeLayout(hd: Header, b: Bytes, at: nat)
    requires at <= |b| && ReadShape(hd, b[at..]).Ok?
    ensures var (full, rest) := ReadShape(hd, b[at..]).value;
            && |b| >= at + 48 && rest == b[at + 48..] && Shapeless(full) == Shapeless(hd)
            && Long(b, at) == full.dim && Long(b, at + 8) == full.maxLayer
            && Long(b, at + 16) == full.seed && Long(b, at + 24) == full.rng
            && Long(b, at + 32) == (match full.entry case None => 0xFFFF_FFFF_FFFF_FFFF case Some(e) => e)
            && Long(b, at + 40) == full.n
  {
    hide Long, FromLE;
    UintAt(b, at, 8);
    UintAt(b, at + 8, 8);
    UintAt(b, at + 16, 8);
    UintAt(b, at + 24, 8);
    UintAt(b, at + 32, 8);
    UintAt(b, at + 40, 8);
  }

  /** The 76 bytes before the nodes. */
  lemma HeaderLayout(k: Kernel, b: Bytes)
    requires ReadHeader(k, b).Ok?
    ensures var (hd, rest) := ReadHeader(k, b).value;
            && |b| >= 76 && rest == b[76..]
            && Word(b, 0) == 0x4248_4E57 && Half(b, 4) == 2
            && Byte(b, 6) == (match hd.metric case L2 => 0 case Cosine => 1 case InnerProduct => 2)
            && Long(b, 8) == hd.m && Word(b, 16) == hd.gamma && Long(b, 20) == hd.efConstruction
            && Long(b, 28) == hd.dim && Long(b, 36) == hd.maxLayer && Long(b, 44) == hd.seed && Long(b, 52) == hd.rng
            && Long(b, 60) == (match hd.entry case None => 0xFFFF_FFFF_FFFF_FFFF case Some(e) => e)
            && Long(b, 68) == hd.n
  {
    hide Word, Half, Byte, Long, ReadPrologue, ReadParams, ReadShape;
    PrologueLayout(b);
    var metric := ReadPrologue(b).value.0;
    ParamsLayout(k, metric, b, 8);
    ParamsMetric(k, metric, b[8..]);
    ShapeLayout(ReadParams(k, metric, b[8..]).value.0, b, 28);
  }

  lemma ParamsMetric(k: Kernel, metric: Metric, b: Bytes)
    requires ReadParams(k, metric, b).Ok?
    ensures ReadParams(k, metric, b).value.0.metric == metric
  {
  }

  // --- a node ----------------------------------------------------------------------------------------------

  lemma {:induction false} WordsLayout(count: nat, b: Bytes, at: nat)
    requires at <= |b| && Many(count, ReadWord, b[at..]).Ok?
    ensures var (v, rest) := Many(count, ReadWord, b[at..]).value;
            && at + 4 * count <= |b| && rest == b[at + 4 * count..] && |v| == count
            && forall i :: 0 <= i < count ==> v[i] == Word(b, at + 4 * i)
  {
    hide Word, FromLE;
    if count > 0 {
      UintAt(b, at, 4);
      WordsLayout(count - 1, b, at + 4);
      var v, tail := Many(count, ReadWord, b[at..]).value.0, Many(count - 1, ReadWord, b[at + 4..]).value.0;
      assert v == [ReadWord(b[at..]).value.0] + tail;
      forall i | 0 <= i < count ensures v[i] == Word(b, at + 4 * i) { if i > 0 { assert v[i] == tail[i - 1]; } }
    }
  }

  lemma {:induction false} LinksLayout(n: nat, count: nat, b: Bytes, at: nat)
    requires at <= |b| && Many(count, LinkReader(n), b[at..]).Ok?
    ensures var (ids, rest) := Many(count, LinkReader(n), b[at..]).value;
            && at + 8 * count <= |b| && rest == b[at + 8 * count..] && |ids| == count
            && forall i :: 0 <= i < count ==> ids[i] == Long(b, at + 8 * i)
  {
    hide Long, FromLE;
    if count > 0 {
      UintAt(b, at, 8);
      LinksLayout(n, count - 1, b, at + 8);
      var ids, tail := Many(count, LinkReader(n), b[at..]).value.0, Many(count - 1, LinkReader(n), b[at + 8..]).value.0;
      assert ids == [ReadLink(n, b[at..]).value.0] + tail;
      forall i | 0 <= i < count ensures ids[i] == Long(b, at + 8 * i) { if i > 0 { assert ids[i] == tail[i - 1]; } }
    }
  }

  /** A neighbor list: its length and its ids, eight bytes each. */
  lemma ListLayout(n: nat, cap: nat, b: Bytes, at: nat)
    requires at <= |b| && ReadList(n, cap, b[at..]).Ok?
    ensures var (ids, rest) := ReadList(n, cap, b[at..]).value;
            && at + 8 + 8 * |ids| <= |b| && rest == b[at + 8 + 8 * |ids|..]
            && Long(b, at) == |ids| && forall i :: 0 <= i < |ids| ==> ids[i] == Long(b, at + 8 + 8 * i)
  {
    hide Long, FromLE, Many;
    UintAt(b, at, 8);
    LinksLayout(n, Long(b, at), b, at + 8);
  }

  lemma HeadLayout(hd: Header, b: Bytes)
    requires ReadHead(hd, b).Ok?
    ensures var (head, rest) := ReadHead(hd, b).value;
            && |b| >= 9 + 4 * hd.dim && rest == b[9 + 4 * hd.dim..] && |head.vector| == hd.dim
            && Byte(b, 0) == (if head.deleted then 1 else 0) && Long(b, 1) == head.levels
            && forall i :: 0 <= i < hd.dim ==> head.vector[i] == Word(b, 9 + 4 * i)
  {
    hide Byte, Long, Word, FromLE, Many;
    assert b == b[0..];
    UintAt(b, 0, 1);
    UintAt(b, 1, 8);
    WordsLayout(hd.dim, b, 9);
  }

  /** A node: its tombstone, how many layers it has, its vector, and its list on layer 0 before the others. */
  lemma NodeLayout(hd: Header, maxSlots: nat, used: Used, b: Bytes)
    requires ReadNode(hd, maxSlots, used, b).Ok?
    ensures var node := ReadNode(hd, maxSlots, used, b).value.0;
            && node.lists != [] && |node.vector| == hd.dim
            && Byte(b, 0) == (if node.deleted then 1 else 0) && Long(b, 1) == |node.lists|
            && (forall i :: 0 <= i < hd.dim ==> node.vector[i] == Word(b, 9 + 4 * i))
            && Long(b, 9 + 4 * hd.dim) == |node.lists[0]|
            && forall i :: 0 <= i < |node.lists[0]| ==> node.lists[0][i] == Long(b, 17 + 4 * hd.dim + 8 * i)
  {
    hide Byte, Long, Word, FromLE, Many, ReadHead, ReadList, ReadRow;
    HeadLayout(hd, b);
    var head := ReadHead(hd, b).value.0;
    ListLayout(hd.n, hd.m0Cap, b, 9 + 4 * hd.dim);
    LayersCount(hd, head.levels, b[9 + 4 * hd.dim..]);
  }

  lemma LayersCount(hd: Header, levels: nat, b: Bytes)
    requires levels > 0 && ReadLayers(hd, levels, b).Ok?
    ensures var lists := ReadLayers(hd, levels, b).value.0;
            |lists| == levels && ReadList(hd.n, hd.m0Cap, b).Ok? && lists[0] == ReadList(hd.n, hd.m0Cap, b).value.0
  {
    hide ReadList;
    ManyCount(levels - 1, ListReader(hd.n, hd.mCap), ReadList(hd.n, hd.m0Cap, b).value.1);
  }

  lemma {:induction false} ManyCount<T>(n: nat, p: Bytes -> Read<T>, b: Bytes)
    requires Many(n, p, b).Ok?
    ensures |Many(n, p, b).value.0| == n
  {
    if n > 0 { ManyCount(n - 1, p, p(b).value.1); }
  }

  /** An attribute value: a tag, and eight bytes of two's complement or of IEEE 754 bits. */
  lemma ValueLayout(b: Bytes)
    requires ReadValue(b).Ok?
    ensures match ReadValue(b).value.0
            case Null => Byte(b, 0) == 0
            case Int(v) => Byte(b, 0) == 1 && Long(b, 1) == (if v >= 0 then v else v + 0x1_0000_0000_0000_0000)
            case Float(bits) => Byte(b, 0) == 2 && Long(b, 1) == bits
  {
    hide Byte, Long, FromLE;
    assert b == b[0..];
    UintAt(b, 0, 1);
    if Byte(b, 0) > 0 { UintAt(b, 1, 8); }
  }

  // --- around the graph ----------------------------------------------------------------------------------------

  /** A heap address: the block in four bytes, the offset in two. */
  lemma TidLayout(b: Bytes)
    requires Payload.ReadTid(b).Ok?
    ensures var t := Payload.ReadTid(b).value.0; |b| >= 6 && Word(b, 0) == t.block && Half(b, 4) == t.offset
  {
    hide Half, Word;
    assert b[..6][..4] == b[0..4] && b[..6][4..] == b[4..6];
    FromLEWord(b, 0);
    FromLEHalf(b, 4);
  }

  /** The metapage. */
  lemma MetaLayout(pages: seq<Bytes>, capacity: nat)
    requires Pages.MetaOf(pages, capacity).Ok?
    ensures var meta := Pages.MetaOf(pages, capacity).value;
            && |pages[0]| >= 24 && Word(pages[0], 0) == 0x4252_4E44 && Word(pages[0], 4) == 3
            && Long(pages[0], 8) == meta.blobLen && Long(pages[0], 16) == meta.generation
  {
    hide Long, Word;
    assert pages[0][..4] == pages[0][0..4];
    FromLEWord(pages[0], 0);
    FromLEWord(pages[0], 4);
    FromLELong(pages[0], 8);
    FromLELong(pages[0], 16);
  }
}
