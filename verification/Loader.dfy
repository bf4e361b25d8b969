/** Reading off the page walk: every method reads what its reader in module Codec reads from a slice. */
module Loader {
  import opened Base
  import opened ByteStrings
  import opened Codec
  import opened Pages
  import Graphs
  import Insertion

  /** A source that holds what it promises is read as reader `p` reads a slice, and no further. */
  ghost predicate Follows<T>(p: Bytes -> Read<T>, before: Option<Stream>, r: Result<T, DecodeError>,
                             after: Option<Stream>) {
    before.Some? ==>
      match p(before.value.view)
      case Ok((x, rest)) => r == Ok(x) && after == Some(Stream(rest, before.value.beyond))
      case Err(e) => r == Err(e)
  }

  function TakeReader(n: nat): Bytes -> Read<Bytes> { b => Take(b, n) }

  method ReadBytes(src: PageBytes, n: nat) returns (r: Result<Bytes, DecodeError>)
    requires src.Valid()
    modifies src
    ensures src.Valid() && src.left <= old(src.left) && (r.Ok? ==> |r.value| == n)
    ensures r.Ok? ==> src.Slack() == old(src.Slack())
    ensures Follows(TakeReader(n), old(src.State()), r, src.State())
  {
    ghost var all, left := src.Available(), src.left;
    var b :- src.ReadExact(n);
    if left <= |all| { Fenced(all, n, left); }
    r := Ok(b);
  }

  lemma Fenced(all: Bytes, n: nat, left: nat)
    requires n <= left <= |all|
    ensures all[..left][..n] == all[..n]
    ensures all[n..][..left - n] == all[..left][n..]
    ensures all[n..][left - n..] == all[left..]
  {
  }

  function UintReader(width: nat): Bytes -> Read<nat> { b => Uint(b, width) }

  method ReadUint(src: PageBytes, width: nat) returns (r: Result<nat, DecodeError>)
    requires src.Valid()
    modifies src
    ensures src.Valid() && src.left <= old(src.left) && (r.Ok? ==> r.value < Bound(width))
    ensures r.Ok? ==> src.Slack() == old(src.Slack())
    ensures Follows(UintReader(width), old(src.State()), r, src.State())
  {
    var b :- ReadBytes(src, width);
    r := Ok(FromLE(b));
  }

  // --- counted repetition -------------------------------------------------------------------

  function Prepended<T>(xs: seq<T>, r: Read<seq<T>>): Read<seq<T>> {
    match r case Ok((ys, rest)) => Ok((xs + ys, rest)) case Err(e) => Err(e)
  }

  /** A loop that has read `xs` and has `count` to go is where `Many` is. */
  ghost predicate Looping<T>(n: nat, p: Bytes -> Read<T>, start: Option<Stream>, xs: seq<T>, count: nat,
                             now: Option<Stream>) {
    start.Some? ==>
      && now.Some? && now.value.beyond == start.value.beyond
      && Many(n, p, start.value.view) == Prepended(xs, Many(count, p, now.value.view))
  }

  lemma LoopStart<T>(n: nat, p: Bytes -> Read<T>, start: Option<Stream>)
    ensures Looping(n, p, start, [], n, start)
  {
    if start.Some? {
      var all := Many(n, p, start.value.view);
      if all.Ok? { assert [] + all.value.0 == all.value.0; }
    }
  }

  lemma LoopStep<T>(n: nat, p: Bytes -> Read<T>, start: Option<Stream>, xs: seq<T>, count: nat, before: Option<Stream>,
                    x: T, after: Option<Stream>)
    requires Looping(n, p, start, xs, count, before) && count > 0 && Follows(p, before, Ok(x), after)
    ensures Looping(n, p, start, xs + [x], count - 1, after)
  {
    if start.Some? {
      var more := Many(count - 1, p, after.value.view);
      if more.Ok? { assert xs + ([x] + more.value.0) == (xs + [x]) + more.value.0; }
    }
  }

  lemma LoopEnd<T>(n: nat, p: Bytes -> Read<T>, start: Option<Stream>, xs: seq<T>, now: Option<Stream>)
    requires Looping(n, p, start, xs, 0, now)
    ensures start.Some? ==>
            && now.Some? && now.value.beyond == start.value.beyond
            && Many(n, p, start.value.view) == Ok((xs, now.value.view))
  {
    assert xs + [] == xs;
  }

  lemma LoopFails<T>(n: nat, p: Bytes -> Read<T>, start: Option<Stream>, xs: seq<T>, count: nat, before: Option<Stream>,
                     e: DecodeError, after: Option<Stream>)
    requires Looping(n, p, start, xs, count, before) && count > 0 && Follows(p, before, Err(e), after)
    ensures start.Some? ==> Many(n, p, start.value.view) == Err(e)
  {
  }

  // --- attribute rows ---------------------------------------------------------------------------

  method ReadValue(src: PageBytes) returns (r: Result<AttrValue, DecodeError>)
    requires src.Valid()
    modifies src
    ensures src.Valid() && src.left <= old(src.left)
    ensures r.Ok? ==> src.Slack() == old(src.Slack())
    ensures Follows(Codec.ReadValue, old(src.State()), r, src.State())
  {
    hide Uint, PageBytes.State, PageBytes.Slack;
    var tag :- ReadUint(src, 1);
    if tag == 0 { return Ok(Null); }
    if tag == 1 {
      var u :- ReadUint(src, 8);
      return Ok(Int(Signed(u)));
    }
    if tag == 2 {
      var u :- ReadUint(src, 8);
      return Ok(Float(u));
    }
    r := Err(Invalid("bad attribute tag"));
  }

  method ReadRow(src: PageBytes) returns (r: Result<Attrs, DecodeError>)
    requires src.Valid()
    modifies src
    ensures src.Valid() && src.left <= old(src.left)
    ensures r.Ok? ==> src.Slack() == old(src.Slack())
    ensures Follows(Codec.ReadRow, old(src.State()), r, src.State())
  {
    hide Many, Codec.ReadValue, Uint, Looping, PageBytes.Slack;
    var count :- ReadUint(src, 8);
    if count > src.left { return Err(Truncated); }
    ghost var start := src.State();
    var row, i := [], 0;
    LoopStart(count, Codec.ReadValue, start);
    while i < count
      invariant src.Valid() && src.left <= old(src.left) && src.Slack() == old(src.Slack()) && 0 <= i <= count
      invariant Looping(count, Codec.ReadValue, start, row, count - i, src.State())
    {
      ghost var before := src.State();
      var value := ReadValue(src);
      if value.Err? {
        LoopFails(count, Codec.ReadValue, start, row, count - i, before, value.error, src.State());
        return Err(value.error);
      }
      LoopStep(count, Codec.ReadValue, start, row, count - i, before, value.value, src.State());
      row, i := row + [value.value], i + 1;
    }
    LoopEnd(count, Codec.ReadValue, start, row, src.State());
    r := Ok(row);
  }

  // --- vectors and neighbor lists -------------------------------------------------------------------

  function WordsOf(n: nat, b: Bytes): (r: Vec)
    requires |b| == 4 * n
  {
    if n == 0 then [] else [FromLE(b[..4])] + WordsOf(n - 1, b[4..])
  }

  lemma {:induction false} WordsTaken(n: nat, b: Bytes)
    ensures Many(n, ReadWord, b) == match Take(b, 4 * n) case Ok((x, rest)) => Ok((WordsOf(n, x), rest))
            case Err(e) => Err(e)
  {
    if n > 0 && |b| >= 4 {
      WordsTaken(n - 1, b[4..]);
      if |b| >= 4 * n {
        assert b[..4 * n][..4] == b[..4] && b[..4 * n][4..] == b[4..][..4 * (n - 1)]
               && b[4..][4 * (n - 1)..] == b[4 * n..];
      }
    }
  }

  function WordsReader(n: nat): Bytes -> Read<Vec> { b => Many(n, ReadWord, b) }

  lemma WordsNext(dim: nat, scratch: Bytes, i: nat, v: Vec)
    requires |scratch| == 4 * dim && i < dim
    ensures v + WordsOf(dim - i, scratch[4 * i..])
         == (v + [FromLE(scratch[4 * i..4 * i + 4])]) + WordsOf(dim - (i + 1), scratch[4 * (i + 1)..])
  {
    assert scratch[4 * i..][..4] == scratch[4 * i..4 * i + 4] && scratch[4 * i..][4..] == scratch[4 * (i + 1)..];
  }

  method Words(scratch: Bytes, dim: nat) returns (v: Vec)
    requires |scratch| == 4 * dim
    ensures v == WordsOf(dim, scratch) && |v| == dim
  {
    var i := 0;
    v := [];
    while i < dim
      invariant 0 <= i <= dim && |v| == i && v + WordsOf(dim - i, scratch[4 * i..]) == WordsOf(dim, scratch)
    {
      WordsNext(dim, scratch, i, v);
      v, i := v + [FromLE(scratch[4 * i..4 * i + 4])], i + 1;
    }
    assert v + [] == v;
  }

  /** One vector through a scratch buffer. */
  method ReadVector(src: PageBytes, dim: nat) returns (r: Result<Vec, DecodeError>)
    requires src.Valid()
    modifies src
    ensures src.Valid() && src.left <= old(src.left) && (r.Ok? ==> |r.value| == dim)
    ensures r.Ok? ==> src.Slack() == old(src.Slack())
    ensures Follows(WordsReader(dim), old(src.State()), r, src.State())
  {
    hide Many, ReadWord, PageBytes.Slack;
    ghost var before := src.State();
    if before.Some? { WordsTaken(dim, before.value.view); }
    var scratch :- ReadBytes(src, 4 * dim);
    var v := Words(scratch, dim);
    r := Ok(v);
  }

  method ReadLink(src: PageBytes, n: nat) returns (r: Result<nat, DecodeError>)
    requires src.Valid()
    modifies src
    ensures src.Valid() && src.left <= old(src.left)
    ensures r.Ok? ==> src.Slack() == old(src.Slack())
    ensures Follows(LinkReader(n), old(src.State()), r, src.State())
  {
    hide Uint, PageBytes.State, PageBytes.Slack;
    var id :- ReadUint(src, 8);
    if id >= n { return Err(Invalid("link target out of range")); }
    r := Ok(id);
  }

  method ReadList(src: PageBytes, n: nat, cap: nat) returns (r: Result<seq<nat>, DecodeError>)
    requires src.Valid()
    modifies src
    ensures src.Valid() && src.left <= old(src.left) && (r.Ok? ==> |r.value| <= cap)
    ensures r.Ok? ==> src.Slack() == old(src.Slack())
    ensures Follows(ListReader(n, cap), old(src.State()), r, src.State())
  {
    hide Many, Codec.ReadLink, Uint, Looping, PageBytes.Slack;
    var count :- ReadUint(src, 8);
    if count > cap { return Err(Invalid("neighbor list over degree cap")); }
    if count > src.left / 8 { return Err(Truncated); }
    ghost var start := src.State();
    var ids, i := [], 0;
    LoopStart(count, LinkReader(n), start);
    while i < count
      invariant src.Valid() && src.left <= old(src.left) && src.Slack() == old(src.Slack()) && 0 <= i <= count
                && |ids| == i
      invariant Looping(count, LinkReader(n), start, ids, count - i, src.State())
    {
      ghost var before := src.State();
      var id := ReadLink(src, n);
      if id.Err? {
        LoopFails(count, LinkReader(n), start, ids, count - i, before, id.error, src.State());
        return Err(id.error);
      }
      LoopStep(count, LinkReader(n), start, ids, count - i, before, id.value, src.State());
      ids, i := ids + [id.value], i + 1;
    }
    LoopEnd(count, LinkReader(n), start, ids, src.State());
    r := Ok(ids);
  }

  // --- the header ---------------------------------------------------------------------------------------

  method ReadPrologue(src: PageBytes) returns (r: Result<Graphs.Metric, DecodeError>)
    requires src.Valid()
    modifies src
    ensures src.Valid() && src.left <= old(src.left)
    ensures r.Ok? ==> src.Slack() == old(src.Slack())
    ensures Follows(Codec.ReadPrologue, old(src.State()), r, src.State())
  {
    hide Uint, PageBytes.State, PageBytes.Slack;
    var magic :- ReadUint(src, 4);
    if magic != CODEC_MAGIC { return Err(BadMagic); }
    var version :- ReadUint(src, 2);
    if version != CODEC_VERSION { return Err(UnsupportedVersion(version)); }
    var code :- ReadUint(src, 1);
    if code > 2 { return Err(Invalid("unknown metric code")); }
    var _ :- ReadUint(src, 1);
    r := Ok(if code == 0 then Graphs.L2 else if code == 1 then Graphs.Cosine else Graphs.InnerProduct);
  }

  function ParamsReader(k: Graphs.Kernel, metric: Graphs.Metric): Bytes -> Read<Header> {
    b => Codec.ReadParams(k, metric, b)
  }

  method ReadParams(k: Graphs.Kernel, metric: Graphs.Metric, src: PageBytes) returns (r: Result<Header, DecodeError>)
    requires src.Valid()
    modifies src
    ensures src.Valid() && src.left <= old(src.left)
    ensures r.Ok? ==> src.Slack() == old(src.Slack())
    ensures Follows(ParamsReader(k, metric), old(src.State()), r, src.State())
  {
    hide Uint, PageBytes.State, PageBytes.Slack;
    var m :- ReadUint(src, 8);
    if !(2 <= m <= MAX_M) { return Err(Invalid("m out of range")); }
    var gamma :- ReadUint(src, 4);
    if !(GAMMA_ONE <= gamma <= MAX_GAMMA) { return Err(Invalid("gamma out of range")); }
    var (mCap, m0Cap) := k.caps(m, gamma);
    if m0Cap > MAX_LAYER0_DEGREE { return Err(Invalid("degree cap out of range")); }
    var ef :- ReadUint(src, 8);
    if ef < EfFloor(m, gamma, m0Cap) { return Err(Invalid("ef_construction below floor")); }
    r := Ok(Header(metric, m, gamma, mCap, m0Cap, ef, 0, 0, 0, 0, None, 0));
  }

  function ShapeReader(hd: Header): Bytes -> Read<Header> { b => Codec.ReadShape(hd, b) }

  method ReadShape(hd: Header, src: PageBytes) returns (r: Result<Header, DecodeError>)
    requires src.Valid()
    modifies src
    ensures src.Valid() && src.left <= old(src.left)
    ensures r.Ok? ==> src.Slack() == old(src.Slack())
    ensures r.Ok? && r.value.entry.Some? ==> r.value.entry.value < r.value.n
    ensures r.Ok? ==> r.value.mCap == hd.mCap && r.value.m0Cap == hd.m0Cap
    ensures Follows(ShapeReader(hd), old(src.State()), r, src.State())
  {
    hide Uint, PageBytes.State, PageBytes.Slack;
    var dim :- ReadUint(src, 8);
    if dim > Insertion.MAX_DIM { return Err(Invalid("dimension out of range")); }
    var maxLayer :- ReadUint(src, 8);
    if maxLayer > MAX_LAYER { return Err(Invalid("top layer out of range")); }
    var seed :- ReadUint(src, 8);
    var rng :- ReadUint(src, 8);
    if seed == 0 || rng == 0 { return Err(Invalid("PRNG state must be nonzero")); }
    var raw :- ReadUint(src, 8);
    var n :- ReadUint(src, 8);
    if raw != U64_MAX && raw >= n { return Err(Invalid("entry point out of range")); }
    if n > 0 && raw == U64_MAX { return Err(Invalid("nonempty graph without entry point")); }
    if n > 0 && dim == 0 { return Err(Invalid("nonempty graph with zero dimension")); }
    r := Ok(hd.(dim := dim, maxLayer := maxLayer, seed := seed, rng := rng,
                entry := if raw == U64_MAX then None else Some(raw), n := n));
  }

  function HeaderReader(k: Graphs.Kernel): Bytes -> Read<Header> { b => Codec.ReadHeader(k, b) }

  method ReadHeader(k: Graphs.Kernel, src: PageBytes) returns (r: Result<Header, DecodeError>)
    requires src.Valid()
    modifies src
    ensures src.Valid() && src.left <= old(src.left)
    ensures r.Ok? ==> src.Slack() == old(src.Slack())
    ensures r.Ok? && r.value.entry.Some? ==> r.value.entry.value < r.value.n
    ensures Follows(HeaderReader(k), old(src.State()), r, src.State())
  {
    var metric :- ReadPrologue(src);
    var params :- ReadParams(k, metric, src);
    var hd :- ReadShape(params, src);
    r := Ok(hd);
  }

  function HeadReader(hd: Header): Bytes -> Read<NodeHead> { b => Codec.ReadHead(hd, b) }

  method ReadHead(src: PageBytes, hd: Header) returns (r: Result<NodeHead, DecodeError>)
    requires src.Valid()
    modifies src
    ensures src.Valid() && src.left <= old(src.left)
    ensures r.Ok? ==> src.Slack() == old(src.Slack())
    ensures r.Ok? ==> HeadFits(hd, r.value)
    ensures Follows(HeadReader(hd), old(src.State()), r, src.State())
  {
    hide Uint, PageBytes.State, PageBytes.Slack, Many;
    var flag :- ReadUint(src, 1);
    if flag > 1 { return Err(Invalid("bad tombstone flag")); }
    var levels :- ReadUint(src, 8);
    if levels == 0 { return Err(Invalid("node with no layers")); }
    if levels - 1 > hd.maxLayer { return Err(Invalid("node above the top layer")); }
    var vector :- ReadVector(src, hd.dim);
    r := Ok(NodeHead(flag == 1, levels, vector));
  }
}
