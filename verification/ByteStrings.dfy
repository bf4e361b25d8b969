/** Little-endian values read off the front of a byte string, and what it means for a reader to invert a writer. */
module ByteStrings {
  import opened Base

  type Bytes = seq<u8>

  datatype DecodeError = Truncated | BadMagic | UnsupportedVersion(got: nat) | Invalid(what: string)

  /** What was read, and the bytes after it. */
  type Read<+T> = Result<(T, Bytes), DecodeError>

  // --- little-endian integers -----------------------------------------------------------

  function Bound(width: nat): nat { if width == 0 then 1 else 256 * Bound(width - 1) }

  function LE(n: nat, width: nat): (r: Bytes)
    ensures |r| == width
  {
    if width == 0 then [] else [n % 256] + LE(n / 256, width - 1)
  }

  function FromLE(b: Bytes): (n: nat)
    ensures n < Bound(|b|)
  {
    if b == [] then 0 else b[0] + 256 * FromLE(b[1..])
  }

  lemma {:induction false} FromLEOfLE(n: nat, width: nat)
    requires n < Bound(width)
    ensures FromLE(LE(n, width)) == n
  {
    if width > 0 { FromLEOfLE(n / 256, width - 1); }
  }

  lemma {:induction false} LEOfFromLE(b: Bytes)
    ensures LE(FromLE(b), |b|) == b
  {
    if b != [] { LEOfFromLE(b[1..]); }
  }

  // --- readers --------------------------------------------------------------------------

  function Take(b: Bytes, n: nat): Read<Bytes> {
    if n > |b| then Err(Truncated) else Ok((b[..n], b[n..]))
  }

  function Uint(b: Bytes, width: nat): (r: Read<nat>)
    ensures r.Ok? ==> r.value.0 < Bound(width)
  {
    var (x, rest) :- Take(b, width);
    Ok((FromLE(x), rest))
  }

  function Len(b: Bytes): Read<nat> { Uint(b, 8) }

  /** Reader `p` accepts exactly what `enc` writes of the values that fit, whatever follows. */
  ghost predicate Inverts<T(!new)>(p: Bytes -> Read<T>, enc: T -> Bytes, fits: T -> bool) {
    && (forall x, rest :: fits(x) ==> p(enc(x) + rest) == Ok((x, rest)))
    && (forall b :: p(b).Ok? ==> fits(p(b).value.0) && b == enc(p(b).value.0) + p(b).value.1)
  }

  lemma UintWrites(n: nat, width: nat, rest: Bytes)
    requires n < Bound(width)
    ensures Uint(LE(n, width) + rest, width) == Ok((n, rest))
  {
    FromLEOfLE(n, width);
    assert (LE(n, width) + rest)[..width] == LE(n, width);
    assert (LE(n, width) + rest)[width..] == rest;
  }

  lemma UintReads(b: Bytes, width: nat)
    requires Uint(b, width).Ok?
    ensures b == LE(Uint(b, width).value.0, width) + Uint(b, width).value.1
    ensures |b| == width + |Uint(b, width).value.1|
  {
    LEOfFromLE(b[..width]);
    assert b == b[..width] + b[width..];
  }

  // --- counted repetition ------------------------------------------------------------------

  function Many<T>(n: nat, p: Bytes -> Read<T>, b: Bytes): Read<seq<T>> {
    if n == 0 then Ok(([], b)) else
    var (x, rest) :- p(b);
    var (xs, end) :- Many(n - 1, p, rest);
    Ok(([x] + xs, end))
  }

  function All<T>(xs: seq<T>, enc: T -> Bytes): Bytes {
    if xs == [] then [] else enc(xs[0]) + All(xs[1..], enc)
  }

  lemma AllFirst<T>(xs: seq<T>, enc: T -> Bytes, rest: Bytes)
    requires xs != []
    ensures All(xs, enc) + rest == enc(xs[0]) + (All(xs[1..], enc) + rest)
  {
  }

  lemma AllCons<T>(x: T, xs: seq<T>, enc: T -> Bytes, rest: Bytes)
    ensures All([x] + xs, enc) + rest == enc(x) + (All(xs, enc) + rest)
  {
    assert ([x] + xs)[1..] == xs;
  }

  lemma {:induction false} ManyWrites<T(!new)>(xs: seq<T>, p: Bytes -> Read<T>, enc: T -> Bytes, fits: T -> bool,
                                        rest: Bytes)
    requires Inverts(p, enc, fits) && forall x :: x in xs ==> fits(x)
    ensures Many(|xs|, p, All(xs, enc) + rest) == Ok((xs, rest))
  {
    if xs == [] {
      assert All(xs, enc) + rest == rest;
    } else {
      var tail := All(xs[1..], enc) + rest;
      AllFirst(xs, enc, rest);
      assert fits(xs[0]);
      assert p(enc(xs[0]) + tail) == Ok((xs[0], tail));
      ManyWrites(xs[1..], p, enc, fits, rest);
      assert [xs[0]] + xs[1..] == xs;
    }
  }

  lemma {:induction false} ManyReads<T(!new)>(n: nat, p: Bytes -> Read<T>, enc: T -> Bytes, fits: T -> bool, b: Bytes)
    requires Inverts(p, enc, fits) && Many(n, p, b).Ok?
    ensures var (xs, rest) := Many(n, p, b).value;
            |xs| == n && (forall x :: x in xs ==> fits(x)) && b == All(xs, enc) + rest
  {
    if n == 0 {
      assert All([], enc) + b == b;
    } else {
      var (x, rest) := p(b).value;
      ManyReads(n - 1, p, enc, fits, rest);
      var (xs, end) := Many(n - 1, p, rest).value;
      AllCons(x, xs, enc, end);
    }
  }

  /** Every item takes at least `k` bytes. */
  lemma {:induction false} AllLong<T>(xs: seq<T>, enc: T -> Bytes, k: nat)
    requires forall x :: x in xs ==> |enc(x)| >= k
    ensures |All(xs, enc)| >= k * |xs|
  {
    if xs != [] {
      AllLong(xs[1..], enc, k);
      assert k * |xs| == k + k * |xs[1..]|;
    }
  }
}
