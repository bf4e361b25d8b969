/** The stored image's pages: a metapage, the blob in chunks, and the walk that hands the bytes back. */
module Pages {
  import opened Base
  import opened ByteStrings

  const META_MAGIC: nat := 0x4252_4E44
  const STORAGE_VERSION: nat := 3
  const META_SIZE: nat := 24
  const FIRST_GENERATION: nat := 1

  datatype PageError =
    NoPages | MetaTooShort(got: nat) | BadMetaMagic(got: nat) | OldFormat(version: nat) | LengthTooLarge(len: nat)
    | ForkNotEmpty

  datatype Meta = Meta(nblocks: nat, blobLen: nat, generation: nat)

  // --- the metapage ------------------------------------------------------------------------

  function EncodeMeta(blobLen: nat, generation: nat): (r: Bytes)
    ensures |r| == META_SIZE
  {
    LE(META_MAGIC, 4) + LE(STORAGE_VERSION, 4) + LE(blobLen, 8) + LE(generation, 8)
  }

  /** What the metapage says of a relation with these pages. The format is judged before the size, so an older, shorter
      metapage is told apart from a damaged one. */
  function MetaOf(pages: seq<Bytes>, capacity: nat): (r: Result<Meta, PageError>)
    ensures r.Ok? ==> pages != [] && r.value.nblocks == |pages| && r.value.blobLen <= (|pages| - 1) * capacity
  {
    if pages == [] then Err(NoPages) else
    var b := pages[0];
    if |b| < 8 then Err(MetaTooShort(|b|)) else
    if FromLE(b[..4]) != META_MAGIC then Err(BadMetaMagic(FromLE(b[..4]))) else
    if FromLE(b[4..8]) != STORAGE_VERSION then Err(OldFormat(FromLE(b[4..8]))) else
    if |b| < META_SIZE then Err(MetaTooShort(|b|)) else
    if FromLE(b[8..16]) > (|pages| - 1) * capacity then Err(LengthTooLarge(FromLE(b[8..16]))) else
    Ok(Meta(|pages|, FromLE(b[8..16]), FromLE(b[16..24])))
  }

  lemma Fields(a: Bytes, b: Bytes, c: Bytes, d: Bytes)
    requires |a| == 4 && |b| == 4 && |c| == 8 && |d| == 8
    ensures var s := a + b + c + d; s[..4] == a && s[4..8] == b && s[8..16] == c && s[16..24] == d
  {
  }

  lemma MetaOfEncoded(pages: seq<Bytes>, capacity: nat, blobLen: nat, generation: nat)
    requires pages != [] && pages[0] == EncodeMeta(blobLen, generation)
    requires blobLen < Bound(8) && generation < Bound(8) && blobLen <= (|pages| - 1) * capacity
    ensures MetaOf(pages, capacity) == Ok(Meta(|pages|, blobLen, generation))
  {
    hide LE, FromLE;
    Fields(LE(META_MAGIC, 4), LE(STORAGE_VERSION, 4), LE(blobLen, 8), LE(generation, 8));
    FromLEOfLE(META_MAGIC, 4);
    FromLEOfLE(STORAGE_VERSION, 4);
    FromLEOfLE(blobLen, 8);
    FromLEOfLE(generation, 8);
  }

  // --- chunks ----------------------------------------------------------------------------------

  /** The blob in runs of `capacity` bytes, the last one shorter. */
  function Chunks(blob: Bytes, capacity: nat): (r: seq<Bytes>)
    requires capacity > 0
  {
    if |blob| <= capacity then (if blob == [] then [] else [blob])
    else [blob[..capacity]] + Chunks(blob[capacity..], capacity)
  }

  function Joined(pages: seq<Bytes>): Bytes { if pages == [] then [] else pages[0] + Joined(pages[1..]) }

  predicate Fitting(pages: seq<Bytes>, capacity: nat) { forall i :: 0 <= i < |pages| ==> |pages[i]| <= capacity }

  lemma {:induction false} ChunksJoin(blob: Bytes, capacity: nat)
    requires capacity > 0
    ensures Joined(Chunks(blob, capacity)) == blob && Fitting(Chunks(blob, capacity), capacity)
  {
    if |blob| > capacity {
      var first, rest := blob[..capacity], Chunks(blob[capacity..], capacity);
      ChunksJoin(blob[capacity..], capacity);
      assert Chunks(blob, capacity) == [first] + rest && ([first] + rest)[1..] == rest;
      assert blob == first + blob[capacity..];
    } else if blob != [] {
      assert [blob][1..] == [];
    }
  }

  lemma OneMore(n: nat, capacity: nat)
    ensures (n + 1) * capacity == n * capacity + capacity
  {
  }

  lemma {:induction false} ChunksHold(blob: Bytes, capacity: nat)
    requires capacity > 0
    ensures |blob| <= |Chunks(blob, capacity)| * capacity
  {
    if |blob| > capacity {
      ChunksHold(blob[capacity..], capacity);
      OneMore(|Chunks(blob[capacity..], capacity)|, capacity);
    } else if blob != [] {
      OneMore(0, capacity);
    }
  }

  lemma {:induction false} JoinedAppend(a: seq<Bytes>, b: seq<Bytes>)
    ensures Joined(a + b) == Joined(a) + Joined(b)
  {
    if a == [] {
      assert a + b == b;
    } else {
      assert (a + b)[1..] == a[1..] + b;
      JoinedAppend(a[1..], b);
    }
  }

  lemma {:induction false} JoinedEmpty(pages: seq<Bytes>)
    requires forall i :: 0 <= i < |pages| ==> pages[i] == []
    ensures Joined(pages) == []
  {
    if pages != [] { JoinedEmpty(pages[1..]); }
  }

  /** Data pages followed by emptied ones hold just the data. */
  lemma TailEmptied(pages: seq<Bytes>, chunks: seq<Bytes>)
    requires |chunks| <= |pages| && pages[..|chunks|] == chunks
    requires forall i :: |chunks| <= i < |pages| ==> pages[i] == []
    ensures Joined(pages) == Joined(chunks)
  {
    var tail := pages[|chunks|..];
    assert pages == chunks + tail;
    JoinedAppend(chunks, tail);
    JoinedEmpty(tail);
  }

  /** The main fork of an index relation: each page's content area, up to the end its header marks. */
  class Fork {
    const capacity: nat
    var pages: seq<Bytes>

    ghost predicate Valid()
      reads this
    {
      META_SIZE <= capacity && Fitting(pages, capacity)
    }

    /** A freshly created relfilenode. */
    constructor (capacity: nat)
      requires META_SIZE <= capacity
      ensures Valid() && pages == [] && this.capacity == capacity
    {
      this.capacity := capacity;
      pages := [];
    }

    /** Re-initialize a page, or append one. */
    method WritePage(target: Option<nat>, contents: Bytes)
      requires Valid() && |contents| <= capacity && (target.Some? ==> target.value < |pages|)
      modifies this
      ensures Valid()
      ensures pages == match target case None => old(pages) + [contents] case Some(b) => old(pages)[b := contents]
    {
      match target {
        case None => pages := pages + [contents];
        case Some(b) => pages := pages[b := contents];
      }
    }

    method ReadMeta() returns (r: Result<Meta, PageError>)
      ensures r == MetaOf(pages, capacity)
    {
      r := MetaOf(pages, capacity);
    }

    /** write_index_blob: only into an empty fork. */
    method WriteIndexBlob(blob: Bytes) returns (r: Result<(), PageError>)
      requires Valid() && |blob| < Bound(8)
      modifies this
      ensures Valid()
      ensures old(pages) != [] ==> r == Err(ForkNotEmpty) && pages == old(pages)
      ensures old(pages) == [] ==>
              && r.Ok? && MetaOf(pages, capacity) == Ok(Meta(|pages|, |blob|, FIRST_GENERATION))
              && Joined(pages[1..]) == blob
    {
      hide MetaOf, EncodeMeta, Chunks, Joined;
      if |pages| != 0 { return Err(ForkNotEmpty); }
      WritePage(None, EncodeMeta(|blob|, FIRST_GENERATION));
      var chunks, i := Chunks(blob, capacity), 0;
      ChunksJoin(blob, capacity);
      ChunksHold(blob, capacity);
      while i < |chunks|
        invariant Valid() && 0 <= i <= |chunks| && pages == [EncodeMeta(|blob|, FIRST_GENERATION)] + chunks[..i]
      {
        WritePage(None, chunks[i]);
        i := i + 1;
      }
      assert chunks[..i] == chunks && pages[1..] == chunks;
      MetaOfEncoded(pages, capacity, |blob|, FIRST_GENERATION);
      r := Ok(());
    }

    /** rewrite_index_blob: reuse pages, extend when the blob outgrows them, empty what is left over; advance the
        generation. */
    method RewriteIndexBlob(blob: Bytes) returns (r: Result<(), PageError>)
      requires Valid() && |blob| < Bound(8)
      modifies this
      ensures Valid() && |pages| >= |old(pages)|
      ensures match MetaOf(old(pages), capacity)
              case Err(e) => r == Err(e) && pages == old(pages)
              case Ok(meta) =>
                && r.Ok? && MetaOf(pages, capacity) == Ok(Meta(|pages|, |blob|, (meta.generation + 1) % Bound(8)))
                && Joined(pages[1..]) == blob
    {
      hide MetaOf, EncodeMeta, Chunks, Joined;
      var existing := |pages|;
      var was := ReadMeta();
      if was.Err? { return Err(was.error); }
      var generation := (was.value.generation + 1) % Bound(8);
      var contents := [EncodeMeta(|blob|, generation)] + Chunks(blob, capacity);
      ChunksJoin(blob, capacity);
      var blkno := 0;
      while blkno < |contents|
        invariant Valid() && 0 <= blkno <= |contents|
        invariant |pages| == if blkno <= existing then existing else blkno
        invariant pages[..blkno] == contents[..blkno]
      {
        ghost var was := pages;
        WritePage(if blkno < existing then Some(blkno) else None, contents[blkno]);
        WritesNext(was, pages, contents, blkno);
        blkno := blkno + 1;
      }
      while blkno < existing
        invariant Valid() && |contents| <= blkno <= |pages| && |pages| ==
                  if |contents| <= existing then existing else |contents|
        invariant pages[..|contents|] == contents
        invariant forall i :: |contents| <= i < blkno ==> pages[i] == []
      {
        WritePage(Some(blkno), []);
        blkno := blkno + 1;
      }
      Rewritten(pages, contents, blob, capacity, generation);
      r := Ok(());
    }
  }

  /** A page written where the contents so far end, over an old one or after the last. */
  lemma WritesNext(was: seq<Bytes>, now: seq<Bytes>, contents: seq<Bytes>, i: nat)
    requires i < |contents| && i <= |was| && was[..i] == contents[..i]
    requires now == if i < |was| then was[i := contents[i]] else was + [contents[i]]
    ensures now[..i + 1] == contents[..i + 1]
  {
    assert now[..i] == was[..i];
    assert now[..i + 1] == now[..i] + [contents[i]] && contents[..i + 1] == contents[..i] + [contents[i]];
  }

  lemma Rewritten(pages: seq<Bytes>, contents: seq<Bytes>, blob: Bytes, capacity: nat, generation: nat)
    requires capacity > 0 && |blob| < Bound(8) && generation < Bound(8)
    requires contents == [EncodeMeta(|blob|, generation)] + Chunks(blob, capacity)
    requires |contents| <= |pages| && pages[..|contents|] == contents
    requires forall i :: |contents| <= i < |pages| ==> pages[i] == []
    ensures MetaOf(pages, capacity) == Ok(Meta(|pages|, |blob|, generation)) && Joined(pages[1..]) == blob
  {
    var chunks := Chunks(blob, capacity);
    ChunksJoin(blob, capacity);
    ChunksHold(blob, capacity);
    assert pages[0] == pages[..|contents|][0] == EncodeMeta(|blob|, generation);
    assert pages[1..][..|chunks|] == pages[..|contents|][1..] == chunks;
    TailEmptied(pages[1..], chunks);
    More(|chunks|, |pages| - 1, capacity);
    MetaOfEncoded(pages, capacity, |blob|, generation);
  }

  lemma More(a: nat, b: nat, c: nat)
    requires a <= b
    ensures a * c <= b * c
  {
  }

  /** Bytes this side of the fence, and beyond it. */
  datatype Stream = Stream(view: Bytes, beyond: Bytes) {
    function All(): Bytes { view + beyond }
  }

  // --- the walk ------------------------------------------------------------------------------------

  /** The blob a page at a time, up to a limit. The image lock is held throughout, so the pages stand still. */
  class PageBytes {
    const pages: seq<Bytes>
    var blkno: nat
    var page: Bytes
    var pos: nat
    var left: nat

    /** Block 0 is the metapage, already consumed. */
    constructor (pages: seq<Bytes>, blobLen: nat)
      requires pages != []
      ensures Valid() && this.pages == pages && left == blobLen && Available() == Joined(pages[1..])
      ensures blobLen <= |Joined(pages[1..])| ==>
              State() == Some(Stream(Joined(pages[1..])[..blobLen], Joined(pages[1..])[blobLen..]))
    {
      this.pages := pages;
      blkno, page, pos, left := 1, [], 0, blobLen;
    }

    ghost predicate Valid()
      reads this
    {
      pos <= |page| && blkno <= |pages|
    }

    /** Everything the pages can still supply. */
    ghost function Available(): Bytes
      requires Valid()
      reads this
    {
      page[pos..] + Joined(pages[blkno..])
    }

    /** The pages hold what the limit promises. */
    ghost predicate Supplied()
      reads this
    {
      Valid() && left <= |Available()|
    }

    /** By how much the pages hold more than the limit promises; negative when they hold less. */
    ghost function Slack(): int
      requires Valid()
      reads this
    {
      |Available()| - left
    }

    /** What is left to hand out. */
    ghost function View(): Bytes
      requires Supplied()
      reads this
    {
      Available()[..left]
    }

    /** What is left to hand out, and what the limit holds back. */
    ghost function State(): Option<Stream>
      reads this
    {
      if Supplied() then Some(Stream(View(), Available()[left..])) else None
    }

    /** Serve the next page; false once none is left. */
    method Advance() returns (more: bool)
      requires Valid() && pos == |page|
      modifies this
      ensures Valid() && Available() == old(Available()) && left == old(left)
      ensures more ==> blkno == old(blkno) + 1
      ensures !more ==> Available() == []
    {
      page, pos := [], 0;
      if blkno >= |pages| { return false; }
      assert pages[blkno..] == [pages[blkno]] + pages[blkno + 1..];
      assert pages[blkno..][1..] == pages[blkno + 1..];
      page := pages[blkno];
      blkno := blkno + 1;
      more := true;
    }

    method Limit(bytes: nat)
      requires Valid()
      modifies this
      ensures Valid() && Available() == old(Available()) && left == bytes
      ensures old(State()).Some? && bytes <= |old(State()).value.All()| ==>
              var all := old(State()).value.All(); State() == Some(Stream(all[..bytes], all[bytes..]))
    {
      ghost var s := State();
      left := bytes;
      assert s.Some? ==> s.value.All() == Available();
    }

    /** What this page has of the next `n` bytes. */
    method TakeHere(n: nat) returns (b: Bytes)
      requires Valid() && pos < |page| && n > 0
      modifies this`pos
      ensures Valid() && 0 < |b| <= n && b + Available() == old(Available())
    {
      hide Joined;
      var take := if n <= |page| - pos then n else |page| - pos;
      b := page[pos..pos + take];
      Taken(page, pos, take, Joined(pages[blkno..]));
      pos := pos + take;
    }

    /** The next `n` bytes, whatever pages they are on. */
    method ReadExact(n: nat) returns (r: Result<Bytes, DecodeError>)
      requires Valid()
      modifies this
      ensures Valid()
      ensures n > old(left) ==> r == Err(Truncated) && Available() == old(Available()) && left == old(left)
      ensures n <= old(left) && n > |old(Available())| ==> r == Err(Truncated) && left == old(left)
      ensures n <= old(left) && n <= |old(Available())| ==>
              r == Ok(old(Available())[..n]) && Available() == old(Available())[n..] && left == old(left) - n
    {
      hide Joined;
      if n > left { return Err(Truncated); }
      var out: Bytes := [];
      while |out| < n
        invariant Valid() && |out| <= n && left == old(left)
        invariant out + Available() == old(Available())
        decreases n - |out|, |pages| - blkno
      {
        if pos == |page| {
          var more := Advance();
          if !more {
            SplitAt(out, Available(), old(Available()));
            return Err(Truncated);
          }
          continue;
        }
        var b := TakeHere(n - |out|);
        assert (out + b) + Available() == out + (b + Available());
        out := out + b;
      }
      SplitAt(out, Available(), old(Available()));
      left := left - n;
      r := Ok(out);
    }
  }

  lemma SplitAt(out: Bytes, rest: Bytes, all: Bytes)
    requires out + rest == all
    ensures |all| == |out| + |rest| && out == all[..|out|] && rest == all[|out|..]
  {
  }

  lemma Taken(page: Bytes, pos: nat, take: nat, rest: Bytes)
    requires pos + take <= |page|
    ensures page[pos..pos + take] + (page[pos + take..] + rest) == page[pos..] + rest
  {
    assert page[pos..] == page[pos..pos + take] + page[pos + take..];
  }
}
