/** Loading a persisted index: the metapage, then the payload's three sections off the page walk, each inside its
    fence. */
module IndexLoader {
  import opened Base
  import opened ByteStrings
  import opened Pages
  import opened Loader
  import opened Payload
  import opened Images
  import Graphs
  import Hnsw
  import Decoder
  import GraphLoader
  import Codec

  datatype LoadError = OnPages(page: PageError) | InPayload(payload: PayloadError)

  // --- the tables ----------------------------------------------------------------------------

  method ReadTid(src: PageBytes) returns (r: Result<Tid, DecodeError>)
    requires src.Valid()
    modifies src
    ensures src.Valid() && src.left <= old(src.left)
    ensures r.Ok? ==> src.Slack() == old(src.Slack())
    ensures Follows(Payload.ReadTid, old(src.State()), r, src.State())
  {
    var entry :- ReadBytes(src, 6);
    r := Ok(Tid(FromLE(entry[..4]), FromLE(entry[4..])));
  }

  method ReadTids(src: PageBytes) returns (r: Result<seq<Tid>, DecodeError>)
    requires src.Valid()
    modifies src
    ensures src.Valid() && src.left <= old(src.left)
    ensures r.Ok? ==> src.Slack() == old(src.Slack())
    ensures Follows(Payload.ReadTids, old(src.State()), r, src.State())
  {
    hide Many, Payload.ReadTid, Uint, Looping, PageBytes.Slack;
    var count :- ReadUint(src, 8);
    if src.left / 6 < count { return Err(Truncated); }
    ghost var start := src.State();
    var tids, i := [], 0;
    LoopStart(count, Payload.ReadTid, start);
    while i < count
      invariant src.Valid() && src.left <= old(src.left) && src.Slack() == old(src.Slack()) && 0 <= i <= count
      invariant Looping(count, Payload.ReadTid, start, tids, count - i, src.State())
    {
      ghost var before := src.State();
      var tid := ReadTid(src);
      if tid.Err? {
        LoopFails(count, Payload.ReadTid, start, tids, count - i, before, tid.error, src.State());
        return Err(tid.error);
      }
      LoopStep(count, Payload.ReadTid, start, tids, count - i, before, tid.value, src.State());
      tids, i := tids + [tid.value], i + 1;
    }
    LoopEnd(count, Payload.ReadTid, start, tids, src.State());
    r := Ok(tids);
  }

  method ReadUnrankableRow(src: PageBytes) returns (r: Result<UnrankableRow, DecodeError>)
    requires src.Valid()
    modifies src
    ensures src.Valid() && src.left <= old(src.left)
    ensures r.Ok? ==> src.Slack() == old(src.Slack())
    ensures Follows(Payload.ReadUnrankableRow, old(src.State()), r, src.State())
  {
    hide Payload.ReadTid, Codec.ReadRow, PageBytes.Slack;
    var tid :- ReadTid(src);
    var attrs :- Loader.ReadRow(src);
    r := Ok(UnrankableRow(tid, attrs));
  }

  method ReadUnrankables(src: PageBytes) returns (r: Result<seq<UnrankableRow>, DecodeError>)
    requires src.Valid()
    modifies src
    ensures src.Valid() && src.left <= old(src.left)
    ensures r.Ok? ==> src.Slack() == old(src.Slack())
    ensures Follows(Payload.ReadUnrankables, old(src.State()), r, src.State())
  {
    hide Many, Payload.ReadUnrankableRow, Uint, Looping, PageBytes.Slack;
    var count :- ReadUint(src, 8);
    if src.left / 14 < count { return Err(Truncated); }
    ghost var start := src.State();
    var rows, i := [], 0;
    LoopStart(count, Payload.ReadUnrankableRow, start);
    while i < count
      invariant src.Valid() && src.left <= old(src.left) && src.Slack() == old(src.Slack()) && 0 <= i <= count
      invariant Looping(count, Payload.ReadUnrankableRow, start, rows, count - i, src.State())
    {
      ghost var before := src.State();
      var row := ReadUnrankableRow(src);
      if row.Err? {
        LoopFails(count, Payload.ReadUnrankableRow, start, rows, count - i, before, row.error, src.State());
        return Err(row.error);
      }
      LoopStep(count, Payload.ReadUnrankableRow, start, rows, count - i, before, row.value, src.State());
      rows, i := rows + [row.value], i + 1;
    }
    LoopEnd(count, Payload.ReadUnrankableRow, start, rows, src.State());
    r := Ok(rows);
  }

  method ReadTables(src: PageBytes) returns (r: Result<(seq<Tid>, seq<UnrankableRow>), PayloadError>)
    requires src.Valid()
    modifies src
    ensures src.Valid()
    ensures r.Ok? ==> src.Slack() == old(src.Slack()) && src.left == 0
    ensures old(src.State()).Some? ==> r == Payload.ReadTables(old(src.State()).value.view)
  {
    hide Payload.ReadTids, Payload.ReadUnrankables, PageBytes.Slack;
    var tids := ReadTids(src);
    if tids.Err? { return Err(Lifted(tids.error)); }
    var unrankable := ReadUnrankables(src);
    if unrankable.Err? { return Err(Lifted(unrankable.error)); }
    if src.left != 0 { return Err(TrailingBytes); }
    r := Ok((tids.value, unrankable.value));
  }

  // --- the whole index --------------------------------------------------------------------------

  /** The first row without a value for every attribute column. */
  method FindShortRow(rows: seq<UnrankableRow>, arity: nat) returns (r: Option<Tid>)
    ensures r == ShortRow(rows, arity)
  {
    var i := 0;
    while i < |rows|
      invariant 0 <= i <= |rows| && ShortRow(rows[i..], arity) == ShortRow(rows, arity)
    {
      assert rows[i..][0] == rows[i] && rows[i..][1..] == rows[i + 1..];
      if |rows[i].attrs| != arity { return Some(rows[i].tid); }
      i := i + 1;
    }
    r := None;
  }

  /** The three sections, the graph fenced off from the tables that follow it. */
  method LoadSections(k: Graphs.Kernel, arity: nat, src: PageBytes)
    returns (r: Result<(Hnsw.Hnsw, seq<Tid>, seq<UnrankableRow>), PayloadError>)
    requires src.Valid()
    modifies src
    ensures r.Ok? ==> fresh(r.value.0) && r.value.0.Consistent()
    ensures old(src.State()).None? ==> r.Err?
    ensures old(src.State()).Some? ==>
            match Load(k, arity, old(src.State()).value.view)
            case Ok(l) => r.Ok? && r.value.0.View() == l.graph && r.value.1 == l.tids && r.value.2 == l.unrankable
            case Err(e) => r == Err(e)
  {
    hide Decoder.Decode, Payload.ReadTables, Uint;
    var len := ReadUint(src, 8);
    if len.Err? { return Err(Short); }
    if len.value > src.left { return Err(Short); }
    var afterGraph := src.left - len.value;
    ghost var s := src.State();
    src.Limit(len.value);
    if s.Some? { Fence(s.value, len.value); }
    var h := GraphLoader.FromGraphBytes(k, src);
    if h.Err? { return Err(BadGraph(h.error)); }
    src.Limit(afterGraph);
    if s.Some? { FenceLifted(s.value, len.value); }
    var tables := ReadTables(src);
    if tables.Err? { return Err(tables.error); }
    var (tids, unrankable) := tables.value;
    var short := FindShortRow(unrankable, arity);
    if short.Some? { return Err(WrongArity(short.value)); }
    if h.value.n != |tids| { return Err(WrongLength(h.value.n, |tids|)); }
    r := Ok((h.value, tids, unrankable));
  }

  lemma Fence(s: Stream, len: nat)
    requires len <= |s.view|
    ensures s.All()[..len] == s.view[..len] && s.All()[len..] == s.view[len..] + s.beyond
  {
  }

  lemma FenceLifted(s: Stream, len: nat)
    requires len <= |s.view|
    ensures var rest := Stream([], s.view[len..] + s.beyond);
            rest.All()[..|s.view| - len] == s.view[len..] && |rest.All()| >= |s.view| - len
  {
    assert [] + (s.view[len..] + s.beyond) == s.view[len..] + s.beyond;
  }

  /** The blob a relation's pages hold, when they hold as much as the metapage declares. */
  function BlobOf(pages: seq<Bytes>, meta: Meta): Option<Bytes>
    requires pages != []
  {
    var all := Joined(pages[1..]);
    if meta.blobLen <= |all| then Some(all[..meta.blobLen]) else None
  }

  /** load_index_with_generation: what the slice path would make of the blob, read straight off the pages. */
  method LoadIndex(k: Graphs.Kernel, arity: nat, fork: Fork)
    returns (r: Result<(Hnsw.Hnsw, seq<Tid>, seq<UnrankableRow>, nat), LoadError>)
    ensures match MetaOf(fork.pages, fork.capacity)
            case Err(e) => r == Err(OnPages(e))
            case Ok(meta) =>
              match BlobOf(fork.pages, meta)
              case None => r.Err? && r.error.InPayload?
              case Some(blob) =>
                match Load(k, arity, blob)
                case Err(e) => r == Err(InPayload(e))
                case Ok(l) => r.Ok? && r.value.0.Consistent() && r.value.0.View() == l.graph && r.value.1 == l.tids
                              && r.value.2 == l.unrankable && r.value.3 == meta.generation
  {
    hide MetaOf, Load;
    var meta := fork.ReadMeta();
    if meta.Err? { return Err(OnPages(meta.error)); }
    var src := new PageBytes(fork.pages, meta.value.blobLen);
    var loaded := LoadSections(k, arity, src);
    if loaded.Err? { return Err(InPayload(loaded.error)); }
    r := Ok((loaded.value.0, loaded.value.1, loaded.value.2, meta.value.generation));
  }

  /** Pages as a write or a rewrite leaves them, whatever they held before: the index every backend then loads. */
  lemma StoredIsLoaded(k: Graphs.Kernel, arity: nat, pages: seq<Bytes>, capacity: nat, generation: nat, l: Loaded)
    requires Decoder.CapsGrow(k) && Decoder.Loadable(k, l.graph) && |l.tids| == Graphs.Size(l.graph)
    requires TablesFit(l.tids, l.unrankable) && forall x :: x in l.unrankable ==> |x.attrs| == arity
    requires var blob := EncodePayload(Decoder.Encode(l.graph), l.tids, l.unrankable);
             && |blob| < Bound(8) && MetaOf(pages, capacity) == Ok(Meta(|pages|, |blob|, generation))
             && Joined(pages[1..]) == blob
    ensures BlobOf(pages, MetaOf(pages, capacity).value).Some?
    ensures Load(k, arity, BlobOf(pages, MetaOf(pages, capacity).value).value) == Ok(l)
  {
    hide MetaOf, Load, Decoder.Loadable, Decoder.Encode, EncodePayload;
    Decoder.LoadableColumns(k, l.graph);
    var blob := EncodePayload(Decoder.Encode(l.graph), l.tids, l.unrankable);
    GraphShorter(Decoder.Encode(l.graph), l.tids, l.unrankable);
    LoadOfEncode(k, arity, l);
    assert Joined(pages[1..])[..|blob|] == blob;
  }

  lemma GraphShorter(graph: Bytes, tids: seq<Tid>, unrankable: seq<UnrankableRow>)
    ensures |graph| <= |EncodePayload(graph, tids, unrankable)|
  {
  }
}
