/** The backend's cache of decoded indexes: checked by generation, filled under a second lock, bounded in bytes. */
module Cache {
  import opened Base

  /** A physical relation; a rebuild writes a fresh one. */
  type Key = nat

  /** What the metapage names: a generation and the image stored with it, and that image's decoded size. */
  datatype Stored<I> = Stored(generation: nat, image: I, bytes: nat)

  type Relations<I> = map<Key, Stored<I>>

  /** What other backends may do between two lock acquisitions: write, moving the generation each time. */
  ghost predicate Evolves<I>(before: Relations<I>, after: Relations<I>) {
    forall k :: k in before ==>
      && k in after
      && before[k].generation <= after[k].generation
      && (before[k].generation == after[k].generation ==> after[k] == before[k])
  }

  /** One write, or a rebuild under a fresh key. */
  function Write<I>(r: Relations<I>, k: Key, image: I, bytes: nat): Relations<I> {
    r[k := Stored(if k in r then r[k].generation + 1 else 1, image, bytes)]
  }

  function Writes<I>(r: Relations<I>, ws: seq<(Key, I, nat)>): Relations<I> {
    if ws == [] then r else
    var w := ws[|ws| - 1];
    Write(Writes(r, ws[..|ws| - 1]), w.0, w.1, w.2)
  }

  lemma {:induction false} WritesEvolve<I>(r: Relations<I>, ws: seq<(Key, I, nat)>)
    ensures Evolves(r, Writes(r, ws))
  {
    if ws != [] { WritesEvolve(r, ws[..|ws| - 1]); }
  }

  datatype Entry<I> = Entry(generation: nat, bytes: nat, image: I)

  /** An entry of the current generation is the current image; the rest are history. */
  ghost predicate Fresh<I>(cache: map<Key, Entry<I>>, r: Relations<I>) {
    forall k :: k in cache ==>
      && k in r
      && cache[k].generation <= r[k].generation
      && (cache[k].generation == r[k].generation ==> cache[k].image == r[k].image && cache[k].bytes == r[k].bytes)
  }

  /** Other backends' writes only ever turn entries into history. */
  lemma FreshEvolves<I>(cache: map<Key, Entry<I>>, before: Relations<I>, after: Relations<I>)
    requires Fresh(cache, before) && Evolves(before, after)
    ensures Fresh(cache, after)
  {
  }

  // --- bytes -----------------------------------------------------------------------

  ghost function Total<I>(cache: map<Key, Entry<I>>): nat
    decreases |cache.Keys|
  {
    if cache == map[] then 0 else
    var k :| k in cache;
    assert |(cache - {k}).Keys| < |cache.Keys| by { assert (cache - {k}).Keys == cache.Keys - {k}; }
    cache[k].bytes + Total(cache - {k})
  }

  /** The sum does not depend on the order entries are taken in. */
  lemma {:induction false} TotalRemove<I>(cache: map<Key, Entry<I>>, k: Key)
    requires k in cache
    ensures Total(cache) == cache[k].bytes + Total(cache - {k})
    decreases |cache.Keys|
  {
    var j :| j in cache && Total(cache) == cache[j].bytes + Total(cache - {j});
    if j != k {
      assert (cache - {k}).Keys == cache.Keys - {k} && (cache - {j}).Keys == cache.Keys - {j};
      TotalRemove(cache - {j}, k);
      TotalRemove(cache - {k}, j);
      assert cache - {j} - {k} == cache - {k} - {j};
    }
  }

  lemma TotalInsert<I>(cache: map<Key, Entry<I>>, k: Key, e: Entry<I>)
    requires k !in cache
    ensures Total(cache[k := e]) == Total(cache) + e.bytes
  {
    TotalRemove(cache[k := e], k);
    assert cache[k := e] - {k} == cache;
  }

  /** An eviction that spared only `k` left nothing else. */
  lemma OnlySpared<I>(cache: map<Key, Entry<I>>, k: Key)
    ensures (forall j :: j in cache ==> Some(j) == Some(k)) ==> Total(cache - {k}) == 0
    ensures k !in cache ==> Total(cache - {k}) == Total(cache)
    ensures (forall j :: j in cache ==> Some(j) == None) ==> Total(cache) == 0
  {
    if forall j :: j in cache ==> Some(j) == Some(k) { assert cache - {k} == map[]; }
    if k !in cache { assert cache - {k} == cache; }
    if forall j :: j in cache ==> Some(j) == None { assert cache == map[]; }
  }

  datatype Handle<I> = Cached(image: I) | Fetched(image: I)

  /** A copy of this generation is kept, and may still be. */
  predicate Holds<I>(cache: map<Key, Entry<I>>, key: Key, generation: nat, ceiling: nat) {
    key in cache && cache[key].generation == generation && cache[key].bytes <= ceiling && ceiling > 0
  }

  class BackendCache<I> {
    var cache: map<Key, Entry<I>>

    constructor ()
      ensures cache == map[]
    {
      cache := map[];
    }

    /** HashMap iteration: some key other than `spare`, if there is one. */
    static method Victim(cache: map<Key, Entry<I>>, spare: Option<Key>) returns (v: Option<Key>)
      ensures v.Some? ==> v.value in cache && Some(v.value) != spare
      ensures v.None? ==> forall k :: k in cache ==> Some(k) == spare
    {
      if k :| k in cache && Some(k) != spare { v := Some(k); } else { v := None; }
    }

    static method SumBytes(cache: map<Key, Entry<I>>) returns (total: nat)
      ensures total == Total(cache)
    {
      total := 0;
      var rest := cache;
      while rest != map[]
        invariant total + Total(rest) == Total(cache)
        decreases |rest.Keys|
      {
        var k :| k in rest.Keys;
        TotalRemove(rest, k);
        assert (rest - {k}).Keys == rest.Keys - {k};
        total := total + rest[k].bytes;
        rest := rest - {k};
      }
    }

    /** Evict until `total + room` fits, sparing one key; stops early only when nothing else is left. */
    method Evict(room: nat, ceiling: nat, spare: Option<Key>)
      modifies this
      ensures cache.Keys <= old(cache.Keys) && forall k :: k in cache ==> cache[k] == old(cache)[k]
      ensures spare.Some? && spare.value in old(cache) ==> spare.value in cache
      ensures Total(cache) + room <= ceiling || forall k :: k in cache ==> Some(k) == spare
      ensures old(Total(cache)) + room <= ceiling ==> cache == old(cache)
    {
      var total := SumBytes(cache);
      while total + room > ceiling
        invariant total == Total(cache)
        invariant cache.Keys <= old(cache.Keys) && forall k :: k in cache ==> cache[k] == old(cache)[k]
        invariant spare.Some? && spare.value in old(cache) ==> spare.value in cache
        invariant old(Total(cache)) + room <= ceiling ==> cache == old(cache)
        decreases |cache.Keys|
      {
        var v := Victim(cache, spare);
        if v.None? { break; }
        TotalRemove(cache, v.value);
        assert (cache - {v.value}).Keys == cache.Keys - {v.value};
        total := total - cache[v.value].bytes;
        cache := cache - {v.value};
      }
    }

    /** The lookup half of cached_index, under the generation read from the metapage. */
    method Lookup(key: Key, generation: nat, ceiling: nat) returns (hit: Option<I>)
      modifies this
      ensures cache.Keys <= old(cache.Keys) && forall k :: k in cache ==> cache[k] == old(cache)[k]
      ensures Total(cache) <= ceiling
      ensures hit.Some? <==> Holds(old(cache), key, generation, ceiling)
      ensures hit.Some? ==> key in cache && hit.value == old(cache)[key].image
      ensures hit.None? ==> key !in cache
      ensures ceiling == 0 ==> cache == map[]
    {
      if ceiling == 0 {
        cache := map[];
        return None;
      }
      Evict(0, ceiling, Some(key));
      if key !in cache {
        OnlySpared(cache, key);
        return None;
      }
      if cache[key].generation != generation || cache[key].bytes > ceiling {
        TotalRemove(cache, key);
        OnlySpared(cache, key);
        cache := cache - {key};
        return None;
      }
      TotalRemove(cache, key);
      OnlySpared(cache, key);
      hit := Some(cache[key].image);
    }

    /** The fill half: keep the decoded copy under the generation read *before* it was loaded. */
    method Fill(key: Key, entry: Entry<I>, ceiling: nat)
      requires key !in cache && entry.bytes <= ceiling
      modifies this
      ensures cache.Keys <= old(cache.Keys) + {key} && key in cache && cache[key] == entry
      ensures forall k :: k in cache && k != key ==> k in old(cache) && cache[k] == old(cache)[k]
      ensures Total(cache) <= ceiling
    {
      Evict(entry.bytes, ceiling, None);
      OnlySpared(cache, key);
      TotalInsert(cache, key, entry);
      cache := cache[key := entry];
    }

    /** cached_index. `probed` and `loaded` are the relations at the two lock acquisitions, with whatever
        other backends wrote in between. A hit serves the image the metapage named when its generation was
        read, a miss the image stored when it was loaded, and the cache never holds more than the ceiling. */
    method CachedIndex(key: Key, ghost probed: Relations<I>, generation: nat, loaded: Stored<I>,
                       ghost after: Relations<I>,
                       ceiling: nat) returns (h: Handle<I>, ghost hit: bool)
      requires Fresh(cache, probed) && Evolves(probed, after)
      requires key in probed && probed[key].generation == generation
      requires key in after && after[key] == loaded
      modifies this
      ensures hit <==> Holds(old(cache), key, generation, ceiling)
      ensures hit ==> h == Cached(probed[key].image)
      ensures !hit ==> h.image == after[key].image
      ensures Fresh(cache, after)
      ensures Total(cache) <= ceiling
      ensures h.Fetched? <==> !hit && (ceiling == 0 || loaded.bytes > ceiling)
      ensures h.Cached? ==> Holds(cache, key, generation, ceiling)
    {
      FreshEvolves(cache, probed, after);
      var found := Lookup(key, generation, ceiling);
      if found.Some? { return Cached(found.value), true; }
      hit := false;
      if ceiling == 0 || loaded.bytes > ceiling { return Fetched(loaded.image), false; }
      Fill(key, Entry(generation, loaded.bytes, loaded.image), ceiling);
      h := Cached(loaded.image);
    }
  }
}
