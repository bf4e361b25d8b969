/** The backend's own cells and loops, proved against the functions of modules Stash and Pending. */
module Backend {
  import opened Base
  import opened Images
  import opened Stash
  import opened Pending

  /** The stored images, shared by every backend. */
  class Server {
    var store: Store

    constructor ()
      ensures store == map[]
    {
      store := map[];
    }

    /** ambulkdelete: tombstone or drop what VACUUM removes, and rewrite only if that changed the image. */
    method BulkDelete(file: Relfile, gone: set<Tid>) returns (removed: nat)
      requires file in store && Valid(store[file].image)
      modifies this
      ensures var was := old(store)[file];
              store == if Vacuumed(was.image, gone) == was.image then old(store)
                       else old(store)[file := Stored(was.generation + 1, Vacuumed(was.image, gone))]
      ensures var was, now := old(store)[file].image, store[file].image;
              removed == (|Dead(now.graph)| - |Dead(was.graph)|) + (|was.unrankable| - |now.unrankable|)
      ensures removed == 0 <==> store == old(store)
    {
      var img := store[file].image;
      var g, tombstoned := TombstoneNodes(img, gone);
      var kept := RetainLive(img.unrankable, gone);
      TombstoneGoneDead(img.graph, img.tids, gone, |img.tids|);
      removed := tombstoned + (|img.unrankable| - |kept|);
      if removed > 0 {
        store := store[file := Stored(store[file].generation + 1, Image(g, img.tids, kept))];
      }
    }

    static method TombstoneNodes(img: Image, gone: set<Tid>) returns (g: Graph, removed: nat)
      ensures g == TombstoneGone(img.graph, img.tids, gone, |img.tids|)
      ensures removed == |Dead(g)| - |Dead(img.graph)|
      ensures removed == 0 ==> g == img.graph
    {
      var id := 0;
      g, removed := img.graph, 0;
      while id < |img.tids|
        invariant 0 <= id <= |img.tids|
        invariant g == TombstoneGone(img.graph, img.tids, gone, id)
        invariant removed == |Dead(g)| - |Dead(img.graph)|
        invariant removed == 0 ==> g == img.graph
      {
        if img.tids[id] in gone && id !in Dead(g) {
          g := Tombstone(g, id);
          removed := removed + 1;
        }
        id := id + 1;
      }
    }

    static method RetainLive(rows: seq<UnrankableRow>, gone: set<Tid>) returns (kept: seq<UnrankableRow>)
      ensures kept == KeepLive(rows, gone) && |kept| <= |rows|
      ensures |kept| == |rows| ==> kept == rows
    {
      var k := 0;
      kept := [];
      while k < |rows|
        invariant 0 <= k <= |rows|
        invariant kept == KeepLive(rows[..k], gone) && |kept| <= k
        invariant |kept| == k ==> kept == rows[..k]
      {
        assert rows[..k + 1][..k] == rows[..k];
        if rows[k].tid !in gone { kept := kept + [rows[k]]; }
        k := k + 1;
      }
      assert rows[..k] == rows;
    }
  }

  /** One more row decides the next prefix, and a refusal decides them all. */
  lemma ReplayNext(img: Image, rows: seq<RankedRow>, i: nat)
    requires i < |rows| && ReplayRows(img, rows[..i]).Some?
    ensures var m := ReplayRows(img, rows[..i]).value;
            if Accepts(m.graph, rows[i].node.vector)
            then ReplayRows(img, rows[..i + 1])
                 == Some(Image(Insert(m.graph, rows[i].node), m.tids + [rows[i].tid], m.unrankable))
            else ReplayRows(img, rows) == None
  {
    assert rows[..i + 1][..i] == rows[..i] && rows[..i + 1][i] == rows[i];
    assert rows == rows[..i + 1] + rows[i + 1..];
    ReplayRowsAppend(img, rows[..i + 1], rows[i + 1..]);
  }

  class Backend {
    var pending: Option<PendingWrite>
    var discarded: seq<SetAside<PendingWrite>>

    function View(): Local<PendingWrite>
      reads this
    {
      Local(pending, discarded)
    }

    constructor ()
      ensures View() == Local(None, [])
    {
      pending := None;
      discarded := [];
    }

    /** Append ranked rows `from..to` of `w` to a freshly loaded image, one insertion at a time. */
    static method Apply(img: Image, w: PendingWrite, count: nat) returns (r: Option<Image>)
      requires Shaped(w) && count <= |Ranked(w)|
      ensures r == ReplayRows(img, Ranked(w)[..count])
    {
      var m, i := img, 0;
      ghost var rows := Ranked(w)[..count];
      while i < count
        invariant 0 <= i <= count
        invariant ReplayRows(img, rows[..i]) == Some(m)
      {
        var id := w.baseN + i;
        assert rows[i] == RankedRow(Nodes(w.image.graph)[id], w.image.tids[id]);
        ReplayNext(img, rows, i);
        var vector := Nodes(w.image.graph)[id].vector;
        if !Accepts(m.graph, vector) { return None; }
        m := Image(Insert(m.graph, Nodes(w.image.graph)[id]), m.tids + [w.image.tids[id]], m.unrankable);
        i := i + 1;
      }
      assert rows[..i] == rows;
      r := Some(m);
    }

    /** flush_locked, under the image lock: write directly, or replay when another backend wrote meanwhile. */
    static method FlushLocked(server: Server, write: Option<PendingWrite>, cat: Catalog) returns (refused: bool)
      requires Openable(write, cat, server.store)
      modifies server
      ensures var r := Flush(write, cat, old(server.store)); server.store == r.store && refused == r.refused
    {
      if write.None? { return false; }
      var w := write.value;
      var s := server.store[cat[w.indexOid]];
      var img: Image;
      if s.generation == w.baseGeneration {
        img := w.image;
      } else {
        var r := Apply(s.image, w, |w.image.tids| - w.baseN);
        assert Ranked(w)[..|Ranked(w)|] == Ranked(w);
        if r.None? { return true; }
        img := r.value.(unrankable := s.image.unrankable + w.image.unrankable[w.baseUnrankable..]);
      }
      server.store := server.store[cat[w.indexOid] := Stored(s.generation + 1, img)];
      refused := false;
    }

    /** settle_pending: carry out a recorded rewind by replaying the survivors onto the stored image. */
    method SettlePending(server: Server, cat: Catalog) returns (refused: bool)
      requires Openable(pending, cat, server.store)
      modifies this`pending
      ensures var r := Settle(old(pending), cat, server.store); pending == r.pending && refused == r.refused
    {
      if pending.None? || pending.value.ledger.rewindTo.None? { return false; }
      var w, mark := pending.value, pending.value.ledger.rewindTo.value;
      pending := None;
      if mark == NOTHING { return false; }
      var s := server.store[cat[w.indexOid]];
      var r := Apply(s.image, w, mark.rows);
      if r.None? { return true; }
      var vrows := s.image.unrankable + w.image.unrankable[w.baseUnrankable..][..mark.vrows];
      pending := Some(PendingWrite(w.indexOid, s.generation, r.value.(unrankable := vrows),
                                   |s.image.tids|, |s.image.unrankable|, Ledger(w.ledger.marks, None)));
      refused := false;
    }

    /** pending_insert. */
    method PendingInsert(server: Server, oid: Oid, row: NewRow, cat: Catalog) returns (refused: bool)
      requires Openable(pending, cat, server.store) && Opens(cat, server.store, oid)
      modifies this`pending, server
      ensures var r := InsertRow(old(pending), oid, row, cat, old(server.store));
              pending == r.pending && server.store == r.store && refused == r.refused
    {
      SettleOpenable(pending, cat, server.store);
      refused := SettlePending(server, cat);
      if refused { return; }
      if pending.Some? && pending.value.indexOid != oid {
        var write := pending;
        pending := None;
        refused := FlushLocked(server, write, cat);
        if refused { return; }
      }
      if pending.None? {
        pending := Some(Load(oid, server.store[cat[oid]]));
      }
      var staged := Stage(pending.value, row);
      if staged.None? { return true; }
      pending := staged;
    }

    /** flush_pending_for. */
    method FlushPendingFor(server: Server, oid: Oid, cat: Catalog) returns (refused: bool)
      requires Openable(pending, cat, server.store)
      modifies this`pending, server
      ensures var r := Read(old(pending), oid, cat, old(server.store));
              pending == r.pending && server.store == r.store && refused == r.refused
    {
      SettleOpenable(pending, cat, server.store);
      refused := SettlePending(server, cat);
      if refused { return; }
      if pending.Some? && pending.value.indexOid == oid {
        var write := pending;
        pending := None;
        refused := FlushLocked(server, write, cat);
      }
    }

    /** flush_pending. */
    method FlushPending(server: Server, cat: Catalog) returns (refused: bool)
      requires Openable(pending, cat, server.store)
      modifies this`pending, server
      ensures var r := WriteBack(old(pending), cat, old(server.store));
              pending == r.pending && server.store == r.store && refused == r.refused
    {
      SettleOpenable(pending, cat, server.store);
      refused := SettlePending(server, cat);
      if refused { return; }
      var write := pending;
      pending := None;
      refused := FlushLocked(server, write, cat);
    }

    /** The commit half of xact_callback. */
    method PreCommit(server: Server, cat: Catalog) returns (refused: bool)
      requires Openable(pending, cat, server.store)
      modifies this, server
      ensures var r := WriteBack(old(pending), cat, old(server.store));
              server.store == r.store && refused == r.refused
              && View() == Local(r.pending, if refused then old(discarded) else [])
    {
      refused := FlushPending(server, cat);
      if refused { return; }
      discarded := [];
    }

    /** The abort half: nothing was written, so dropping the mutations is the rollback. */
    method AbortTransaction()
      modifies this
      ensures View() == Local(None, [])
    {
      pending := None;
      discarded := [];
    }

    /** forget_pending. */
    method ForgetPending(oid: Oid, subid: SubId)
      modifies this
      ensures View() == Forget(old(View()), old(pending.Some? && pending.value.indexOid == oid), subid)
    {
      if pending.None? || pending.value.indexOid != oid { return; }
      var write := pending.value;
      pending := None;
      var at := Position(discarded, subid);
      if at < |discarded| { return; }
      discarded := discarded + [SetAside(subid, write)];
    }

    static method Position(stash: seq<SetAside<PendingWrite>>, subid: SubId) returns (at: nat)
      ensures at == FirstOf(stash, subid)
    {
      at := 0;
      while at < |stash| && stash[at].subid != subid
        invariant 0 <= at <= |stash|
        invariant forall i :: 0 <= i < at ==> stash[i].subid != subid
      {
        at := at + 1;
      }
    }

    static method Retain(stash: seq<SetAside<PendingWrite>>, subid: SubId) returns (rest: seq<SetAside<PendingWrite>>)
      ensures rest == Without(stash, subid)
    {
      rest := [];
      var i := 0;
      while i < |stash|
        invariant 0 <= i <= |stash|
        invariant rest == Without(stash[..i], subid)
      {
        assert stash[..i + 1][..i] == stash[..i];
        if stash[i].subid != subid { rest := rest + [stash[i]]; }
        i := i + 1;
      }
      assert stash[..i] == stash;
    }

    /** subxact_callback: settle the stash's question, then move every write's bookkeeping across the boundary. */
    method SubxactCallback(ev: SubEvent, my: SubId, parent: SubId)
      modifies this
      ensures View() == SubxactEvent(old(View()), ev, my, parent)
    {
      match ev {
        case AbortSub =>
          var at := Position(discarded, my);
          if at < |discarded| { pending := Some(discarded[at].write); }
          discarded := Retain(discarded, my);
        case CommitSub =>
          var older := Position(discarded, parent);
          if older < |discarded| {
            discarded := Retain(discarded, my);
          } else {
            RenameOwner(my, parent);
          }
        case StartSub =>
      }
      assert View() == MoveStash(old(View()), ev, my, parent);
      if pending.Some? { pending := Some(MarkEvent(pending.value, ev)); }
      MarkStash(ev);
    }

    method RenameOwner(my: SubId, parent: SubId)
      modifies this`discarded
      ensures discarded == Reparent(old(discarded), my, parent)
    {
      var i := 0;
      while i < |discarded|
        invariant 0 <= i <= |discarded| == |old(discarded)|
        invariant forall k :: 0 <= k < i ==> discarded[k] == Reparent(old(discarded), my, parent)[k]
        invariant forall k :: i <= k < |discarded| ==> discarded[k] == old(discarded)[k]
      {
        if discarded[i].subid == my {
          discarded := discarded[i := SetAside(parent, discarded[i].write)];
        }
        i := i + 1;
      }
    }

    method MarkStash(ev: SubEvent)
      modifies this`discarded
      ensures discarded == MapStash(old(discarded), (w: PendingWrite) => MarkEvent(w, ev))
    {
      var i := 0;
      while i < |discarded|
        invariant 0 <= i <= |discarded| == |old(discarded)|
        invariant forall k :: 0 <= k < i ==>
          discarded[k] == SetAside(old(discarded)[k].subid, MarkEvent(old(discarded)[k].write, ev))
        invariant forall k :: i <= k < |discarded| ==> discarded[k] == old(discarded)[k]
      {
        discarded := discarded[i := SetAside(discarded[i].subid, MarkEvent(discarded[i].write, ev))];
        i := i + 1;
      }
    }
  }
}
