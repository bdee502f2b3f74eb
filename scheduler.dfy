/** `ol.TileQueue`: the base priority queue of tile entries together with the
    bookkeeping of the tiles the scheduler is loading. The base queue is held
    as a component rather than inherited. */
module Scheduler {
  import opened Tiles
  import opened Structs
  import opened Admission

  /** The keys of the dequeued tiles. */
  function SeenKeys(seen: seq<Seen>): (ks: set<TileKey>)
    decreases |seen|
  {
    if seen == [] then {} else SeenKeys(seen[..|seen| - 1]) + {seen[|seen| - 1].key}
  }

  /** No key was dequeued twice, in the inductive form the admission loop
      keeps: each new key is not among the earlier ones. `DistinctAt` turns
      it into `UniqueKeys`. */
  predicate DistinctKeys(seen: seq<Seen>)
    decreases |seen|
  {
    seen == [] ||
    (DistinctKeys(seen[..|seen| - 1]) && seen[|seen| - 1].key !in SeenKeys(seen[..|seen| - 1]))
  }

  /** Each dequeued tile was read in the state its entry's tile is in. */
  ghost predicate ReadIn(orig: map<TileKey, Entry>, seen: seq<Seen>)
    reads set k | k in orig :: orig[k].tile
  {
    forall i | 0 <= i < |seen| :: seen[i].key in orig && orig[seen[i].key].tile.state == seen[i].state
  }

  /** The entries left after taking out the keys of `seen`, one by one. */
  ghost function Pending(orig: map<TileKey, Entry>, seen: seq<Seen>): map<TileKey, Entry>
    decreases |seen|
  {
    if seen == [] then orig else Pending(orig, seen[..|seen| - 1]) - {seen[|seen| - 1].key}
  }

  /** Taking one more pending key out extends `Pending` and keeps the keys distinct. */
  lemma DrawOne(orig: map<TileKey, Entry>, seen: seq<Seen>, o: Seen)
    requires DistinctKeys(seen) && o.key in Pending(orig, seen)
    ensures DistinctKeys(seen + [o]) && Pending(orig, seen + [o]) == Pending(orig, seen) - {o.key}
    ensures o.key in orig && Pending(orig, seen)[o.key] == orig[o.key]
  {
    assert (seen + [o])[..|seen|] == seen;
    PendingIs(orig, seen);
  }

  /** `Pending` is the map without the dequeued keys. */
  lemma {:induction false} PendingIs(orig: map<TileKey, Entry>, seen: seq<Seen>)
    ensures Pending(orig, seen) == orig - SeenKeys(seen)
    decreases |seen|
  {
    if seen != [] {
      PendingIs(orig, seen[..|seen| - 1]);
    }
  }

  /** Taking out distinct keys of `orig` leaves as many entries fewer. */
  lemma {:induction false} PendingCount(orig: map<TileKey, Entry>, seen: seq<Seen>)
    requires UniqueKeys(seen)
    requires forall i | 0 <= i < |seen| :: seen[i].key in orig
    ensures |orig - SeenKeys(seen)| == |orig| - |seen|
    decreases |seen|
  {
    PendingIs(orig, seen);
    if seen != [] {
      var init := seen[..|seen| - 1];
      var k := seen[|seen| - 1].key;
      assert forall i | 0 <= i < |init| :: init[i] == seen[i];
      SeenKeysAt(init);
      PendingCount(orig, init);
      PendingIs(orig, init);
      var m := Pending(orig, init);
      assert k in m;
      assert (m - {k}).Keys == m.Keys - {k};
    }
  }

  /** Reading one more tile in the state it had at the start keeps `ReadIn`
      of the start. */
  twostate lemma ObserveOne(orig: map<TileKey, Entry>, new seen: seq<Seen>, new o: Seen)
    requires old(allocated(orig))
    requires old(ReadIn(orig, seen)) && o.key in orig && old(orig[o.key].tile.state) == o.state
    ensures old(ReadIn(orig, seen + [o]))
  {
    assert (seen + [o])[..|seen|] == seen;
  }

  lemma {:induction false} SeenKeysAt(seen: seq<Seen>)
    ensures forall k :: k in SeenKeys(seen) <==> exists i | 0 <= i < |seen| :: seen[i].key == k
    decreases |seen|
  {
    if seen != [] {
      var init := seen[..|seen| - 1];
      SeenKeysAt(init);
      forall k ensures k in SeenKeys(seen) <==> exists i | 0 <= i < |seen| :: seen[i].key == k {
        if k in SeenKeys(init) {
          var i :| 0 <= i < |init| && init[i].key == k;
          assert seen[i] == init[i];
        }
        if exists i | 0 <= i < |seen| :: seen[i].key == k {
          var i :| 0 <= i < |seen| && seen[i].key == k;
          if i < |init| { assert init[i] == seen[i]; }
        }
      }
    }
  }

  /** What `DistinctKeys` says, position by position. */
  lemma {:induction false} DistinctAt(seen: seq<Seen>)
    requires DistinctKeys(seen)
    ensures UniqueKeys(seen)
    decreases |seen|
  {
    if seen != [] {
      var init := seen[..|seen| - 1];
      DistinctAt(init);
      SeenKeysAt(init);
      forall i, j | 0 <= i < j < |seen| ensures seen[i].key != seen[j].key {
        assert seen[i] == init[i];
        if j < |init| { assert seen[j] == init[j]; }
      }
    }
  }

  /** One more iteration, begun with the loop head true, keeps `Admitted`. */
  lemma AdmitOne(p: Pass, seen: seq<Seen>, o: Seen, maxTotalLoading: int, maxNewLoads: int)
    requires Admitted(p, seen, maxTotalLoading, maxNewLoads)
    requires GuardHolds(Run(p, seen), maxTotalLoading, maxNewLoads)
    ensures Admitted(p, seen + [o], maxTotalLoading, maxNewLoads)
    ensures Run(p, seen + [o]) == Step(Run(p, seen), o)
  {
    assert (seen + [o])[..|seen|] == seen;
  }

  class TileQueue {
    /** The inherited queue of pending `[tile, ...priorityArgs]` entries. */
    const queue: PriorityQueue
    /** `tilesLoading_`: how many loads this scheduler started that have not
        yet been seen to end. */
    var tilesLoading: int
    /** `tilesLoadingKeys_`: the keys counted in `tilesLoading`. */
    var tilesLoadingKeys: set<TileKey>
    /** The tiles whose change events `HandleTileChange` is subscribed to. */
    var listening: set<Tile>
    /** How many times the tile change callback has been called. */
    ghost var callbackCalls: nat
    /** The keys of the tiles whose `load()` this scheduler called, in order. */
    ghost var loadLog: seq<TileKey>

    /** The object invariant; the source asserts its second half after every
        change to the counter or the key set. */
    ghost predicate Valid()
      reads this, queue
    {
      queue.Valid() && |tilesLoadingKeys| == tilesLoading
    }

    constructor ()
      ensures Valid() && fresh(queue)
      ensures queue.elements == map[] && tilesLoading == 0 && tilesLoadingKeys == {}
      ensures listening == {} && callbackCalls == 0 && loadLog == []
    {
      queue := new PriorityQueue();
      tilesLoading := 0;
      tilesLoadingKeys := {};
      listening := {};
      callbackCalls := 0;
      loadLog := [];
    }

    /** Adds an entry through the base queue and, when it was added, subscribes
        to the tile's change events. Returns the base queue's answer. */
    method Enqueue(e: Entry) returns (added: bool)
      requires Valid()
      modifies this, queue
      ensures Valid()
      ensures added <==> e.tile.key !in old(queue.elements)
      ensures queue.elements == if added then old(queue.elements)[e.tile.key := e] else old(queue.elements)
      ensures listening == if added then old(listening) + {e.tile} else old(listening)
      ensures tilesLoading == old(tilesLoading) && tilesLoadingKeys == old(tilesLoadingKeys)
      ensures callbackCalls == old(callbackCalls) && loadLog == old(loadLog)
    {
      added := queue.Enqueue(e);
      if added {
        listening := listening + {e.tile};
      }
    }

    /** The number of tiles loading; reads the state and changes none of it. */
    method GetTilesLoading() returns (n: int)
      requires Valid()
      ensures n == tilesLoading == |tilesLoadingKeys|
    {
      n := tilesLoading;
    }

    /** Reacts to a change event of `tile`. On a terminal state it
        unsubscribes, frees the tile's loading slot if it held one and calls
        the callback once; on IDLE or LOADING it does nothing. */
    method HandleTileChange(tile: Tile)
      requires Valid()
      modifies this
      ensures Valid()
      ensures IsTerminal(tile.state) ==>
        listening == old(listening) - {tile} &&
        tilesLoadingKeys == old(tilesLoadingKeys) - {tile.key} &&
        tilesLoading == old(tilesLoading) - (if tile.key in old(tilesLoadingKeys) then 1 else 0) &&
        callbackCalls == old(callbackCalls) + 1
      ensures !IsTerminal(tile.state) ==>
        listening == old(listening) && tilesLoadingKeys == old(tilesLoadingKeys) &&
        tilesLoading == old(tilesLoading) && callbackCalls == old(callbackCalls)
      ensures loadLog == old(loadLog)
    {
      var state := tile.state;
      if IsTerminal(state) {
        listening := listening - {tile};
        var tileKey := tile.key;
        if tileKey in tilesLoadingKeys {
          tilesLoadingKeys := tilesLoadingKeys - {tileKey};
          tilesLoading := tilesLoading - 1;
        }
        callbackCalls := callbackCalls + 1;
      }
    }

    /** One iteration of the admission loop: dequeues the next entry and
        starts its tile's load when the tile is IDLE and not counted, or
        records an abort; `o` is what it read from the tile. */
    method TakeNext(loading: int, keys: set<TileKey>, newLoads: nat, abortedTiles: bool, ghost loads: seq<TileKey>)
      returns (ghost o: Seen, loading': int, keys': set<TileKey>, newLoads': nat, abortedTiles': bool,
               ghost loads': seq<TileKey>)
      requires queue.Valid() && |queue.elements| > 0
      modifies queue
      ensures queue.Valid()
      ensures o.key in old(queue.elements) && o.state == old(queue.elements)[o.key].tile.state
      ensures queue.elements == old(queue.elements) - {o.key}
      ensures |queue.elements| == |old(queue.elements)| - 1
      ensures Pass(loading', keys', newLoads', abortedTiles', loads') ==
              Step(Pass(loading, keys, newLoads, abortedTiles, loads), o)
    {
      var e := queue.Dequeue();
      var tile := e.tile;
      var tileKey := tile.key;
      var state := tile.state;
      o := Seen(tileKey, state);
      loading', keys', newLoads', abortedTiles', loads' := loading, keys, newLoads, abortedTiles, loads;
      if state == ABORT {
        abortedTiles' := true;
      } else if state == IDLE && tileKey !in keys {
        keys' := keys + {tileKey};
        loading' := loading + 1;
        newLoads' := newLoads + 1;
        // tile.load(): the loader takes over the tile from here
        loads' := loads + [tileKey];
      }
    }

    /** The admission loop. While fewer than `maxTotalLoading` tiles are
        loading, fewer than `maxNewLoads` loads were started in this call and
        the queue is not empty, it takes the next entry. It starts from
        `loading0` tiles loading under the keys `keys0` and returns the
        counter, key set, loads started, abort flag and started keys at the
        end. `seen` is what it read from each dequeued tile, in the order the
        queue gave the entries out; the result is `Run` over `seen`. */
    method Admit(maxTotalLoading: int, maxNewLoads: int, loading0: int, keys0: set<TileKey>)
      returns (ghost seen: seq<Seen>, loading: int, keys: set<TileKey>, newLoads: nat, abortedTiles: bool,
               ghost loads: seq<TileKey>)
      requires queue.Valid() && |keys0| == loading0
      modifies queue
      ensures queue.Valid()
      // the dequeued entries were distinct pending entries, and were dropped from the queue
      ensures old(allocated(queue.elements)) && old(ReadIn(queue.elements, seen)) && DistinctKeys(seen)
      ensures queue.elements == Pending(old(queue.elements), seen)
      // the loop head held before each iteration and fails at the end
      ensures Admitted(Start(loading0, keys0), seen, maxTotalLoading, maxNewLoads)
      ensures !GuardHolds(Run(Start(loading0, keys0), seen), maxTotalLoading, maxNewLoads) || queue.elements == map[]
      ensures Run(Start(loading0, keys0), seen) == Pass(loading, keys, newLoads, abortedTiles, loads)
    {
      ghost var start := Start(loading0, keys0);
      ghost var orig := queue.elements;
      assert old(allocated(orig));
      loading, keys, newLoads, abortedTiles, loads := loading0, keys0, 0, false, [];
      seen := [];
      // the last conjunct is the base queue's `getCount() > 0`
      while loading < maxTotalLoading && newLoads < maxNewLoads && |queue.elements| > 0
        invariant queue.Valid()
        invariant queue.elements == Pending(orig, seen) && DistinctKeys(seen) && old(ReadIn(orig, seen))
        invariant Admitted(start, seen, maxTotalLoading, maxNewLoads)
        invariant Run(start, seen) == Pass(loading, keys, newLoads, abortedTiles, loads)
        invariant |keys| == loading
        decreases |queue.elements|
      {
        ghost var o;
        o, loading, keys, newLoads, abortedTiles, loads := TakeNext(loading, keys, newLoads, abortedTiles, loads);
        DrawOne(orig, seen, o);
        ghost var tile := orig[o.key].tile;
        assert old(allocated(tile));
        assert tile.state == old(tile.state);
        ObserveOne(orig, seen, o);
        AdmitOne(start, seen, o, maxTotalLoading, maxNewLoads);
        seen := seen + [o];
      }
    }

    /** The admission loop, its result stated position by position. `Admit`
        ends with the inductive forms its loop invariant keeps (`Pending`,
        `DistinctKeys`, `ReadIn` of the start state); this method restates
        them as plain facts about each dequeued entry, so that neither the
        loop nor `LoadMoreTiles` has to carry the translation. */
    method Drain(maxTotalLoading: int, maxNewLoads: int, loading0: int, keys0: set<TileKey>)
      returns (ghost seen: seq<Seen>, loading: int, keys: set<TileKey>, newLoads: nat, abortedTiles: bool,
               ghost loads: seq<TileKey>)
      requires queue.Valid() && |keys0| == loading0
      modifies queue
      ensures queue.Valid()
      ensures forall i | 0 <= i < |seen| ::
        seen[i].key in old(queue.elements) && seen[i].state == old(queue.elements[seen[i].key].tile.state)
      ensures UniqueKeys(seen)
      ensures queue.elements == old(queue.elements) - SeenKeys(seen)
      ensures Admitted(Start(loading0, keys0), seen, maxTotalLoading, maxNewLoads)
      ensures !GuardHolds(Run(Start(loading0, keys0), seen), maxTotalLoading, maxNewLoads) || queue.elements == map[]
      ensures Run(Start(loading0, keys0), seen) == Pass(loading, keys, newLoads, abortedTiles, loads)
    {
      seen, loading, keys, newLoads, abortedTiles, loads := Admit(maxTotalLoading, maxNewLoads, loading0, keys0);
      DistinctAt(seen);
      PendingIs(old(queue.elements), seen);
    }

    /** `loadMoreTiles`: runs the admission loop from the current counter and
        key set, stores what it ends with, and calls the callback when the
        pass started nothing but dropped an aborted tile. */
    method LoadMoreTiles(maxTotalLoading: int, maxNewLoads: int) returns (ghost seen: seq<Seen>)
      requires Valid()
      modifies this, queue
      ensures Valid()
      // the dequeued entries were distinct pending entries, and were dropped from the queue
      ensures forall i | 0 <= i < |seen| ::
        seen[i].key in old(queue.elements) && seen[i].state == old(queue.elements[seen[i].key].tile.state)
      ensures UniqueKeys(seen)
      ensures queue.elements == old(queue.elements) - SeenKeys(seen)
      // the loop head held before each iteration and fails at the end
      ensures Admitted(Start(old(tilesLoading), old(tilesLoadingKeys)), seen, maxTotalLoading, maxNewLoads)
      ensures !GuardHolds(Run(Start(old(tilesLoading), old(tilesLoadingKeys)), seen), maxTotalLoading, maxNewLoads)
              || queue.elements == map[]
      // the bookkeeping, the loads and the callback
      ensures var r := Run(Start(old(tilesLoading), old(tilesLoadingKeys)), seen);
        tilesLoading == r.tilesLoading && tilesLoadingKeys == r.loadingKeys &&
        loadLog == old(loadLog) + r.loads &&
        callbackCalls == old(callbackCalls) + (if FiresCallback(r) then 1 else 0)
      ensures listening == old(listening)
    {
      var newLoads, abortedTiles;
      ghost var loads;
      seen, tilesLoading, tilesLoadingKeys, newLoads, abortedTiles, loads :=
        Drain(maxTotalLoading, maxNewLoads, tilesLoading, tilesLoadingKeys);
      loadLog := loadLog + loads;
      if newLoads == 0 && abortedTiles {
        // keep the render loop going when every wanted tile was aborted
        callbackCalls := callbackCalls + 1;
      }
    }
  }
}
