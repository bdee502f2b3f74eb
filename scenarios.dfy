/** Concrete runs of the scheduler: a client builds a queue, enqueues tiles
    and calls it, and each method's contract states what the run ends with. */
module Scenarios {
  import opened Tiles
  import opened Structs
  import opened Admission
  import opened Scheduler

  /** The priority arguments every entry below carries; the model does not
      order by them. */
  function Args(): PriorityArgs {
    PriorityArgs("osm", 0.0, 0.0, 1.0)
  }

  /** Enqueueing the same tile twice: the second enqueue is refused, one
      entry is pending and the tile has one subscription. */
  method EnqueueTwice() returns (first: bool, second: bool, pending: nat, subscribed: nat)
    ensures first && !second
    ensures pending == 1 && subscribed == 1
  {
    var q := new TileQueue();
    var t := new Tile("0/0/0", IDLE);
    first := q.Enqueue(Entry(t, Args()));
    second := q.Enqueue(Entry(t, Args()));
    pending := q.queue.GetCount();
    subscribed := |q.listening|;
  }

  /** A client step: a new tile in `state` under a key not yet pending,
      enqueued; every pending tile stays in `state`. */
  method AddTile(q: TileQueue, key: TileKey, state: TileState) returns (t: Tile)
    requires q.Valid() && key !in q.queue.elements
    requires forall k | k in q.queue.elements :: q.queue.elements[k].tile.state == state
    modifies q, q.queue
    ensures q.Valid() && fresh(t) && t.key == key && t.state == state
    ensures q.queue.elements == old(q.queue.elements)[key := Entry(t, Args())]
    ensures q.queue.elements.Keys == old(q.queue.elements).Keys + {key}
    ensures |q.queue.elements| == |old(q.queue.elements)| + 1
    ensures forall k | k in q.queue.elements :: q.queue.elements[k].tile.state == state
    ensures q.listening == old(q.listening) + {t}
    ensures q.tilesLoading == old(q.tilesLoading) && q.tilesLoadingKeys == old(q.tilesLoadingKeys)
    ensures q.loadLog == old(q.loadLog) && q.callbackCalls == old(q.callbackCalls)
  {
    t := new Tile(key, state);
    var added := q.Enqueue(Entry(t, Args()));
  }

  /** A fresh queue holding `n` tiles in `state`, none loading. The keys
      are "t", "t/0", "t/0/0", ..., distinct because their lengths are. */
  method Filled(n: nat, state: TileState) returns (q: TileQueue)
    ensures fresh(q) && fresh(q.queue)
    ensures q.Valid() && |q.queue.elements| == n
    ensures forall k | k in q.queue.elements :: q.queue.elements[k].tile.state == state
    ensures q.tilesLoading == 0 && q.tilesLoadingKeys == {}
    ensures q.loadLog == [] && q.callbackCalls == 0
  {
    q := new TileQueue();
    var key := "t";
    var i := 0;
    while i < n
      invariant 0 <= i <= n && |key| == 2 * i + 1
      invariant fresh(q) && fresh(q.queue)
      invariant q.Valid() && |q.queue.elements| == i
      invariant forall k | k in q.queue.elements :: |k| < |key|
      invariant forall k | k in q.queue.elements :: q.queue.elements[k].tile.state == state
      invariant q.tilesLoading == 0 && q.tilesLoadingKeys == {}
      invariant q.loadLog == [] && q.callbackCalls == 0
    {
      var t := AddTile(q, key, state);
      key := key + "/0";
      i := i + 1;
    }
  }

  /** Five IDLE tiles and budgets of 3 loading and 2 new loads: exactly two
      loads start, three entries stay pending, and the callback is not
      called. */
  method BudgetedPass() returns (q: TileQueue, loading: int, pending: nat)
    ensures loading == 2 && pending == 3
    ensures |q.loadLog| == 2 && q.callbackCalls == 0
  {
    q := Filled(5, IDLE);
    ghost var orig := q.queue.elements;
    ghost var seen := q.LoadMoreTiles(3, 2);
    AllIdleLoaded(0, {}, seen);
    LoadBudgets(0, {}, seen, 3, 2);
    PendingCount(orig, seen);
    StarvationGuard(0, {}, seen);
    loading := q.GetTilesLoading();
    pending := q.queue.GetCount();
  }

  /** Four ABORT tiles and budgets of 2 and 2: every entry is drained, no
      load starts, and the callback is called once to keep rendering. */
  method AbortedDrain() returns (q: TileQueue, loading: int, pending: nat)
    ensures loading == 0 && pending == 0
    ensures q.loadLog == [] && q.callbackCalls == 1
  {
    q := Filled(4, ABORT);
    ghost var orig := q.queue.elements;
    ghost var seen := q.LoadMoreTiles(2, 2);
    AllAbortsDropped(0, {}, seen);
    LoadBudgets(0, {}, seen, 2, 2);
    PendingCount(orig, seen);
    loading := q.GetTilesLoading();
    pending := q.queue.GetCount();
  }

  /** A client step on a queue with nothing pending and `key` not counted:
      a new IDLE tile under `key` is enqueued and a pass is run that allows
      one more load. The pass loads it, and the client then moves it to
      LOADING, which is what its `load()` does. */
  method LoadOne(q: TileQueue, key: TileKey) returns (t: Tile)
    requires q.Valid() && q.queue.elements == map[] && key !in q.tilesLoadingKeys
    modifies q, q.queue
    ensures fresh(t) && t.key == key && t.state == LOADING
    ensures q.Valid() && q.queue.elements == map[]
    ensures q.tilesLoading == old(q.tilesLoading) + 1 && q.tilesLoadingKeys == old(q.tilesLoadingKeys) + {key}
    ensures q.listening == old(q.listening) + {t}
    ensures q.loadLog == old(q.loadLog) + [key] && q.callbackCalls == old(q.callbackCalls)
  {
    ghost var start := Start(q.tilesLoading, q.tilesLoadingKeys);
    t := AddTile(q, key, IDLE);
    ghost var orig := q.queue.elements;
    assert key in orig && |orig| == 1;
    ghost var seen := q.LoadMoreTiles(q.tilesLoading + 1, 1);
    PendingCount(orig, seen);
    assert Run(start, []) == start;
    assert seen != [];
    assert seen == [Seen(key, IDLE)];
    assert Run(start, seen) == Step(start, Seen(key, IDLE));
    t.state := LOADING;
  }

  /** A fresh queue after one pass over a single IDLE tile under `key`:
      the tile is loading, subscribed, and nothing is pending. */
  method OneLoading(key: TileKey) returns (q: TileQueue, t: Tile)
    ensures fresh(q) && fresh(q.queue) && fresh(t)
    ensures t.key == key && t.state == LOADING
    ensures q.Valid() && q.queue.elements == map[]
    ensures q.tilesLoading == 1 && q.tilesLoadingKeys == {key}
    ensures q.listening == {t} && q.loadLog == [key] && q.callbackCalls == 0
  {
    q := new TileQueue();
    t := LoadOne(q, key);
  }

  /** A tile is loaded, then reports LOADED: its slot is freed, it is
      unsubscribed and the callback is called once; a LOADING report of
      another tile changes nothing after that. */
  method LoadThenRelease() returns (q: TileQueue, loadingAfterLoad: int, loadingAfterRelease: int)
    ensures loadingAfterLoad == 1 && loadingAfterRelease == 0
    ensures q.listening == {} && q.callbackCalls == 1 && q.loadLog == ["a"]
  {
    var t;
    q, t := OneLoading("a");
    loadingAfterLoad := q.GetTilesLoading();
    t.state := LOADED;
    q.HandleTileChange(t);
    loadingAfterRelease := q.GetTilesLoading();
    var u := new Tile("b", LOADING);
    q.HandleTileChange(u);
  }

  /** A client step on a queue with nothing pending and `key` counted: a
      second tile object under `key`, IDLE, is enqueued, and a pass that
      allows one more load drops it without loading it. It stays subscribed. */
  method DropDuplicate(q: TileQueue, key: TileKey) returns (t: Tile, added: bool)
    requires q.Valid() && q.queue.elements == map[] && key in q.tilesLoadingKeys
    modifies q, q.queue
    ensures fresh(t) && t.key == key && t.state == IDLE && added
    ensures q.Valid() && q.queue.elements == map[]
    ensures q.tilesLoading == old(q.tilesLoading) && q.tilesLoadingKeys == old(q.tilesLoadingKeys)
    ensures q.listening == old(q.listening) + {t}
    ensures q.loadLog == old(q.loadLog) && q.callbackCalls == old(q.callbackCalls)
  {
    ghost var start := Start(q.tilesLoading, q.tilesLoadingKeys);
    t := new Tile(key, IDLE);
    added := q.Enqueue(Entry(t, Args()));
    ghost var orig := q.queue.elements;
    assert key in orig && |orig| == 1;
    ghost var seen := q.LoadMoreTiles(q.tilesLoading + 1, 1);
    PendingCount(orig, seen);
    assert Run(start, []) == start;
    assert seen != [];
    assert seen == [Seen(key, IDLE)];
    assert Run(start, seen) == Step(start, Seen(key, IDLE)) == start;
  }

  /** A second tile object under a key that is still loading is enqueued
      (the key is no longer pending) but not loaded again: the counter stays
      at one and the queue is drained. */
  method KeyStillLoading() returns (q: TileQueue, added: bool, loading: int, pending: nat)
    ensures added && loading == 1 && pending == 0
    ensures q.loadLog == ["a"] && q.callbackCalls == 0
  {
    var t;
    q, t := OneLoading("a");
    var again;
    again, added := DropDuplicate(q, "a");
    loading := q.GetTilesLoading();
    pending := q.queue.GetCount();
  }

  /** Slots are freed by key, not by tile object. A second object under the
      loading key "a" is enqueued and dropped by the next pass, but stays
      subscribed; when it reports ABORT it frees the slot of the first,
      which is still loading. A third object under "a" is then loaded, and
      the first one's LOADED report frees the slot of the third: two loads
      of "a" were in flight together, and the counter ends at 0 while the
      third is still loading. */
  method StaleRelease() returns (q: TileQueue, t3: Tile, afterAbort: int, afterReload: int, afterLoaded: int)
    ensures afterAbort == 0 && afterReload == 1 && afterLoaded == 0
    ensures q.loadLog == ["a", "a"]
    ensures t3.state == LOADING && t3 in q.listening
  {
    var t1;
    q, t1 := OneLoading("a");
    var t2, _ := DropDuplicate(q, "a");
    t2.state := ABORT;
    q.HandleTileChange(t2);
    afterAbort := q.GetTilesLoading();
    t3 := LoadOne(q, "a");
    afterReload := q.GetTilesLoading();
    t1.state := LOADED;
    q.HandleTileChange(t1);
    afterLoaded := q.GetTilesLoading();
  }
}
