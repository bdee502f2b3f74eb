# ol.TileQueue in Dafny

This project models the tile-loading scheduler `ol.TileQueue` of OpenLayers 3 (`src/ol/tilequeue.js`). The scheduler is a priority queue of `[tile, ...priorityArgs]` entries, unique by tile key. It also keeps bookkeeping for the loads it has started:

- `tilesLoading_`, a counter;
- `tilesLoadingKeys_`, the set of keys the counter counts;
- a subscription to the change events of each tile it enqueued.

It has three operations:

- `enqueue` adds an entry and subscribes to the tile.
- `handleTileChange` reacts to a tile reaching a terminal state. It unsubscribes, frees the tile's loading slot and calls the change callback.
- `loadMoreTiles` is the admission loop. It dequeues while both budgets allow it and the queue is non-empty. It starts loads for IDLE tiles that are not yet counted and drops every other entry. When the pass started nothing but dropped an aborted tile, it calls the callback (the starvation guard).

Layout:

- `tiles.dfy` (module `Tiles`)
  - Tile keys, the `ol.TileState` states and the terminal ones.
  - The `Tile` class: a constant key and a mutable state that only the tile's loader changes.
- `structs.dfy` (module `Structs`)
  - The base `ol.structs.PriorityQueue`, modelled abstractly as a map from tile key to entry.
  - `Dequeue` hands out *some* pending entry.
- `admission.dfy` (module `Admission`)
  - A value-level account of one `loadMoreTiles` pass.
  - `Step` is one loop iteration over what it read from the dequeued tile (key and state).
  - `Run` folds `Step` over the entries in the order they were dequeued.
  - The lemmas say what the final state of the fold is: budgets, keys, loads and the callback condition.
- `scheduler.dfy` (module `Scheduler`)
  - The `TileQueue` class, with the counter, the key set and the subscriptions as fields.
  - The change callback is a ghost call counter. `tile.load()` is a ghost log of the keys loaded.
  - `loadMoreTiles` is split into four methods:
    - `TakeNext`: one iteration of the loop body;
    - `Admit`: the `while` loop, proved to end in exactly the state `Run` computes;
    - `Drain`: runs `Admit` and restates its result as plain facts about each dequeued entry;
    - `LoadMoreTiles`: runs the loop, stores the result and runs the callback test.
  - The loop carries the counter and the key set in locals and stores them when it ends. Nothing can observe the fields in between, with one exception noted under "## Left out".
  - Every method keeps the class invariant `|tilesLoadingKeys| == tilesLoading`, which the source asserts at lines 108 and 133.
- `scenarios.dfy` (module `Scenarios`)
  - Client runs whose contracts state concrete outcomes:
    - enqueueing a tile twice;
    - a budgeted pass over five IDLE tiles;
    - draining four ABORT tiles;
    - a load followed by its LOADED report;
    - a second tile under a key that is still loading;
    - a tile object releasing the slot of another object with the same key.

The base queue is a component of `TileQueue` rather than a base class. Subscriptions are a set of tile objects: `ol.events.listen` subscribes to a tile object, not to a key.

## Model

| member | source | states |
|---|---|---|
| Tiles.IsTerminal | src/ol/tilequeue.js:97-98 | The states that end tracking are LOADED, ERROR, EMPTY and ABORT. The only ones that do not are IDLE and LOADING. |
| Structs.PriorityQueue.Valid | src/ol/tilequeue.js:38-44 | The base queue's invariant: every pending entry is filed under its own tile's key (the key function `element[0].getKey()`), so entries are unique by key. |
| Structs.PriorityQueue.constructor | src/ol/tilequeue.js:29-44 | The base queue starts empty and keyed by tile key. |
| Structs.PriorityQueue.Enqueue | src/ol/tilequeue.js:72 | Adds the entry exactly when no entry with its tile's key is pending, and returns whether it did. A duplicate leaves the queue unchanged. Every entry stays filed under its tile's key. |
| Structs.PriorityQueue.Dequeue | src/ol/tilequeue.js:122 | On a non-empty queue, returns one pending entry and removes exactly that key, so the count drops by one. |
| Structs.PriorityQueue.GetCount | src/ol/tilequeue.js:121 | Returns the number of pending entries. |
| Scheduler.TileQueue.Valid | src/ol/tilequeue.js:108 | The class invariant on top of the base queue's: the key set has exactly as many keys as the counter says. The source asserts it at line 108 and again at line 133. |
| Scheduler.TileQueue.constructor | src/ol/tilequeue.js:27-64 | A new scheduler has an empty queue, counter 0, no loading keys, no subscriptions, no callback calls and no loads. |
| Scheduler.TileQueue.Enqueue | src/ol/tilequeue.js:71-79 | Returns the base queue's answer. It subscribes to the tile if and only if the entry was added. The counter, the key set, the callback and the loads are untouched. |
| Scheduler.TileQueue.GetTilesLoading | src/ol/tilequeue.js:85-87 | Returns the counter, which equals the size of the key set, and changes nothing. |
| Scheduler.TileQueue.HandleTileChange | src/ol/tilequeue.js:94-109 | On LOADED, ERROR, EMPTY or ABORT: unsubscribes the tile and calls the callback exactly once. If the key was counted, it removes the key and decrements the counter by exactly one; otherwise both stay as they were. On IDLE or LOADING, nothing changes. The invariant of line 108 is kept. |
| Scheduler.TileQueue.TakeNext | src/ol/tilequeue.js:122-133 | Removes one pending entry and reads its tile's key and state. The loop variables become `Step` of the old ones over what it read. |
| Scheduler.TileQueue.Admit | src/ol/tilequeue.js:117-134 | The loop dequeues distinct pending entries. Each is read in the state its tile had at the start and removed from the queue. The loop head held before every iteration. At the end a budget is exhausted or the queue is empty. The counter, key set, new loads, abort flag and loads are `Run` over the entries read. The invariant of line 133 holds after every iteration. |
| Scheduler.TileQueue.Drain | src/ol/tilequeue.js:117-134 | The same loop, with its result stated position by position: no key is dequeued twice, and the queue loses exactly the dequeued keys. |
| Scheduler.TileQueue.LoadMoreTiles | src/ol/tilequeue.js:116-140 | Stores the counter and key set `Run` ends with and logs the loads started. It calls the callback once exactly when `Run` started no load and recorded an abort. The queue loses exactly the dequeued keys; subscriptions are unchanged. |
| Admission.GuardHolds | src/ol/tilequeue.js:120 | The two budget conditions of the loop head: fewer than `maxTotalLoading` loading and fewer than `maxNewLoads` started in this pass. |
| Admission.StartsLoad | src/ol/tilequeue.js:127 | A dequeued tile is loaded when it is IDLE and its key is not counted. |
| Admission.FiresCallback | src/ol/tilequeue.js:135 | The end-of-pass callback condition: no new load and an abort recorded. |
| Admission.Step | src/ol/tilequeue.js:125-132 | An ABORT tile sets the abort flag and changes nothing else. An IDLE, uncounted tile adds its key, logs one load and raises the counter and the new loads by one. Any other tile changes nothing, and the invariant is kept. |
| Admission.Run | src/ol/tilequeue.js:120-134 | Over a whole pass, the invariant is kept. The counter, the new loads and the number of loads grow by the same amount. Earlier loads are kept. |
| Admission.AdmittedAt | src/ol/tilequeue.js:120-121 | In an admitted pass, every iteration began with both budgets open and was one `Step` from the state before it. |
| Admission.LoadBudgets | src/ol/tilequeue.js:120-131 | A pass calls `load()` once per new load. If it took any tile, it ends with at most `maxNewLoads` new loads and at most `maxTotalLoading` loading. An empty pass changes nothing. |
| Admission.KeysGrowByLoads | src/ol/tilequeue.js:127-129 | The key set after a pass is the starting key set plus the keys loaded in the pass. |
| Admission.LoadsDistinct | src/ol/tilequeue.js:127-131 | No key is loaded twice in a pass. |
| Admission.LoadsSeen | src/ol/tilequeue.js:124-131 | A key is loaded in a pass if and only if a dequeued tile under it was IDLE and the key was not counted at the start. |
| Admission.LoadedKeys | src/ol/tilequeue.js:124-131 | The three facts above together. |
| Admission.AbortsSeen | src/ol/tilequeue.js:125-126 | A pass records an abort if and only if it dequeued an ABORT tile. |
| Admission.StarvationGuard | src/ol/tilequeue.js:125-139 | The callback condition holds if and only if the pass dequeued an ABORT tile and no IDLE, uncounted tile, in both directions. |
| Admission.AllIdleLoaded | src/ol/tilequeue.js:127-131 | A pass over distinct IDLE tiles whose keys are not counted loads every one of them. |
| Admission.AllAbortsDropped | src/ol/tilequeue.js:125-139 | A pass over ABORT tiles loads nothing and leaves the counter and the key set alone. It calls the callback if and only if it took any tile. |
| Scheduler.PendingIs | src/ol/tilequeue.js:122 | Removing dequeued keys one at a time leaves the queue without exactly those keys. |
| Scheduler.PendingCount | src/ol/tilequeue.js:120-122 | Taking out distinct pending keys leaves exactly that many entries fewer. So a pass dequeues at most the initial `getCount()` entries. |
| Scheduler.DrawOne | src/ol/tilequeue.js:122 | Dequeuing one more pending key keeps the dequeued keys distinct and takes exactly that entry out. |
| Scenarios.EnqueueTwice | src/ol/tilequeue.js:71-79 | Enqueueing the same tile twice: the first call adds it, the second is refused, one entry is pending and there is one subscription. |
| Scenarios.BudgetedPass | src/ol/tilequeue.js:116-140 | Five IDLE tiles with budgets 3 (total) and 2 (new): exactly two loads start, the counter is 2, three entries stay pending and the callback is not called. |
| Scenarios.AbortedDrain | src/ol/tilequeue.js:125-139 | Four ABORT tiles with budgets 2 and 2: all are dropped, no load starts and the callback is called exactly once. |
| Scenarios.LoadOne | src/ol/tilequeue.js:120-131 | On a queue with nothing pending, a new IDLE tile under an uncounted key is loaded by a pass with room for one load. The counter grows by one and the key set gains the key. The tile is subscribed, logged once and ends LOADING. |
| Scenarios.OneLoading | src/ol/tilequeue.js:120-131 | One IDLE tile: after a pass its key is the only one counted, and the tile is LOADING and subscribed. It was loaded once and the queue is empty. |
| Scenarios.DropDuplicate | src/ol/tilequeue.js:120-127 | A second tile object under a counted key is added and subscribed. The next pass drops it and leaves the counter, the key set and the loads unchanged. The object stays subscribed. |
| Scenarios.LoadThenRelease | src/ol/tilequeue.js:94-109 | The loaded tile reports LOADED: the counter goes from 1 to 0, the subscription is gone and the callback is called once. A LOADING report of another tile then changes nothing. |
| Scenarios.KeyStillLoading | src/ol/tilequeue.js:127 | A new tile object under a key that is still loading is enqueued, but the next pass drops it without loading it: the counter stays at 1. |
| Scenarios.StaleRelease | src/ol/tilequeue.js:101-105 | Slots are freed by key, not by tile object. The dropped second object's ABORT report frees the slot of the loading first one (counter 0). A third object under the same key is then loaded (counter 1, two loads of "a" logged). The first one's LOADED report frees that slot while the third is still LOADING and subscribed (counter 0). |

## Left out

- Priority order: the heap of `ol.structs.PriorityQueue` and `tilePriorityFunction` are not part of this model, so `Dequeue` may return any pending entry. The base queue's own source is not among the modelled files. The priority functions and key function passed to the base constructor (lines 29-44) are not stored, and the priority arguments of an entry are carried but never read.
- The `DROP` priority of the base queue is not modelled, for the same reason.
- The event bus: `ol.events.listen`/`unlisten` are modelled as adding a tile to, or removing it from, a subscription set. Asynchronous delivery of change events is not modelled. A client calls `HandleTileChange` directly.
- `tile.load()` and the callback are external calls. The model records them in a ghost log of loaded keys and a ghost call counter; their effects (network, decoding, rendering) are not modelled. The tile's move to LOADING is written by the scenario client (`Scenarios.LoadOne`) right after the pass, not inside the loop.
- Re-entrancy: if `tile.load()` fires a change event synchronously, `handleTileChange` runs in the middle of the loop. The model does not capture this: its loop stores the counter and key set after the pass.
- Scheduler.TileQueue.HandleTileChange: frees a slot by key, as lines 101-105 do, and not by the tile object whose load was counted. So the model does not claim that at most one load per key is ever in flight across passes. `Scenarios.StaleRelease` shows the sequence that breaks it: two tile objects under one key, one of them enqueued while the other loads and then dropped, but never unsubscribed. Whether such objects can coexist depends on the tile cache, which is not part of this model.
- The `goog.asserts` checks at lines 108 and 133 are invariants of the model (`Valid`, and a loop invariant), not runtime checks.
- JavaScript's `in` operator on the plain object `tilesLoadingKeys_` also finds inherited properties, for example a key named "toString". The model's key set is a plain `set<TileKey>` without that quirk.
- Structs.PriorityQueue.Dequeue: requires a non-empty queue, where the base queue asserts it. The scheduler only dequeues under its `getCount() > 0` guard.
- Counter width: the counters are unbounded integers. The source uses JavaScript numbers, which are exact at these sizes.
- Scheduler.TileQueue.Admit: the loop guard reads the size of the base queue's map directly instead of calling `getCount()`; the two are equal (see `GetCount`).
- Scheduler.TileQueue.LoadMoreTiles: does not state the number of entries left in the queue directly. The `PendingCount` lemma derives it from the contract.
- `src/ol/interaction/lockinteraction.js` and the example applications are not part of this model: they are UI plumbing and demos.
