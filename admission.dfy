/** A value-level account of one pass of `loadMoreTiles`: what the loop does
    with each dequeued entry, folded over the entries in the order the queue
    handed them out. The imperative loop in `Scheduler` is proved to end in
    exactly the state `Run` computes; the lemmas here say what that state is. */
module Admission {
  import opened Tiles

  /** What the loop reads from a dequeued tile: its key and its state. */
  datatype Seen = Seen(key: TileKey, state: TileState)

  /** The loop's variables: the scheduler's counter and key set, the local
      `newLoads` and `abortedTiles`, and the keys `load()` was called on. */
  datatype Pass = Pass(tilesLoading: int, loadingKeys: set<TileKey>, newLoads: nat,
                       abortedTiles: bool, loads: seq<TileKey>)

  /** The state at the start of a pass. */
  function Start(tilesLoading: int, loadingKeys: set<TileKey>): Pass {
    Pass(tilesLoading, loadingKeys, 0, false, [])
  }

  /** The class invariant: the key set has as many keys as the counter says. */
  predicate Counted(p: Pass) {
    |p.loadingKeys| == p.tilesLoading
  }

  /** A dequeued tile gets a load when it is IDLE and not already counted. */
  predicate StartsLoad(p: Pass, o: Seen) {
    o.state == IDLE && o.key !in p.loadingKeys
  }

  /** The three conditions of the loop head, bar the non-empty queue. */
  predicate GuardHolds(p: Pass, maxTotalLoading: int, maxNewLoads: int) {
    p.tilesLoading < maxTotalLoading && p.newLoads < maxNewLoads
  }

  /** Whether the pass ends by calling the change callback. */
  predicate FiresCallback(p: Pass) {
    p.newLoads == 0 && p.abortedTiles
  }

  /** No two dequeued entries have the same key. */
  predicate UniqueKeys(seen: seq<Seen>) {
    forall i, j | 0 <= i < j < |seen| :: seen[i].key != seen[j].key
  }

  /** One iteration of the loop body, after the dequeue. */
  function Step(p: Pass, o: Seen): (q: Pass)
    ensures Counted(p) ==> Counted(q)
    ensures q.tilesLoading - p.tilesLoading == q.newLoads - p.newLoads
                == |q.loads| - |p.loads| == (if StartsLoad(p, o) then 1 else 0)
    ensures q.loadingKeys == if StartsLoad(p, o) then p.loadingKeys + {o.key} else p.loadingKeys
    ensures q.loads == if StartsLoad(p, o) then p.loads + [o.key] else p.loads
    ensures q.abortedTiles <==> p.abortedTiles || o.state == ABORT
  {
    if o.state == ABORT then
      p.(abortedTiles := true)
    else if StartsLoad(p, o) then
      Pass(p.tilesLoading + 1, p.loadingKeys + {o.key}, p.newLoads + 1, p.abortedTiles, p.loads + [o.key])
    else
      p
  }

  /** The loop run over the dequeued tiles `seen`, first to last. */
  function Run(p: Pass, seen: seq<Seen>): (r: Pass)
    decreases |seen|
    ensures Counted(p) ==> Counted(r)
    ensures r.tilesLoading - p.tilesLoading == r.newLoads - p.newLoads == |r.loads| - |p.loads|
    ensures p.loads <= r.loads
  {
    if seen == [] then p else Step(Run(p, seen[..|seen| - 1]), seen[|seen| - 1])
  }

  /** The loop head held before every iteration of the pass. */
  predicate Admitted(p: Pass, seen: seq<Seen>, maxTotalLoading: int, maxNewLoads: int)
    decreases |seen|
  {
    seen == [] ||
    (Admitted(p, seen[..|seen| - 1], maxTotalLoading, maxNewLoads) &&
     GuardHolds(Run(p, seen[..|seen| - 1]), maxTotalLoading, maxNewLoads))
  }

  /** Every iteration of an admitted pass started with the loop head true,
      and it is the step of the fold from the state before it. */
  lemma {:induction false} AdmittedAt(p: Pass, seen: seq<Seen>, maxTotalLoading: int, maxNewLoads: int, i: nat)
    requires Admitted(p, seen, maxTotalLoading, maxNewLoads) && i < |seen|
    ensures GuardHolds(Run(p, seen[..i]), maxTotalLoading, maxNewLoads)
    ensures Run(p, seen[..i + 1]) == Step(Run(p, seen[..i]), seen[i])
    decreases |seen|
  {
    var init := seen[..|seen| - 1];
    assert seen[..i + 1][..i] == seen[..i];
    if i < |seen| - 1 {
      assert init[..i] == seen[..i] && init[..i + 1] == seen[..i + 1] && init[i] == seen[i];
      AdmittedAt(p, init, maxTotalLoading, maxNewLoads, i);
    } else {
      assert seen[..i] == init && seen[..i + 1] == seen;
    }
  }

  /** Budgets: a pass that took at least one tile ends with at most
      `maxNewLoads` new loads and at most `maxTotalLoading` loading, and
      `load()` was called once per new load. */
  lemma LoadBudgets(tilesLoading: int, loadingKeys: set<TileKey>, seen: seq<Seen>,
                    maxTotalLoading: int, maxNewLoads: int)
    requires Admitted(Start(tilesLoading, loadingKeys), seen, maxTotalLoading, maxNewLoads)
    ensures var r := Run(Start(tilesLoading, loadingKeys), seen);
      |r.loads| == r.newLoads == r.tilesLoading - tilesLoading &&
      (seen != [] ==> r.newLoads <= maxNewLoads && r.tilesLoading <= maxTotalLoading) &&
      (seen == [] ==> r.newLoads == 0 && r.tilesLoading == tilesLoading)
  {
    if seen != [] {
      AdmittedAt(Start(tilesLoading, loadingKeys), seen, maxTotalLoading, maxNewLoads, |seen| - 1);
      assert seen[..|seen|] == seen;
    }
  }

  /** The key set a pass ends with is the one it started with plus the keys
      it loaded. */
  lemma {:induction false} KeysGrowByLoads(tilesLoading: int, loadingKeys: set<TileKey>, seen: seq<Seen>)
    ensures forall k :: k in Run(Start(tilesLoading, loadingKeys), seen).loadingKeys <==>
                        k in loadingKeys || k in Run(Start(tilesLoading, loadingKeys), seen).loads
    decreases |seen|
  {
    if seen != [] {
      var init := seen[..|seen| - 1];
      KeysGrowByLoads(tilesLoading, loadingKeys, init);
    }
  }

  /** No key occurs twice in `s`, a sequence of keys such as the loads of a
      pass; `UniqueKeys` says the same of the keys of dequeued entries. */
  predicate NoRepeats(s: seq<TileKey>) {
    forall i, j | 0 <= i < j < |s| :: s[i] != s[j]
  }

  /** No key is loaded twice in one pass. */
  lemma {:induction false} LoadsDistinct(tilesLoading: int, loadingKeys: set<TileKey>, seen: seq<Seen>)
    ensures NoRepeats(Run(Start(tilesLoading, loadingKeys), seen).loads)
    decreases |seen|
  {
    if seen != [] {
      var init := seen[..|seen| - 1];
      var o := seen[|seen| - 1];
      var r0 := Run(Start(tilesLoading, loadingKeys), init);
      var r := Run(Start(tilesLoading, loadingKeys), seen);
      LoadsDistinct(tilesLoading, loadingKeys, init);
      KeysGrowByLoads(tilesLoading, loadingKeys, init);
      assert r == Step(r0, o);
      if StartsLoad(r0, o) {
        assert r.loads == r0.loads + [o.key];
        forall i, j | 0 <= i < j < |r.loads| ensures r.loads[i] != r.loads[j] {
          assert r.loads[i] == r0.loads[i];
          if j < |r0.loads| {
            assert r.loads[j] == r0.loads[j];
          } else {
            assert r0.loads[i] in r0.loads && r0.loads[i] in r0.loadingKeys;
            assert r.loads[j] == o.key && o.key !in r0.loadingKeys;
          }
        }
      } else {
        assert r.loads == r0.loads;
      }
    }
  }

  /** The keys a pass loads are exactly the keys of the dequeued IDLE tiles
      that were not counted at the start. */
  lemma {:induction false} LoadsSeen(tilesLoading: int, loadingKeys: set<TileKey>, seen: seq<Seen>)
    ensures forall k :: k in Run(Start(tilesLoading, loadingKeys), seen).loads <==>
      exists i | 0 <= i < |seen| :: seen[i].key == k && seen[i].state == IDLE && k !in loadingKeys
    decreases |seen|
  {
    if seen != [] {
      var init := seen[..|seen| - 1];
      var o := seen[|seen| - 1];
      var r0 := Run(Start(tilesLoading, loadingKeys), init);
      var r := Run(Start(tilesLoading, loadingKeys), seen);
      LoadsSeen(tilesLoading, loadingKeys, init);
      KeysGrowByLoads(tilesLoading, loadingKeys, init);
      assert r == Step(r0, o);
      forall k
        ensures k in r.loads <==>
          exists i | 0 <= i < |seen| :: seen[i].key == k && seen[i].state == IDLE && k !in loadingKeys
      {
        if k in r.loads {
          if k in r0.loads {
            var i :| 0 <= i < |init| && init[i].key == k && init[i].state == IDLE && k !in loadingKeys;
            assert seen[i] == init[i];
          } else {
            assert k == o.key && StartsLoad(r0, o);
            assert seen[|seen| - 1] == o;
          }
        } else {
          forall i | 0 <= i < |seen| && seen[i].key == k && seen[i].state == IDLE
            ensures k in loadingKeys
          {
            if i < |init| {
              assert init[i] == seen[i];
            } else {
              assert seen[i] == o;
            }
          }
        }
      }
    }
  }

  /** The keys a pass counts: the key set grows by exactly the keys loaded,
      each of them the key of a dequeued IDLE tile that was not counted at
      the start, each loaded once, and every such tile is loaded. */
  lemma LoadedKeys(tilesLoading: int, loadingKeys: set<TileKey>, seen: seq<Seen>)
    ensures var r := Run(Start(tilesLoading, loadingKeys), seen);
      (forall k :: k in r.loadingKeys <==> k in loadingKeys || k in r.loads) &&
      (forall i, j | 0 <= i < j < |r.loads| :: r.loads[i] != r.loads[j]) &&
      (forall k :: k in r.loads <==>
         exists i | 0 <= i < |seen| :: seen[i].key == k && seen[i].state == IDLE && k !in loadingKeys)
  {
    KeysGrowByLoads(tilesLoading, loadingKeys, seen);
    LoadsDistinct(tilesLoading, loadingKeys, seen);
    LoadsSeen(tilesLoading, loadingKeys, seen);
  }

  /** A pass records an abort exactly when it dequeued an ABORT tile. */
  lemma {:induction false} AbortsSeen(p: Pass, seen: seq<Seen>)
    requires !p.abortedTiles
    ensures Run(p, seen).abortedTiles <==> exists i | 0 <= i < |seen| :: seen[i].state == ABORT
    decreases |seen|
  {
    if seen != [] {
      var init := seen[..|seen| - 1];
      AbortsSeen(p, init);
      if exists i | 0 <= i < |init| :: init[i].state == ABORT {
        var i :| 0 <= i < |init| && init[i].state == ABORT;
        assert seen[i] == init[i];
      }
      forall i | 0 <= i < |seen| - 1
        ensures seen[i] == init[i]
      {
      }
    }
  }

  /** The starvation guard: the pass ends with the callback exactly when it
      dequeued an ABORT tile and no dequeued tile was IDLE and uncounted. */
  lemma StarvationGuard(tilesLoading: int, loadingKeys: set<TileKey>, seen: seq<Seen>)
    ensures FiresCallback(Run(Start(tilesLoading, loadingKeys), seen)) <==>
      (exists i | 0 <= i < |seen| :: seen[i].state == ABORT) &&
      (forall i | 0 <= i < |seen| :: !(seen[i].state == IDLE && seen[i].key !in loadingKeys))
  {
    var r := Run(Start(tilesLoading, loadingKeys), seen);
    AbortsSeen(Start(tilesLoading, loadingKeys), seen);
    LoadedKeys(tilesLoading, loadingKeys, seen);
    if exists i | 0 <= i < |seen| :: seen[i].state == IDLE && seen[i].key !in loadingKeys {
      var i :| 0 <= i < |seen| && seen[i].state == IDLE && seen[i].key !in loadingKeys;
      assert seen[i].key in r.loads;
    } else if r.loads != [] {
      assert r.loads[0] in r.loads;
    }
  }

  /** A pass over distinct IDLE tiles none of which is counted loads every one. */
  lemma {:induction false} AllIdleLoaded(tilesLoading: int, loadingKeys: set<TileKey>, seen: seq<Seen>)
    requires forall i | 0 <= i < |seen| :: seen[i].state == IDLE && seen[i].key !in loadingKeys
    requires UniqueKeys(seen)
    ensures Run(Start(tilesLoading, loadingKeys), seen).newLoads == |seen|
    decreases |seen|
  {
    if seen != [] {
      var init := seen[..|seen| - 1];
      var o := seen[|seen| - 1];
      AllIdleLoaded(tilesLoading, loadingKeys, init);
      LoadedKeys(tilesLoading, loadingKeys, init);
      var r0 := Run(Start(tilesLoading, loadingKeys), init);
      assert StartsLoad(r0, o);
    }
  }

  /** A pass over ABORT tiles only loads nothing and records an abort iff it
      took any tile. */
  lemma AllAbortsDropped(tilesLoading: int, loadingKeys: set<TileKey>, seen: seq<Seen>)
    requires forall i | 0 <= i < |seen| :: seen[i].state == ABORT
    ensures var r := Run(Start(tilesLoading, loadingKeys), seen);
      r.newLoads == 0 && r.tilesLoading == tilesLoading && r.loadingKeys == loadingKeys &&
      (FiresCallback(r) <==> seen != [])
  {
    var r := Run(Start(tilesLoading, loadingKeys), seen);
    StarvationGuard(tilesLoading, loadingKeys, seen);
    LoadedKeys(tilesLoading, loadingKeys, seen);
    if seen != [] {
      assert seen[0].state == ABORT;
    }
  }
}
