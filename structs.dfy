/** The base queue `ol.structs.PriorityQueue`, modelled abstractly: a
    collection of entries that is unique by tile key. Its heap order and its
    priority function are not modelled, so `Dequeue` may return any entry. */
module Structs {
  import opened Tiles

  /** The extra arguments of a tile priority function (tile source key,
      tile centre and resolution); the queue stores them and never reads them. */
  datatype PriorityArgs = PriorityArgs(sourceKey: string, centerX: real, centerY: real, resolution: real)

  /** A queue element `[tile, ...priorityArgs]`. */
  datatype Entry = Entry(tile: Tile, args: PriorityArgs)

  class PriorityQueue {
    /** The pending entries, each filed under its tile's key. */
    var elements: map<TileKey, Entry>

    ghost predicate Valid()
      reads this
    {
      forall k | k in elements :: elements[k].tile.key == k
    }

    constructor ()
      ensures Valid() && elements == map[]
    {
      elements := map[];
    }

    /** Adds `e` unless an entry with the same tile key is pending; returns
        whether it was added. A duplicate changes nothing. */
    method Enqueue(e: Entry) returns (added: bool)
      requires Valid()
      modifies this
      ensures Valid()
      ensures added <==> e.tile.key !in old(elements)
      ensures elements == if added then old(elements)[e.tile.key := e] else old(elements)
    {
      added := e.tile.key !in elements;
      if added {
        elements := elements[e.tile.key := e];
      }
    }

    /** Removes and returns some pending entry. */
    method Dequeue() returns (e: Entry)
      requires Valid() && |elements| > 0
      modifies this
      ensures Valid()
      ensures e.tile.key in old(elements) && old(elements)[e.tile.key] == e
      ensures elements == old(elements) - {e.tile.key}
      ensures |elements| == |old(elements)| - 1
    {
      var k :| k in elements;
      e := elements[k];
      elements := elements - {k};
      assert elements.Keys == old(elements).Keys - {k};
    }

    /** The number of pending entries. */
    method GetCount() returns (n: nat)
      ensures n == |elements|
    {
      n := |elements|;
    }
  }
}
