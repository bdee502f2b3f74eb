/** Tiles as the scheduler sees them: a stable key and a lifecycle state that
    the tile's own loader (or a cache evicting it) changes. The scheduler
    holds references to tiles and only ever reads them. */
module Tiles {

  /** A tile's identity, e.g. its source URL or "z/x/y" coordinate string. */
  type TileKey = string

  /** The lifecycle states of `ol.TileState`. */
  datatype TileState = IDLE | LOADING | LOADED | ERROR | EMPTY | ABORT

  /** The states after which the scheduler stops tracking a tile. */
  predicate IsTerminal(s: TileState): (b: bool)
    ensures b <==> s != IDLE && s != LOADING
  {
    s == LOADED || s == ERROR || s == EMPTY || s == ABORT
  }

  /** A tile object. Its state belongs to the tile and its loader; nothing in
      the scheduler writes it. */
  class Tile {
    const key: TileKey
    var state: TileState

    constructor (key: TileKey, state: TileState)
      ensures this.key == key && this.state == state
    {
      this.key := key;
      this.state := state;
    }
  }
}
