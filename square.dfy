/**
 * `Square` of src/scrabble/Square.ts: a board cell with a special
 * designation that never changes and a tile slot that is filled at most once.
 */
module Squares {
  import opened Wrappers

  /** A tile: its letter and its point value. Tile.ts is not part of this model; the record shape is that of `TileType`. */
  datatype Tile = Tile(letter: string, pointValue: int)

  /** The `SpecialSquare` union; `Plain` stands for its `null` member. */
  datatype SpecialSquare = DoubleWord | TripleWord | DoubleLetter | TripleLetter | CenterStar | Plain

  class Square {
    var tile: Option<Tile>
    var special: SpecialSquare

    /** A new square holds no tile; its designation is the one given, `Plain` by default. */
    constructor(special: SpecialSquare := Plain)
      ensures tile == None && this.special == special
    {
      tile := None;
      this.special := special;
    }

    /**
     * placeTile: succeeds exactly when the square holds no tile, and then
     * holds t; an occupied square keeps its tile. The designation never changes.
     */
    method PlaceTile(t: Tile) returns (placed: bool)
      modifies this
      ensures placed == old(tile).None?
      ensures tile == if placed then Some(t) else old(tile)
      ensures special == old(special)
    {
      if tile == None {
        tile := Some(t);
        return true;
      }
      return false;
    }
  }

  /**
   * A tile is set at most once: placing t on a square, then u, leaves t there
   * and refuses u. Stated on the values placeTile works on.
   */
  method PlaceTwice(t: Tile, u: Tile) returns (first: bool, second: bool, held: Option<Tile>)
    ensures first && !second && held == Some(t)
  {
    var s := new Square();
    first := s.PlaceTile(t);
    second := s.PlaceTile(u);
    held := s.tile;
  }
}
