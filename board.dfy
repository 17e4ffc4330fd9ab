/**
 * `Board` of src/scrabble/Board.ts: a BOARD_SIZE x BOARD_SIZE grid of
 * squares whose special designations come from a fixed layout, with tile
 * placement and a row-major walk over all squares.
 */
module Boards {
  import opened Wrappers
  import opened Squares

  /**
   * `BOARD_SIZE`: a public instance field in the source, initialised to 15
   * and never reassigned, held here as a module constant. The standalone engine's board has its own
   * size, range test and double-word diagonals. The two engines share no code,
   * so each module keeps its own copy of them.
   */
  const BoardSize: int := 15

  /** `Math.floor(BOARD_SIZE / 2)`, the middle row and column. */
  const Mid: int := BoardSize / 2

  /** `BOARD_SIZE - 1`, the last row and column. */
  const Last: int := BoardSize - 1

  predicate InRange(x: int, y: int) {
    0 <= x < BoardSize && 0 <= y < BoardSize
  }

  // ---------------------------------------------------------------------
  // The special-square layout
  // ---------------------------------------------------------------------

  const TripleWordPositions: seq<(int, int)> :=
    [(0, 0), (0, Mid), (0, Last), (Mid, 0), (Mid, Last), (Last, 0), (Last, Mid), (Last, Last)]

  /** The squares the double-word loop has marked once its counter reaches i: (j, j), (j, 14-j), (14-j, j), (14-j, 14-j) for 1 <= j < i. */
  predicate DoubleWordBefore(x: int, y: int, i: int) {
    (y == x || y == Last - x) && (1 <= x < i || 1 <= Last - x < i)
  }

  predicate IsDoubleWord(x: int, y: int) {
    DoubleWordBefore(x, y, 5)
  }

  /**
   * The designation initializeSpecialSquares gives (x, y). The stages run
   * double-word, then centre, then triple-word, each overwriting the last.
   */
  function Layout(x: int, y: int): SpecialSquare {
    if (x, y) in TripleWordPositions then TripleWord
    else if x == Mid && y == Mid then CenterStar
    else if IsDoubleWord(x, y) then DoubleWord
    else Plain
  }

  /** The triple-word positions are the corners and edge midpoints: both coordinates in {0, 7, 14}, the centre excepted. */
  lemma TripleWordPositionsAre(x: int, y: int)
    ensures (x, y) in TripleWordPositions <==>
              (x == 0 || x == Mid || x == Last) && (y == 0 || y == Mid || y == Last) && !(x == Mid && y == Mid)
  {
    if (x == 0 || x == Mid || x == Last) && (y == 0 || y == Mid || y == Last) && !(x == Mid && y == Mid) {
      if x == 0 && y == 0 { assert TripleWordPositions[0] == (x, y); }
      else if x == 0 && y == Mid { assert TripleWordPositions[1] == (x, y); }
      else if x == 0 { assert TripleWordPositions[2] == (x, y); }
      else if x == Mid && y == 0 { assert TripleWordPositions[3] == (x, y); }
      else if x == Mid { assert TripleWordPositions[4] == (x, y); }
      else if y == 0 { assert TripleWordPositions[5] == (x, y); }
      else if y == Mid { assert TripleWordPositions[6] == (x, y); }
      else { assert TripleWordPositions[7] == (x, y); }
    }
  }

  /** Exactly the 8 listed positions are triple-word. */
  lemma TripleWordExactly(x: int, y: int)
    ensures Layout(x, y) == TripleWord <==>
              (x, y) in {(0, 0), (0, 7), (0, 14), (7, 0), (7, 14), (14, 0), (14, 7), (14, 14)}
  {
    TripleWordPositionsAre(x, y);
  }

  /** For i in 1..4, the squares (i, i), (i, 14-i), (14-i, i) and (14-i, 14-i) are double-word: none is overwritten later. */
  lemma DoubleWordDiagonals(i: int)
    requires 1 <= i < 5
    ensures Layout(i, i) == DoubleWord && Layout(i, Last - i) == DoubleWord
    ensures Layout(Last - i, i) == DoubleWord && Layout(Last - i, Last - i) == DoubleWord
  {
    TripleWordPositionsAre(i, i);
    TripleWordPositionsAre(i, Last - i);
    TripleWordPositionsAre(Last - i, i);
    TripleWordPositionsAre(Last - i, Last - i);
  }

  /** No other square is double-word: the double-word squares are exactly the diagonal squares at distance 1 to 4 from a corner. */
  lemma DoubleWordExactly(x: int, y: int)
    ensures Layout(x, y) == DoubleWord <==> IsDoubleWord(x, y)
  {
    TripleWordPositionsAre(x, y);
  }

  /** The centre is the centre star; every square on no list is plain (`null`). */
  lemma CenterAndPlain(x: int, y: int)
    ensures Layout(Mid, Mid) == CenterStar
    ensures Layout(x, y) == Plain <==>
              (x, y) !in TripleWordPositions && !(x == Mid && y == Mid) && !IsDoubleWord(x, y)
  {
    TripleWordPositionsAre(Mid, Mid);
  }

  /** The layout is unchanged by swapping the coordinates and by mirroring x to 14 - x. */
  lemma {:induction false} LayoutSymmetric(x: int, y: int)
    requires InRange(x, y)
    ensures Layout(x, y) == Layout(y, x)
    ensures Layout(x, y) == Layout(Last - x, y)
  {
    TripleWordPositionsAre(x, y);
    TripleWordPositionsAre(y, x);
    TripleWordPositionsAre(Last - x, y);
  }

  // ---------------------------------------------------------------------
  // The board
  // ---------------------------------------------------------------------

  /** The decimal digits of n, as a template literal prints a non-negative integer. */
  function Digits(n: nat): string
    decreases n
  {
    if n < 10 then [('0' as int + n) as char] else Digits(n / 10) + [('0' as int + n % 10) as char]
  }

  /** An integer as a template literal prints it. */
  function IntText(n: int): string {
    if n < 0 then "-" + Digits(-n) else Digits(n)
  }

  /** The message of the `Error` placeTile throws when the square at (x, y) is missing. */
  function NullSquareMessage(x: int, y: int): string {
    "Cannot place tile at position (" + IntText(x) + ", " + IntText(y) + ") because the square is null."
  }

  /**
   * How placeTile ends: it returns whether the square took the tile, or it
   * throws. `grid[x]` is undefined for x off the board, so reading `[y]` of it
   * is a TypeError. For x on the board and y off it, `grid[x][y]` is undefined,
   * which is `== null`, so placeTile throws its own `Error`.
   */
  datatype PlaceResult = Answered(placed: bool) | ThrewTypeError | ThrewError(message: string)

  class Board {
    var grid: array2<Square?>

    /** The square objects of the grid. */
    ghost var Repr: set<Square>

    /** A BOARD_SIZE x BOARD_SIZE grid of distinct squares, none of them null. */
    ghost predicate Valid()
      reads this, grid
    {
      && grid.Length0 == BoardSize && grid.Length1 == BoardSize
      && (forall x, y :: InRange(x, y) ==> grid[x, y] != null && grid[x, y] in Repr)
      && (forall x, y, x', y' :: InRange(x, y) && InRange(x', y') && grid[x, y] == grid[x', y'] ==> x == x' && y == y')
    }

    /** The tile on square (x, y). */
    ghost function TileAt(x: int, y: int): Option<Tile>
      requires Valid() && InRange(x, y)
      reads this, grid, Repr
    {
      grid[x, y].tile
    }

    /** The designation of square (x, y). */
    ghost function SpecialAt(x: int, y: int): SpecialSquare
      requires Valid() && InRange(x, y)
      reads this, grid, Repr
    {
      grid[x, y].special
    }

    /** A new board: every square empty, designated as Layout says. */
    constructor()
      ensures Valid() && fresh(Repr)
      ensures forall x, y :: InRange(x, y) ==> TileAt(x, y) == None && SpecialAt(x, y) == Layout(x, y)
    {
      var squares, repr := InitializeBoard();
      grid := squares;
      Repr := repr;
    }

    /**
     * initializeSpecialSquares: a fresh grid of designations, all `null`, then
     * the double-word loop, the centre star and the triple-word list.
     */
    static method InitializeSpecialSquares() returns (specials: array2<SpecialSquare>)
      ensures fresh(specials)
      ensures specials.Length0 == BoardSize && specials.Length1 == BoardSize
      ensures forall x, y :: InRange(x, y) ==> specials[x, y] == Layout(x, y)
    {
      specials := new SpecialSquare[BoardSize, BoardSize]((_, _) => Plain);
      for i := 1 to 5
        invariant forall x, y :: InRange(x, y) ==> specials[x, y] == if DoubleWordBefore(x, y, i) then DoubleWord else Plain
      {
        specials[i, i] := DoubleWord;
        specials[i, Last - i] := DoubleWord;
        specials[Last - i, i] := DoubleWord;
        specials[Last - i, Last - i] := DoubleWord;
      }
      specials[Mid, Mid] := CenterStar;
      for k := 0 to |TripleWordPositions|
        invariant forall x, y :: InRange(x, y) ==>
                    specials[x, y] == if (x, y) in TripleWordPositions[..k] then TripleWord
                                      else if x == Mid && y == Mid then CenterStar
                                      else if IsDoubleWord(x, y) then DoubleWord
                                      else Plain
      {
        var (x, y) := TripleWordPositions[k];
        specials[x, y] := TripleWord;
        assert TripleWordPositions[..k + 1] == TripleWordPositions[..k] + [(x, y)];
      }
      assert TripleWordPositions[..|TripleWordPositions|] == TripleWordPositions;
    }

    /**
     * initializeBoard: a fresh grid holding a new, empty square at every
     * position, designated as initializeSpecialSquares says.
     */
    static method InitializeBoard() returns (squares: array2<Square?>, ghost repr: set<Square>)
      ensures fresh(squares) && fresh(repr)
      ensures squares.Length0 == BoardSize && squares.Length1 == BoardSize
      ensures forall x, y :: InRange(x, y) ==>
                && squares[x, y] != null && squares[x, y] in repr
                && squares[x, y].tile == None && squares[x, y].special == Layout(x, y)
      ensures forall x, y, x', y' :: InRange(x, y) && InRange(x', y') && squares[x, y] == squares[x', y'] ==> x == x' && y == y'
    {
      var specials := InitializeSpecialSquares();
      squares := new Square?[BoardSize, BoardSize];
      repr := {};
      for x := 0 to BoardSize
        invariant fresh(repr)
        invariant forall i, j :: InRange(i, j) ==> specials[i, j] == Layout(i, j)
        invariant forall i, j :: InRange(i, j) && i < x ==>
                    && squares[i, j] != null && squares[i, j] in repr
                    && squares[i, j].tile == None && squares[i, j].special == Layout(i, j)
        invariant forall i, j, i', j' :: InRange(i, j) && InRange(i', j') && i < x && i' < x && squares[i, j] == squares[i', j'] ==> i == i' && j == j'
      {
        for y := 0 to BoardSize
          invariant fresh(repr)
          invariant forall i, j :: InRange(i, j) ==> specials[i, j] == Layout(i, j)
          invariant forall i, j :: InRange(i, j) && (i < x || (i == x && j < y)) ==>
                      && squares[i, j] != null && squares[i, j] in repr
                      && squares[i, j].tile == None && squares[i, j].special == Layout(i, j)
          invariant forall i, j, i', j' :: InRange(i, j) && InRange(i', j') && (i < x || (i == x && j < y)) && (i' < x || (i' == x && j' < y)) && squares[i, j] == squares[i', j'] ==> i == i' && j == j'
        {
          var s := new Square(specials[x, y]);
          squares[x, y] := s;
          repr := repr + {s};
        }
      }
    }

    /**
     * placeTile: with x off the board a TypeError, with only y off the board the
     * null-square `Error`. On the board it answers whether square (x, y) held no
     * tile, and then the square holds t. No other square's tile and no
     * designation changes, and a throw changes nothing.
     */
    method PlaceTile(x: int, y: int, t: Tile) returns (result: PlaceResult)
      requires Valid()
      modifies Repr
      ensures Valid()
      ensures !(0 <= x < BoardSize) ==> result == ThrewTypeError
      ensures 0 <= x < BoardSize && !(0 <= y < BoardSize) ==> result == ThrewError(NullSquareMessage(x, y))
      ensures InRange(x, y) ==> result == Answered(old(TileAt(x, y)).None?)
      ensures forall i, j :: InRange(i, j) ==>
                && SpecialAt(i, j) == old(SpecialAt(i, j))
                && TileAt(i, j) == if result == Answered(true) && i == x && j == y then Some(t) else old(TileAt(i, j))
    {
      if !(0 <= x < BoardSize) {
        return ThrewTypeError;
      }
      if !(0 <= y < BoardSize) {
        return ThrewError(NullSquareMessage(x, y));
      }
      var placed := grid[x, y].PlaceTile(t);
      return Answered(placed);
    }

    /**
     * gridIterator: every square with its coordinates, row by row. Item k is
     * square (k / 15, k % 15), so each position comes exactly once, in row-major order.
     */
    method GridIterator() returns (items: seq<(int, int, Square)>)
      requires Valid()
      ensures RowMajor(items)
      ensures forall k :: 0 <= k < |items| ==> items[k].2 == grid[items[k].0, items[k].1]
    {
      items := [];
      for x := 0 to BoardSize
        invariant |items| == x * BoardSize
        invariant forall k :: 0 <= k < |items| ==>
                    InRange(items[k].0, items[k].1) && items[k].0 * BoardSize + items[k].1 == k
                    && items[k].2 == grid[items[k].0, items[k].1]
      {
        for y := 0 to BoardSize
          invariant |items| == x * BoardSize + y
          invariant forall k :: 0 <= k < |items| ==>
                      InRange(items[k].0, items[k].1) && items[k].0 * BoardSize + items[k].1 == k
                      && items[k].2 == grid[items[k].0, items[k].1]
        {
          items := items + [(x, y, grid[x, y])];
        }
      }
    }
  }

  /** Item k of a full walk sits at position k of the row-major numbering x * 15 + y. */
  predicate RowMajor<T>(items: seq<(int, int, T)>) {
    && |items| == BoardSize * BoardSize
    && forall k :: 0 <= k < |items| ==>
         InRange(items[k].0, items[k].1) && items[k].0 * BoardSize + items[k].1 == k
  }

  /** A row-major walk visits every position of the board exactly once, (x, y) as item x * 15 + y. */
  lemma {:induction false} RowMajorVisitsOnce<T>(items: seq<(int, int, T)>, x: int, y: int)
    requires RowMajor(items) && InRange(x, y)
    ensures 0 <= x * BoardSize + y < |items|
    ensures items[x * BoardSize + y].0 == x && items[x * BoardSize + y].1 == y
    ensures forall k :: 0 <= k < |items| && items[k].0 == x && items[k].1 == y ==> k == x * BoardSize + y
  {
    var k := x * BoardSize + y;
    assert 0 <= k < |items|;
  }
}
