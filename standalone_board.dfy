/**
 * The `Square` and `Board` classes declared at the end of scrabble.ts: a
 * 15x15 grid of square objects, each holding a letter ("" when empty) and a
 * letter/word multiplier pair laid out once at construction.
 */
module StandaloneBoard {
  import opened Letters

  /**
   * The 15x15 size hard-coded in scrabble.ts. The modular engine's Board
   * (module Boards) has its own size, range test and double-word diagonals.
   * The two engines share no code, so each module keeps its own copy of them.
   */
  const BoardSize: int := 15

  predicate InRange(r: int, c: int) {
    0 <= r < BoardSize && 0 <= c < BoardSize
  }

  /** The `{ letter, word }` multiplier record of a square. */
  datatype Multiplier = Multiplier(letter: int, word: int)

  /** The `'letter' | 'word'` selector of setMultiplier. */
  datatype MultiplierKind = LetterKind | WordKind

  /** `multiplier[type] = value`. */
  function SetField(m: Multiplier, kind: MultiplierKind, value: int): (m': Multiplier)
    ensures kind == LetterKind ==> m'.letter == value && m'.word == m.word
    ensures kind == WordKind ==> m'.word == value && m'.letter == m.letter
  {
    if kind == LetterKind then m.(letter := value) else m.(word := value)
  }

  // ---------------------------------------------------------------------
  // The multiplier layout
  // ---------------------------------------------------------------------

  const TripleWordSquares: seq<(int, int)> :=
    [(0, 0), (0, 7), (0, 14), (7, 0), (7, 14), (14, 0), (14, 7), (14, 14)]

  const TripleLetterSquares: seq<(int, int)> :=
    [(1, 5), (1, 9), (5, 1), (5, 5), (5, 9), (5, 13),
     (9, 1), (9, 5), (9, 9), (9, 13), (13, 5), (13, 9)]

  const DoubleLetterSquares: seq<(int, int)> :=
    [(0, 3), (0, 11), (2, 6), (2, 8), (3, 0), (3, 7), (3, 14),
     (6, 2), (6, 6), (6, 8), (6, 12), (7, 3), (7, 11),
     (8, 2), (8, 6), (8, 8), (8, 12), (11, 0), (11, 7), (11, 14),
     (12, 6), (12, 8), (14, 3), (14, 11)]

  /** The squares the double-word loop has marked once its counter reaches i: (j, j), (j, 14-j), (14-j, j), (14-j, 14-j) for 1 <= j < i. */
  predicate DoubleWordBefore(r: int, c: int, i: int) {
    (c == r || c == 14 - r) && (1 <= r < i || 1 <= 14 - r < i)
  }

  predicate IsDoubleWord(r: int, c: int) {
    DoubleWordBefore(r, c, 5)
  }

  /** The word stages of initializeMultipliers: triple-word list, then the double-word diagonals. */
  function WordOverlay(m: Multiplier, r: int, c: int): Multiplier {
    var m1 := if (r, c) in TripleWordSquares then m.(word := 3) else m;
    if IsDoubleWord(r, c) then m1.(word := 2) else m1
  }

  /** One forEach over a list of positions: the multiplier of (r, c) after it, given m before it. */
  function Stamp(m: Multiplier, positions: seq<(int, int)>, kind: MultiplierKind, value: int, r: int, c: int): Multiplier {
    if (r, c) in positions then SetField(m, kind, value) else m
  }

  /** The letter stages of initializeMultipliers: triple-letter list, then double-letter list. */
  function LetterOverlay(m: Multiplier, r: int, c: int): Multiplier {
    Stamp(Stamp(m, TripleLetterSquares, LetterKind, 3, r, c), DoubleLetterSquares, LetterKind, 2, r, c)
  }

  /** What initializeMultipliers makes of a square's multiplier m; later stages overwrite earlier ones. */
  function Overlay(m: Multiplier, r: int, c: int): Multiplier {
    LetterOverlay(WordOverlay(m, r, c), r, c)
  }

  /** The multiplier of square (r, c) on a new board. */
  function Layout(r: int, c: int): Multiplier {
    Overlay(Multiplier(1, 1), r, c)
  }

  /**
   * No square is on two lists of the same kind, so the order of the stages
   * does not matter: a square's word multiplier is 3 exactly on the
   * triple-word list, 2 exactly on the double-word diagonals and 1 elsewhere,
   * and its letter multiplier is 3, 2 or 1 in the same way.
   */
  lemma LayoutMeaning(r: int, c: int)
    ensures Layout(r, c).word == (if (r, c) in TripleWordSquares then 3 else if IsDoubleWord(r, c) then 2 else 1)
    ensures Layout(r, c).letter == (if (r, c) in TripleLetterSquares then 3 else if (r, c) in DoubleLetterSquares then 2 else 1)
  {
    if (r, c) in TripleWordSquares {
      assert r == 0 || r == 7 || r == 14;
    }
    if (r, c) in TripleLetterSquares {
      assert (r, c) !in DoubleLetterSquares;
    }
  }

  // ---------------------------------------------------------------------
  // Square
  // ---------------------------------------------------------------------

  class Square {
    var letter: string
    var multiplier: Multiplier

    /** A new square is empty, with multipliers 1 and 1. */
    constructor()
      ensures letter == "" && multiplier == Multiplier(1, 1)
    {
      letter := "";
      multiplier := Multiplier(1, 1);
    }

    /** setLetter stores the upper-cased letter and leaves the multiplier alone. */
    method SetLetter(l: string)
      modifies this
      ensures letter == Upper(l) && multiplier == old(multiplier)
    {
      letter := Upper(l);
    }

    /** setMultiplier changes only the selected half of the multiplier. */
    method SetMultiplier(kind: MultiplierKind, value: int)
      modifies this
      ensures multiplier == SetField(old(multiplier), kind, value) && letter == old(letter)
    {
      multiplier := SetField(multiplier, kind, value);
    }
  }

  // ---------------------------------------------------------------------
  // Board
  // ---------------------------------------------------------------------

  class Board {
    var squares: array2<Square?>

    /** The square objects of the grid. */
    ghost var Repr: set<Square>

    /** A 15x15 grid of distinct squares. */
    ghost predicate Valid()
      reads this, squares
    {
      && squares.Length0 == BoardSize && squares.Length1 == BoardSize
      && (forall r, c :: InRange(r, c) ==> squares[r, c] != null && squares[r, c] in Repr)
      && (forall r, c, r', c' :: InRange(r, c) && InRange(r', c') && squares[r, c] == squares[r', c'] ==> r == r' && c == c')
    }

    /** The letter on square (r, c). */
    ghost function LetterOn(r: int, c: int): string
      requires Valid() && InRange(r, c)
      reads this, squares, Repr
    {
      squares[r, c].letter
    }

    /** The multiplier of square (r, c). */
    ghost function MultiplierOn(r: int, c: int): Multiplier
      requires Valid() && InRange(r, c)
      reads this, squares, Repr
    {
      squares[r, c].multiplier
    }

    /** A new board: every square empty, the multipliers as Layout gives them. */
    constructor()
      ensures Valid() && fresh(Repr)
      ensures forall r, c :: InRange(r, c) ==> LetterOn(r, c) == "" && MultiplierOn(r, c) == Layout(r, c)
    {
      squares := new Square?[BoardSize, BoardSize];
      Repr := {};
      new;
      for r := 0 to BoardSize
        invariant fresh(squares) && squares.Length0 == BoardSize && squares.Length1 == BoardSize
        invariant fresh(Repr)
        invariant forall i, j :: InRange(i, j) && i < r ==>
                    squares[i, j] != null && squares[i, j] in Repr
                    && squares[i, j].letter == "" && squares[i, j].multiplier == Multiplier(1, 1)
        invariant forall i, j, i', j' :: InRange(i, j) && InRange(i', j') && i < r && i' < r && squares[i, j] == squares[i', j'] ==> i == i' && j == j'
      {
        for c := 0 to BoardSize
          invariant fresh(squares) && squares.Length0 == BoardSize && squares.Length1 == BoardSize
          invariant fresh(Repr)
          invariant forall i, j :: InRange(i, j) && (i < r || (i == r && j < c)) ==>
                      squares[i, j] != null && squares[i, j] in Repr
                      && squares[i, j].letter == "" && squares[i, j].multiplier == Multiplier(1, 1)
          invariant forall i, j, i', j' :: InRange(i, j) && InRange(i', j') && (i < r || (i == r && j < c)) && (i' < r || (i' == r && j' < c)) && squares[i, j] == squares[i', j'] ==> i == i' && j == j'
        {
          var s := new Square();
          squares[r, c] := s;
          Repr := Repr + {s};
        }
      }
      InitializeMultipliers();
    }

    /** `positions.forEach(([row, col]) => squares[row][col].setMultiplier(kind, value))`. */
    method MarkSquares(positions: seq<(int, int)>, kind: MultiplierKind, value: int)
      requires Valid()
      requires forall k :: 0 <= k < |positions| ==> InRange(positions[k].0, positions[k].1)
      modifies Repr
      ensures Valid()
      ensures forall r, c :: InRange(r, c) ==>
                && LetterOn(r, c) == old(LetterOn(r, c))
                && MultiplierOn(r, c) == Stamp(old(MultiplierOn(r, c)), positions, kind, value, r, c)
    {
      for k := 0 to |positions|
        invariant Valid()
        invariant forall r, c :: InRange(r, c) ==>
                    && LetterOn(r, c) == old(LetterOn(r, c))
                    && MultiplierOn(r, c) == if (r, c) in positions[..k] then SetField(old(MultiplierOn(r, c)), kind, value) else old(MultiplierOn(r, c))
      {
        var (row, col) := positions[k];
        squares[row, col].SetMultiplier(kind, value);
        assert positions[..k + 1] == positions[..k] + [(row, col)];
      }
      assert positions[..|positions|] == positions;
    }

    /** The double-word loop: for i in 1..4, the four diagonal squares at distance i from a corner get word multiplier 2. */
    method MarkDoubleWords()
      requires Valid()
      modifies Repr
      ensures Valid()
      ensures forall r, c :: InRange(r, c) ==>
                && LetterOn(r, c) == old(LetterOn(r, c))
                && MultiplierOn(r, c) == if IsDoubleWord(r, c) then old(MultiplierOn(r, c)).(word := 2) else old(MultiplierOn(r, c))
    {
      for i := 1 to 5
        invariant Valid()
        invariant forall r, c :: InRange(r, c) ==>
                    && LetterOn(r, c) == old(LetterOn(r, c))
                    && MultiplierOn(r, c) == if DoubleWordBefore(r, c, i) then old(MultiplierOn(r, c)).(word := 2) else old(MultiplierOn(r, c))
      {
        squares[i, i].SetMultiplier(WordKind, 2);
        squares[i, 14 - i].SetMultiplier(WordKind, 2);
        squares[14 - i, i].SetMultiplier(WordKind, 2);
        squares[14 - i, 14 - i].SetMultiplier(WordKind, 2);
      }
    }

    /**
     * initializeMultipliers: triple-word list, double-word diagonals,
     * triple-letter list, double-letter list, in that order. Letters are left alone.
     */
    method InitializeMultipliers()
      requires Valid()
      modifies Repr
      ensures Valid()
      ensures forall r, c :: InRange(r, c) ==>
                LetterOn(r, c) == old(LetterOn(r, c)) && MultiplierOn(r, c) == Overlay(old(MultiplierOn(r, c)), r, c)
    {
      MarkWordMultipliers();
      MarkLetterMultipliers();
    }

    /** The word stages of initializeMultipliers. */
    method MarkWordMultipliers()
      requires Valid()
      modifies Repr
      ensures Valid()
      ensures forall r, c :: InRange(r, c) ==>
                LetterOn(r, c) == old(LetterOn(r, c)) && MultiplierOn(r, c) == WordOverlay(old(MultiplierOn(r, c)), r, c)
    {
      MarkSquares(TripleWordSquares, WordKind, 3);
      MarkDoubleWords();
    }

    /** The letter stages of initializeMultipliers. */
    method MarkLetterMultipliers()
      requires Valid()
      modifies Repr
      ensures Valid()
      ensures forall r, c :: InRange(r, c) ==>
                LetterOn(r, c) == old(LetterOn(r, c)) && MultiplierOn(r, c) == LetterOverlay(old(MultiplierOn(r, c)), r, c)
    {
      MarkTwoLists(TripleLetterSquares, 3, DoubleLetterSquares, 2);
    }

    /** Letter multiplier v1 on the squares of the first list, then v2 on those of the second. */
    method MarkTwoLists(first: seq<(int, int)>, v1: int, second: seq<(int, int)>, v2: int)
      requires Valid()
      requires forall k :: 0 <= k < |first| ==> InRange(first[k].0, first[k].1)
      requires forall k :: 0 <= k < |second| ==> InRange(second[k].0, second[k].1)
      modifies Repr
      ensures Valid()
      ensures forall r, c :: InRange(r, c) ==>
                && LetterOn(r, c) == old(LetterOn(r, c))
                && MultiplierOn(r, c) == Stamp(Stamp(old(MultiplierOn(r, c)), first, LetterKind, v1, r, c), second, LetterKind, v2, r, c)
    {
      MarkSquares(first, LetterKind, v1);
      MarkSquares(second, LetterKind, v2);
    }

    /**
     * placeLetter: succeeds exactly when (row, col) is on the board and its
     * square is empty; then that square holds the upper-cased letter. No other
     * square and no multiplier changes; a refusal changes nothing.
     */
    method PlaceLetter(row: int, col: int, l: string) returns (ok: bool)
      requires Valid()
      modifies Repr
      ensures Valid()
      ensures ok == (InRange(row, col) && old(LetterOn(row, col)) == "")
      ensures forall r, c :: InRange(r, c) ==>
                && MultiplierOn(r, c) == old(MultiplierOn(r, c))
                && LetterOn(r, c) == if ok && r == row && c == col then Upper(l) else old(LetterOn(r, c))
    {
      if row < 0 || row >= BoardSize || col < 0 || col >= BoardSize {
        return false;
      }
      if squares[row, col].letter != "" {
        return false;
      }
      squares[row, col].SetLetter(l);
      return true;
    }

    /** getLetter: the square's letter, or "" off the board. */
    method GetLetter(row: int, col: int) returns (l: string)
      requires Valid()
      ensures InRange(row, col) ==> l == LetterOn(row, col)
      ensures !InRange(row, col) ==> l == ""
    {
      if row < 0 || row >= BoardSize || col < 0 || col >= BoardSize {
        return "";
      }
      return squares[row, col].letter;
    }

    /** getMultiplier: a copy of the square's multiplier, or { letter: 1, word: 1 } off the board. */
    method GetMultiplier(row: int, col: int) returns (m: Multiplier)
      requires Valid()
      ensures InRange(row, col) ==> m == MultiplierOn(row, col)
      ensures !InRange(row, col) ==> m == Multiplier(1, 1)
    {
      if row < 0 || row >= BoardSize || col < 0 || col >= BoardSize {
        return Multiplier(1, 1);
      }
      return squares[row, col].multiplier;
    }

    /** isEmpty: whether the square holds no letter; false off the board. */
    method IsEmpty(row: int, col: int) returns (empty: bool)
      requires Valid()
      ensures empty <==> InRange(row, col) && LetterOn(row, col) == ""
    {
      if row < 0 || row >= BoardSize || col < 0 || col >= BoardSize {
        return false;
      }
      return squares[row, col].letter == "";
    }
  }
}
