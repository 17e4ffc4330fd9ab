/**
 * The value-level view of `ScrabbleGame.board` in scrabble.ts: a 15x15 grid of
 * cells that are either empty (the source's "") or hold one letter.
 *
 * This module states what the game's board operations mean:
 *   - which cells a run covers and when a run may be placed (canPlaceWord);
 *   - the perpendicular word read through a run position (checkWord inside
 *     getImpactedWords) and the list of impacted words;
 *   - the grid after a run is written (the write loop of placeWord).
 */
module GameGrid {

  const Size: int := 15

  datatype Cell = Empty | Letter(ch: char)

  datatype Direction = Horizontal | Vertical

  type Grid = seq<seq<Cell>>

  predicate IsGrid(g: Grid) {
    |g| == Size && forall r :: 0 <= r < Size ==> |g[r]| == Size
  }

  predicate InBounds(r: int, c: int) {
    0 <= r < Size && 0 <= c < Size
  }

  function EmptyGrid(): (g: Grid)
    ensures IsGrid(g)
    ensures forall r, c :: InBounds(r, c) ==> g[r][c] == Empty
  {
    seq(Size, _ => seq(Size, _ => Empty))
  }

  // ---------------------------------------------------------------------
  // The cells a run covers
  // ---------------------------------------------------------------------

  /** Row of the i-th cell of a run that starts at (row, col). */
  function RunRow(row: int, dir: Direction, i: int): int {
    if dir == Horizontal then row else row + i
  }

  /** Column of the i-th cell of a run that starts at (row, col). */
  function RunCol(col: int, dir: Direction, i: int): int {
    if dir == Horizontal then col + i else col
  }

  /** (r, c) is one of the first n cells of the run starting at (row, col). */
  predicate OnRun(r: int, c: int, row: int, col: int, dir: Direction, n: int) {
    if dir == Horizontal then r == row && col <= c < col + n
    else c == col && row <= r < row + n
  }

  /** Position of (r, c) within the run, meaningful when OnRun holds. */
  function RunIndex(r: int, c: int, row: int, col: int, dir: Direction): int {
    if dir == Horizontal then c - col else r - row
  }

  predicate RunInBounds(row: int, col: int, dir: Direction, n: int) {
    forall i :: 0 <= i < n ==> InBounds(RunRow(row, dir, i), RunCol(col, dir, i))
  }

  // ---------------------------------------------------------------------
  // canPlaceWord
  // ---------------------------------------------------------------------

  /** The word's letter ch may go on (r, c): the cell is on the board and is empty or already holds ch. */
  predicate Fits(g: Grid, r: int, c: int, ch: char)
    requires IsGrid(g)
  {
    InBounds(r, c) && (g[r][c] == Empty || g[r][c] == Letter(ch))
  }

  /** The run fails the length check of canPlaceWord: it would end past the last row or column. */
  predicate Overflows(row: int, col: int, n: int, dir: Direction) {
    (dir == Horizontal && col + n > Size) || (dir == Vertical && row + n > Size)
  }

  /**
   * The verdict canPlaceWord is meant to give: the run does not overflow the
   * board and every covered cell is on the board and fits its letter.
   */
  predicate Placeable(g: Grid, row: int, col: int, w: string, dir: Direction)
    requires IsGrid(g)
  {
    !Overflows(row, col, |w|, dir)
    && forall i :: 0 <= i < |w| ==> Fits(g, RunRow(row, dir, i), RunCol(col, dir, i), w[i])
  }

  /** A placeable run lies on the board, and overlapping a cell is allowed only with the same letter. */
  lemma PlaceableMeans(g: Grid, row: int, col: int, w: string, dir: Direction)
    requires IsGrid(g)
    ensures Placeable(g, row, col, w, dir) ==> RunInBounds(row, col, dir, |w|)
    ensures Placeable(g, row, col, w, dir) <==>
              && !Overflows(row, col, |w|, dir)
              && RunInBounds(row, col, dir, |w|)
              && forall i :: 0 <= i < |w| ==>
                   var cell := g[RunRow(row, dir, i)][RunCol(col, dir, i)];
                   cell == Empty || cell == Letter(w[i])
  {
  }

  /** The outcome of canPlaceWord AS WRITTEN, including the exception it can throw. */
  datatype Verdict = Yes | No | Throws

  /**
   * canPlaceWord as written: after the length check it reads board[r][c] for
   * each covered cell. A row index outside the board makes board[r] undefined and
   * reading [c] of it throws a TypeError; a column index outside the board yields
   * undefined, which differs from "" and from the letter, so the answer is false.
   */
  function CanPlaceAsWritten(g: Grid, row: int, col: int, w: string, dir: Direction): Verdict
    requires IsGrid(g)
  {
    if Overflows(row, col, |w|, dir) then No
    else ScanAsWritten(g, row, col, w, dir, 0)
  }

  function ScanAsWritten(g: Grid, row: int, col: int, w: string, dir: Direction, i: nat): Verdict
    requires IsGrid(g)
    requires i <= |w|
    decreases |w| - i
  {
    if i == |w| then Yes
    else
      var r, c := RunRow(row, dir, i), RunCol(col, dir, i);
      if !(0 <= r < Size) then Throws
      else if !(0 <= c < Size) then No
      else if g[r][c] != Empty && g[r][c] != Letter(w[i]) then No
      else ScanAsWritten(g, row, col, w, dir, i + 1)
  }

  /** A horizontal play on row 15 (one past the board) throws instead of being refused. */
  lemma CanPlaceAsWrittenThrowsOffBoard()
    ensures CanPlaceAsWritten(EmptyGrid(), 15, 0, "CAT", Horizontal) == Throws
    ensures !Placeable(EmptyGrid(), 15, 0, "CAT", Horizontal)
  {
    assert !Fits(EmptyGrid(), RunRow(15, Horizontal, 0), RunCol(0, Horizontal, 0), "CAT"[0]);
  }

  lemma {:induction false} ScanAsWrittenAgrees(g: Grid, row: int, col: int, w: string, dir: Direction, i: nat)
    requires IsGrid(g)
    requires i <= |w|
    ensures ScanAsWritten(g, row, col, w, dir, i) == Yes <==>
              forall j :: i <= j < |w| ==> Fits(g, RunRow(row, dir, j), RunCol(col, dir, j), w[j])
    decreases |w| - i
  {
    if i < |w| {
      ScanAsWrittenAgrees(g, row, col, w, dir, i + 1);
    }
  }

  /**
   * Where canPlaceWord as written returns an answer, the answer is Placeable;
   * where it throws, Placeable refuses the run.
   */
  lemma CanPlaceAsWrittenAgrees(g: Grid, row: int, col: int, w: string, dir: Direction)
    requires IsGrid(g)
    ensures CanPlaceAsWritten(g, row, col, w, dir) == Yes <==> Placeable(g, row, col, w, dir)
    ensures CanPlaceAsWritten(g, row, col, w, dir) == Throws ==> !Placeable(g, row, col, w, dir)
  {
    if !Overflows(row, col, |w|, dir) {
      ScanAsWrittenAgrees(g, row, col, w, dir, 0);
    }
  }

  // ---------------------------------------------------------------------
  // checkWord and getImpactedWords
  // ---------------------------------------------------------------------

  /** The scan steps checkWord is called with: (1, 0) down a column, (0, 1) along a row. */
  predicate UnitStep(dr: int, dc: int) {
    (dr == 1 && dc == 0) || (dr == 0 && dc == 1)
  }

  /** Step of the perpendicular scan for a play in direction dir. */
  function CrossStep(dir: Direction): (step: (int, int))
    ensures UnitStep(step.0, step.1)
  {
    if dir == Horizontal then (1, 0) else (0, 1)
  }

  /** The line a scan from (r, c) with step (dr, dc) moves along; all empty when that line is off the board. */
  function LineThrough(g: Grid, r: int, c: int, dr: int, dc: int): (line: seq<Cell>)
    requires IsGrid(g)
    ensures |line| == Size
  {
    if dr == 1 then seq(Size, k requires 0 <= k < Size => if 0 <= c < Size then g[k][c] else Empty)
    else if 0 <= r < Size then g[r] else seq(Size, _ => Empty)
  }

  /** Coordinate of (r, c) along the scanned line. */
  function PosOn(r: int, c: int, dr: int): int {
    if dr == 1 then r else c
  }

  /** The scan's loop test "on the board and not empty" is a filled cell of the line. */
  lemma LineAt(g: Grid, r: int, c: int, dr: int, dc: int)
    requires IsGrid(g) && UnitStep(dr, dc)
    ensures var line := LineThrough(g, r, c, dr, dc);
            Filled(line, PosOn(r, c, dr)) <==> InBounds(r, c) && g[r][c] != Empty
    ensures InBounds(r, c) ==> LineThrough(g, r, c, dr, dc)[PosOn(r, c, dr)] == g[r][c]
  {
  }

  predicate Filled(line: seq<Cell>, k: int) {
    0 <= k < |line| && line[k].Letter?
  }

  /** Where checkWord's backward loop stops: the first non-filled index at or before k. */
  function Back(line: seq<Cell>, k: int): int
    decreases k + 1
  {
    if Filled(line, k) then Back(line, k - 1) else k
  }

  /** The letters of the filled cells from k onwards, up to the first non-filled one. */
  function Forward(line: seq<Cell>, k: int): string
    decreases |line| - k
  {
    if Filled(line, k) then [line[k].ch] + Forward(line, k + 1) else []
  }

  /** What checkWord collects for position k of the line. */
  function LineWord(line: seq<Cell>, k: int): string {
    Forward(line, Back(line, k) + 1)
  }

  /** What checkWord collects when started at (r, c) with step (dr, dc). */
  function CrossWord(g: Grid, r: int, c: int, dr: int, dc: int): string
    requires IsGrid(g)
  {
    LineWord(LineThrough(g, r, c, dr, dc), PosOn(r, c, dr))
  }

  lemma {:induction false} BackFacts(line: seq<Cell>, k: int)
    ensures Back(line, k) <= k
    ensures !Filled(line, Back(line, k))
    ensures forall j :: Back(line, k) < j <= k ==> Filled(line, j)
    decreases k + 1
  {
    if Filled(line, k) {
      BackFacts(line, k - 1);
    }
  }

  lemma {:induction false} ForwardFacts(line: seq<Cell>, k: int)
    ensures var w := Forward(line, k);
            && (forall i :: k <= i < k + |w| ==> Filled(line, i) && line[i].ch == w[i - k])
            && !Filled(line, k + |w|)
    decreases |line| - k
  {
    if Filled(line, k) {
      ForwardFacts(line, k + 1);
      var w, rest := Forward(line, k), Forward(line, k + 1);
      assert w == [line[k].ch] + rest;
      forall i | k + 1 <= i < k + |w|
        ensures Filled(line, i) && line[i].ch == w[i - k]
      {
        assert w[i - k] == rest[i - (k + 1)];
      }
    }
  }

  /**
   * The word checkWord collects at position k is a maximal run of consecutive
   * filled cells read in increasing coordinate. It starts at s = Back(line, k) + 1:
   * the run containing k when k is filled, the run right after k when k is empty.
   */
  lemma LineWordIsRun(line: seq<Cell>, k: int)
    ensures var s := Back(line, k) + 1;
            var w := LineWord(line, k);
            && s <= k + 1
            && (Filled(line, k) <==> s <= k)
            && !Filled(line, s - 1)
            && (forall j :: s <= j <= k ==> Filled(line, j))
            && (forall i :: s <= i < s + |w| ==> Filled(line, i) && line[i].ch == w[i - s])
            && !Filled(line, s + |w|)
  {
    BackFacts(line, k);
    ForwardFacts(line, Back(line, k) + 1);
  }

  /**
   * The cross words getImpactedWords pushes for the first n run positions: the
   * word checkWord reads through position i is kept when it is longer than one letter.
   */
  function Crosses(g: Grid, row: int, col: int, dir: Direction, n: nat): seq<string>
    requires IsGrid(g)
  {
    if n == 0 then []
    else
      var ws := Crosses(g, row, col, dir, n - 1);
      var step := CrossStep(dir);
      var w := CrossWord(g, RunRow(row, dir, n - 1), RunCol(col, dir, n - 1), step.0, step.1);
      if |w| > 1 then ws + [w] else ws
  }

  /** getImpactedWords: the played word, then the cross words, read off the board before the play. */
  function ImpactedWords(g: Grid, row: int, col: int, w: string, dir: Direction): seq<string>
    requires IsGrid(g)
  {
    [w] + Crosses(g, row, col, dir, |w|)
  }

  lemma {:induction false} CrossesShape(g: Grid, row: int, col: int, dir: Direction, n: nat)
    requires IsGrid(g)
    ensures var ws := Crosses(g, row, col, dir, n);
            var step := CrossStep(dir);
            && |ws| <= n
            && forall k :: 0 <= k < |ws| ==>
                 && |ws[k]| >= 2
                 && exists i :: 0 <= i < n && ws[k] == CrossWord(g, RunRow(row, dir, i), RunCol(col, dir, i), step.0, step.1)
  {
    if n > 0 {
      CrossesShape(g, row, col, dir, n - 1);
      var step := CrossStep(dir);
      var ws := Crosses(g, row, col, dir, n - 1);
      var w := CrossWord(g, RunRow(row, dir, n - 1), RunCol(col, dir, n - 1), step.0, step.1);
      if |w| > 1 {
        var ws' := ws + [w];
        forall k | 0 <= k < |ws'|
          ensures exists i :: 0 <= i < n && ws'[k] == CrossWord(g, RunRow(row, dir, i), RunCol(col, dir, i), step.0, step.1)
        {
          if k == |ws| {
            assert ws'[k] == CrossWord(g, RunRow(row, dir, n - 1), RunCol(col, dir, n - 1), step.0, step.1);
          } else {
            assert ws'[k] == ws[k];
          }
        }
      }
    }
  }

  /**
   * getImpactedWords returns the played word first and at most one word per run
   * position after it; each later word has at least two letters and is the word
   * read through some run position along the perpendicular line.
   */
  lemma ImpactedWordsShape(g: Grid, row: int, col: int, w: string, dir: Direction)
    requires IsGrid(g)
    ensures var ws := ImpactedWords(g, row, col, w, dir);
            var step := CrossStep(dir);
            && ws[0] == w
            && 1 <= |ws| <= |w| + 1
            && forall k :: 1 <= k < |ws| ==>
                 && |ws[k]| >= 2
                 && exists i :: 0 <= i < |w| && ws[k] == CrossWord(g, RunRow(row, dir, i), RunCol(col, dir, i), step.0, step.1)
  {
    CrossesShape(g, row, col, dir, |w|);
    var ws := ImpactedWords(g, row, col, w, dir);
    var cs := Crosses(g, row, col, dir, |w|);
    assert forall k :: 1 <= k < |ws| ==> ws[k] == cs[k - 1];
  }

  // ---------------------------------------------------------------------
  // Score arithmetic: 10 points per letter of every scored word
  // ---------------------------------------------------------------------

  function TotalLength(ws: seq<string>): nat {
    if ws == [] then 0 else |ws[0]| + TotalLength(ws[1..])
  }

  lemma {:induction false} TotalLengthAppend(ws: seq<string>, w: string)
    ensures TotalLength(ws + [w]) == TotalLength(ws) + |w|
  {
    if ws != [] {
      assert (ws + [w])[1..] == ws[1..] + [w];
      TotalLengthAppend(ws[1..], w);
    }
  }

  /** The points placeWord awards: 10 per letter of the played word, then 10 per letter of every impacted word. */
  function PlayScore(w: string, impacted: seq<string>): int {
    10 * |w| + 10 * TotalLength(impacted)
  }

  /**
   * Since the played word is also the first impacted word, it is scored twice:
   * the award is 20 per letter of the played word plus 10 per letter of each cross word.
   */
  lemma PlayedWordScoredTwice(g: Grid, row: int, col: int, w: string, dir: Direction)
    requires IsGrid(g)
    ensures PlayScore(w, ImpactedWords(g, row, col, w, dir))
              == 20 * |w| + 10 * TotalLength(Crosses(g, row, col, dir, |w|))
    ensures PlayScore(w, ImpactedWords(g, row, col, w, dir)) >= 20 * |w|
  {
    var ws := ImpactedWords(g, row, col, w, dir);
    assert ws[1..] == Crosses(g, row, col, dir, |w|);
  }

  // ---------------------------------------------------------------------
  // Writing a run (the write loop of placeWord)
  // ---------------------------------------------------------------------

  /** The grid after the first n letters of w are written along the run. */
  function WriteRun(g: Grid, row: int, col: int, w: string, dir: Direction, n: nat): (g': Grid)
    requires IsGrid(g)
    requires n <= |w| && RunInBounds(row, col, dir, n)
    ensures IsGrid(g')
  {
    if n == 0 then g
    else
      var h := WriteRun(g, row, col, w, dir, n - 1);
      var r, c := RunRow(row, dir, n - 1), RunCol(col, dir, n - 1);
      assert InBounds(r, c);
      h[r := h[r][c := Letter(w[n - 1])]]
  }

  /** After writing, cell i of the run holds w[i] and every other cell is as before. */
  lemma {:induction false} WriteRunAt(g: Grid, row: int, col: int, w: string, dir: Direction, n: nat, r: int, c: int)
    requires IsGrid(g)
    requires n <= |w| && RunInBounds(row, col, dir, n)
    requires InBounds(r, c)
    ensures WriteRun(g, row, col, w, dir, n)[r][c] ==
              if OnRun(r, c, row, col, dir, n) then Letter(w[RunIndex(r, c, row, col, dir)]) else g[r][c]
  {
    if n > 0 {
      WriteRunAt(g, row, col, w, dir, n - 1, r, c);
    }
  }
}
