/**
 * `ScrabbleGame` of scrabble.ts: a 15x15 board of letters, the players' racks
 * and scores, a letter bag, a set of dictionary words and the index of the
 * player whose turn it is.
 *
 * A play (`PlaceWord`) is checked first against the dictionary (the played
 * word and every word `GetImpactedWords` reads off the board), then against the
 * board (`CanPlaceWord`); only then are its letters written and the current
 * player's score raised by 10 points per letter of every scored word.
 */
module StandaloneGame {
  import opened Wrappers
  import opened Letters
  import opened GameGrid
  import opened LetterBag

  /** The record `{ name, rack, score }` kept for each player. */
  datatype Player = Player(name: string, rack: seq<char>, score: int)

  /**
   * How placeWord ends: it returns whether the word was placed, or it throws a
   * TypeError (updateScore on a game with no players, after the letters are written).
   */
  datatype Ending = Returned(placed: bool) | ThrowsTypeError

  /** Every word of ws is a dictionary word. */
  predicate AllKnown(ws: seq<string>, dictionary: set<string>) {
    forall w :: w in ws ==> w in dictionary
  }

  // ---------------------------------------------------------------------
  // initializeRacks on values
  // ---------------------------------------------------------------------

  /** The players after initializeRacks: each player in turn is topped up from what the previous ones left. */
  function FillRacks(ps: seq<Player>, bag: seq<char>): (seq<Player>, seq<char>) {
    if ps == [] then ([], bag)
    else
      var (rack, bag1) := FillRack(ps[0].rack, bag);
      var (rest, bag2) := FillRacks(ps[1..], bag1);
      ([ps[0].(rack := rack)] + rest, bag2)
  }

  /** One step of FillRacks from player k on: player k is topped up first, the rest from what is left. */
  lemma FillRacksFrom(ps: seq<Player>, k: nat, bag: seq<char>)
    requires k < |ps|
    ensures var (rack, bag1) := FillRack(ps[k].rack, bag);
            var rest := FillRacks(ps[k + 1..], bag1);
            FillRacks(ps[k..], bag) == ([ps[k].(rack := rack)] + rest.0, rest.1)
  {
    assert ps[k..][0] == ps[k] && ps[k..][1..] == ps[k + 1..];
  }

  /** All tiles held in the players' racks. */
  function AllRacks(ps: seq<Player>): multiset<char> {
    if ps == [] then multiset{} else multiset(ps[0].rack) + AllRacks(ps[1..])
  }

  /** Filling the racks conserves the tiles: bag plus racks is the same multiset before and after. */
  lemma {:induction false} FillRacksConserve(ps: seq<Player>, bag: seq<char>)
    ensures AllRacks(FillRacks(ps, bag).0) + multiset(FillRacks(ps, bag).1) == AllRacks(ps) + multiset(bag)
  {
    if ps != [] {
      var (rack, bag1) := FillRack(ps[0].rack, bag);
      FillRackConserves(ps[0].rack, bag);
      FillRacksConserve(ps[1..], bag1);
      var (rest, bag2) := FillRacks(ps[1..], bag1);
      var ps' := [ps[0].(rack := rack)] + rest;
      assert ps'[0].rack == rack && ps'[1..] == rest;
      calc {
        AllRacks(FillRacks(ps, bag).0) + multiset(FillRacks(ps, bag).1);
        AllRacks(ps') + multiset(bag2);
        multiset(rack) + (AllRacks(rest) + multiset(bag2));
        multiset(rack) + (AllRacks(ps[1..]) + multiset(bag1));
        (multiset(rack) + multiset(bag1)) + AllRacks(ps[1..]);
        (multiset(ps[0].rack) + multiset(bag)) + AllRacks(ps[1..]);
        AllRacks(ps) + multiset(bag);
      }
    }
  }

  /**
   * Filling the racks keeps every player's name, score and tiles, only adds to
   * the end of racks, takes from the end of the bag, and leaves every rack with at
   * least RackSize tiles unless the bag ran out.
   */
  lemma {:induction false} FillRacksShape(ps: seq<Player>, bag: seq<char>)
    ensures var (ps', bag') := FillRacks(ps, bag);
            && |ps'| == |ps|
            && bag' <= bag
            && forall k :: 0 <= k < |ps| ==>
                 && ps'[k].name == ps[k].name
                 && ps'[k].score == ps[k].score
                 && ps[k].rack <= ps'[k].rack
                 && (|ps'[k].rack| >= RackSize || bag' == [])
  {
    if ps != [] {
      var (rack, bag1) := FillRack(ps[0].rack, bag);
      FillRackShape(ps[0].rack, bag);
      FillRacksShape(ps[1..], bag1);
      var (rest, bag2) := FillRacks(ps[1..], bag1);
      var ps' := [ps[0].(rack := rack)] + rest;
      assert bag2 <= bag1 <= bag;
      forall k | 0 <= k < |ps|
        ensures ps'[k].name == ps[k].name && ps'[k].score == ps[k].score
        ensures ps[k].rack <= ps'[k].rack && (|ps'[k].rack| >= RackSize || bag2 == [])
      {
        if k > 0 {
          assert ps'[k] == rest[k - 1] && ps[k] == ps[1..][k - 1];
        } else if |rack| < RackSize {
          assert bag1 == [];
        }
      }
    }
  }

  // ---------------------------------------------------------------------
  // The game
  // ---------------------------------------------------------------------

  class ScrabbleGame {
    var board: array2<Cell>
    var players: seq<Player>
    var currentPlayerIndex: nat
    var letterBag: seq<char>
    var dictionary: set<string>

    /** The board's contents as a value. */
    ghost var cells: Grid

    ghost predicate Valid()
      reads this, board
    {
      && board.Length0 == Size && board.Length1 == Size
      && IsGrid(cells)
      && (forall r, c :: 0 <= r < Size && 0 <= c < Size ==> board[r, c] == cells[r][c])
      && (if players == [] then currentPlayerIndex == 0 else currentPlayerIndex < |players|)
    }

    /**
     * An empty board, every named player with an empty rack and score 0, the
     * first player to move, a full bag, and the dictionary upper-cased.
     */
    constructor(playerNames: seq<string>, dictionary: seq<string>)
      ensures Valid() && fresh(board)
      ensures cells == EmptyGrid()
      ensures |players| == |playerNames|
      ensures forall k :: 0 <= k < |playerNames| ==> players[k] == Player(playerNames[k], [], 0)
      ensures currentPlayerIndex == 0
      ensures multiset(letterBag) == multiset(Expand(Distribution, |Distribution|)) && |letterBag| == 98
      ensures this.dictionary == set w | w in dictionary :: Upper(w)
    {
      var bag := InitializeLetterBag();
      board := new Cell[Size, Size]((_, _) => Empty);
      cells := EmptyGrid();
      players := seq(|playerNames|, k requires 0 <= k < |playerNames| => Player(playerNames[k], [], 0));
      currentPlayerIndex := 0;
      letterBag := bag;
      this.dictionary := set w | w in dictionary :: Upper(w);
    }

    /** The bag-filling loop of initializeLetterBag: count copies of each letter, in table order. */
    static method LettersOf(table: seq<(char, nat)>) returns (bag: seq<char>)
      ensures bag == Expand(table, |table|)
    {
      bag := [];
      for k := 0 to |table|
        invariant bag == Expand(table, k)
      {
        var (letter, count) := table[k];
        bag := bag + Repeat(letter, count);
      }
    }

    /**
     * The fresh bag: a permutation of the distribution table's letters, 98
     * tiles, of each letter as many as the table says. The shuffle's order is
     * not modelled; the unshuffled bag is one of its outcomes.
     */
    static method InitializeLetterBag() returns (bag: seq<char>)
      ensures multiset(bag) == multiset(Expand(Distribution, |Distribution|))
      ensures |bag| == 98
      ensures forall x :: multiset(bag)[x] == CountIn(Distribution, |Distribution|, x)
    {
      bag := LettersOf(Distribution);
      FullBag();
    }

    /** `letterBag.pop() || null`: the last letter of the bag, removed from it, or None when the bag is empty. */
    method DrawLetter() returns (letter: Option<char>)
      requires Valid()
      modifies this
      ensures Valid()
      ensures old(letterBag) == [] ==> letter == None && letterBag == []
      ensures old(letterBag) != [] ==>
                && letter == Some(old(letterBag)[|old(letterBag)| - 1])
                && letterBag == old(letterBag)[..|old(letterBag)| - 1]
      ensures multiset(letterBag) + (if letter.Some? then multiset{letter.value} else multiset{}) == multiset(old(letterBag))
      ensures players == old(players) && cells == old(cells) && board == old(board)
      ensures currentPlayerIndex == old(currentPlayerIndex) && dictionary == old(dictionary)
    {
      if letterBag == [] {
        letter := None;
      } else {
        letter := Some(letterBag[|letterBag| - 1]);
        assert letterBag == letterBag[..|letterBag| - 1] + [letter.value];
        letterBag := letterBag[..|letterBag| - 1];
      }
    }

    /** The inner loop of initializeRacks: draws letters onto player k's rack while it is short and the bag lasts. */
    method FillRackOf(k: nat)
      requires Valid() && k < |players|
      modifies this
      ensures Valid()
      ensures var (rack, bag) := FillRack(old(players)[k].rack, old(letterBag));
              players == old(players)[k := old(players)[k].(rack := rack)] && letterBag == bag
      ensures cells == old(cells) && board == old(board)
      ensures currentPlayerIndex == old(currentPlayerIndex) && dictionary == old(dictionary)
    {
      while |players[k].rack| < RackSize && |letterBag| > 0
        invariant Valid()
        invariant cells == old(cells) && board == old(board)
        invariant currentPlayerIndex == old(currentPlayerIndex) && dictionary == old(dictionary)
        invariant |players| == |old(players)|
        invariant players == old(players)[k := old(players)[k].(rack := players[k].rack)]
        invariant FillRack(players[k].rack, letterBag) == FillRack(old(players)[k].rack, old(letterBag))
        decreases |letterBag|
      {
        var letter := DrawLetter();
        players := players[k := players[k].(rack := players[k].rack + [letter.value])];
      }
    }

    /**
     * Tops every player's rack up to RackSize tiles, in player order, while the
     * bag lasts; no tile is created or lost.
     */
    method InitializeRacks()
      requires Valid()
      modifies this
      ensures Valid()
      ensures (players, letterBag) == FillRacks(old(players), old(letterBag))
      ensures AllRacks(players) + multiset(letterBag) == AllRacks(old(players)) + multiset(old(letterBag))
      ensures |players| == |old(players)|
      ensures forall k :: 0 <= k < |players| ==>
                && players[k].name == old(players)[k].name
                && players[k].score == old(players)[k].score
                && old(players)[k].rack <= players[k].rack
                && (|players[k].rack| >= RackSize || letterBag == [])
      ensures cells == old(cells) && board == old(board)
      ensures currentPlayerIndex == old(currentPlayerIndex) && dictionary == old(dictionary)
    {
      ghost var ps0, bag0 := players, letterBag;
      FillEachRack();
      FillRacksConserve(ps0, bag0);
      FillRacksShape(ps0, bag0);
    }

    /** The forEach over the players of initializeRacks. */
    method FillEachRack()
      requires Valid()
      modifies this
      ensures Valid()
      ensures (players, letterBag) == FillRacks(old(players), old(letterBag))
      ensures cells == old(cells) && board == old(board)
      ensures currentPlayerIndex == old(currentPlayerIndex) && dictionary == old(dictionary)
    {
      ghost var ps0, bag0 := players, letterBag;
      assert players[..0] + FillRacks(ps0[0..], letterBag).0 == FillRacks(ps0, bag0).0 by {
        assert players[..0] == [] && ps0[0..] == ps0;
      }
      for k := 0 to |players|
        invariant Valid()
        invariant cells == old(cells) && board == old(board)
        invariant currentPlayerIndex == old(currentPlayerIndex) && dictionary == old(dictionary)
        invariant |players| == |ps0| && players[k..] == ps0[k..]
        invariant FillRacks(ps0, bag0) == (players[..k] + FillRacks(ps0[k..], letterBag).0, FillRacks(ps0[k..], letterBag).1)
      {
        ghost var playersK, bagK := players, letterBag;
        assert playersK[k] == ps0[k] by { assert playersK[k..][0] == ps0[k..][0]; }
        FillRackOf(k);
        ghost var rest := FillRacks(ps0[k + 1..], letterBag);
        FillRacksFrom(ps0, k, bagK);
        assert FillRacks(ps0[k..], bagK) == ([players[k]] + rest.0, rest.1);
        assert players[..k + 1] == playersK[..k] + [players[k]];
        assert players[k + 1..] == ps0[k + 1..];
        assert players[..k + 1] + rest.0 == playersK[..k] + ([players[k]] + rest.0);
      }
      assert ps0[|ps0|..] == [];
      assert players[..|ps0|] + [] == players;
    }

    /**
     * canPlaceWord, with every covered cell checked to be on the board (see the
     * finding about rows off the board): the answer is Placeable, and nothing changes.
     */
    method CanPlaceWord(row: int, col: int, word: string, direction: Direction) returns (ok: bool)
      requires Valid()
      ensures ok == Placeable(cells, row, col, word, direction)
    {
      if direction == Horizontal && col + |word| > Size {
        return false;
      }
      if direction == Vertical && row + |word| > Size {
        return false;
      }
      for i := 0 to |word|
        invariant forall j :: 0 <= j < i ==> Fits(cells, RunRow(row, direction, j), RunCol(col, direction, j), word[j])
      {
        var r := if direction == Horizontal then row else row + i;
        var c := if direction == Horizontal then col + i else col;
        if !(0 <= r < Size && 0 <= c < Size) || (board[r, c] != Empty && board[r, c] != Letter(word[i])) {
          assert !Fits(cells, RunRow(row, direction, i), RunCol(col, direction, i), word[i]);
          return false;
        }
      }
      return true;
    }

    /**
     * checkWord: walks back from (startRow, startCol) over filled cells, then
     * forward collecting letters; appends the collected word to words when it
     * has more than one letter.
     */
    method CheckWord(words: seq<string>, startRow: int, startCol: int, deltaRow: int, deltaCol: int)
      returns (result: seq<string>)
      requires Valid()
      requires UnitStep(deltaRow, deltaCol)
      ensures var w := CrossWord(cells, startRow, startCol, deltaRow, deltaCol);
              result == if |w| > 1 then words + [w] else words
    {
      ghost var line := LineThrough(cells, startRow, startCol, deltaRow, deltaCol);
      ghost var p0 := PosOn(startRow, startCol, deltaRow);
      var r, c := WalkBack(startRow, startCol, deltaRow, deltaCol);
      var currentWord := CollectForward(r + deltaRow, c + deltaCol, deltaRow, deltaCol);
      assert LineThrough(cells, r + deltaRow, c + deltaCol, deltaRow, deltaCol) == line;
      assert PosOn(r + deltaRow, c + deltaCol, deltaRow) == Back(line, p0) + 1;
      if |currentWord| > 1 {
        result := words + [currentWord];
      } else {
        result := words;
      }
    }

    /** checkWord's backward loop: stops on the first non-filled cell of the line at or before the start. */
    method WalkBack(startRow: int, startCol: int, deltaRow: int, deltaCol: int) returns (r: int, c: int)
      requires Valid() && UnitStep(deltaRow, deltaCol)
      ensures deltaRow == 1 ==> c == startCol
      ensures deltaRow == 0 ==> r == startRow
      ensures PosOn(r, c, deltaRow) == Back(LineThrough(cells, startRow, startCol, deltaRow, deltaCol), PosOn(startRow, startCol, deltaRow))
    {
      ghost var line := LineThrough(cells, startRow, startCol, deltaRow, deltaCol);
      ghost var p0 := PosOn(startRow, startCol, deltaRow);
      r, c := startRow, startCol;
      while 0 <= r < Size && 0 <= c < Size && board[r, c] != Empty
        invariant deltaRow == 1 ==> c == startCol
        invariant deltaRow == 0 ==> r == startRow
        invariant LineThrough(cells, r, c, deltaRow, deltaCol) == line
        invariant Back(line, PosOn(r, c, deltaRow)) == Back(line, p0)
        decreases if deltaRow == 1 then r + 1 else c + 1
      {
        LineAt(cells, r, c, deltaRow, deltaCol);
        r := r - deltaRow;
        c := c - deltaCol;
      }
      LineAt(cells, r, c, deltaRow, deltaCol);
    }

    /** checkWord's forward loop: the letters of the filled cells from (r0, c0) up to the first non-filled one. */
    method CollectForward(r0: int, c0: int, deltaRow: int, deltaCol: int) returns (currentWord: string)
      requires Valid() && UnitStep(deltaRow, deltaCol)
      ensures currentWord == Forward(LineThrough(cells, r0, c0, deltaRow, deltaCol), PosOn(r0, c0, deltaRow))
    {
      ghost var line := LineThrough(cells, r0, c0, deltaRow, deltaCol);
      ghost var p0 := PosOn(r0, c0, deltaRow);
      var r, c := r0, c0;
      currentWord := "";
      while 0 <= r < Size && 0 <= c < Size && board[r, c] != Empty
        invariant deltaRow == 1 ==> c == c0
        invariant deltaRow == 0 ==> r == r0
        invariant LineThrough(cells, r, c, deltaRow, deltaCol) == line
        invariant currentWord + Forward(line, PosOn(r, c, deltaRow)) == Forward(line, p0)
        decreases if deltaRow == 1 then Size - r else Size - c
      {
        LineAt(cells, r, c, deltaRow, deltaCol);
        ghost var k := PosOn(r, c, deltaRow);
        assert Forward(line, k) == [board[r, c].ch] + Forward(line, k + 1);
        assert currentWord + [board[r, c].ch] + Forward(line, k + 1) == currentWord + Forward(line, k);
        currentWord := currentWord + [board[r, c].ch];
        r := r + deltaRow;
        c := c + deltaCol;
        assert PosOn(r, c, deltaRow) == k + 1;
      }
      LineAt(cells, r, c, deltaRow, deltaCol);
    }

    /**
     * getImpactedWords: the played word, then, for each run position in order,
     * the word checkWord reads across the play. Reads the board; changes nothing.
     */
    method GetImpactedWords(row: int, col: int, word: string, direction: Direction) returns (words: seq<string>)
      requires Valid()
      ensures words == ImpactedWords(cells, row, col, word, direction)
    {
      words := [word];
      for i := 0 to |word|
        invariant words == [word] + Crosses(cells, row, col, direction, i)
      {
        var r := if direction == Horizontal then row else row + i;
        var c := if direction == Horizontal then col + i else col;
        assert r == RunRow(row, direction, i) && c == RunCol(col, direction, i);
        ghost var before := words;
        if direction == Horizontal {
          words := CheckWord(words, r, c, 1, 0);
        } else {
          words := CheckWord(words, r, c, 0, 1);
        }
        assert (if |CrossWord(cells, r, c, CrossStep(direction).0, CrossStep(direction).1)| > 1
                then words == before + [CrossWord(cells, r, c, CrossStep(direction).0, CrossStep(direction).1)]
                else words == before);
      }
    }

    /** updateScore: the current player gains 10 points per letter of word; nothing else changes. */
    method UpdateScore(word: string)
      requires Valid() && |players| > 0
      modifies this
      ensures Valid()
      ensures cells == old(cells) && board == old(board) && letterBag == old(letterBag)
      ensures currentPlayerIndex == old(currentPlayerIndex) && dictionary == old(dictionary)
      ensures players == old(players)[currentPlayerIndex :=
                old(players)[currentPlayerIndex].(score := old(players)[currentPlayerIndex].score + |word| * 10)]
    {
      var player := players[currentPlayerIndex];
      players := players[currentPlayerIndex := player.(score := player.score + |word| * 10)];
    }

    /**
     * placeWord. The upper-cased word is accepted only when it is a dictionary
     * word, every impacted word is a dictionary word, and the run is placeable;
     * otherwise it returns false and nothing changes. An accepted play writes
     * letter i on cell i of the run and leaves every other cell alone. Then it
     * raises only the current player's score, by 10 points per letter of the
     * word and of every impacted word. With no players, that scoring throws,
     * and the letters already written stay on the board.
     */
    method PlaceWord(row: int, col: int, word: string, direction: Direction) returns (ending: Ending)
      requires Valid()
      modifies this, board
      ensures Valid()
      ensures board == old(board) && letterBag == old(letterBag)
      ensures currentPlayerIndex == old(currentPlayerIndex) && dictionary == old(dictionary)
      ensures var w := Upper(word);
              var accepted := && w in dictionary
                              && AllKnown(ImpactedWords(old(cells), row, col, w, direction), dictionary)
                              && Placeable(old(cells), row, col, w, direction);
              ending == if !accepted then Returned(false) else if old(players) == [] then ThrowsTypeError else Returned(true)
      ensures ending == Returned(false) ==> cells == old(cells) && players == old(players)
      ensures ending != Returned(false) ==> forall r, c :: InBounds(r, c) ==>
                cells[r][c] == if OnRun(r, c, row, col, direction, |word|)
                               then Letter(Upper(word)[RunIndex(r, c, row, col, direction)])
                               else old(cells)[r][c]
      ensures ending == ThrowsTypeError ==> players == old(players)
      ensures ending == Returned(true) ==>
                var w := Upper(word);
                var p := old(players)[currentPlayerIndex];
                players == old(players)[currentPlayerIndex :=
                  p.(score := p.score + PlayScore(w, ImpactedWords(old(cells), row, col, w, direction)))]
    {
      var w := Upper(word);
      if w !in dictionary {
        return Returned(false);
      }
      var impactedWords := GetImpactedWords(row, col, w, direction);
      if exists x | x in impactedWords :: x !in dictionary {
        return Returned(false);
      }
      var ok := CanPlaceWord(row, col, w, direction);
      if !ok {
        return Returned(false);
      }
      WriteAccepted(row, col, w, direction);
      if players == [] {
        return ThrowsTypeError;
      }
      ScorePlay(w, impactedWords);
      return Returned(true);
    }

    /** The write loop of placeWord for an accepted play: cell i of the run gets letter i, no other cell changes. */
    method WriteAccepted(row: int, col: int, w: string, direction: Direction)
      requires Valid() && Placeable(cells, row, col, w, direction)
      modifies this, board
      ensures Valid()
      ensures board == old(board) && players == old(players) && letterBag == old(letterBag)
      ensures currentPlayerIndex == old(currentPlayerIndex) && dictionary == old(dictionary)
      ensures forall r, c :: InBounds(r, c) ==>
                cells[r][c] == if OnRun(r, c, row, col, direction, |w|)
                               then Letter(w[RunIndex(r, c, row, col, direction)])
                               else old(cells)[r][c]
    {
      PlaceableMeans(cells, row, col, w, direction);
      ghost var before := cells;
      WriteLetters(row, col, w, direction);
      forall r, c | InBounds(r, c)
        ensures cells[r][c] == if OnRun(r, c, row, col, direction, |w|)
                               then Letter(w[RunIndex(r, c, row, col, direction)])
                               else before[r][c]
      {
        WriteRunAt(before, row, col, w, direction, |w|, r, c);
      }
    }

    /** The scoring of placeWord: updateScore for the word, then for each impacted word. */
    method ScorePlay(w: string, impactedWords: seq<string>)
      requires Valid() && |players| > 0
      modifies this
      ensures Valid()
      ensures cells == old(cells) && board == old(board) && letterBag == old(letterBag)
      ensures currentPlayerIndex == old(currentPlayerIndex) && dictionary == old(dictionary)
      ensures var p := old(players)[currentPlayerIndex];
              players == old(players)[currentPlayerIndex := p.(score := p.score + PlayScore(w, impactedWords))]
    {
      UpdateScore(w);
      ScoreWords(impactedWords);
    }

    /** The write loop of placeWord: letter i of w goes on cell i of the run. */
    method WriteLetters(row: int, col: int, w: string, direction: Direction)
      requires Valid() && RunInBounds(row, col, direction, |w|)
      modifies this, board
      ensures Valid()
      ensures cells == WriteRun(old(cells), row, col, w, direction, |w|)
      ensures board == old(board) && players == old(players) && letterBag == old(letterBag)
      ensures currentPlayerIndex == old(currentPlayerIndex) && dictionary == old(dictionary)
    {
      for i := 0 to |w|
        invariant Valid()
        invariant cells == WriteRun(old(cells), row, col, w, direction, i)
        invariant board == old(board) && players == old(players) && letterBag == old(letterBag)
        invariant currentPlayerIndex == old(currentPlayerIndex) && dictionary == old(dictionary)
      {
        var r := if direction == Horizontal then row else row + i;
        var c := if direction == Horizontal then col + i else col;
        assert r == RunRow(row, direction, i) && c == RunCol(col, direction, i);
        board[r, c] := Letter(w[i]);
        cells := cells[r := cells[r][c := Letter(w[i])]];
      }
    }

    /** The scoring loop of placeWord: updateScore for each word of ws in turn. */
    method ScoreWords(ws: seq<string>)
      requires Valid() && |players| > 0
      modifies this
      ensures Valid()
      ensures cells == old(cells) && board == old(board) && letterBag == old(letterBag)
      ensures currentPlayerIndex == old(currentPlayerIndex) && dictionary == old(dictionary)
      ensures players == old(players)[currentPlayerIndex :=
                old(players)[currentPlayerIndex].(score := old(players)[currentPlayerIndex].score + 10 * TotalLength(ws))]
    {
      ghost var p := players[currentPlayerIndex];
      for k := 0 to |ws|
        invariant Valid()
        invariant cells == old(cells) && board == old(board) && letterBag == old(letterBag)
        invariant currentPlayerIndex == old(currentPlayerIndex) && dictionary == old(dictionary)
        invariant players == old(players)[currentPlayerIndex := p.(score := p.score + 10 * TotalLength(ws[..k]))]
      {
        UpdateScore(ws[k]);
        assert ws[..k + 1] == ws[..k] + [ws[k]];
        TotalLengthAppend(ws[..k], ws[k]);
      }
      assert ws[..|ws|] == ws;
    }

    /** getBoard: a copy of the board, row by row. */
    method GetBoard() returns (snapshot: seq<seq<Cell>>)
      requires Valid()
      ensures snapshot == cells
      ensures forall r, c :: InBounds(r, c) ==> snapshot[r][c] == board[r, c]
    {
      snapshot := [];
      for r := 0 to Size
        invariant |snapshot| == r
        invariant forall i :: 0 <= i < r ==> snapshot[i] == cells[i]
      {
        var line := [];
        for c := 0 to Size
          invariant line == cells[r][..c]
        {
          line := line + [board[r, c]];
        }
        assert line == cells[r];
        snapshot := snapshot + [line];
      }
    }

    /** nextPlayer: the turn passes round-robin to the following player. */
    method NextPlayer()
      requires Valid() && |players| > 0
      modifies this
      ensures Valid()
      ensures players == old(players) && cells == old(cells) && board == old(board)
      ensures currentPlayerIndex == (old(currentPlayerIndex) + 1) % |players|
      ensures letterBag == old(letterBag) && dictionary == old(dictionary)
    {
      currentPlayerIndex := (currentPlayerIndex + 1) % |players|;
    }
  }
}
