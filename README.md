# Scrabble engines, modelled in Dafny

This project models the two Scrabble-style engines of the words-with-family
repository and proves properties of them.

- The standalone engine, `ScrabbleGame` in scrabble.ts, keeps four things:
  - a 15x15 grid of letters;
  - a bag of 98 letter tiles;
  - the players' racks and scores;
  - the index of the player whose turn it is.

  A play is accepted only if all three checks pass, in this order:
  1. the upper-cased word is in the dictionary;
  2. every word it touches is in the dictionary;
  3. it fits on the board.

  When accepted, its letters are written and the current player gains 10
  points per letter of every scored word. The same file declares its own
  `Square` and `Board` classes, which carry a letter/word multiplier layout.
- The modular engine, src/scrabble/*, has four parts:
  - `Square`: a cell that can be filled once;
  - `Board`: a grid of squares with a fixed special-square layout and a
    row-major walk;
  - `Player`: a score and a tile list;
  - `Scrabble`: a session that starts only with two or more players and
    passes the turn round-robin.

Each source class becomes a Dafny `class` with the fields the source assigns:

- The `BOARD_SIZE` field of src/scrabble/Board.ts is initialised to 15 and never reassigned, so it becomes the module constant `Boards.BoardSize`.
- Grids are `array2`s.
- Loops are `while` or `for` loops with invariants.
- Every method's ensures gives the new state. Where the effect is more than a field update, that state is given through a specification function or predicate written on values.

| file | module | models |
|---|---|---|
| wrappers.dfy | `Wrappers` | `Option` |
| letters.dfy | `Letters` | `toUpperCase` on the ASCII letters |
| game_grid.dfy | `GameGrid` | the standalone grid as a value, plus what `canPlaceWord`, `checkWord`/`getImpactedWords`, the write loop and the flat score mean |
| letter_bag.dfy | `LetterBag` | the letter distribution and rack filling, on values |
| standalone_game.dfy | `StandaloneGame` | `ScrabbleGame` |
| standalone_board.dfy | `StandaloneBoard` | the `Square` and `Board` classes of scrabble.ts |
| square.dfy | `Squares` | src/scrabble/Square.ts and the `Tile` record |
| board.dfy | `Boards` | src/scrabble/Board.ts |
| player.dfy | `Players` | src/scrabble/Player.ts |
| session.dfy | `Sessions` | src/scrabble/Scrabble.ts |

The model follows the code where it departs from the usual rules of the game:

- **Scoring:** a play scores a flat 10 points per letter. The played word is
  counted twice: once by `updateScore(word)`, and once more as the first
  impacted word. No board multiplier is ever applied.
- **Bag size:** the bag holds 98 tiles and has no blanks.
- **Impacted words:**
  - They are read off the board before the play is written.
  - The played word is taken as given; letters it connects to at either end
    are not added.
  - Nothing is de-duplicated.
- **Failed placement still passes the turn:** in the modular engine,
  `playTurn` passes the turn even when the square refuses the tile.

## Model

| member | source | states |
|---|---|---|
| Letters.Upper | scrabble.ts:21 | the upper-cased string has the same length, and each character is upper-cased on its own (a-z to A-Z, the rest kept) |
| Letters.UpperIdempotent | scrabble.ts:21 | upper-casing an upper-cased word changes nothing, so dictionary words and played words compare in one case |
| GameGrid.PlaceableMeans | scrabble.ts:141-153 | unfolds Placeable for callers: a placeable run lies entirely on the board, and each covered cell is empty or holds the same letter |
| GameGrid.CanPlaceAsWrittenThrowsOffBoard | scrabble.ts:141-153 | as written, canPlaceWord(15, 0, "CAT", horizontal) throws, although the run is not placeable (see Findings) |
| GameGrid.ScanAsWrittenAgrees | scrabble.ts:145-152 | the as-written cell scan answers true iff every remaining covered cell fits its letter |
| GameGrid.CanPlaceAsWrittenAgrees | scrabble.ts:141-153 | where canPlaceWord as written answers true, the run is placeable and vice versa; where it throws, the run is not placeable |
| GameGrid.BackFacts | scrabble.ts:103-106 | the backward scan stops at the nearest non-filled position at or before the start; everything between is filled |
| GameGrid.ForwardFacts | scrabble.ts:111-115 | the forward scan collects exactly the letters of the consecutive filled cells, and stops at a non-filled one |
| GameGrid.LineWordIsRun | scrabble.ts:99-120 | checkWord's word is a maximal run of consecutive filled cells of the perpendicular line, read in increasing coordinate: the run through the start when that is filled, else the run just after it |
| GameGrid.CrossesShape | scrabble.ts:125-135 | the cross words pushed for n run positions number at most n; each has at least two letters and is the word read through one of those positions |
| GameGrid.ImpactedWordsShape | scrabble.ts:96-138 | getImpactedWords' list starts with the played word and holds at most one more entry per letter; each later entry has length at least 2 and is a perpendicular run through a run position |
| GameGrid.TotalLengthAppend | scrabble.ts:90 | adding one word to the scored list adds its length to the total |
| GameGrid.PlayedWordScoredTwice | scrabble.ts:89-90 | a successful play is worth 20 points per letter of the played word plus 10 per letter of every cross word |
| GameGrid.WriteRun | scrabble.ts:83-87 | writing letters along a run keeps the value a 15x15 grid |
| GameGrid.WriteRunAt | scrabble.ts:83-87 | after writing n letters, cell i of the run (i < n) holds letter i and every other cell is unchanged |
| LetterBag.Repeat | scrabble.ts:33 | `Array(count).fill(letter)` holds count copies of letter and nothing else |
| LetterBag.ExpandCounts | scrabble.ts:26-34 | the unshuffled bag holds, of each letter, exactly the count the distribution table gives |
| LetterBag.DistributionTotal | scrabble.ts:26-30 | the distribution table asks for 98 tiles |
| LetterBag.FullBag | scrabble.ts:25-36 | the unshuffled bag has 98 tiles, of each letter as many as the table says |
| LetterBag.FillRackConserves | scrabble.ts:46-49 | topping a rack up moves tiles from bag to rack and creates or loses none |
| LetterBag.FillRackShape | scrabble.ts:46-49 | topping up keeps the old rack as a prefix, pops from the end of the bag, and ends with 7 tiles unless the rack already had more or the bag ran out |
| StandaloneGame.FillRacksConserve | scrabble.ts:44-51 | filling all racks conserves the multiset of bag plus all racks |
| StandaloneGame.FillRacksShape | scrabble.ts:44-51 | filling all racks keeps names, scores and old tiles, and leaves each rack with at least 7 tiles unless the bag ran out |
| StandaloneGame.ScrabbleGame.constructor | scrabble.ts:16-22 | empty board, each named player with an empty rack and score 0, index 0, a full 98-tile bag, the dictionary upper-cased |
| StandaloneGame.ScrabbleGame.LettersOf | scrabble.ts:31-34 | the bag-building loop yields each table entry's letters in table order |
| StandaloneGame.ScrabbleGame.InitializeLetterBag | scrabble.ts:25-36 | the fresh bag is a permutation of the distribution: 98 tiles, of each letter the table's count |
| StandaloneGame.ScrabbleGame.DrawLetter | scrabble.ts:39-41 | pops the last letter of the bag, or yields None on an empty bag; the removed letter plus the new bag is the old bag |
| StandaloneGame.ScrabbleGame.FillEachRack | scrabble.ts:45-50 | the forEach over the players leaves players and bag equal to FillRacks of the old ones |
| StandaloneGame.ScrabbleGame.FillRackOf | scrabble.ts:46-49 | the while-fill of one player's rack gives FillRack's rack and bag; the other players are untouched |
| StandaloneGame.ScrabbleGame.InitializeRacks | scrabble.ts:44-51 | players and bag become FillRacks of the old ones; bag plus racks is conserved; each rack reaches 7 unless the bag runs out |
| StandaloneGame.ScrabbleGame.CanPlaceWord | scrabble.ts:141-153 | the answer is Placeable on the current board (with the off-board rows of the finding refused), and nothing changes |
| StandaloneGame.ScrabbleGame.CheckWord | scrabble.ts:99-120 | appends the word read through the start cell along the given step exactly when it has more than one letter |
| StandaloneGame.ScrabbleGame.WalkBack | scrabble.ts:103-106 | the backward loop stops on the nearest non-filled cell of the line at or before the start, staying on that line |
| StandaloneGame.ScrabbleGame.CollectForward | scrabble.ts:111-115 | the forward loop collects exactly the letters of the consecutive filled cells from its start |
| StandaloneGame.ScrabbleGame.GetImpactedWords | scrabble.ts:96-138 | returns ImpactedWords of the current board: the played word, then the cross words in run order |
| StandaloneGame.ScrabbleGame.UpdateScore | scrabble.ts:156-159 | the current player's score grows by 10 per letter of the word; nothing else changes |
| StandaloneGame.ScrabbleGame.PlaceWord | scrabble.ts:65-93 | accepted iff the upper-cased word and all impacted words are dictionary words and the run is placeable (corrected for off-board rows, see Findings). A refusal returns false with board and scores unchanged, whether or not there are players. An accepted play writes letter i on cell i of the run and no other cell. It then returns true with only the current player's score raised by PlayScore, or, with no players, throws a TypeError leaving the letters written. Bag, index and dictionary never change |
| StandaloneGame.ScrabbleGame.WriteAccepted | scrabble.ts:83-87 | for an accepted play, cell i of the run gets letter i and no other cell changes |
| StandaloneGame.ScrabbleGame.ScorePlay | scrabble.ts:89-90 | the current player's score grows by PlayScore of the word and its impacted words; nothing else changes |
| StandaloneGame.ScrabbleGame.WriteLetters | scrabble.ts:83-87 | the write loop leaves the board equal to WriteRun of the old board |
| StandaloneGame.ScrabbleGame.ScoreWords | scrabble.ts:90 | updateScore over a list of words adds 10 times their total length to the current player's score |
| StandaloneGame.ScrabbleGame.GetBoard | scrabble.ts:167-169 | returns a copy of the board, cell for cell |
| StandaloneGame.ScrabbleGame.NextPlayer | scrabble.ts:172-174 | the turn index moves to (index + 1) mod the number of players, and stays in range |
| StandaloneBoard.SetField | scrabble.ts:213-215 | setMultiplier('letter' or 'word', v) sets that half to v and keeps the other |
| StandaloneBoard.LayoutMeaning | scrabble.ts:233-269 | no square is on two lists of one kind: word multiplier 3 exactly on the triple-word list, 2 exactly on the double-word diagonals, else 1; letter multiplier 3, 2 or 1 likewise |
| StandaloneBoard.Square.constructor | scrabble.ts:193-199 | a new square is empty with multipliers { letter: 1, word: 1 } |
| StandaloneBoard.Square.SetLetter | scrabble.ts:201-203 | stores the upper-cased letter; the multiplier stays |
| StandaloneBoard.Square.SetMultiplier | scrabble.ts:213-215 | changes only the selected half of the multiplier; the letter stays |
| StandaloneBoard.Board.constructor | scrabble.ts:226-231 | 225 distinct empty squares, with the multipliers of Layout |
| StandaloneBoard.Board.MarkSquares | scrabble.ts:236-238 | a forEach over a position list sets the chosen multiplier half on exactly the listed squares; letters stay |
| StandaloneBoard.Board.MarkDoubleWords | scrabble.ts:241-246 | the double-word loop sets word multiplier 2 on exactly the diagonal squares at distance 1 to 4 from a corner |
| StandaloneBoard.Board.MarkWordMultipliers | scrabble.ts:234-246 | the triple-word list, then the double-word loop |
| StandaloneBoard.Board.MarkLetterMultipliers | scrabble.ts:248-268 | the triple-letter list, then the double-letter list |
| StandaloneBoard.Board.MarkTwoLists | scrabble.ts:253-268 | two letter-multiplier forEach passes, the second overwriting the first |
| StandaloneBoard.Board.InitializeMultipliers | scrabble.ts:233-269 | every square's multiplier becomes Overlay of its old one (the four stages in source order); letters stay |
| StandaloneBoard.Board.PlaceLetter | scrabble.ts:272-281 | succeeds iff the position is on the board and its square is empty. Then that square holds the upper-cased letter. Nothing else changes, and a refusal changes nothing |
| StandaloneBoard.Board.GetLetter | scrabble.ts:284-289 | the square's letter, or "" off the board |
| StandaloneBoard.Board.GetMultiplier | scrabble.ts:292-297 | the square's multiplier, or { letter: 1, word: 1 } off the board |
| StandaloneBoard.Board.IsEmpty | scrabble.ts:300-305 | true iff on the board and the square holds no letter (false off the board) |
| Squares.Square.constructor | src/scrabble/Square.ts:15-18 | a new square has no tile and the given designation, null by default |
| Squares.Square.PlaceTile | src/scrabble/Square.ts:20-26 | succeeds iff the square held no tile, and then holds t; an occupied square keeps its tile; the designation never changes |
| Squares.PlaceTwice | src/scrabble/Square.ts:20-26 | on a new square, a first placeTile succeeds, a second is refused, and the first tile stays |
| Boards.TripleWordPositionsAre | src/scrabble/Board.ts:25-29 | the triple-word positions are the points with both coordinates in {0, 7, 14}, the centre excepted |
| Boards.TripleWordExactly | src/scrabble/Board.ts:25-29 | exactly the 8 positions (0,0), (0,7), (0,14), (7,0), (7,14), (14,0), (14,7), (14,14) are triple-word |
| Boards.DoubleWordDiagonals | src/scrabble/Board.ts:32-37 | for i in 1..4 the squares (i,i), (i,14-i), (14-i,i), (14-i,14-i) are double-word |
| Boards.DoubleWordExactly | src/scrabble/Board.ts:32-41 | no other square is double-word |
| Boards.CenterAndPlain | src/scrabble/Board.ts:22-39 | (7,7) is the centre star, and a square is null iff it is on none of the lists |
| Boards.LayoutSymmetric | src/scrabble/Board.ts:25-41 | the layout is unchanged by swapping x and y and by mirroring x to 14 - x |
| Boards.Board.constructor | src/scrabble/Board.ts:10-12 | a new board has 225 distinct empty squares designated as Layout says |
| Boards.Board.InitializeSpecialSquares | src/scrabble/Board.ts:21-44 | a fresh 15x15 grid whose entry (x, y) is Layout(x, y) |
| Boards.Board.InitializeBoard | src/scrabble/Board.ts:14-19 | a fresh grid of distinct new, empty squares, each designated as Layout says |
| Boards.Board.PlaceTile | src/scrabble/Board.ts:46-52 | x off the board throws a TypeError; x on the board with y off it throws the null-square Error with its message. On the board it answers whether square (x, y) held no tile, and then that square holds t. No other tile and no designation changes, and a throw changes nothing |
| Boards.Board.GridIterator | src/scrabble/Board.ts:54-64 | yields 225 items; item k is square (x, y) with x * 15 + y == k, so positions come in row-major order |
| Boards.RowMajorVisitsOnce | src/scrabble/Board.ts:54-64 | a row-major walk visits each position (x, y) exactly once, as item x * 15 + y |
| Players.IndexOf | src/scrabble/Player.ts:25 | indexOf is -1 iff t is absent, else the first index holding t |
| Players.SpliceIsRemoveFirst | src/scrabble/Player.ts:24-29 | the guarded splice at indexOf equals RemoveFirst: the first occurrence goes, the rest keep their order |
| Players.RemoveFirstMultiset | src/scrabble/Player.ts:24-29 | removing t takes one copy of t out of the tiles' multiset |
| Players.RemoveFirstCounts | src/scrabble/Player.ts:24-29 | removal drops the count of t by one when present and changes no other count |
| Players.RemoveAbsent | src/scrabble/Player.ts:25-26 | removing an absent tile is a no-op |
| Players.AddThenRemove | src/scrabble/Player.ts:20-29 | addTile(t) then removeTile(t), for t not held, gives back the old tiles |
| Players.Player.constructor | src/scrabble/Player.ts:6-10 | a new player has the name, score 0 and no tiles |
| Players.Player.AddScore | src/scrabble/Player.ts:16-18 | score becomes score + points; tiles unchanged |
| Players.Player.AddTile | src/scrabble/Player.ts:20-22 | appends t at the end; existing tiles unchanged |
| Players.Player.RemoveTile | src/scrabble/Player.ts:24-29 | tiles become RemoveFirst of the old tiles |
| Sessions.Scrabble.constructor | src/scrabble/Scrabble.ts:11-16 | no players, index 0, not started, a new board |
| Sessions.Scrabble.AddPlayer | src/scrabble/Scrabble.ts:18-20 | appends the player after the existing ones; the turn invariant is kept |
| Sessions.Scrabble.StartGame | src/scrabble/Scrabble.ts:22-28 | with fewer than 2 players it throws the two-players error and changes nothing; otherwise the game is started with index 0 |
| Sessions.Scrabble.Score | src/scrabble/Scrabble.ts:30-32 | the current player's score |
| Sessions.Scrabble.PlayTurn | src/scrabble/Scrabble.ts:34-40 | before the start it throws the two-players error. After it, placeTile's TypeError or null-square Error comes out unchanged, before the index moves. Otherwise the tile is placed as placeTile says, and the index becomes (index + 1) mod the number of players even when the square refused the tile. A throw changes no tile and no index |
| Sessions.Scrabble.GetCurrentPlayer | src/scrabble/Scrabble.ts:42-44 | the player at the turn index, or None (`undefined`) when there is none |

## Left out

- The shuffles are not modelled as orderings:
  - `shuffleRack` (scrabble.ts:54-57) is left out.
  - The bag shuffle (scrabble.ts:35) is modelled only as "a permutation".
  - Their order comes from `Math.random` comparators.
- StandaloneGame.ScrabbleGame.InitializeLetterBag: promises the multiset of the bag, not its order, because the shuffle is random.
- `console.error` calls (scrabble.ts:68, 75): logging with no effect on the state.
- Getters are not modelled, because they return a field, or a shallow copy of one, that the model exposes as a public field. What is lost is sharing:
  - `getCurrentPlayerRack`, `getCurrentPlayerScore`, `getCurrentPlayer` and `getPlayers` of `ScrabbleGame`;
  - the getters of the scrabble.ts `Square`;
  - `getScore` of `Player` and `getBoard` of `Scrabble`.
  - `getBoard` of `Scrabble` returns the live `Board`, an alias through which callers can change it.
  - `getPlayers` of `ScrabbleGame` makes shallow copies that share each `rack` array with the game.
- `getState` of the scrabble.ts `Board` (scrabble.ts:308-312) is not modelled. It builds a new grid of the squares' letters, which is what `StandaloneBoard.Board.LetterOn` gives square by square.
- StandaloneGame.ScrabbleGame.UpdateScore: requires at least one player. With none, `getCurrentPlayer()` yields undefined and reading its score is a TypeError. PlaceWord models that case itself: it refuses normally, or throws after writing the letters.
- StandaloneGame.ScrabbleGame.NextPlayer: requires at least one player. With none, the index would become NaN.
- Sessions.Scrabble.Score: requires a player at the index. With none, `getScore` on undefined throws.
- The null-square branch of `gridIterator` (src/scrabble/Board.ts:58-60) is not modelled. It visits only positions on the board, and the board invariant states that every square there exists. The same holds for `placeTile` on the board. Its null-square throw is modelled for positions off the board, where it happens.
- Boards.Board.PlaceTile and Sessions.Scrabble.PlayTurn: a thrown TypeError is modelled as one outcome, without the runtime's message. Non-integer coordinates are not modelled.
- The double-letter loop at scrabble.ts:264-268 is syntactically broken: the `forEach` is nested in itself and the braces do not balance. The model performs the evident single pass. Setting letter multiplier 2 twice would give the same result.
- The `boardSize` argument of the `Scrabble` constructor is ignored, because `Board`'s constructor takes no argument. The board is always 15x15.
- `Tile.ts` is not part of this model. A tile is the record of letter and point value.
- Letters.Upper: upper-cases the ASCII letters a-z only, while `toUpperCase` maps all of Unicode. For example, it maps 'é' to 'É', and 'ß' to "SS", which changes the length. The dictionary is any list of strings the caller passes, so this affects several comparisons:
  - the upper-cased dictionary of the `ScrabbleGame` constructor;
  - the dictionary test of `placeWord`;
  - the letters stored by `Square.setLetter` and `Board.placeLetter` in scrabble.ts.
- StandaloneGame.ScrabbleGame.PlaceWord: strings are sequences of Unicode scalar values. JavaScript counts and indexes them in UTF-16 code units, which the model does not capture in five places:
  - `word.length` in canPlaceWord's bounds check (scrabble.ts:142-143);
  - `word[i]` in its cell check (scrabble.ts:148);
  - `word[i]` in the write loop (scrabble.ts:86);
  - `word.length * 10` in updateScore (scrabble.ts:158);
  - `word.length` as the bound of getImpactedWords' cross-word loop (scrabble.ts:125), which scans once per code unit.

  For a word outside the Basic Multilingual Plane, such as "𝔸" (U+1D538), the source sees two code units.
  - If accepted, it writes two cells, each holding a lone surrogate, and scores 40 points, not 20.
  - It also scans the cross word through a second cell, so the impacted words checked against the dictionary, and with them the verdict, can differ. Take a dictionary {"AB", "CD", "𝔸"}, "AB" played across at (8, 8) and "CD" across at (9, 8). Then `placeWord(7, 7, "𝔸", "horizontal")` also reads "AC" down column 8, and the source refuses the play where the model accepts it.
- StandaloneGame.ScrabbleGame.GetImpactedWords: makes one cross-word scan per character, where the source makes one per UTF-16 code unit (scrabble.ts:125). For words outside the Basic Multilingual Plane the list of impacted words therefore differs.
- StandaloneGame.ScrabbleGame.CanPlaceWord: word lengths and letter indices are counted in characters, not in UTF-16 code units, for the same reason.
- StandaloneGame.ScrabbleGame.UpdateScore: the score counts 10 per character, not per UTF-16 code unit.
- GameGrid.PlayScore: counts characters, not UTF-16 code units, for the same reason.
- Every JavaScript `number` is modelled as an `int`: coordinates, indices, scores and points. Fractional values behave as follows in the source, and the model does not capture any of it:
  - `placeWord` (scrabble.ts:65-93) with a fractional row: checkWord reads `board[7.5][c]` (scrabble.ts:103), a property of undefined, and getImpactedWords throws a TypeError. With a fractional column it reads undefined cells, which differ from "", as letters.
  - `placeLetter`, `getLetter`, `getMultiplier` and `isEmpty` of the scrabble.ts `Board` (scrabble.ts:272-305): an in-range fractional row or column passes the bounds test. Then `this.squares[row][col]` is undefined and the call throws a TypeError. For example, `getLetter(0.5, 0)` fails at scrabble.ts:288.
  - `placeTile` of src/scrabble/Board.ts (lines 46-52) and so `playTurn`:
    - a fractional x makes `grid[x]` undefined, which is a TypeError;
    - an integer x on the board with a fractional y throws the null-square `Error`.
  - `addScore(points)` (src/scrabble/Player.ts:16-18) accepts fractional points.
- StandaloneGame.ScrabbleGame.PlaceWord: integer rows and columns only, as the previous line says.
- Players.Player.AddScore: integer points only, as above.
- The DOM rendering in src/index.ts and the interface declarations in src/types/index.ts are not modelled.
- Concurrency and I/O: the code has none.

## Findings

| source | as written | input that shows it | evidently intended | confidence | as-written member | corrected member |
|---|---|---|---|---|---|---|
| scrabble.ts:141-153 | after the length check, `canPlaceWord` reads `board[r][c]` without checking that row r exists. A horizontal play on a row outside 0..14, or a vertical play starting above row 0, reads a property of `undefined` and throws a TypeError out of `placeWord` | `placeWord(15, 0, "CAT", "horizontal")` with CAT in the dictionary | return false, as for a column off the board | not executed | GameGrid.CanPlaceAsWrittenThrowsOffBoard | StandaloneGame.ScrabbleGame.CanPlaceWord |
