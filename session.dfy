/**
 * `Scrabble` of src/scrabble/Scrabble.ts: a game session over a Board and a
 * list of Player objects. Players are added, the game starts only with at
 * least two of them, and each turn places a tile and passes the turn on.
 */
module Sessions {
  import opened Wrappers
  import opened Squares
  import opened Boards
  import opened Players

  /** The message both startGame and playTurn throw. */
  const TwoPlayersRequired: string := "At least two players are required to start the game."

  /** How an operation that may throw ends: normally, with an `Error` and its message, or with a TypeError. */
  datatype Outcome = Completed | Thrown(message: string) | ThrownTypeError

  class Scrabble {
    var players: seq<Player>
    var board: Board
    var currentPlayerIndex: int
    var gameStarted: bool

    /** The turn index is 0 before the start and names a player after it; a started game has at least two players. */
    ghost predicate Valid()
      reads this, board, board.grid
    {
      && board.Valid()
      && (gameStarted ==> |players| >= 2 && 0 <= currentPlayerIndex < |players|)
      && (!gameStarted ==> currentPlayerIndex == 0)
    }

    /** A new session: no players, index 0, not started, a new board. The size argument is not used. */
    constructor(boardSize: int := 15)
      ensures Valid() && fresh(board) && fresh(board.Repr)
      ensures players == [] && currentPlayerIndex == 0 && !gameStarted
      ensures forall x, y :: InRange(x, y) ==> board.TileAt(x, y) == None && board.SpecialAt(x, y) == Layout(x, y)
    {
      players := [];
      board := new Board();
      currentPlayerIndex := 0;
      gameStarted := false;
    }

    /** addPlayer appends p after the players already there. */
    method AddPlayer(p: Player)
      requires Valid()
      modifies this
      ensures Valid()
      ensures players == old(players) + [p]
      ensures board == old(board) && currentPlayerIndex == old(currentPlayerIndex) && gameStarted == old(gameStarted)
    {
      players := players + [p];
    }

    /**
     * startGame: with fewer than two players it throws and changes nothing;
     * otherwise the game is started and the first player is to move.
     */
    method StartGame() returns (outcome: Outcome)
      requires Valid()
      modifies this
      ensures Valid()
      ensures outcome == (if |old(players)| < 2 then Thrown(TwoPlayersRequired) else Completed)
      ensures outcome.Thrown? ==> gameStarted == old(gameStarted) && currentPlayerIndex == old(currentPlayerIndex)
      ensures outcome.Completed? ==> gameStarted && currentPlayerIndex == 0
      ensures players == old(players) && board == old(board)
    {
      if |players| < 2 {
        return Thrown(TwoPlayersRequired);
      }
      gameStarted := true;
      currentPlayerIndex := 0;
      return Completed;
    }

    /** score: the current player's score. */
    method Score() returns (s: int)
      requires Valid() && 0 <= currentPlayerIndex < |players|
      ensures s == players[currentPlayerIndex].score
    {
      s := players[currentPlayerIndex].score;
    }

    /**
     * playTurn: before the start it throws and nothing changes. After it, the
     * tile goes to (x, y) as Board.placeTile says. When placeTile throws, the
     * throw comes out of playTurn before the index moves; otherwise the turn
     * passes to the next player whether or not the square took the tile.
     */
    method PlayTurn(t: Tile, x: int, y: int) returns (outcome: Outcome)
      requires Valid()
      modifies this, board.Repr
      ensures Valid()
      ensures players == old(players) && board == old(board) && gameStarted == old(gameStarted)
      ensures outcome == if !gameStarted then Thrown(TwoPlayersRequired)
                         else if !(0 <= x < BoardSize) then ThrownTypeError
                         else if !(0 <= y < BoardSize) then Thrown(NullSquareMessage(x, y))
                         else Completed
      ensures outcome.Completed? ==> currentPlayerIndex == (old(currentPlayerIndex) + 1) % |players|
      ensures !outcome.Completed? ==> currentPlayerIndex == old(currentPlayerIndex)
      ensures forall i, j :: InRange(i, j) ==>
                board.TileAt(i, j) == if outcome.Completed? && i == x && j == y && old(board.TileAt(x, y)).None?
                                      then Some(t) else old(board.TileAt(i, j))
      ensures forall i, j :: InRange(i, j) ==> board.SpecialAt(i, j) == old(board.SpecialAt(i, j))
    {
      if !gameStarted {
        return Thrown(TwoPlayersRequired);
      }
      var result := board.PlaceTile(x, y, t);
      match result {
        case ThrewTypeError => return ThrownTypeError;
        case ThrewError(message) => return Thrown(message);
        case Answered(_) =>
      }
      currentPlayerIndex := (currentPlayerIndex + 1) % |players|;
      return Completed;
    }

    /** getCurrentPlayer: the player whose turn it is, or None (`undefined`) when there is no player at the index. */
    method GetCurrentPlayer() returns (p: Option<Player>)
      requires Valid()
      ensures 0 <= currentPlayerIndex < |players| ==> p == Some(players[currentPlayerIndex])
      ensures !(0 <= currentPlayerIndex < |players|) ==> p == None
    {
      if 0 <= currentPlayerIndex < |players| {
        return Some(players[currentPlayerIndex]);
      }
      return None;
    }
  }
}
