/** Games and their construction (internal/models/game.go). */
module Games {

  import opened Wrappers
  import opened GoTime
  import opened Uuid
  import opened Players

  /** Go's `GameStatus` is a string type; the model admits only its three declared constants. */
  datatype GameStatus = Waiting | Active | Completed

  /** The string value of each `GameStatus` constant. */
  function StatusName(s: GameStatus): string
  {
    match s
    case Waiting => "waiting"
    case Active => "active"
    case Completed => "completed"
  }

  /**
   * A game record. `gridState` is the grid's string representation; the
   * winner and the start and completion times are nil-able pointers.
   */
  datatype Game = Game(
    id: Uuid,
    gridState: string,
    status: GameStatus,
    winner: Option<Team>,
    redTeamCount: Int64,
    blackTeamCount: Int64,
    totalMoves: Int64,
    createdAt: Instant,
    startedAt: Option<Instant>,
    completedAt: Option<Instant>)

  /** A game together with its decoded grid and its players. */
  datatype GameState = GameState(game: Game, grid: seq<seq<Team>>, players: seq<Player>)

  /** `initializeEmptyGrid(size)`: the representation of an empty grid, so far always "". */
  function InitializeEmptyGrid(size: Int64): string
  {
    ""
  }

  /**
   * `NewGame(gridSize)`: a waiting game with the empty grid representation;
   * every field not set explicitly has its Go zero value.
   */
  function NewGame(gridSize: Int64): Game
  {
    Game(Nil, InitializeEmptyGrid(gridSize), Waiting, None, 0, 0, 0, 0, None, None)
  }

  /** Every grid size gets the same, empty, representation. */
  lemma EmptyGridIsEmpty(size: Int64)
    ensures InitializeEmptyGrid(size) == ""
  {
  }

  /** A new game is waiting, has the empty grid, no winner, no tallies, no moves and no timestamps. */
  lemma NewGameIsFresh(gridSize: Int64)
    ensures NewGame(gridSize).status == Waiting
    ensures NewGame(gridSize).gridState == InitializeEmptyGrid(gridSize) == ""
    ensures NewGame(gridSize).winner == None
    ensures NewGame(gridSize).redTeamCount == NewGame(gridSize).blackTeamCount == 0
    ensures NewGame(gridSize).totalMoves == 0
    ensures NewGame(gridSize).id == Nil && NewGame(gridSize).createdAt == 0
    ensures NewGame(gridSize).startedAt == None && NewGame(gridSize).completedAt == None
  {
  }

  /** The grid size has no effect on the new game. */
  lemma NewGameIgnoresSize(n: Int64, n': Int64)
    ensures NewGame(n) == NewGame(n')
  {
  }

  /** The three status constants are different strings. */
  lemma StatusNamesDistinct(s: GameStatus, s': GameStatus)
    ensures StatusName(s) == StatusName(s') <==> s == s'
  {
  }
}
