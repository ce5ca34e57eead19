/** Moves and their bounds check (internal/models/move.go). */
module Moves {

  import opened GoTime
  import opened Uuid
  import opened Players

  /** A recorded move: who claimed which cell, for which team, and when. */
  datatype Move = Move(
    id: Uuid,
    gameId: Uuid,
    playerId: Uuid,
    xCoordinate: Int64,
    yCoordinate: Int64,
    team: Team,
    timestamp: Instant)

  /** The coordinates a client submits. */
  datatype MoveRequest = MoveRequest(x: Int64, y: Int64)

  /** The upper bound of the database check constraints on both coordinate columns. */
  const CheckedGridSize: int := 100

  /** The column check constraint `c >= 0 AND c < 100` on `x_coordinate` and on `y_coordinate`. */
  predicate ColumnCheck(c: int)
  {
    c >= 0 && c < CheckedGridSize
  }

  /** `IsValid(gridSize)`: both coordinates lie in `[0, gridSize)`. */
  predicate IsValid(m: Move, gridSize: Int64)
  {
    m.xCoordinate >= 0 && m.xCoordinate < gridSize &&
    m.yCoordinate >= 0 && m.yCoordinate < gridSize
  }

  /** On an empty or negative grid no move is valid. */
  lemma NoValidMoveOnEmptyGrid(m: Move, gridSize: Int64)
    requires gridSize <= 0
    ensures !IsValid(m, gridSize)
  {
  }

  /** A move valid on a grid stays valid on every larger grid. */
  lemma IsValidMonotone(m: Move, n: Int64, n': Int64)
    requires n <= n'
    requires IsValid(m, n)
    ensures IsValid(m, n')
  {
  }

  /** Validity looks only at the coordinates, not at the team, ids or timestamp. */
  lemma IsValidOnlyCoordinates(m: Move, m': Move, gridSize: Int64)
    requires m.xCoordinate == m'.xCoordinate && m.yCoordinate == m'.yCoordinate
    ensures IsValid(m, gridSize) == IsValid(m', gridSize)
  {
  }

  /** On a 100 x 100 grid, `IsValid` accepts exactly the moves the column check constraints admit. */
  lemma IsValidMatchesColumnCheck(m: Move)
    ensures IsValid(m, CheckedGridSize) <==> ColumnCheck(m.xCoordinate) && ColumnCheck(m.yCoordinate)
  {
  }

  /** The far corner is inside the grid; one step past either edge is outside. */
  lemma IsValidBoundary(m: Move, n: Int64)
    requires n >= 1
    ensures m.xCoordinate == n - 1 && m.yCoordinate == n - 1 ==> IsValid(m, n)
    ensures m.xCoordinate == n ==> !IsValid(m, n)
    ensures m.yCoordinate == n ==> !IsValid(m, n)
  {
  }
}
