/** What every view of the board shares (untitled/src/core/IBoardState.java):
    the codes of special squares, the errors the operations raise, and the
    grid of square codes with the documented meaning of "within the board". */
module BoardState {
  import opened Geometry

  /** Codes of special squares; every other code is a piece id (>= 0). */
  const EmptySquare: int := -1
  const LakeSquare: int := -2
  const EnemyPiece: int := -3

  /** The exceptions the board operations raise, by kind. */
  datatype Error =
    | InvalidCoordinates(c: Coords)   // coordinates outside the board
    | IllegalArgument                 // illegal move, unknown or restricted piece id
    | IndexOutOfBounds                // raw array access outside an array
    | InvalidBoardState(code: int)    // a square code the global board cannot hold
    | NotImplemented                  // an operation the source leaves unfinished
    | Unsupported                     // mutation attempted through a read-only view

  datatype Result<T> = Ok(value: T) | Err(error: Error)

  /** A board, row by row: `g[y][x]` is the code on the square at `Coords(x, y)`. */
  type Grid = seq<seq<int>>

  /** Number of columns, read from the first row as the source does. */
  function Cols(g: Grid): nat {
    if |g| == 0 then 0 else |g[0]|
  }

  /** All rows have the same length. */
  predicate Rectangular(g: Grid) {
    forall i :: 0 <= i < |g| ==> |g[i]| == Cols(g)
  }

  /** The documented meaning of `isValid`: `c` names a square of the board. */
  predicate WithinBoard(g: Grid, c: Coords) {
    0 <= c.y < |g| && 0 <= c.x < |g[c.y]|
  }

  /** A code that names a piece rather than a special square. */
  predicate IsPieceId(code: int) {
    code >= 0
  }

  /** The three special codes are distinct and never collide with a piece id. */
  lemma SpecialCodesAreDistinct(code: int)
    requires code == EmptySquare || code == LakeSquare || code == EnemyPiece
    ensures !IsPieceId(code)
    ensures EmptySquare != LakeSquare && LakeSquare != EnemyPiece && EmptySquare != EnemyPiece
  {
  }
}
