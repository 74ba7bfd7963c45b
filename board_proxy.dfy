/** One player's view of the board (untitled/src/core/BoardPlayerProxy.java):
    the ids of pieces the player may not inspect are replaced by
    `EnemyPiece`, reads are forwarded to the wrapped board, and every
    attempt to change the board is refused. */
module Proxies {
  import opened Geometry
  import opened PlayerPieces
  import opened BoardState
  import opened Boards

  /** The code a player sees on a square: a piece id outside its access set
      reads as `EnemyPiece`; special codes and accessible ids are shown as is. */
  function Mask(code: int, accessibleIds: set<int>): int {
    if IsPieceId(code) && code !in accessibleIds then EnemyPiece else code
  }

  /** `getBoard` as documented: every square of the grid masked. */
  function Filter(g: Grid, accessibleIds: set<int>): (r: Grid)
    ensures |r| == |g|
    ensures forall i :: 0 <= i < |g| ==> |r[i]| == |g[i]|
  {
    seq(|g|, i requires 0 <= i < |g| =>
      seq(|g[i]|, j requires 0 <= j < |g[i]| => Mask(g[i][j], accessibleIds)))
  }

  /** `getBoard` as the code is written: the column loop runs up to the number
      of ROWS, so a board with more rows than columns raises, and on a board
      with more columns than rows the columns past the row count are returned
      unmasked. */
  function FilterAsWritten(g: Grid, accessibleIds: set<int>): Result<Grid>
    requires Rectangular(g)
  {
    if |g| > Cols(g) then Err(IndexOutOfBounds)
    else Ok(seq(|g|, i requires 0 <= i < |g| =>
              seq(|g[i]|, j requires 0 <= j < |g[i]| =>
                if j < |g| then Mask(g[i][j], accessibleIds) else g[i][j])))
  }

  /** The filtered board has the shape of the board, keeps exactly the special
      codes and the accessible ids, shows every other id as `EnemyPiece`, and
      so names no piece outside the access set. */
  lemma FilterHidesRestrictedIds(g: Grid, accessibleIds: set<int>)
    ensures Rectangular(g) ==> Rectangular(Filter(g, accessibleIds)) && Cols(Filter(g, accessibleIds)) == Cols(g)
    ensures forall i, j :: 0 <= i < |g| && 0 <= j < |g[i]| ==>
              (Filter(g, accessibleIds)[i][j] == g[i][j] <==> !IsPieceId(g[i][j]) || g[i][j] in accessibleIds)
    ensures forall i, j :: 0 <= i < |g| && 0 <= j < |g[i]| && IsPieceId(g[i][j]) && g[i][j] !in accessibleIds ==>
              Filter(g, accessibleIds)[i][j] == EnemyPiece
    ensures forall i, j :: 0 <= i < |g| && 0 <= j < |g[i]| && IsPieceId(Filter(g, accessibleIds)[i][j]) ==>
              Filter(g, accessibleIds)[i][j] in accessibleIds
  {
  }

  /** Filtering a filtered board changes nothing. */
  lemma FilterIsIdempotent(g: Grid, accessibleIds: set<int>)
    ensures Filter(Filter(g, accessibleIds), accessibleIds) == Filter(g, accessibleIds)
  {
    var once := Filter(g, accessibleIds);
    var twice := Filter(once, accessibleIds);
    forall i | 0 <= i < |g|
      ensures twice[i] == once[i]
    {
      assert |twice[i]| == |once[i]|;
    }
  }

  /** Two boards that differ only in which restricted pieces stand where look
      the same through the filter: the view reveals nothing about them. */
  lemma FilterRevealsNothing(g1: Grid, g2: Grid, accessibleIds: set<int>)
    requires |g1| == |g2|
    requires forall i :: 0 <= i < |g1| ==> |g1[i]| == |g2[i]|
    requires forall i, j :: 0 <= i < |g1| && 0 <= j < |g1[i]| && g1[i][j] != g2[i][j] ==>
               IsPieceId(g1[i][j]) && g1[i][j] !in accessibleIds &&
               IsPieceId(g2[i][j]) && g2[i][j] !in accessibleIds
    ensures Filter(g1, accessibleIds) == Filter(g2, accessibleIds)
  {
    var f1, f2 := Filter(g1, accessibleIds), Filter(g2, accessibleIds);
    forall i | 0 <= i < |g1|
      ensures f1[i] == f2[i]
    {
      assert |f1[i]| == |f2[i]|;
    }
  }

  /** On a square board the code does what is documented. */
  lemma FilterAsWrittenOnSquareBoard(g: Grid, accessibleIds: set<int>)
    requires Rectangular(g) && |g| == Cols(g)
    ensures FilterAsWritten(g, accessibleIds) == Ok(Filter(g, accessibleIds))
  {
    var r := FilterAsWritten(g, accessibleIds).value;
    var f := Filter(g, accessibleIds);
    forall i | 0 <= i < |g|
      ensures r[i] == f[i]
    {
      assert |r[i]| == |f[i]| == |g[i]| == |g|;
      forall j | 0 <= j < |r[i]|
        ensures r[i][j] == f[i][j]
      {
      }
    }
    assert |r| == |f|;
    assert r == f;
  }

  /** Off square boards the code goes wrong: with more rows than columns it
      raises, with more columns than rows it shows, in every row, the raw
      codes of all columns from the row count on, which may be restricted ids. */
  lemma FilterAsWrittenOffSquareBoards(g: Grid, accessibleIds: set<int>)
    requires Rectangular(g)
    ensures |g| > Cols(g) ==> FilterAsWritten(g, accessibleIds) == Err(IndexOutOfBounds)
    ensures |g| <= Cols(g) ==>
              FilterAsWritten(g, accessibleIds).Ok? &&
              forall i, j :: 0 <= i < |g| && |g| <= j < Cols(g) ==>
                FilterAsWritten(g, accessibleIds).value[i][j] == g[i][j]
  {
  }

  /** Concrete witness on a one-row, two-column board holding pieces 0 and 1,
      neither accessible: the code leaks id 1, the documented filter hides both. */
  lemma FilterAsWrittenLeaksOnWideBoard()
    ensures FilterAsWritten([[0, 1]], {}) == Ok([[EnemyPiece, 1]])
    ensures Filter([[0, 1]], {}) == [[EnemyPiece, EnemyPiece]]
  {
    var g: Grid := [[0, 1]];
    assert Rectangular(g);
    var r := FilterAsWritten(g, {}).value;
    assert r[0] == [EnemyPiece, 1];
    assert r == [[EnemyPiece, 1]];
    var f := Filter(g, {});
    assert f[0] == [EnemyPiece, EnemyPiece];
  }

  class BoardPlayerProxy {
    /** The ids of the pieces whose information this view may show. */
    const accessibleIds: set<int>
    /** The omniscient board this view reads from. */
    const realService: BoardGlobal

    constructor (accessibleIds: set<int>, realService: BoardGlobal)
      ensures this.accessibleIds == accessibleIds && this.realService == realService
    {
      this.accessibleIds := accessibleIds;
      this.realService := realService;
    }

    /** `getBoard` as the code is written: the wrapped board's copy, masked in
        place with the column loop bounded by the number of rows. */
    method GetBoardAsWritten() returns (r: Result<array2<int>>)
      ensures r.Ok? <==> FilterAsWritten(realService.Cells(), accessibleIds).Ok?
      ensures r.Err? ==> r.error == IndexOutOfBounds
      ensures r.Ok? ==> fresh(r.value) && GridOf(r.value) == FilterAsWritten(realService.Cells(), accessibleIds).value
    {
      ghost var g := realService.Cells();
      var board := realService.GetBoard();
      for i := 0 to board.Length0
        invariant 0 < i ==> board.Length0 <= board.Length1
        invariant forall y, x :: 0 <= y < i && 0 <= x < board.Length1 ==>
                    board[y, x] == if x < board.Length0 then Mask(g[y][x], accessibleIds) else g[y][x]
        invariant forall y, x :: i <= y < board.Length0 && 0 <= x < board.Length1 ==> board[y, x] == g[y][x]
      {
        for j := 0 to board.Length0
          invariant j <= board.Length1
          invariant forall y, x :: 0 <= y < i && 0 <= x < board.Length1 ==>
                      board[y, x] == if x < board.Length0 then Mask(g[y][x], accessibleIds) else g[y][x]
          invariant forall x :: 0 <= x < j ==> board[i, x] == Mask(g[i][x], accessibleIds)
          invariant forall y, x :: (i < y < board.Length0 || (y == i && j <= x)) && 0 <= x < board.Length1 ==>
                      board[y, x] == g[y][x]
        {
          if j >= board.Length1 {
            return Err(IndexOutOfBounds);
          }
          var squareId := board[i, j];
          if IsPieceId(squareId) && squareId !in accessibleIds {
            board[i, j] := EnemyPiece;
          }
        }
      }
      ghost var expected := FilterAsWritten(g, accessibleIds).value;
      assert forall y :: 0 <= y < board.Length0 ==> GridOf(board)[y] == expected[y];
      return Ok(board);
    }

    /** `getBoard` as documented: the wrapped board's copy with every
        restricted id masked. */
    method GetBoard() returns (board: array2<int>)
      ensures fresh(board) && GridOf(board) == Filter(realService.Cells(), accessibleIds)
    {
      ghost var g := realService.Cells();
      board := realService.GetBoard();
      for i := 0 to board.Length0
        invariant forall y, x :: 0 <= y < i && 0 <= x < board.Length1 ==> board[y, x] == Mask(g[y][x], accessibleIds)
        invariant forall y, x :: i <= y < board.Length0 && 0 <= x < board.Length1 ==> board[y, x] == g[y][x]
      {
        for j := 0 to board.Length1
          invariant forall y, x :: 0 <= y < i && 0 <= x < board.Length1 ==> board[y, x] == Mask(g[y][x], accessibleIds)
          invariant forall x :: 0 <= x < j ==> board[i, x] == Mask(g[i][x], accessibleIds)
          invariant forall y, x :: (i < y < board.Length0 || (y == i && j <= x)) && 0 <= x < board.Length1 ==>
                      board[y, x] == g[y][x]
        {
          var squareId := board[i, j];
          if IsPieceId(squareId) && squareId !in accessibleIds {
            board[i, j] := EnemyPiece;
          }
        }
      }
      ghost var expected := Filter(g, accessibleIds);
      assert forall y :: 0 <= y < board.Length0 ==> GridOf(board)[y] == expected[y];
    }

    /** `getSquare` as the code is written: forwarded unfiltered. */
    function GetSquareAsWritten(c: Coords): (r: Result<int>)
      reads realService.board
      ensures r.Ok? <==> WithinBoard(realService.Cells(), c)
      ensures r.Ok? ==> r.value == realService.Cells()[c.y][c.x]
      ensures r.Err? ==> r.error == InvalidCoordinates(c)
    {
      realService.GetSquare(c)
    }

    /** `getSquare` consistent with `getBoard`: the masked code of the square. */
    function GetSquare(c: Coords): (r: Result<int>)
      reads realService.board
      ensures r.Ok? <==> WithinBoard(realService.Cells(), c)
      ensures r.Ok? ==> r.value == Filter(realService.Cells(), accessibleIds)[c.y][c.x]
      ensures r.Err? ==> r.error == InvalidCoordinates(c)
    {
      match realService.GetSquare(c)
      case Ok(code) => Ok(Mask(code, accessibleIds))
      case Err(e) => Err(e)
    }

    /** `getPiece`: only ids in the access set are looked up; any other id is
        refused as an illegal argument. */
    function GetPiece(pieceId: int): (r: Result<PlayerPiece>)
      ensures r.Ok? <==> pieceId in accessibleIds && 0 <= pieceId < |realService.pieces|
      ensures r.Ok? ==> r.value == realService.pieces[pieceId]
      ensures r.Err? ==> r.error == IllegalArgument
    {
      if pieceId in accessibleIds then realService.GetPiece(pieceId) else Err(IllegalArgument)
    }

    /** `nowPlaying`: the wrapped board's player to move. */
    function NowPlaying(): (p: PlayerId)
      reads realService
      ensures p == realService.nowPlaying
    {
      realService.nowPlaying
    }

    /** `isValid`: the wrapped board's answer. */
    predicate IsValid(c: Coords)
      reads realService.board
      ensures IsValid(c) <==> WithinBoard(realService.Cells(), c)
    {
      realService.IsValid(c)
    }

    /** `getActions` is not implemented by the view. */
    method GetActions(from: Coords) returns (r: Result<seq<Action>>)
      ensures r == Err(NotImplemented)
    {
      r := Err(NotImplemented);
    }

    /** `isLegal` relies on `getActions`, so it fails the same way. */
    method IsLegal(move: Action) returns (r: Result<bool>)
      ensures r == Err(NotImplemented)
    {
      var actions := GetActions(move.from);
      match actions
      case Err(e) => r := Err(e);
      case Ok(list) => r := Ok(move in list);
    }

    /** `applyAction`: a view never changes the board. */
    method ApplyAction(move: Action, copy: bool) returns (r: Result<BoardGlobal>)
      ensures r == Err(Unsupported)
    {
      r := Err(Unsupported);
    }

    /** `hasEnded`: forwarded to the wrapped board. */
    method HasEnded() returns (r: Result<bool>)
      ensures r == Err(NotImplemented)
    {
      r := realService.HasEnded();
    }
  }

  /** Whenever a square holds a restricted id, the view's `getSquare` as
      written hands that id out, while the filtered board shows `EnemyPiece`
      there. */
  lemma GetSquareAsWrittenLeaks(view: BoardPlayerProxy, c: Coords)
    requires WithinBoard(view.realService.Cells(), c)
    requires IsPieceId(view.realService.Cells()[c.y][c.x])
    requires view.realService.Cells()[c.y][c.x] !in view.accessibleIds
    ensures view.GetSquareAsWritten(c).Ok? && view.GetSquareAsWritten(c).value !in view.accessibleIds
    ensures view.GetSquare(c) == Ok(EnemyPiece)
  {
  }
}
