/** The omniscient board (untitled/src/core/BoardGlobal.java): a grid of square
    codes updated in place, the registry of pieces and the player to move.
    Each operation is proved to compute the corresponding function of
    `BoardRules` on the grid the array holds. */
module Boards {
  import opened Geometry
  import opened PlayerPieces
  import opened BoardState
  import opened BoardRules

  /** The grid an array of square codes holds, row by row. */
  ghost function GridOf(a: array2<int>): (g: Grid)
    reads a
    ensures |g| == a.Length0 && Rectangular(g)
    ensures Cols(g) == if a.Length0 == 0 then 0 else a.Length1
    ensures forall i, j :: 0 <= i < a.Length0 && 0 <= j < a.Length1 ==> g[i][j] == a[i, j]
  {
    seq(a.Length0, i requires 0 <= i < a.Length0 reads a =>
      seq(a.Length1, j requires 0 <= j < a.Length1 reads a => a[i, j]))
  }

  class BoardGlobal {
    /** The square codes, `board[y, x]`; the array is shared with whoever built the board. */
    const board: array2<int>
    /** The pieces, indexed by id. */
    const pieces: seq<PlayerPiece>
    var nowPlaying: PlayerId

    /** The grid the board currently holds. */
    ghost function Cells(): Grid
      reads board
    {
      GridOf(board)
    }

    /** A board on `initBoard` (not copied), with red to move. */
    constructor (initBoard: array2<int>, pieces: seq<PlayerPiece>)
      ensures board == initBoard && this.pieces == pieces && nowPlaying == Red
    {
      board := initBoard;
      this.pieces := pieces;
      nowPlaying := Red;
    }

    /** A board on `initBoard` (not copied), with `nowPlaying` to move. */
    constructor WithTurn(initBoard: array2<int>, pieces: seq<PlayerPiece>, nowPlaying: PlayerId)
      ensures board == initBoard && this.pieces == pieces && this.nowPlaying == nowPlaying
    {
      board := initBoard;
      this.pieces := pieces;
      this.nowPlaying := nowPlaying;
    }

    /** `isValid`, with the row test the documentation states (see `BoardRules.IsValidAsWritten`). */
    predicate IsValid(c: Coords)
      reads board
      ensures IsValid(c) <==> WithinBoard(Cells(), c)
    {
      IsValidMeansWithinBoard(Cells(), c);
      0 <= c.y < board.Length0 && 0 <= c.x < board.Length1
    }

    /** `getSquare`: the code on a square of the board, an error elsewhere. */
    function GetSquare(c: Coords): (r: Result<int>)
      reads board
      ensures r.Ok? <==> WithinBoard(Cells(), c)
      ensures r.Ok? ==> r.value == Cells()[c.y][c.x]
      ensures r.Err? ==> r.error == InvalidCoordinates(c)
    {
      if IsValid(c) then Ok(board[c.y, c.x]) else Err(InvalidCoordinates(c))
    }

    /** `setSquare`: writes one square of the board, an error elsewhere. */
    method SetSquare(c: Coords, value: int) returns (r: Result<()>)
      modifies board
      ensures r.Ok? <==> BoardRules.IsValid(old(Cells()), c)
      ensures r.Ok? ==> Cells() == BoardRules.SetSquare(old(Cells()), c, value)
      ensures r.Err? ==> r.error == InvalidCoordinates(c) && unchanged(board)
    {
      if IsValid(c) {
        ghost var before := Cells();
        board[c.y, c.x] := value;
        ghost var expected := BoardRules.SetSquare(before, c, value);
        assert forall i :: 0 <= i < |expected| ==> Cells()[i] == expected[i];
        r := Ok(());
      } else {
        r := Err(InvalidCoordinates(c));
      }
    }

    /** `getPiece`: the registry entry of an id; any other id is an illegal argument. */
    function GetPiece(pieceId: int): (r: Result<PlayerPiece>)
      ensures r.Ok? <==> 0 <= pieceId < |pieces|
      ensures r.Ok? ==> r.value == pieces[pieceId]
      ensures r.Err? ==> r.error == IllegalArgument
    {
      if 0 <= pieceId < |pieces| then Ok(pieces[pieceId]) else Err(IllegalArgument)
    }

    /** `isPiece`: the coordinates are on the board and hold a code other than empty or lake. */
    predicate IsPiece(c: Coords)
      reads board
      ensures IsPiece(c) <==> BoardRules.IsPiece(Cells(), c)
    {
      IsValid(c) && board[c.y, c.x] != EmptySquare && board[c.y, c.x] != LakeSquare
    }

    /** The inner loop of `getActions`: walks from `from` along `dir` while
        the squares are empty, for at most `range` steps, and stops at the
        edge, a lake or a piece (which is taken when it is an opponent's). */
    method CastRay(from: Coords, dir: Coords, owner: PlayerId, range: int) returns (r: Result<seq<Action>>)
      ensures r == Ray(Cells(), pieces, owner, from, dir, 1, range)
    {
      ghost var g := Cells();
      var found: seq<Action> := [];
      var to := from;
      var i := 0;
      PrependNil(Ray(g, pieces, owner, from, dir, 1, range));
      while i < range
        invariant 0 <= i && (i <= range || i == 0)
        invariant to == Step(from, dir, i)
        invariant Ray(g, pieces, owner, from, dir, 1, range) ==
                  Prepend(found, Ray(g, pieces, owner, from, dir, i + 1, range))
      {
        to := to.Add(dir);
        if !IsValid(to) {
          assert found + [] == found;
          break;
        }
        var toSquareId := board[to.y, to.x];
        assert Square(g, to) == toSquareId;
        if toSquareId == EmptySquare {
          PrependTwice(found, [Action(from, to)], Ray(g, pieces, owner, from, dir, i + 2, range));
          found := found + [Action(from, to)];
        } else if toSquareId == LakeSquare {
          assert found + [] == found;
          break;
        } else if 0 <= toSquareId < |pieces| {
          var pieceTo := pieces[toSquareId];
          if owner != pieceTo.ownerId {
            found := found + [Action(from, to)];
          } else {
            assert found + [] == found;
          }
          break;
        } else {
          return Err(InvalidBoardState(toSquareId));
        }
        i := i + 1;
      }
      assert Ray(g, pieces, owner, from, dir, 1, range) == Ok(found) by {
        if i >= range {
          assert found + [] == found;
        }
      }
      return Ok(found);
    }

    /** `getActions`: casts a ray in each direction, in order, up to the
        mover's range. */
    method GetActions(from: Coords) returns (r: Result<seq<Action>>)
      ensures r == Actions(Cells(), pieces, nowPlaying, from)
    {
      ghost var g := Cells();
      if !IsValid(from) {
        return Err(InvalidCoordinates(from));
      }
      var fromSquareId := board[from.y, from.x];
      if fromSquareId == EmptySquare || fromSquareId == LakeSquare {
        return Ok([]);
      }
      var found := GetPiece(fromSquareId);
      if found.Err? {
        return Err(found.error);
      }
      var pieceFrom := found.value;
      if pieceFrom.ownerId != nowPlaying {
        return Ok([]);
      }
      var owner, range := pieceFrom.ownerId, pieceFrom.value.MaxRange();
      var legalActions: seq<Action> := [];
      assert Square(g, from) == fromSquareId;
      PrependNil(Sweep(g, pieces, owner, from, range, 0));
      for d := 0 to |Directions|
        invariant Actions(g, pieces, nowPlaying, from) == Prepend(legalActions, Sweep(g, pieces, owner, from, range, d))
      {
        var ray := CastRay(from, Directions[d], owner, range);
        if ray.Err? {
          return Err(ray.error);
        }
        PrependTwice(legalActions, ray.value, Sweep(g, pieces, owner, from, range, d + 1));
        legalActions := legalActions + ray.value;
      }
      assert legalActions + [] == legalActions;
      return Ok(legalActions);
    }

    /** `isLegal`: the move is among the actions of its origin square. */
    method IsLegal(move: Action) returns (r: Result<bool>)
      ensures r == Legal(Cells(), pieces, nowPlaying, move)
    {
      var actions := GetActions(move.from);
      match actions
      case Err(e) => r := Err(e);
      case Ok(list) => r := Ok(move in list);
    }

    /** `hasEnded` is not implemented. */
    method HasEnded() returns (r: Result<bool>)
      ensures r == Err(NotImplemented)
    {
      r := Err(NotImplemented);
    }

    /** `copyBoard`: a fresh array holding the same codes. */
    method CopyBoard() returns (result: array2<int>)
      ensures fresh(result)
      ensures result.Length0 == board.Length0 && result.Length1 == board.Length1
      ensures GridOf(result) == Cells()
    {
      result := new int[board.Length0, board.Length1];
      for i := 0 to board.Length0
        invariant forall y, x :: 0 <= y < i && 0 <= x < board.Length1 ==> result[y, x] == board[y, x]
      {
        for j := 0 to board.Length1
          invariant forall y, x :: 0 <= y < i && 0 <= x < board.Length1 ==> result[y, x] == board[y, x]
          invariant forall x :: 0 <= x < j ==> result[i, x] == board[i, x]
        {
          result[i, j] := board[i, j];
        }
      }
      assert forall y :: 0 <= y < board.Length0 ==> GridOf(result)[y] == Cells()[y];
    }

    /** `getBoard`: a defensive copy of the grid. */
    method GetBoard() returns (result: array2<int>)
      ensures fresh(result) && GridOf(result) == Cells()
    {
      result := CopyBoard();
    }

    /** `applyAction`: refuses an illegal move; with `copy` it moves the piece on
        a fresh copy of the board and leaves this board untouched, otherwise it
        moves the piece in place and returns this board. The player to move is
        not changed, and a battle is not implemented. */
    method ApplyAction(move: Action, copy: bool) returns (r: Result<BoardGlobal>)
      modifies board
      ensures r.Ok? <==> Apply(old(Cells()), pieces, nowPlaying, move).Ok?
      ensures r.Err? ==> r.error == Apply(old(Cells()), pieces, nowPlaying, move).error && unchanged(board)
      ensures r.Ok? ==> r.value.Cells() == Apply(old(Cells()), pieces, nowPlaying, move).value
      ensures r.Ok? ==> r.value.pieces == pieces && r.value.nowPlaying == nowPlaying
      ensures r.Ok? && copy ==> fresh(r.value) && fresh(r.value.board) && unchanged(board)
      ensures r.Ok? && !copy ==> r.value == this
    {
      ghost var g := Cells();
      var legal := IsLegal(move);
      if legal.Err? {
        return Err(legal.error);
      }
      if !legal.value {
        return Err(IllegalArgument);
      }
      LegalMoveIsOnBoard(g, pieces, nowPlaying, move);
      var modified: BoardGlobal;
      if copy {
        var grid := CopyBoard();
        modified := new BoardGlobal.WithTurn(grid, pieces, nowPlaying);
      } else {
        modified := this;
      }
      if IsPiece(move.to) {
        return Err(NotImplemented);
      }
      var displaced := modified.GetSquare(move.from);
      var displacedPieceId := displaced.value;
      var _ := modified.SetSquare(move.from, EmptySquare);
      var _ := modified.SetSquare(move.to, displacedPieceId);
      ApplyFrame(g, pieces, nowPlaying, move);
      return Ok(modified);
    }
  }
}
