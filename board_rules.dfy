/** The rules of the omniscient board as functions of its value
    (untitled/src/core/BoardGlobal.java): coordinate validity, move
    generation by ray casting, legality and the effect of a plain move.
    The class `Boards.BoardGlobal` runs these on its array and is proved
    to compute exactly these functions. */
module BoardRules {
  import opened Geometry
  import opened PieceValues
  import opened PlayerPieces
  import opened BoardState

  /** The unit directions, in the order the source tries them: +x, -x, +y, -y. */
  const Directions: seq<Coords> := [Coords(1, 0), Coords(-1, 0), Coords(0, 1), Coords(0, -1)]

  /** The four directions are unit vectors along the axes. */
  lemma DirectionsAreUnitVectors(d: int)
    requires 0 <= d < |Directions|
    ensures |Directions| == 4
    ensures Abs(Directions[d].x) + Abs(Directions[d].y) == 1
    ensures Directions[d].Negate() in Directions
  {
  }

  function Abs(n: int): nat {
    if n < 0 then -n else n
  }

  // ---------------------------------------------------------------------------
  // Validity of coordinates

  /** `isValid` as the code is written: the row test reads `c.y <= 0`. */
  predicate IsValidAsWritten(g: Grid, c: Coords) {
    c.y <= 0 && c.y < |g| && c.x >= 0 && c.x < Cols(g)
  }

  /** `isValid` as documented: the coordinates point to a square of the board. */
  predicate IsValid(g: Grid, c: Coords) {
    0 <= c.y < |g| && 0 <= c.x < Cols(g)
  }

  /** On a rectangular board the corrected test is exactly "names a square". */
  lemma IsValidMeansWithinBoard(g: Grid, c: Coords)
    requires Rectangular(g)
    ensures IsValid(g, c) <==> WithinBoard(g, c)
  {
  }

  /** The written test accepts, among the squares of the board, only those of
      row 0, and accepts every column-valid coordinate of a negative row. */
  lemma IsValidAsWrittenMisjudges(g: Grid, c: Coords)
    ensures IsValidAsWritten(g, c) <==> (IsValid(g, c) && c.y == 0) || (c.y < 0 && 0 <= c.x < Cols(g))
    ensures var sq := [[EmptySquare, EmptySquare], [EmptySquare, EmptySquare]];
            WithinBoard(sq, Coords(0, 1)) && !IsValidAsWritten(sq, Coords(0, 1)) &&
            !WithinBoard(sq, Coords(0, -1)) && IsValidAsWritten(sq, Coords(0, -1))
  {
  }

  /** The code on the square at `c`. */
  function Square(g: Grid, c: Coords): int
    requires Rectangular(g) && IsValid(g, c)
  {
    g[c.y][c.x]
  }

  /** `g` with the square at `c` set to `v`. */
  function SetSquare(g: Grid, c: Coords, v: int): (r: Grid)
    requires Rectangular(g) && IsValid(g, c)
    ensures Rectangular(r) && |r| == |g| && Cols(r) == Cols(g)
    ensures Square(r, c) == v
    ensures forall c' :: IsValid(g, c') && c' != c ==> Square(r, c') == Square(g, c')
  {
    g[c.y := g[c.y][c.x := v]]
  }

  /** `isPiece`: the coordinates are valid and hold neither an empty square nor a lake. */
  predicate IsPiece(g: Grid, c: Coords)
    requires Rectangular(g)
  {
    IsValid(g, c) && Square(g, c) != EmptySquare && Square(g, c) != LakeSquare
  }

  // ---------------------------------------------------------------------------
  // Move generation

  /** The square `k` steps from `from` along `dir`. */
  function Step(from: Coords, dir: Coords, k: nat): Coords {
    if k == 0 then from else Step(from, dir, k - 1).Add(dir)
  }

  function Prepend<T>(xs: seq<T>, r: Result<seq<T>>): (r': Result<seq<T>>)
    ensures r'.Ok? <==> r.Ok?
    ensures r'.Err? ==> r' == r
    ensures r'.Ok? ==> r'.value == xs + r.value
  {
    match r
    case Ok(ys) => Ok(xs + ys)
    case Err(e) => Err(e)
  }

  lemma PrependNil<T>(r: Result<seq<T>>)
    ensures Prepend([], r) == r
  {
    if r.Ok? {
      assert [] + r.value == r.value;
    }
  }

  lemma PrependTwice<T>(xs: seq<T>, ys: seq<T>, r: Result<seq<T>>)
    ensures Prepend(xs, Prepend(ys, r)) == Prepend(xs + ys, r)
  {
    if r.Ok? {
      assert xs + (ys + r.value) == (xs + ys) + r.value;
    }
  }

  /** The actions found on one ray from the `k`-th square on, for a mover of
      `owner` that may traverse `range` squares: empty squares are taken and
      passed, a lake or the board edge ends the ray, a piece ends it and is
      taken only when it belongs to the other player, and any other code is an
      inconsistent board. */
  function Ray(g: Grid, pieces: seq<PlayerPiece>, owner: PlayerId, from: Coords, dir: Coords, k: int, range: int)
    : Result<seq<Action>>
    requires Rectangular(g) && k >= 1
    decreases range - k
  {
    if k > range then Ok([])
    else
      var to := Step(from, dir, k);
      if !IsValid(g, to) then Ok([])
      else
        var code := Square(g, to);
        if code == EmptySquare then Prepend([Action(from, to)], Ray(g, pieces, owner, from, dir, k + 1, range))
        else if code == LakeSquare then Ok([])
        else if 0 <= code < |pieces| then Ok(if owner != pieces[code].ownerId then [Action(from, to)] else [])
        else Err(InvalidBoardState(code))
  }

  /** The rays of the directions `d`, `d + 1`, ..., in order; the first
      inconsistent ray aborts the whole scan. */
  function Sweep(g: Grid, pieces: seq<PlayerPiece>, owner: PlayerId, from: Coords, range: int, d: nat)
    : Result<seq<Action>>
    requires Rectangular(g)
    decreases |Directions| - d
  {
    if d >= |Directions| then Ok([])
    else Then(Ray(g, pieces, owner, from, Directions[d], 1, range), Sweep(g, pieces, owner, from, range, d + 1))
  }

  /** The actions of `first` followed by those of `rest`, unless `first` failed. */
  function Then<T>(first: Result<seq<T>>, rest: Result<seq<T>>): (r: Result<seq<T>>)
    ensures first.Err? ==> r == first
    ensures first.Ok? ==> r == Prepend(first.value, rest)
  {
    match first
    case Err(e) => Err(e)
    case Ok(xs) => Prepend(xs, rest)
  }

  /** `getActions`: the moves of the piece on `from`, when it is its owner's turn. */
  function Actions(g: Grid, pieces: seq<PlayerPiece>, nowPlaying: PlayerId, from: Coords): Result<seq<Action>>
    requires Rectangular(g)
  {
    if !IsValid(g, from) then Err(InvalidCoordinates(from))
    else
      var id := Square(g, from);
      if id == EmptySquare || id == LakeSquare then Ok([])
      else if !(0 <= id < |pieces|) then Err(IllegalArgument)
      else if pieces[id].ownerId != nowPlaying then Ok([])
      else Sweep(g, pieces, pieces[id].ownerId, from, pieces[id].value.MaxRange(), 0)
  }

  /** `isLegal`: the move is one of the actions of its origin square. */
  function Legal(g: Grid, pieces: seq<PlayerPiece>, nowPlaying: PlayerId, m: Action): Result<bool>
    requires Rectangular(g)
  {
    match Actions(g, pieces, nowPlaying, m.from)
    case Ok(acts) => Ok(m in acts)
    case Err(e) => Err(e)
  }

  // ---------------------------------------------------------------------------
  // What move generation promises

  /** Every square strictly between `from` and its `k`-th neighbour along `dir` is empty. */
  predicate ClearBefore(g: Grid, from: Coords, dir: Coords, k: int)
    requires Rectangular(g)
  {
    forall j :: 1 <= j < k ==> IsValid(g, Step(from, dir, j)) && Square(g, Step(from, dir, j)) == EmptySquare
  }

  /** A square a piece of `owner` may end on: on the board, and empty or held by an opponent. */
  predicate Destination(g: Grid, pieces: seq<PlayerPiece>, owner: PlayerId, to: Coords)
    requires Rectangular(g)
  {
    IsValid(g, to) &&
    (Square(g, to) == EmptySquare || (0 <= Square(g, to) < |pieces| && pieces[Square(g, to)].ownerId != owner))
  }

  /** The `k`-th square along `dir` is within range, unobstructed and a destination. */
  predicate Reachable(g: Grid, pieces: seq<PlayerPiece>, owner: PlayerId, from: Coords, dir: Coords, k: int, range: int)
    requires Rectangular(g)
  {
    1 <= k <= range && ClearBefore(g, from, dir, k) && Destination(g, pieces, owner, Step(from, dir, k))
  }

  /** The ray from its `k`-th square lists the consecutive squares `k`, `k + 1`, ...,
      nearest first, each of them reachable. */
  lemma {:induction false} RayShape(g: Grid, pieces: seq<PlayerPiece>, owner: PlayerId, from: Coords, dir: Coords, k: int, range: int)
    requires Rectangular(g) && k >= 1
    requires ClearBefore(g, from, dir, k)
    requires Ray(g, pieces, owner, from, dir, k, range).Ok?
    ensures var acts := Ray(g, pieces, owner, from, dir, k, range).value;
            forall i :: 0 <= i < |acts| ==>
              acts[i] == Action(from, Step(from, dir, k + i)) &&
              Reachable(g, pieces, owner, from, dir, k + i, range)
    decreases range - k
  {
    if k <= range {
      var to := Step(from, dir, k);
      if IsValid(g, to) && Square(g, to) == EmptySquare {
        assert ClearBefore(g, from, dir, k + 1);
        RayShape(g, pieces, owner, from, dir, k + 1, range);
        var rest := Ray(g, pieces, owner, from, dir, k + 1, range).value;
        var acts := Ray(g, pieces, owner, from, dir, k, range).value;
        assert acts == [Action(from, to)] + rest;
        forall i | 0 <= i < |acts|
          ensures acts[i] == Action(from, Step(from, dir, k + i)) && Reachable(g, pieces, owner, from, dir, k + i, range)
        {
          if i > 0 {
            assert acts[i] == rest[i - 1];
            assert k + 1 + (i - 1) == k + i;
            assert Reachable(g, pieces, owner, from, dir, k + 1 + (i - 1), range);
          }
        }
      } else {
        var acts := Ray(g, pieces, owner, from, dir, k, range).value;
        if acts != [] {
          assert acts == [Action(from, to)];
          assert Reachable(g, pieces, owner, from, dir, k, range);
        }
      }
    }
  }

  /** Every reachable square from the `k`-th on is listed by the ray. */
  lemma {:induction false} RayComplete(g: Grid, pieces: seq<PlayerPiece>, owner: PlayerId, from: Coords, dir: Coords, k: int, j: int, range: int)
    requires Rectangular(g) && 1 <= k <= j
    requires Reachable(g, pieces, owner, from, dir, j, range)
    requires Ray(g, pieces, owner, from, dir, k, range).Ok?
    ensures Action(from, Step(from, dir, j)) in Ray(g, pieces, owner, from, dir, k, range).value
    decreases j - k
  {
    if k < j {
      assert IsValid(g, Step(from, dir, k)) && Square(g, Step(from, dir, k)) == EmptySquare;
      RayComplete(g, pieces, owner, from, dir, k + 1, j, range);
    }
  }

  /** The direction an action moves along, as an index into `Directions`. */
  function DirectionIndex(a: Action): nat {
    if a.to.x > a.from.x then 0
    else if a.to.x < a.from.x then 1
    else if a.to.y > a.from.y then 2
    else 3
  }

  /** The Manhattan distance an action covers. */
  function Distance(a: Action): nat {
    Abs(a.to.x - a.from.x) + Abs(a.to.y - a.from.y)
  }

  /** `a` comes strictly before `b` in the scan: earlier direction, or same direction and nearer. */
  predicate ScanBefore(a: Action, b: Action) {
    DirectionIndex(a) < DirectionIndex(b) ||
    (DirectionIndex(a) == DirectionIndex(b) && Distance(a) < Distance(b))
  }

  /** `k` steps along `dir` add `k` times `dir`. */
  lemma {:induction false} StepIsScaledAdd(from: Coords, dir: Coords, k: nat)
    ensures Step(from, dir, k) == Coords(from.x + k * dir.x, from.y + k * dir.y)
  {
    if k > 0 {
      StepIsScaledAdd(from, dir, k - 1);
    }
  }

  /** Walking `k >= 1` steps along the `d`-th direction is recognised as such. */
  lemma StepAlongDirection(from: Coords, d: nat, k: nat)
    requires d < |Directions| && k >= 1
    ensures DirectionIndex(Action(from, Step(from, Directions[d], k))) == d
    ensures Distance(Action(from, Step(from, Directions[d], k))) == k
  {
    StepIsScaledAdd(from, Directions[d], k);
  }

  /** `a` is an action the scan may produce: it leaves `from` along one of the
      directions towards a reachable square. */
  predicate ScanEntry(g: Grid, pieces: seq<PlayerPiece>, owner: PlayerId, from: Coords, range: int, a: Action)
    requires Rectangular(g)
  {
    a.from == from && DirectionIndex(a) < |Directions| &&
    a.to == Step(from, Directions[DirectionIndex(a)], Distance(a)) &&
    Reachable(g, pieces, owner, from, Directions[DirectionIndex(a)], Distance(a), range)
  }

  /** The ray of the `d`-th direction lists its squares at distance 1, 2, ... */
  lemma RayAlongDirection(g: Grid, pieces: seq<PlayerPiece>, owner: PlayerId, from: Coords, range: int, d: nat)
    requires Rectangular(g) && d < |Directions|
    requires Ray(g, pieces, owner, from, Directions[d], 1, range).Ok?
    ensures var first := Ray(g, pieces, owner, from, Directions[d], 1, range).value;
            forall i :: 0 <= i < |first| ==>
              ScanEntry(g, pieces, owner, from, range, first[i]) &&
              DirectionIndex(first[i]) == d && Distance(first[i]) == 1 + i
  {
    RayShape(g, pieces, owner, from, Directions[d], 1, range);
    var first := Ray(g, pieces, owner, from, Directions[d], 1, range).value;
    forall i | 0 <= i < |first|
      ensures ScanEntry(g, pieces, owner, from, range, first[i])
      ensures DirectionIndex(first[i]) == d && Distance(first[i]) == 1 + i
    {
      StepAlongDirection(from, d, 1 + i);
    }
  }

  /** The scan from direction `d` on finds only reachable squares of directions
      `d` and later, in scan order. */
  lemma {:induction false} SweepShape(g: Grid, pieces: seq<PlayerPiece>, owner: PlayerId, from: Coords, range: int, d: nat)
    requires Rectangular(g)
    requires Sweep(g, pieces, owner, from, range, d).Ok?
    ensures var acts := Sweep(g, pieces, owner, from, range, d).value;
            (forall i :: 0 <= i < |acts| ==>
              ScanEntry(g, pieces, owner, from, range, acts[i]) && d <= DirectionIndex(acts[i])) &&
            (forall i, j :: 0 <= i < j < |acts| ==> ScanBefore(acts[i], acts[j]))
    decreases |Directions| - d
  {
    if d < |Directions| {
      var first := Ray(g, pieces, owner, from, Directions[d], 1, range).value;
      RayAlongDirection(g, pieces, owner, from, range, d);
      SweepShape(g, pieces, owner, from, range, d + 1);
      var rest := Sweep(g, pieces, owner, from, range, d + 1).value;
      var acts := Sweep(g, pieces, owner, from, range, d).value;
      assert acts == first + rest;
      forall i | 0 <= i < |acts|
        ensures ScanEntry(g, pieces, owner, from, range, acts[i]) && d <= DirectionIndex(acts[i])
      {
        if i >= |first| {
          assert acts[i] == rest[i - |first|];
        }
      }
      forall i, j | 0 <= i < j < |acts|
        ensures ScanBefore(acts[i], acts[j])
      {
        if j >= |first| {
          assert acts[j] == rest[j - |first|];
          if i >= |first| {
            assert acts[i] == rest[i - |first|];
          }
        }
      }
    }
  }

  /** Every reachable square of directions `d` and later is found by the scan. */
  lemma {:induction false} SweepComplete(g: Grid, pieces: seq<PlayerPiece>, owner: PlayerId, from: Coords, range: int, d: nat, e: nat, k: int)
    requires Rectangular(g) && d <= e < |Directions|
    requires Reachable(g, pieces, owner, from, Directions[e], k, range)
    requires Sweep(g, pieces, owner, from, range, d).Ok?
    ensures Action(from, Step(from, Directions[e], k)) in Sweep(g, pieces, owner, from, range, d).value
    decreases e - d
  {
    var first := Ray(g, pieces, owner, from, Directions[d], 1, range).value;
    var rest := Sweep(g, pieces, owner, from, range, d + 1).value;
    assert Sweep(g, pieces, owner, from, range, d).value == first + rest;
    if d == e {
      RayComplete(g, pieces, owner, from, Directions[d], 1, k, range);
    } else {
      SweepComplete(g, pieces, owner, from, range, d + 1, e, k);
    }
  }

  /** `getActions` on a square that cannot move: an error outside the board or
      for a code that is no registry id, no action on an empty square, a lake,
      or a piece of the player who is not to move. */
  lemma ActionsOfNonMovers(g: Grid, pieces: seq<PlayerPiece>, nowPlaying: PlayerId, from: Coords)
    requires Rectangular(g)
    ensures !IsValid(g, from) ==> Actions(g, pieces, nowPlaying, from) == Err(InvalidCoordinates(from))
    ensures IsValid(g, from) && (Square(g, from) == EmptySquare || Square(g, from) == LakeSquare) ==>
              Actions(g, pieces, nowPlaying, from) == Ok([])
    ensures IsValid(g, from) && 0 <= Square(g, from) < |pieces| && pieces[Square(g, from)].ownerId != nowPlaying ==>
              Actions(g, pieces, nowPlaying, from) == Ok([])
    ensures IsValid(g, from) && Square(g, from) != EmptySquare && Square(g, from) != LakeSquare &&
            !(0 <= Square(g, from) < |pieces|) ==>
              Actions(g, pieces, nowPlaying, from) == Err(IllegalArgument)
  {
  }

  /** The piece that moves from `from`, when `getActions` scans for it. */
  predicate Mover(g: Grid, pieces: seq<PlayerPiece>, nowPlaying: PlayerId, from: Coords)
    requires Rectangular(g)
  {
    IsValid(g, from) && 0 <= Square(g, from) < |pieces| && pieces[Square(g, from)].ownerId == nowPlaying
  }

  function MoverRange(g: Grid, pieces: seq<PlayerPiece>, nowPlaying: PlayerId, from: Coords): int
    requires Rectangular(g) && Mover(g, pieces, nowPlaying, from)
  {
    pieces[Square(g, from)].value.MaxRange()
  }

  /** Soundness and order of `getActions`: every action starts at `from`, ends
      on a square of the board that is empty or held by an opponent, at
      distance 1..range along one of the four directions with only empty squares
      in between; the list runs direction by direction (+x, -x, +y, -y), nearest
      square first. */
  lemma ActionsSound(g: Grid, pieces: seq<PlayerPiece>, nowPlaying: PlayerId, from: Coords)
    requires Rectangular(g)
    requires Actions(g, pieces, nowPlaying, from).Ok?
    ensures var acts := Actions(g, pieces, nowPlaying, from).value;
            (forall i :: 0 <= i < |acts| ==>
              Mover(g, pieces, nowPlaying, from) &&
              ScanEntry(g, pieces, nowPlaying, from, MoverRange(g, pieces, nowPlaying, from), acts[i]) &&
              Destination(g, pieces, nowPlaying, acts[i].to) && Square(g, acts[i].to) != LakeSquare) &&
            (forall i, j :: 0 <= i < j < |acts| ==> ScanBefore(acts[i], acts[j]))
  {
    if Mover(g, pieces, nowPlaying, from) {
      SweepShape(g, pieces, nowPlaying, from, MoverRange(g, pieces, nowPlaying, from), 0);
    }
  }

  /** Completeness of `getActions`: every reachable square of a piece whose
      owner is to move is offered, so with `ActionsSound` the actions are
      exactly the reachable squares. */
  lemma ActionsComplete(g: Grid, pieces: seq<PlayerPiece>, nowPlaying: PlayerId, from: Coords, d: nat, k: int)
    requires Rectangular(g) && Mover(g, pieces, nowPlaying, from) && d < |Directions|
    requires Reachable(g, pieces, nowPlaying, from, Directions[d], k, MoverRange(g, pieces, nowPlaying, from))
    requires Actions(g, pieces, nowPlaying, from).Ok?
    ensures Action(from, Step(from, Directions[d], k)) in Actions(g, pieces, nowPlaying, from).value
  {
    SweepComplete(g, pieces, nowPlaying, from, MoverRange(g, pieces, nowPlaying, from), 0, d, k);
  }

  /** A piece of range 1 only reaches the four squares next to it. */
  lemma RangeOneMovesAreAdjacent(g: Grid, pieces: seq<PlayerPiece>, nowPlaying: PlayerId, from: Coords, a: Action)
    requires Rectangular(g)
    requires Actions(g, pieces, nowPlaying, from).Ok? && a in Actions(g, pieces, nowPlaying, from).value
    requires pieces[Square(g, from)].value.MaxRange() == 1
    ensures Distance(a) == 1
  {
    ActionsSound(g, pieces, nowPlaying, from);
  }

  /** Every square holds an empty marker, a lake or a registered piece id. */
  ghost predicate WellFormed(g: Grid, pieces: seq<PlayerPiece>)
    requires Rectangular(g)
  {
    forall c :: IsValid(g, c) ==>
      Square(g, c) == EmptySquare || Square(g, c) == LakeSquare || 0 <= Square(g, c) < |pieces|
  }

  /** On a well-formed board the rays never meet an inconsistent square. */
  lemma {:induction false} RayTotal(g: Grid, pieces: seq<PlayerPiece>, owner: PlayerId, from: Coords, dir: Coords, k: int, range: int)
    requires Rectangular(g) && WellFormed(g, pieces) && k >= 1
    ensures Ray(g, pieces, owner, from, dir, k, range).Ok?
    decreases range - k
  {
    if k <= range && IsValid(g, Step(from, dir, k)) && Square(g, Step(from, dir, k)) == EmptySquare {
      RayTotal(g, pieces, owner, from, dir, k + 1, range);
    }
  }

  lemma {:induction false} SweepTotal(g: Grid, pieces: seq<PlayerPiece>, owner: PlayerId, from: Coords, range: int, d: nat)
    requires Rectangular(g) && WellFormed(g, pieces)
    ensures Sweep(g, pieces, owner, from, range, d).Ok?
    decreases |Directions| - d
  {
    if d < |Directions| {
      RayTotal(g, pieces, owner, from, Directions[d], 1, range);
      SweepTotal(g, pieces, owner, from, range, d + 1);
    }
  }

  /** On a well-formed board `getActions` fails only for coordinates outside the board. */
  lemma ActionsTotalOnWellFormed(g: Grid, pieces: seq<PlayerPiece>, nowPlaying: PlayerId, from: Coords)
    requires Rectangular(g) && WellFormed(g, pieces)
    ensures Actions(g, pieces, nowPlaying, from).Ok? <==> IsValid(g, from)
  {
    if IsValid(g, from) && Mover(g, pieces, nowPlaying, from) {
      SweepTotal(g, pieces, nowPlaying, from, MoverRange(g, pieces, nowPlaying, from), 0);
    }
  }

  /** `isLegal` holds exactly for the moves of a piece whose owner is to move,
      along one direction to a reachable square. */
  lemma LegalIffReachable(g: Grid, pieces: seq<PlayerPiece>, nowPlaying: PlayerId, m: Action)
    requires Rectangular(g) && Actions(g, pieces, nowPlaying, m.from).Ok?
    ensures Legal(g, pieces, nowPlaying, m) == Ok(true) <==>
              Mover(g, pieces, nowPlaying, m.from) &&
              exists d: nat, k: nat :: 0 <= d < |Directions| && m.to == Step(m.from, Directions[d], k) &&
                Reachable(g, pieces, nowPlaying, m.from, Directions[d], k, MoverRange(g, pieces, nowPlaying, m.from))
  {
    ActionsSound(g, pieces, nowPlaying, m.from);
    var acts := Actions(g, pieces, nowPlaying, m.from).value;
    assert Legal(g, pieces, nowPlaying, m) == Ok(m in acts);
    if m in acts {
      var i :| 0 <= i < |acts| && acts[i] == m;
      var d, k := DirectionIndex(m), Distance(m);
      assert m.to == Step(m.from, Directions[d], k);
    }
    if Mover(g, pieces, nowPlaying, m.from) &&
       exists d: nat, k: nat :: 0 <= d < |Directions| && m.to == Step(m.from, Directions[d], k) &&
         Reachable(g, pieces, nowPlaying, m.from, Directions[d], k, MoverRange(g, pieces, nowPlaying, m.from)) {
      var d: nat, k: nat :| 0 <= d < |Directions| && m.to == Step(m.from, Directions[d], k) &&
         Reachable(g, pieces, nowPlaying, m.from, Directions[d], k, MoverRange(g, pieces, nowPlaying, m.from));
      ActionsComplete(g, pieces, nowPlaying, m.from, d, k);
      assert m == Action(m.from, Step(m.from, Directions[d], k));
    }
  }

  // ---------------------------------------------------------------------------
  // Applying a move

  /** A legal move lands on a square of the board, distinct from its origin. */
  lemma LegalMoveIsOnBoard(g: Grid, pieces: seq<PlayerPiece>, nowPlaying: PlayerId, m: Action)
    requires Rectangular(g) && Legal(g, pieces, nowPlaying, m) == Ok(true)
    ensures IsValid(g, m.from) && IsValid(g, m.to) && m.from != m.to
    ensures Mover(g, pieces, nowPlaying, m.from)
    ensures Square(g, m.to) != LakeSquare
  {
    ActionsSound(g, pieces, nowPlaying, m.from);
    var acts := Actions(g, pieces, nowPlaying, m.from).value;
    var i :| 0 <= i < |acts| && acts[i] == m;
  }

  /** The plain move: `from` becomes empty and `to` receives the moved id. */
  function Move(g: Grid, from: Coords, to: Coords): (r: Grid)
    requires Rectangular(g) && IsValid(g, from) && IsValid(g, to)
    ensures Rectangular(r) && |r| == |g| && Cols(r) == Cols(g)
    ensures from != to ==> Square(r, from) == EmptySquare
    ensures Square(r, to) == Square(g, from)
    ensures forall c :: IsValid(g, c) && c != from && c != to ==> Square(r, c) == Square(g, c)
  {
    SetSquare(SetSquare(g, from, EmptySquare), to, Square(g, from))
  }

  /** `applyAction`: refuses an illegal move (passing on the errors of
      `getActions`), leaves battles unimplemented, and otherwise moves the piece. */
  function Apply(g: Grid, pieces: seq<PlayerPiece>, nowPlaying: PlayerId, m: Action): Result<Grid>
    requires Rectangular(g)
  {
    match Legal(g, pieces, nowPlaying, m)
    case Err(e) => Err(e)
    case Ok(legal) =>
      if !legal then Err(IllegalArgument)
      else
        LegalMoveIsOnBoard(g, pieces, nowPlaying, m);
        if IsPiece(g, m.to) then Err(NotImplemented)
        else Ok(Move(g, m.from, m.to))
  }

  /** `applyAction` succeeds exactly on a legal move to an empty square; a legal
      attack is unimplemented and an illegal move is refused. */
  lemma ApplyOutcome(g: Grid, pieces: seq<PlayerPiece>, nowPlaying: PlayerId, m: Action)
    requires Rectangular(g)
    ensures Apply(g, pieces, nowPlaying, m).Ok? <==>
              Legal(g, pieces, nowPlaying, m) == Ok(true) && IsValid(g, m.to) && Square(g, m.to) == EmptySquare
    ensures Legal(g, pieces, nowPlaying, m).Err? ==> Apply(g, pieces, nowPlaying, m) == Err(Legal(g, pieces, nowPlaying, m).error)
    ensures Legal(g, pieces, nowPlaying, m) == Ok(false) ==> Apply(g, pieces, nowPlaying, m) == Err(IllegalArgument)
    ensures Legal(g, pieces, nowPlaying, m) == Ok(true) && IsPiece(g, m.to) ==>
              Apply(g, pieces, nowPlaying, m) == Err(NotImplemented)
  {
    if Legal(g, pieces, nowPlaying, m) == Ok(true) {
      LegalMoveIsOnBoard(g, pieces, nowPlaying, m);
    }
  }

  /** A successful `applyAction` is a legal plain move of a piece of the player
      to move onto an empty square: afterwards `from` is empty, `to` holds the
      moved id, and no other square changes. */
  lemma ApplyFrame(g: Grid, pieces: seq<PlayerPiece>, nowPlaying: PlayerId, m: Action)
    requires Rectangular(g) && Apply(g, pieces, nowPlaying, m).Ok?
    ensures Legal(g, pieces, nowPlaying, m) == Ok(true)
    ensures IsValid(g, m.from) && IsValid(g, m.to) && m.from != m.to
    ensures Mover(g, pieces, nowPlaying, m.from) && Square(g, m.to) == EmptySquare
    ensures Apply(g, pieces, nowPlaying, m) == Ok(Move(g, m.from, m.to))
    ensures var g' := Apply(g, pieces, nowPlaying, m).value;
            Rectangular(g') && |g'| == |g| && Cols(g') == Cols(g) &&
            Square(g', m.from) == EmptySquare &&
            Square(g', m.to) == Square(g, m.from) &&
            (forall c :: IsValid(g, c) && c != m.from && c != m.to ==> Square(g', c) == Square(g, c))
  {
    var legal := Legal(g, pieces, nowPlaying, m);
    assert legal == Ok(true);
    LegalMoveIsOnBoard(g, pieces, nowPlaying, m);
  }

  /** No piece id stands on two squares. */
  ghost predicate UniqueIds(g: Grid)
    requires Rectangular(g)
  {
    forall c, c' :: IsValid(g, c) && IsValid(g, c') && c != c' && IsPieceId(Square(g, c)) ==>
      Square(g, c) != Square(g, c')
  }

  /** A plain move keeps the board well formed and every piece on one square only. */
  lemma ApplyPreservesInvariants(g: Grid, pieces: seq<PlayerPiece>, nowPlaying: PlayerId, m: Action)
    requires Rectangular(g) && WellFormed(g, pieces) && UniqueIds(g)
    requires Apply(g, pieces, nowPlaying, m).Ok?
    ensures var g' := Apply(g, pieces, nowPlaying, m).value;
            Rectangular(g') && WellFormed(g', pieces) && UniqueIds(g')
  {
    ApplyFrame(g, pieces, nowPlaying, m);
    var g' := Apply(g, pieces, nowPlaying, m).value;
    assert forall c :: IsValid(g', c) <==> IsValid(g, c);
    forall c, c' | IsValid(g', c) && IsValid(g', c') && c != c' && IsPieceId(Square(g', c))
      ensures Square(g', c) != Square(g', c')
    {
      var src := if c == m.to then m.from else c;
      var src' := if c' == m.to then m.from else c';
      if c' == m.from {
        assert Square(g', c') == EmptySquare;
      } else {
        assert c != m.from;
        assert Square(g', c) == Square(g, src) && Square(g', c') == Square(g, src');
        assert src != src';
      }
    }
  }
}
