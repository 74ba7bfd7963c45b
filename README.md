# Stratego rules kernel in Dafny

This project models the rules kernel of a small Stratego engine written in Java:

- **Combat table.** It covers the rank enumeration `PieceValue`, with its power and mobility and the first-match `attacks` table. It also covers the older duplicate `Piece`. Lemmas prove their properties for every rank, and prove that the two tables agree on all 144 pairs.
- **Omniscient board (`BoardGlobal`).** A grid of square codes is updated in place. `EMPTY_SQUARE = -1`, `LAKE_SQUARE = -2`, and any code `>= 0` is a piece id indexing the piece registry. The board also holds the player to move.
  - Move generation (`getActions`) casts a ray in each of the four directions.
  - `isLegal` tests membership in that list.
  - `applyAction` performs a plain move, either in place or on a fresh copy.
- **One player's view (`BoardPlayerProxy`, `PiecesInfoProxy`).** Piece ids the player may not inspect are shown as `ENEMY_PIECE = -3` or `UNKNOWN`. `BoardPlayerProxy.getPiece` refuses those ids, while `PiecesInfoProxy.getPiece` answers `UNKNOWN` for them without raising. The board view refuses every mutation.
- **Value types.** `Coords` and `Action`.

The model has two layers:

- `BoardRules` states the board's behaviour as functions of its value, a `Grid = seq<seq<int>>`: validity, one ray (`Ray`), the four-direction scan (`Sweep`), `Actions`, `Legal`, `Move` and `Apply`. It proves what move generation and moving promise.
- The class `Boards.BoardGlobal` keeps the grid in an `array2<int>`. It runs the source's loops on it:
  - the nested direction/step loop of `getActions`;
  - the copy loop of `copyBoard`;
  - the two square writes of `applyAction`.

  Each method is proved to compute exactly the corresponding function on the grid the array holds (`Cells()`). `Proxies.BoardPlayerProxy` filters a fresh copy of that array in place, with the source's double loop.

The Java interface `IBoardState` becomes the module `BoardState`. It holds the square codes, the kinds of exception as the `Error` datatype, `Result`, and the documented meaning of "within the board". A wrapped `IBoardState` or `IPiecesInfo` is modelled by the concrete class the engine uses, `BoardGlobal` or `PiecesInfo`. Exceptions become `Err` results, and `UNKNOWN` (null) becomes `None`.

Where the documentation and the code disagree, the model follows the code, with these exceptions:

- The four defects under "## Findings" are modelled both as written and corrected. The rest of the model uses the corrected versions.
- The documentation of `applyAction`'s `copy` flag contradicts itself (untitled/src/core/IBoardState.java:83-91). The model follows the code: with `copy` the move is made on a fresh copy and the receiver is untouched. Without `copy` the receiver is moved in place and returned.
- The documentation says `applyAction` "accounts for the player turns", but the code never changes `nowPlaying`. `Boards.BoardGlobal.ApplyAction` states that the player to move is unchanged, as the code does.

## Model

| member | source | states |
|---|---|---|
| Geometry.Coords.Add | untitled/src/core/utils/Coords.java:26-28 | each component of the sum exceeds the receiver's by the argument's component |
| Geometry.CoordsEqualsIsEquality | untitled/src/core/utils/Coords.java:18-24 | `equals` holds iff both coordinates agree, i.e. exactly value equality |
| Geometry.AddIsCommutativeMonoid | untitled/src/core/utils/Coords.java:26-28 | `add` is commutative and associative with `(0, 0)` as identity |
| Geometry.AddThenNegate | untitled/src/core/utils/Coords.java:26-28 | adding a vector and then its opposite returns the original coordinates |
| Geometry.ActionEqualsIsEquality | untitled/src/core/utils/Action.java:19-25 | `equals` (field-wise `Coords.equals`) is value equality, reflexive and symmetric |
| Geometry.ActionEqualsTransitive | untitled/src/core/utils/Action.java:19-25 | `equals` is transitive |
| PieceValues.FlagIsAlwaysCaptured | untitled/src/core/utils/PieceValue.java:46-47 | every attacker wins against the flag |
| PieceValues.SpecialWins | untitled/src/core/utils/PieceValue.java:49-55 | the spy beats the marshal (P10) and the miner beats the bomb |
| PieceValues.BombBeatsNonMiners | untitled/src/core/utils/PieceValue.java:58-59 | every attacker except the miner loses against the bomb |
| PieceValues.GenericComparison | untitled/src/core/utils/PieceValue.java:61-66 | outside the special cases, greater power wins, equal draws, smaller loses (each as an iff) |
| PieceValues.PowerIsInjective | untitled/src/core/utils/PieceValue.java:11-22 | no two ranks share a power value |
| PieceValues.DrawsIffSameRank | untitled/src/core/utils/PieceValue.java:41-67 | a battle is a draw exactly when both ranks are equal and neither is flag nor bomb |
| PieceValues.OrdinaryBattlesAreAntisymmetric | untitled/src/core/utils/PieceValue.java:61-66 | between ordinary ranks, A beats B iff B loses to A, and draws are symmetric |
| PieceValues.MaxRangeTable | untitled/src/core/utils/PieceValue.java:11-22 | range 0 exactly for flag and bomb, `Integer.MAX_VALUE` exactly for the scout, 1 for every other rank |
| PieceValues.ScoutHasHighestMobility | untitled/src/core/utils/PieceValue.java:73 | every range lies between 0 and the scout's |
| LegacyPieces.Piece.ToPieceValue | untitled/src/core/Piece.java:4-15 | the name-for-name translation (`P2` to the scout) keeps the power value |
| LegacyPieces.ToPieceValueIsBijective | untitled/src/core/Piece.java:4-15 | the translation is injective and reaches every `PieceValue` |
| LegacyPieces.AttacksAgree | untitled/src/core/Piece.java:28-54 | the legacy table gives the same outcome as `PieceValue.attacks` on all 144 pairs |
| PlayerPieces.AttacksResolvesOpposingPieces | untitled/src/core/utils/PlayerPiece.java:26-31 | corrected `attacks`: fails exactly for two pieces of the same owner, otherwise gives the rank table's outcome |
| PlayerPieces.AttacksAsWrittenIsInverted | untitled/src/core/utils/PlayerPiece.java:32-39 | the code fails exactly where the documented contract resolves, and resolves battles between team mates |
| PlayerPieces.AttacksAsWrittenRefusesRealBattle | untitled/src/core/utils/PlayerPiece.java:32-39 | a red spy attacking the blue marshal is refused by the code; the corrected version answers `Wins` |
| BoardState.SpecialCodesAreDistinct | untitled/src/core/IBoardState.java:21-23 | the three special codes are pairwise distinct and none is a piece id |
| Registry.PiecesInfo.GetPiece | untitled/src/core/PiecesInfo.java:15-18 | succeeds iff the id indexes the array, with that entry; otherwise an index error |
| Registry.ProxyForwardsAccessibleIds | untitled/src/core/PiecesInfoProxy.java:22-26 | an accessible id gets the registry's own answer, including its index error |
| Registry.ProxyHidesInaccessibleIds | untitled/src/core/PiecesInfoProxy.java:27-30 | an inaccessible id yields `UNKNOWN`, never raises, and the answer does not depend on the registry's contents |
| BoardRules.DirectionsAreUnitVectors | untitled/src/core/BoardGlobal.java:38-43 | four directions, each a unit vector along an axis whose opposite is also a direction |
| BoardRules.IsValidMeansWithinBoard | untitled/src/core/IBoardState.java:101-107 | the corrected `isValid` holds iff the coordinates name a square of the board |
| BoardRules.IsValidAsWrittenMisjudges | untitled/src/core/BoardGlobal.java:233-239 | the code's test accepts exactly row 0 of the board plus column-valid negative rows; on a 2x2 board it rejects (0,1) and accepts (0,-1) |
| BoardRules.SetSquare | untitled/src/core/BoardGlobal.java:100-104 | the written square holds the value, the shape is kept and every other square is unchanged |
| BoardRules.RayShape | untitled/src/core/BoardGlobal.java:141-164 | one ray lists consecutive squares, nearest first, each within range with only empty squares before it and empty or held by an opponent |
| BoardRules.RayComplete | untitled/src/core/BoardGlobal.java:141-164 | every such reachable square along the ray is listed |
| BoardRules.StepIsScaledAdd | untitled/src/core/BoardGlobal.java:140-143 | `k` repeated `add`s of a direction move `k` times that direction |
| BoardRules.StepAlongDirection | untitled/src/core/BoardGlobal.java:38-43 | a walk of `k >= 1` steps along direction `d` is recognised as direction `d`, distance `k` |
| BoardRules.RayAlongDirection | untitled/src/core/BoardGlobal.java:138-164 | the ray of direction `d` lists its squares at distances 1, 2, ... along `d` |
| BoardRules.SweepShape | untitled/src/core/BoardGlobal.java:138-176 | the scan finds only reachable squares, grouped by direction in table order and nearest first |
| BoardRules.SweepComplete | untitled/src/core/BoardGlobal.java:138-176 | the scan finds every reachable square of every direction |
| BoardRules.ActionsOfNonMovers | untitled/src/core/BoardGlobal.java:121-134 | invalid `from` gives `InvalidCoordinates`; empty, lake, or a piece whose owner is not to move give no action; any other code that is not a registered id (an id past the registry, or an unknown negative code) gives `IllegalArgument` |
| BoardRules.ActionsSound | untitled/src/core/BoardGlobal.java:119-179 | every action starts at `from`, whose piece is the mover's. It ends in range along one direction, on an empty or enemy square that is not a lake, with only empty squares between. The order is +x, -x, +y, -y, nearest first |
| BoardRules.ActionsComplete | untitled/src/core/BoardGlobal.java:119-179 | every reachable square of the mover is offered |
| BoardRules.RangeOneMovesAreAdjacent | untitled/src/core/BoardGlobal.java:141 | a piece of range 1 only reaches squares at Manhattan distance 1 |
| BoardRules.RayTotal | untitled/src/core/BoardGlobal.java:157-174 | on a well-formed board (every square empty, a lake or a registered id) a ray never fails |
| BoardRules.SweepTotal | untitled/src/core/BoardGlobal.java:138-176 | on a well-formed board the scan never fails |
| BoardRules.ActionsTotalOnWellFormed | untitled/src/core/BoardGlobal.java:119-179 | on a well-formed board `getActions` fails iff `from` is off the board |
| BoardRules.LegalIffReachable | untitled/src/core/BoardGlobal.java:181-184 | `isLegal` holds iff the origin holds a piece of the player to move and the target is reachable along one direction |
| BoardRules.LegalMoveIsOnBoard | untitled/src/core/BoardGlobal.java:181-184 | a legal move starts on a mover's square and ends on another square of the board that is not a lake |
| BoardRules.Move | untitled/src/core/BoardGlobal.java:202-206 | after the plain move `from` is empty, `to` holds the moved code and no other square changes |
| BoardRules.ApplyOutcome | untitled/src/core/BoardGlobal.java:186-210 | `applyAction` succeeds iff the move is legal and targets an empty square. Errors from `getActions` pass through, an illegal move is `IllegalArgument` and a legal attack is not implemented |
| BoardRules.ApplyFrame | untitled/src/core/BoardGlobal.java:202-206 | a successful `applyAction` is a legal plain move: `from` emptied, `to` holds the moved id, every other square unchanged |
| BoardRules.ApplyPreservesInvariants | untitled/src/core/BoardGlobal.java:202-206 | a plain move keeps the board well formed and each piece id on at most one square |
| Boards.BoardGlobal.constructor | untitled/src/core/BoardGlobal.java:52-60 | the board wraps the given grid and registry, with red to move |
| Boards.BoardGlobal.WithTurn | untitled/src/core/BoardGlobal.java:70-77 | the board wraps the given grid and registry, with the given player to move |
| Boards.BoardGlobal.IsValid | untitled/src/core/BoardGlobal.java:233-239 | corrected `isValid` on the array: holds iff the coordinates name a square of the grid |
| Boards.BoardGlobal.GetSquare | untitled/src/core/BoardGlobal.java:89-93 | the square's code exactly when the coordinates are valid, otherwise `InvalidCoordinates(c)` |
| Boards.BoardGlobal.SetSquare | untitled/src/core/BoardGlobal.java:100-104 | on valid coordinates the grid becomes `SetSquare` of the old grid; otherwise `InvalidCoordinates` and nothing changes |
| Boards.BoardGlobal.GetPiece | untitled/src/core/BoardGlobal.java:106-113 | the registry entry of an id in range, otherwise `IllegalArgument` |
| Boards.BoardGlobal.IsPiece | untitled/src/core/BoardGlobal.java:246-255 | holds iff the square is valid and holds neither an empty nor a lake code |
| Boards.BoardGlobal.CastRay | untitled/src/core/BoardGlobal.java:140-175 | the step loop along one direction returns exactly the ray `Ray` of the grid |
| Boards.BoardGlobal.GetActions | untitled/src/core/BoardGlobal.java:118-179 | the nested loops return exactly `Actions` of the grid, whose soundness, completeness and order are proved above |
| Boards.BoardGlobal.IsLegal | untitled/src/core/BoardGlobal.java:181-184 | returns exactly `Legal` of the grid |
| Boards.BoardGlobal.HasEnded | untitled/src/core/BoardGlobal.java:212-220 | always fails as not implemented |
| Boards.BoardGlobal.CopyBoard | untitled/src/core/BoardGlobal.java:225-231 | a fresh array of the same dimensions holding the same codes |
| Boards.BoardGlobal.GetBoard | untitled/src/core/BoardGlobal.java:86-87 | a fresh array holding the board's codes |
| Boards.BoardGlobal.ApplyAction | untitled/src/core/BoardGlobal.java:186-210 | follows `Apply` of the old grid. An error leaves the board untouched. With `copy` the result is a fresh board and the receiver is untouched; without it the receiver moves in place and is returned. Registry and player to move are unchanged |
| Proxies.Filter | untitled/src/core/BoardPlayerProxy.java:37-43 | the filtered board has the board's shape; its contents are stated by `FilterHidesRestrictedIds` |
| Proxies.FilterHidesRestrictedIds | untitled/src/core/BoardPlayerProxy.java:37-42 | a square keeps its code iff the code is special or an accessible id; restricted ids become `ENEMY_PIECE`; no restricted id survives |
| Proxies.FilterIsIdempotent | untitled/src/core/BoardPlayerProxy.java:40-41 | filtering a filtered board changes nothing |
| Proxies.FilterRevealsNothing | untitled/src/core/BoardPlayerProxy.java:37-42 | boards differing only in which restricted ids stand where filter to the same board |
| Proxies.FilterAsWrittenOnSquareBoard | untitled/src/core/BoardPlayerProxy.java:37-38 | on a square board the code's filter equals the documented filter |
| Proxies.FilterAsWrittenOffSquareBoards | untitled/src/core/BoardPlayerProxy.java:37-38 | more rows than columns raises; otherwise every square of every row in a column at or past the row count keeps its raw code |
| Proxies.FilterAsWrittenLeaksOnWideBoard | untitled/src/core/BoardPlayerProxy.java:37-38 | on the board `[[0, 1]]` with no accessible id, the code returns `[[ENEMY_PIECE, 1]]`; the documented filter returns `[[ENEMY_PIECE, ENEMY_PIECE]]` |
| Proxies.BoardPlayerProxy.constructor | untitled/src/core/BoardPlayerProxy.java:25-30 | the view stores its access set and the board it wraps |
| Proxies.BoardPlayerProxy.GetBoardAsWritten | untitled/src/core/BoardPlayerProxy.java:32-46 | the code's loops return a fresh array equal to `FilterAsWritten` of the grid, or the index error exactly when it predicts one |
| Proxies.BoardPlayerProxy.GetBoard | untitled/src/core/BoardPlayerProxy.java:32-46 | the corrected loops return a fresh array equal to `Filter` of the wrapped grid |
| Proxies.BoardPlayerProxy.GetSquareAsWritten | untitled/src/core/BoardPlayerProxy.java:49 | forwards the wrapped board's raw code of a valid square |
| Proxies.BoardPlayerProxy.GetSquare | untitled/src/core/BoardPlayerProxy.java:49 | corrected: the code of a valid square as the filtered board shows it, otherwise `InvalidCoordinates` |
| Proxies.BoardPlayerProxy.GetPiece | untitled/src/core/BoardPlayerProxy.java:51-57 | succeeds iff the id is accessible and registered, with the wrapped board's piece; otherwise `IllegalArgument` |
| Proxies.BoardPlayerProxy.NowPlaying | untitled/src/core/BoardPlayerProxy.java:59-62 | the wrapped board's player to move |
| Proxies.BoardPlayerProxy.IsValid | untitled/src/core/BoardPlayerProxy.java:87 | holds iff the coordinates name a square of the wrapped grid |
| Proxies.BoardPlayerProxy.GetActions | untitled/src/core/BoardPlayerProxy.java:70-75 | always fails as not implemented |
| Proxies.BoardPlayerProxy.IsLegal | untitled/src/core/BoardPlayerProxy.java:64-68 | fails as not implemented, because it relies on `getActions` |
| Proxies.BoardPlayerProxy.ApplyAction | untitled/src/core/BoardPlayerProxy.java:77-80 | always refused, and the view modifies nothing |
| Proxies.BoardPlayerProxy.HasEnded | untitled/src/core/BoardPlayerProxy.java:82-85 | the wrapped board's answer, which is not implemented |
| Proxies.GetSquareAsWrittenLeaks | untitled/src/core/BoardPlayerProxy.java:49 | on a square holding a restricted id, the code's `getSquare` returns that id while the filtered view shows `ENEMY_PIECE` |

## Left out

- The `Observer` field and listener pattern are not modelled: the code never notifies it.
- The battle branch of `applyAction`, `BoardGlobal.hasEnded` and `BoardPlayerProxy.getActions` throw "not implemented" in the source. They are modelled as that error. No battle update, turn switch or end-game rule is invented.
- The documented rule that a restricted view treats a restricted piece as a scout is not modelled: the view's `getActions` is not implemented.
- `toString` and the display glyphs are not modelled; they are string formatting only.
- `PlayerId.java`, `PieceInteractionResult.java` and `IPiecesInfo.java` are not part of this model. The model defines its own two-player `PlayerId` (`Red`, `Blue`; red moves first) and three-valued `Outcome` (`Wins`, `Draws`, `Loses`).
- A view over another view is not modelled: a wrapped `IBoardState` is always a `BoardGlobal`.
- Both views keep the caller's collection of accessible ids by reference. `BoardPlayerProxy.accessibleIds` is even a non-final field. So the set a view consults can change after construction, for example when a piece is revealed. The model takes the access set as a snapshot at construction: `Proxies.BoardPlayerProxy.accessibleIds` is a constant and `Registry.PiecesInfoProxy` is a value. Aliasing of the set and later changes to it are not captured.
- The jagged `int[][]` is modelled as a rectangular `array2<int>`, so ragged rows are not modelled. `copyBoard` row copies become one fresh two-dimensional array.
- Geometry.Coords.Add: does not model 32-bit wrap-around. Rays stop at the board edge long before a coordinate could overflow.
- `BoardRules.IsValidAsWritten` reads the column count as 0 on a board without rows. The code would raise there instead, because it reads `board[0].length`.

## Findings

| source | as written | input that shows it | evidently intended | confidence | as-written member | corrected member |
|---|---|---|---|---|---|---|
| untitled/src/core/BoardGlobal.java:235 | the row test is `c.y <= 0` | on a 2x2 board, `(0, 1)` is rejected and `(0, -1)` accepted | `0 <= c.y < rows`, as documented at untitled/src/core/IBoardState.java:101-107 | high, not executed | BoardRules.IsValidAsWrittenMisjudges | BoardRules.IsValidMeansWithinBoard |
| untitled/src/core/utils/PlayerPiece.java:34-38 | resolves the battle when the owners are equal and throws when they differ | a red spy attacking the blue marshal throws | throw for team mates, resolve between opponents, as documented at line 30 | high, not executed | PlayerPieces.AttacksAsWrittenRefusesRealBattle | PlayerPieces.AttacksResolvesOpposingPieces |
| untitled/src/core/BoardPlayerProxy.java:38 | the column loop is bounded by the number of rows | the board `[[0, 1]]` with no accessible id shows id 1; a board with more rows than columns raises | bound by the row's length | high, not executed | Proxies.FilterAsWrittenLeaksOnWideBoard | Proxies.BoardPlayerProxy.GetBoard |
| untitled/src/core/BoardPlayerProxy.java:49 | `getSquare` forwards the raw code | a square holding a restricted id returns that id | the code `getBoard` shows there, `ENEMY_PIECE` | medium, not executed | Proxies.GetSquareAsWrittenLeaks | Proxies.BoardPlayerProxy.GetSquare |
