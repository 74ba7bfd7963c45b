/** The piece registry and its restricted projection
    (untitled/src/core/PiecesInfo.java, untitled/src/core/PiecesInfoProxy.java). */
module Registry {
  import opened PlayerPieces
  import opened BoardState

  datatype Option<T> = None | Some(value: T)

  /** The registry: piece ids index the array of pieces. */
  datatype PiecesInfo = PiecesInfo(pieces: seq<PlayerPiece>) {

    /** Array read; an id outside the array raises. */
    function GetPiece(pieceId: int): (r: Result<PlayerPiece>)
      ensures r.Ok? <==> 0 <= pieceId < |pieces|
      ensures r.Ok? ==> r.value == pieces[pieceId]
      ensures r.Err? ==> r.error == IndexOutOfBounds
    {
      if 0 <= pieceId < |pieces| then Ok(pieces[pieceId]) else Err(IndexOutOfBounds)
    }
  }

  /** A registry seen through the set of ids one player may inspect;
      `None` stands for the source's `UNKNOWN` (null). */
  datatype PiecesInfoProxy = PiecesInfoProxy(accessibleIds: set<int>, realService: PiecesInfo) {

    function GetPiece(pieceId: int): Result<Option<PlayerPiece>> {
      if pieceId in accessibleIds then
        match realService.GetPiece(pieceId)
        case Ok(p) => Ok(Some(p))
        case Err(e) => Err(e)
      else Ok(None)
    }
  }

  /** An accessible id gets exactly the registry's answer, error included. */
  lemma ProxyForwardsAccessibleIds(proxy: PiecesInfoProxy, pieceId: int)
    requires pieceId in proxy.accessibleIds
    ensures proxy.GetPiece(pieceId).Ok? <==> 0 <= pieceId < |proxy.realService.pieces|
    ensures proxy.GetPiece(pieceId).Ok? ==> proxy.GetPiece(pieceId).value == Some(proxy.realService.pieces[pieceId])
    ensures proxy.GetPiece(pieceId).Err? ==> proxy.GetPiece(pieceId).error == IndexOutOfBounds
  {
  }

  /** An inaccessible id yields `UNKNOWN` and never raises, whatever the registry
      holds: two proxies with the same access set but different registries agree
      on it, so no hidden rank can be told apart. */
  lemma ProxyHidesInaccessibleIds(proxy: PiecesInfoProxy, other: PiecesInfo, pieceId: int)
    requires pieceId !in proxy.accessibleIds
    ensures proxy.GetPiece(pieceId) == Ok(None)
    ensures PiecesInfoProxy(proxy.accessibleIds, other).GetPiece(pieceId) == proxy.GetPiece(pieceId)
  {
  }
}
