/** A piece on the board: a rank bound to its owner
    (untitled/src/core/utils/PlayerPiece.java). */
module PlayerPieces {
  import opened PieceValues
  import opened BoardState

  /** The two players; `Red` moves first by default. */
  datatype PlayerId = Red | Blue

  /** An immutable piece: the constructor stores both fields unchanged. */
  datatype PlayerPiece = PlayerPiece(ownerId: PlayerId, value: PieceValue) {

    /** `attacks` as the code is written: it resolves the battle only when both
        pieces have the SAME owner and refuses it otherwise. */
    function AttacksAsWritten(defender: PlayerPiece): Result<Outcome> {
      if ownerId == defender.ownerId then Ok(value.Attacks(defender.value))
      else Err(IllegalArgument)
    }

    /** `attacks` as documented: refused when both pieces belong to the same team,
        otherwise the rank table decides. */
    function Attacks(defender: PlayerPiece): Result<Outcome> {
      if ownerId == defender.ownerId then Err(IllegalArgument)
      else Ok(value.Attacks(defender.value))
    }
  }

  /** The documented contract: a battle is resolved exactly between opposing
      pieces, by the rank table. */
  lemma AttacksResolvesOpposingPieces(attacker: PlayerPiece, defender: PlayerPiece)
    ensures attacker.Attacks(defender).Err? <==> attacker.ownerId == defender.ownerId
    ensures attacker.ownerId != defender.ownerId ==>
              attacker.Attacks(defender) == Ok(attacker.value.Attacks(defender.value))
  {
  }

  /** The code's condition is the exact negation of the documented one: it
      refuses every battle between opponents and resolves every battle between
      team mates. */
  lemma AttacksAsWrittenIsInverted(attacker: PlayerPiece, defender: PlayerPiece)
    ensures attacker.AttacksAsWritten(defender).Err? <==> attacker.Attacks(defender).Ok?
    ensures attacker.ownerId == defender.ownerId ==>
              attacker.AttacksAsWritten(defender) == Ok(attacker.value.Attacks(defender.value))
  {
  }

  /** Concrete witness: a red spy attacking the blue marshal is refused by the code. */
  lemma AttacksAsWrittenRefusesRealBattle()
    ensures PlayerPiece(Red, Spy).AttacksAsWritten(PlayerPiece(Blue, P10)) == Err(IllegalArgument)
    ensures PlayerPiece(Red, Spy).Attacks(PlayerPiece(Blue, P10)) == Ok(Wins)
  {
  }
}
