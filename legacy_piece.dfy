/** The older piece enumeration and its combat table (untitled/src/core/Piece.java),
    which duplicates `PieceValue` without mobility and names the scout `P2`. */
module LegacyPieces {
  import PieceValues

  datatype Piece = Flag | Bomb | Spy | P2 | Miner | P4 | P5 | P6 | P7 | P8 | P9 | P10 {

    function Power(): int {
      match this
      case Flag => -1
      case Bomb => 20
      case Spy => 1
      case P2 => 2
      case Miner => 3
      case P4 => 4
      case P5 => 5
      case P6 => 6
      case P7 => 7
      case P8 => 8
      case P9 => 9
      case P10 => 10
    }

    /** The outcome, for this (attacking) piece, of attacking `defender`. */
    function Attacks(defender: Piece): PieceValues.Outcome {
      if defender == Flag then PieceValues.Wins
      else if this == Spy && defender == P10 then PieceValues.Wins
      else if this == Miner && defender == Bomb then PieceValues.Wins
      else if defender == Bomb then PieceValues.Loses
      else if Power() > defender.Power() then PieceValues.Wins
      else if Power() == defender.Power() then PieceValues.Draws
      else PieceValues.Loses
    }

    /** The name-for-name counterpart in the newer enumeration (`P2` is the scout). */
    function ToPieceValue(): (v: PieceValues.PieceValue)
      ensures v.Power() == Power()
    {
      match this
      case Flag => PieceValues.Flag
      case Bomb => PieceValues.Bomb
      case Spy => PieceValues.Spy
      case P2 => PieceValues.Scout
      case Miner => PieceValues.Miner
      case P4 => PieceValues.P4
      case P5 => PieceValues.P5
      case P6 => PieceValues.P6
      case P7 => PieceValues.P7
      case P8 => PieceValues.P8
      case P9 => PieceValues.P9
      case P10 => PieceValues.P10
    }
  }

  /** The translation is a bijection between the two enumerations. */
  lemma ToPieceValueIsBijective(a: Piece, b: Piece, v: PieceValues.PieceValue)
    ensures a.ToPieceValue() == b.ToPieceValue() ==> a == b
    ensures exists p: Piece :: p.ToPieceValue() == v
  {
    match v
    case Flag => assert Piece.Flag.ToPieceValue() == v;
    case Bomb => assert Piece.Bomb.ToPieceValue() == v;
    case Spy => assert Piece.Spy.ToPieceValue() == v;
    case Scout => assert Piece.P2.ToPieceValue() == v;
    case Miner => assert Piece.Miner.ToPieceValue() == v;
    case P4 => assert Piece.P4.ToPieceValue() == v;
    case P5 => assert Piece.P5.ToPieceValue() == v;
    case P6 => assert Piece.P6.ToPieceValue() == v;
    case P7 => assert Piece.P7.ToPieceValue() == v;
    case P8 => assert Piece.P8.ToPieceValue() == v;
    case P9 => assert Piece.P9.ToPieceValue() == v;
    case P10 => assert Piece.P10.ToPieceValue() == v;
  }

  /** The legacy table agrees with `PieceValue.attacks` on all 144 pairs. */
  lemma AttacksAgree(attacker: Piece, defender: Piece)
    ensures attacker.Attacks(defender) == attacker.ToPieceValue().Attacks(defender.ToPieceValue())
  {
  }
}
