/** Piece ranks with their combat power and mobility, and the combat table
    (untitled/src/core/utils/PieceValue.java). */
module PieceValues {

  /** `Integer.MAX_VALUE`, the range given to the scout. */
  const IntMax: int := 0x7FFF_FFFF

  /** The twelve ranks, in the order the source declares them. */
  datatype PieceValue = Flag | Bomb | Spy | Scout | Miner | P4 | P5 | P6 | P7 | P8 | P9 | P10 {

    /** Strength used by the generic comparison. */
    function Power(): int {
      match this
      case Flag => -1
      case Bomb => 20
      case Spy => 1
      case Scout => 2
      case Miner => 3
      case P4 => 4
      case P5 => 5
      case P6 => 6
      case P7 => 7
      case P8 => 8
      case P9 => 9
      case P10 => 10
    }

    /** The number of squares the piece may traverse in one move. */
    function MaxRange(): int {
      match this
      case Flag => 0
      case Bomb => 0
      case Scout => IntMax
      case _ => 1
    }

    /** The outcome, for this (attacking) piece, of attacking `defender`. */
    function Attacks(defender: PieceValue): Outcome {
      if defender == Flag then Wins
      else if this == Spy && defender == P10 then Wins
      else if this == Miner && defender == Bomb then Wins
      else if defender == Bomb then Loses
      else if Power() > defender.Power() then Wins
      else if Power() == defender.Power() then Draws
      else Loses
    }
  }

  /** The outcome of a battle, from the attacker's side. */
  datatype Outcome = Wins | Draws | Loses

  /** Rule 1: anyone captures the flag. */
  lemma FlagIsAlwaysCaptured(attacker: PieceValue)
    ensures attacker.Attacks(Flag) == Wins
  {
  }

  /** Rules 2 and 3: the spy beats the marshal, the miner defuses the bomb. */
  lemma SpecialWins()
    ensures Spy.Attacks(P10) == Wins
    ensures Miner.Attacks(Bomb) == Wins
  {
  }

  /** Rule 4: every attacker other than the miner dies on a bomb. */
  lemma BombBeatsNonMiners(attacker: PieceValue)
    requires attacker != Miner
    ensures attacker.Attacks(Bomb) == Loses
  {
  }

  /** Rule 5: outside the special cases, the greater power wins. */
  lemma GenericComparison(attacker: PieceValue, defender: PieceValue)
    requires defender != Flag && defender != Bomb
    requires !(attacker == Spy && defender == P10)
    ensures attacker.Attacks(defender) == Wins <==> attacker.Power() > defender.Power()
    ensures attacker.Attacks(defender) == Draws <==> attacker.Power() == defender.Power()
    ensures attacker.Attacks(defender) == Loses <==> attacker.Power() < defender.Power()
  {
  }

  /** No two ranks share a power value. */
  lemma PowerIsInjective(a: PieceValue, b: PieceValue)
    ensures a.Power() == b.Power() <==> a == b
  {
  }

  /** A battle is a draw exactly between two equal ranks, other than flags and bombs. */
  lemma DrawsIffSameRank(attacker: PieceValue, defender: PieceValue)
    ensures attacker.Attacks(defender) == Draws <==> attacker == defender && defender != Flag && defender != Bomb
  {
    PowerIsInjective(attacker, defender);
  }

  /** Between two ordinary ranks the table is antisymmetric: whoever wins one way loses the other way. */
  lemma OrdinaryBattlesAreAntisymmetric(a: PieceValue, b: PieceValue)
    requires a != Flag && a != Bomb && b != Flag && b != Bomb
    requires !(a == Spy && b == P10) && !(a == P10 && b == Spy)
    ensures a.Attacks(b) == Wins <==> b.Attacks(a) == Loses
    ensures a.Attacks(b) == Draws <==> b.Attacks(a) == Draws
  {
  }

  /** Mobility table: flag and bomb never move, the scout is unbounded, all others move one square. */
  lemma MaxRangeTable(v: PieceValue)
    ensures v.MaxRange() == 0 <==> v == Flag || v == Bomb
    ensures v.MaxRange() == IntMax <==> v == Scout
    ensures v != Flag && v != Bomb && v != Scout ==> v.MaxRange() == 1
  {
  }

  /** The scout is the piece with the highest mobility in the game. */
  lemma ScoutHasHighestMobility(v: PieceValue)
    ensures 0 <= v.MaxRange() <= Scout.MaxRange()
  {
  }
}
