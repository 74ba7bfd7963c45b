/** Board coordinates and moves: the value types `Coords` and `Action`
    (untitled/src/core/utils/Coords.java, untitled/src/core/utils/Action.java). */
module Geometry {

  /** A position on the board: column `x`, row `y`. */
  datatype Coords = Coords(x: int, y: int) {

    /** Component-wise vector addition. */
    function Add(other: Coords): (r: Coords)
      ensures r.x - x == other.x && r.y - y == other.y
    {
      Coords(x + other.x, y + other.y)
    }

    /** Field-wise comparison, as `Coords.equals` does it. */
    predicate Equals(other: Coords) {
      x == other.x && y == other.y
    }

    /** Opposite vector. */
    function Negate(): Coords {
      Coords(-x, -y)
    }
  }

  const Origin := Coords(0, 0)

  /** A single move of a piece from one square to another. */
  datatype Action = Action(from: Coords, to: Coords) {

    /** Field-wise comparison, as `Action.equals` does it (each side compared with `Coords.equals`). */
    predicate Equals(other: Action) {
      from.Equals(other.from) && to.Equals(other.to)
    }
  }

  /** `Coords.equals` is exactly value equality. */
  lemma CoordsEqualsIsEquality(a: Coords, b: Coords)
    ensures a.Equals(b) <==> a == b
  {
  }

  /** `Action.equals` is exactly value equality, hence reflexive, symmetric and transitive. */
  lemma ActionEqualsIsEquality(a: Action, b: Action)
    ensures a.Equals(b) <==> a == b
    ensures a.Equals(a)
    ensures a.Equals(b) ==> b.Equals(a)
  {
  }

  lemma ActionEqualsTransitive(a: Action, b: Action, c: Action)
    requires a.Equals(b) && b.Equals(c)
    ensures a.Equals(c)
  {
  }

  /** `add` is commutative and associative, with `(0,0)` as its identity. */
  lemma AddIsCommutativeMonoid(a: Coords, b: Coords, c: Coords)
    ensures a.Add(b) == b.Add(a)
    ensures a.Add(b).Add(c) == a.Add(b.Add(c))
    ensures a.Add(Origin) == a && Origin.Add(a) == a
  {
  }

  /** Stepping along a direction and then back returns to the start. */
  lemma AddThenNegate(a: Coords, dir: Coords)
    ensures a.Add(dir).Add(dir.Negate()) == a
  {
  }
}
