/** The value type of board coordinates (`GridPosition`) and its equality members. */
module Positions {
  datatype GridPosition = GridPosition(x: int, y: int)

  /** `GridPosition.zero`. */
  const Zero: GridPosition := GridPosition(0, 0)

  /** What `Equals(object)` may receive: a boxed position or any other object. */
  datatype Boxed = BoxedPosition(position: GridPosition) | OtherObject

  /** `Equals(GridPosition)`: field-wise comparison, which is exactly value equality. */
  predicate Equals(a: GridPosition, b: GridPosition): (r: bool)
    ensures r <==> a == b
  {
    a.x == b.x && a.y == b.y
  }

  /** `operator ==`: delegates to `Equals`. */
  predicate OpEquality(left: GridPosition, right: GridPosition): (r: bool)
    ensures r <==> Equals(left, right)
  {
    Equals(left, right)
  }

  /** `operator !=`: the negation of `==`. */
  predicate OpInequality(left: GridPosition, right: GridPosition): (r: bool)
    ensures r <==> left != right
    ensures r <==> !OpEquality(left, right)
  {
    !OpEquality(left, right)
  }

  /** `Equals(object)`: only a boxed position with equal fields is equal. */
  predicate EqualsObject(a: GridPosition, obj: Boxed): (r: bool)
    ensures r <==> obj == BoxedPosition(a)
  {
    obj.BoxedPosition? && Equals(a, obj.position)
  }

  /** `GetHashCode` combines only X and Y; `combine` stands for `HashCode.Combine`,
      whatever it computes. Equal positions therefore hash alike. */
  function HashCode(combine: (int, int) -> int, p: GridPosition): int {
    combine(p.x, p.y)
  }

  lemma EqualPositionsHashAlike(combine: (int, int) -> int, a: GridPosition, b: GridPosition)
    requires Equals(a, b)
    ensures HashCode(combine, a) == HashCode(combine, b)
  {
  }

  /** `Equals` is an equivalence relation. */
  lemma EqualsIsEquivalence(a: GridPosition, b: GridPosition, c: GridPosition)
    ensures Equals(a, a)
    ensures Equals(a, b) ==> Equals(b, a)
    ensures Equals(a, b) && Equals(b, c) ==> Equals(a, c)
  {
  }

  lemma ZeroIsOrigin()
    ensures Equals(Zero, GridPosition(0, 0)) && Zero.x == 0 && Zero.y == 0
  {
  }
}
