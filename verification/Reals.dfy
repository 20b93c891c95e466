/** Products of reals behind a name, so that proofs unfold them only where they must. */
module Reals {

  function Mul(x: real, y: real): real {
    x * y
  }

  function Square(x: real): real {
    Mul(x, x)
  }

  lemma MulUnits(x: real)
    ensures Mul(0.0, x) == 0.0 && Mul(x, 0.0) == 0.0 && Mul(1.0, x) == x && Mul(x, 1.0) == x
  {
  }

  lemma MulCommutes(x: real, y: real)
    ensures Mul(x, y) == Mul(y, x)
  {
  }

  lemma MulAssociates(x: real, y: real, z: real)
    ensures Mul(Mul(x, y), z) == Mul(x, Mul(y, z))
  {
  }

  lemma MulAdds(x: real, y: real, z: real)
    ensures Mul(x + y, z) == Mul(x, z) + Mul(y, z)
    ensures Mul(z, x + y) == Mul(z, x) + Mul(z, y)
  {
  }

  lemma MulSubtracts(x: real, y: real, z: real)
    ensures Mul(x - y, z) == Mul(x, z) - Mul(y, z)
    ensures Mul(z, x - y) == Mul(z, x) - Mul(z, y)
  {
  }

  lemma MulPositive(x: real, y: real)
    requires x > 0.0 && y > 0.0
    ensures Mul(x, y) > 0.0
  {
  }

  lemma MulNonNegative(x: real, y: real)
    requires x >= 0.0 && y >= 0.0
    ensures Mul(x, y) >= 0.0
  {
  }

  /** Multiplying by a positive factor keeps and reflects the order. */
  lemma MulOrder(x: real, y: real, k: real)
    requires k > 0.0
    ensures x < y <==> Mul(x, k) < Mul(y, k)
    ensures x < y <==> Mul(k, x) < Mul(k, y)
  {
    hide Mul;
    MulSubtracts(y, x, k);
    MulSubtracts(x, y, k);
    MulCommutes(x, k);
    MulCommutes(y, k);
    if x < y { MulPositive(y - x, k); }
    if y < x { MulPositive(x - y, k); }
  }

  lemma MulMonotone(x: real, y: real, k: real)
    requires x <= y && k >= 0.0
    ensures Mul(x, k) <= Mul(y, k) && Mul(k, x) <= Mul(k, y)
  {
    hide Mul;
    MulSubtracts(y, x, k);
    MulNonNegative(y - x, k);
    MulCommutes(x, k);
    MulCommutes(y, k);
  }

  lemma DivTimes(x: real, y: real)
    requires y != 0.0
    ensures Mul(x / y, y) == x && Mul(y, x / y) == x
  {
  }

  // ---- Squares ----

  lemma SquareNonNegative(x: real)
    ensures Square(x) >= 0.0
    ensures Square(0.0 - x) == Square(x)
  {
    hide Mul;
    MulSubtracts(0.0, x, x);
    MulSubtracts(0.0, x, 0.0 - x);
    MulUnits(x);
    MulUnits(0.0 - x);
    if x >= 0.0 { MulNonNegative(x, x); } else { MulNonNegative(0.0 - x, 0.0 - x); }
  }

  lemma SquareProduct(x: real, y: real)
    ensures Square(Mul(x, y)) == Mul(Square(x), Square(y))
  {
    hide Mul;
    MulAssociates(x, y, Mul(x, y));
    MulCommutes(x, y);
    MulAssociates(y, y, x);
    MulAssociates(x, x, Mul(y, y));
    MulCommutes(x, Mul(y, y));
  }

  lemma SquareSum(x: real, y: real)
    ensures Square(x + y) == Square(x) + 2.0 * Mul(x, y) + Square(y)
  {
    hide Mul;
    MulAdds(x, y, x + y);
    MulAdds(x, y, x);
    MulAdds(x, y, y);
    MulCommutes(x, y);
  }

  lemma SquareDifference(x: real, y: real)
    ensures Square(x - y) == Square(x) - 2.0 * Mul(x, y) + Square(y)
  {
    hide Mul;
    MulSubtracts(x, y, x - y);
    MulSubtracts(x, y, x);
    MulSubtracts(x, y, y);
    MulCommutes(x, y);
  }

  lemma SquareOrder(x: real, y: real)
    requires x >= 0.0 && y >= 0.0
    ensures x < y <==> Square(x) < Square(y)
  {
    hide Mul;
    if x < y {
      MulMonotone(x, y, x);
      MulOrder(x, y, y);
    } else {
      MulMonotone(y, x, y);
      MulMonotone(y, x, x);
    }
  }
}
