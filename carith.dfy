/** Integer arithmetic as C performs it on `int`, where Dafny's own operators differ. */
module CArith {

  function Abs(x: int): nat
  {
    if x < 0 then -x else x
  }

  /** Euclidean division of a non-negative number by a positive one is non-negative. */
  lemma DivNonNeg(x: int, y: int)
    requires x >= 0 && y > 0
    ensures x / y >= 0
  {
  }

  /** C's `/`: the quotient truncated toward zero (Dafny's `/` is Euclidean). */
  function CDiv(a: int, b: int): (q: int)
    requires b != 0
    ensures Abs(q) == Abs(a) / Abs(b)
    ensures q != 0 ==> (q > 0 <==> (a > 0) == (b > 0))
  {
    DivNonNeg(Abs(a), Abs(b));
    var m := Abs(a) / Abs(b);
    if (a >= 0) == (b > 0) then m else -m
  }

  /** A truncating quotient is zero exactly when the dividend is smaller in magnitude. */
  lemma CDivZeroIff(a: int, b: int)
    requires b != 0
    ensures CDiv(a, b) == 0 <==> Abs(a) < Abs(b)
  {
    if Abs(a) >= Abs(b) {
      assert Abs(a) / Abs(b) >= 1;
    }
  }
}
