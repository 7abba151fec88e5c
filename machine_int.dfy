/** 32-bit two's-complement integers and C++'s truncating division. */
module MachineInt {

  const MinInt32: int := -0x8000_0000
  const MaxInt32: int := 0x7fff_ffff

  const Two32: int := 0x1_0000_0000

  predicate InInt32(v: int) { MinInt32 <= v <= MaxInt32 }

  /** A mathematical integer reduced to the int with the same value modulo
      2^32. */
  function Wrap(x: int): (v: int)
    ensures InInt32(v)
    ensures InInt32(x) ==> v == x
    ensures (v - x) % Two32 == 0
  {
    (x - MinInt32) % Two32 + MinInt32
  }

  /** C++ integer division: the quotient truncated toward zero. */
  function TDiv(a: int, b: int): int
    requires b != 0
  {
    var q := Abs(a) / Abs(b);
    if (a < 0) == (b < 0) then q else -q
  }

  /** C++ remainder: a - b * (a / b), with the sign of the dividend. */
  function TMod(a: int, b: int): int
    requires b != 0
  {
    a - b * TDiv(a, b)
  }

  function Abs(a: int): nat { if a < 0 then -a else a }

  /** The remainder of a truncating division is the remainder of the
      magnitudes, with the sign of the dividend. */
  lemma TModMagnitude(a: int, b: int)
    requires b != 0
    ensures TMod(a, b) == if a < 0 then -(Abs(a) % Abs(b)) else Abs(a) % Abs(b)
  {
    var q := Abs(a) / Abs(b);
    var m := Abs(a) % Abs(b);
    assert Abs(a) == Abs(b) * q + m;
    if (a < 0) == (b < 0) {
      assert b * q == (if b < 0 then -(Abs(b) * q) else Abs(b) * q);
    } else {
      assert b * -q == (if b < 0 then Abs(b) * q else -(Abs(b) * q));
    }
  }

  /** Truncating division and remainder recompose the dividend, the
      remainder is smaller than the divisor and never has the opposite sign
      of the dividend. */
  lemma TruncatedDivision(a: int, b: int)
    requires b != 0
    ensures a == b * TDiv(a, b) + TMod(a, b)
    ensures Abs(TMod(a, b)) < Abs(b)
    ensures a >= 0 ==> TMod(a, b) >= 0
    ensures a <= 0 ==> TMod(a, b) <= 0
    ensures Abs(TDiv(a, b)) == Abs(a) / Abs(b)
  {
    TModBounds(a, b);
  }

  lemma TModBounds(a: int, b: int)
    requires b != 0
    ensures Abs(TMod(a, b)) < Abs(b)
    ensures a >= 0 ==> TMod(a, b) >= 0
    ensures a <= 0 ==> TMod(a, b) <= 0
  {
    TModMagnitude(a, b);
  }

  /** For non-negative operands truncating and Euclidean division agree. */
  lemma TruncatedIsEuclidean(a: int, b: int)
    requires a >= 0 && b > 0
    ensures TDiv(a, b) == a / b && TMod(a, b) == a % b
  {
    TModMagnitude(a, b);
  }

}
