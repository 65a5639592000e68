/** Go's `int64` arithmetic on unbounded integers: two's-complement wrap-around for `+`, `-`,
    `*` and negation, and division that truncates toward zero. */
module Int64 {
  const MinInt64: int := -0x8000_0000_0000_0000
  const MaxInt64: int := 0x7fff_ffff_ffff_ffff
  const Modulus: int := 0x1_0000_0000_0000_0000

  predicate InInt64(n: int) {
    MinInt64 <= n <= MaxInt64
  }

  /** The int64 that x wraps to: the one congruent to x modulo 2^64. */
  function Wrap(x: int): (r: int)
    ensures InInt64(r)
    ensures InInt64(x) ==> r == x
  {
    (x - MinInt64) % Modulus + MinInt64
  }

  /** Wrap-around changes a value by a multiple of 2^64. */
  lemma WrapCongruent(x: int)
    ensures (Wrap(x) - x) % Modulus == 0
  {
    var k := (x - MinInt64) / Modulus;
    assert x - MinInt64 == k * Modulus + (x - MinInt64) % Modulus;
    assert Wrap(x) - x == -k * Modulus;
  }

  /** Go's `/` on integers: the quotient rounded toward zero. Its magnitude is the number
      of whole times |b| fits in |a| (`DivBounds`), and it is negative only when the signs
      differ. */
  function TruncDiv(a: int, b: int): (r: int)
    requires b != 0
    ensures Abs(r) == Abs(a) / Abs(b)
    ensures r < 0 ==> (a < 0) != (b < 0)
    ensures r > 0 ==> (a < 0) == (b < 0)
  {
    DivBounds(Abs(a), Abs(b));
    var q := Abs(a) / Abs(b);
    if (a < 0) != (b < 0) then -q else q
  }

  /** The quotient of naturals: the number of whole times y fits in x. */
  lemma DivBounds(x: nat, y: nat)
    requires y > 0
    ensures 0 <= x / y && (x / y) * y <= x < (x / y + 1) * y
  {
    DivMod(x, y);
    assert (x / y + 1) * y == (x / y) * y + y;
  }

  function Abs(x: int): nat {
    if x < 0 then -x else x
  }

  /** The remainder left by truncating division has the sign of the dividend and is smaller
      than the divisor in magnitude; the quotient never exceeds the exact one in magnitude. */
  lemma TruncDivSpec(a: int, b: int)
    requires b != 0
    ensures var r := a - TruncDiv(a, b) * b;
      Abs(r) < Abs(b) && (r == 0 || (r < 0 <==> a < 0)) && Abs(TruncDiv(a, b) * b) <= Abs(a)
  {
    var q := Abs(a) / Abs(b);
    var m := Abs(a) % Abs(b);
    var p := q * Abs(b);
    DivMod(Abs(a), Abs(b));
    assert TruncDiv(a, b) * b == (if a < 0 then -p else p) by {
      MulSign(q, Abs(b));
    }
  }

  lemma DivMod(x: nat, y: nat)
    requires y > 0
    ensures x == (x / y) * y + x % y && 0 <= x % y < y && (x / y) * y >= 0
  {
  }

  lemma MulSign(x: int, y: int)
    ensures (-x) * y == -(x * y) && x * (-y) == -(x * y) && (-x) * (-y) == x * y
  {
  }

  /** The one quotient that overflows: MinInt64 / -1 wraps back to MinInt64. */
  lemma DivOverflow()
    ensures Wrap(TruncDiv(MinInt64, -1)) == MinInt64
  {
    assert TruncDiv(MinInt64, -1) == -MinInt64;
  }
}
