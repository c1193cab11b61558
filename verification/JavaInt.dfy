/** 32-bit integers of the Java language: arithmetic wraps around, division and remainder go toward zero. */
module JavaInt {
  function Wrap(n: int): int {
    (n + 0x8000_0000) % 0x1_0000_0000 - 0x8000_0000
  }

  function Quotient(a: int, b: int): int
    requires b > 0
  {
    if a >= 0 then a / b else -((-a) / b)
  }

  function Remainder(a: int, b: int): int
    requires b > 0
  {
    if a >= 0 then a % b else -((-a) % b)
  }

  /** Wrapping gives the 32-bit number that differs by whole turns. */
  lemma WrapIs(n: int) returns (turns: int)
    ensures -0x8000_0000 <= Wrap(n) < 0x8000_0000 && Wrap(n) == n + turns * 0x1_0000_0000
  {
    turns := -((n + 0x8000_0000) / 0x1_0000_0000);
  }

  /** A quotient and a remainder: the remainder is smaller than the divisor and has the sign of the dividend. */
  predicate IsDivision(a: int, b: int, q: int, r: int) {
    a == b * q + r && -b < r < b && (a >= 0 ==> r >= 0) && (a <= 0 ==> r <= 0)
  }

  lemma DivisionIs(a: int, b: int, q: int, r: int)
    requires b > 0
    ensures IsDivision(a, b, q, r) <==> q == Quotient(a, b) && r == Remainder(a, b)
  {
    if a >= 0 {
      Divides(a, b, q, r);
    } else {
      Divides(-a, b, -q, -r);
      assert b * -q == -(b * q);
    }
  }

  lemma SmallMultiple(b: int, d: int)
    requires -b < b * d < b
    ensures d == 0
  {
  }

  lemma Divides(a: nat, b: int, q: int, r: int)
    requires b > 0
    ensures a == b * q + r && 0 <= r < b <==> q == a / b && r == a % b
  {
    if a == b * q + r && 0 <= r < b {
      assert b * (a / b - q) == r - a % b;
      SmallMultiple(b, a / b - q);
    }
  }

  lemma WrapAdds(a: int, b: int)
    ensures Wrap(Wrap(a) + b) == Wrap(a + b) && Wrap(a + Wrap(b)) == Wrap(a + b)
  {
  }

  /** One factor and one addend may be wrapped before or after. */
  lemma WrapScales(x: int, c: int)
    ensures Wrap(31 * Wrap(x) + c) == Wrap(31 * x + c)
  {
    var q := (x + 0x8000_0000) / 0x1_0000_0000;
    assert Wrap(x) == x - q * 0x1_0000_0000;
    var y := 31 * x + c + 0x8000_0000;
    assert 31 * Wrap(x) + c + 0x8000_0000 == y - 31 * q * 0x1_0000_0000;
    WrapShifts(y, -31 * q);
  }

  lemma WrapShifts(y: int, k: int)
    ensures (y + k * 0x1_0000_0000) % 0x1_0000_0000 == y % 0x1_0000_0000
  {
  }
}
