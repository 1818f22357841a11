/** Python's round on exact decimals: to the nearest multiple of a power of ten, ties to even. */
module Rounding {
  function RoundHalfEven(x: real): int {
    var f := x.Floor;
    var d := x - f as real;
    if d < 0.5 || (d == 0.5 && f % 2 == 0) then f else f + 1
  }

  function Round1(x: real): real {
    RoundHalfEven(x * 10.0) as real / 10.0
  }

  function Round2(x: real): real {
    RoundHalfEven(x * 100.0) as real / 100.0
  }

  function Round6(x: real): real {
    RoundHalfEven(x * 1000000.0) as real / 1000000.0
  }

  lemma RoundHalfEvenMonotone(x: real, y: real)
    requires x <= y
    ensures RoundHalfEven(x) <= RoundHalfEven(y)
  {}

  /** Reflection in an even total: ties stay ties and parity is kept. */
  lemma RoundHalfEvenReflects(x: real, total: int)
    requires total % 2 == 0
    ensures RoundHalfEven(total as real - x) == total - RoundHalfEven(x)
  {
    var f := x.Floor;
    if x == f as real {
      assert (total as real - x).Floor == total - f;
    } else {
      assert (total as real - x).Floor == total - f - 1;
    }
  }

  lemma Round1Monotone(x: real, y: real)
    requires x <= y
    ensures Round1(x) <= Round1(y)
  {
    RoundHalfEvenMonotone(x * 10.0, y * 10.0);
  }

  /** Rounding to one digit fixes tenths. */
  lemma Round1Fixes(tenths: int)
    ensures Round1(tenths as real / 10.0) == tenths as real / 10.0
  {
    assert tenths as real / 10.0 * 10.0 == tenths as real;
  }

  lemma Round6Reflects(x: real, total: int)
    ensures Round6(total as real - x) == total as real - Round6(x)
  {
    ReflectScaled(x * 1000000.0, (total as real - x) * 1000000.0, total);
  }

  lemma ReflectScaled(y: real, z: real, total: int)
    requires z == (total * 1000000) as real - y
    ensures RoundHalfEven(z) as real / 1000000.0 == total as real - RoundHalfEven(y) as real / 1000000.0
  {
    Even(total);
    RoundHalfEvenReflects(y, total * 1000000);
    Scaled(RoundHalfEven(y), RoundHalfEven(z), total);
  }

  lemma Even(total: int)
    ensures (total * 1000000) % 2 == 0
  {}

  lemma Scaled(r: int, reflected: int, total: int)
    requires reflected == total * 1000000 - r
    ensures reflected as real / 1000000.0 == total as real - r as real / 1000000.0
  {}
}
