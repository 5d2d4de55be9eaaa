/**
  The two pieces of Python arithmetic the core relies on, over exact reals:
  the floor modulus `x % 360` (the remainder takes the sign of the divisor)
  and `round`, which rounds half to even.
 */
module PyMath {

  /** x is a whole number. */
  predicate IsWhole(x: real) {
    x.Floor as real == x
  }

  /** Python's `x % 360`: the remainder in [0, 360) of x modulo 360. */
  function Mod360(x: real): (r: real)
    ensures 0.0 <= r < 360.0
    ensures IsWhole((x - r) / 360.0)
  {
    x - 360.0 * (x / 360.0).Floor as real
  }

  /** Any value in [0, 360) that differs from x by a whole number of turns is x % 360. */
  lemma Mod360Unique(x: real, r: real, turns: int)
    requires 0.0 <= r < 360.0
    requires x == r + 360.0 * turns as real
    ensures Mod360(x) == r
  {
    assert x / 360.0 == r / 360.0 + turns as real;
    assert (x / 360.0).Floor == turns;
  }

  /** `(x + 360) % 360 == x % 360`. */
  lemma Mod360Periodic(x: real)
    ensures Mod360(x + 360.0) == Mod360(x)
  {
    var k := (x / 360.0).Floor;
    Mod360Unique(x + 360.0, Mod360(x), k + 1);
  }

  /** A value already in [0, 360) is its own remainder. */
  lemma Mod360Fixed(x: real)
    requires 0.0 <= x < 360.0
    ensures Mod360(x) == x
  {
    Mod360Unique(x, x, 0);
  }

  /** Shifting by 15 degrees before taking the remainder, as the clock helpers do. */
  lemma Mod360Shift15(a: real)
    ensures Mod360(a + 15.0) == if Mod360(a) < 345.0 then Mod360(a) + 15.0 else Mod360(a) - 345.0
  {
    var k := (a / 360.0).Floor;
    if Mod360(a) < 345.0 {
      Mod360Unique(a + 15.0, Mod360(a) + 15.0, k);
    } else {
      Mod360Unique(a + 15.0, Mod360(a) - 345.0, k + 1);
    }
  }

  /**
    Python's `round(x)` on a float: the nearest integer, and on a tie
    (x exactly halfway between two integers) the even one.
   */
  function RoundHalfEven(x: real): (n: int)
    ensures -0.5 <= n as real - x <= 0.5
    ensures (n as real - x == 0.5 || x - n as real == 0.5) ==> n % 2 == 0
  {
    var f := x.Floor;
    var frac := x - f as real;
    if frac < 0.5 then f
    else if frac > 0.5 then f + 1
    else if f % 2 == 0 then f
    else f + 1
  }

  /** An integer strictly nearer than one half to x is what `round` gives. */
  lemma RoundHalfEvenNearest(x: real, n: int)
    requires -0.5 < n as real - x < 0.5
    ensures RoundHalfEven(x) == n
  {
  }

  /** On a tie, `round` picks the even neighbour. */
  lemma RoundHalfEvenTie(k: int)
    ensures RoundHalfEven(k as real + 0.5) == if k % 2 == 0 then k else k + 1
  {
  }

  /**
    Python's `round(x, 1)` on the exact value: x rounded to one decimal place,
    ties to even.
   */
  function Round1(x: real): (r: real)
    ensures -0.05 <= r - x <= 0.05
    ensures IsWhole(r * 10.0)
    ensures (r - x == 0.05 || x - r == 0.05) ==> (r * 10.0).Floor % 2 == 0
  {
    var n := RoundHalfEven(x * 10.0);
    assert (n as real / 10.0) * 10.0 == n as real;
    n as real / 10.0
  }

  /** Halfway cases that binary floats hold exactly: 0.25 rounds down to 0.2 and 0.75 up to 0.8, the even tenths. */
  lemma Round1Ties()
    ensures Round1(0.25) == 0.2
    ensures Round1(0.75) == 0.8
  {
    RoundHalfEvenTie(2);
    RoundHalfEvenTie(7);
  }
}
