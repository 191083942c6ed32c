/** The rounding macros of gemmini_params.h, over exact reals, and the output stage of gemmini.h. */
module Rounding {
  import opened Params
  import opened Powers

  datatype Activation = NoActivation | Relu

  function Trunc(x: real): int { if x < 0.0 then -((-x).Floor) else x.Floor }
  function Abs(x: real): real { if x < 0.0 then -x else x }

  function RoundNearEven(x: real): int {
    var i := Trunc(x);
    var next := Trunc(if x < 0.0 then x - 1.0 else x + 1.0);
    var rem := Abs(x - i as real);
    if rem < 0.5 then i else if rem > 0.5 then next else if i % 2 == 0 then i else next
  }

  /** y is the integer nearest to x, the even one if two are equally near. */
  predicate NearestEven(x: real, y: int) {
    var d := x - y as real;
    -0.5 <= d <= 0.5 && (d == -0.5 || d == 0.5 ==> y % 2 == 0)
  }

  lemma RoundNearEvenIsNearest(x: real)
    ensures NearestEven(x, RoundNearEven(x))
  {
    if x < 0.0 {
      assert (-(x - 1.0)).Floor == (-x).Floor + 1;
    } else {
      assert (x + 1.0).Floor == x.Floor + 1;
    }
  }

  lemma NearestEvenIsUnique(x: real, y: int, z: int)
    requires NearestEven(x, y) && NearestEven(x, z)
    ensures y == z
  {
    assert -1.0 <= (y - z) as real <= 1.0;
  }

  lemma RoundNearEvenMonotone(x: real, y: real)
    requires x <= y
    ensures RoundNearEven(x) <= RoundNearEven(y)
  {
    RoundNearEvenIsNearest(x);
    RoundNearEvenIsNearest(y);
    var p, q := RoundNearEven(x), RoundNearEven(y);
    assert p as real <= x + 0.5 && y + 0.5 <= q as real + 1.0;
    assert x != y ==> (p as real) < (q + 1) as real;
  }

  lemma RoundNearEvenFixesIntegers(n: int)
    ensures RoundNearEven(n as real) == n
  {
    RoundNearEvenIsNearest(n as real);
    NearestEvenIsUnique(n as real, RoundNearEven(n as real), n);
  }

  // ---- ROUNDING_RIGHT_SHIFT ----

  /** The macro on a two's complement x: `>>` floors, `& 1` is parity and `& (2^n - 1)` the
      remainder modulo 2^n. */
  function RoundingRightShift(x: int, shift: int): int {
    if shift > 0 then
      var half := (x / Pow2(shift - 1)) % 2;
      var sticky := if shift <= 1 then 0 else x % Pow2(shift - 1);
      var q := x / Pow2(shift);
      q + if half == 1 && (sticky != 0 || q % 2 == 1) then 1 else 0
    else x * Pow2(-shift)
  }

  lemma SplitShift(x: int, shift: nat)
    requires shift >= 1
    ensures var h := Pow2(shift - 1);
            var q := x / Pow2(shift);
            x == q * Pow2(shift) + x / h % 2 * h + x % h && 0 <= x / h % 2 <= 1 && q == x / h / 2
  {
    var h := Pow2(shift - 1);
    var y := x / h;
    assert x == y * h + x % h;
    assert y == y / 2 * 2 + y % 2;
    assert x == y / 2 * (2 * h) + (y % 2 * h + x % h) by {
      assert y * h == (y / 2 * 2 + y % 2) * h;
    }
    MulMono(0, y % 2, h);
    MulMono(y % 2, 1, h);
    DivModUnique(x, 2 * h, y / 2, y % 2 * h + x % h);
  }

  lemma RealMulMono(a: real, b: real, d: real)
    requires a <= b && 0.0 <= d
    ensures a * d <= b * d
  {
    assert (b - a) * d >= 0.0;
  }

  lemma HalfBound(e: real, d: real, f: real)
    requires 0.0 < d && e * d == f && -d <= 2.0 * f <= d
    ensures -0.5 <= e <= 0.5
    ensures e == 0.5 ==> 2.0 * f == d
    ensures e == -0.5 ==> 2.0 * f == -d
  {
    var a, b := e - 0.5, e + 0.5;
    assert a * d == f - 0.5 * d;
    assert b * d == f + 0.5 * d;
    assert a > 0.0 ==> a * d > 0.0;
    assert b < 0.0 ==> b * d < 0.0;
  }

  /** Nearness of an integer to a quotient, without the division. */
  lemma NearestQuotient(x: int, d: int, y: int, f: int)
    requires d > 0 && x == y * d + f && -d <= 2 * f <= d
    requires 2 * f == d || 2 * f == -d ==> y % 2 == 0
    ensures NearestEven(x as real / d as real, y)
  {
    var v, dr := x as real / d as real, d as real;
    assert v * dr == x as real;
    assert (y * d) as real == y as real * dr;
    var e := v - y as real;
    assert e * dr == v * dr - y as real * dr;
    HalfBound(e, dr, f as real);
  }

  lemma RoundParts(x: int, h: int, q: int, b: int, low: int, r: int)
    requires x == q * (2 * h) + b * h + low && 0 <= b <= 1 && 0 <= low < h
    requires r == q + if b == 1 && (low != 0 || q % 2 == 1) then 1 else 0
    ensures NearestEven(x as real / (2 * h) as real, r)
  {
    var rest := if b == 1 then h + low else low;
    assert x == q * (2 * h) + rest;
    if r == q {
      NearestQuotient(x, 2 * h, r, rest);
    } else {
      assert (q + 1) * (2 * h) == q * (2 * h) + 2 * h;
      NearestQuotient(x, 2 * h, r, rest - 2 * h);
    }
  }

  /** For every signed x and every shift >= 1 the macro rounds x / 2^shift to nearest, ties to
      even: rounding mode rne of section 3.8 of the RISC-V "V" Vector Extension 1.0. */
  lemma RoundingRightShiftIsNearest(x: int, shift: nat)
    requires shift >= 1
    ensures NearestEven(x as real / Pow2(shift) as real, RoundingRightShift(x, shift))
  {
    SplitShift(x, shift);
    var h := Pow2(shift - 1);
    assert shift <= 1 ==> x % h == 0;
    RoundParts(x, h, x / Pow2(shift), x / h % 2, x % h, RoundingRightShift(x, shift));
  }

  /** The integer macro and the real one agree on the exact quotient. */
  lemma ShiftAgreesWithRound(x: int, shift: nat)
    requires shift >= 1
    ensures RoundingRightShift(x, shift) == RoundNearEven(x as real / Pow2(shift) as real)
  {
    var v := x as real / Pow2(shift) as real;
    RoundingRightShiftIsNearest(x, shift);
    RoundNearEvenIsNearest(v);
    NearestEvenIsUnique(v, RoundingRightShift(x, shift), RoundNearEven(v));
  }

  // ---- scaling and saturation ----

  function Clip(x: int): (y: int)
    ensures IsElem(y) && (IsElem(x) ==> y == x)
  { if x > ELEM_MAX then ELEM_MAX else if x < ELEM_MIN then ELEM_MIN else x }

  function AccScale(x: int, scale: real): int { Clip(RoundNearEven(x as real * scale)) }
  function MvinScale(x: int, scale: real): int { Clip(RoundNearEven(x as real * scale)) }

  /** `scale_and_sat` for the activations that do not normalise and are not I-GELU. */
  function ScaleAndSat(x: int, act: Activation, scale: real): (y: int)
    ensures IsElem(y) && (act == Relu ==> 0 <= y)
  {
    var y := Clip(AccScale(x, scale));
    if act == Relu && y < 0 then 0 else y
  }

  predicate IsElem(x: int) { ELEM_MIN <= x <= ELEM_MAX }

  /** The three stages in numbers. For every r that is x * scale rounded to nearest, ties to even: the
      scaled value is r limited to -128 .. 127 ... */
  lemma ScalesRound(x: int, scale: real, r: int)
    requires NearestEven(x as real * scale, r)
    ensures var y := if r > 127 then 127 else if r < -128 then -128 else r;
            AccScale(x, scale) == y == MvinScale(x, scale)
  {
    RoundNearEvenIsNearest(x as real * scale);
    NearestEvenIsUnique(x as real * scale, RoundNearEven(x as real * scale), r);
  }

  /** ... and with RELU it is limited below by 0 as well. */
  lemma ScaleAndSatRounds(x: int, act: Activation, scale: real, r: int)
    requires NearestEven(x as real * scale, r)
    ensures ScaleAndSat(x, act, scale)
         == if r > 127 then 127 else if act == Relu && r < 0 then 0 else if r < -128 then -128 else r
  {
    ScalesRound(x, scale, r);
  }

  lemma IdentityScale(x: int)
    requires IsElem(x)
    ensures MvinScale(x, 1.0) == x
  {
    RoundNearEvenFixesIntegers(x);
  }
}
