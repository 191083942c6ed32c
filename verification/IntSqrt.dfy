/** `int_sqrt` (`gemmini.h`): Newton's iteration on integers, from a power of two above the root. */
module IntSqrt {
  import opened Params
  import opened Powers

  const INT_MAX := 0x7fff_ffff

  /** n is below the square of x + 1: x is at or above the floor root. */
  predicate AtLeastRoot(x: int, n: int) { n < (x + 1) * (x + 1) }

  /** The starting value is above the root, and small enough for a 32-bit shift. */
  lemma StartIsAbove(n: nat, bits: nat)
    requires n < Pow2(bits)
    ensures AtLeastRoot(Pow2((bits + 1) / 2), n)
  {
    var half := (bits + 1) / 2;
    Pow2Sum(half, half);
    Pow2Mono(bits, half + half);
    var x := Pow2(half);
    assert (x + 1) * (x + 1) == x * x + 2 * x + 1;
  }

  lemma Squares(a: int, b: int)
    ensures (a + b) * (a + b) >= 4 * (a * b)
  {
    assert (a + b) * (a + b) == (a - b) * (a - b) + 4 * (a * b);
    assert (a - b) * (a - b) >= 0;
  }

  /** One step from any positive x stays at or above the floor root. */
  lemma StepStaysAbove(x: nat, n: nat)
    requires x >= 1
    ensures AtLeastRoot((x + n / x) / 2, n)
  {
    var q, y := n / x, (x + n / x) / 2;
    assert n == x * q + n % x;
    assert x * (q + 1) == x * q + x;
    Squares(x, q + 1);
    var z := x + q + 1;
    assert z <= 2 * (y + 1);
    MulMono(z, 2 * (y + 1), z);
    MulMono(z, 2 * (y + 1), 2 * (y + 1));
    assert (2 * (y + 1)) * (2 * (y + 1)) == 4 * ((y + 1) * (y + 1));
  }

  /** If the step does not decrease x, x is at or below the root. */
  lemma StopIsBelow(x: nat, n: nat)
    requires x >= 1 && (x + n / x) / 2 >= x
    ensures x * x <= n
  {
    var q := n / x;
    assert n == x * q + n % x;
    MulMono(x, q, x);
  }

  lemma NoOverflow(x: nat, n: nat)
    requires 1 <= x <= 0x1_0000 && n <= INT_MAX && AtLeastRoot(x, n)
    ensures x + n / x <= INT_MAX
  {
    var q := n / x;
    assert n == x * q + n % x;
    assert (x + 1) * (x + 1) == x * x + 2 * x + 1;
    assert x * (x + 3) == x * x + 3 * x;
    MulMono(x + 3, q, x);
    assert q <= x + 2;
  }

  /** The starting value of a 32-bit n is at most 2^16. */
  lemma StartFits(n: nat, bits: nat)
    requires n <= INT_MAX && (bits == 0 || Pow2(bits - 1) <= n)
    ensures Pow2((bits + 1) / 2) <= 0x1_0000
  {
    assert Pow2(8) == 256;
    Pow2Sum(8, 8);
    Pow2Sum(16, 15);
    assert Pow2(7) == 128;
    Pow2Sum(8, 7);
    if bits >= 32 {
      Pow2Mono(31, bits - 1);
    } else {
      Pow2Mono((bits + 1) / 2, 16);
    }
  }

  /** The loop that counts the bits of n: x is what is left of n after `bits` halvings. */
  predicate Counting(n: nat, x: nat, bits: nat) {
    && n < (x + 1) * Pow2(bits) && (x == 0 || x * Pow2(bits) <= n)
    && (bits == 0 || Pow2(bits - 1) <= n)
  }

  lemma Halve(n: nat, x: nat, bits: nat)
    requires x > 0 && Counting(n, x, bits)
    ensures Counting(n, x / 2, bits + 1)
  {
    var p := Pow2(bits);
    assert (x / 2) * (2 * p) == (2 * (x / 2)) * p;
    assert (x / 2 + 1) * (2 * p) == (2 * (x / 2) + 2) * p;
    MulMono(2 * (x / 2), x, p);
    MulMono(x + 1, 2 * (x / 2) + 2, p);
    MulMono(1, x, p);
  }

  lemma Counted(n: nat, bits: nat)
    requires n >= 1 && Counting(n, 0, bits)
    ensures n < Pow2(bits) && AtLeastRoot(Pow2((bits + 1) / 2), n)
    ensures n <= INT_MAX ==> Pow2((bits + 1) / 2) <= 0x1_0000
  {
    StartIsAbove(n, bits);
    if n <= INT_MAX {
      StartFits(n, bits);
    }
  }

  predicate Iterate(n: nat, x: nat) { x >= 1 && AtLeastRoot(x, n) && (n <= INT_MAX ==> x <= 0x1_0000) }

  /** Newton's step. */
  function Next(n: nat, x: nat): nat
    requires x >= 1
  { (x + n / x) / 2 }

  /** Newton's step on an iterate: it either stops at the floor root or is a smaller iterate, and no
      intermediate value leaves the 32-bit range. */
  lemma Step(n: nat, x: nat)
    requires n >= 1 && Iterate(n, x)
    ensures var y := Next(n, x);
      && (y >= x ==> x * x <= n < (x + 1) * (x + 1))
      && (y < x ==> Iterate(n, y))
    ensures n <= INT_MAX ==> x + n / x <= INT_MAX
  {
    if n <= INT_MAX {
      NoOverflow(x, n);
    }
    if (x + n / x) / 2 >= x {
      StopIsBelow(x, n);
    }
    StepStaysAbove(x, n);
  }

  /** The loop at the start of `int_sqrt`. */
  method CountBits(n: nat) returns (bits: nat)
    ensures Counting(n, 0, bits)
  {
    bits := 0;
    var x := n;
    assert Pow2(0) == 1;
    while x > 0
      invariant Counting(n, x, bits)
    {
      Halve(n, x, bits);
      x := x / 2;
      bits := bits + 1;
    }
  }

  /** The floor of the square root. */
  method Sqrt(n: nat) returns (r: nat)
    ensures r * r <= n < (r + 1) * (r + 1)
  {
    if n == 0 {
      return 0;
    }
    var bits := CountBits(n);
    Counted(n, bits);
    var xPrev := Pow2((bits + 1) / 2);
    while true
      invariant Iterate(n, xPrev)
      decreases xPrev
    {
      Step(n, xPrev);
      var xNext := Next(n, xPrev);
      if xNext >= xPrev {
        return xPrev;
      }
      xPrev := xNext;
    }
  }
}
