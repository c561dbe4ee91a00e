/** The primality test the rayon example passes to `filter` as a Rust
    closure. */
module Primes {
  const U64: nat := 0x1_0000_0000_0000_0000

  /** No candidate `i` with `2 <= i` and `i * i <= v` divides `v`. */
  ghost predicate NoSmallDivisor(v: nat) {
    forall i: nat :: 2 <= i && i * i <= v ==> v % i != 0
  }

  /** The textbook definition. */
  ghost predicate IsPrimeNumber(v: nat) {
    v >= 2 && forall d: nat :: 2 <= d < v ==> v % d != 0
  }

  /** `is_prime`: trial division while `i * i <= v`, answering as soon as a
      divisor turns up. */
  method IsPrime(v: nat) returns (r: bool)
    requires v < U64
    ensures r <==> v >= 2 && NoSmallDivisor(v)
  {
    if v < 2 {
      return false;
    }
    var i: nat := 2;
    while i * i <= v
      invariant 2 <= i
      invariant forall d: nat :: 2 <= d < i ==> v % d != 0
      decreases v - i
    {
      SquareAtLeast(i);
      if v % i == 0 {
        return false;
      }
      i := i + 1;
    }
    forall d: nat | 2 <= d && d * d <= v
      ensures v % d != 0
    {
      if d >= i {
        SquareMonotone(i, d);
      }
    }
    return true;
  }

  lemma SquareAtLeast(i: nat)
    ensures i <= i * i || i == 0
  {
  }

  lemma SquareMonotone(a: nat, b: nat)
    requires a <= b
    ensures a * a <= b * b
  {
    assert a * a <= a * b <= b * b;
  }

  /** A divisor above the square root has its cofactor below it. */
  lemma SmallCofactor(v: nat, d: nat) returns (e: nat)
    requires 2 <= d < v && v % d == 0
    ensures 2 <= e && e * e <= v && v % e == 0
  {
    if d * d <= v {
      return d;
    }
    e := v / d;
    assert v == d * e;
    if e >= d {
      SquareMonotone(d, e);
      MulMonotone(d, e);
      assert false;
    }
    MulMonotone(e, d);
    ModOfMultiple(v, e, d);
  }

  lemma ModOfMultiple(v: nat, e: nat, d: nat)
    requires e > 0 && v == e * d
    ensures v % e == 0
  {
    var q := v / e;
    var r := v % e;
    assert v == q * e + r;
    assert (d - q) * e == r;
    if d - q >= 1 {
      assert false;
    } else if d - q <= -1 {
      assert false;
    }
  }

  lemma MulMonotone(a: nat, b: nat)
    requires a <= b
    ensures a * a <= a * b
  {
  }

  /** Looking only up to the square root finds a divisor if there is one. */
  lemma SmallDivisorSuffices(v: nat)
    requires v >= 2
    ensures NoSmallDivisor(v) <==> IsPrimeNumber(v)
  {
    if NoSmallDivisor(v) {
      forall d: nat | 2 <= d < v
        ensures v % d != 0
      {
        if v % d == 0 {
          var e := SmallCofactor(v, d);
        }
      }
    }
    if IsPrimeNumber(v) {
      forall i: nat | 2 <= i && i * i <= v
        ensures v % i != 0
      {
        MulMonotone(2, i);
      }
    }
  }

  /** 2 and 3 pass the test; no even number above 2 does. */
  lemma SmallCases(v: nat)
    ensures NoSmallDivisor(2) && NoSmallDivisor(3)
    ensures v > 2 && v % 2 == 0 ==> !NoSmallDivisor(v)
  {
    forall i: nat | 2 <= i && i * i <= 3
      ensures false
    {
      SquareMonotone(2, i);
    }
    if v > 2 && v % 2 == 0 {
      assert 2 * 2 <= v;
    }
  }
}
