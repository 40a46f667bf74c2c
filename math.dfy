/**
 * Bitwise arithmetic on 16-bit two's-complement integers, and the
 * generic `is_power_of_two` test `x != 0 && x & (x - 1) == 0` at the
 * type the authentication tags use, `i16`.
 *
 * A bit pattern is a natural number; bit j of it is `Has(x, j)`, and `|`
 * and `&` are defined bit by bit, so that every fact about them is proved
 * by induction over the bits.
 */
module Math {
  /** Rust's `i16`. */
  newtype i16 = x: int | -0x8000 <= x < 0x8000

  const MinI16: i16 := -0x8000
  const MaxI16: i16 := 0x7FFF

  function Pow2(k: nat): (p: nat)
    ensures p >= 1
  {
    if k == 0 then 1 else 2 * Pow2(k - 1)
  }

  /** Bit j of the pattern x is set. */
  predicate Has(x: nat, j: nat)
    decreases j
  {
    if j == 0 then x % 2 == 1 else Has(x / 2, j - 1)
  }

  /** Bitwise or. */
  function Or(a: nat, b: nat): nat
    decreases a + b
  {
    if a == 0 then b
    else if b == 0 then a
    else 2 * Or(a / 2, b / 2) + (if a % 2 == 1 || b % 2 == 1 then 1 else 0)
  }

  /** Bitwise and. */
  function And(a: nat, b: nat): nat
    decreases a + b
  {
    if a == 0 || b == 0 then 0
    else 2 * And(a / 2, b / 2) + (if a % 2 == 1 && b % 2 == 1 then 1 else 0)
  }

  /** Bit j + 1 of x is bit j of x / 2. */
  lemma HasShift(x: nat, j: nat)
    ensures Has(x, j + 1) == Has(x / 2, j)
  {
  }

  lemma {:induction false} HasZero(j: nat)
    ensures !Has(0, j)
    decreases j
  {
    if j > 0 {
      HasZero(j - 1);
    }
  }

  /** A bit of `a | b` is set iff it is set in a or in b. */
  lemma {:induction false} HasOr(a: nat, b: nat, j: nat)
    ensures Has(Or(a, b), j) == (Has(a, j) || Has(b, j))
    decreases j
  {
    if a == 0 {
      HasZero(j);
    } else if b == 0 {
      HasZero(j);
    } else {
      var low := if a % 2 == 1 || b % 2 == 1 then 1 else 0;
      var high := Or(a / 2, b / 2);
      assert Or(a, b) == 2 * high + low;
      if j == 0 {
        assert (2 * high + low) % 2 == low;
      } else {
        assert (2 * high + low) / 2 == high;
        HasOr(a / 2, b / 2, j - 1);
      }
    }
  }

  /** A bit of `a & b` is set iff it is set in both. */
  lemma {:induction false} HasAnd(a: nat, b: nat, j: nat)
    ensures Has(And(a, b), j) == (Has(a, j) && Has(b, j))
    decreases j
  {
    if a == 0 || b == 0 {
      HasZero(j);
    } else {
      var low := if a % 2 == 1 && b % 2 == 1 then 1 else 0;
      var high := And(a / 2, b / 2);
      assert And(a, b) == 2 * high + low;
      if j == 0 {
        assert (2 * high + low) % 2 == low;
      } else {
        assert (2 * high + low) / 2 == high;
        HasAnd(a / 2, b / 2, j - 1);
      }
    }
  }

  /** Patterns that agree on every bit are equal. */
  lemma {:induction false} BitsExtensional(a: nat, b: nat)
    requires forall j: nat :: Has(a, j) == Has(b, j)
    ensures a == b
    decreases a + b
  {
    assert Has(a, 0) == Has(b, 0);
    if a != 0 || b != 0 {
      forall j: nat ensures Has(a / 2, j) == Has(b / 2, j) {
        HasShift(a, j);
        HasShift(b, j);
      }
      BitsExtensional(a / 2, b / 2);
    }
  }

  /** A non-zero pattern has a set bit. */
  lemma {:induction false} SomeBit(x: nat) returns (j: nat)
    requires x != 0
    ensures Has(x, j)
    decreases x
  {
    if x % 2 == 1 {
      j := 0;
    } else {
      var i := SomeBit(x / 2);
      HasShift(x, i);
      j := i + 1;
    }
  }

  /** 2^k has bit k and no other. */
  lemma {:induction false} HasPow2(k: nat, j: nat)
    ensures Has(Pow2(k), j) <==> j == k
    decreases k
  {
    if k == 0 {
      if j > 0 {
        HasZero(j - 1);
      }
    } else if j > 0 {
      HasPow2(k - 1, j - 1);
    }
  }

  /** Bits at or above k are clear in a pattern below 2^k. */
  lemma {:induction false} HasBelow(x: nat, k: nat, j: nat)
    requires x < Pow2(k) && k <= j
    ensures !Has(x, j)
    decreases k
  {
    if k == 0 {
      assert x == 0;
      HasZero(j);
    } else {
      HasBelow(x / 2, k - 1, j - 1);
    }
  }

  /** `|` of two patterns below 2^k is below 2^k. */
  lemma {:induction false} OrBound(a: nat, b: nat, k: nat)
    requires a < Pow2(k) && b < Pow2(k)
    ensures Or(a, b) < Pow2(k)
    decreases k
  {
    if a != 0 && b != 0 {
      OrBound(a / 2, b / 2, k - 1);
    }
  }

  lemma {:induction false} AndSelf(a: nat)
    ensures And(a, a) == a
    decreases a
  {
    if a != 0 {
      AndSelf(a / 2);
    }
  }

  /** n is a power of two, by halving. */
  predicate IsPow2(n: nat)
    decreases n
  {
    n == 1 || (n > 1 && n % 2 == 0 && IsPow2(n / 2))
  }

  /** A number passing the halving test is some 2^k. */
  lemma {:induction false} IsPow2Sound(n: nat) returns (k: nat)
    requires IsPow2(n)
    ensures n == Pow2(k)
    decreases n
  {
    if n == 1 {
      k := 0;
    } else {
      var h := IsPow2Sound(n / 2);
      k := h + 1;
    }
  }

  /** Every 2^k passes the halving test. */
  lemma {:induction false} IsPow2Complete(k: nat)
    ensures IsPow2(Pow2(k))
    decreases k
  {
    if k > 0 {
      IsPow2Complete(k - 1);
      assert Pow2(k) / 2 == Pow2(k - 1);
    }
  }

  lemma IsPow2Exactly(n: nat)
    ensures IsPow2(n) <==> exists k: nat :: n == Pow2(k)
  {
    if IsPow2(n) {
      var k := IsPow2Sound(n);
    }
    if exists k: nat :: n == Pow2(k) {
      var k: nat :| n == Pow2(k);
      IsPow2Complete(k);
    }
  }

  /** For positive n, `n & (n - 1) == 0` iff n is a power of two. */
  lemma {:induction false} ClearLowestBit(n: nat)
    requires n > 0
    ensures And(n, n - 1) == 0 <==> IsPow2(n)
    decreases n
  {
    if n % 2 == 1 {
      if n > 1 {
        AndSelf((n - 1) / 2);
        assert And(n, n - 1) == 2 * And(n / 2, (n - 1) / 2);
      }
    } else {
      ClearLowestBit(n / 2);
      assert And(n, n - 1) == 2 * And(n / 2, n / 2 - 1);
    }
  }

  lemma {:induction false} Pow2Monotone(i: nat, k: nat)
    requires i <= k
    ensures Pow2(i) <= Pow2(k)
    decreases k
  {
    if i < k {
      Pow2Monotone(i, k - 1);
    }
  }

  /** The 16-bit pattern of an i16. */
  function Pattern(x: i16): (p: nat)
    ensures p < 0x1_0000
    ensures x >= 0 ==> p == x as int
  {
    if x >= 0 then x as nat else x as int + 0x1_0000
  }

  /** The i16 with a given 16-bit pattern. */
  function FromPattern(p: nat): (x: i16)
    requires p < 0x1_0000
    ensures Pattern(x) == p
  {
    if p < 0x8000 then p as i16 else (p - 0x1_0000) as i16
  }

  /** `x - 1` as a release build computes it: `i16::MIN - 1` wraps to `i16::MAX`. */
  function WrappingDec(x: i16): (r: i16)
    ensures Pattern(r) == (Pattern(x) + 0xFFFF) % 0x1_0000
  {
    if x == MinI16 then MaxI16 else x - 1
  }

  /** `is_power_of_two::<i16>` as written: `x != 0 && x & (x - 1) == 0`. */
  predicate IsPowerOfTwoAsWritten(x: i16): (b: bool)
    ensures x > 0 ==> (b <==> IsPow2(x as nat))
  {
    var p, q := Pattern(x), Pattern(WrappingDec(x));
    if x > 0 then
      assert q == p - 1;
      ClearLowestBit(p);
      And(p, q) == 0
    else
      x != 0 && And(p, q) == 0
  }

  /** `i16::MIN` passes the written test: its pattern is 2^15 and `x - 1` wraps. */
  lemma AsWrittenAcceptsMinimum()
    ensures IsPowerOfTwoAsWritten(MinI16)
  {
    assert Pattern(MinI16) == 0x8000 && Pattern(WrappingDec(MinI16)) == 0x7FFF;
    assert IsPow2(0x8000);
    ClearLowestBit(0x8000);
  }

  /** The evidently intended test: a positive i16 that is a power of two. */
  predicate IsPowerOfTwo(x: i16): (b: bool)
    ensures b ==> IsPowerOfTwoAsWritten(x)
  {
    x > 0 && IsPow2(x as nat)
  }

  lemma Pow2Of15And16()
    ensures Pow2(15) == 0x8000 && Pow2(16) == 0x1_0000
  {
    assert Pow2(4) == 0x10;
    assert Pow2(8) == 0x100;
    assert Pow2(12) == 0x1000;
  }

  /** A positive i16 is a power of two iff it is 2^k, and then k < 15. */
  lemma PositiveIsPow2(x: i16)
    requires x > 0
    ensures IsPow2(x as nat) <==> exists k: nat :: k < 15 && x as int == Pow2(k)
  {
    Pow2Of15And16();
    IsPow2Exactly(x as nat);
    if exists k: nat :: x as int == Pow2(k) {
      var k: nat :| x as int == Pow2(k);
      if k >= 15 {
        Pow2Monotone(15, k);
      }
      assert k < 15;
    }
  }

  /** A positive i16 passes the test as written iff it is 2^k, and then k < 15; so 1 passes. */
  lemma PositivePowerOfTwo(x: i16)
    requires x > 0
    ensures IsPowerOfTwoAsWritten(x) <==> exists k: nat :: k < 15 && x as int == Pow2(k)
  {
    PositiveIsPow2(x);
  }

  /** A negative i16 other than `i16::MIN` fails the test: its pattern lies strictly between 2^15 and 2^16. */
  lemma NegativeNotPowerOfTwo(x: i16)
    requires x < 0 && x != MinI16
    ensures !IsPowerOfTwoAsWritten(x)
  {
    Pow2Of15And16();
    var n := Pattern(x);
    assert 0x8000 < n < 0x1_0000 && Pattern(WrappingDec(x)) == n - 1;
    ClearLowestBit(n);
    IsPow2Exactly(n);
    if IsPow2(n) {
      var k: nat :| n == Pow2(k);
      if k <= 15 {
        Pow2Monotone(k, 15);
      } else {
        Pow2Monotone(16, k);
      }
    }
  }

  /**
   * The test as written and the intended test disagree at exactly one
   * value, `i16::MIN`, which the written test accepts.
   */
  lemma CorrectedAgreesElsewhere(x: i16)
    ensures x != MinI16 ==> (IsPowerOfTwo(x) <==> IsPowerOfTwoAsWritten(x))
    ensures IsPowerOfTwoAsWritten(MinI16) && !IsPowerOfTwo(MinI16)
  {
    AsWrittenAcceptsMinimum();
    if x < 0 && x != MinI16 {
      NegativeNotPowerOfTwo(x);
    }
  }

  /**
   * The intended test accepts exactly 2^0 .. 2^14: zero, every negative
   * value and everything with two or more bits set is rejected.
   */
  lemma IsPowerOfTwoIff(x: i16)
    ensures IsPowerOfTwo(x) <==> exists k: nat :: k < 15 && x as int == Pow2(k)
  {
    if x > 0 {
      PositiveIsPow2(x);
    }
  }

  /** A positive pattern meets 2^k under `&` iff bit k is set. */
  lemma AndPow2(m: nat, k: nat)
    ensures And(m, Pow2(k)) != 0 <==> Has(m, k)
  {
    HasAnd(m, Pow2(k), k);
    HasPow2(k, k);
    if And(m, Pow2(k)) != 0 {
      var j := SomeBit(And(m, Pow2(k)));
      HasAnd(m, Pow2(k), j);
      HasPow2(k, j);
    } else {
      HasZero(k);
    }
  }
}
