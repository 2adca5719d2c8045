/**
 Bitwise operations on unbounded naturals, and when they are plain arithmetic:
 or-ing into clear bits adds, and masking with ones takes a remainder. They are
 defined bit by bit, because fixed-width bit-vectors of 64 bits are beyond what
 the solver can multiply and divide; the widths of the id's fields are constants
 of the generator and are proved to be the powers of two that its shifts stand
 for.
 */
module Bits {
  import opened Remainders

  function Pow2(k: nat): (p: nat)
    ensures p > 0
  {
    if k == 0 then 1 else 2 * Pow2(k - 1)
  }

  function Or(a: nat, b: nat): nat
    decreases a + b
  {
    if a == 0 && b == 0 then 0
    else (if a % 2 == 1 || b % 2 == 1 then 1 else 0) + 2 * Or(a / 2, b / 2)
  }

  function And(a: nat, b: nat): nat
    decreases a + b
  {
    if a == 0 && b == 0 then 0
    else (if a % 2 == 1 && b % 2 == 1 then 1 else 0) + 2 * And(a / 2, b / 2)
  }

  lemma {:induction false} OrZero(a: nat)
    ensures Or(a, 0) == a
  {
    if a > 0 {
      OrZero(a / 2);
    }
  }

  lemma {:induction false} AndZero(a: nat)
    ensures And(a, 0) == 0
  {
    if a > 0 {
      AndZero(a / 2);
    }
  }

  /** Or-ing into bits that are clear is addition. */
  lemma {:induction false} OrIsSum(k: nat, x: nat, y: nat)
    requires y < Pow2(k)
    ensures Or(x * Pow2(k), y) == x * Pow2(k) + y
  {
    if k == 0 {
      OrZero(x);
    } else {
      var a := x * Pow2(k - 1);
      assert x * Pow2(k) == 2 * a;
      OrIsSum(k - 1, x, y / 2);
    }
  }

  /** Masking with k ones is remainder by 2^k. */
  lemma {:induction false} AndIsMod(k: nat, x: nat)
    ensures And(x, Pow2(k) - 1) == x % Pow2(k)
    decreases k
  {
    if k == 0 {
      AndZero(x);
    } else {
      var p := Pow2(k - 1);
      AndIsMod(k - 1, x / 2);
      assert (2 * p - 1) / 2 == p - 1;
      HalfMod(x, p);
    }
  }

  lemma HalfMod(x: nat, p: nat)
    requires p > 0
    ensures x % (2 * p) == x % 2 + 2 * ((x / 2) % p)
  {
    var q, r := x / 2 / p, (x / 2) % p;
    assert x / 2 == p * q + r;
    assert x == 2 * p * q + (x % 2 + 2 * r);
    ModUnique(2 * p, x, q, x % 2 + 2 * r);
  }

  /** The widths of the id's fields. */
  lemma Widths()
    ensures Pow2(12) == 4096 && Pow2(17) == 131072 && Pow2(22) == 4194304
  {
    assert Pow2(4) == 16 by { assert Pow2(2) == 4; }
    assert Pow2(8) == 256 by { assert Pow2(6) == 64; }
    assert Pow2(12) == 4096 by { assert Pow2(10) == 1024; }
    assert Pow2(16) == 65536 by { assert Pow2(14) == 16384; }
    assert Pow2(20) == 1048576 by { assert Pow2(18) == 262144; }
  }

  /** `& 4095`. */
  lemma Mask12(x: nat)
    ensures And(x, 4095) == x % 4096
  {
    Widths();
    AndIsMod(12, x);
  }
}

/** The remainder is what its defining equation says, for a variable divisor. */
module Remainders {

  lemma {:induction false} MulAtLeast(n: nat, d: nat)
    requires d > 0
    ensures n * d >= n
  {
    if d > 1 {
      MulAtLeast(n, d - 1);
      assert n * d == n * (d - 1) + n;
    }
  }

  lemma MulOrder(n: nat, a: int, b: int)
    ensures a < b ==> n * a + n <= n * b
    ensures b < a ==> n * b + n <= n * a
  {
    assert n * b - n * a == n * (b - a);
    if a < b {
      MulAtLeast(n, b - a);
    } else if b < a {
      MulAtLeast(n, a - b);
      assert n * a - n * b == n * (a - b);
    }
  }

  lemma ModUnique(n: nat, k: nat, q: nat, r: nat)
    requires n > 0 && r < n && k == n * q + r
    ensures k % n == r
  {
    assert k == n * (k / n) + k % n;
    MulOrder(n, q, k / n);
  }
}
