/**
  Bit operations on naturals, bit by bit, and the arithmetic that masking with a
  power of two stands for.  The C code masks; the rest of the project divides.
 */
module Bits {
  const TWO32: nat := 0x1_0000_0000
  const TWO64: nat := 0x1_0000_0000_0000_0000

  /** The bitwise AND of two naturals. */
  function And(a: nat, b: nat): nat {
    if a == 0 || b == 0 then 0
    else 2 * And(a / 2, b / 2) + (if a % 2 == 1 && b % 2 == 1 then 1 else 0)
  }

  predicate IsPow2(n: nat) {
    n == 1 || (n > 1 && n % 2 == 0 && IsPow2(n / 2))
  }

  /** `n & (n - 1)` vanishes exactly on the powers of two. */
  lemma {:induction false} AndPredecessor(n: nat)
    requires n >= 1
    ensures And(n, n - 1) == 0 <==> IsPow2(n)
  {
    if n == 1 {
    } else if n % 2 == 0 {
      assert (n - 1) / 2 == n / 2 - 1;
      AndPredecessor(n / 2);
    } else {
      AndNonzero(n / 2);
    }
  }

  lemma {:induction false} AndNonzero(n: nat)
    requires n >= 1
    ensures And(n, n) == n
    ensures And(2 * n + 1, 2 * n) == 2 * n
  {
    if n > 1 {
      AndNonzero(n / 2);
    }
    assert (2 * n + 1) / 2 == n && 2 * n / 2 == n;
  }

  /** Masking with `n - 1` is the remainder by a power of two `n`. */
  lemma {:induction false} MaskIsMod(x: nat, n: nat)
    requires IsPow2(n)
    ensures And(x, n - 1) == x % n
    decreases n
  {
    if n > 1 {
      MaskIsMod(x / 2, n / 2);
      assert (n - 1) / 2 == n / 2 - 1 && (n - 1) % 2 == 1;
      HalveMod(x, n);
      AndStep(x, n - 1);
    }
  }

  lemma {:induction false} AndStep(a: nat, b: nat)
    ensures And(a, b) == 2 * And(a / 2, b / 2) + (if a % 2 == 1 && b % 2 == 1 then 1 else 0)
  {
  }

  lemma {:induction false} HalveMod(x: nat, n: nat)
    requires n >= 2 && n % 2 == 0
    ensures x % n == 2 * ((x / 2) % (n / 2)) + x % 2
  {
    var m, h := n / 2, x / 2;
    var q, r := h / m, h % m;
    assert h == q * m + r;
    assert x == 2 * h + x % 2;
    assert x == q * n + (2 * r + x % 2) by {
      assert 2 * (q * m) == q * n;
    }
    ModUnique(x, n, q, 2 * r + x % 2);
  }

  /** Division with remainder is unique. */
  lemma {:induction false} ModUnique(x: int, n: nat, q: int, r: int)
    requires n > 0 && x == q * n + r && 0 <= r < n
    ensures x / n == q && x % n == r
  {
    var d := q - x / n;
    assert d * n == x % n - r by {
      assert x == (x / n) * n + x % n;
    }
    SmallMultiple(d, n);
  }

  lemma {:induction false} SmallMultiple(d: int, n: nat)
    requires 0 - n < d * n < n
    ensures d == 0
  {
    assert d >= 1 ==> d * n >= n;
    assert d <= -1 ==> d * n <= 0 - n;
  }

  /** A smaller power of two divides a larger one. */
  lemma {:induction false} Pow2Divides(n: nat, m: nat)
    requires IsPow2(n) && IsPow2(m) && n <= m
    ensures m % n == 0
    decreases m
  {
    if n > 1 {
      Pow2Divides(n / 2, m / 2);
      HalveMod(m, n);
    }
  }

  lemma {:induction false} Pow2Constants()
    ensures IsPow2(8) && IsPow2(64) && IsPow2(4096)
    ensures IsPow2(0x2000_0000) && IsPow2(TWO32) && IsPow2(TWO64)
  {
    assert IsPow2(8);
    assert IsPow2(64);
    assert IsPow2(4096) by { assert IsPow2(512); }
    assert IsPow2(0x2000_0000) by { Pow2Product(4096, 0x2_0000) by { Pow2Product(4096, 32); } }
    Pow2Product(0x2000_0000, 8);
    Pow2Product(TWO32, TWO32);
  }

  lemma {:induction false} Pow2Product(a: nat, b: nat)
    requires IsPow2(a) && IsPow2(b)
    ensures IsPow2(a * b)
  {
    if a > 1 {
      Pow2Product(a / 2, b);
      assert a * b == 2 * (a / 2 * b);
    }
  }

  /** A residue modulo `n` survives reduction modulo a multiple of `n`. */
  lemma {:induction false} ModMod(x: nat, n: nat, m: nat)
    requires n > 0 && m > 0 && m % n == 0
    ensures (x % m) % n == x % n
  {
    var k := m / n;
    assert m == k * n;
    var q, r := x / m, x % m;
    var q2, r2 := r / n, r % n;
    assert x == q * m + r && r == q2 * n + r2;
    assert x == (q * k + q2) * n + r2 by {
      assert q * m == (q * k) * n;
    }
    ModUnique(x, n, q * k + q2, r2);
  }

  /** `p` reduced modulo `n`, by repeated subtraction. */
  function Off(p: nat, n: nat): (o: nat)
    requires n > 0
    ensures o < n && o <= p
  {
    if p < n then p else Off(p - n, n)
  }

  /** Adding less than one full turn. */
  lemma {:induction false} OffAdd(p: nat, k: nat, n: nat)
    requires n > 0 && k <= n
    ensures Off(p + k, n) == if Off(p, n) + k < n then Off(p, n) + k else Off(p, n) + k - n
    decreases p
  {
    if p >= n {
      OffAdd(p - n, k, n);
    }
  }

  lemma {:induction false} OffIsMod(p: nat, n: nat)
    requires n > 0
    ensures Off(p, n) == p % n
  {
    if p < n {
      ModUnique(p, n, 0, p);
    } else {
      OffIsMod(p - n, n);
      var q, r := (p - n) / n, (p - n) % n;
      assert p == (q + 1) * n + r;
      ModUnique(p, n, q + 1, r);
    }
  }

  /** `x` is a multiple of eight. */
  predicate Aligned(x: nat) {
    if x < 8 then x == 0 else Aligned(x - 8)
  }

  lemma {:induction false} AlignedIsMod(x: nat)
    ensures Aligned(x) <==> x % 8 == 0
  {
    if x >= 8 {
      AlignedIsMod(x - 8);
    }
  }

  lemma {:induction false} AlignedSum(a: nat, b: nat)
    requires Aligned(a) && Aligned(b)
    ensures Aligned(a + b) && (a >= b ==> Aligned(a - b))
  {
    AlignedIsMod(a);
    AlignedIsMod(b);
    AlignedIsMod(a + b);
    if a >= b {
      AlignedIsMod(a - b);
    }
  }

  /** Clearing the low three bits of a word of `8 * k` values rounds down to a multiple of eight. */
  lemma {:induction false} AlignMask(y: nat, k: nat)
    requires IsPow2(k) && y < 8 * k
    ensures And(y, 8 * (k - 1)) == y - y % 8
  {
    var z, m := y / 8, k - 1;
    calc {
      And(y, 8 * m);
      { AndEven(y, 4 * m); }
      2 * And(y / 2, 4 * m);
      { AndEven(y / 2, 2 * m); assert y / 2 / 2 == y / 4; }
      4 * And(y / 4, 2 * m);
      { AndEven(y / 4, m); assert y / 4 / 2 == z; }
      8 * And(z, m);
      { MaskIsMod(z, k); }
      8 * (z % k);
      { ModUnique(z, k, 0, z); }
      8 * z;
    }
    assert 8 * z == y - y % 8;
  }

  lemma {:induction false} AndEven(y: nat, m: nat)
    ensures And(y, 2 * m) == 2 * And(y / 2, m)
  {
    AndStep(y, 2 * m);
  }
}
