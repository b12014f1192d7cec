/** Bitwise conjunction on naturals, as the engine's ring buffers and its arena use it:
    `x & (2^k - 1)` keeps the low bits, `x & ~(2^k - 1)` clears them. */
module Bits {

  /** The C++ `size_t` is 64 bits wide. */
  const WORD: nat := 0x1_0000_0000_0000_0000

  function Pow2(k: nat): (p: nat)
    ensures p >= 1
  {
    if k == 0 then 1 else 2 * Pow2(k - 1)
  }

  /** Bit by bit: a bit is set exactly when it is set on both sides. */
  function And(x: nat, y: nat): nat
    decreases x
  {
    if x == 0 || y == 0 then 0
    else 2 * And(x / 2, y / 2) + (if x % 2 == 1 && y % 2 == 1 then 1 else 0)
  }

  /** Complement within a 64-bit word. */
  function Not(x: nat): nat
    requires x < WORD
  {
    WORD - 1 - x
  }

  lemma HalfMod(x: nat, m: nat)
    requires m >= 1
    ensures x % (2 * m) == 2 * (x / 2 % m) + x % 2
  {
    var h, q := x / 2, x / 2 / m;
    assert h == q * m + h % m;
    assert x == q * (2 * m) + (2 * (h % m) + x % 2) by {
      assert q * (2 * m) == 2 * (q * m);
    }
    ModUnique(x, 2 * m, q, 2 * (h % m) + x % 2);
  }

  lemma MulAtLeast(d: int, m: int)
    requires d >= 1 && m > 0
    ensures d * m >= m
  {
  }

  /** Quotient and remainder are determined by each other. */
  lemma DivUnique(m: int, q: int, r: int, q': int, r': int)
    requires m > 0 && 0 <= r < m && 0 <= r' < m && q * m + r == q' * m + r'
    ensures q == q' && r == r'
  {
    assert (q - q') * m == q * m - q' * m;
    if q > q' {
      MulAtLeast(q - q', m);
    } else if q < q' {
      assert (q' - q) * m == q' * m - q * m;
      MulAtLeast(q' - q, m);
    }
  }

  lemma ModUnique(x: int, m: int, q: int, r: int)
    requires m > 0 && 0 <= r < m && x == q * m + r
    ensures x % m == r && x / m == q
  {
    DivUnique(m, q, r, x / m, x % m);
  }

  /** Two numbers less than `m` apart with the same remainder are equal. */
  lemma ModInjective(a: int, b: int, m: int)
    requires m > 0 && a % m == b % m && -m < a - b < m
    ensures a == b
  {
    QuotientsEqual(a / m, b / m, a % m, a, b, m);
  }

  lemma QuotientsEqual(qa: int, qb: int, r: int, a: int, b: int, m: int)
    requires m > 0 && a == qa * m + r && b == qb * m + r && -m < a - b < m
    ensures a == b
  {
    assert (qa - qb) * m == qa * m - qb * m;
    if qa > qb {
      MulAtLeast(qa - qb, m);
    } else if qa < qb {
      assert (qb - qa) * m == qb * m - qa * m;
      MulAtLeast(qb - qa, m);
    }
  }

  lemma ModShift(a: int, m: int)
    requires m > 0
    ensures (a + m) % m == a % m
  {
    var q := a / m;
    assert a == q * m + a % m;
    assert a + m == (q + 1) * m + a % m by {
      assert (q + 1) * m == q * m + m;
    }
    ModUnique(a + m, m, q + 1, a % m);
  }

  lemma ModSucc(a: nat, m: nat)
    requires m > 0
    ensures (a % m + 1) % m == (a + 1) % m
  {
    var q := a / m;
    assert a == q * m + a % m;
    if a % m + 1 < m {
      ModUnique(a + 1, m, q, a % m + 1);
      SmallMod(a % m + 1, m);
    } else {
      ModUnique(m, m, 1, 0);
      assert a + 1 == (q + 1) * m by {
        assert (q + 1) * m == q * m + m;
      }
      ModUnique(a + 1, m, q + 1, 0);
    }
  }

  /** `x & (2^k - 1)` is the remainder modulo 2^k. */
  lemma {:induction false} AndMask(x: nat, k: nat)
    ensures And(x, Pow2(k) - 1) == x % Pow2(k)
    decreases k
  {
    if k == 0 {
      SmallMod(0, 1);
    } else {
      hide And;
      var m := Pow2(k - 1);
      AndMask(x / 2, k - 1);
      HalfMod(x, m);
      OddHalf(m);
      AndStep(x, 2 * m - 1);
    }
  }

  lemma OddHalf(m: nat)
    requires m >= 1
    ensures (2 * m - 1) / 2 == m - 1 && (2 * m - 1) % 2 == 1
  {
  }

  /** The recursion of `And` holds at zero too. */
  lemma AndStep(x: nat, y: nat)
    ensures And(x, y) == 2 * And(x / 2, y / 2) + if x % 2 == 1 && y % 2 == 1 then 1 else 0
  {
  }

  /** `x & (2^w - 2^k)` rounds a w-bit `x` down to a multiple of 2^k. */
  lemma {:induction false} AndHigh(x: nat, k: nat, w: nat)
    requires k <= w && x < Pow2(w)
    ensures Pow2(w) >= Pow2(k)
    ensures And(x, Pow2(w) - Pow2(k)) == x - x % Pow2(k)
  {
    if k == 0 {
      AndMask(x, w);
      SmallMod(x, Pow2(w));
    } else if x > 0 {
      var m, n := Pow2(k - 1), Pow2(w - 1);
      AndHigh(x / 2, k - 1, w - 1);
      HalfMod(x, m);
      assert (2 * n - 2 * m) / 2 == n - m && (2 * n - 2 * m) % 2 == 0;
    } else {
      AndHigh(0, k - 1, w - 1);
    }
  }

  lemma SmallMod(x: nat, m: nat)
    requires x < m
    ensures x % m == x
  {
  }

  lemma {:induction false} Pow2Below(a: nat, b: nat)
    requires a <= b
    ensures Pow2(a) <= Pow2(b)
  {
    if a < b {
      Pow2Below(a, b - 1);
    }
  }

  lemma Pow2Of64()
    ensures Pow2(64) == WORD
  {
    assert Pow2(8) == 0x100;
    assert Pow2(16) == 0x1_0000 by {
      Pow2Sum(8, 8);
    }
    Pow2Sum(16, 16);
    Pow2Sum(32, 32);
  }

  lemma {:induction false} Pow2Sum(a: nat, b: nat)
    ensures Pow2(a + b) == Pow2(a) * Pow2(b)
  {
    if a > 0 {
      Pow2Sum(a - 1, b);
    }
  }

  /** The condition the queue asserts of its capacity, `(c & (c - 1)) == 0`, holds of a positive
      `c` exactly when `c` is a power of two. */
  lemma {:induction false} PowerOfTwoTest(c: nat)
    requires c >= 1
    ensures And(c, c - 1) == 0 <==> exists k: nat :: c == Pow2(k)
  {
    if c == 1 {
      assert c == Pow2(0);
    } else if c % 2 == 1 {
      assert And(c, c - 1) == 2 * And(c / 2, c / 2);
      AndSelf(c / 2);
      forall k: nat
        ensures c != Pow2(k)
      {
        if k > 0 {
          assert Pow2(k) == 2 * Pow2(k - 1);
        }
      }
    } else {
      var h := c / 2;
      PowerOfTwoTest(h);
      assert And(c, c - 1) == 2 * And(h, h - 1);
      if exists k: nat :: h == Pow2(k) {
        var k: nat :| h == Pow2(k);
        assert c == Pow2(k + 1);
      }
      if exists k: nat :: c == Pow2(k) {
        var k: nat :| c == Pow2(k);
        assert k > 0;
        assert Pow2(k) == 2 * Pow2(k - 1);
        assert h == Pow2(k - 1);
      }
    }
  }

  lemma {:induction false} AndSelf(x: nat)
    ensures And(x, x) == x
  {
    if x > 0 {
      AndSelf(x / 2);
    }
  }
}
