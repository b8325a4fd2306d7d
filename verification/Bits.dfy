/**
Bitwise operations on unbounded naturals, and the facts that turn the masks of the
source (`index & (capacity - 1)`, `ptr | tag`) into arithmetic.
 */
module Bits {

  const U16: nat := 0x1_0000
  const U64: nat := 0x1_0000_0000_0000_0000

  function Pow2(k: nat): (p: nat)
    ensures p >= 1
  {
    if k == 0 then 1 else 2 * Pow2(k - 1)
  }

  ghost predicate IsPow2(p: nat) {
    exists k: nat :: p == Pow2(k)
  }

  /** Bitwise and. */
  function And(a: nat, b: nat): nat {
    if a == 0 || b == 0 then 0
    else (if a % 2 == 1 && b % 2 == 1 then 1 else 0) + 2 * And(a / 2, b / 2)
  }

  /** Bitwise or. */
  function Or(a: nat, b: nat): nat
    decreases a + b
  {
    if a == 0 then b else if b == 0 then a
    else (if a % 2 == 1 || b % 2 == 1 then 1 else 0) + 2 * Or(a / 2, b / 2)
  }

  /** `std::bit_ceil`: the least power of two that is not below n. */
  function BitCeil(n: nat): (p: nat)
    ensures p >= 1 && n <= p
    ensures n > 1 ==> p < 2 * n
  {
    if n <= 1 then 1 else 2 * BitCeil((n + 1) / 2)
  }

  lemma {:induction false} ModSplit(x: nat, p: nat)
    requires p >= 1
    ensures x % (2 * p) == x % 2 + 2 * ((x / 2) % p)
  {
    var h := x / 2;
    assert x == 2 * (p * (h / p) + h % p) + x % 2;
    var r := x % 2 + 2 * (h % p);
    assert x == (2 * p) * (h / p) + r by {
      assert (2 * p) * (h / p) == 2 * (p * (h / p));
    }
    DivModUnique(x, 2 * p, h / p, r);
  }

  lemma {:induction false} MulGap(d: nat, a: nat, b: nat)
    requires a < b
    ensures d * a + d <= d * b
  {
    assert d * b == d * a + d * (b - a);
    assert d * (b - a) == d + d * (b - a - 1);
  }

  lemma {:induction false} DivModUnique(x: nat, d: nat, q: nat, r: nat)
    requires d >= 1 && r < d && x == d * q + r
    ensures x / d == q && x % d == r
  {
    var q', r' := x / d, x % d;
    assert x == d * q' + r';
    if q' < q {
      MulGap(d, q', q);
    } else if q' > q {
      MulGap(d, q, q');
    }
  }

  /** Masking with 2^k - 1 is the remainder modulo 2^k. */
  lemma {:induction false} AndMask(x: nat, k: nat)
    ensures And(x, Pow2(k) - 1) == x % Pow2(k)
    decreases k
  {
    if k > 0 {
      var p := Pow2(k - 1);
      AndOdd(x, p - 1);
      AndMask(x / 2, k - 1);
      ModSplit(x, p);
      assert Pow2(k) - 1 == 2 * (p - 1) + 1;
    }
  }

  lemma AndMaskPow2(x: nat, p: nat)
    requires IsPow2(p)
    ensures And(x, p - 1) == x % p
  {
    var k: nat :| p == Pow2(k);
    AndMask(x, k);
  }

  /** Masking an n-bit word with the complement of 2^k - 1 clears its low k bits. */
  lemma {:induction false} AndHigh(x: nat, n: nat, k: nat)
    requires k <= n && x < Pow2(n)
    ensures Pow2(k) <= Pow2(n) && And(x, Pow2(n) - Pow2(k)) == x - x % Pow2(k)
    decreases k
  {
    Pow2Monotone(k, n);
    if k == 0 {
      AndMask(x, n);
      DivModUnique(x, Pow2(n), 0, x);
    } else {
      var h, p := x / 2, Pow2(k - 1);
      var mask := Pow2(n - 1) - p;
      AndHigh(h, n - 1, k - 1);
      calc {
        And(x, 2 * mask);
        { AndEven(x, mask); }
        2 * And(h, mask);
        2 * (h - h % p);
        { ModSplit(x, p); }
        x - x % (2 * p);
      }
    }
  }

  lemma {:induction false} AndOdd(x: nat, m: nat)
    ensures And(x, 2 * m + 1) == x % 2 + 2 * And(x / 2, m)
  {
    assert (2 * m + 1) / 2 == m;
  }

  lemma {:induction false} AndEven(x: nat, m: nat)
    ensures And(x, 2 * m) == 2 * And(x / 2, m)
  {
    assert 2 * m / 2 == m;
  }

  lemma {:induction false} Pow2Monotone(a: nat, b: nat)
    requires a <= b
    ensures Pow2(a) <= Pow2(b)
    decreases b
  {
    if a < b { Pow2Monotone(a, b - 1); }
  }

  lemma {:induction false} Pow2Add(a: nat, b: nat)
    ensures Pow2(a + b) == Pow2(a) * Pow2(b)
    decreases a
  {
    if a > 0 {
      Pow2Add(a - 1, b);
      assert a + b - 1 == (a - 1) + b;
      assert Pow2(a) * Pow2(b) == 2 * (Pow2(a - 1) * Pow2(b));
    }
  }

  /** A number whose low k bits are clear and one below 2^k combine without carry. */
  lemma {:induction false} OrDisjoint(a: nat, b: nat, k: nat)
    requires a % Pow2(k) == 0 && b < Pow2(k)
    ensures Or(a, b) == a + b
    decreases k
  {
    if a != 0 && b != 0 {
      ModSplit(a, Pow2(k - 1));
      OrDisjoint(a / 2, b / 2, k - 1);
    }
  }

  /** BitCeil yields a power of two and no smaller power of two will do. */
  lemma {:induction false} BitCeilIsLeast(n: nat)
    ensures IsPow2(BitCeil(n))
    ensures forall q: nat :: IsPow2(q) && n <= q ==> BitCeil(n) <= q
    decreases n
  {
    if n <= 1 {
      assert 1 == Pow2(0);
    } else {
      var h := (n + 1) / 2;
      BitCeilIsLeast(h);
      var k: nat :| BitCeil(h) == Pow2(k);
      assert BitCeil(n) == Pow2(k + 1);
      forall q: nat | IsPow2(q) && n <= q ensures BitCeil(n) <= q {
        var j: nat :| q == Pow2(j);
        assert j > 0 && q == 2 * Pow2(j - 1);
        assert IsPow2(Pow2(j - 1)) && h <= Pow2(j - 1);
      }
    }
  }

  /** A power of two not above 2^n divides 2^n, so reducing modulo 2^n first is harmless. */
  lemma {:induction false} WrapThenMask(x: nat, n: nat, p: nat)
    requires IsPow2(p) && p <= Pow2(n)
    ensures (x % Pow2(n)) % p == x % p
  {
    var k: nat :| p == Pow2(k);
    if k > n { Pow2Monotone(n + 1, k); }
    Pow2Add(k, n - k);
    ModOfMultiple(x, p, Pow2(n - k));
  }

  lemma {:induction false} ModOfSum(x: nat, p: nat, z: nat, y: nat)
    requires p >= 1 && x == p * z + y
    ensures x % p == y % p
  {
    DivModIdentity(y, p);
    MulDistribute(p, z, y / p);
    DivModUnique(x, p, z + y / p, y % p);
  }

  lemma {:induction false} ModOfMultiple(x: nat, p: nat, m: nat)
    requires p >= 1 && m >= 1
    ensures p * m >= 1 && (x % (p * m)) % p == x % p
  {
    MulGap(p, 0, m);
    var d := p * m;
    DivModIdentity(x, d);
    MulAssociate(p, m, x / d);
    ModOfSum(x, p, m * (x / d), x % d);
  }

  lemma {:induction false} DivModIdentity(x: nat, d: nat)
    requires d >= 1
    ensures x == d * (x / d) + x % d && 0 <= x / d && 0 <= x % d < d
  {
  }

  lemma {:induction false} MulAssociate(a: nat, b: nat, c: nat)
    ensures (a * b) * c == a * (b * c)
  {
  }

  lemma {:induction false} MulDistribute(a: nat, b: nat, c: nat)
    ensures a * (b + c) == a * b + a * c
  {
  }

  lemma ModSucc(x: nat, d: nat)
    requires d >= 1
    ensures (x + 1) % d == if x % d + 1 == d then 0 else x % d + 1
  {
    var q, r := x / d, x % d;
    assert x == d * q + r;
    if r + 1 == d {
      assert d * (q + 1) == d * q + d;
      DivModUnique(x + 1, d, q + 1, 0);
    } else {
      DivModUnique(x + 1, d, q, r + 1);
    }
  }

  lemma Pow16And64()
    ensures Pow2(16) == U16 && Pow2(64) == U64
  {
    assert Pow2(8) == 0x100;
    assert Pow2(16) == U16;
    Pow2Add(16, 16);
    Pow2Add(32, 32);
  }
}
