/** Unsigned 64-bit words with C's wrap-around, and the mask arithmetic the allocator uses. */
module Word64 {

  const TWO64: int := 0x1_0000_0000_0000_0000

  type u64 = x: int | 0 <= x < 0x1_0000_0000_0000_0000

  function Add(a: u64, b: u64): u64 { (a + b) % TWO64 }

  function Sub(a: u64, b: u64): u64 { (a - b) % TWO64 }

  function Not(a: u64): u64 { TWO64 - 1 - a }

  lemma AddExact(a: u64, b: u64)
    ensures a + b < TWO64 ==> Add(a, b) == a + b
    ensures a + b >= TWO64 ==> Add(a, b) == a + b - TWO64
  {
  }

  lemma SubExact(a: u64, b: u64)
    ensures a >= b ==> Sub(a, b) == a - b
    ensures a < b ==> Sub(a, b) == TWO64 + a - b
  {
  }

  /** Bitwise and, defined bit by bit. */
  function And(x: nat, y: nat): (r: nat)
    ensures r <= x && r <= y
  {
    if x == 0 || y == 0 then 0
    else 2 * And(x / 2, y / 2) + (if x % 2 == 1 && y % 2 == 1 then 1 else 0)
  }

  predicate PowerOfTwo(a: nat) {
    a == 1 || (a > 1 && a % 2 == 0 && PowerOfTwo(a / 2))
  }

  function RoundDown(x: nat, a: nat): nat
    requires a > 0
  {
    x - x % a
  }

  /** The least multiple of `a` that is at least `x`. */
  function RoundUp(x: nat, a: nat): nat
    requires a > 0
  {
    RoundDown(x + a - 1, a)
  }

  lemma ModHalf(x: nat, a: nat)
    requires a > 1 && a % 2 == 0
    ensures x % a == 2 * (x / 2 % (a / 2)) + x % 2
  {
    var h, q := a / 2, x / 2 / (a / 2);
    var r := 2 * (x / 2 % h) + x % 2;
    assert x / 2 == q * h + x / 2 % h;
    assert x == q * a + r by {
      assert q * a == 2 * (q * h);
    }
    ModUnique(x, a, q, r);
  }

  lemma MulBounds(d: int, a: nat)
    ensures d >= 1 ==> d * a >= a
    ensures d <= -1 ==> d * a + a <= 0
  {
    if d >= 1 {
      assert (d - 1) * a >= 0;
    } else if d <= -1 {
      assert (-1 - d) * a >= 0;
    }
  }

  lemma ModUnique(x: int, a: nat, q: int, r: int)
    requires a > 0 && x == q * a + r && 0 <= r < a
    ensures x % a == r && x / a == q
  {
    assert (q - x / a) * a == x % a - r;
    MulBounds(q - x / a, a);
  }

  lemma {:induction false} AndOnes(x: nat, m: nat)
    requires PowerOfTwo(m) && x < m
    ensures And(x, m - 1) == x
    decreases m
  {
    if x != 0 {
      assert (m - 1) / 2 == m / 2 - 1;
      AndOnes(x / 2, m / 2);
    }
  }

  /** Masking with the complement of `a - 1` clears the low bits: it rounds down to a multiple of `a`. */
  lemma {:induction false} AndClearsLowBits(x: nat, a: nat, m: nat)
    requires PowerOfTwo(m) && PowerOfTwo(a) && a <= m && x < m
    ensures And(x, m - a) == RoundDown(x, a)
    decreases m
  {
    if a == 1 {
      AndOnes(x, m);
    } else if x == 0 {
    } else if m == a {
      assert x % a == x by { ModUnique(x, a, 0, x); }
    } else {
      assert (m - a) / 2 == m / 2 - a / 2 && (m - a) % 2 == 0;
      AndClearsLowBits(x / 2, a / 2, m / 2);
      ModHalf(x, a);
    }
  }

  lemma PowerDouble(n: nat)
    requires PowerOfTwo(n)
    ensures PowerOfTwo(2 * n)
  {
    assert 2 * n / 2 == n;
  }

  lemma DoubleProduct(a: nat, h: nat, b: nat)
    requires a == 2 * h
    ensures a * b == 2 * (h * b)
  {
  }

  lemma {:induction false} PowerProduct(a: nat, b: nat)
    requires PowerOfTwo(a) && PowerOfTwo(b)
    ensures PowerOfTwo(a * b)
    decreases a
  {
    if a == 1 {
      assert a * b == b;
    } else {
      var h := a / 2;
      PowerProduct(h, b);
      var p := h * b;
      PowerDouble(p);
      DoubleProduct(a, h, b);
    }
  }

  lemma Two64IsPower()
    ensures PowerOfTwo(TWO64)
  {
    PowerProduct(0x10, 0x10);
    PowerProduct(0x100, 0x100);
    PowerProduct(0x1_0000, 0x1_0000);
    PowerProduct(0x1_0000_0000, 0x1_0000_0000);
  }

  /** Masking with `a - 1` keeps the remainder. */
  lemma {:induction false} AndKeepsLowBits(x: nat, a: nat)
    requires PowerOfTwo(a)
    ensures And(x, a - 1) == x % a
    decreases a
  {
    if a > 1 {
      assert (a - 1) / 2 == a / 2 - 1 && (a - 1) % 2 == 1;
      AndKeepsLowBits(x / 2, a / 2);
      ModHalf(x, a);
    }
  }

  /** `x & ~(a - 1)` on 64 bits, for a power of two `a`. */
  lemma MaskIsRoundDown(x: u64, a: u64)
    requires PowerOfTwo(a)
    ensures And(x, Not(a - 1)) == RoundDown(x, a)
  {
    Two64IsPower();
    AndClearsLowBits(x, a, TWO64);
  }

  /** Two powers of two: the smaller divides the larger. */
  lemma {:induction false} PowersDivide(a: nat, b: nat)
    requires PowerOfTwo(a) && PowerOfTwo(b) && a <= b
    ensures b % a == 0
    decreases b
  {
    if a > 1 {
      PowersDivide(a / 2, b / 2);
      ModHalf(b, a);
    }
  }

  /** A power of two of at least 16 is a multiple of 16. */
  lemma PowerAligned(a: nat)
    requires PowerOfTwo(a) && a >= 16
    ensures a % 16 == 0
  {
    assert PowerOfTwo(16);
    PowersDivide(16, a);
  }

  lemma RoundUpLeast(x: nat, a: nat)
    requires a > 0
    ensures x <= RoundUp(x, a) < x + a && RoundUp(x, a) % a == 0
    ensures forall y: nat :: y >= x && y % a == 0 ==> y >= RoundUp(x, a)
  {
    var u := RoundUp(x, a);
    MultipleMod((x + a - 1) / a, a);
    assert u == (x + a - 1) / a * a;
    forall y: nat | y >= x && y % a == 0 ensures y >= u {
      MultiplesApart(u, y, a);
    }
  }

  lemma MultipleMod(q: int, a: nat)
    requires a > 0
    ensures q * a % a == 0
  {
    ModUnique(q * a, a, q, 0);
  }

  /** Distinct multiples of `a` lie at least `a` apart. */
  lemma MultiplesApart(u: nat, y: nat, a: nat)
    requires a > 0 && u % a == 0 && y % a == 0
    ensures y < u ==> y + a <= u
  {
    var p, q := u / a, y / a;
    assert u == p * a && y == q * a;
    assert u - y == (p - q) * a;
    MulBounds(p - q, a);
  }

  lemma RoundDownSmall(x: nat, a: nat)
    requires x < a
    ensures RoundDown(x, a) == 0
  {
    ModUnique(x, a, 0, x);
  }

  lemma RoundUpFixed(x: nat, a: nat)
    requires a > 0 && x % a == 0
    ensures RoundUp(x, a) == x
  {
    RoundUpLeast(x, a);
  }

  /** A multiple of `b` is a multiple of every divisor of `b`. */
  lemma ModTrans(x: nat, b: nat, a: nat)
    requires a > 0 && b > 0 && x % b == 0 && b % a == 0
    ensures x % a == 0
  {
    var q, d := x / b, b / a;
    assert x == q * b && b == d * a;
    assert q * b == (q * d) * a;
    MultipleMod(q * d, a);
  }
}
