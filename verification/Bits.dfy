/** Bit masks as natural numbers: the C operators `|`, `^` and `1 << c`, and single bits. */
module Bits {

  function Or(x: nat, y: nat): nat {
    if x == 0 then y else if y == 0 then x
    else 2 * Or(x / 2, y / 2) + (if x % 2 == 1 || y % 2 == 1 then 1 else 0)
  }

  function Xor(x: nat, y: nat): nat {
    if x == 0 then y else if y == 0 then x
    else 2 * Xor(x / 2, y / 2) + (if x % 2 != y % 2 then 1 else 0)
  }

  /** 1 << c */
  function Bit(c: nat): (b: nat)
    ensures b > 0
  {
    if c == 0 then 1 else 2 * Bit(c - 1)
  }

  /** mask & (1 << c) is not zero. */
  predicate Has(mask: nat, c: nat) {
    if c == 0 then mask % 2 == 1 else Has(mask / 2, c - 1)
  }

  lemma {:induction false} ZeroHas(c: nat)
    ensures !Has(0, c)
  {
    if c > 0 { ZeroHas(c - 1); }
  }

  lemma OrHalves(x: nat, y: nat)
    ensures Or(x, y) / 2 == Or(x / 2, y / 2) && (Or(x, y) % 2 == 1 <==> x % 2 == 1 || y % 2 == 1)
  {
  }

  lemma XorHalves(x: nat, y: nat)
    ensures Xor(x, y) / 2 == Xor(x / 2, y / 2) && (Xor(x, y) % 2 == 1 <==> x % 2 != y % 2)
  {
  }

  lemma {:induction false} OrHas(x: nat, y: nat, c: nat)
    ensures Has(Or(x, y), c) <==> Has(x, c) || Has(y, c)
    decreases c
  {
    OrHalves(x, y);
    hide Or;
    if c > 0 { OrHas(x / 2, y / 2, c - 1); }
  }

  lemma {:induction false} XorHas(x: nat, y: nat, c: nat)
    ensures Has(Xor(x, y), c) <==> Has(x, c) != Has(y, c)
    decreases c
  {
    XorHalves(x, y);
    hide Xor;
    if c > 0 { XorHas(x / 2, y / 2, c - 1); }
  }

  lemma {:induction false} BitHas(c: nat, d: nat)
    ensures Has(Bit(c), d) <==> c == d
    decreases d
  {
    if c == 0 {
      if d > 0 { ZeroHas(d - 1); }
    } else if d > 0 {
      assert Bit(c) / 2 == Bit(c - 1);
      BitHas(c - 1, d - 1);
    }
  }

  lemma {:induction false} OrBound(x: nat, y: nat, n: nat)
    requires x < Bit(n) && y < Bit(n)
    ensures Or(x, y) < Bit(n)
    decreases n
  {
    if x != 0 && y != 0 {
      assert n > 0;
      OrBound(x / 2, y / 2, n - 1);
    }
  }

  lemma {:induction false} XorBound(x: nat, y: nat, n: nat)
    requires x < Bit(n) && y < Bit(n)
    ensures Xor(x, y) < Bit(n)
    decreases n
  {
    if x != 0 && y != 0 {
      assert n > 0;
      XorBound(x / 2, y / 2, n - 1);
    }
  }

  lemma {:induction false} BitGrows(c: nat, n: nat)
    requires c < n
    ensures Bit(c) < Bit(n)
    decreases n
  {
    if c < n - 1 { BitGrows(c, n - 1); }
  }

  /** A number is its bits. */
  lemma {:induction false} SameBits(x: nat, y: nat, n: nat)
    requires x < Bit(n) && y < Bit(n) && (forall c: nat | c < n :: Has(x, c) == Has(y, c))
    ensures x == y
    decreases n
  {
    if n > 0 {
      assert Has(x, 0) == Has(y, 0);
      forall c: nat | c < n - 1 ensures Has(x / 2, c) == Has(y / 2, c) {
        assert Has(x, c + 1) == Has(y, c + 1);
      }
      SameBits(x / 2, y / 2, n - 1);
    }
  }
}
