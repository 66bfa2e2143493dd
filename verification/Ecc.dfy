/**
 The 7-bit check code of low-latency memory, cvmx_llm_ecc: seven parities of the value under seven
 masks. The code is linear, and 29-bit values with their codes differ in at least four bits.
 */
module Ecc {
  import opened Bits
  import opened Word64

  /** The population count, as the DPOP instruction gives it. */
  function Pop(x: nat): nat { if x == 0 then 0 else x % 2 + Pop(x / 2) }

  const CODE_WIDTH := 29

  function Parity(mask: nat, value: nat): nat { Pop(And(mask, value)) % 2 }

  function Cons(b: nat, rest: nat): nat { b + 2 * rest }

  function Differ(a: nat, b: nat): nat { if a != b then 1 else 0 }

  /** Seven bits put together, the last one lowest. */
  function Pack(b6: nat, b5: nat, b4: nat, b3: nat, b2: nat, b1: nat, b0: nat): nat {
    Cons(b0, Cons(b1, Cons(b2, Cons(b3, Cons(b4, Cons(b5, Cons(b6, 0)))))))
  }

  function Ecc(value: nat): nat {
    Pack(Parity(0x1ffe0000, value), Parity(0x1801ff80, value), Parity(0x0781e07c, value), Parity(0x04711c73, value),
         Parity(0x024c934f, value), Parity(0x112a4aaa, value), Parity(0x08962595, value))
  }

  lemma PackBits(b6: nat, b5: nat, b4: nat, b3: nat, b2: nat, b1: nat, b0: nat)
    requires b6 < 2 && b5 < 2 && b4 < 2 && b3 < 2 && b2 < 2 && b1 < 2 && b0 < 2
    ensures var p := Pack(b6, b5, b4, b3, b2, b1, b0);
            p < 128 && p % 2 == b0 && p / 2 % 2 == b1 && p / 4 % 2 == b2 && p / 8 % 2 == b3
            && p / 16 % 2 == b4 && p / 32 % 2 == b5 && p / 64 % 2 == b6
  {
    hide Cons;
    var p6 := Cons(b6, 0);
    var p5 := Cons(b5, p6);
    var p4 := Cons(b4, p5);
    var p3 := Cons(b3, p4);
    var p2 := Cons(b2, p3);
    var p1 := Cons(b1, p2);
    ConsParts(b6, 0, 0);
    ConsParts(b5, p6, 1);
    ConsParts(b4, p5, 3);
    ConsParts(b3, p4, 7);
    ConsParts(b2, p3, 15);
    ConsParts(b1, p2, 31);
    ConsParts(b0, p1, 63);
    Halves(Cons(b0, p1));
  }

  lemma ConsParts(b: nat, rest: nat, most: nat)
    requires b < 2 && rest <= most
    ensures Cons(b, rest) % 2 == b && Cons(b, rest) / 2 == rest && Cons(b, rest) <= 2 * most + 1
  {
  }

  lemma Halves(x: nat)
    ensures x / 4 == x / 2 / 2 && x / 8 == x / 2 / 2 / 2 && x / 16 == x / 2 / 2 / 2 / 2
    ensures x / 32 == x / 2 / 2 / 2 / 2 / 2 && x / 64 == x / 2 / 2 / 2 / 2 / 2 / 2
  {
  }

  /** The seven bits of the code, lowest first: which bits of the value each is the parity of. */
  lemma EccBits(value: nat)
    ensures Ecc(value) < 128
    ensures Ecc(value) % 2 == Pop(And(0x08962595, value)) % 2
    ensures Ecc(value) / 2 % 2 == Pop(And(0x112a4aaa, value)) % 2
    ensures Ecc(value) / 4 % 2 == Pop(And(0x024c934f, value)) % 2
    ensures Ecc(value) / 8 % 2 == Pop(And(0x04711c73, value)) % 2
    ensures Ecc(value) / 16 % 2 == Pop(And(0x0781e07c, value)) % 2
    ensures Ecc(value) / 32 % 2 == Pop(And(0x1801ff80, value)) % 2
    ensures Ecc(value) / 64 % 2 == Pop(And(0x1ffe0000, value)) % 2
  {
    hide Pack, Pop, And;
    PackBits(Parity(0x1ffe0000, value), Parity(0x1801ff80, value), Parity(0x0781e07c, value), Parity(0x04711c73, value),
             Parity(0x024c934f, value), Parity(0x112a4aaa, value), Parity(0x08962595, value));
  }

  // ---------------------------------------------------------------- bit by bit

  lemma PopHalf(x: nat)
    ensures Pop(x) == Pop(x / 2) + x % 2
  {
  }

  lemma {:induction false} PopXor(x: nat, y: nat)
    ensures Pop(Xor(x, y)) <= Pop(x) + Pop(y) && (Pop(Xor(x, y)) + Pop(x) + Pop(y)) % 2 == 0
    decreases x
  {
    if x == 0 {
    } else {
      hide Pop, Xor;
      PopXor(x / 2, y / 2);
      XorHalves(x, y);
      PopHalf(x);
      PopHalf(y);
      PopHalf(Xor(x, y));
      OddSum(x, y, Xor(x, y), Pop(x / 2) + Pop(y / 2) + Pop(Xor(x / 2, y / 2)));
    }
  }

  lemma OddSum(x: nat, y: nat, s: nat, total: nat)
    requires total % 2 == 0 && (s % 2 == 1 <==> x % 2 != y % 2)
    ensures (total + x % 2 + y % 2 + s % 2) % 2 == 0 && s % 2 <= x % 2 + y % 2
  {
  }

  lemma AndHalves(x: nat, y: nat)
    ensures And(x, y) / 2 == And(x / 2, y / 2) && (And(x, y) % 2 == 1 <==> x % 2 == 1 && y % 2 == 1)
  {
  }

  lemma {:induction false} AndXor(m: nat, x: nat, y: nat)
    ensures And(m, Xor(x, y)) == Xor(And(m, x), And(m, y))
    decreases m
  {
    if m != 0 {
      AndXor(m / 2, x / 2, y / 2);
      AndHalves(m, x);
      AndHalves(m, y);
      XorHalves(x, y);
      AndHalves(m, Xor(x, y));
      XorHalves(And(m, x), And(m, y));
      hide And, Xor;
      var l, r := And(m, Xor(x, y)), Xor(And(m, x), And(m, y));
      assert l / 2 == r / 2 && l % 2 == r % 2;
    }
  }

  lemma ParityXor(m: nat, x: nat, y: nat)
    ensures Parity(m, Xor(x, y)) == Differ(Parity(m, x), Parity(m, y))
  {
    hide And, Xor, Pop;
    AndXor(m, x, y);
    PopXor(And(m, x), And(m, y));
    SumEven(Pop(And(m, x)), Pop(And(m, y)), Pop(And(m, Xor(x, y))));
  }

  lemma SumEven(a: nat, b: nat, c: nat)
    requires (c + a + b) % 2 == 0
    ensures c % 2 == Differ(a % 2, b % 2)
  {
  }

  lemma XorCons(a: nat, b: nat, x: nat, y: nat)
    requires a < 2 && b < 2
    ensures Xor(Cons(a, x), Cons(b, y)) == Cons(Differ(a, b), Xor(x, y))
  {
  }

  /** The code is linear over exclusive or, for values of any width. */
  lemma EccLinear(x: nat, y: nat)
    ensures Ecc(Xor(x, y)) == Xor(Ecc(x), Ecc(y))
  {
    ParityXor(0x1ffe0000, x, y);
    ParityXor(0x1801ff80, x, y);
    ParityXor(0x0781e07c, x, y);
    ParityXor(0x04711c73, x, y);
    ParityXor(0x024c934f, x, y);
    ParityXor(0x112a4aaa, x, y);
    ParityXor(0x08962595, x, y);
    PackXor(Parity(0x1ffe0000, x), Parity(0x1801ff80, x), Parity(0x0781e07c, x), Parity(0x04711c73, x),
            Parity(0x024c934f, x), Parity(0x112a4aaa, x), Parity(0x08962595, x),
            Parity(0x1ffe0000, y), Parity(0x1801ff80, y), Parity(0x0781e07c, y), Parity(0x04711c73, y),
            Parity(0x024c934f, y), Parity(0x112a4aaa, y), Parity(0x08962595, y));
    hide Parity, Pack, Xor;
  }

  lemma PackXor(a6: nat, a5: nat, a4: nat, a3: nat, a2: nat, a1: nat, a0: nat,
                b6: nat, b5: nat, b4: nat, b3: nat, b2: nat, b1: nat, b0: nat)
    requires a6 < 2 && a5 < 2 && a4 < 2 && a3 < 2 && a2 < 2 && a1 < 2 && a0 < 2
    requires b6 < 2 && b5 < 2 && b4 < 2 && b3 < 2 && b2 < 2 && b1 < 2 && b0 < 2
    ensures Xor(Pack(a6, a5, a4, a3, a2, a1, a0), Pack(b6, b5, b4, b3, b2, b1, b0))
            == Pack(Differ(a6, b6), Differ(a5, b5), Differ(a4, b4), Differ(a3, b3), Differ(a2, b2), Differ(a1, b1), Differ(a0, b0))
  {
    assert Xor(0, 0) == 0;
    hide Xor, Cons, Differ;
    var x6, y6 := Cons(a6, 0), Cons(b6, 0);
    var x5, y5 := Cons(a5, x6), Cons(b5, y6);
    var x4, y4 := Cons(a4, x5), Cons(b4, y5);
    var x3, y3 := Cons(a3, x4), Cons(b3, y4);
    var x2, y2 := Cons(a2, x3), Cons(b2, y3);
    XorCons(a6, b6, 0, 0);
    XorCons(a5, b5, x6, y6);
    XorCons(a4, b4, x5, y5);
    XorCons(a3, b3, x4, y4);
    XorCons(a2, b2, x3, y3);
    XorCons(a1, b1, x2, y2);
    XorCons(a0, b0, Cons(a1, x2), Cons(b1, y2));
  }

  // ---------------------------------------------------------------- single bits

  lemma {:induction false} AndBit(m: nat, b: nat)
    ensures And(m, Bit(b)) == if Has(m, b) then Bit(b) else 0
    decreases b
  {
    AndHalves(m, Bit(b));
    if b > 0 {
      assert Bit(b) / 2 == Bit(b - 1) && Bit(b) % 2 == 0;
      AndBit(m / 2, b - 1);
    }
    hide And;
    if b == 0 {
      assert And(m / 2, 0) == 0 by { AndNothing(m / 2); }
    }
  }

  lemma AndNothing(m: nat)
    ensures And(m, 0) == 0
  {
  }

  lemma {:induction false} PopBit(b: nat)
    ensures Pop(Bit(b)) == 1
  {
    if b > 0 {
      PopBit(b - 1);
      assert Bit(b) / 2 == Bit(b - 1) && Bit(b) % 2 == 0;
    }
  }

  // ---------------------------------------------------------------- which data bit goes into which code bits

  // The masks written out: data bit `b` goes into code bit `i`.

  predicate Feeds0(b: nat) {
    || b == 0 || b == 2 || b == 4 || b == 7 || b == 8 || b == 10
    || b == 13 || b == 17 || b == 18 || b == 20 || b == 23 || b == 27
  }

  predicate Feeds1(b: nat) {
    || b == 1 || b == 3 || b == 5 || b == 7 || b == 9 || b == 11
    || b == 14 || b == 17 || b == 19 || b == 21 || b == 24 || b == 28
  }

  predicate Feeds2(b: nat) {
    || 0 <= b <= 3 || b == 6 || b == 8 || b == 9 || b == 12
    || b == 15 || b == 18 || b == 19 || b == 22 || b == 25
  }

  predicate Feeds3(b: nat) { b == 0 || b == 1 || 4 <= b <= 6 || 10 <= b <= 12 || b == 16 || 20 <= b <= 22 || b == 26 }

  predicate Feeds4(b: nat) { 2 <= b <= 6 || 13 <= b <= 16 || 23 <= b <= 26 }

  predicate Feeds5(b: nat) { 7 <= b <= 16 || b == 27 || b == 28 }

  predicate Feeds6(b: nat) { 17 <= b <= 28 }

  predicate Feeds(b: nat, i: nat) {
    match i
    case 0 => Feeds0(b)
    case 1 => Feeds1(b)
    case 2 => Feeds2(b)
    case 3 => Feeds3(b)
    case 4 => Feeds4(b)
    case 5 => Feeds5(b)
    case 6 => Feeds6(b)
    case _ => false
  }

  /** The mask of code bit `i` that the table gives, from data bit `b` on. */
  function MaskFrom(i: nat, b: nat): nat
    decreases CODE_WIDTH - b
  {
    if b >= CODE_WIDTH then 0 else (if Feeds(b, i) then 1 else 0) + 2 * MaskFrom(i, b + 1)
  }

  function Fed(b: nat, i: nat): nat { if Feeds(b, i) then 1 else 0 }

  /** Four bits of the mask, one hexadecimal digit. */
  function Digit(i: nat, b: nat): nat { Fed(b, i) + 2 * Fed(b + 1, i) + 4 * Fed(b + 2, i) + 8 * Fed(b + 3, i) }

  lemma MaskDigit(i: nat, b: nat)
    ensures MaskFrom(i, b) == Digit(i, b) + 16 * MaskFrom(i, b + 4)
  {
    assert MaskFrom(i, b) == Fed(b, i) + 2 * MaskFrom(i, b + 1);
    assert MaskFrom(i, b + 1) == Fed(b + 1, i) + 2 * MaskFrom(i, b + 2);
    assert MaskFrom(i, b + 2) == Fed(b + 2, i) + 2 * MaskFrom(i, b + 3);
    assert MaskFrom(i, b + 3) == Fed(b + 3, i) + 2 * MaskFrom(i, b + 4);
  }

  lemma MaskEnds(i: nat, b: nat)
    requires b >= 32
    ensures MaskFrom(i, b) == 0
  {
  }

  lemma MaskOf(i: nat, z: nat, d7: nat, d6: nat, d5: nat, d4: nat, d3: nat, d2: nat, d1: nat, d0: nat)
    requires z == 0 && Digit(i, z) == d0 && Digit(i, z + 4) == d1 && Digit(i, z + 8) == d2 && Digit(i, z + 12) == d3
    requires Digit(i, z + 16) == d4 && Digit(i, z + 20) == d5 && Digit(i, z + 24) == d6 && Digit(i, z + 28) == d7
    ensures MaskFrom(i, z) == d0 + 16 * (d1 + 16 * (d2 + 16 * (d3 + 16 * (d4 + 16 * (d5 + 16 * (d6 + 16 * d7))))))
  {
    hide *;
    MaskDigit(i, z);
    MaskDigit(i, z + 4);
    MaskDigit(i, z + 8);
    MaskDigit(i, z + 12);
    MaskDigit(i, z + 16);
    MaskDigit(i, z + 20);
    MaskDigit(i, z + 24);
    MaskDigit(i, z + 28);
    MaskEnds(i, z + 32);
  }

  // The table is that of the source's masks. The arguments are fixed by requirements rather than
  // written as literals, which would be computed with instead of reasoned about.

  lemma LowDigits0(i: nat, z: nat)
    requires i == 0 && z == 0
    ensures Digit(i, z) == 0x5 && Digit(i, z + 4) == 0x9 && Digit(i, z + 8) == 0x5 && Digit(i, z + 12) == 0x2
  {
    hide Feeds1, Feeds2, Feeds3, Feeds4, Feeds5, Feeds6;
  }

  lemma HighDigits0(i: nat, z: nat)
    requires i == 0 && z == 0
    ensures Digit(i, z + 16) == 0x6 && Digit(i, z + 20) == 0x9 && Digit(i, z + 24) == 0x8 && Digit(i, z + 28) == 0x0
  {
    hide Feeds1, Feeds2, Feeds3, Feeds4, Feeds5, Feeds6;
  }

  lemma Mask0(i: nat, z: nat)
    requires i == 0 && z == 0
    ensures MaskFrom(i, z) == 0x08962595
  {
    hide *;
    LowDigits0(i, z);
    HighDigits0(i, z);
    MaskOf(i, z, 0x0, 0x8, 0x9, 0x6, 0x2, 0x5, 0x9, 0x5);
  }

  lemma LowDigits1(i: nat, z: nat)
    requires i == 1 && z == 0
    ensures Digit(i, z) == 0xa && Digit(i, z + 4) == 0xa && Digit(i, z + 8) == 0xa && Digit(i, z + 12) == 0x4
  {
    hide Feeds0, Feeds2, Feeds3, Feeds4, Feeds5, Feeds6;
  }

  lemma HighDigits1(i: nat, z: nat)
    requires i == 1 && z == 0
    ensures Digit(i, z + 16) == 0xa && Digit(i, z + 20) == 0x2 && Digit(i, z + 24) == 0x1 && Digit(i, z + 28) == 0x1
  {
    hide Feeds0, Feeds2, Feeds3, Feeds4, Feeds5, Feeds6;
  }

  lemma Mask1(i: nat, z: nat)
    requires i == 1 && z == 0
    ensures MaskFrom(i, z) == 0x112a4aaa
  {
    hide *;
    LowDigits1(i, z);
    HighDigits1(i, z);
    MaskOf(i, z, 0x1, 0x1, 0x2, 0xa, 0x4, 0xa, 0xa, 0xa);
  }

  lemma LowDigits2(i: nat, z: nat)
    requires i == 2 && z == 0
    ensures Digit(i, z) == 0xf && Digit(i, z + 4) == 0x4 && Digit(i, z + 8) == 0x3 && Digit(i, z + 12) == 0x9
  {
    hide Feeds0, Feeds1, Feeds3, Feeds4, Feeds5, Feeds6;
  }

  lemma HighDigits2(i: nat, z: nat)
    requires i == 2 && z == 0
    ensures Digit(i, z + 16) == 0xc && Digit(i, z + 20) == 0x4 && Digit(i, z + 24) == 0x2 && Digit(i, z + 28) == 0x0
  {
    hide Feeds0, Feeds1, Feeds3, Feeds4, Feeds5, Feeds6;
  }

  lemma Mask2(i: nat, z: nat)
    requires i == 2 && z == 0
    ensures MaskFrom(i, z) == 0x024c934f
  {
    hide *;
    LowDigits2(i, z);
    HighDigits2(i, z);
    MaskOf(i, z, 0x0, 0x2, 0x4, 0xc, 0x9, 0x3, 0x4, 0xf);
  }

  lemma LowDigits3(i: nat, z: nat)
    requires i == 3 && z == 0
    ensures Digit(i, z) == 0x3 && Digit(i, z + 4) == 0x7 && Digit(i, z + 8) == 0xc && Digit(i, z + 12) == 0x1
  {
    hide Feeds0, Feeds1, Feeds2, Feeds4, Feeds5, Feeds6;
  }

  lemma HighDigits3(i: nat, z: nat)
    requires i == 3 && z == 0
    ensures Digit(i, z + 16) == 0x1 && Digit(i, z + 20) == 0x7 && Digit(i, z + 24) == 0x4 && Digit(i, z + 28) == 0x0
  {
    hide Feeds0, Feeds1, Feeds2, Feeds4, Feeds5, Feeds6;
  }

  lemma Mask3(i: nat, z: nat)
    requires i == 3 && z == 0
    ensures MaskFrom(i, z) == 0x04711c73
  {
    hide *;
    LowDigits3(i, z);
    HighDigits3(i, z);
    MaskOf(i, z, 0x0, 0x4, 0x7, 0x1, 0x1, 0xc, 0x7, 0x3);
  }

  lemma LowDigits4(i: nat, z: nat)
    requires i == 4 && z == 0
    ensures Digit(i, z) == 0xc && Digit(i, z + 4) == 0x7 && Digit(i, z + 8) == 0x0 && Digit(i, z + 12) == 0xe
  {
    hide Feeds0, Feeds1, Feeds2, Feeds3, Feeds5, Feeds6;
  }

  lemma HighDigits4(i: nat, z: nat)
    requires i == 4 && z == 0
    ensures Digit(i, z + 16) == 0x1 && Digit(i, z + 20) == 0x8 && Digit(i, z + 24) == 0x7 && Digit(i, z + 28) == 0x0
  {
    hide Feeds0, Feeds1, Feeds2, Feeds3, Feeds5, Feeds6;
  }

  lemma Mask4(i: nat, z: nat)
    requires i == 4 && z == 0
    ensures MaskFrom(i, z) == 0x0781e07c
  {
    hide *;
    LowDigits4(i, z);
    HighDigits4(i, z);
    MaskOf(i, z, 0x0, 0x7, 0x8, 0x1, 0xe, 0x0, 0x7, 0xc);
  }

  lemma LowDigits5(i: nat, z: nat)
    requires i == 5 && z == 0
    ensures Digit(i, z) == 0x0 && Digit(i, z + 4) == 0x8 && Digit(i, z + 8) == 0xf && Digit(i, z + 12) == 0xf
  {
    hide Feeds0, Feeds1, Feeds2, Feeds3, Feeds4, Feeds6;
  }

  lemma HighDigits5(i: nat, z: nat)
    requires i == 5 && z == 0
    ensures Digit(i, z + 16) == 0x1 && Digit(i, z + 20) == 0x0 && Digit(i, z + 24) == 0x8 && Digit(i, z + 28) == 0x1
  {
    hide Feeds0, Feeds1, Feeds2, Feeds3, Feeds4, Feeds6;
  }

  lemma Mask5(i: nat, z: nat)
    requires i == 5 && z == 0
    ensures MaskFrom(i, z) == 0x1801ff80
  {
    hide *;
    LowDigits5(i, z);
    HighDigits5(i, z);
    MaskOf(i, z, 0x1, 0x8, 0x0, 0x1, 0xf, 0xf, 0x8, 0x0);
  }

  lemma LowDigits6(i: nat, z: nat)
    requires i == 6 && z == 0
    ensures Digit(i, z) == 0x0 && Digit(i, z + 4) == 0x0 && Digit(i, z + 8) == 0x0 && Digit(i, z + 12) == 0x0
  {
    hide Feeds0, Feeds1, Feeds2, Feeds3, Feeds4, Feeds5;
  }

  lemma HighDigits6(i: nat, z: nat)
    requires i == 6 && z == 0
    ensures Digit(i, z + 16) == 0xe && Digit(i, z + 20) == 0xf && Digit(i, z + 24) == 0xf && Digit(i, z + 28) == 0x1
  {
    hide Feeds0, Feeds1, Feeds2, Feeds3, Feeds4, Feeds5;
  }

  lemma Mask6(i: nat, z: nat)
    requires i == 6 && z == 0
    ensures MaskFrom(i, z) == 0x1ffe0000
  {
    hide *;
    LowDigits6(i, z);
    HighDigits6(i, z);
    MaskOf(i, z, 0x1, 0xf, 0xf, 0xe, 0x0, 0x0, 0x0, 0x0);
  }

  lemma {:induction false} MaskHas(i: nat, b: nat, k: nat)
    ensures Has(MaskFrom(i, b), k) <==> Feeds(b + k, i)
    decreases k
  {
    hide Feeds;
    if b >= CODE_WIDTH {
      ZeroHas(k);
      FeedsInside(b + k, i);
    } else if k > 0 {
      MaskHas(i, b + 1, k - 1);
    }
  }

  lemma FeedsInside(b: nat, i: nat)
    ensures Feeds(b, i) ==> b < CODE_WIDTH
  {
  }

  lemma ThreeEach(b: nat)
    requires b < CODE_WIDTH
    ensures Fed(b, 0) + Fed(b, 1) + Fed(b, 2) + Fed(b, 3) + Fed(b, 4) + Fed(b, 5) + Fed(b, 6) == 3
  {
  }

  lemma NoTwoAlike(b: nat, c: nat)
    requires b < c < CODE_WIDTH
    ensures exists i :: 0 <= i < 7 && Fed(b, i) != Fed(c, i)
  {
    assert Fed(b, 0) != Fed(c, 0) || Fed(b, 1) != Fed(c, 1) || Fed(b, 2) != Fed(c, 2) || Fed(b, 3) != Fed(c, 3)
           || Fed(b, 4) != Fed(c, 4) || Fed(b, 5) != Fed(c, 5) || Fed(b, 6) != Fed(c, 6);
  }

  lemma ParityBit(m: nat, i: nat, z: nat, b: nat)
    requires z == 0 && MaskFrom(i, z) == m
    ensures Parity(m, Bit(b)) == Fed(b, i)
  {
    AndBit(m, b);
    PopBit(b);
    MaskHas(i, z, b);
    hide MaskFrom, Has, And, Feeds;
  }

  function Column(b: nat): nat {
    Pack(Fed(b, 6), Fed(b, 5), Fed(b, 4), Fed(b, 3), Fed(b, 2), Fed(b, 1), Fed(b, 0))
  }

  lemma ParityOfBit(b: nat, z: nat)
    requires z == 0
    ensures Parity(0x08962595, Bit(b)) == Fed(b, z) && Parity(0x112a4aaa, Bit(b)) == Fed(b, z + 1)
    ensures Parity(0x024c934f, Bit(b)) == Fed(b, z + 2) && Parity(0x04711c73, Bit(b)) == Fed(b, z + 3)
    ensures Parity(0x0781e07c, Bit(b)) == Fed(b, z + 4) && Parity(0x1801ff80, Bit(b)) == Fed(b, z + 5)
    ensures Parity(0x1ffe0000, Bit(b)) == Fed(b, z + 6)
  {
    hide *;
    Mask0(z, z);
    Mask1(z + 1, z);
    Mask2(z + 2, z);
    Mask3(z + 3, z);
    Mask4(z + 4, z);
    Mask5(z + 5, z);
    Mask6(z + 6, z);
    ParityBit(0x08962595, z, z, b);
    ParityBit(0x112a4aaa, z + 1, z, b);
    ParityBit(0x024c934f, z + 2, z, b);
    ParityBit(0x04711c73, z + 3, z, b);
    ParityBit(0x0781e07c, z + 4, z, b);
    ParityBit(0x1801ff80, z + 5, z, b);
    ParityBit(0x1ffe0000, z + 6, z, b);
  }

  /** The code of a single bit; of a bit above the 29 it is zero. */
  lemma EccBit(b: nat)
    ensures Ecc(Bit(b)) == Column(b)
  {
    hide Parity, Fed, Pack, Bit;
    ParityOfBit(b, 0);
  }

  // ---------------------------------------------------------------- weights

  lemma PopCons(b: nat, x: nat)
    requires b < 2
    ensures Pop(Cons(b, x)) == b + Pop(x)
  {
  }

  lemma PopPack(b6: nat, b5: nat, b4: nat, b3: nat, b2: nat, b1: nat, b0: nat)
    requires b6 < 2 && b5 < 2 && b4 < 2 && b3 < 2 && b2 < 2 && b1 < 2 && b0 < 2
    ensures Pop(Pack(b6, b5, b4, b3, b2, b1, b0)) == b6 + b5 + b4 + b3 + b2 + b1 + b0
  {
    var x6 := Cons(b6, 0);
    var x5 := Cons(b5, x6);
    var x4 := Cons(b4, x5);
    var x3 := Cons(b3, x4);
    var x2 := Cons(b2, x3);
    var x1 := Cons(b1, x2);
    assert Pop(0) == 0;
    hide Cons, Pop;
    PopCons(b6, 0);
    PopCons(b5, x6);
    PopCons(b4, x5);
    PopCons(b3, x4);
    PopCons(b2, x3);
    PopCons(b1, x2);
    PopCons(b0, x1);
  }

  lemma ColumnWeight(b: nat)
    requires b < CODE_WIDTH
    ensures Pop(Column(b)) == 3
  {
    ThreeEach(b);
    PopPack(Fed(b, 6), Fed(b, 5), Fed(b, 4), Fed(b, 3), Fed(b, 2), Fed(b, 1), Fed(b, 0));
    hide Feeds, Pop, Pack;
  }

  lemma ColumnsDiffer(b: nat, c: nat)
    requires b < c < CODE_WIDTH
    ensures Pop(Xor(Column(b), Column(c))) >= 1
  {
    NoTwoAlike(b, c);
    hide Feeds, Pop, Xor, Pack;
    PackXor(Fed(b, 6), Fed(b, 5), Fed(b, 4), Fed(b, 3), Fed(b, 2), Fed(b, 1), Fed(b, 0),
            Fed(c, 6), Fed(c, 5), Fed(c, 4), Fed(c, 3), Fed(c, 2), Fed(c, 1), Fed(c, 0));
    PopPack(Differ(Fed(b, 6), Fed(c, 6)), Differ(Fed(b, 5), Fed(c, 5)), Differ(Fed(b, 4), Fed(c, 4)), Differ(Fed(b, 3), Fed(c, 3)),
            Differ(Fed(b, 2), Fed(c, 2)), Differ(Fed(b, 1), Fed(c, 1)), Differ(Fed(b, 0), Fed(c, 0)));
  }

  lemma {:induction false} XorTop(k: nat, w: nat)
    requires w < Bit(k)
    ensures Xor(Bit(k), w) == Bit(k) + w
    decreases k
  {
    if k > 0 {
      XorTop(k - 1, w / 2);
      XorHalves(Bit(k), w);
      assert Bit(k) / 2 == Bit(k - 1) && Bit(k) % 2 == 0;
      hide Xor;
    }
  }

  lemma {:induction false} PopTop(k: nat, w: nat)
    requires w < Bit(k)
    ensures Pop(Bit(k) + w) == 1 + Pop(w)
    decreases k
  {
    if k == 0 {
      assert Pop(1) == 1 + Pop(0);
    } else {
      PopTop(k - 1, w / 2);
      PopHalf(Bit(k) + w);
      PopHalf(w);
      hide Pop;
    }
  }

  /** The highest bit of a value, and the rest below it. */
  lemma {:induction false} TopBit(v: nat, n: nat) returns (k: nat, w: nat)
    requires 0 < v < Bit(n)
    ensures k < n && w < Bit(k) && v == Xor(Bit(k), w) && Pop(v) == 1 + Pop(w)
    decreases n
  {
    if v < Bit(n - 1) {
      k, w := TopBit(v, n - 1);
    } else {
      k, w := n - 1, v - Bit(n - 1);
      hide Xor, Pop;
      XorTop(k, w);
      PopTop(k, w);
    }
  }

  lemma PopZero(v: nat)
    ensures Pop(v) == 0 <==> v == 0
  {
    if v != 0 && v % 2 == 0 { PopZero(v / 2); }
  }

  /** One more bit on top changes the weight of value and code by one and three, parities apart. */
  lemma TopBitWeight(k: nat, w: nat)
    requires k < CODE_WIDTH
    ensures (Pop(Ecc(Xor(Bit(k), w))) + 3 + Pop(Ecc(w))) % 2 == 0
    ensures w == 0 ==> Pop(Ecc(Xor(Bit(k), w))) == 3
  {
    EccZero();
    hide *;
    EccLinear(Bit(k), w);
    EccBit(k);
    ColumnWeight(k);
    PopXor(Column(k), Ecc(w));
    XorZero(Column(k));
  }

  /** A value and its code have evenly many ones together. */
  lemma {:induction false} EvenWeight(v: nat, n: nat)
    requires v < Bit(n) && n <= CODE_WIDTH
    ensures (Pop(v) + Pop(Ecc(v))) % 2 == 0
    decreases n
  {
    hide Ecc, Pop, Xor, Bit;
    if v == 0 {
      EccZero();
    } else {
      var k, w := TopBit(v, n);
      EvenWeight(w, k);
      TopBitWeight(k, w);
    }
  }

  lemma EccZero()
    ensures Ecc(0) == 0 && Pop(0) == 0
  {
    EccLinear(0, 0);
    XorSelf(Ecc(0));
  }

  lemma {:induction false} XorSelf(x: nat)
    ensures Xor(x, x) == 0
  {
    if x != 0 {
      XorSelf(x / 2);
    }
  }

  /** Two bits have a code other than zero. */
  lemma TwoBits(j: nat, k: nat)
    requires j < k < CODE_WIDTH
    ensures Pop(Ecc(Xor(Bit(k), Bit(j)))) >= 1
  {
    hide *;
    EccLinear(Bit(k), Bit(j));
    EccBit(k);
    EccBit(j);
    ColumnsDiffer(j, k);
    XorSymmetric(Column(j), Column(k));
  }

  /** A value other than zero and its code have at least four ones together. */
  lemma MinimumWeight(v: nat, n: nat)
    requires 0 < v < Bit(n) && n <= CODE_WIDTH
    ensures Pop(v) + Pop(Ecc(v)) >= 4
  {
    hide Ecc, Pop, Xor, Bit;
    EvenWeight(v, n);
    var k, w := TopBit(v, n);
    if w == 0 {
      TopBitWeight(k, w);
      PopZero(w);
    } else {
      var j, u := TopBit(w, k);
      PopZero(u);
      if u == 0 {
        XorZero(Bit(j));
        TwoBits(j, k);
      }
    }
  }

  lemma XorZero(x: nat)
    ensures Xor(x, 0) == x
  {
  }

  lemma {:induction false} XorSymmetric(x: nat, y: nat)
    ensures Xor(x, y) == Xor(y, x)
    decreases x
  {
    if x != 0 && y != 0 { XorSymmetric(x / 2, y / 2); }
  }

  // ---------------------------------------------------------------- code words

  const TWO29 := 0x2000_0000

  /** The 36-bit memory word: 29 bits of data below 7 bits of code. */
  function Word(v: nat): nat { v + TWO29 * Ecc(v) }

  function Distance(x: nat, y: nat): nat { Pop(Xor(x, y)) }

  /** The low `n` bits of `a` below `b`. */
  function Join(a: nat, b: nat, n: nat): nat { if n == 0 then b else a % 2 + 2 * Join(a / 2, b, n - 1) }

  lemma {:induction false} JoinIs(a: nat, b: nat, n: nat)
    requires a < Bit(n)
    ensures Join(a, b, n) == a + Bit(n) * b
  {
    if n > 0 {
      JoinIs(a / 2, b, n - 1);
      assert Bit(n) * b == 2 * (Bit(n - 1) * b);
    }
  }

  lemma {:induction false} JoinDistance(a: nat, b: nat, c: nat, d: nat, n: nat)
    requires a < Bit(n) && c < Bit(n)
    ensures Distance(Join(a, b, n), Join(c, d, n)) == Distance(a, c) + Distance(b, d)
  {
    if n == 0 {
      assert Xor(0, 0) == 0 && Pop(0) == 0;
    } else {
      JoinDistance(a / 2, b, c / 2, d, n - 1);
      DistanceHalves(a, c);
      DistanceHalves(Join(a, b, n), Join(c, d, n));
      hide Distance;
    }
  }

  lemma DistanceHalves(x: nat, y: nat)
    ensures Distance(x, y) == Distance(x / 2, y / 2) + Differ(x % 2, y % 2)
  {
    XorHalves(x, y);
    hide Xor;
  }

  lemma {:induction false} TwoTo29()
    ensures Bit(CODE_WIDTH) == TWO29
  {
    assert Bit(8) == 0x100;
    assert Bit(15) == 0x8000 by { assert Bit(12) == 0x1000; }
    assert Bit(22) == 0x40_0000 by { assert Bit(19) == 0x8_0000; }
    assert Bit(26) == 0x400_0000;
  }

  lemma WordDistance(x: nat, y: nat)
    requires x < TWO29 && y < TWO29
    ensures Distance(Word(x), Word(y)) == Distance(x, y) + Distance(Ecc(x), Ecc(y))
  {
    TwoTo29();
    hide Ecc, Bit, Join, Distance;
    JoinIs(x, Ecc(x), CODE_WIDTH);
    JoinIs(y, Ecc(y), CODE_WIDTH);
    JoinDistance(x, Ecc(x), y, Ecc(y), CODE_WIDTH);
  }

  lemma {:induction false} XorNotZero(x: nat, y: nat)
    requires x != y
    ensures Xor(x, y) != 0
    decreases x
  {
    if x != 0 && y != 0 && x % 2 == y % 2 { XorNotZero(x / 2, y / 2); }
  }

  /** The words of two different 29-bit values differ in at least four bits. */
  lemma MinimumDistance(x: nat, y: nat)
    requires x < TWO29 && y < TWO29 && x != y
    ensures Distance(Word(x), Word(y)) >= 4
  {
    TwoTo29();
    hide Ecc, Bit, Xor, Pop, Word;
    WordDistance(x, y);
    EccLinear(x, y);
    XorNotZero(x, y);
    XorBound(x, y, CODE_WIDTH);
    MinimumWeight(Xor(x, y), CODE_WIDTH);
  }

  lemma {:induction false} Triangle(x: nat, y: nat, z: nat)
    ensures Distance(x, z) <= Distance(x, y) + Distance(y, z) && Distance(x, y) == Distance(y, x)
    decreases x + y + z
  {
    if x == 0 && y == 0 && z == 0 {
    } else {
      Triangle(x / 2, y / 2, z / 2);
      DistanceHalves(x, z);
      DistanceHalves(x, y);
      DistanceHalves(y, z);
      DistanceHalves(y, x);
      hide Distance;
    }
  }

  /** A word with at most one wrong bit comes from one value only, whichever of the 36 bits it is. */
  lemma SingleErrorCorrectable(word: nat, x: nat, y: nat)
    requires x < TWO29 && y < TWO29 && Distance(word, Word(x)) <= 1 && Distance(word, Word(y)) <= 1
    ensures x == y
  {
    hide Distance, Word;
    if x != y {
      MinimumDistance(x, y);
      Triangle(Word(x), word, Word(y));
      Triangle(word, Word(x), word);
      assert false;
    }
  }

  /** A word with two wrong bits is not taken for one with fewer: the double error is seen. */
  lemma DoubleErrorDetectable(word: nat, x: nat, y: nat)
    requires x < TWO29 && y < TWO29 && Distance(word, Word(x)) == 2
    ensures Distance(word, Word(y)) >= 2
  {
    hide Distance, Word;
    if x != y {
      MinimumDistance(x, y);
      Triangle(Word(x), word, Word(y));
      Triangle(word, Word(x), word);
    }
  }
}
