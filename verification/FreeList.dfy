/**
 The boot-memory free list as a sequence of blocks: what a first-fit allocation and a
 coalescing free do to it, and what the resulting lists mean as sets of bytes.
 */
module FreeList {
  import opened Word64

  const ALIGNMENT_SIZE := 16
  /** Physical addresses stay below bit 63, which octeon_xkphys reserves. */
  const PHYS_LIMIT := 0x8000_0000_0000_0000

  datatype Block = Block(addr: int, size: int) {
    function End(): int { addr + size }
    predicate Holds(x: int) { addr <= x < End() }
    predicate Good() {
      && 16 <= addr && addr % 16 == 0
      && 0 < size && size % 16 == 0
      && End() <= PHYS_LIMIT
    }
  }

  predicate Sorted(l: seq<Block>) {
    && (forall i | 0 <= i < |l| :: l[i].Good())
    && (forall i, j | 0 <= i < j < |l| :: l[i].End() <= l[j].addr)
  }

  /** No two entries touch: every maximal run of free bytes is one entry. */
  predicate Canonical(l: seq<Block>) {
    && Sorted(l)
    && (forall i, j | 0 <= i < j < |l| :: l[i].End() < l[j].addr)
  }

  predicate Has(l: seq<Block>, x: int) {
    exists i :: 0 <= i < |l| && l[i].Holds(x)
  }

  /** Bytes in entries of at least `min` bytes. */
  function Total(l: seq<Block>, min: int): int {
    if l == [] then 0
    else (if l[0].size >= min then l[0].size else 0) + Total(l[1..], min)
  }

  lemma HasCons(b: Block, l: seq<Block>, x: int)
    ensures Has([b] + l, x) <==> b.Holds(x) || Has(l, x)
  {
    var m := [b] + l;
    if b.Holds(x) {
      assert m[0].Holds(x);
    }
    if Has(l, x) {
      var i :| 0 <= i < |l| && l[i].Holds(x);
      assert m[i + 1].Holds(x);
    }
  }

  lemma HasSplit(l: seq<Block>, x: int)
    requires l != []
    ensures Has(l, x) <==> l[0].Holds(x) || Has(l[1..], x)
  {
    assert l == [l[0]] + l[1..];
    HasCons(l[0], l[1..], x);
  }

  // ---------------------------------------------------------------- the request

  /** A validated request: rounded size, rounded minimum, maximum, enforced alignment. */
  datatype Request = Request(size: u64, lo: u64, hi: u64, align: u64) {
    /** What every request is like; one of more than 2^64-16 bytes has come to ask for none. */
    predicate Shaped() {
      && size % 16 == 0
      && 16 <= align && PowerOfTwo(align)
      && lo % align == 0
    }

    predicate Valid() { Shaped() && size >= 16 }
  }

  datatype Option<T> = None | Some(value: T)

  /** `(x + (a - 1)) & ~(a - 1)` with 64-bit wrap-around. */
  function MaskUp(x: u64, a: u64): u64
    requires a > 0
  {
    And(Add(x, a - 1), Not(a - 1))
  }

  /** Argument checks and adjustments made before the list is looked at. */
  function Prepare(size: u64, addressMin: u64, addressMax: u64, alignment: u64): Option<Request> {
    var rounded := MaskUp(size, ALIGNMENT_SIZE);
    var hi := if addressMin != 0 && addressMax == 0 then Add(addressMin, rounded)
              else if addressMin == 0 && addressMax == 0 then TWO64 - 1
              else addressMax;
    var lo := if alignment != 0 then MaskUp(addressMin, alignment) else addressMin;
    if size == 0 || And(addressMin, ALIGNMENT_SIZE - 1) != 0 || rounded > Sub(hi, lo) then None
    else Some(Request(rounded, lo, hi, if alignment < ALIGNMENT_SIZE then ALIGNMENT_SIZE else alignment))
  }

  // ---------------------------------------------------------------- the walk

  /** The first suitably aligned address at or after the entry and the minimum. */
  function Base(b: Block, q: Request): u64
    requires b.Good() && q.align > 0
  {
    MaskUp(if q.lo > b.addr then q.lo else b.addr, q.align)
  }

  /** The entry test; the last subtraction wraps when the base lies above the maximum. */
  predicate Fits(b: Block, q: Request)
    requires b.Good() && q.align > 0
  {
    var base := Base(b, q);
    var top := if q.hi < b.End() then q.hi else b.End();
    b.End() > base && b.addr < q.hi && q.size <= Sub(top, base)
  }

  /**
   First fit: take the request from the bottom of an entry that starts at the base, split an
   entry that does not and look again at its upper part, pass over the others.
   */
  function Walk(l: seq<Block>, q: Request): (int, seq<Block>)
    requires Sorted(l) && q.Shaped()
    decreases |l|, if l == [] then 0 else l[0].size
  {
    if l == [] then (0, [])
    else
      var b, base := l[0], Base(l[0], q);
      if !Fits(b, q) then
        var (r, rest) := Walk(l[1..], q);
        (r, [b] + rest)
      else if base != b.addr then
        SplitGood(l, q);
        var (r, rest) := Walk([Block(base, b.End() - base)] + l[1..], q);
        (r, [Block(b.addr, base - b.addr)] + rest)
      else if q.size < b.size then
        (b.addr, [Block(b.addr + q.size, b.size - q.size)] + l[1..])
      else
        (b.addr, l[1..])
  }

  /** An allocation on the list: the address (0 on failure) and the list left behind. */
  function Alloc(l: seq<Block>, size: u64, addressMin: u64, addressMax: u64, alignment: u64): (int, seq<Block>)
    requires Sorted(l) && (alignment == 0 || PowerOfTwo(alignment))
  {
    match Prepare(size, addressMin, addressMax, alignment)
    case None => (0, l)
    case Some(q) =>
      PrepareShaped(size, addressMin, addressMax, alignment);
      Walk(l, q)
  }

  // ---------------------------------------------------------------- rounding facts

  lemma MaskUpExact(x: u64, a: u64)
    requires PowerOfTwo(a) && x + a <= TWO64
    ensures MaskUp(x, a) == RoundUp(x, a)
  {
    assert a > 0;
    hide And, PowerOfTwo, RoundDown, Add;
    AddExact(x, a - 1);
    MaskIsRoundDown(x + a - 1, a);
  }

  lemma MaskUpWraps(x: u64, a: u64)
    requires PowerOfTwo(a) && x + a > TWO64
    ensures MaskUp(x, a) == 0
  {
    assert a > 0;
    hide And, PowerOfTwo, RoundDown, Add;
    AddExact(x, a - 1);
    MaskIsRoundDown(x + a - 1 - TWO64, a);
    RoundDownSmall(x + a - 1 - TWO64, a);
  }

  lemma SixteenIsPower()
    ensures PowerOfTwo(16)
  {
  }

  lemma LowBits(x: u64)
    ensures And(x, ALIGNMENT_SIZE - 1) == x % 16
  {
    SixteenIsPower();
    AndKeepsLowBits(x, 16);
  }

  lemma SmallAlignment(x: u64, a: u64)
    requires PowerOfTwo(a) && a < 16 && x % 16 == 0
    ensures MaskUp(x, a) == x
  {
    hide And, MaskUp, RoundUp;
    SixteenIsPower();
    PowersDivide(a, 16);
    assert a > 0;
    hide PowerOfTwo;
    assert x + a <= TWO64;
    ModTrans(x, 16, a);
    RoundUpFixed(x, a);
    MaskUpExact(x, a);
  }

  lemma MaskUpAligned(x: u64, a: u64)
    requires PowerOfTwo(a)
    ensures MaskUp(x, a) % a == 0
  {
    assert a > 0;
    hide And, PowerOfTwo, MaskUp, RoundUp;
    if x + a <= TWO64 {
      MaskUpExact(x, a);
      RoundUpLeast(x, a);
    } else {
      MaskUpWraps(x, a);
      ModUnique(0, a, 0, 0);
    }
  }

  lemma RoundedSize(size: u64)
    requires 0 < size <= TWO64 - 16
    ensures MaskUp(size, 16) == RoundUp(size, 16)
    ensures 16 <= MaskUp(size, 16) && MaskUp(size, 16) % 16 == 0
  {
    SixteenIsPower();
    hide And, PowerOfTwo;
    MaskUpExact(size, 16);
    RoundUpLeast(size, 16);
  }

  lemma PrepareShaped(size: u64, addressMin: u64, addressMax: u64, alignment: u64)
    requires alignment == 0 || PowerOfTwo(alignment)
    requires Prepare(size, addressMin, addressMax, alignment).Some?
    ensures Prepare(size, addressMin, addressMax, alignment).value.Shaped()
  {
    SixteenIsPower();
    hide And, PowerOfTwo, MaskUp;
    MaskUpAligned(size, 16);
    LowBits(addressMin);
    if alignment >= 16 {
      MaskUpAligned(addressMin, alignment);
    } else if alignment != 0 {
      SmallAlignment(addressMin, alignment);
    }
  }

  lemma PrepareValid(size: u64, addressMin: u64, addressMax: u64, alignment: u64)
    requires size <= TWO64 - 16
    requires alignment == 0 || PowerOfTwo(alignment)
    requires Prepare(size, addressMin, addressMax, alignment).Some?
    ensures Prepare(size, addressMin, addressMax, alignment).value.Valid()
  {
    hide And, PowerOfTwo, MaskUp;
    PrepareShaped(size, addressMin, addressMax, alignment);
    RoundedSize(size);
  }

  lemma AlignBounded(a: u64)
    requires PowerOfTwo(a)
    ensures TWO64 % a == 0 && a <= PHYS_LIMIT
  {
    Two64IsPower();
    PowersDivide(a, TWO64);
    hide PowerOfTwo;
    if a > PHYS_LIMIT {
      ModUnique(TWO64, a, 1, TWO64 - a);
    }
  }

  /** Inside physical memory no rounding wraps: the base is the least aligned address not below entry or minimum. */
  lemma BaseExact(b: Block, q: Request)
    requires b.Good() && q.Shaped()
    ensures Base(b, q) == RoundUp(if q.lo > b.addr then q.lo else b.addr, q.align)
  {
    hide And, PowerOfTwo, MaskUp, RoundUp;
    AlignBounded(q.align);
    MultiplesApart(TWO64, q.lo, q.align);
    MaskUpExact(if q.lo > b.addr then q.lo else b.addr, q.align);
  }

  lemma BaseAligned(b: Block, q: Request)
    requires b.Good() && q.Shaped()
    ensures Base(b, q) % q.align == 0
    ensures Base(b, q) >= b.addr && Base(b, q) >= q.lo
  {
    hide PowerOfTwo, Base, RoundUp;
    BaseExact(b, q);
    RoundUpLeast(if q.lo > b.addr then q.lo else b.addr, q.align);
  }

  lemma BaseBounds(b: Block, q: Request)
    requires b.Good() && q.Shaped()
    ensures Base(b, q) % 16 == 0
    ensures Base(b, q) >= b.addr && Base(b, q) >= q.lo
  {
    hide PowerOfTwo, Base;
    BaseAligned(b, q);
    PowerAligned(q.align);
    ModTrans(Base(b, q), q.align, 16);
  }

  lemma BaseLeast(b: Block, q: Request, x: nat)
    requires b.Good() && q.Shaped()
    requires x >= b.addr && x >= q.lo && x % q.align == 0
    ensures x >= Base(b, q)
  {
    hide PowerOfTwo, Base, RoundUp;
    BaseExact(b, q);
    RoundUpLeast(if q.lo > b.addr then q.lo else b.addr, q.align);
  }

  lemma Sixteens(a: int, b: int)
    requires a % 16 == 0 && b % 16 == 0
    ensures (a - b) % 16 == 0 && (a + b) % 16 == 0
  {
    ModUnique(a - b, 16, a / 16 - b / 16, 0);
    ModUnique(a + b, 16, a / 16 + b / 16, 0);
  }

  lemma SortedHead(l: seq<Block>)
    requires Sorted(l) && l != []
    ensures l[0].Good()
  {
  }

  lemma SplitGood(l: seq<Block>, q: Request)
    requires Sorted(l) && q.Shaped() && l != []
    requires Fits(l[0], q) && Base(l[0], q) != l[0].addr
    ensures Sorted([Block(Base(l[0], q), l[0].End() - Base(l[0], q))] + l[1..])
    ensures Block(l[0].addr, Base(l[0], q) - l[0].addr).Good()
    ensures Base(l[0], q) > l[0].addr
  {
    hide Base, PowerOfTwo, Sub;
    var b, base := l[0], Base(l[0], q);
    assert base < b.End();
    hide Fits;
    BaseBounds(b, q);
    Sixteens(base, b.addr);
    Sixteens(b.addr, b.size);
    Sixteens(b.End(), base);
    SortedReplaceHead(l, Block(base, b.End() - base));
  }

  lemma SortedReplaceHead(l: seq<Block>, h: Block)
    requires Sorted(l) && l != [] && h.Good() && h.End() <= l[0].End()
    ensures Sorted([h] + l[1..])
  {
    var m := [h] + l[1..];
    assert forall i | 1 <= i < |m| :: m[i] == l[i];
  }

  // ---------------------------------------------------------------- what one walk does

  /** Entry `b` without the bytes `[x, x + n)`. */
  function Carve(b: Block, x: int, n: int): seq<Block> {
    (if b.addr < x then [Block(b.addr, x - b.addr)] else []) +
    (if x + n < b.End() then [Block(x + n, b.End() - (x + n))] else [])
  }

  /** `[x, x + n)` lies inside a single entry. */
  predicate Room(l: seq<Block>, x: int, n: int) {
    exists i :: 0 <= i < |l| && l[i].addr <= x && x + n <= l[i].End()
  }

  /** `x` is an address the request may be given. */
  predicate Feasible(l: seq<Block>, q: Request, x: int)
    requires q.align > 0
  {
    x % q.align == 0 && q.lo <= x && x + q.size <= q.hi && Room(l, x, q.size)
  }

  lemma FitsSound(b: Block, q: Request)
    requires b.Good() && q.Shaped() && Fits(b, q) && Base(b, q) <= q.hi
    ensures b.addr <= Base(b, q) && Base(b, q) + q.size <= q.hi && Base(b, q) + q.size <= b.End()
  {
    hide Base, PowerOfTwo, Sub;
    BaseBounds(b, q);
    SubExact(if q.hi < b.End() then q.hi else b.End(), Base(b, q));
  }

  lemma FitsComplete(b: Block, q: Request, x: nat)
    requires b.Good() && q.Valid()
    requires x % q.align == 0 && q.lo <= x && x + q.size <= q.hi && b.addr <= x && x + q.size <= b.End()
    ensures Fits(b, q) && Base(b, q) <= x
  {
    hide Base, PowerOfTwo, Sub;
    BaseLeast(b, q, x);
    SubExact(if q.hi < b.End() then q.hi else b.End(), Base(b, q));
  }

  /** The upper part of a split entry has the split point as its own base. */
  lemma BaseOfUpperPart(b: Block, q: Request)
    requires b.Good() && q.Shaped() && Base(b, q) < b.End()
    ensures Block(Base(b, q), b.End() - Base(b, q)).Good()
    ensures Base(Block(Base(b, q), b.End() - Base(b, q)), q) == Base(b, q)
  {
    hide Base, PowerOfTwo;
    BaseBounds(b, q);
    var high := Block(Base(b, q), b.End() - Base(b, q));
    Sixteens(b.addr, b.size);
    Sixteens(b.End(), Base(b, q));
    BaseAligned(b, q);
    BaseLeast(high, q, Base(b, q));
    BaseBounds(high, q);
  }

  /** An entry at or above the maximum is never used. */
  lemma {:induction false} WalkBeyond(l: seq<Block>, q: Request)
    requires Sorted(l) && q.Shaped()
    requires forall i | 0 <= i < |l| :: l[i].addr >= q.hi
    ensures Walk(l, q) == (0, l)
    decreases |l|
  {
    hide Base, PowerOfTwo, Sub;
    if l != [] {
      assert !Fits(l[0], q);
      WalkBeyond(l[1..], q);
      assert [l[0]] + l[1..] == l;
    }
  }

  lemma WalkAtBase(l: seq<Block>, q: Request)
    requires Sorted(l) && q.Shaped() && l != []
    requires Fits(l[0], q) && Base(l[0], q) == l[0].addr
    ensures l[0].addr <= q.hi
    ensures Walk(l, q) == (l[0].addr, Carve(l[0], l[0].addr, q.size) + l[1..])
  {
    hide Base, PowerOfTwo, Sub;
    var b := l[0];
    FitsSound(b, q);
    assert Carve(b, b.addr, q.size) == if q.size < b.size then [Block(b.addr + q.size, b.size - q.size)] else [];
    if q.size >= b.size {
      assert Walk(l, q) == (b.addr, l[1..]);
      assert Carve(b, b.addr, q.size) + l[1..] == l[1..];
    }
  }

  lemma CarveUpper(b: Block, x: int, n: int, rest: seq<Block>)
    requires b.addr < x
    ensures [Block(b.addr, x - b.addr)] + (Carve(Block(x, b.End() - x), x, n) + rest) == Carve(b, x, n) + rest
  {
    var high, low := Block(x, b.End() - x), Block(b.addr, x - b.addr);
    assert Carve(b, x, n) == [low] + Carve(high, x, n);
  }

  lemma WalkSplitStep(l: seq<Block>, q: Request)
    requires Sorted(l) && q.Shaped() && l != []
    requires Fits(l[0], q) && Base(l[0], q) != l[0].addr
    ensures var b, base := l[0], Base(l[0], q);
            var m := [Block(base, b.End() - base)] + l[1..];
            && b.addr < base < b.End() && m[0].Good() && Sorted(m) && m[0].addr == base && m[1..] == l[1..]
            && Base(m[0], q) == base
            && Walk(l, q) == (Walk(m, q).0, [Block(b.addr, base - b.addr)] + Walk(m, q).1)
  {
    hide Base, PowerOfTwo, Sub;
    SplitGood(l, q);
    BaseOfUpperPart(l[0], q);
    hide Sorted;
  }

  /** A split entry whose upper part starts below the maximum: it is allocated from at once. */
  lemma WalkSplitTaken(l: seq<Block>, q: Request)
    requires Sorted(l) && q.Shaped() && l != []
    requires Fits(l[0], q) && l[0].addr != Base(l[0], q) < q.hi
    ensures Walk(l, q) == (Base(l[0], q), Carve(l[0], Base(l[0], q), q.size) + l[1..])
  {
    hide Base, PowerOfTwo, Sub, Sorted, Walk, Carve, Fits;
    SortedHead(l);
    var b, base := l[0], Base(l[0], q);
    UpperPartFits(b, q);
    FitsSound(b, q);
    WalkSplitStep(l, q);
    var high := Block(base, b.End() - base);
    WalkAtBase([high] + l[1..], q);
    CarveUpper(b, base, q.size, l[1..]);
  }

  lemma WalkWastedRest(m: seq<Block>, q: Request)
    requires Sorted(m) && q.Shaped() && m != [] && m[0].addr >= q.hi
    ensures Walk(m, q) == (0, m)
  {
    assert forall i | 0 <= i < |m| :: m[0].addr <= m[i].addr;
    WalkBeyond(m, q);
  }

  /** A split entry whose upper part does not: the split is all that happens. */
  lemma WalkSplitWasted(l: seq<Block>, q: Request)
    requires Sorted(l) && q.Shaped() && l != []
    requires Fits(l[0], q) && Base(l[0], q) >= q.hi
    ensures Base(l[0], q) != l[0].addr
    ensures Walk(l, q) == (0, Carve(l[0], Base(l[0], q), 0) + l[1..])
  {
    hide Base, PowerOfTwo, Sub;
    var b, base := l[0], Base(l[0], q);
    assert l[0].addr < q.hi;
    hide Fits, Walk;
    WalkSplitStep(l, q);
    WalkWastedRest([Block(base, b.End() - base)] + l[1..], q);
    hide Sorted;
    CarveUpper(b, base, 0, l[1..]);
    assert Carve(Block(base, b.End() - base), base, 0) == [Block(base, b.End() - base)];
  }

  lemma UpperPartFits(b: Block, q: Request)
    requires b.Good() && q.Shaped() && Fits(b, q) && Base(b, q) < q.hi
    ensures var high := Block(Base(b, q), b.End() - Base(b, q)); high.Good() && Fits(high, q)
  {
    hide Base, PowerOfTwo, Sub;
    BaseOfUpperPart(b, q);
    FitsSound(b, q);
  }

  /** One entry of the walk: passed over, allocated from at its base, or split for nothing. */
  lemma WalkHead(l: seq<Block>, q: Request)
    requires Sorted(l) && q.Shaped() && l != []
    ensures !Fits(l[0], q) ==> Walk(l, q) == (Walk(l[1..], q).0, [l[0]] + Walk(l[1..], q).1)
    ensures Fits(l[0], q) && Base(l[0], q) < q.hi ==>
              Walk(l, q) == (Base(l[0], q), Carve(l[0], Base(l[0], q), q.size) + l[1..])
    ensures Fits(l[0], q) && Base(l[0], q) >= q.hi ==>
              Walk(l, q) == (0, Carve(l[0], Base(l[0], q), 0) + l[1..])
  {
    hide Base, PowerOfTwo, Fits, Carve;
    if Fits(l[0], q) {
      if Base(l[0], q) >= q.hi {
        WalkSplitWasted(l, q);
      } else if Base(l[0], q) != l[0].addr {
        WalkSplitTaken(l, q);
      } else {
        WalkAtBase(l, q);
      }
    }
  }
}
