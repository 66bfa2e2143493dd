/**
 What an allocation means: the least suitably aligned address of the range that has room in one
 entry, exactly those bytes gone from the free list, and no change of the free bytes on failure.
 */
module AllocMeaning {
  import opened Word64
  import opened FreeList

  /** The list with `[x, x + n)` cut out of entry `i`. */
  function Cut(l: seq<Block>, i: int, x: int, n: int): seq<Block>
    requires 0 <= i < |l|
  {
    l[..i] + Carve(l[i], x, n) + l[i + 1..]
  }

  lemma HasConcat(a: seq<Block>, b: seq<Block>, x: int)
    ensures Has(a + b, x) <==> Has(a, x) || Has(b, x)
  {
    var m := a + b;
    if Has(a, x) {
      var i :| 0 <= i < |a| && a[i].Holds(x);
      assert m[i].Holds(x);
    }
    if Has(b, x) {
      var i :| 0 <= i < |b| && b[i].Holds(x);
      assert m[|a| + i].Holds(x);
    }
    if Has(m, x) {
      var i :| 0 <= i < |m| && m[i].Holds(x);
      if i < |a| {
        assert a[i].Holds(x);
      } else {
        assert b[i - |a|].Holds(x);
      }
    }
  }

  lemma {:induction false} TotalConcat(a: seq<Block>, b: seq<Block>, min: int)
    ensures Total(a + b, min) == Total(a, min) + Total(b, min)
  {
    if a == [] {
      assert a + b == b;
    } else {
      assert (a + b)[1..] == a[1..] + b;
      TotalConcat(a[1..], b, min);
    }
  }

  lemma SortedConcat(a: seq<Block>, b: seq<Block>)
    requires Sorted(a) && Sorted(b)
    requires forall i, j | 0 <= i < |a| && 0 <= j < |b| :: a[i].End() <= b[j].addr
    ensures Sorted(a + b)
  {
  }

  /** Every entry of `a` ends before the first byte of any entry of `b`, with a gap. */
  predicate Apart(a: seq<Block>, b: seq<Block>) {
    forall i, j | 0 <= i < |a| && 0 <= j < |b| :: a[i].End() < b[j].addr
  }

  lemma CanonicalConcat(a: seq<Block>, b: seq<Block>)
    requires Canonical(a) && Canonical(b) && Apart(a, b)
    ensures Canonical(a + b)
  {
    SortedConcat(a, b);
  }

  lemma ApartConcat(a: seq<Block>, b: seq<Block>, c: seq<Block>)
    requires Apart(a, c) && Apart(b, c)
    ensures Apart(a + b, c)
  {
  }

  lemma SortedFew(low: Block, high: Block)
    ensures Canonical([]) && Sorted([])
    ensures low.Good() ==> Canonical([low]) && Sorted([low])
    ensures low.Good() && high.Good() && low.End() <= high.addr ==> Sorted([low, high])
    ensures low.Good() && high.Good() && low.End() < high.addr ==> Canonical([low, high])
  {
    hide low.Good, low.End;
  }

  lemma CarveGood(b: Block, x: int, n: int)
    requires b.Good() && b.addr <= x && x + n <= b.End() && 0 <= n && x % 16 == 0 && n % 16 == 0
    ensures b.addr < x ==> Block(b.addr, x - b.addr).Good()
    ensures x + n < b.End() ==> Block(x + n, b.End() - (x + n)).Good()
  {
    Sixteens(x, b.addr);
    Sixteens(x, n);
    Sixteens(b.addr, b.size);
    Sixteens(b.End(), x + n);
  }

  lemma CarvePieces(b: Block, x: int, n: int)
    requires b.Good() && b.addr <= x && x + n <= b.End() && 0 <= n && x % 16 == 0 && n % 16 == 0
    ensures Sorted(Carve(b, x, n))
    ensures 0 < n ==> Canonical(Carve(b, x, n))
    ensures forall i | 0 <= i < |Carve(b, x, n)| :: b.addr <= Carve(b, x, n)[i].addr && Carve(b, x, n)[i].End() <= b.End()
  {
    var low, high := Block(b.addr, x - b.addr), Block(x + n, b.End() - (x + n));
    CarveGood(b, x, n);
    hide low.Good, Sorted;
    SortedFew(low, high);
    SortedFew(high, low);
    hide Canonical;
    assert Carve(b, x, n) == if b.addr < x && x + n < b.End() then [low, high] else if b.addr < x then [low]
                             else if x + n < b.End() then [high] else [];
  }

  lemma CarveTotal(b: Block, x: int, n: int)
    requires b.addr <= x && x + n <= b.End() && 0 <= n
    ensures Total(Carve(b, x, n), 0) == b.size - n
  {
    var low, high := Block(b.addr, x - b.addr), Block(x + n, b.End() - (x + n));
    var a := if b.addr < x then [low] else [];
    var c := if x + n < b.End() then [high] else [];
    TotalConcat(a, c, 0);
    assert Total([low], 0) == if low.size >= 0 then low.size else 0;
    assert Total([high], 0) == if high.size >= 0 then high.size else 0;
  }

  lemma CarveBytes(b: Block, x: int, n: int, y: int)
    requires b.addr <= x && x + n <= b.End() && 0 <= n
    ensures Has(Carve(b, x, n), y) <==> b.Holds(y) && !(x <= y < x + n)
  {
    var low, high := Block(b.addr, x - b.addr), Block(x + n, b.End() - (x + n));
    var a := if b.addr < x then [low] else [];
    var c := if x + n < b.End() then [high] else [];
    HasConcat(a, c, y);
    assert Has(a, y) <==> b.addr <= y < x by { if b.addr <= y < x { assert a[0].Holds(y); } }
    assert Has(c, y) <==> x + n <= y < b.End() by { if x + n <= y < b.End() { assert c[0].Holds(y); } }
  }

  lemma CutSorted(l: seq<Block>, i: int, x: int, n: int)
    requires Sorted(l) && 0 <= i < |l|
    requires l[i].addr <= x && x + n <= l[i].End() && 0 <= n && x % 16 == 0 && n % 16 == 0
    ensures Sorted(Cut(l, i, x, n))
  {
    CarvePieces(l[i], x, n);
    hide Carve;
    var c := Carve(l[i], x, n);
    SortedConcat(l[..i], c);
    SortedConcat(l[..i] + c, l[i + 1..]);
  }

  lemma CutCanonical(l: seq<Block>, i: int, x: int, n: int)
    requires Canonical(l) && 0 <= i < |l|
    requires l[i].addr <= x && x + n <= l[i].End() && 0 < n && x % 16 == 0 && n % 16 == 0
    ensures Canonical(Cut(l, i, x, n))
  {
    CarvePieces(l[i], x, n);
    hide Carve;
    var c := Carve(l[i], x, n);
    var a, b := l[..i], l[i + 1..];
    assert Canonical(a) && Canonical(b);
    assert Apart(a, c) && Apart(a, b) && Apart(c, b);
    hide Sorted, Apart, Canonical;
    CanonicalConcat(a, c);
    ApartConcat(a, c, b);
    CanonicalConcat(a + c, b);
  }

  lemma TotalSplit(l: seq<Block>, i: int, min: int)
    requires 0 <= i < |l|
    ensures Total(l, min) == Total(l[..i], min) + (if l[i].size >= min then l[i].size else 0) + Total(l[i + 1..], min)
  {
    assert l == l[..i] + l[i..];
    TotalConcat(l[..i], l[i..], min);
    assert l[i..][1..] == l[i + 1..];
  }

  lemma CutTotal(l: seq<Block>, i: int, x: int, n: int)
    requires 0 <= i < |l| && l[i].size >= 0
    requires l[i].addr <= x && x + n <= l[i].End() && 0 <= n
    ensures Total(Cut(l, i, x, n), 0) == Total(l, 0) - n
  {
    CarveTotal(l[i], x, n);
    TotalSplit(l, i, 0);
    hide Carve, Total;
    TotalConcat(l[..i] + Carve(l[i], x, n), l[i + 1..], 0);
    TotalConcat(l[..i], Carve(l[i], x, n), 0);
  }

  lemma CutBytes(l: seq<Block>, i: int, x: int, n: int, y: int)
    requires Sorted(l) && 0 <= i < |l|
    requires l[i].addr <= x && x + n <= l[i].End() && 0 <= n
    ensures Has(Cut(l, i, x, n), y) <==> Has(l, y) && !(x <= y < x + n)
  {
    var c := Carve(l[i], x, n);
    CarveBytes(l[i], x, n, y);
    hide Carve;
    HasConcat(l[..i] + c, l[i + 1..], y);
    HasConcat(l[..i], c, y);
    assert l == l[..i] + [l[i]] + l[i + 1..];
    HasConcat(l[..i] + [l[i]], l[i + 1..], y);
    HasConcat(l[..i], [l[i]], y);
    assert Has([l[i]], y) <==> l[i].Holds(y) by { if l[i].Holds(y) { assert [l[i]][0].Holds(y); } }
    if x <= y < x + n {
      assert !Has(l[..i], y);
      assert !Has(l[i + 1..], y);
    }
  }

  // ---------------------------------------------------------------- the walk in closed form

  /** No entry before `i` passes the entry test. */
  predicate NoneFits(l: seq<Block>, i: int, q: Request)
    requires Sorted(l) && q.align > 0 && i <= |l|
  {
    forall j | 0 <= j < i :: !Fits(l[j], q)
  }

  /**
   Every walk is one of three: the first entry that passes the test is cut at its base; or that
   entry's base is not below the maximum and it is merely split there; or no entry passes and the
   list is returned as it was.
   */
  lemma {:induction false} WalkShape(l: seq<Block>, q: Request) returns (i: int)
    requires Sorted(l) && q.Shaped()
    ensures 0 <= i <= |l| && NoneFits(l, i, q)
    ensures i == |l| ==> Walk(l, q) == (0, l)
    ensures i < |l| ==> Fits(l[i], q)
    ensures i < |l| && Base(l[i], q) < q.hi ==> Walk(l, q) == (Base(l[i], q), Cut(l, i, Base(l[i], q), q.size))
    ensures i < |l| && Base(l[i], q) >= q.hi ==> Walk(l, q) == (0, Cut(l, i, Base(l[i], q), 0))
  {
    hide Walk, Fits, Base, Carve, PowerOfTwo;
    if l == [] {
      i := 0;
      WalkBeyond(l, q);
    } else {
      WalkHead(l, q);
      if Fits(l[0], q) {
        i := 0;
        WalkShapeHere(l);
      } else {
        var k := WalkShape(l[1..], q);
        i := k + 1;
        assert forall j | 1 <= j < i :: l[j] == l[1..][j - 1];
        WalkShapeNext(l, k);
      }
    }
  }

  lemma WalkShapeHere(l: seq<Block>)
    requires l != []
    ensures forall x, n :: Cut(l, 0, x, n) == Carve(l[0], x, n) + l[1..]
  {
    assert l[..0] == [];
  }

  lemma WalkShapeNext(l: seq<Block>, k: int)
    requires 0 <= k < |l|
    ensures k == |l| - 1 ==> [l[0]] + l[1..] == l
    ensures k < |l| - 1 ==> forall x, n :: [l[0]] + Cut(l[1..], k, x, n) == Cut(l, k + 1, x, n)
  {
    assert [l[0]] + l[1..] == l;
    if k < |l| - 1 {
      var m := l[1..];
      assert [l[0]] + m[..k] == l[..k + 1];
      assert m[k + 1..] == l[k + 2..];
      forall x, n ensures [l[0]] + Cut(m, k, x, n) == Cut(l, k + 1, x, n) {
        assert [l[0]] + (m[..k] + Carve(m[k], x, n) + m[k + 1..]) == ([l[0]] + m[..k]) + Carve(m[k], x, n) + m[k + 1..];
      }
    }
  }

  // ---------------------------------------------------------------- least address, completeness

  lemma WalkFeasible(l: seq<Block>, q: Request)
    requires Sorted(l) && q.Valid()
    ensures Walk(l, q).0 != 0 ==> Walk(l, q).0 >= 16 && Feasible(l, q, Walk(l, q).0)
  {
    hide Walk, Carve, Base, PowerOfTwo;
    var i := WalkShape(l, q);
    if i < |l| && Base(l[i], q) < q.hi {
      FitsSound(l[i], q);
      BaseAligned(l[i], q);
    }
  }

  lemma WalkLeast(l: seq<Block>, q: Request, x: int)
    requires Sorted(l) && q.Valid() && Feasible(l, q, x)
    ensures 0 < Walk(l, q).0 <= x
  {
    var j :| 0 <= j < |l| && l[j].addr <= x && x + q.size <= l[j].End();
    hide Walk, Carve, Base, PowerOfTwo;
    FitsComplete(l[j], q, x);
    hide Fits;
    var i := WalkShape(l, q);
    assert i <= j;
    assert Base(l[i], q) <= x by {
      if i < j {
        FitsBelowEnd(l[i], q);
      }
    }
    BaseBounds(l[i], q);
  }

  lemma FitsBelowEnd(b: Block, q: Request)
    requires b.Good() && q.Shaped() && Fits(b, q)
    ensures Base(b, q) < b.End() && b.addr < q.hi
  {
  }

  /** The lower bound the code applies: rounding a minimum up past 2^64 yields 0, and the bound is lost. */
  function EffectiveMin(addressMin: u64, alignment: u64): u64 {
    if addressMin + alignment > TWO64 then 0 else addressMin
  }

  /** The upper bound: no maximum means exactly the block at the minimum, or no bound at all. */
  function EffectiveMax(size: u64, addressMin: u64, addressMax: u64): u64
    requires size <= TWO64 - 16
  {
    if addressMax != 0 then addressMax
    else if addressMin != 0 then (addressMin + RoundUp(size, 16)) % TWO64
    else TWO64 - 1
  }

  /** `x` may be returned: aligned, the rounded block in range and inside one free entry. */
  predicate Wanted(l: seq<Block>, size: u64, addressMin: u64, addressMax: u64, alignment: u64, x: int)
    requires size <= TWO64 - 16
  {
    && x % (if alignment < 16 then 16 else alignment) == 0
    && EffectiveMin(addressMin, alignment) <= x
    && x + RoundUp(size, 16) <= EffectiveMax(size, addressMin, addressMax)
    && Room(l, x, RoundUp(size, 16))
  }

  /** The rounded minimum bounds exactly the aligned addresses the unrounded one does. */
  lemma MinimumExact(addressMin: u64, alignment: u64, x: nat)
    requires alignment == 0 || PowerOfTwo(alignment)
    requires addressMin % 16 == 0 && x % (if alignment < 16 then 16 else alignment) == 0
    ensures (if alignment != 0 then MaskUp(addressMin, alignment) else addressMin) <= x
            <==> EffectiveMin(addressMin, alignment) <= x
  {
    hide MaskUp, PowerOfTwo, RoundUp;
    if alignment == 0 {
    } else if addressMin + alignment > TWO64 {
      MaskUpWraps(addressMin, alignment);
    } else if alignment < 16 {
      SmallAlignment(addressMin, alignment);
    } else {
      MaskUpExact(addressMin, alignment);
      RoundUpLeast(addressMin, alignment);
    }
  }

  lemma PrepareExact(l: seq<Block>, size: u64, addressMin: u64, addressMax: u64, alignment: u64, x: nat)
    requires 0 < size <= TWO64 - 16 && addressMin % 16 == 0
    requires alignment == 0 || PowerOfTwo(alignment)
    ensures var p := Prepare(size, addressMin, addressMax, alignment);
            && (p.None? ==> !Wanted(l, size, addressMin, addressMax, alignment, x))
            && (p.Some? ==> p.value.align > 0 && (Wanted(l, size, addressMin, addressMax, alignment, x) <==> Feasible(l, p.value, x)))
  {
    hide MaskUp, PowerOfTwo, RoundUp, And;
    RoundedSize(size);
    LowBits(addressMin);
    if x % (if alignment < 16 then 16 else alignment) == 0 {
      MinimumExact(addressMin, alignment, x);
    }
  }

  /**
   First fit is lowest fit: on every sorted list the allocator returns the least address that is
   aligned, in range and has room inside one entry, and 0 exactly when there is none (or the
   request is empty or its minimum is not 16-byte aligned).
   */
  lemma AllocLeast(l: seq<Block>, size: u64, addressMin: u64, addressMax: u64, alignment: u64)
    requires Sorted(l) && size <= TWO64 - 16
    requires alignment == 0 || PowerOfTwo(alignment)
    ensures var (r, m) := Alloc(l, size, addressMin, addressMax, alignment);
            && (size == 0 || addressMin % 16 != 0 ==> r == 0 && m == l)
            && (r != 0 ==> r >= 16 && Wanted(l, size, addressMin, addressMax, alignment, r))
            && (size != 0 && addressMin % 16 == 0 ==>
                  forall x: nat :: Wanted(l, size, addressMin, addressMax, alignment, x) ==> 0 < r <= x)
  {
    hide Walk, Wanted, Feasible, PowerOfTwo, MaskUp;
    LowBits(addressMin);
    if size != 0 && addressMin % 16 == 0 {
      var (r, m) := Alloc(l, size, addressMin, addressMax, alignment);
      var p := Prepare(size, addressMin, addressMax, alignment);
      hide Prepare;
      if p.Some? {
        PrepareValid(size, addressMin, addressMax, alignment);
        WalkFeasible(l, p.value);
        if r != 0 {
          PrepareExact(l, size, addressMin, addressMax, alignment, r);
        }
      }
      forall x: nat | Wanted(l, size, addressMin, addressMax, alignment, x) ensures 0 < r <= x {
        PrepareExact(l, size, addressMin, addressMax, alignment, x);
        WalkLeast(l, p.value, x);
      }
    }
  }

  // ---------------------------------------------------------------- what happens to the list

  /** The bytes handed out leave the free list and no others do; a failure takes none. */
  lemma AllocBytes(l: seq<Block>, size: u64, addressMin: u64, addressMax: u64, alignment: u64, y: int)
    requires Sorted(l) && size <= TWO64 - 16
    requires alignment == 0 || PowerOfTwo(alignment)
    ensures var (r, m) := Alloc(l, size, addressMin, addressMax, alignment);
            Has(m, y) <==> Has(l, y) && !(r != 0 && r <= y < r + RoundUp(size, 16))
  {
    hide Walk, PowerOfTwo, MaskUp, Base, Cut, Fits, Has;
    var p := Prepare(size, addressMin, addressMax, alignment);
    if p.Some? {
      PrepareValid(size, addressMin, addressMax, alignment);
      RoundedSize(size);
      hide Prepare, RoundUp;
      WalkBytes(l, p.value, y);
    }
  }

  lemma WalkBytes(l: seq<Block>, q: Request, y: int)
    requires Sorted(l) && q.Shaped()
    ensures var (r, m) := Walk(l, q);
            Has(m, y) <==> Has(l, y) && !(r != 0 && r <= y < r + q.size)
  {
    hide Walk, PowerOfTwo, MaskUp, Base, Cut, Fits, Has;
    var i := WalkShape(l, q);
    if i < |l| {
      BaseBounds(l[i], q);
      if Base(l[i], q) < q.hi {
        FitsSound(l[i], q);
        CutBytes(l, i, Base(l[i], q), q.size, y);
      } else {
        FitsBelowEnd(l[i], q);
        CutBytes(l, i, Base(l[i], q), 0, y);
      }
    }
  }

  /** The list stays sorted and its total drops by exactly the rounded size; a success keeps it canonical. */
  lemma WalkList(l: seq<Block>, q: Request)
    requires Sorted(l) && q.Shaped()
    ensures var (r, m) := Walk(l, q);
            && Sorted(m)
            && Total(m, 0) == Total(l, 0) - (if r != 0 then q.size else 0)
            && (Canonical(l) && r != 0 && q.size > 0 ==> Canonical(m))
  {
    hide Walk, PowerOfTwo, MaskUp, Base, Cut, Fits, Has;
    var i := WalkShape(l, q);
    if i < |l| {
      BaseBounds(l[i], q);
      if Base(l[i], q) < q.hi {
        FitsSound(l[i], q);
        CutSorted(l, i, Base(l[i], q), q.size);
        CutTotal(l, i, Base(l[i], q), q.size);
        if Canonical(l) && q.size > 0 {
          CutCanonical(l, i, Base(l[i], q), q.size);
        }
      } else {
        FitsBelowEnd(l[i], q);
        CutSorted(l, i, Base(l[i], q), 0);
        CutTotal(l, i, Base(l[i], q), 0);
      }
    }
  }

  lemma AllocList(l: seq<Block>, size: u64, addressMin: u64, addressMax: u64, alignment: u64)
    requires Sorted(l) && size <= TWO64 - 16
    requires alignment == 0 || PowerOfTwo(alignment)
    ensures var (r, m) := Alloc(l, size, addressMin, addressMax, alignment);
            && Sorted(m)
            && Total(m, 0) == Total(l, 0) - (if r != 0 then RoundUp(size, 16) else 0)
            && (Canonical(l) && r != 0 ==> Canonical(m))
  {
    hide Walk, PowerOfTwo, MaskUp, Base, Cut, Fits, Has, Sorted, Canonical;
    var p := Prepare(size, addressMin, addressMax, alignment);
    if p.Some? {
      PrepareValid(size, addressMin, addressMax, alignment);
      RoundedSize(size);
      hide Prepare, RoundUp;
      WalkList(l, p.value);
    }
  }

  /** An entry that passes the wrapped size test although its first aligned address is not below the maximum. */
  predicate Wasteful(b: Block, q: Request)
    requires b.Good() && q.align > 0
  {
    Fits(b, q) && Base(b, q) >= q.hi
  }

  /**
   A failing walk returns the list untouched unless it meets a wasteful entry, and then splits
   that one entry in two and changes nothing else.
   */
  lemma FailureSplitsAtMostOnce(l: seq<Block>, q: Request)
    requires Sorted(l) && q.Shaped() && Walk(l, q).0 == 0
    ensures (forall i | 0 <= i < |l| :: !Wasteful(l[i], q)) <==> Walk(l, q).1 == l
    ensures Walk(l, q).1 == l ||
            exists i :: 0 <= i < |l| && Wasteful(l[i], q) && Walk(l, q).1 == Cut(l, i, Base(l[i], q), 0)
  {
    hide Walk, PowerOfTwo, MaskUp, Base, Fits, Has, Cut;
    var i := WalkShape(l, q);
    if i < |l| {
      BaseBounds(l[i], q);
      if Base(l[i], q) >= q.hi {
        assert Wasteful(l[i], q);
        FitsBelowEnd(l[i], q);
        CutLonger(l, i, Base(l[i], q));
      }
    }
  }

  lemma PowerOf4096(a: nat)
    requires a == 0x1000
    ensures PowerOfTwo(a)
  {
    SixteenIsPower();
    hide PowerOfTwo;
    PowerProduct(0x10, 0x10);
    PowerProduct(0x100, 0x10);
  }

  lemma MaskUpFixed(x: u64, a: u64)
    requires PowerOfTwo(a) && a > 0 && x % a == 0 && x + a <= TWO64
    ensures MaskUp(x, a) == x
  {
    hide MaskUp, PowerOfTwo, RoundUp;
    MaskUpExact(x, a);
    RoundUpFixed(x, a);
  }

  lemma PrepareUnaligned(size: u64, addressMin: u64, addressMax: u64, alignment: u64)
    requires size == 16 && addressMin == 0 && addressMax == 0x1800 && alignment == 0x1000
    ensures PowerOfTwo(alignment)
    ensures Prepare(size, addressMin, addressMax, alignment) == Some(Request(size, addressMin, addressMax, alignment))
    ensures Request(size, addressMin, addressMax, alignment).Valid()
  {
    hide MaskUp, PowerOfTwo, And;
    PowerOf4096(alignment);
    SixteenIsPower();
    MaskUpFixed(size, 16);
    MaskUpFixed(addressMin, alignment);
    LowBits(addressMin);
    PrepareValid(size, addressMin, addressMax, alignment);
  }

  lemma UnalignedIsWasteful(b: Block, q: Request)
    requires b == Block(0x1400, 0x8000) && q == Request(16, 0, 0x1800, 0x1000) && q.Valid()
    ensures b.Good() && Wasteful(b, q) && Base(b, q) == 0x2000
  {
    hide PowerOfTwo, Base, MaskUp;
    assert b.Good();
    BaseExact(b, q);
  }

  /** Such requests can be made: 16 bytes aligned to 0x1000, from an entry at 0x1400 with the maximum at 0x1800. */
  lemma WastefulRequest(b: Block, size: u64, addressMin: u64, addressMax: u64, alignment: u64)
    requires b == Block(0x1400, 0x8000) && size == 16 && addressMin == 0 && addressMax == 0x1800 && alignment == 0x1000
    ensures PowerOfTwo(alignment) && Sorted([b])
    ensures var q := Prepare(size, addressMin, addressMax, alignment); q.Some? && q.value.Valid() && Wasteful(b, q.value)
    ensures Alloc([b], size, addressMin, addressMax, alignment) == (0, [Block(0x1400, 0xc00), Block(0x2000, 0x7400)])
  {
    hide Prepare, Base, Fits, PowerOfTwo, Walk;
    var q := Request(size, addressMin, addressMax, alignment);
    PrepareUnaligned(size, addressMin, addressMax, alignment);
    UnalignedIsWasteful(b, q);
    WalkHead([b], q);
    assert Carve(b, 0x2000, 0) + [b][1..] == [Block(0x1400, 0xc00), Block(0x2000, 0x7400)];
  }

  lemma CutLonger(l: seq<Block>, i: int, x: int)
    requires 0 <= i < |l| && l[i].addr < x < l[i].End()
    ensures |Cut(l, i, x, 0)| == |l| + 1
  {
  }

  /** No entry is wasteful when the maximum is unlimited, or aligned and not below the minimum. */
  lemma AlignedMaximumWastesNothing(b: Block, q: Request)
    requires b.Good() && q.Valid()
    requires q.hi == TWO64 - 1 || (q.lo <= q.hi && q.hi % q.align == 0)
    ensures !Wasteful(b, q)
  {
    hide PowerOfTwo, MaskUp, Base;
    if Wasteful(b, q) {
      FitsBelowEnd(b, q);
      if q.hi != TWO64 - 1 {
        BaseLeast(b, q, q.hi);
        SubExact(q.hi, Base(b, q));
      }
    }
  }

  // ---------------------------------------------------------------- sizes that round to nothing

  /** Not even 0 bytes can be taken from this entry: its first aligned address is not below its end and the maximum. */
  predicate Idle(b: Block, q: Request)
    requires b.Good() && q.align > 0
  {
    Base(b, q) >= b.End() || Base(b, q) >= q.hi
  }

  /** A size above 2^64-16 rounds to 0; such a request does no harm if 0 bytes can be taken from no entry. */
  predicate Harmless(l: seq<Block>, size: u64, addressMin: u64, addressMax: u64, alignment: u64)
    requires Sorted(l)
  {
    size <= TWO64 - 16 ||
    match Prepare(size, addressMin, addressMax, alignment)
    case None => true
    case Some(q) => forall i | 0 <= i < |l| :: Idle(l[i], q)
  }

  lemma WalkNothing(l: seq<Block>, q: Request)
    requires Sorted(l) && q.Shaped() && q.size == 0
    ensures Walk(l, q).0 == 0 <==> forall i | 0 <= i < |l| :: Idle(l[i], q)
    ensures Walk(l, q).0 != 0 ==> Has(l, Walk(l, q).0)
  {
    hide Walk, Base, Carve, PowerOfTwo;
    var i := WalkShape(l, q);
    forall j | 0 <= j < |l| ensures Base(l[j], q) >= l[j].addr {
      BaseBounds(l[j], q);
    }
    if i < |l| && Base(l[i], q) < q.hi {
      assert !Idle(l[i], q) && l[i].Holds(Base(l[i], q));
    } else {
      forall j | 0 <= j < |l| ensures Idle(l[j], q) {
        if j < i {
          assert !Fits(l[j], q);
        }
      }
    }
  }

  /**
   An oversize request is refused just if it is harmless. Otherwise it is given an address that is still
   free: no byte leaves the free list.
   */
  lemma OversizeOutcome(l: seq<Block>, size: u64, addressMin: u64, addressMax: u64, alignment: u64)
    requires Sorted(l) && size > TWO64 - 16 && (alignment == 0 || PowerOfTwo(alignment))
    ensures var (r, m) := Alloc(l, size, addressMin, addressMax, alignment);
            && (r == 0 <==> Harmless(l, size, addressMin, addressMax, alignment))
            && Sorted(m) && Total(m, 0) == Total(l, 0)
            && (forall y :: Has(m, y) <==> Has(l, y))
            && (r != 0 ==> Has(m, r))
  {
    hide Walk, PowerOfTwo, MaskUp, Idle, Has, And;
    SixteenIsPower();
    MaskUpWraps(size, 16);
    var p := Prepare(size, addressMin, addressMax, alignment);
    if p.Some? {
      PrepareShaped(size, addressMin, addressMax, alignment);
      assert p.value.size == 0;
      hide Prepare;
      WalkNothing(l, p.value);
      WalkList(l, p.value);
      forall y ensures Has(Walk(l, p.value).1, y) <==> Has(l, y) {
        WalkBytes(l, p.value, y);
      }
    }
  }

  /** The entry that a harmful request takes 0 bytes from, in the list as it is then. */
  lemma OversizeEntry(l: seq<Block>, size: u64, addressMin: u64, addressMax: u64, alignment: u64) returns (i: int)
    requires Sorted(l) && size > TWO64 - 16 && (alignment == 0 || PowerOfTwo(alignment))
    requires !Harmless(l, size, addressMin, addressMax, alignment)
    ensures var (r, m) := Alloc(l, size, addressMin, addressMax, alignment);
            Sorted(m) && 0 <= i < |m| && m[i].addr == r
  {
    hide Walk, PowerOfTwo, MaskUp, Idle, And, Carve, Has;
    SixteenIsPower();
    MaskUpWraps(size, 16);
    OversizeOutcome(l, size, addressMin, addressMax, alignment);
    PrepareShaped(size, addressMin, addressMax, alignment);
    var q := Prepare(size, addressMin, addressMax, alignment).value;
    assert q.size == 0;
    hide Prepare, Harmless, Base;
    i := TakenEntry(l, q);
  }

  lemma TakenEntry(l: seq<Block>, q: Request) returns (i: int)
    requires Sorted(l) && q.Shaped() && q.size == 0 && Walk(l, q).0 != 0
    ensures Sorted(Walk(l, q).1) && 0 <= i < |Walk(l, q).1| && Walk(l, q).1[i].addr == Walk(l, q).0
  {
    hide Walk, PowerOfTwo, Base, Cut;
    WalkList(l, q);
    var k := WalkShape(l, q);
    BaseBounds(l[k], q);
    i := CutUpper(l, k, Base(l[k], q));
  }

  /** Cutting nothing out leaves an entry that starts there. */
  lemma CutUpper(l: seq<Block>, i: int, x: int) returns (j: int)
    requires 0 <= i < |l| && l[i].addr <= x < l[i].End()
    ensures 0 <= j < |Cut(l, i, x, 0)| && Cut(l, i, x, 0)[j].addr == x
  {
    j := if l[i].addr < x then i + 1 else i;
  }

  /** Without bounds an oversize request always does harm: it is given the very start of the list. */
  lemma OversizeTakesHead(l: seq<Block>, size: u64)
    requires Sorted(l) && l != [] && size > TWO64 - 16
    ensures !Harmless(l, size, 0, 0, 0) && Alloc(l, size, 0, 0, 0) == (l[0].addr, l)
  {
    hide Walk, PowerOfTwo, MaskUp, And;
    SixteenIsPower();
    MaskUpWraps(size, 16);
    LowBits(0);
    PrepareShaped(size, 0, 0, 0);
    var q := Request(0, 0, TWO64 - 1, 16);
    assert Prepare(size, 0, 0, 0) == Some(q);
    SortedHead(l);
    BaseExact(l[0], q);
    RoundUpFixed(l[0].addr, 16);
    hide Base, Prepare, RoundUp;
    assert Fits(l[0], q) && !Idle(l[0], q);
    hide Fits, Idle;
    WalkAtBase(l, q);
    assert Carve(l[0], l[0].addr, 0) + l[1..] == l;
  }
}
