/**
 What a free means: the bytes come back, neighbours coalesce, and the list that results depends
 on the set of free bytes alone. Hence an allocation is undone by freeing its rounded block, and
 blocks may be freed in any order.
 */
module FreeMeaning {
  import opened Word64
  import opened FreeList
  import opened AllocMeaning

  /** `[a, a + n)` touches no byte of the list. */
  predicate Clear(l: seq<Block>, a: int, n: int) {
    forall i | 0 <= i < |l| :: l[i].End() <= a || a + n <= l[i].addr
  }

  /** The list with `[a, a + n)` put in its place, merged with the entries it touches. */
  function Insert(l: seq<Block>, a: int, n: int): seq<Block> {
    if l == [] || a + n < l[0].addr then [Block(a, n)] + l
    else if a + n == l[0].addr then [Block(a, n + l[0].size)] + l[1..]
    else if l[0].End() == a then
      if |l| > 1 && a + n == l[1].addr then [Block(l[0].addr, l[0].size + n + l[1].size)] + l[2..]
      else [Block(l[0].addr, l[0].size + n)] + l[1..]
    else [l[0]] + Insert(l[1..], a, n)
  }

  /** Result and list of a free: refused when empty or when it runs into the first entry from below. */
  function Release(l: seq<Block>, a: int, n: int): (bool, seq<Block>) {
    if n == 0 || (l != [] && a < l[0].addr && a + n > l[0].addr) then (false, l)
    else (true, Insert(l, a, n))
  }

  lemma SortedCons(b: Block, m: seq<Block>)
    requires b.Good() && Sorted(m) && (m != [] ==> b.End() <= m[0].addr)
    ensures Sorted([b] + m)
    ensures Canonical(m) && (m != [] ==> b.End() < m[0].addr) ==> Canonical([b] + m)
  {
    var c := [b] + m;
    assert forall i | 1 <= i < |c| :: c[i] == m[i - 1];
    assert forall i | 0 <= i < |m| :: m[0].addr <= m[i].addr;
  }

  lemma SortedUncons(l: seq<Block>)
    requires Sorted(l) && l != []
    ensures l[0].Good() && Sorted(l[1..]) && (|l| > 1 ==> l[0].End() <= l[1].addr && l[1].Good())
    ensures Canonical(l) ==> Canonical(l[1..]) && (|l| > 1 ==> l[0].End() < l[1].addr)
  {
  }

  lemma ClearTail(l: seq<Block>, a: int, n: int)
    requires Clear(l, a, n) && l != []
    ensures Clear(l[1..], a, n) && (l[0].End() <= a || a + n <= l[0].addr)
  {
  }

  /** A block freed right behind the first entry, which it may join to the second. */
  lemma JoinedGood(a: int, n: int, size: int)
    requires Block(a, n).Good() && Block(a + n, size).Good()
    ensures Block(a, n + size).Good() && n > 0 && size > 0
  {
    Sixteens(n, size);
  }

  lemma InsertBehind(l: seq<Block>, a: int, n: int)
    requires Sorted(l) && Block(a, n).Good() && Clear(l, a, n) && l != [] && l[0].End() == a
    ensures var m := Insert(l, a, n);
            Sorted(m) && m != [] && m[0].addr == l[0].addr && (Canonical(l) ==> Canonical(m))
  {
    hide Sorted, Canonical, Clear, Block.Good;
    SortedUncons(l);
    JoinedGood(l[0].addr, l[0].size, n);
    ClearTail(l, a, n);
    if |l| > 1 && a + n == l[1].addr {
      assert l[1..][1..] == l[2..];
      SortedUncons(l[1..]);
      JoinedGood(l[0].addr, l[0].size + n, l[1].size);
      SortedCons(Block(l[0].addr, l[0].size + n + l[1].size), l[2..]);
    } else {
      if |l| > 1 {
        ClearTail(l[1..], a, n);
      }
      SortedCons(Block(l[0].addr, l[0].size + n), l[1..]);
    }
  }

  /** Freeing a block clear of the list keeps it sorted, and canonical if it was. */
  lemma {:induction false} InsertList(l: seq<Block>, a: int, n: int)
    requires Sorted(l) && Block(a, n).Good() && Clear(l, a, n)
    ensures var m := Insert(l, a, n);
            && Sorted(m) && m != [] && m[0].addr == (if l != [] && l[0].addr < a then l[0].addr else a)
            && (Canonical(l) ==> Canonical(m))
  {
    hide Sorted, Canonical, Clear;
    if l != [] {
      SortedUncons(l);
      ClearTail(l, a, n);
    }
    if l == [] || a + n < l[0].addr {
      SortedCons(Block(a, n), l);
    } else if a + n == l[0].addr {
      SortedCons(Block(a, n + l[0].size), l[1..]);
    } else if l[0].End() == a {
      InsertBehind(l, a, n);
    } else {
      InsertList(l[1..], a, n);
      SortedCons(l[0], Insert(l[1..], a, n));
    }
  }

  /** Exactly the freed bytes are added. */
  lemma {:induction false} InsertBytes(l: seq<Block>, a: int, n: int, y: int)
    requires Sorted(l) && Block(a, n).Good()
    ensures Has(Insert(l, a, n), y) <==> Has(l, y) || a <= y < a + n
  {
    hide Sorted, Has;
    if l != [] {
      HasSplit(l, y);
      assert l[0].Good() && Sorted(l[1..]) by { SortedTail(l); }
    }
    assert !Has([], y) by { NothingHeld(y); }
    if l == [] || a + n < l[0].addr {
      HasCons(Block(a, n), l, y);
    } else if a + n == l[0].addr {
      HasCons(Block(a, n + l[0].size), l[1..], y);
    } else if l[0].End() == a {
      if |l| > 1 && a + n == l[1].addr {
        HasSplit(l[1..], y);
        SortedTail(l[1..]);
        assert l[1..][1..] == l[2..];
        HasCons(Block(l[0].addr, l[0].size + n + l[1].size), l[2..], y);
      } else {
        HasCons(Block(l[0].addr, l[0].size + n), l[1..], y);
      }
    } else {
      InsertBytes(l[1..], a, n, y);
      HasCons(l[0], Insert(l[1..], a, n), y);
    }
  }

  lemma SortedTail(l: seq<Block>)
    requires Sorted(l) && l != []
    ensures l[0].Good() && Sorted(l[1..])
  {
  }

  lemma NothingHeld(y: int)
    ensures !Has([], y)
  {
  }

  lemma {:induction false} InsertTotal(l: seq<Block>, a: int, n: int)
    requires Sorted(l) && n >= 0
    ensures Total(Insert(l, a, n), 0) == Total(l, 0) + n
  {
    if l == [] || a + n < l[0].addr {
      assert ([Block(a, n)] + l)[1..] == l;
    } else if a + n == l[0].addr {
      assert ([Block(a, n + l[0].size)] + l[1..])[1..] == l[1..];
    } else if l[0].End() == a {
      if |l| > 1 && a + n == l[1].addr {
        assert l[1..][1..] == l[2..];
        assert ([Block(l[0].addr, l[0].size + n + l[1].size)] + l[2..])[1..] == l[2..];
      } else {
        assert ([Block(l[0].addr, l[0].size + n)] + l[1..])[1..] == l[1..];
      }
    } else {
      InsertTotal(l[1..], a, n);
      assert ([l[0]] + Insert(l[1..], a, n))[1..] == Insert(l[1..], a, n);
    }
  }

  // ---------------------------------------------------------------- one canonical list per byte set

  lemma HeadAddressLeast(l: seq<Block>, m: seq<Block>)
    requires Sorted(l) && Sorted(m) && l != [] && Has(m, l[0].addr)
    ensures m != [] && m[0].addr <= l[0].addr
  {
    var j :| 0 <= j < |m| && m[j].Holds(l[0].addr);
    if j != 0 {
      assert m[0].End() <= m[j].addr;
    }
  }

  lemma EndNotHeld(l: seq<Block>)
    requires Canonical(l) && l != []
    ensures !Has(l, l[0].End())
  {
    forall j | 0 <= j < |l| ensures !l[j].Holds(l[0].End()) {
      assert j == 0 || l[0].End() < l[j].addr;
    }
  }

  lemma TailBytes(l: seq<Block>, y: int)
    requires Sorted(l) && l != []
    ensures Has(l[1..], y) <==> Has(l, y) && !l[0].Holds(y)
  {
    HasSplit(l, y);
    if Has(l[1..], y) {
      var j :| 0 <= j < |l[1..]| && l[1..][j].Holds(y);
      assert l[0].End() <= l[j + 1].addr;
    }
  }

  lemma HoldsFirst(l: seq<Block>)
    requires Sorted(l)
    ensures l != [] ==> Has(l, l[0].addr)
  {
    if l != [] {
      assert l[0].Holds(l[0].addr);
    }
  }

  /** Two canonical lists with the same free bytes are the same list. */
  lemma {:induction false} CanonicalUnique(l: seq<Block>, m: seq<Block>)
    requires Canonical(l) && Canonical(m)
    requires forall y :: Has(l, y) <==> Has(m, y)
    ensures l == m
  {
    if l == [] {
      HoldsFirst(m);
    } else {
      assert l[0].Holds(l[0].addr);
      HeadAddressLeast(l, m);
      assert m[0].Holds(m[0].addr);
      HeadAddressLeast(m, l);
      EndNotHeld(l);
      EndNotHeld(m);
      assert !m[0].Holds(l[0].End()) && !l[0].Holds(m[0].End());
      assert l[0] == m[0];
      hide Has;
      forall y ensures Has(l[1..], y) <==> Has(m[1..], y) {
        TailBytes(l, y);
        TailBytes(m, y);
      }
      CanonicalUnique(l[1..], m[1..]);
      assert l == [l[0]] + l[1..] && m == [m[0]] + m[1..];
    }
  }

  lemma ClearFromBytes(l: seq<Block>, a: int, n: int)
    requires Sorted(l) && 0 < n
    requires forall y | a <= y < a + n :: !Has(l, y)
    ensures Clear(l, a, n)
  {
    forall i | 0 <= i < |l| ensures l[i].End() <= a || a + n <= l[i].addr {
      var y := if l[i].addr > a then l[i].addr else a;
      assert l[i].Holds(y) ==> Has(l, y);
    }
  }

  lemma ClearBytes(l: seq<Block>, a: int, n: int, y: int)
    requires Clear(l, a, n) && a <= y < a + n
    ensures !Has(l, y)
  {
  }

  /** Allocating and then freeing the rounded block gives back the very list. */
  lemma AllocThenFree(l: seq<Block>, size: u64, addressMin: u64, addressMax: u64, alignment: u64)
    requires Canonical(l) && size <= TWO64 - 16
    requires alignment == 0 || PowerOfTwo(alignment)
    ensures var (r, m) := Alloc(l, size, addressMin, addressMax, alignment);
            r != 0 ==> Release(m, r, RoundUp(size, 16)) == (true, l)
  {
    var (r, m) := Alloc(l, size, addressMin, addressMax, alignment);
    hide PowerOfTwo, Has, RoundUp, MaskUp;
    if r != 0 {
      AllocatedGood(l, size, addressMin, addressMax, alignment);
      AllocList(l, size, addressMin, addressMax, alignment);
      hide Alloc;
      var n := RoundUp(size, 16);
      forall y ensures Has(m, y) <==> Has(l, y) && !(r <= y < r + n) {
        AllocBytes(l, size, addressMin, addressMax, alignment, y);
      }
      ClearFromBytes(m, r, n);
      InsertList(m, r, n);
      forall y ensures Has(Insert(m, r, n), y) <==> Has(l, y) {
        InsertBytes(m, r, n, y);
        RoomBytes(l, r, n, y);
      }
      CanonicalUnique(Insert(m, r, n), l);
      ReleaseIsInsert(m, r, n);
    }
  }

  lemma ReleaseIsInsert(l: seq<Block>, a: int, n: int)
    requires Clear(l, a, n) && n > 0 && Sorted(l)
    ensures Release(l, a, n) == (true, Insert(l, a, n))
  {
  }

  lemma RoomBytes(l: seq<Block>, x: int, n: int, y: int)
    requires Room(l, x, n)
    ensures x <= y < x + n ==> Has(l, y)
  {
    if x <= y < x + n {
      var i :| 0 <= i < |l| && l[i].addr <= x && x + n <= l[i].End();
      assert l[i].Holds(y);
    }
  }

  /** An allocated block is a 16-aligned, non-empty block of physical memory that was free. */
  lemma AllocatedGood(l: seq<Block>, size: u64, addressMin: u64, addressMax: u64, alignment: u64)
    requires Sorted(l) && size <= TWO64 - 16
    requires alignment == 0 || PowerOfTwo(alignment)
    ensures var (r, m) := Alloc(l, size, addressMin, addressMax, alignment);
            r != 0 ==> Block(r, RoundUp(size, 16)).Good() && Room(l, r, RoundUp(size, 16))
  {
    var (r, m) := Alloc(l, size, addressMin, addressMax, alignment);
    hide PowerOfTwo, RoundUp, MaskUp, Sorted, Walk;
    if r != 0 {
      AllocLeast(l, size, addressMin, addressMax, alignment);
      hide Alloc;
      RoundUpLeast(size, 16);
      AlignmentAligned(r, alignment);
      RoomInside(l, r, RoundUp(size, 16));
    }
  }

  /** The minimum address is respected just if rounding it up does not wrap. */
  lemma MinimumKept(l: seq<Block>, size: u64, addressMin: u64, addressMax: u64, alignment: u64)
    requires Sorted(l) && size <= TWO64 - 16
    requires alignment == 0 || PowerOfTwo(alignment)
    ensures var r := Alloc(l, size, addressMin, addressMax, alignment).0;
            r != 0 ==> (r >= addressMin <==> addressMin + alignment <= TWO64)
  {
    hide PowerOfTwo, Alloc, RoundUp, Room;
    var r := Alloc(l, size, addressMin, addressMax, alignment).0;
    if r != 0 {
      AllocLeast(l, size, addressMin, addressMax, alignment);
      AllocatedGood(l, size, addressMin, addressMax, alignment);
      if alignment != 0 { AlignBounded(alignment); }
    }
  }

  lemma LowestPage(x: nat, a: nat)
    requires a == 0x1000 && 0 < x <= a && x % a == 0
    ensures x == a
  {
    MultiplesApart(a, x, a);
  }

  lemma WantedAligned(l: seq<Block>, size: u64, addressMin: u64, addressMax: u64, alignment: u64, x: int)
    requires size <= TWO64 - 16 && alignment >= 16 && Wanted(l, size, addressMin, addressMax, alignment, x)
    ensures x % alignment == 0
  {
  }

  lemma PageRange(size: u64, addressMin: u64, addressMax: u64, alignment: u64)
    requires size == 16 && addressMin == TWO64 - 16 && addressMax == TWO64 - 1 && alignment == 0x1000
    ensures EffectiveMin(addressMin, alignment) == 0 && EffectiveMax(size, addressMin, addressMax) == addressMax
    ensures RoundUp(size, 16) == size
  {
    hide RoundUp;
    RoundUpFixed(size, 16);
  }

  lemma PageWanted(b: Block, size: u64, addressMin: u64, addressMax: u64, alignment: u64)
    requires b == Block(0x1000, 0x1000) && size == 16 && addressMin == TWO64 - 16 && addressMax == TWO64 - 1 && alignment == 0x1000
    ensures Wanted([b], size, addressMin, addressMax, alignment, b.addr)
  {
    hide RoundUp, EffectiveMin, EffectiveMax;
    PageRange(size, addressMin, addressMax, alignment);
    ModUnique(b.addr, alignment, 1, 0);
    assert [b][0] == b;
  }

  /** It is lost in this request: 16 bytes at or above 2^64-16, aligned to 0x1000, are given at 0x1000. */
  lemma MinimumLost(b: Block, size: u64, addressMin: u64, addressMax: u64, alignment: u64)
    requires b == Block(0x1000, 0x1000) && size == 16 && addressMin == TWO64 - 16 && addressMax == TWO64 - 1 && alignment == 0x1000
    ensures PowerOfTwo(alignment) && Sorted([b])
    ensures Alloc([b], size, addressMin, addressMax, alignment).0 == 0x1000
  {
    assert b.Good() && Sorted([b]);
    hide PowerOfTwo, Alloc, Wanted, RoundUp, Sorted;
    PowerOf4096(alignment);
    AllocLeast([b], size, addressMin, addressMax, alignment);
    PageWanted(b, size, addressMin, addressMax, alignment);
    var r := Alloc([b], size, addressMin, addressMax, alignment).0;
    WantedAligned([b], size, addressMin, addressMax, alignment, r);
    LowestPage(r, alignment);
  }

  lemma RoomInside(l: seq<Block>, x: int, n: int)
    requires Sorted(l) && Room(l, x, n)
    ensures 16 <= x && x + n <= PHYS_LIMIT
  {
  }

  lemma AlignmentAligned(x: nat, alignment: u64)
    requires alignment == 0 || PowerOfTwo(alignment)
    requires x % (if alignment < 16 then 16 else alignment) == 0
    ensures x % 16 == 0
  {
    if alignment >= 16 {
      PowerAligned(alignment);
      hide PowerOfTwo;
      ModTrans(x, alignment, 16);
    }
  }

  // ---------------------------------------------------------------- freeing in any order

  /** Free every block of `bs` in turn. */
  function InsertAll(l: seq<Block>, bs: seq<Block>): seq<Block>
    decreases |bs|
  {
    if bs == [] then l else InsertAll(Insert(l, bs[0].addr, bs[0].size), bs[1..])
  }

  /** Good blocks, clear of the list and of each other. */
  predicate Returnable(l: seq<Block>, bs: seq<Block>) {
    && (forall i | 0 <= i < |bs| :: bs[i].Good() && Clear(l, bs[i].addr, bs[i].size))
    && (forall i, j | 0 <= i < j < |bs| :: bs[i].End() <= bs[j].addr || bs[j].End() <= bs[i].addr)
  }

  lemma InsertKeepsClear(l: seq<Block>, b: Block, c: Block)
    requires Sorted(l) && b.Good() && c.Good() && Clear(l, b.addr, b.size) && Clear(l, c.addr, c.size)
    requires b.End() <= c.addr || c.End() <= b.addr
    ensures Clear(Insert(l, b.addr, b.size), c.addr, c.size)
  {
    InsertList(l, b.addr, b.size);
    hide Insert;
    forall y | c.addr <= y < c.addr + c.size ensures !Has(Insert(l, b.addr, b.size), y) {
      InsertBytes(l, b.addr, b.size, y);
      ClearBytes(l, c.addr, c.size, y);
    }
    ClearFromBytes(Insert(l, b.addr, b.size), c.addr, c.size);
  }

  lemma {:induction false} InsertAllList(l: seq<Block>, bs: seq<Block>)
    requires Canonical(l) && Returnable(l, bs)
    ensures Canonical(InsertAll(l, bs))
    ensures forall y :: Has(InsertAll(l, bs), y) <==> Has(l, y) || Has(bs, y)
    decreases |bs|
  {
    if bs != [] {
      var m := Insert(l, bs[0].addr, bs[0].size);
      InsertList(l, bs[0].addr, bs[0].size);
      forall i | 0 <= i < |bs[1..]| ensures Clear(m, bs[1..][i].addr, bs[1..][i].size) {
        InsertKeepsClear(l, bs[0], bs[i + 1]);
      }
      InsertAllList(m, bs[1..]);
      hide Has, Insert;
      forall y ensures Has(InsertAll(l, bs), y) <==> Has(l, y) || Has(bs, y) {
        InsertBytes(l, bs[0].addr, bs[0].size, y);
        HasSplit(bs, y);
      }
    } else {
      forall y ensures !Has(bs, y) {
        NothingHeld(y);
      }
    }
  }

  lemma HasPermutation(a: seq<Block>, b: seq<Block>, y: int)
    requires multiset(a) == multiset(b)
    ensures Has(a, y) ==> Has(b, y)
  {
    if Has(a, y) {
      var i :| 0 <= i < |a| && a[i].Holds(y);
      assert a[i] in multiset(a);
      assert a[i] in b;
    }
  }

  /** Whatever the order in which a collection of blocks is freed, the final list is the same. */
  lemma FreeOrderIrrelevant(l: seq<Block>, cs: seq<Block>, bs: seq<Block>)
    requires Canonical(l) && Returnable(l, cs) && Returnable(l, bs) && multiset(cs) == multiset(bs)
    ensures InsertAll(l, cs) == InsertAll(l, bs)
  {
    InsertAllList(l, cs);
    InsertAllList(l, bs);
    hide Has;
    forall y ensures Has(InsertAll(l, cs), y) <==> Has(InsertAll(l, bs), y) {
      HasPermutation(cs, bs, y);
      HasPermutation(bs, cs, y);
    }
    CanonicalUnique(InsertAll(l, cs), InsertAll(l, bs));
  }
}
