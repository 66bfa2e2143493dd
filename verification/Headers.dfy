/**
 The free list as it lies in memory: each free block carries in its first two words the address
 of the next block and its own size. The lemmas say how the list changes under the handful of
 header rewrites the allocator makes.
 */
module Headers {
  import opened Word64
  import opened FreeList
  import opened AllocMeaning
  import opened FreeMeaning

  const NEXT_OFFSET := 0
  const SIZE_OFFSET := 8

  /** Physical memory as 64-bit words by address; words never written read as zero. */
  type Memory = map<int, u64>

  function Read(m: Memory, a: int): u64 {
    if a in m then m[a] else 0
  }

  function GetNext(m: Memory, a: u64): u64 { Read(m, a + NEXT_OFFSET) }

  function GetSize(m: Memory, a: u64): u64 { Read(m, a + SIZE_OFFSET) }

  function SetNext(m: Memory, a: u64, next: u64): Memory { m[a + NEXT_OFFSET := next] }

  function SetSize(m: Memory, a: u64, size: u64): Memory { m[a + SIZE_OFFSET := size] }

  function AddrAt(l: seq<Block>, i: int): int {
    if 0 <= i < |l| then l[i].addr else 0
  }

  /** Block `b` has its header in memory, linking to `next`. */
  predicate Header(m: Memory, b: Block, next: int) {
    Read(m, b.addr + NEXT_OFFSET) == next && Read(m, b.addr + SIZE_OFFSET) == b.size
  }

  predicate EntryLinked(m: Memory, l: seq<Block>, i: int)
    requires 0 <= i < |l|
  {
    Header(m, l[i], AddrAt(l, i + 1))
  }

  /** The chain of headers from `head` is exactly `l`. */
  predicate Linked(m: Memory, head: int, l: seq<Block>) {
    && head == AddrAt(l, 0)
    && (forall i | 0 <= i < |l| :: EntryLinked(m, l, i))
  }

  /** Nothing outside the free bytes of `l` differs between the two memories. */
  ghost predicate OnlyFree(m: Memory, m': Memory, l: seq<Block>) {
    forall w :: !Has(l, w) ==> Read(m', w) == Read(m, w)
  }

  /** Set the link of the entry before `i`, or the list head if there is none. */
  function Relink(m: Memory, l: seq<Block>, i: int, v: u64): Memory
    requires 0 <= i <= |l|
  {
    if i == 0 then m else m[l[i - 1].addr + NEXT_OFFSET := v]
  }

  /** Two entries' headers do not overlap. */
  lemma HeadersApart(l: seq<Block>, i: int, j: int)
    requires Sorted(l) && 0 <= i < j < |l|
    ensures l[i].addr + 16 <= l[i].End() <= l[j].addr
  {
  }

  lemma LinkedAt(m: Memory, head: int, l: seq<Block>, i: int)
    requires Sorted(l) && Linked(m, head, l) && 0 <= i < |l|
    ensures Header(m, l[i], AddrAt(l, i + 1)) && 16 <= l[i].addr && 16 <= l[i].size
  {
    assert EntryLinked(m, l, i);
  }

  function TakeBottomMemory(m: Memory, l: seq<Block>, i: int, n: int): Memory
    requires 0 <= i < |l| && l[i].Good() && 0 < n < l[i].size
  {
    var a, top := l[i].addr, l[i].addr + n;
    Relink(m[top + NEXT_OFFSET := Read(m, a + NEXT_OFFSET)][top + SIZE_OFFSET := l[i].size - n][a + NEXT_OFFSET := top], l, i, top)
  }

  lemma TakeBottomElsewhere(m: Memory, head: int, l: seq<Block>, i: int, n: int, j: int)
    requires Sorted(l) && Linked(m, head, l) && 0 <= i < |l| && 0 <= j < |l| && j != i
    requires 16 <= n < l[i].size && n % 16 == 0
    ensures Header(TakeBottomMemory(m, l, i, n), l[j], if j == i - 1 then l[i].addr + n else AddrAt(l, j + 1))
  {
    LinkedAt(m, head, l, j);
    assert l[i].Good();
    hide Linked, AddrAt;
    if j < i {
      HeadersApart(l, j, i);
      if j < i - 1 { HeadersApart(l, j, i - 1); }
    } else {
      HeadersApart(l, i, j);
      if i > 0 { HeadersApart(l, i - 1, j); }
    }
    hide Sorted;
  }

  lemma TakeBottomHere(m: Memory, head: int, l: seq<Block>, i: int, n: int)
    requires Sorted(l) && Linked(m, head, l) && 0 <= i < |l|
    requires 16 <= n < l[i].size && n % 16 == 0
    ensures Header(TakeBottomMemory(m, l, i, n), Block(l[i].addr + n, l[i].size - n), AddrAt(l, i + 1))
  {
    LinkedAt(m, head, l, i);
    if i > 0 { HeadersApart(l, i - 1, i); }
    hide Sorted, Linked, AddrAt;
  }

  /** The bottom `n` bytes of entry `i` leave the list; a smaller entry remains above them. */
  lemma TakeBottom(m: Memory, head: int, l: seq<Block>, i: int, n: int)
    requires Sorted(l) && Linked(m, head, l) && 0 <= i < |l|
    requires 16 <= n < l[i].size && n % 16 == 0
    ensures Linked(TakeBottomMemory(m, l, i, n), if i == 0 then l[0].addr + n else head, l[i := Block(l[i].addr + n, l[i].size - n)])
  {
    var m2 := TakeBottomMemory(m, l, i, n);
    hide Sorted, Header, TakeBottomMemory;
    var l2 := l[i := Block(l[i].addr + n, l[i].size - n)];
    TakeBottomHere(m, head, l, i, n);
    forall j | 0 <= j < |l2| ensures EntryLinked(m2, l2, j) {
      if j != i {
        TakeBottomElsewhere(m, head, l, i, n, j);
      }
    }
  }

  lemma TakeWholeAt(m: Memory, head: int, l: seq<Block>, i: int, j: int)
    requires Sorted(l) && Linked(m, head, l) && 0 <= i < |l| && 0 <= j < |l| && j != i
    ensures Header(Relink(m, l, i, Read(m, l[i].addr + NEXT_OFFSET)), l[j],
                   if j == i - 1 then AddrAt(l, i + 1) else AddrAt(l, j + 1))
  {
    LinkedAt(m, head, l, j);
    LinkedAt(m, head, l, i);
    if j < i - 1 { HeadersApart(l, j, i - 1); }
    if 0 < i < j { HeadersApart(l, i - 1, j); }
    if i > 0 { LinkedAt(m, head, l, i - 1); }
    hide Sorted, Linked;
  }

  /** Entry `i` leaves the list. */
  lemma TakeWhole(m: Memory, head: int, l: seq<Block>, i: int)
    requires Sorted(l) && Linked(m, head, l) && 0 <= i < |l|
    ensures var next := Read(m, l[i].addr + NEXT_OFFSET);
            Linked(Relink(m, l, i, next), if i == 0 then next else head, l[..i] + l[i + 1..])
  {
    var l2 := l[..i] + l[i + 1..];
    var m2 := Relink(m, l, i, Read(m, l[i].addr + NEXT_OFFSET));
    LinkedAt(m, head, l, i);
    assert Read(m, l[i].addr + NEXT_OFFSET) == AddrAt(l, i + 1);
    hide Header, Relink, Sorted;
    forall j | 0 <= j < |l2| ensures EntryLinked(m2, l2, j) {
      TakeWholeAt(m, head, l, i, if j < i then j else j + 1);
    }
  }

  function SplitMemory(m: Memory, b: Block, x: int): Memory
    requires b.Good() && b.addr < x < b.End()
  {
    m[x + NEXT_OFFSET := Read(m, b.addr + NEXT_OFFSET)][x + SIZE_OFFSET := b.size - (x - b.addr)]
     [b.addr + SIZE_OFFSET := x - b.addr][b.addr + NEXT_OFFSET := x]
  }

  lemma SplitElsewhere(m: Memory, head: int, l: seq<Block>, i: int, x: int, j: int)
    requires Sorted(l) && Linked(m, head, l) && 0 <= i < |l| && 0 <= j < |l| && j != i
    requires l[i].addr < x < l[i].End() && x % 16 == 0
    ensures Header(SplitMemory(m, l[i], x), l[j], AddrAt(l, j + 1))
  {
    LinkedAt(m, head, l, j);
    if j < i { HeadersApart(l, j, i); } else { HeadersApart(l, i, j); }
    hide Sorted, Linked;
  }

  lemma SplitHere(m: Memory, head: int, l: seq<Block>, i: int, x: int)
    requires Sorted(l) && Linked(m, head, l) && 0 <= i < |l|
    requires l[i].addr < x < l[i].End() && x % 16 == 0
    ensures Header(SplitMemory(m, l[i], x), Block(l[i].addr, x - l[i].addr), x)
    ensures Header(SplitMemory(m, l[i], x), Block(x, l[i].End() - x), AddrAt(l, i + 1))
  {
    LinkedAt(m, head, l, i);
    hide Sorted, Linked;
  }

  /** Entry `i` becomes two entries that meet at `x`. */
  lemma SplitEntry(m: Memory, head: int, l: seq<Block>, i: int, x: int)
    requires Sorted(l) && Linked(m, head, l) && 0 <= i < |l|
    requires l[i].addr < x < l[i].End() && x % 16 == 0
    ensures Linked(SplitMemory(m, l[i], x), head, l[..i] + [Block(l[i].addr, x - l[i].addr), Block(x, l[i].End() - x)] + l[i + 1..])
  {
    var l2 := l[..i] + [Block(l[i].addr, x - l[i].addr), Block(x, l[i].End() - x)] + l[i + 1..];
    var m2 := SplitMemory(m, l[i], x);
    SplitHere(m, head, l, i, x);
    hide Header, SplitMemory, Sorted;
    forall j | 0 <= j < |l2| ensures EntryLinked(m2, l2, j) {
      if j < i {
        SplitElsewhere(m, head, l, i, x, j);
      } else if j > i + 1 {
        SplitElsewhere(m, head, l, i, x, j - 1);
      }
    }
  }

  // ---------------------------------------------------------------- freeing

  /** The header of a free block `b` written before entry `i`, and the entry below linked to it. */
  function PlaceMemory(m: Memory, l: seq<Block>, i: int, b: Block, next: u64): Memory
    requires 0 <= i <= |l| && b.Good()
  {
    Relink(m[b.addr + SIZE_OFFSET := b.size][b.addr + NEXT_OFFSET := next], l, i, b.addr)
  }

  /** `b` lies between entry `i - 1` and entry `k`. */
  predicate Between(l: seq<Block>, i: int, k: int, b: Block) {
    && 0 <= i <= k <= |l|
    && (i > 0 ==> l[i - 1].End() <= b.addr)
    && (k < |l| ==> b.End() <= l[k].addr)
  }

  lemma PlaceElsewhere(m: Memory, head: int, l: seq<Block>, i: int, k: int, b: Block, next: u64, j: int)
    requires Sorted(l) && Linked(m, head, l) && b.Good() && Between(l, i, k, b)
    requires 0 <= j < i || k <= j < |l|
    ensures Header(PlaceMemory(m, l, i, b, next), l[j], if j == i - 1 then b.addr else AddrAt(l, j + 1))
  {
    LinkedAt(m, head, l, j);
    if j < i - 1 { HeadersApart(l, j, i - 1); }
    if k < j { HeadersApart(l, k, j); }
    if 0 < i <= j { HeadersApart(l, i - 1, j); }
    assert 16 <= b.size;
    hide Sorted, Linked, AddrAt;
  }

  lemma PlaceHere(m: Memory, l: seq<Block>, i: int, b: Block, next: u64)
    requires Sorted(l) && b.Good() && 0 <= i <= |l| && (i > 0 ==> l[i - 1].End() <= b.addr)
    ensures Header(PlaceMemory(m, l, i, b, next), b, next)
  {
    if i > 0 { assert l[i - 1].Good() && 16 <= l[i - 1].size; }
    hide Sorted;
  }

  /** A block placed between entries `i - 1` and `k` replaces entries `i .. k`. */
  lemma Place(m: Memory, head: int, l: seq<Block>, i: int, k: int, b: Block)
    requires Sorted(l) && Linked(m, head, l) && b.Good() && Between(l, i, k, b) && 0 <= AddrAt(l, k) < TWO64
    ensures Linked(PlaceMemory(m, l, i, b, AddrAt(l, k)), if i == 0 then b.addr else head, l[..i] + [b] + l[k..])
  {
    var l2 := l[..i] + [b] + l[k..];
    var m2 := PlaceMemory(m, l, i, b, AddrAt(l, k));
    PlaceHere(m, l, i, b, AddrAt(l, k));
    hide Header, PlaceMemory, Sorted;
    forall j | 0 <= j < |l2| ensures EntryLinked(m2, l2, j) {
      if j < i {
        PlaceElsewhere(m, head, l, i, k, b, AddrAt(l, k), j);
      } else if j > i {
        PlaceElsewhere(m, head, l, i, k, b, AddrAt(l, k), j - 1 + k - i);
      }
    }
  }

  lemma GrowElsewhere(m: Memory, head: int, l: seq<Block>, i: int, size: u64, next: u64, j: int)
    requires Sorted(l) && Linked(m, head, l) && 0 <= i < |l| && 0 <= j < |l| && j != i
    ensures Header(m[l[i].addr + SIZE_OFFSET := size][l[i].addr + NEXT_OFFSET := next], l[j], AddrAt(l, j + 1))
  {
    LinkedAt(m, head, l, j);
    if j < i { HeadersApart(l, j, i); } else { HeadersApart(l, i, j); }
    hide Sorted, Linked, AddrAt;
  }

  /** Entry `i` grows over everything up to entry `k`. */
  lemma Grow(m: Memory, head: int, l: seq<Block>, i: int, k: int, size: u64)
    requires Sorted(l) && Linked(m, head, l) && 0 <= i < k <= |l| && 0 <= AddrAt(l, k) < TWO64
    ensures Linked(m[l[i].addr + SIZE_OFFSET := size][l[i].addr + NEXT_OFFSET := AddrAt(l, k)], head,
                   l[..i] + [Block(l[i].addr, size)] + l[k..])
  {
    var b := Block(l[i].addr, size);
    var l2 := l[..i] + [b] + l[k..];
    var m2 := m[l[i].addr + SIZE_OFFSET := size][l[i].addr + NEXT_OFFSET := AddrAt(l, k)];
    assert Header(m2, b, AddrAt(l, k));
    hide Header, Sorted;
    forall j | 0 <= j < |l2| ensures EntryLinked(m2, l2, j) {
      if j < i {
        GrowElsewhere(m, head, l, i, size, AddrAt(l, k), j);
      } else if j > i {
        GrowElsewhere(m, head, l, i, size, AddrAt(l, k), j - 1 + k - i);
      }
    }
  }

  lemma GrowSizeAt(m: Memory, head: int, l: seq<Block>, i: int, size: u64, j: int)
    requires Sorted(l) && Linked(m, head, l) && 0 <= i < |l| && 0 <= j < |l| && j != i
    ensures Header(m[l[i].addr + SIZE_OFFSET := size], l[j], AddrAt(l, j + 1))
  {
    LinkedAt(m, head, l, j);
    if j < i { HeadersApart(l, j, i); } else { HeadersApart(l, i, j); }
    hide Sorted, Linked, AddrAt;
  }

  /** Entry `i` grows in place. */
  lemma GrowSize(m: Memory, head: int, l: seq<Block>, i: int, size: u64)
    requires Sorted(l) && Linked(m, head, l) && 0 <= i < |l|
    ensures Linked(m[l[i].addr + SIZE_OFFSET := size], head, l[..i] + [Block(l[i].addr, size)] + l[i + 1..])
  {
    var l2 := l[..i] + [Block(l[i].addr, size)] + l[i + 1..];
    var m2 := m[l[i].addr + SIZE_OFFSET := size];
    LinkedAt(m, head, l, i);
    assert Header(m2, l2[i], AddrAt(l, i + 1));
    hide Header, Sorted;
    forall j | 0 <= j < |l2| ensures EntryLinked(m2, l2, j) {
      if j != i {
        GrowSizeAt(m, head, l, i, size, j);
      }
    }
  }

  /** Where a block lands, given the index of the first entry above it. */
  function Merged(l: seq<Block>, i: int, a: int, n: int): seq<Block>
    requires 0 <= i <= |l|
  {
    var below := i > 0 && l[i - 1].End() == a;
    var above := i < |l| && a + n == l[i].addr;
    if below && above then l[..i - 1] + [Block(l[i - 1].addr, l[i - 1].size + n + l[i].size)] + l[i + 1..]
    else if below then l[..i - 1] + [Block(l[i - 1].addr, l[i - 1].size + n)] + l[i..]
    else if above then l[..i] + [Block(a, n + l[i].size)] + l[i + 1..]
    else l[..i] + [Block(a, n)] + l[i..]
  }

  lemma MergedStep(l: seq<Block>, i: int, a: int, n: int)
    requires 1 < i <= |l|
    ensures Merged(l, i, a, n) == [l[0]] + Merged(l[1..], i - 1, a, n)
  {
    var t := l[1..];
    assert [l[0]] + t[..i - 1] == l[..i] && [l[0]] + t[..i - 2] == l[..i - 1];
    assert t[i - 1..] == l[i..];
    if i < |l| {
      assert t[i..] == l[i + 1..];
    }
  }

  lemma MergedAtOne(l: seq<Block>, a: int, n: int)
    requires l != [] && l[0].End() != a
    ensures Merged(l, 1, a, n) == [l[0]] + Merged(l[1..], 0, a, n)
  {
    var t := l[1..];
    assert t[..0] == [] && t[0..] == t && l[..1] == [l[0]];
    if t != [] {
      assert t[1..] == l[2..];
    }
  }

  lemma MergedBelow(l: seq<Block>, a: int, n: int)
    requires l != [] && l[0].End() == a && 0 < n && 0 < l[0].size
    ensures Merged(l, 1, a, n) == Insert(l, a, n)
  {
    assert l[..0] == [];
  }

  /** Everything below entry `i` ends at or before `a` when entry `i - 1` starts before it. */
  lemma FirstEndsBelow(l: seq<Block>, i: int, a: int, n: int)
    requires Sorted(l) && Clear(l, a, n) && 0 < n && 0 < i <= |l| && l[i - 1].addr < a
    ensures l[0].addr < a && 0 < l[0].size && l[0].End() <= a && (i > 1 ==> l[0].End() < a)
  {
    if i > 1 {
      assert l[0].End() <= l[i - 1].addr;
    }
  }

  /** The merge found by looking at the two neighbours is the insertion. */
  lemma {:induction false} MergedIsInsert(l: seq<Block>, i: int, a: int, n: int)
    requires Sorted(l) && Block(a, n).Good() && Clear(l, a, n) && 0 <= i <= |l|
    requires i > 0 ==> l[i - 1].addr < a
    requires i < |l| ==> a < l[i].addr
    ensures Merged(l, i, a, n) == Insert(l, a, n)
  {
    if i == 0 {
      assert l[..0] == [] && l[0..] == l;
      if l != [] { ClearTail(l, a, n); assert l[0].Good(); }
      hide Sorted, Clear;
    } else {
      FirstEndsBelow(l, i, a, n);
      SortedUncons(l);
      ClearTail(l, a, n);
      if l[0].End() == a {
        hide Sorted, Clear;
        MergedBelow(l, a, n);
      } else {
        MergedIsInsert(l[1..], i - 1, a, n);
        hide Sorted, Clear, Merged;
        if i == 1 {
          MergedAtOne(l, a, n);
        } else {
          MergedStep(l, i, a, n);
        }
      }
    }
  }

  // ---------------------------------------------------------------- only free memory is written

  /** The header words of an entry are free bytes. */
  lemma HeaderHeld(l: seq<Block>, i: int)
    requires Sorted(l) && 0 <= i < |l|
    ensures Has(l, l[i].addr + NEXT_OFFSET) && Has(l, l[i].addr + SIZE_OFFSET)
  {
    assert l[i].Holds(l[i].addr) && l[i].Holds(l[i].addr + 8);
  }

  /** The header words of a new entry made inside entry `i` are free bytes. */
  lemma InnerHeaderHeld(l: seq<Block>, i: int, x: int)
    requires Sorted(l) && 0 <= i < |l| && l[i].addr <= x < l[i].End() && x % 16 == 0
    ensures Has(l, x + NEXT_OFFSET) && Has(l, x + SIZE_OFFSET)
  {
    assert l[i].Holds(x) && l[i].Holds(x + 8);
  }

  lemma RelinkTouches(m: Memory, l: seq<Block>, i: int, v: u64)
    requires Sorted(l) && 0 <= i <= |l|
    ensures OnlyFree(m, Relink(m, l, i, v), l)
  {
    if i > 0 { HeaderHeld(l, i - 1); }
    hide Sorted, Has;
  }

  /** The new header at `top`, and the link to it. */
  function TopAndBottom(m: Memory, a: int, top: u64, size: u64): Memory {
    m[top + NEXT_OFFSET := Read(m, a + NEXT_OFFSET)][top + SIZE_OFFSET := size][a + NEXT_OFFSET := top]
  }

  lemma TopAndBottomHeld(m: Memory, l: seq<Block>, a: int, top: u64, size: u64)
    requires Has(l, a + NEXT_OFFSET) && Has(l, top + NEXT_OFFSET) && Has(l, top + SIZE_OFFSET)
    ensures OnlyFree(m, TopAndBottom(m, a, top, size), l)
  {
    hide Has;
  }

  lemma RelinkHeld(m: Memory, m': Memory, l: seq<Block>, i: int, v: u64)
    requires Sorted(l) && 0 <= i <= |l| && OnlyFree(m, m', l)
    ensures OnlyFree(m, Relink(m', l, i, v), l)
  {
    if i > 0 { HeaderHeld(l, i - 1); }
    hide Has, Sorted;
  }

  lemma TakeBottomTouches(m: Memory, l: seq<Block>, i: int, n: int)
    requires Sorted(l) && 0 <= i < |l| && 0 < n < l[i].size && n % 16 == 0
    ensures OnlyFree(m, TakeBottomMemory(m, l, i, n), l)
  {
    assert l[i].Good();
    Sixteens(l[i].addr, n);
    HeaderHeld(l, i);
    InnerHeaderHeld(l, i, l[i].addr + n);
    var a, top, size: u64 := l[i].addr, l[i].addr + n, l[i].size - n;
    assert TakeBottomMemory(m, l, i, n) == Relink(TopAndBottom(m, a, top, size), l, i, top);
    hide *;
    TopAndBottomHeld(m, l, a, top, size);
    RelinkHeld(m, TopAndBottom(m, a, top, size), l, i, top);
  }

  lemma SplitTouches(m: Memory, l: seq<Block>, i: int, x: int)
    requires Sorted(l) && 0 <= i < |l| && l[i].addr < x < l[i].End() && x % 16 == 0
    ensures OnlyFree(m, SplitMemory(m, l[i], x), l)
  {
    HeaderHeld(l, i);
    InnerHeaderHeld(l, i, x);
    assert l[i].Good();
    hide Sorted, Has;
  }

  lemma WriteOrder(m: Memory, a: int, v: u64, b: int, w: u64)
    requires a != b
    ensures m[a := v][b := w] == m[b := w][a := v]
  {
  }
}
