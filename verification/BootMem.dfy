/** The boot-memory allocator over in-band headers: cvmx-bootmem-shared.c and cvmx-bootmem.c. */
module BootMemory {
  import opened Word64
  import opened FreeList
  import opened AllocMeaning
  import opened FreeMeaning
  import opened Headers
  import opened NamedBlocks
  import opened Answers

  const MAX_BLOCK_VERSION := 3

  class BootMem {
    var mem: Memory
    var head: u64
    var majorVersion: int
    /** The named-block table and the length of its name fields. */
    var named: Table
    const nameLen: nat
    /** The free list the headers spell out. */
    ghost var free: seq<Block>
    /** Blocks handed out without a name, and the list the boot loader left. */
    ghost var handed: seq<Block>
    ghost var initial: seq<Block>

    ghost predicate Valid()
      reads `mem, `head, `free
    {
      Sorted(free) && Linked(mem, head, free)
    }

    ghost function Abstract(): State
      reads this
    {
      State(free, named, handed)
    }

    /** named_block_name_len - 1, in 32 bits. */
    function CompareLen(): nat {
      if nameLen > 0 then nameLen - 1 else 0xFFFF_FFFF
    }

    /** The headers are in order and the partition of the initial memory holds. */
    ghost predicate Sound()
      reads this
    {
      Valid() && nameLen > 0 && Partition(Abstract(), CompareLen(), initial)
    }

    /** Attach to memory as another user left it: a chain of headers, a table, and what was handed out from `initial` so far. */
    constructor (mem: Memory, head: u64, majorVersion: int, named: Table, nameLen: nat,
                 ghost free: seq<Block>, ghost handed: seq<Block>, ghost initial: seq<Block>)
      requires Linked(mem, head, free) && nameLen > 0
      requires Partition(State(free, named, handed), nameLen - 1, initial)
      ensures Sound() && Abstract() == State(free, named, handed) && this.initial == initial
      ensures this.mem == mem && this.majorVersion == majorVersion && this.nameLen == nameLen
    {
      this.mem, this.head, this.majorVersion := mem, head, majorVersion;
      this.named, this.nameLen := named, nameLen;
      this.free, this.handed, this.initial := free, handed, initial;
    }

    /** Take the bottom `size` bytes of the entry at `ent`, which starts where the request wants it. */
    method TakeFrom(ent: u64, prev: u64, size: u64, ghost i: int)
      requires Valid() && 0 <= i < |free| && ent == free[i].addr && prev == AddrAt(free, i - 1)
      requires 16 <= size <= free[i].size && size % 16 == 0
      modifies this`mem, this`head, this`free
      ensures Valid() && free == Cut(old(free), i, ent, size)
      ensures OnlyFree(old(mem), mem, old(free))
    {
      hide Sorted, Linked, Cut, OnlyFree;
      ghost var l, m := free, mem;
      TakeFromResult(m, head, l, i, size);
      var entSize := GetSize(mem, ent);
      var next := GetNext(mem, ent);
      if size < entSize {
        var newEnt := Add(ent, size);
        mem := SetNext(mem, newEnt, next);
        mem := SetSize(mem, newEnt, entSize - size);
        mem := SetNext(mem, ent, newEnt);
        next := GetNext(mem, ent);
      }
      if prev != 0 {
        mem := SetNext(mem, prev, next);
      } else {
        head := next;
      }
      assert mem == TakenMemory(m, l, i, size);
      assert head == TakenHead(m, old(head), l, i, size);
      free := Cut(l, i, ent, size);
    }

    /** Split the entry at `ent` in two at `x`. */
    method SplitAt(ent: u64, x: u64, ghost i: int)
      requires Valid() && 0 <= i < |free| && ent == free[i].addr
      requires free[i].addr < x < free[i].End() && x % 16 == 0
      modifies this`mem, this`free
      ensures Valid() && free == Cut(old(free), i, x, 0)
      ensures OnlyFree(old(mem), mem, old(free))
    {
      hide Sorted, Linked, Cut, OnlyFree;
      ghost var l, m := free, mem;
      SplitResult(m, head, l, i, x);
      var next := GetNext(mem, ent);
      mem := SetNext(mem, x, next);
      var size := GetSize(mem, ent);
      mem := SetSize(mem, x, Sub(size, x - ent));
      mem := SetSize(mem, ent, x - ent);
      mem := SetNext(mem, ent, x);
      assert mem == SplitMemory(m, l[i], x);
      free := Cut(l, i, x, 0);
    }

    /**
     Allocate `reqSize` bytes: octeon_phy_mem_block_alloc. Returns the address, or 0. The result
     and the list left behind are those of `Alloc`, and only bytes free on entry are written. A size
     that rounds to 0 must find no entry to take 0 bytes from.
     */
    method AllocBlock(reqSize: u64, addressMin: u64, addressMax: u64, alignment: u64) returns (address: u64)
      requires Valid() && (alignment == 0 || PowerOfTwo(alignment))
      requires majorVersion <= MAX_BLOCK_VERSION ==> Harmless(free, reqSize, addressMin, addressMax, alignment)
      modifies this`mem, this`head, this`free
      ensures Valid() && OnlyFree(old(mem), mem, old(free))
      ensures majorVersion > 3 ==> address == 0 && free == old(free)
      ensures majorVersion <= 3 ==>
                (address, free) == Alloc(old(free), reqSize, addressMin, addressMax, alignment)
    {
      if majorVersion > MAX_BLOCK_VERSION {
        return 0;
      }
      if reqSize == 0 {
        return 0;
      }
      var size := MaskUp(reqSize, ALIGNMENT_SIZE);
      var hi := addressMax;
      if addressMin != 0 && addressMax == 0 {
        hi := Add(addressMin, size);
      } else if addressMin == 0 && addressMax == 0 {
        hi := TWO64 - 1;
      }
      if And(addressMin, ALIGNMENT_SIZE - 1) != 0 {
        return 0;
      }
      var lo := addressMin;
      if alignment != 0 {
        lo := MaskUp(addressMin, alignment);
      }
      if size > Sub(hi, lo) {
        return 0;
      }
      var align := alignment;
      if alignment < ALIGNMENT_SIZE {
        align := ALIGNMENT_SIZE;
      }
      PrepareShaped(reqSize, addressMin, addressMax, alignment);
      HarmlessIdle(free, reqSize, addressMin, addressMax, alignment);
      address := FirstFit(Request(size, lo, hi, align));
    }

    /** The list walk of octeon_phy_mem_block_alloc. */
    method FirstFit(q: Request) returns (address: u64)
      requires Valid() && q.Shaped() && IdleFrom(free, 0, q)
      modifies this`mem, this`head, this`free
      ensures Valid() && OnlyFree(old(mem), mem, old(free))
      ensures (address, free) == Walk(old(free), q)
    {
      hide Walk, WalkFrom, Linked, Sorted, OnlyFree, Within, IdleFrom, PowerOfTwo;
      address := 0;
      var ent, prev := head, 0;
      ghost var i, m0 := 0, mem;
      WalkFromStart(free, q);
      WithinSelf(mem, free);
      HeadFirst(mem, head, free);
      while ent != 0
        invariant Valid() && OnlyFree(m0, mem, old(free)) && Within(free, old(free))
        invariant 0 <= i <= |free| && ent == AddrAt(free, i) && prev == AddrAt(free, i - 1)
        invariant Walk(old(free), q) == WalkFrom(free, i, q) && IdleFrom(free, i, q)
        decreases if i < |free| then PHYS_LIMIT - free[i].addr else 0
      {
        ghost var l, m := free, mem;
        EntryFacts(mem, head, free, i);
        var next := GetNext(mem, ent);
        if next != 0 && ent > next {
          return;
        }
        var taken := VisitEntry(ent, prev, q, i);
        OnlyFreeTrans(m0, m, mem, old(free), l, free);
        if taken {
          return ent;
        }
        EntryFacts(mem, head, free, i);
        prev := ent;
        ent := GetNext(mem, ent);
        i := i + 1;
      }
      EndReached(free, i);
      WalkFromEnd(free, q);
    }

    /**
     Free a block: octeon_phy_mem_block_free. The block must be what was allocated, clear of the
     free list; running into the first entry from below is detected and refused.
     */
    method FreeBlock(a: u64, size: u64) returns (ok: bool)
      requires Valid() && Freeable(free, a, size)
      modifies this`mem, this`head, this`free
      ensures Valid() && WritesWithin(old(mem), mem, old(free), Block(a, size))
      ensures majorVersion > 3 ==> !ok && free == old(free)
      ensures majorVersion <= 3 ==> (ok, free) == Release(old(free), a, size)
    {
      if majorVersion > MAX_BLOCK_VERSION {
        return false;
      }
      if size == 0 {
        return false;
      }
      var cur, prev := head, 0;
      HeadFacts(mem, head, free, a, size);
      hide Linked, Clear, Sorted, Insert, Merged;
      if cur == 0 || a < cur {
        if cur != 0 && Add(a, size) > cur {
          return false;
        }
        InFront(a, size, cur);
        return true;
      }
      ghost var i := 0;
      while cur != 0 && a > cur
        invariant mem == old(mem) && head == old(head) && free == old(free)
        invariant 0 <= i <= |free| && cur == AddrAt(free, i) && prev == AddrAt(free, i - 1)
        invariant i > 0 ==> free[i - 1].addr < a
        invariant i == 0 ==> cur != 0 && a >= cur
        decreases |free| - i
      {
        EntryFacts(mem, head, free, i);
        prev := cur;
        cur := GetNext(mem, cur);
        i := i + 1;
      }
      NotAtStart(mem, head, free, i, a, size);
      LinkIn(a, size, prev, cur, i);
      return true;
    }

    /** A block before the first entry, merged with it if they touch. */
    method InFront(a: u64, size: u64, cur: u64)
      requires Valid() && Block(a, size).Good() && Clear(free, a, size) && cur == head && (cur != 0 ==> a < cur)
      modifies this`mem, this`head, this`free
      ensures Valid() && free == Insert(old(free), a, size)
      ensures WritesWithin(old(mem), mem, old(free), Block(a, size))
    {
      hide Linked, Clear, Sorted, Insert, WritesWithin;
      ghost var l, m := free, mem;
      InFrontResult(m, head, l, a, size);
      if Add(a, size) == cur {
        var next := GetNext(mem, cur);
        mem := SetNext(mem, a, next);
        var s := GetSize(mem, cur);
        mem := SetSize(mem, a, Add(s, size));
        head := a;
      } else {
        mem := SetNext(mem, a, cur);
        mem := SetSize(mem, a, size);
        head := a;
      }
      assert mem == InFrontMemory(m, l, a, size);
      free := Insert(l, a, size);
    }

    /** A block after the entry at `prev`: merged with it or with the one at `cur` or both if they touch. */
    method LinkIn(a: u64, size: u64, prev: u64, cur: u64, ghost i: int)
      requires Valid() && Block(a, size).Good() && Clear(free, a, size)
      requires 0 < i <= |free| && prev == free[i - 1].addr && cur == AddrAt(free, i) && prev < a && (cur != 0 ==> a < cur)
      modifies this`mem, this`free
      ensures Valid() && free == Insert(old(free), a, size)
      ensures WritesWithin(old(mem), mem, old(free), Block(a, size))
    {
      hide Linked, Clear, Sorted, Insert, WritesWithin, Add, GetSize, GetNext, SetSize, SetNext;
      ghost var l, m := free, mem;
      LinkInResult(m, head, l, i, a, size);
      if cur == 0 {
        if Add(prev, GetSize(mem, prev)) == a {
          mem := SetSize(mem, prev, Add(GetSize(mem, prev), size));
        } else {
          mem := SetNext(mem, prev, a);
          mem := SetSize(mem, a, size);
          mem := SetNext(mem, a, 0);
        }
      } else if Add(prev, GetSize(mem, prev)) == a {
        mem := SetSize(mem, prev, Add(GetSize(mem, prev), size));
        if Add(a, size) == cur {
          mem := SetSize(mem, prev, Add(GetSize(mem, cur), GetSize(mem, prev)));
          mem := SetNext(mem, prev, GetNext(mem, cur));
        }
      } else if Add(a, size) == cur {
        mem := SetSize(mem, a, Add(GetSize(mem, cur), size));
        mem := SetNext(mem, a, GetNext(mem, cur));
        mem := SetNext(mem, prev, a);
      } else {
        mem := SetSize(mem, a, size);
        mem := SetNext(mem, a, cur);
        mem := SetNext(mem, prev, a);
      }
      assert mem == LinkInWrites(m, a, size, prev, cur);
      free := Insert(l, a, size);
    }

    /** One entry: take the request from its bottom, or split it at the base, or leave it alone. */
    method VisitEntry(ent: u64, prev: u64, q: Request, ghost i: int) returns (taken: bool)
      requires Valid() && q.Shaped() && 0 <= i < |free| && ent == free[i].addr && prev == AddrAt(free, i - 1)
      requires IdleFrom(free, i, q)
      modifies this`mem, this`head, this`free
      ensures Valid() && OnlyFree(old(mem), mem, old(free)) && Within(free, old(free))
      ensures taken ==> WalkFrom(old(free), i, q) == (ent, free)
      ensures !taken ==> i < |free| && free[i].addr == ent && WalkFrom(old(free), i, q) == WalkFrom(free, i + 1, q)
      ensures !taken ==> IdleFrom(free, i + 1, q)
    {
      hide Walk, WalkFrom, Linked, OnlyFree, Within, PowerOfTwo, Cut, Sub, MaskUp, Add, IdleFrom, Sorted;
      VisitFacts(mem, head, free, i, q);
      var entSize := GetSize(mem, ent);
      var base := MaskUp(if q.lo > ent then q.lo else ent, q.align);
      var end := Add(ent, entSize);
      var top := if q.hi < end then q.hi else end;
      if end > base && ent < q.hi && q.size <= Sub(top, base) {
        if base == ent {
          TakeFrom(ent, prev, q.size, i);
          return true;
        }
        SplitAt(ent, base, i);
      }
      return false;
    }

    /** Bytes available in entries of at least `minSize`: octeon_phy_mem_list_available_mem. */
    method AvailableMem(minSize: u64) returns (available: u64)
      requires Valid()
      ensures available == Total(free, minSize)
    {
      hide Linked, Sorted, Total;
      available := 0;
      var addr := head;
      ghost var i := 0;
      HeadFirst(mem, head, free);
      assert free[0..] == free;
      while addr != 0
        invariant 0 <= i <= |free| && addr == AddrAt(free, i)
        invariant available + Total(free[i..], minSize) == Total(free, minSize)
        decreases |free| - i
      {
        EntryFacts(mem, head, free, i);
        TotalFrom(free, i, minSize);
        if GetSize(mem, addr) >= minSize {
          available := Add(available, GetSize(mem, addr));
        }
        addr := GetNext(mem, addr);
        i := i + 1;
      }
      EndOfList(free, i, minSize);
    }

    /** Index of the slot a name selects, or -1: octeon_phy_mem_named_block_find_internal. */
    method FindSlot(name: Option<string>) returns (slot: int)
      ensures majorVersion != 3 ==> slot == -1
      ensures majorVersion == 3 && nameLen > 0 ==> slot == Find(named, name, nameLen - 1)
      ensures majorVersion == 3 && nameLen == 0 ==> slot == Find(named, name, 0xFFFF_FFFF)
    {
      if majorVersion == 3 {
        for i := 0 to |named|
          invariant Find(named, name, CompareLen()) == FindFrom(named, name, CompareLen(), i)
        {
          if Matches(named[i], name, CompareLen()) {
            return i;
          }
        }
      }
      slot := -1;
    }

    /** Free a named block: octeon_phy_mem_named_block_free, inside its lock. */
    method NamedBlockFree(name: Option<string>) returns (ok: bool)
      requires Sound()
      modifies this`mem, this`head, this`free, this`named
      ensures Sound()
      ensures Writes(old(mem), mem, old(Abstract()), nameLen - 1, FreeNamed(name))
      ensures majorVersion != 3 ==> !ok && Abstract() == old(Abstract()) && mem == old(mem)
      ensures majorVersion == 3 ==> (ok, Abstract()) == NamedFree(old(Abstract()), nameLen - 1, name)
    {
      hide *;
      ghost var s, k, m := Abstract(), CompareLen(), mem;
      SoundParts();
      NothingWritten(m, s, k, name);
      SlotFacts(s, k, initial, name);
      if majorVersion != 3 {
        return false;
      }
      var slot := FindSlot(name);
      if slot < 0 {
        return false;
      }
      var b := named[slot];
      var freed := FreeBlock(b.base, b.size);
      SlotFreed(m, mem, s, k, name);
      named := named[slot := b.(size := 0)];
      IsAbstract();
      SoundAgain();
      return true;
    }

    /** Reserve a named block: octeon_phy_mem_named_block_alloc, inside its lock. */
    method NamedBlockAlloc(size: u64, addressMin: u64, addressMax: u64, alignment: u64, name: Option<string>) returns (address: u64)
      requires Sound() && (alignment == 0 || PowerOfTwo(alignment))
      modifies this`mem, this`head, this`free, this`named
      ensures Sound() && OnlyFree(old(mem), mem, old(free))
      ensures majorVersion != 3 ==> address == 0 && Abstract() == old(Abstract())
      ensures majorVersion == 3 ==>
                (address, Abstract()) == NamedAlloc(old(Abstract()), nameLen - 1, size, addressMin, addressMax, alignment, name)
      ensures address != 0 ==> size <= TWO64 - 16 && Granted(old(free), free, size, addressMin, addressMax, alignment, address)
    {
      hide *;
      ghost var s, k := Abstract(), CompareLen();
      SoundParts();
      ReserveFacts(s, k, initial, size, addressMin, addressMax, alignment, name);
      WithinSelf(mem, free);
      if majorVersion != 3 {
        return 0;
      }
      var slot := FindSlot(None);
      var taken := FindSlot(name);
      if taken >= 0 || slot < 0 {
        Refused(s, k, size, addressMin, addressMax, alignment, name);
        return 0;
      }
      var rounded := MaskUp(size, ALIGNMENT_SIZE);
      address := AllocBlock(rounded, addressMin, addressMax, alignment);
      Reserved(s, k, size, addressMin, addressMax, alignment, name, address, free);
      if address != 0 {
        named := named[slot := NamedBlock(address, rounded, Trunc(NameOf(name), CompareLen()))];
      }
      IsAbstract();
      SoundAgain();
    }

    lemma IsAbstract()
      ensures Abstract() == State(free, named, handed)
    {
    }

    lemma SoundParts()
      requires Sound()
      ensures Valid() && nameLen > 0 && CompareLen() == nameLen - 1 && Sorted(free) && MAX_BLOCK_VERSION == 3
      ensures Abstract() == State(free, named, handed) && Partition(Abstract(), CompareLen(), initial)
    {
    }

    lemma SoundAgain()
      requires Valid() && nameLen > 0 && Partition(Abstract(), CompareLen(), initial)
      ensures Sound()
    {
    }

    /** Allocate for good: cvmx_bootmem_alloc_range, inside its lock. */
    method AllocRange(size: u64, alignment: u64, addressMin: u64, addressMax: u64) returns (address: u64)
      requires Sound() && (alignment == 0 || PowerOfTwo(alignment))
      requires majorVersion <= MAX_BLOCK_VERSION ==> Harmless(free, size, addressMin, addressMax, alignment)
      modifies this`mem, this`head, this`free, this`handed
      ensures Sound() && OnlyFree(old(mem), mem, old(free))
      ensures majorVersion > 3 ==> address == 0 && Abstract() == old(Abstract())
      ensures majorVersion <= 3 && size <= TWO64 - 16 ==>
                (address, Abstract()) == Step(old(Abstract()), CompareLen(), AllocAnonymous(size, addressMin, addressMax, alignment))
      ensures majorVersion <= 3 && size <= TWO64 - 16 ==>
                Granted(old(free), free, size, addressMin, addressMax, alignment, address)
      ensures majorVersion <= 3 && size > TWO64 - 16 ==>
                address == 0 && Abstract() == old(Abstract()).(free := Alloc(old(free), size, addressMin, addressMax, alignment).1)
    {
      hide Linked, PowerOfTwo, Partition, Alloc, OnlyFree, Harmless, Granted, RoundUp;
      if majorVersion <= MAX_BLOCK_VERSION {
        RangeFacts(Abstract(), CompareLen(), initial, size, addressMin, addressMax, alignment);
      }
      address := AllocBlock(size, addressMin, addressMax, alignment);
      if address != 0 {
        handed := handed + [Block(address, RoundUp(size, 16))];
      }
    }
  }

  lemma RangeFacts(s: State, k: nat, l0: seq<Block>, size: u64, addressMin: u64, addressMax: u64, alignment: u64)
    requires Partition(s, k, l0) && (alignment == 0 || PowerOfTwo(alignment))
    requires Harmless(s.free, size, addressMin, addressMax, alignment)
    ensures Sorted(s.free)
    ensures size <= TWO64 - 16 ==> Partition(Step(s, k, AllocAnonymous(size, addressMin, addressMax, alignment)).1, k, l0)
    ensures size <= TWO64 - 16 ==>
              var (r, l) := Alloc(s.free, size, addressMin, addressMax, alignment);
              Granted(s.free, l, size, addressMin, addressMax, alignment, r)
    ensures size > TWO64 - 16 ==>
              var (r, l) := Alloc(s.free, size, addressMin, addressMax, alignment);
              r == 0 && Partition(s.(free := l), k, l0)
  {
    hide PowerOfTwo, Alloc, Harmless, Has, TableGood, HandedGood, HeldNamed, Granted;
    if size <= TWO64 - 16 {
      AllocGranted(s.free, size, addressMin, addressMax, alignment);
      StepKeeps(s, k, l0, AllocAnonymous(size, addressMin, addressMax, alignment));
    } else {
      OversizeOutcome(s.free, size, addressMin, addressMax, alignment);
      StepFailedAlloc(s, k, l0, Alloc(s.free, size, addressMin, addressMax, alignment).1, 0);
    }
  }

  /** What a caller may free: nothing, a block clear of the list, or one that runs into the first entry. */
  predicate Freeable(l: seq<Block>, a: u64, size: u64) {
    || size == 0
    || (Block(a, size).Good() && (Clear(l, a, size) || (l != [] && a < l[0].addr)))
  }

  /** What a free answers: refused just if the block is empty or runs into a free entry, with the list as it was; else its bytes come back. */
  lemma FreeAnswer(l: seq<Block>, a: u64, size: u64)
    requires Sorted(l) && Freeable(l, a, size)
    ensures var (ok, m) := Release(l, a, size);
            && (ok <==> size != 0 && Clear(l, a, size))
            && (!ok ==> m == l)
            && (ok ==> Sorted(m) && (Canonical(l) ==> Canonical(m))
                       && forall y :: Has(m, y) <==> Has(l, y) || a <= y < a + size)
  {
    if size != 0 && Clear(l, a, size) {
      ReleaseIsInsert(l, a, size);
      InsertList(l, a, size);
      hide Insert, Has, Clear, Release, Sorted, Canonical;
      forall y ensures Has(Insert(l, a, size), y) <==> Has(l, y) || a <= y < a + size {
        InsertBytes(l, a, size, y);
      }
    } else if size != 0 {
      var i :| 0 <= i < |l| && !(l[i].End() <= a || a + size <= l[i].addr);
      assert i > 0 ==> l[0].End() <= l[i].addr;
      assert l[0].Good();
    }
  }

  /** Only free bytes and the bytes of `b` may differ. */
  ghost predicate WritesWithin(m: Memory, m': Memory, l: seq<Block>, b: Block) {
    forall w :: !Has(l, w) && !b.Holds(w) ==> Read(m', w) == Read(m, w)
  }

  lemma HeadFacts(m: Memory, head: int, l: seq<Block>, a: u64, n: u64)
    requires Sorted(l) && Linked(m, head, l) && n != 0 && Freeable(l, a, n)
    ensures Block(a, n).Good() && Add(a, n) == a + n && head == AddrAt(l, 0)
    ensures head == 0 <==> l == []
    ensures l != [] && a < head && a + n > head ==> Release(l, a, n) == (false, l)
    ensures !(l != [] && a < head && a + n > head) ==> Clear(l, a, n) && Release(l, a, n) == (true, Insert(l, a, n))
  {
    if l != [] {
      assert l[0].Good();
      if a + n <= l[0].addr {
        forall i | 0 <= i < |l| ensures a + n <= l[i].addr {
          assert i > 0 ==> l[0].End() <= l[i].addr;
        }
      }
    }
  }

  lemma NotAtStart(m: Memory, head: int, l: seq<Block>, i: int, a: u64, n: u64)
    requires Sorted(l) && Linked(m, head, l) && Clear(l, a, n) && Block(a, n).Good() && 0 <= i <= |l|
    requires !(AddrAt(l, i) != 0 && a > AddrAt(l, i))
    ensures i < |l| ==> a < AddrAt(l, i)
  {
    if i < |l| {
      assert l[i].Good();
      assert l[i].End() <= a || a + n <= l[i].addr;
    }
  }

  /** Memory after a block is put in front of the list. */
  function InFrontMemory(m: Memory, l: seq<Block>, a: u64, n: u64): Memory
    requires l != [] ==> l[0].Good() && n + l[0].size < TWO64 && l[0].addr <= PHYS_LIMIT
  {
    if l != [] && a + n == l[0].addr then
      m[a + NEXT_OFFSET := Read(m, l[0].addr + NEXT_OFFSET)][a + SIZE_OFFSET := l[0].size + n]
    else m[a + NEXT_OFFSET := if l == [] then 0 else l[0].addr][a + SIZE_OFFSET := n]
  }

  lemma InFrontFacts(m: Memory, head: int, l: seq<Block>, a: u64, n: u64)
    requires Sorted(l) && Linked(m, head, l) && Block(a, n).Good() && Clear(l, a, n) && (l != [] ==> a < l[0].addr)
    ensures head == AddrAt(l, 0) && Add(a, n) == a + n
    ensures head == 0 <==> l == []
    ensures l != [] ==> l[0].Good() && a + n <= l[0].addr && n + l[0].size < TWO64 && Header(m, l[0], AddrAt(l, 1))
    ensures l != [] ==> Add(l[0].size, n) == l[0].size + n
    ensures |l| > 1 ==> l[0].End() <= l[1].addr < TWO64
  {
    if l != [] {
      LinkedAt(m, head, l, 0);
      var b := l[0];
      assert b.Good() && (b.End() <= a || a + n <= b.addr);
      if |l| > 1 { HeadersApart(l, 0, 1); assert l[1].Good(); }
    }
  }

  lemma InFrontLinked(m: Memory, head: int, l: seq<Block>, a: u64, n: u64)
    requires Sorted(l) && Linked(m, head, l) && Block(a, n).Good() && (l != [] ==> l[0].Good() && a + n <= l[0].addr)
    requires |l| > 1 ==> l[0].End() <= l[1].addr < TWO64
    requires l != [] ==> Header(m, l[0], AddrAt(l, 1))
    ensures Linked(InFrontMemory(m, l, a, n), a, Merged(l, 0, a, n))
  {
    hide Sorted, Linked;
    assert l[..0] == [];
    if l != [] && a + n == l[0].addr {
      var b := Block(a, n + l[0].size);
      assert b.Good() && Between(l, 0, 1, b);
      Place(m, head, l, 0, 1, b);
      WriteOrder(m, a + SIZE_OFFSET, b.size, a + NEXT_OFFSET, AddrAt(l, 1));
    } else {
      var b := Block(a, n);
      assert Between(l, 0, 0, b);
      Place(m, head, l, 0, 0, b);
      WriteOrder(m, a + SIZE_OFFSET, n, a + NEXT_OFFSET, AddrAt(l, 0));
    }
  }

  lemma InFrontResult(m: Memory, head: int, l: seq<Block>, a: u64, n: u64)
    requires Sorted(l) && Linked(m, head, l) && Block(a, n).Good() && Clear(l, a, n) && (head != 0 ==> a < head)
    ensures head == AddrAt(l, 0) && Add(a, n) == a + n
    ensures head == 0 <==> l == []
    ensures l != [] ==> l[0].Good() && n + l[0].size < TWO64 && Header(m, l[0], AddrAt(l, 1))
    ensures l != [] ==> Add(l[0].size, n) == l[0].size + n
    ensures Sorted(Insert(l, a, n)) && Linked(InFrontMemory(m, l, a, n), a, Insert(l, a, n))
    ensures WritesWithin(m, InFrontMemory(m, l, a, n), l, Block(a, n))
  {
    if l != [] { assert l[0].Good(); }
    InFrontFacts(m, head, l, a, n);
    InsertList(l, a, n);
    MergedIsInsert(l, 0, a, n);
    hide Linked, Clear, Sorted, Insert, Merged;
    InFrontLinked(m, head, l, a, n);
    var b := Block(a, n);
    assert b.Holds(a + NEXT_OFFSET) && b.Holds(a + SIZE_OFFSET);
    hide Has;
  }

  /** Memory after a block is linked in between entries `i - 1` and `i`, in the order of the writes. */
  function LinkInMemory(m: Memory, l: seq<Block>, i: int, a: u64, n: u64): Memory
    requires 0 < i <= |l| && l[i - 1].Good() && l[i - 1].End() <= a && a + n <= PHYS_LIMIT
    requires i < |l| ==> l[i].Good() && a + n <= l[i].addr
    requires i + 1 < |l| ==> 0 <= l[i + 1].addr < TWO64
  {
    var p, s := l[i - 1].addr, l[i - 1].size;
    var below, above := l[i - 1].End() == a, i < |l| && a + n == l[i].addr;
    if below && above then
      m[p + SIZE_OFFSET := s + n][p + SIZE_OFFSET := l[i].size + (s + n)][p + NEXT_OFFSET := AddrAt(l, i + 1)]
    else if below then m[p + SIZE_OFFSET := s + n]
    else if above then m[a + SIZE_OFFSET := l[i].size + n][a + NEXT_OFFSET := AddrAt(l, i + 1)][p + NEXT_OFFSET := a]
    else if i == |l| then m[p + NEXT_OFFSET := a][a + SIZE_OFFSET := n][a + NEXT_OFFSET := 0]
    else m[a + SIZE_OFFSET := n][a + NEXT_OFFSET := l[i].addr][p + NEXT_OFFSET := a]
  }

  lemma LinkInFacts(m: Memory, head: int, l: seq<Block>, i: int, a: u64, n: u64)
    requires Sorted(l) && Linked(m, head, l) && Block(a, n).Good() && Clear(l, a, n)
    requires 0 < i <= |l| && l[i - 1].addr < a && (i < |l| ==> a < l[i].addr)
    ensures l[i - 1].Good() && l[i - 1].End() <= a && Header(m, l[i - 1], AddrAt(l, i))
    ensures i < |l| ==> l[i].Good() && a + n <= l[i].addr && Header(m, l[i], AddrAt(l, i + 1))
    ensures i + 1 < |l| ==> l[i].End() <= l[i + 1].addr <= PHYS_LIMIT
    ensures 0 <= AddrAt(l, i + 1) <= PHYS_LIMIT
  {
    LinkedAt(m, head, l, i - 1);
    if i < |l| { LinkedAt(m, head, l, i); }
    if i + 1 < |l| { HeadersApart(l, i, i + 1); assert l[i + 1].Good(); }
    hide Linked;
    var below := l[i - 1];
    assert below.Good() && (below.End() <= a || a + n <= below.addr);
    if i < |l| {
      var above := l[i];
      assert above.Good() && (above.End() <= a || a + n <= above.addr);
    }
  }

  /** The header writes that put `[a, a + n)` between the entries at `p` and `cur`. */
  function LinkInWrites(m: Memory, a: u64, n: u64, p: u64, cur: u64): Memory {
    if cur == 0 then
      if Add(p, GetSize(m, p)) == a then SetSize(m, p, Add(GetSize(m, p), n))
      else SetNext(SetSize(SetNext(m, p, a), a, n), a, 0)
    else if Add(p, GetSize(m, p)) == a then
      var m1 := SetSize(m, p, Add(GetSize(m, p), n));
      if Add(a, n) == cur then
        var m2 := SetSize(m1, p, Add(GetSize(m1, cur), GetSize(m1, p)));
        SetNext(m2, p, GetNext(m2, cur))
      else m1
    else if Add(a, n) == cur then
      var m1 := SetSize(m, a, Add(GetSize(m, cur), n));
      SetNext(SetNext(m1, a, GetNext(m1, cur)), p, a)
    else SetNext(SetNext(SetSize(m, a, n), a, cur), p, a)
  }

  /** The writes depend on the list only through the two neighbours. */
  lemma LinkInWritesExact(m: Memory, l: seq<Block>, i: int, a: u64, n: u64)
    requires 0 < i <= |l| && Block(a, n).Good() && l[i - 1].Good() && l[i - 1].End() <= a && Header(m, l[i - 1], AddrAt(l, i))
    requires i < |l| ==> l[i].Good() && a + n <= l[i].addr && Header(m, l[i], AddrAt(l, i + 1))
    requires 0 <= AddrAt(l, i + 1) <= PHYS_LIMIT
    ensures i + 1 < |l| ==> 0 <= l[i + 1].addr < TWO64
    ensures LinkInWrites(m, a, n, l[i - 1].addr, AddrAt(l, i)) == LinkInMemory(m, l, i, a, n)
  {
    hide Add;
    var s := l[i - 1].size;
    AddExact(l[i - 1].addr, s);
    AddExact(a, n);
    AddExact(s, n);
    if i < |l| {
      AddExact(l[i].size, n);
      AddExact(l[i].size, (s + n) % TWO64);
    }
  }

  lemma LinkInResult(m: Memory, head: int, l: seq<Block>, i: int, a: u64, n: u64)
    requires Sorted(l) && Linked(m, head, l) && Block(a, n).Good() && Clear(l, a, n)
    requires 0 < i <= |l| && l[i - 1].addr < a && (AddrAt(l, i) != 0 ==> a < AddrAt(l, i))
    ensures 0 <= l[i - 1].addr <= PHYS_LIMIT && 0 <= AddrAt(l, i) <= PHYS_LIMIT
    ensures Sorted(Insert(l, a, n)) && Linked(LinkInWrites(m, a, n, l[i - 1].addr, AddrAt(l, i)), head, Insert(l, a, n))
    ensures WritesWithin(m, LinkInWrites(m, a, n, l[i - 1].addr, AddrAt(l, i)), l, Block(a, n))
  {
    hide *;
    LinkInBounds(l, i, a, n);
    LinkInFacts(m, head, l, i, a, n);
    InsertList(l, a, n);
    MergedIsInsert(l, i, a, n);
    HeaderHeld(l, i - 1);
    LinkInWritesExact(m, l, i, a, n);
    LinkInTouches(m, l, i, a, n);
    if l[i - 1].End() == a {
      LinkInBelow(m, head, l, i, a, n);
    } else {
      LinkInApart(m, head, l, i, a, n);
    }
  }

  lemma LinkInBounds(l: seq<Block>, i: int, a: u64, n: u64)
    requires Sorted(l) && Block(a, n).Good() && 0 < i <= |l| && (AddrAt(l, i) != 0 ==> a < AddrAt(l, i))
    ensures 0 <= l[i - 1].addr <= PHYS_LIMIT && 0 <= AddrAt(l, i) <= PHYS_LIMIT < TWO64 && a + n <= PHYS_LIMIT
    ensures i < |l| ==> AddrAt(l, i) == l[i].addr && a < l[i].addr
    ensures AddrAt(l, |l|) == 0
  {
    assert l[i - 1].Good();
    if i < |l| { assert l[i].Good(); }
  }

  lemma LinkInTouches(m: Memory, l: seq<Block>, i: int, a: u64, n: u64)
    requires 0 < i <= |l| && l[i - 1].Good() && l[i - 1].End() <= a && Block(a, n).Good()
    requires i < |l| ==> l[i].Good() && a + n <= l[i].addr
    requires i + 1 < |l| ==> 0 <= l[i + 1].addr < TWO64
    requires Has(l, l[i - 1].addr + NEXT_OFFSET) && Has(l, l[i - 1].addr + SIZE_OFFSET)
    ensures WritesWithin(m, LinkInMemory(m, l, i, a, n), l, Block(a, n))
  {
    hide Has;
    var b := Block(a, n);
    assert b.Holds(a + NEXT_OFFSET) && b.Holds(a + SIZE_OFFSET);
  }

  lemma WriteTwice(m: Memory, a: int, v: u64, w: u64)
    ensures m[a := v][a := w] == m[a := w]
  {
  }

  lemma LinkInBelowMemory(m: Memory, l: seq<Block>, i: int, a: u64, n: u64)
    requires 0 < i <= |l| && l[i - 1].Good() && l[i - 1].End() == a && Block(a, n).Good()
    requires i < |l| ==> l[i].Good() && a + n <= l[i].addr
    requires i + 1 < |l| ==> 0 <= l[i + 1].addr < TWO64
    ensures var p, s := l[i - 1].addr, l[i - 1].size;
            LinkInMemory(m, l, i, a, n)
            == if i < |l| && a + n == l[i].addr then m[p + SIZE_OFFSET := s + n + l[i].size][p + NEXT_OFFSET := AddrAt(l, i + 1)]
               else m[p + SIZE_OFFSET := s + n]
  {
    if i < |l| && a + n == l[i].addr {
      WriteTwice(m, l[i - 1].addr + SIZE_OFFSET, l[i - 1].size + n, l[i - 1].size + n + l[i].size);
    }
  }

  lemma LinkInBelow(m: Memory, head: int, l: seq<Block>, i: int, a: u64, n: u64)
    requires Sorted(l) && Linked(m, head, l) && 0 < i <= |l| && l[i - 1].Good() && l[i - 1].End() == a && Block(a, n).Good()
    requires i < |l| ==> l[i].Good() && a + n <= l[i].addr
    requires i + 1 < |l| ==> 0 <= l[i + 1].addr < TWO64
    ensures Linked(LinkInMemory(m, l, i, a, n), head, Merged(l, i, a, n))
  {
    hide Linked, Sorted;
    LinkInBelowMemory(m, l, i, a, n);
    hide LinkInMemory;
    if i < |l| && a + n == l[i].addr {
      Grow(m, head, l, i - 1, i + 1, l[i - 1].size + n + l[i].size);
    } else {
      GrowSize(m, head, l, i - 1, l[i - 1].size + n);
    }
  }

  lemma LinkInApart(m: Memory, head: int, l: seq<Block>, i: int, a: u64, n: u64)
    requires Sorted(l) && Linked(m, head, l) && 0 < i <= |l| && l[i - 1].Good() && l[i - 1].End() < a && Block(a, n).Good()
    requires i < |l| ==> l[i].Good() && a + n <= l[i].addr
    requires i + 1 < |l| ==> l[i].End() <= l[i + 1].addr < TWO64
    ensures Linked(LinkInMemory(m, l, i, a, n), head, Merged(l, i, a, n))
  {
    hide Linked, Sorted;
    var p := l[i - 1].addr;
    if i < |l| && a + n == l[i].addr {
      var b := Block(a, n + l[i].size);
      JoinedGood(a, n, l[i].size);
      assert Between(l, i, i + 1, b);
      Place(m, head, l, i, i + 1, b);
    } else {
      var b := Block(a, n);
      assert Between(l, i, i, b);
      Place(m, head, l, i, i, b);
      WriteOrder(m, p + NEXT_OFFSET, a, a + SIZE_OFFSET, n);
      WriteOrder(m[a + SIZE_OFFSET := n], p + NEXT_OFFSET, a, a + NEXT_OFFSET, AddrAt(l, i));
    }
  }

  lemma ReserveFacts(s: State, k: nat, l0: seq<Block>, size: u64, addressMin: u64, addressMax: u64, alignment: u64, name: Option<string>)
    requires Partition(s, k, l0) && (alignment == 0 || PowerOfTwo(alignment))
    ensures Sorted(s.free) && Harmless(s.free, MaskUp(size, ALIGNMENT_SIZE), addressMin, addressMax, alignment)
    ensures MaskUp(size, ALIGNMENT_SIZE) <= TWO64 - 16 && ALIGNMENT_SIZE == 16
    ensures Partition(NamedAlloc(s, k, size, addressMin, addressMax, alignment, name).1, k, l0)
    ensures var (r, s') := NamedAlloc(s, k, size, addressMin, addressMax, alignment, name);
            r != 0 ==> size <= TWO64 - 16 && Granted(s.free, s'.free, size, addressMin, addressMax, alignment, r)
  {
    RoundedSmall(size);
    ReserveGranted(s, k, size, addressMin, addressMax, alignment, name);
    NamedAllocKeeps(s, k, l0, size, addressMin, addressMax, alignment, name);
    hide TableGood, HandedGood, Has, MaskUp, PowerOfTwo, NamedAlloc, Granted;
  }

  lemma Refused(s: State, k: nat, size: u64, addressMin: u64, addressMax: u64, alignment: u64, name: Option<string>)
    requires Sorted(s.free) && (alignment == 0 || PowerOfTwo(alignment))
    requires Find(s.named, name, k) >= 0 || Find(s.named, None, k) < 0
    ensures NamedAlloc(s, k, size, addressMin, addressMax, alignment, name) == (0, s)
  {
  }

  lemma Reserved(s: State, k: nat, size: u64, addressMin: u64, addressMax: u64, alignment: u64, name: Option<string>,
                 r: u64, l: seq<Block>)
    requires Sorted(s.free) && (alignment == 0 || PowerOfTwo(alignment)) && MaskUp(size, ALIGNMENT_SIZE) <= TWO64 - 16
    requires Find(s.named, name, k) < 0 <= Find(s.named, None, k)
    requires (r, l) == Alloc(s.free, MaskUp(size, ALIGNMENT_SIZE), addressMin, addressMax, alignment)
    ensures var b := NamedBlock(r, MaskUp(size, ALIGNMENT_SIZE), Trunc(NameOf(name), k));
            NamedAlloc(s, k, size, addressMin, addressMax, alignment, name)
            == (r, State(l, if r != 0 then s.named[Find(s.named, None, k) := b] else s.named, s.handed))
  {
    hide Sorted, PowerOfTwo, MaskUp, Alloc, Find;
  }

  lemma SlotFacts(s: State, k: nat, l0: seq<Block>, name: Option<string>)
    requires Partition(s, k, l0)
    ensures Partition(NamedFree(s, k, name).1, k, l0) && Sorted(s.free)
    ensures var i := Find(s.named, name, k); i >= 0 ==> Freeable(s.free, s.named[i].base, s.named[i].size)
  {
    hide HandedGood, Find, Has;
    NamedFreeKeeps(s, k, l0, name);
  }

  /** What an operation may write: only free bytes, and, when it frees a named block, the bytes of that block. */
  ghost predicate Writes(m: Memory, m': Memory, s: State, k: nat, op: Op) {
    match op
    case FreeNamed(name) =>
      var i := Find(s.named, name, k);
      if i >= 0 then WritesWithin(m, m', s.free, s.named[i].Span()) else m' == m
    case FindNamed(_) => m' == m
    case _ => OnlyFree(m, m', s.free)
  }

  lemma NothingWritten(m: Memory, s: State, k: nat, name: Option<string>)
    ensures Writes(m, m, s, k, FreeNamed(name))
    ensures Find(s.named, name, k) < 0 ==> NamedFree(s, k, name) == (false, s)
  {
  }

  lemma SlotFreed(m: Memory, m': Memory, s: State, k: nat, name: Option<string>)
    requires Find(s.named, name, k) >= 0
    requires var b := s.named[Find(s.named, name, k)]; WritesWithin(m, m', s.free, Block(b.base, b.size))
    ensures Writes(m, m', s, k, FreeNamed(name))
    ensures var i := Find(s.named, name, k);
            var b := s.named[i];
            NamedFree(s, k, name) == (true, State(Release(s.free, b.base, b.size).1, s.named[i := b.(size := 0)], s.handed))
  {
    hide Find, Release, WritesWithin;
  }

  /** The writes of TakeFrom for a size of 0, with the predecessor's address or 0. */
  function TakeNothing(m: Memory, ent: u64, prev: u64): Memory {
    var m1 := SetNext(SetSize(SetNext(m, Add(ent, 0), GetNext(m, ent)), Add(ent, 0), GetSize(m, ent)), ent, Add(ent, 0));
    if prev != 0 then SetNext(m1, prev, GetNext(m1, ent)) else m1
  }

  /**
   Why an allocation of more than 2^64-16 bytes must be harmless: any other takes 0 bytes from an entry,
   whose header then links to itself, so that memory does not spell out the list any more.
   */
  lemma OversizeBreaksList(m: Memory, head: int, l: seq<Block>, prev: u64,
                           size: u64, addressMin: u64, addressMax: u64, alignment: u64)
    requires Sorted(l) && size > TWO64 - 16 && (alignment == 0 || PowerOfTwo(alignment))
    requires !Harmless(l, size, addressMin, addressMax, alignment)
    requires prev != Alloc(l, size, addressMin, addressMax, alignment).0
    ensures var (r, l') := Alloc(l, size, addressMin, addressMax, alignment);
            && (exists i :: 0 <= i < |l'| && l'[i].addr == r)
            && 0 < r < TWO64 && !Linked(TakeNothing(m, r, prev), head, l')
  {
    var i := OversizeEntry(l, size, addressMin, addressMax, alignment);
    hide Harmless, Alloc, PowerOfTwo;
    SelfLinked(m, head, Alloc(l, size, addressMin, addressMax, alignment).1, i, prev);
  }

  lemma SelfLinked(m: Memory, head: int, l: seq<Block>, i: int, prev: u64)
    requires Sorted(l) && 0 <= i < |l| && prev != l[i].addr
    ensures 0 < l[i].addr < TWO64 && !Linked(TakeNothing(m, l[i].addr, prev), head, l)
  {
    assert l[i].Good();
    var m' := TakeNothing(m, l[i].addr, prev);
    assert Read(m', l[i].addr + NEXT_OFFSET) == l[i].addr;
    if i + 1 < |l| { HeadersApart(l, i, i + 1); }
    assert AddrAt(l, i + 1) != l[i].addr;
    assert !EntryLinked(m', l, i);
  }

  lemma {:induction false} TotalBounded(l: seq<Block>, min: int)
    requires Sorted(l)
    ensures 0 <= Total(l, min)
    ensures l != [] ==> Total(l, min) <= PHYS_LIMIT - l[0].addr
  {
    if l != [] {
      SortedUncons(l);
      TotalBounded(l[1..], min);
    }
  }

  /** The bytes that lie in entries of at least `min` bytes. */
  function BytesFrom(l: seq<Block>, min: int): set<int> {
    set y | 0 <= y < PHYS_LIMIT && InLarge(l, min, y)
  }

  predicate InLarge(l: seq<Block>, min: int, y: int) { exists i :: 0 <= i < |l| && l[i].size >= min && l[i].Holds(y) }

  function Bytes(a: int, n: nat): (r: set<int>)
    ensures |r| == n && forall y :: y in r <==> a <= y < a + n
    decreases n
  {
    if n == 0 then {} else Bytes(a, n - 1) + {a + n - 1}
  }

  /** Available memory is the number of bytes in entries of at least the given size. */
  lemma {:induction false} TotalCounts(l: seq<Block>, min: int)
    requires Sorted(l)
    ensures Total(l, min) == |BytesFrom(l, min)|
  {
    if l == [] {
      assert BytesFrom(l, min) == {};
    } else {
      var b, rest := l[0], l[1..];
      SortedUncons(l);
      TotalCounts(rest, min);
      hide Total, Sorted;
      var large := if b.size >= min then Bytes(b.addr, b.size) else {};
      forall y ensures y in BytesFrom(l, min) <==> y in large || y in BytesFrom(rest, min) {
        LargeUncons(l, min, y);
      }
      assert BytesFrom(l, min) == large + BytesFrom(rest, min);
      forall y | y in large ensures y !in BytesFrom(rest, min) {
        HeadApart(l, min, y);
      }
      SizeOfUnion(large, BytesFrom(rest, min));
      TotalUncons(l, min);
    }
  }

  lemma TotalUncons(l: seq<Block>, min: int)
    requires l != []
    ensures Total(l, min) == (if l[0].size >= min then l[0].size else 0) + Total(l[1..], min)
  {
  }

  lemma LargeUncons(l: seq<Block>, min: int, y: int)
    requires l != []
    ensures InLarge(l, min, y) <==> (l[0].size >= min && l[0].Holds(y)) || InLarge(l[1..], min, y)
  {
    var rest := l[1..];
    if InLarge(l, min, y) {
      var i :| 0 <= i < |l| && l[i].size >= min && l[i].Holds(y);
      assert i > 0 ==> rest[i - 1] == l[i];
    }
    if InLarge(rest, min, y) {
      var i :| 0 <= i < |rest| && rest[i].size >= min && rest[i].Holds(y);
      assert l[i + 1] == rest[i];
    }
  }

  lemma HeadApart(l: seq<Block>, min: int, y: int)
    requires Sorted(l) && l != [] && l[0].Holds(y)
    ensures !InLarge(l[1..], min, y)
  {
    var rest := l[1..];
    assert forall i | 0 <= i < |rest| :: rest[i] == l[i + 1];
  }

  lemma SizeOfUnion(a: set<int>, b: set<int>)
    requires a !! b
    ensures |a + b| == |a| + |b|
  {
  }

  lemma TotalFrom(l: seq<Block>, i: int, min: int)
    requires Sorted(l) && 0 <= i < |l|
    ensures Total(l[i..], min) == (if l[i].size >= min then l[i].size else 0) + Total(l[i + 1..], min)
    ensures 0 <= Total(l[i + 1..], min) && Total(l, min) <= PHYS_LIMIT
  {
    SortedSuffix(l, i);
    SortedSuffix(l, i + 1);
    TotalBounded(l[i + 1..], min);
    TotalBounded(l, min);
    hide Sorted;
  }

  lemma EndOfList(l: seq<Block>, i: int, min: int)
    requires Sorted(l) && 0 <= i <= |l| && AddrAt(l, i) == 0
    ensures Total(l[i..], min) == 0
  {
  }

  lemma EndReached(l: seq<Block>, i: int)
    requires Sorted(l) && 0 <= i <= |l| && AddrAt(l, i) == 0
    ensures i == |l|
  {
  }

  lemma HeadFirst(m: Memory, head: int, l: seq<Block>)
    requires Linked(m, head, l)
    ensures head == AddrAt(l, 0)
  {
  }

  /** From entry `i` on the request takes bytes where it takes any. */
  predicate IdleFrom(l: seq<Block>, i: int, q: Request)
    requires Sorted(l) && q.align > 0
  {
    q.size >= 16 || forall j | 0 <= j < |l| && i <= j :: Idle(l[j], q)
  }

  lemma HarmlessIdle(l: seq<Block>, size: u64, addressMin: u64, addressMax: u64, alignment: u64)
    requires Sorted(l) && (alignment == 0 || PowerOfTwo(alignment)) && Harmless(l, size, addressMin, addressMax, alignment)
    ensures var p := Prepare(size, addressMin, addressMax, alignment); p.Some? ==> p.value.align > 0 && IdleFrom(l, 0, p.value)
  {
    hide PowerOfTwo, MaskUp, And, Idle;
    if size <= TWO64 - 16 && Prepare(size, addressMin, addressMax, alignment).Some? {
      PrepareValid(size, addressMin, addressMax, alignment);
    }
  }

  lemma IdleNext(l: seq<Block>, i: int, q: Request)
    requires Sorted(l) && q.Shaped() && 0 <= i < |l|
    ensures IdleFrom(l, i, q) ==> IdleFrom(l, i + 1, q)
    ensures IdleFrom(l, i, q) && Fits(l[i], q) && Base(l[i], q) == l[i].addr ==> q.size >= 16
    ensures Fits(l[i], q) && Base(l[i], q) != l[i].addr ==>
              var l2 := Cut(l, i, Base(l[i], q), 0);
              Sorted(l2) && (IdleFrom(l, i, q) ==> IdleFrom(l2, i + 1, q))
  {
    hide Base, PowerOfTwo;
    if Fits(l[i], q) && Base(l[i], q) != l[i].addr {
      var x := Base(l[i], q);
      SplitShape(l, i, q);
      CutPieces(l, i, x);
      BaseOfUpperPart(l[i], q);
      hide Fits, Cut;
      var l2 := Cut(l, i, x, 0);
      if IdleFrom(l, i, q) && q.size < 16 {
        forall j | 0 <= j < |l2| && i + 1 <= j ensures Idle(l2[j], q) {
          if j > i + 1 {
            assert l2[j] == l2[i + 1..][j - i - 1];
          } else {
            assert l2[j] == l2[i + 1..][0];
          }
        }
      }
    }
  }

  lemma VisitFacts(m: Memory, head: int, l: seq<Block>, i: int, q: Request)
    requires Sorted(l) && Linked(m, head, l) && q.Shaped() && 0 <= i < |l|
    ensures Read(m, l[i].addr + SIZE_OFFSET) == l[i].size && Add(l[i].addr, l[i].size) == l[i].End()
    ensures OnlyFree(m, m, l) && Within(l, l)
    ensures !Fits(l[i], q) ==> WalkFrom(l, i, q) == WalkFrom(l, i + 1, q) && (IdleFrom(l, i, q) ==> IdleFrom(l, i + 1, q))
    ensures Fits(l[i], q) && Base(l[i], q) == l[i].addr ==>
              q.size <= l[i].size && (IdleFrom(l, i, q) ==> q.size >= 16) && Within(Cut(l, i, l[i].addr, q.size), l) &&
              WalkFrom(l, i, q) == (l[i].addr, Cut(l, i, l[i].addr, q.size))
    ensures Fits(l[i], q) && Base(l[i], q) != l[i].addr ==>
              var x := Base(l[i], q);
              var l2 := Cut(l, i, x, 0);
              && l[i].addr < x < l[i].End() && x % 16 == 0 && Within(l2, l)
              && Sorted(l2) && i < |l2| && l2[i].addr == l[i].addr
              && WalkFrom(l, i, q) == WalkFrom(l2, i + 1, q)
              && (IdleFrom(l, i, q) ==> IdleFrom(l2, i + 1, q))
  {
    IdleNext(l, i, q);
    EntryFacts(m, head, l, i);
    WithinSelf(m, l);
    hide Walk, WalkFrom, Linked, OnlyFree, Within, PowerOfTwo, Cut, Base, Sorted, Fits, IdleFrom;
    if !Fits(l[i], q) {
      WalkFromPass(l, i, q);
    } else if Base(l[i], q) == l[i].addr {
      WalkFromTake(l, i, q);
      WithinCut(l, i, l[i].addr, q.size, l);
    } else {
      SplitShape(l, i, q);
      WalkFromSplit(l, i, q);
      WithinCut(l, i, Base(l[i], q), 0, l);
    }
  }

  ghost predicate Within(l: seq<Block>, outer: seq<Block>) {
    forall w :: Has(l, w) ==> Has(outer, w)
  }

  lemma WithinSelf(m: Memory, l: seq<Block>)
    ensures Within(l, l) && OnlyFree(m, m, l)
  {
  }

  lemma OnlyFreeTrans(m0: Memory, m1: Memory, m2: Memory, outer: seq<Block>, l: seq<Block>, l': seq<Block>)
    requires OnlyFree(m0, m1, outer) && OnlyFree(m1, m2, l) && Within(l, outer) && Within(l', l)
    ensures OnlyFree(m0, m2, outer) && Within(l', outer)
  {
    hide Has;
  }

  lemma WithinCut(l: seq<Block>, i: int, x: int, n: int, outer: seq<Block>)
    requires Sorted(l) && 0 <= i < |l| && l[i].addr <= x && x + n <= l[i].End() && 0 <= n && Within(l, outer)
    ensures Within(Cut(l, i, x, n), outer)
  {
    hide Has;
    forall w | Has(Cut(l, i, x, n), w) ensures Has(outer, w) {
      CutBytes(l, i, x, n, w);
    }
  }

  lemma EntryFacts(m: Memory, head: int, l: seq<Block>, i: int)
    requires Sorted(l) && Linked(m, head, l) && 0 <= i <= |l| && AddrAt(l, i) != 0
    ensures i < |l| && l[i].Good()
    ensures Header(m, l[i], AddrAt(l, i + 1))
    ensures AddrAt(l, i + 1) != 0 <==> i + 1 < |l|
    ensures i + 1 < |l| ==> l[i].addr < AddrAt(l, i + 1) <= PHYS_LIMIT
    ensures Add(l[i].addr, l[i].size) == l[i].End()
  {
    LinkedAt(m, head, l, i);
    assert l[i].Good();
    if i + 1 < |l| {
      HeadersApart(l, i, i + 1);
      assert l[i + 1].Good();
    }
    hide Sorted, Linked;
    AddExact(l[i].addr, l[i].size);
  }

  /** The walk from entry `i` on, with the entries before it kept. */
  function WalkFrom(l: seq<Block>, i: int, q: Request): (int, seq<Block>)
    requires Sorted(l) && q.Shaped() && 0 <= i <= |l|
  {
    (Walk(l[i..], q).0, l[..i] + Walk(l[i..], q).1)
  }

  lemma WalkFromStart(l: seq<Block>, q: Request)
    requires Sorted(l) && q.Shaped()
    ensures WalkFrom(l, 0, q) == Walk(l, q)
  {
    hide Walk;
    assert l[0..] == l && l[..0] + Walk(l, q).1 == Walk(l, q).1;
  }

  lemma WalkFromEnd(l: seq<Block>, q: Request)
    requires Sorted(l) && q.Shaped()
    ensures WalkFrom(l, |l|, q) == (0, l)
  {
    WalkBeyond(l[|l|..], q);
    hide Walk;
    assert l[..|l|] + l[|l|..] == l;
  }

  lemma SortedSuffix(l: seq<Block>, i: int)
    requires Sorted(l) && 0 <= i <= |l|
    ensures Sorted(l[i..])
    ensures i < |l| ==> l[i..] != [] && l[i..][0] == l[i] && l[i..][1..] == l[i + 1..]
  {
  }

  lemma Shift(pre: seq<Block>, b: Block, rest: seq<Block>)
    ensures pre + ([b] + rest) == (pre + [b]) + rest
  {
  }

  lemma WalkFromPass(l: seq<Block>, i: int, q: Request)
    requires Sorted(l) && q.Shaped() && 0 <= i < |l| && !Fits(l[i], q)
    ensures WalkFrom(l, i, q) == WalkFrom(l, i + 1, q)
  {
    SortedSuffix(l, i);
    SortedSuffix(l, i + 1);
    hide Walk, Fits, Base, Carve, PowerOfTwo, Sorted;
    WalkHead(l[i..], q);
    assert l[..i] + [l[i]] == l[..i + 1];
    Shift(l[..i], l[i], Walk(l[i + 1..], q).1);
  }

  lemma WalkFromTake(l: seq<Block>, i: int, q: Request)
    requires Sorted(l) && q.Shaped() && 0 <= i < |l| && Fits(l[i], q) && Base(l[i], q) == l[i].addr
    ensures q.size <= l[i].size
    ensures WalkFrom(l, i, q) == (l[i].addr, Cut(l, i, l[i].addr, q.size))
  {
    WalkAtBase(l[i..], q);
    FitsSound(l[i], q);
    hide Walk, Fits, Base, Carve;
    assert l[i..][1..] == l[i + 1..];
    var c := Carve(l[i], l[i].addr, q.size);
    assert l[..i] + (c + l[i + 1..]) == l[..i] + c + l[i + 1..];
  }

  lemma SplitShape(l: seq<Block>, i: int, q: Request)
    requires Sorted(l) && q.Shaped() && 0 <= i < |l| && Fits(l[i], q) && Base(l[i], q) != l[i].addr
    ensures var x := Base(l[i], q);
            var l2 := Cut(l, i, x, 0);
            && l[i].addr < x < l[i].End() && x % 16 == 0
            && Sorted(l2) && |l2| == |l| + 1 && l2[i].addr == l[i].addr && l2[i + 1].addr == x
  {
    SplitTail(l, i, q);
    hide Walk, Fits, Base, PowerOfTwo;
    CutSorted(l, i, Base(l[i], q), 0);
    CutPieces(l, i, Base(l[i], q));
  }

  lemma WalkFromSplit(l: seq<Block>, i: int, q: Request)
    requires Sorted(l) && q.Shaped() && 0 <= i < |l| && Fits(l[i], q) && Base(l[i], q) != l[i].addr
    requires l[i].addr < Base(l[i], q) < l[i].End()
    requires Sorted(Cut(l, i, Base(l[i], q), 0)) && |Cut(l, i, Base(l[i], q), 0)| == |l| + 1
    ensures WalkFrom(l, i, q) == WalkFrom(Cut(l, i, Base(l[i], q), 0), i + 1, q)
  {
    hide Walk, Fits, Base, PowerOfTwo, Cut;
    assert l[i].Good();
    hide Sorted;
    var b, x := l[i], Base(l[i], q);
    var l2 := Cut(l, i, x, 0);
    SortedSuffix(l, i);
    SortedSuffix(l2, i + 1);
    SplitTail(l, i, q);
    CutPieces(l, i, x);
    Shift(l[..i], Block(b.addr, x - b.addr), Walk(l2[i + 1..], q).1);
  }

  lemma SplitTail(l: seq<Block>, i: int, q: Request)
    requires Sorted(l) && q.Shaped() && 0 <= i < |l| && Fits(l[i], q) && Base(l[i], q) != l[i].addr
    ensures var b, x := l[i], Base(l[i], q);
            var tail := [Block(x, b.End() - x)] + l[i + 1..];
            && b.addr < x < b.End() && x % 16 == 0 && Sorted(tail) && Sorted(l[i..])
            && Walk(l[i..], q) == (Walk(tail, q).0, [Block(b.addr, x - b.addr)] + Walk(tail, q).1)
  {
    hide Walk, Fits, Base, Sorted, PowerOfTwo;
    SortedSuffix(l, i);
    SortedHead(l[i..]);
    BaseBounds(l[i], q);
    WalkSplitStep(l[i..], q);
  }

  lemma CutPieces(l: seq<Block>, i: int, x: int)
    requires 0 <= i < |l| && l[i].addr < x < l[i].End()
    ensures var l2 := Cut(l, i, x, 0);
            && |l2| == |l| + 1 && l2[i] == Block(l[i].addr, x - l[i].addr) && l2[i + 1].addr == x
            && l2[i + 1..] == [Block(x, l[i].End() - x)] + l[i + 1..]
            && l2[..i + 1] == l[..i] + [Block(l[i].addr, x - l[i].addr)]
  {
    assert Carve(l[i], x, 0) == [Block(l[i].addr, x - l[i].addr), Block(x, l[i].End() - x)];
  }

  lemma SplitResult(m: Memory, head: int, l: seq<Block>, i: int, x: int)
    requires Sorted(l) && Linked(m, head, l) && 0 <= i < |l|
    requires l[i].addr < x < l[i].End() && x % 16 == 0
    ensures l[i].Good() && Read(m, l[i].addr + SIZE_OFFSET) == l[i].size
    ensures Sorted(Cut(l, i, x, 0)) && Linked(SplitMemory(m, l[i], x), head, Cut(l, i, x, 0))
    ensures OnlyFree(m, SplitMemory(m, l[i], x), l)
  {
    LinkedAt(m, head, l, i);
    CutSorted(l, i, x, 0);
    SplitEntry(m, head, l, i, x);
    SplitTouches(m, l, i, x);
    assert l[i].Good();
    hide Sorted, Linked, OnlyFree, SplitMemory;
    assert Cut(l, i, x, 0) == l[..i] + [Block(l[i].addr, x - l[i].addr), Block(x, l[i].End() - x)] + l[i + 1..];
  }

  /** Memory after the bottom `n` bytes of entry `i` are taken. */
  function TakenMemory(m: Memory, l: seq<Block>, i: int, n: int): Memory
    requires 0 <= i < |l| && l[i].Good() && 0 < n <= l[i].size
  {
    if n < l[i].size then TakeBottomMemory(m, l, i, n) else Relink(m, l, i, Read(m, l[i].addr + NEXT_OFFSET))
  }

  function TakenHead(m: Memory, head: int, l: seq<Block>, i: int, n: int): int
    requires 0 <= i < |l|
  {
    if i > 0 then head else if n < l[i].size then l[i].addr + n else Read(m, l[i].addr + NEXT_OFFSET)
  }

  lemma TakeFromResult(m: Memory, head: int, l: seq<Block>, i: int, n: int)
    requires Sorted(l) && Linked(m, head, l) && 0 <= i < |l|
    requires 16 <= n <= l[i].size && n % 16 == 0
    ensures l[i].Good() && Read(m, l[i].addr + SIZE_OFFSET) == l[i].size
    ensures AddrAt(l, i - 1) != 0 <==> i > 0
    ensures var l2 := Cut(l, i, l[i].addr, n);
            && Sorted(l2) && Linked(TakenMemory(m, l, i, n), TakenHead(m, head, l, i, n), l2)
            && OnlyFree(m, TakenMemory(m, l, i, n), l)
  {
    LinkedAt(m, head, l, i);
    if i > 0 { LinkedAt(m, head, l, i - 1); }
    assert l[i].Good();
    CutSorted(l, i, l[i].addr, n);
    CutBottom(l, i, n);
    hide Sorted, Linked, Cut, OnlyFree, TakeBottomMemory, Relink;
    if n < l[i].size {
      TakeBottom(m, head, l, i, n);
      TakeBottomTouches(m, l, i, n);
    } else {
      TakeWhole(m, head, l, i);
      RelinkTouches(m, l, i, Read(m, l[i].addr + NEXT_OFFSET));
    }
  }

  lemma CutBottom(l: seq<Block>, i: int, n: int)
    requires 0 <= i < |l| && 0 < n <= l[i].size
    ensures Cut(l, i, l[i].addr, n) ==
            if n < l[i].size then l[i := Block(l[i].addr + n, l[i].size - n)] else l[..i] + l[i + 1..]
  {
  }
}
