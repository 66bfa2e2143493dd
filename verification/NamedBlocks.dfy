/**
 The named-block table on top of the free list, and what every run of allocations and frees
 keeps: the free bytes, the live named blocks and the blocks handed out without a name always
 partition the memory the allocator started with.
 */
module NamedBlocks {
  import opened Word64
  import opened FreeList
  import opened AllocMeaning
  import opened FreeMeaning

  /** A table slot; a zero size marks it unused. */
  datatype NamedBlock = NamedBlock(base: u64, size: u64, name: string) {
    predicate Live() { size != 0 }
    function Span(): Block { Block(base, size) }
  }

  type Table = seq<NamedBlock>

  /** The part of a name that is stored and compared: its first `k` characters. */
  function Trunc(name: string, k: nat): string {
    if |name| <= k then name else name[..k]
  }

  /** The lookup test: a live slot of that name, or, for no name, an unused slot. */
  predicate Matches(b: NamedBlock, name: Option<string>, k: nat) {
    match name
    case Some(n) => b.Live() && Trunc(n, k) == Trunc(b.name, k)
    case None => !b.Live()
  }

  /** Index of the first matching slot, or -1. */
  function Find(t: Table, name: Option<string>, k: nat): (r: int)
    ensures -1 <= r < |t|
    ensures r >= 0 ==> Matches(t[r], name, k)
    ensures forall i | 0 <= i < (if r >= 0 then r else |t|) :: !Matches(t[i], name, k)
  {
    FindFrom(t, name, k, 0)
  }

  function FindFrom(t: Table, name: Option<string>, k: nat, i: nat): (r: int)
    requires i <= |t|
    ensures r == -1 || i <= r < |t|
    ensures r >= 0 ==> Matches(t[r], name, k)
    ensures forall j | i <= j < (if r >= 0 then r else |t|) :: !Matches(t[j], name, k)
    decreases |t| - i
  {
    if i == |t| then -1
    else if Matches(t[i], name, k) then i
    else FindFrom(t, name, k, i + 1)
  }

  /** Free list, named table, and the blocks handed out anonymously, which are never freed. */
  datatype State = State(free: seq<Block>, named: Table, handed: seq<Block>)

  datatype Op =
    | AllocNamed(size: u64, addressMin: u64, addressMax: u64, alignment: u64, name: Option<string>)
    | FreeNamed(name: Option<string>)
    | AllocAnonymous(size: u64, addressMin: u64, addressMax: u64, alignment: u64)
    | FindNamed(name: Option<string>)
  {
    /** What the callers must respect: power-of-two alignments, and sizes that can be rounded. */
    predicate Legal() {
      match this
      case AllocNamed(_, _, _, a, _) => a == 0 || PowerOfTwo(a)
      case FreeNamed(_) => true
      case FindNamed(_) => true
      case AllocAnonymous(n, _, _, a) => (a == 0 || PowerOfTwo(a)) && n <= TWO64 - 16
    }
  }

  lemma RoundedSmall(size: u64)
    ensures MaskUp(size, 16) <= TWO64 - 16 && MaskUp(size, 16) % 16 == 0
  {
    SixteenIsPower();
    MaskUpAligned(size, 16);
  }

  /** Reserve a named block; refused when the name is live or no slot is unused. */
  function NamedAlloc(s: State, k: nat, size: u64, addressMin: u64, addressMax: u64, alignment: u64, name: Option<string>): (int, State)
    requires Sorted(s.free) && (alignment == 0 || PowerOfTwo(alignment))
  {
    var slot := Find(s.named, None, k);
    if Find(s.named, name, k) >= 0 || slot < 0 then (0, s)
    else
      RoundedSmall(size);
      var rounded := MaskUp(size, 16);
      var (r, l) := Alloc(s.free, rounded, addressMin, addressMax, alignment);
      if r == 0 then (0, s.(free := l))
      else
        AllocatedGood(s.free, rounded, addressMin, addressMax, alignment);
        (r, s.(free := l, named := s.named[slot := NamedBlock(r, rounded, Trunc(NameOf(name), k))]))
  }

  function NameOf(name: Option<string>): string {
    if name.Some? then name.value else ""
  }

  /** Release the block of that name; with no name, an unused slot is "freed" to no effect. */
  function NamedFree(s: State, k: nat, name: Option<string>): (bool, State) {
    var i := Find(s.named, name, k);
    if i < 0 then (false, s)
    else
      var b := s.named[i];
      (true, s.(free := Release(s.free, b.base, b.size).1, named := s.named[i := b.(size := 0)]))
  }

  /** The result of a lookup is the slot's number counted from one, for the pointer to it; 0 stands for NULL. */
  function Step(s: State, k: nat, op: Op): (int, State)
    requires Sorted(s.free) && op.Legal()
  {
    match op
    case AllocNamed(n, lo, hi, a, name) => NamedAlloc(s, k, n, lo, hi, a, name)
    case FreeNamed(name) => var (ok, s') := NamedFree(s, k, name); (if ok then 1 else 0, s')
    case AllocAnonymous(n, lo, hi, a) =>
      var (r, l) := Alloc(s.free, n, lo, hi, a);
      (r, s.(free := l, handed := if r == 0 then s.handed else s.handed + [Block(r, RoundUp(n, 16))]))
    case FindNamed(name) => (Find(s.named, name, k) + 1, s)
  }

  // ---------------------------------------------------------------- the invariant of every run

  predicate Disjoint(a: Block, b: Block) {
    a.End() <= b.addr || b.End() <= a.addr
  }

  /** Live named blocks lie in physical memory, clear of the free list and of one another, under distinct names. */
  predicate TableGood(free: seq<Block>, t: Table, k: nat) {
    && (forall i | 0 <= i < |t| && t[i].Live() :: t[i].Span().Good() && Clear(free, t[i].base, t[i].size))
    && (forall i, j | 0 <= i < j < |t| && t[i].Live() && t[j].Live() ::
          Disjoint(t[i].Span(), t[j].Span()) && Trunc(t[i].name, k) != Trunc(t[j].name, k))
  }

  predicate HandedGood(s: State) {
    && (forall i | 0 <= i < |s.handed| :: s.handed[i].Good() && Clear(s.free, s.handed[i].addr, s.handed[i].size))
    && (forall i, j | 0 <= i < j < |s.handed| :: Disjoint(s.handed[i], s.handed[j]))
    && (forall i, j | 0 <= i < |s.handed| && 0 <= j < |s.named| && s.named[j].Live() :: Disjoint(s.handed[i], s.named[j].Span()))
  }

  predicate HeldNamed(t: Table, y: int) {
    exists i :: 0 <= i < |t| && t[i].Live() && t[i].Span().Holds(y)
  }

  function LiveBytes(t: Table): int {
    if t == [] then 0 else t[0].size + LiveBytes(t[1..])
  }

  /** Memory `l0` is exactly the free list, the live named blocks and the handed-out blocks, without overlap. */
  ghost predicate Partition(s: State, k: nat, l0: seq<Block>) {
    && Sorted(s.free) && TableGood(s.free, s.named, k) && HandedGood(s)
    && (forall y :: Has(l0, y) <==> Has(s.free, y) || HeldNamed(s.named, y) || Has(s.handed, y))
    && Total(s.free, 0) + LiveBytes(s.named) + Total(s.handed, 0) == Total(l0, 0)
  }

  /** `l` is `free` less the good block `[r, r + n)`, or has the same bytes if `r` is 0. */
  ghost predicate Taken(free: seq<Block>, l: seq<Block>, r: int, n: int) {
    && Sorted(free) && Sorted(l)
    && (r != 0 ==> Block(r, n).Good() && Room(free, r, n))
    && (forall y :: Has(l, y) <==> Has(free, y) && !(r != 0 && r <= y < r + n))
    && Total(l, 0) == Total(free, 0) - (if r != 0 then n else 0)
  }

  lemma AllocTaken(free: seq<Block>, size: u64, addressMin: u64, addressMax: u64, alignment: u64)
    requires Sorted(free) && size <= TWO64 - 16
    requires alignment == 0 || PowerOfTwo(alignment)
    ensures var (r, l) := Alloc(free, size, addressMin, addressMax, alignment);
            Taken(free, l, r, RoundUp(size, 16))
  {
    var (r, l) := Alloc(free, size, addressMin, addressMax, alignment);
    AllocatedGood(free, size, addressMin, addressMax, alignment);
    AllocList(free, size, addressMin, addressMax, alignment);
    hide PowerOfTwo, Sorted, Has, Room, RoundUp;
    forall y ensures Has(l, y) <==> Has(free, y) && !(r != 0 && r <= y < r + RoundUp(size, 16)) {
      AllocBytes(free, size, addressMin, addressMax, alignment, y);
    }
  }

  /** A block clear of the list before stays clear of it, and of the block taken. */
  lemma TakenKeepsClear(free: seq<Block>, l: seq<Block>, r: int, n: int, c: Block)
    requires Taken(free, l, r, n) && c.Good() && Clear(free, c.addr, c.size)
    ensures Clear(l, c.addr, c.size)
    ensures r != 0 ==> Disjoint(c, Block(r, n)) && Disjoint(Block(r, n), c)
  {
    hide Has, Sorted;
    forall y | c.addr <= y < c.addr + c.size ensures !Has(l, y) {
      ClearBytes(free, c.addr, c.size, y);
    }
    ClearFromBytes(l, c.addr, c.size);
    if r != 0 {
      RoomClear(free, r, n, c);
    }
  }

  lemma RoomClear(free: seq<Block>, r: int, n: int, c: Block)
    requires Room(free, r, n) && Clear(free, c.addr, c.size) && 0 < n && 0 < c.size
    ensures Disjoint(c, Block(r, n))
  {
    var i :| 0 <= i < |free| && free[i].addr <= r && r + n <= free[i].End();
  }

  lemma TakenClear(free: seq<Block>, l: seq<Block>, r: int, n: int)
    requires Taken(free, l, r, n) && r != 0
    ensures Clear(l, r, n)
  {
    hide Has, Sorted;
    ClearFromBytes(l, r, n);
  }

  lemma TakenKeepsTable(free: seq<Block>, l: seq<Block>, r: int, n: int, t: Table, k: nat)
    requires Taken(free, l, r, n) && TableGood(free, t, k)
    ensures TableGood(l, t, k)
    ensures r != 0 ==> forall i | 0 <= i < |t| && t[i].Live() :: Disjoint(t[i].Span(), Block(r, n)) && Disjoint(Block(r, n), t[i].Span())
  {
    hide Taken, Clear, Disjoint;
    forall i | 0 <= i < |t| && t[i].Live()
      ensures Clear(l, t[i].base, t[i].size)
      ensures r != 0 ==> Disjoint(t[i].Span(), Block(r, n)) && Disjoint(Block(r, n), t[i].Span())
    {
      TakenKeepsClear(free, l, r, n, t[i].Span());
    }
  }

  lemma TakenKeepsHanded(s: State, l: seq<Block>, r: int, n: int)
    requires Taken(s.free, l, r, n) && HandedGood(s)
    ensures HandedGood(s.(free := l))
    ensures r != 0 ==> forall i | 0 <= i < |s.handed| :: Disjoint(s.handed[i], Block(r, n))
  {
    hide Taken, Clear, Disjoint;
    forall i | 0 <= i < |s.handed|
      ensures Clear(l, s.handed[i].addr, s.handed[i].size)
      ensures r != 0 ==> Disjoint(s.handed[i], Block(r, n))
    {
      TakenKeepsClear(s.free, l, r, n, s.handed[i]);
    }
  }

  lemma {:induction false} LiveBytesUpdate(t: Table, i: int, b: NamedBlock)
    requires 0 <= i < |t|
    ensures LiveBytes(t[i := b]) == LiveBytes(t) - t[i].size + b.size
  {
    if i == 0 {
      assert t[0 := b][1..] == t[1..];
    } else {
      LiveBytesUpdate(t[1..], i - 1, b);
      assert t[i := b][1..] == t[1..][i - 1 := b];
    }
  }

  lemma HeldNamedUpdate(t: Table, i: int, b: NamedBlock, y: int)
    requires 0 <= i < |t|
    requires !t[i].Live() || !b.Live()
    ensures !t[i].Live() ==> (HeldNamed(t[i := b], y) <==> HeldNamed(t, y) || (b.Live() && b.Span().Holds(y)))
    ensures !b.Live() ==> (HeldNamed(t[i := b], y) || (t[i].Live() && t[i].Span().Holds(y)) <==> HeldNamed(t, y))
  {
    var t2 := t[i := b];
    assert forall j | 0 <= j < |t| && j != i :: t2[j] == t[j];
    if HeldNamed(t2, y) {
      var j :| 0 <= j < |t2| && t2[j].Live() && t2[j].Span().Holds(y);
    }
    if HeldNamed(t, y) {
      var j :| 0 <= j < |t| && t[j].Live() && t[j].Span().Holds(y);
      assert t2[j] == t[j] || j == i;
    }
    assert t2[i] == b;
  }

  // ---------------------------------------------------------------- one step

  lemma StepFailedAlloc(s: State, k: nat, l0: seq<Block>, l: seq<Block>, n: int)
    requires Partition(s, k, l0) && Taken(s.free, l, 0, n)
    ensures Partition(s.(free := l), k, l0)
  {
    TakenKeepsTable(s.free, l, 0, n, s.named, k);
    TakenKeepsHanded(s, l, 0, n);
    hide Has, TableGood, HandedGood, HeldNamed, Sorted;
  }

  lemma StepAnonymous(s: State, k: nat, l0: seq<Block>, l: seq<Block>, r: int, n: int)
    requires Partition(s, k, l0) && Taken(s.free, l, r, n) && r != 0
    ensures Partition(s.(free := l, handed := s.handed + [Block(r, n)]), k, l0)
  {
    var s2 := s.(free := l, handed := s.handed + [Block(r, n)]);
    TakenKeepsTable(s.free, l, r, n, s.named, k);
    TakenKeepsHanded(s, l, r, n);
    TakenClear(s.free, l, r, n);
    assert HandedGood(s2) by {
      hide Taken, TableGood, Clear, Disjoint, Sorted;
    }
    TotalConcat(s.handed, [Block(r, n)], 0);
    hide Sorted, TableGood, HandedGood;
    forall y ensures Has(l0, y) <==> Has(l, y) || HeldNamed(s.named, y) || Has(s2.handed, y) {
      HasConcat(s.handed, [Block(r, n)], y);
      HasOne(Block(r, n), y);
      RoomBytes(s.free, r, n, y);
    }
  }

  lemma HasOne(b: Block, y: int)
    ensures Has([b], y) <==> b.Holds(y)
  {
    if b.Holds(y) { assert [b][0].Holds(y); }
  }

  lemma StepReserve(s: State, k: nat, l0: seq<Block>, l: seq<Block>, slot: int, b: NamedBlock)
    requires Partition(s, k, l0) && Taken(s.free, l, b.base, b.size) && b.base != 0
    requires 0 <= slot < |s.named| && !s.named[slot].Live()
    requires forall i | 0 <= i < |s.named| && s.named[i].Live() :: Trunc(s.named[i].name, k) != Trunc(b.name, k)
    ensures Partition(s.(free := l, named := s.named[slot := b]), k, l0)
  {
    var t2 := s.named[slot := b];
    TakenKeepsTable(s.free, l, b.base, b.size, s.named, k);
    TakenKeepsHanded(s, l, b.base, b.size);
    TakenClear(s.free, l, b.base, b.size);
    assert b.Span().Good();
    assert TableGood(l, t2, k) by { hide Taken, Clear, Disjoint, Sorted, HandedGood; }
    assert HandedGood(State(l, t2, s.handed)) by { hide Taken, TableGood, Clear, Disjoint, Sorted; }
    LiveBytesUpdate(s.named, slot, b);
    hide Sorted, TableGood, HandedGood, HeldNamed;
    forall y ensures Has(l0, y) <==> Has(l, y) || HeldNamed(t2, y) || Has(s.handed, y) {
      HeldNamedUpdate(s.named, slot, b, y);
      RoomBytes(s.free, b.base, b.size, y);
    }
  }

  lemma StepRelease(s: State, k: nat, l0: seq<Block>, i: int)
    requires Partition(s, k, l0) && 0 <= i < |s.named| && s.named[i].Live()
    ensures var b := s.named[i];
            && Clear(s.free, b.base, b.size) && b.Span().Good()
            && Release(s.free, b.base, b.size) == (true, Insert(s.free, b.base, b.size))
            && Partition(s.(free := Insert(s.free, b.base, b.size), named := s.named[i := b.(size := 0)]), k, l0)
  {
    var b := s.named[i];
    var l, t2 := Insert(s.free, b.base, b.size), s.named[i := b.(size := 0)];
    ReleaseIsInsert(s.free, b.base, b.size);
    InsertList(s.free, b.base, b.size);
    InsertTotal(s.free, b.base, b.size);
    LiveBytesUpdate(s.named, i, b.(size := 0));
    ReleaseTable(s, k, i);
    ReleaseHanded(s, k, i);
    hide Sorted, TableGood, HandedGood, HeldNamed, Insert;
    forall y ensures Has(l0, y) <==> Has(l, y) || HeldNamed(t2, y) || Has(s.handed, y) {
      HeldNamedUpdate(s.named, i, b.(size := 0), y);
      InsertBytes(s.free, b.base, b.size, y);
    }
  }

  lemma ReleaseTable(s: State, k: nat, i: int)
    requires Sorted(s.free) && TableGood(s.free, s.named, k) && 0 <= i < |s.named| && s.named[i].Live()
    ensures TableGood(Insert(s.free, s.named[i].base, s.named[i].size), s.named[i := s.named[i].(size := 0)], k)
  {
    var b := s.named[i];
    var l, t2 := Insert(s.free, b.base, b.size), s.named[i := b.(size := 0)];
    assert forall j | 0 <= j < |t2| && t2[j].Live() :: j != i && t2[j] == s.named[j];
    hide Sorted, Insert, Clear;
    forall j | 0 <= j < |t2| && t2[j].Live() ensures t2[j].Span().Good() && Clear(l, t2[j].base, t2[j].size) {
      assert Disjoint(b.Span(), t2[j].Span()) || Disjoint(t2[j].Span(), b.Span());
      InsertKeepsClear(s.free, b.Span(), t2[j].Span());
    }
  }

  lemma ReleaseHanded(s: State, k: nat, i: int)
    requires Sorted(s.free) && TableGood(s.free, s.named, k) && HandedGood(s) && 0 <= i < |s.named| && s.named[i].Live()
    ensures HandedGood(s.(free := Insert(s.free, s.named[i].base, s.named[i].size), named := s.named[i := s.named[i].(size := 0)]))
  {
    var b := s.named[i];
    var l, t2 := Insert(s.free, b.base, b.size), s.named[i := b.(size := 0)];
    assert forall j | 0 <= j < |t2| && t2[j].Live() :: t2[j] == s.named[j];
    assert b.Span().Good() && Clear(s.free, b.base, b.size);
    hide Sorted, Insert, Clear, TableGood;
    forall j | 0 <= j < |s.handed| ensures Clear(l, s.handed[j].addr, s.handed[j].size) {
      assert Disjoint(s.handed[j], b.Span());
      InsertKeepsClear(s.free, b.Span(), s.handed[j]);
    }
  }

  /** Reserving: whatever the outcome, the partition is kept. */
  lemma NamedAllocKeeps(s: State, k: nat, l0: seq<Block>, size: u64, addressMin: u64, addressMax: u64, alignment: u64, name: Option<string>)
    requires Partition(s, k, l0) && (alignment == 0 || PowerOfTwo(alignment))
    ensures Partition(NamedAlloc(s, k, size, addressMin, addressMax, alignment, name).1, k, l0)
  {
    var slot := Find(s.named, None, k);
    if Find(s.named, name, k) >= 0 || slot < 0 {
    } else {
      RoundedSmall(size);
      hide Partition, PowerOfTwo, MaskUp, RoundUp, Taken, Sorted;
      var rounded := MaskUp(size, 16);
      RoundUpFixed(rounded, 16);
      AllocTaken(s.free, rounded, addressMin, addressMax, alignment);
      var (r, l) := Alloc(s.free, rounded, addressMin, addressMax, alignment);
      hide Alloc;
      if r == 0 {
        StepFailedAlloc(s, k, l0, l, rounded);
      } else {
        assert name.None? ==> name == None;
        AllocatedGood(s.free, rounded, addressMin, addressMax, alignment);
        NameIsNew(s.named, name.value, k);
        StepReserve(s, k, l0, l, slot, NamedBlock(r, rounded, Trunc(name.value, k)));
      }
    }
  }

  lemma NameIsNew(t: Table, name: string, k: nat)
    requires Find(t, Some(name), k) < 0
    ensures forall i | 0 <= i < |t| && t[i].Live() :: Trunc(t[i].name, k) != Trunc(Trunc(name, k), k)
  {
    hide Find;
    forall i | 0 <= i < |t| && t[i].Live() ensures Trunc(t[i].name, k) != Trunc(name, k) {
      assert !Matches(t[i], Some(name), k);
    }
  }

  lemma NamedFreeKeeps(s: State, k: nat, l0: seq<Block>, name: Option<string>)
    requires Partition(s, k, l0)
    ensures Partition(NamedFree(s, k, name).1, k, l0)
  {
    var i := Find(s.named, name, k);
    if i >= 0 {
      if s.named[i].Live() {
        StepRelease(s, k, l0, i);
      } else {
        assert s.named[i := s.named[i].(size := 0)] == s.named;
      }
    }
  }

  lemma StepKeeps(s: State, k: nat, l0: seq<Block>, op: Op)
    requires Partition(s, k, l0) && op.Legal()
    ensures Partition(Step(s, k, op).1, k, l0)
  {
    match op
    case AllocNamed(n, lo, hi, a, name) =>
      hide Partition, PowerOfTwo;
      NamedAllocKeeps(s, k, l0, n, lo, hi, a, name);
    case FreeNamed(name) =>
      hide Partition;
      NamedFreeKeeps(s, k, l0, name);
    case AllocAnonymous(n, lo, hi, a) =>
      AllocTaken(s.free, n, lo, hi, a);
      hide Partition, PowerOfTwo, Taken, RoundUp;
      var (r, l) := Alloc(s.free, n, lo, hi, a);
      if r == 0 {
        StepFailedAlloc(s, k, l0, l, RoundUp(n, 16));
      } else {
        StepAnonymous(s, k, l0, l, r, RoundUp(n, 16));
      }
    case FindNamed(_) =>
  }

  // ---------------------------------------------------------------- every run

  /** The state after a run of operations; illegal ones cannot be issued. */
  ghost predicate Reaches(s: State, k: nat, ops: seq<Op>, s': State)
    decreases |ops|
  {
    if ops == [] then s' == s
    else Sorted(s.free) && ops[0].Legal() && Reaches(Step(s, k, ops[0]).1, k, ops[1..], s')
  }

  /** Memory in which nothing is allocated yet: a free list and an empty table. */
  predicate Initial(s: State) {
    Sorted(s.free) && s.handed == [] && forall i | 0 <= i < |s.named| :: !s.named[i].Live()
  }

  lemma {:induction false} NoLiveBytes(t: Table)
    requires forall i | 0 <= i < |t| :: !t[i].Live()
    ensures LiveBytes(t) == 0
  {
    if t != [] {
      assert !t[0].Live();
      NoLiveBytes(t[1..]);
    }
  }

  lemma InitialPartition(s: State, k: nat)
    requires Initial(s)
    ensures Partition(s, k, s.free)
  {
    NoLiveBytes(s.named);
    hide Sorted;
    forall y ensures !HeldNamed(s.named, y) && !Has(s.handed, y) {
      NothingHeld(y);
    }
  }

  /**
   Over every run from a state whose blocks partition `l0`, the free list, the live named blocks and the anonymous
   blocks partition it still, and available memory plus what is out is constant.
   */
  lemma {:induction false} RunPartitions(s: State, k: nat, l0: seq<Block>, ops: seq<Op>, s': State)
    requires Partition(s, k, l0) && Reaches(s, k, ops, s')
    ensures Partition(s', k, l0)
    ensures Total(s'.free, 0) + LiveBytes(s'.named) + Total(s'.handed, 0) == Total(s.free, 0) + LiveBytes(s.named) + Total(s.handed, 0)
    decreases |ops|
  {
    if ops != [] {
      StepKeeps(s, k, l0, ops[0]);
      RunPartitions(Step(s, k, ops[0]).1, k, l0, ops[1..], s');
    }
  }

  lemma HandedGrows(s: State, k: nat, op: Op)
    requires Sorted(s.free) && op.Legal()
    ensures s.handed <= Step(s, k, op).1.handed
  {
    hide Sorted, PowerOfTwo, Alloc, Release, Find, MaskUp, RoundUp;
  }

  /** In every reachable state, looking up a live block's own name finds that very block. */
  lemma FindFindsOwn(s: State, k: nat, l0: seq<Block>, i: int)
    requires Partition(s, k, l0) && 0 <= i < |s.named| && s.named[i].Live()
    ensures Find(s.named, Some(s.named[i].name), k) == i
  {
    var r := Find(s.named, Some(s.named[i].name), k);
    hide Find, Sorted, HandedGood;
    assert Matches(s.named[i], Some(s.named[i].name), k);
    if 0 <= r < i {
      assert Matches(s.named[r], Some(s.named[i].name), k);
    }
  }

  lemma NamedAllocShape(s: State, k: nat, size: u64, addressMin: u64, addressMax: u64, alignment: u64, name: string)
    requires Sorted(s.free) && (alignment == 0 || PowerOfTwo(alignment))
    ensures var (r, s') := NamedAlloc(s, k, size, addressMin, addressMax, alignment, Some(name));
            var rounded := MaskUp(size, 16);
            r != 0 ==>
              var slot := Find(s.named, None, k);
              && rounded <= TWO64 - 16 && RoundUp(rounded, 16) == rounded
              && Alloc(s.free, rounded, addressMin, addressMax, alignment) == (r, s'.free)
              && 0 <= slot < |s.named| && 0 < r < TWO64 && 0 < rounded
              && s'.named == s.named[slot := NamedBlock(r, rounded, Trunc(name, k))]
  {
    var (r, s') := NamedAlloc(s, k, size, addressMin, addressMax, alignment, Some(name));
    RoundedSmall(size);
    hide MaskUp, RoundUp, PowerOfTwo, Sorted;
    var rounded := MaskUp(size, 16);
    if r != 0 {
      RoundUpFixed(rounded, 16);
      AllocatedGood(s.free, rounded, addressMin, addressMax, alignment);
      hide Alloc;
    }
  }

  /** After a successful reservation the name finds the block, and freeing it by that name restores a canonical free list. */
  lemma ReserveThenFree(s: State, k: nat, l0: seq<Block>, size: u64, addressMin: u64, addressMax: u64, alignment: u64, name: string)
    requires Partition(s, k, l0) && Canonical(s.free) && (alignment == 0 || PowerOfTwo(alignment))
    ensures var (r, s') := NamedAlloc(s, k, size, addressMin, addressMax, alignment, Some(name));
            r != 0 ==>
              var i := Find(s'.named, Some(name), k);
              && i >= 0 && s'.named[i].base == r && s'.named[i].size == MaskUp(size, 16)
              && NamedFree(s', k, Some(name)).0 && NamedFree(s', k, Some(name)).1.free == s.free
  {
    var (r, s') := NamedAlloc(s, k, size, addressMin, addressMax, alignment, Some(name));
    NamedAllocShape(s, k, size, addressMin, addressMax, alignment, name);
    NamedAllocKeeps(s, k, l0, size, addressMin, addressMax, alignment, Some(name));
    hide NamedAlloc, MaskUp, RoundUp, Canonical, PowerOfTwo, Alloc, Release, Find, Sorted, Partition;
    if r != 0 {
      AllocThenFree(s.free, MaskUp(size, 16), addressMin, addressMax, alignment);
      var slot := Find(s.named, None, k);
      FindFindsOwn(s', k, l0, slot);
      FindSameName(s'.named, name, k);
    }
  }

  lemma {:induction false} FindFromSameName(t: Table, name: string, k: nat, i: nat)
    requires i <= |t|
    ensures FindFrom(t, Some(name), k, i) == FindFrom(t, Some(Trunc(name, k)), k, i)
    decreases |t| - i
  {
    if i < |t| {
      FindFromSameName(t, name, k, i + 1);
    }
  }

  lemma FindSameName(t: Table, name: string, k: nat)
    ensures Find(t, Some(name), k) == Find(t, Some(Trunc(name, k)), k)
  {
    FindFromSameName(t, name, k, 0);
  }
}
