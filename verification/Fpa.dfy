/**
 Buffer pools of the free pool allocator: set-up and shutdown (cvmx-fpa.c), pools carved out of
 boot memory (cvmx-helper.c) and the return of a packet's buffer chain (cvmx-helper.h).
 */
module Fpa {
  import opened Word64
  import opened AllocMeaning
  import opened Answers
  import opened FreeList
  import opened FreeMeaning
  import opened NamedBlocks
  import opened BootMemory
  import opened Headers

  const NUM_POOLS := 8
  const MIN_BLOCK_SIZE := 128
  const BUFFER_ALIGNMENT := 128
  const INT_LIMIT := 0x8000_0000

  datatype PoolInfo = PoolInfo(base: nat, size: nat, count: nat) {
    function End(): nat { base + size * count }
  }

  /** A buffer pointer as the packet hardware writes it; `back` counts cache lines. */
  datatype BufPtr = BufPtr(addr: nat, back: nat, pool: nat)

  /** Start of the buffer it points into, in 64-bit arithmetic. */
  function StartOf(p: BufPtr): nat { (p.addr / 128 - p.back) % TWO64 * 128 % TWO64 }

  /** Wherever in a buffer the data starts: a pointer with the right number of cache lines leads back to the buffer's start. */
  lemma StartOfBuffer(b: nat, addr: nat, back: nat, pool: nat)
    requires b % 128 == 0 && b <= addr < TWO64 && back == addr / 128 - b / 128
    ensures StartOf(BufPtr(addr, back, pool)) == b
  {
  }

  /** `n` buffers of `size` bytes, one behind the other. */
  function Buffers(base: nat, size: nat, n: nat): seq<nat> {
    if n == 0 then [] else Buffers(base, size, n - 1) + [base + size * (n - 1)]
  }

  // ---------------------------------------------------------------- what shutdown counts

  /** An address that starts a buffer of the pool. */
  predicate Legal(info: PoolInfo, a: nat) {
    info.base <= a < info.End() && (info.size > 0 && (a - info.base) % info.size == 0)
  }

  function LegalCount(info: PoolInfo, q: seq<nat>): nat {
    if q == [] then 0 else LegalCount(info, q[..|q| - 1]) + (if Legal(info, q[|q| - 1]) then 1 else 0)
  }

  /** Prefetched buffers that shutdown does not miss. */
  function Tolerance(pool: nat): nat { if pool == 0 then 96 else if pool == 1 then 64 else 0 }

  /** The result of draining `q`: missing buffers, or minus the number of foreign ones, as a 64-bit word. */
  function ShutdownResult(pool: nat, info: PoolInfo, q: seq<nat>): u64 {
    var count := LegalCount(info, q);
    var errors := |q| - count;
    var lost := (info.count - count) % TWO64;
    if errors != 0 then -errors % TWO64 else if lost <= Tolerance(pool) then 0 else lost
  }

  lemma {:induction false} LegalCountBound(info: PoolInfo, q: seq<nat>)
    ensures LegalCount(info, q) <= |q|
    ensures LegalCount(info, q) == |q| <==> forall i | 0 <= i < |q| :: Legal(info, q[i])
    decreases |q|
  {
    if q != [] {
      var front := q[..|q| - 1];
      LegalCountBound(info, front);
      hide Legal;
      if forall i | 0 <= i < |q| :: Legal(info, q[i]) {
        forall i | 0 <= i < |front| ensures Legal(info, front[i]) {
          assert front[i] == q[i];
        }
      } else {
        var i :| 0 <= i < |q| && !Legal(info, q[i]);
        if i < |front| {
          assert !Legal(info, front[i]);
        }
      }
    }
  }

  lemma {:induction false} LegalCountRemove(info: PoolInfo, q: seq<nat>, i: nat)
    requires i < |q|
    ensures LegalCount(info, q) == LegalCount(info, q[..i] + q[i + 1..]) + (if Legal(info, q[i]) then 1 else 0)
    decreases |q|
  {
    var n := |q| - 1;
    hide Legal;
    if i == n {
      assert q[..i] + q[i + 1..] == q[..n];
    } else {
      LegalCountRemove(info, q[..n], i);
      var rest := q[..i] + q[i + 1..];
      assert q[..n][..i] + q[..n][i + 1..] == rest[..n - 1];
      assert rest[n - 1] == q[n];
    }
  }

  // ---------------------------------------------------------------- what its result means

  lemma {:induction false} BufferAt(base: nat, size: nat, n: nat, i: nat)
    requires i < n
    ensures |Buffers(base, size, n)| == n && Buffers(base, size, n)[i] == base + size * i
  {
    if n > 1 {
      BufferAt(base, size, n - 1, if i < n - 1 then i else 0);
    }
  }

  lemma BuffersLength(base: nat, size: nat, n: nat)
    ensures |Buffers(base, size, n)| == n
  {
    if n > 0 { BufferAt(base, size, n, 0); }
  }

  /** Legal addresses are exactly the buffers put in at set-up. */
  lemma LegalIsBuffer(info: PoolInfo, a: nat)
    requires info.size > 0
    ensures Legal(info, a) <==> a in Buffers(info.base, info.size, info.count)
  {
    var all := Buffers(info.base, info.size, info.count);
    BuffersLength(info.base, info.size, info.count);
    if Legal(info, a) {
      var i := (a - info.base) / info.size;
      IndexOf(a - info.base, info.size, info.count);
      BufferAt(info.base, info.size, info.count, i);
      assert a == all[i];
    }
    if a in all {
      var i :| 0 <= i < |all| && all[i] == a;
      BufferAt(info.base, info.size, info.count, i);
      OffsetOf(i, info.size, info.count);
    }
  }

  lemma IndexOf(x: nat, s: nat, n: nat)
    requires s > 0 && x < s * n && x % s == 0
    ensures x / s < n && x == s * (x / s)
  {
    var q := x / s;
    assert (q - n) * s == q * s - n * s;
    MulBounds(q - n, s);
  }

  lemma OffsetOf(i: nat, s: nat, n: nat)
    requires s > 0 && i < n
    ensures (s * i) % s == 0 && s * i < s * n
  {
    ModUnique(s * i, s, i, 0);
    assert (n - i) * s == s * n - s * i;
    MulBounds(n - i, s);
  }

  predicate Distinct(q: seq<nat>) { forall i, j | 0 <= i < j < |q| :: q[i] != q[j] }

  function Elements(q: seq<nat>): set<nat> { set a | a in q }

  lemma {:induction false} ElementsCount(q: seq<nat>)
    requires Distinct(q)
    ensures |Elements(q)| == |q|
    decreases |q|
  {
    if q != [] {
      var front, last := q[..|q| - 1], q[|q| - 1];
      ElementsCount(front);
      assert last !in front;
      assert Elements(q) == Elements(front) + {last};
    }
  }

  lemma BuffersDistinct(base: nat, size: nat, n: nat)
    requires size > 0
    ensures Distinct(Buffers(base, size, n))
  {
    BuffersLength(base, size, n);
    forall i, j | 0 <= i < j < n ensures Buffers(base, size, n)[i] != Buffers(base, size, n)[j] {
      BufferAt(base, size, n, i);
      BufferAt(base, size, n, j);
      OffsetOf(i, size, j);
    }
  }

  lemma SubsetCount(a: set<nat>, b: set<nat>)
    requires a <= b
    ensures |b - a| == |b| - |a|
  {
    assert b == a + (b - a);
  }

  lemma MissingCount(all: seq<nat>, q: seq<nat>)
    requires Distinct(all) && Distinct(q) && (forall a | a in q :: a in all)
    ensures |Elements(all) - Elements(q)| == |all| - |q|
  {
    ElementsCount(all);
    ElementsCount(q);
    assert Elements(q) <= Elements(all);
    SubsetCount(Elements(q), Elements(all));
  }

  lemma AllLegal(info: PoolInfo, q: seq<nat>)
    requires 0 < info.size && (forall a | a in q :: a in Buffers(info.base, info.size, info.count))
    ensures LegalCount(info, q) == |q|
  {
    hide Legal, LegalCount, Buffers;
    forall i | 0 <= i < |q| ensures Legal(info, q[i]) {
      LegalIsBuffer(info, q[i]);
    }
    LegalCountBound(info, q);
  }

  /** Without foreign or duplicate buffers, shutdown returns the number of buffers missing, less what is tolerated. */
  lemma ShutdownCountsMissing(pool: nat, info: PoolInfo, q: seq<nat>)
    requires 0 < info.size && info.count < TWO64 && Distinct(q)
    requires forall a | a in q :: a in Buffers(info.base, info.size, info.count)
    ensures var missing := Elements(Buffers(info.base, info.size, info.count)) - Elements(q);
            ShutdownResult(pool, info, q) == if |missing| <= Tolerance(pool) then 0 else |missing|
  {
    hide Legal, LegalCount, Buffers, Distinct, Elements;
    AllLegal(info, q);
    BuffersLength(info.base, info.size, info.count);
    BuffersDistinct(info.base, info.size, info.count);
    MissingCount(Buffers(info.base, info.size, info.count), q);
  }

  /** So, duplicates aside, a pool without tolerance shuts down with zero just if it holds exactly its buffers again. */
  lemma ShutdownValidates(pool: nat, info: PoolInfo, q: seq<nat>)
    requires pool >= 2 && 0 < info.size && info.count < TWO64 && |q| < TWO64 && Distinct(q)
    ensures ShutdownResult(pool, info, q) == 0 <==> Elements(q) == Elements(Buffers(info.base, info.size, info.count))
  {
    var all := Buffers(info.base, info.size, info.count);
    LegalCountBound(info, q);
    if forall i | 0 <= i < |q| :: Legal(info, q[i]) {
      forall a | a in q ensures a in all {
        LegalIsBuffer(info, a);
      }
      ShutdownCountsMissing(pool, info, q);
      hide Legal, LegalCount, Buffers, ShutdownResult;
      assert Elements(q) <= Elements(all);
      if |Elements(all) - Elements(q)| == 0 {
        assert Elements(all) - Elements(q) == {};
      }
    } else {
      var i :| 0 <= i < |q| && !Legal(info, q[i]);
      LegalIsBuffer(info, q[i]);
      assert q[i] in Elements(q);
      hide Legal, LegalCount, Buffers;
    }
  }

  /**
   What a zero result says of any contents: every buffer starts where a buffer of the pool does, there are no more
   of them than were put in, and no more are missing than is tolerated.
   */
  lemma ShutdownZero(pool: nat, info: PoolInfo, q: seq<nat>)
    requires info.count < TWO64 && |q| + Tolerance(pool) < TWO64
    ensures ShutdownResult(pool, info, q) == 0 <==>
              (forall i | 0 <= i < |q| :: Legal(info, q[i])) && |q| <= info.count <= |q| + Tolerance(pool)
  {
    LegalCountBound(info, q);
    hide Legal, LegalCount;
  }

  /** The buffers drained that are none of the pool's. */
  function Foreign(info: PoolInfo, q: seq<nat>): set<nat> { set i: nat | i < |q| && !Legal(info, q[i]) }

  lemma {:induction false} ForeignCount(info: PoolInfo, q: seq<nat>)
    ensures LegalCount(info, q) + |Foreign(info, q)| == |q|
    decreases |q|
  {
    if q != [] {
      var n := |q| - 1;
      ForeignCount(info, q[..n]);
      hide Legal;
      assert Foreign(info, q) == Foreign(info, q[..n]) + (if Legal(info, q[n]) then {} else {n});
    }
  }

  /**
   The result for any contents: minus the number of foreign buffers as soon as there is one; else what is missing,
   unless prefetching explains it; else, with more buffers than were put in, minus the surplus.
   */
  lemma ShutdownValue(pool: nat, info: PoolInfo, q: seq<nat>)
    requires info.count < TWO64 && |q| + 96 < TWO64
    ensures var foreign, result := |Foreign(info, q)|, ShutdownResult(pool, info, q);
            if foreign > 0 then result == TWO64 - foreign
            else if |q| > info.count then result == TWO64 - (|q| - info.count)
            else if pool == 0 && |q| + 96 >= info.count then result == 0
            else if pool == 1 && |q| + 64 >= info.count then result == 0
            else result == info.count - |q|
  {
    ForeignCount(info, q);
    hide Foreign, LegalCount, Legal;
  }

  function Copies(q: seq<nat>, a: nat): nat { multiset(q)[a] }

  lemma {:induction false} DistinctCount(q: seq<nat>)
    ensures Distinct(q) <==> forall a: nat :: Copies(q, a) <= 1
    decreases |q|
  {
    if q != [] {
      var front, last := q[..|q| - 1], q[|q| - 1];
      DistinctCount(front);
      assert q == front + [last];
      if forall a: nat :: Copies(q, a) <= 1 {
        assert forall a: nat :: Copies(front, a) <= Copies(q, a);
        assert Copies(q, last) == Copies(front, last) + 1;
        assert last !in front;
      }
      if Distinct(q) {
        assert last !in front;
        forall a: nat ensures Copies(q, a) <= 1 {
          assert Copies(front, a) <= 1;
        }
      }
    }
  }

  /** A zero result means that the pool holds exactly its buffers again just if no buffer came back twice. */
  lemma ZeroIsWhole(pool: nat, info: PoolInfo, q: seq<nat>)
    requires pool >= 2 && 0 < info.size && info.count < TWO64 && |q| < TWO64
    requires ShutdownResult(pool, info, q) == 0
    ensures multiset(q) == multiset(Buffers(info.base, info.size, info.count)) <==> Distinct(q)
  {
    var all := Buffers(info.base, info.size, info.count);
    BuffersDistinct(info.base, info.size, info.count);
    DistinctCount(all);
    DistinctCount(q);
    if multiset(q) == multiset(all) {
      assert forall a: nat :: Copies(q, a) == Copies(all, a);
    }
    if Distinct(q) {
      ShutdownValidates(pool, info, q);
      hide Buffers, Distinct, ShutdownResult;
      forall a: nat ensures Copies(q, a) == Copies(all, a) {
        assert a in q <==> a in Elements(q);
        assert a in all <==> a in Elements(all);
      }
      SameMultiset(q, all);
    }
  }

  lemma SameMultiset(q: seq<nat>, r: seq<nat>)
    requires forall a: nat :: Copies(q, a) == Copies(r, a)
    ensures multiset(q) == multiset(r)
  {
    var m, n: multiset<nat> := multiset(q), multiset(r);
    assert forall a: nat :: m[a] == Copies(q, a) && n[a] == Copies(r, a);
  }

  /** With duplicates it can be fooled: one buffer returned twice stands in for one that is missing. */
  lemma DuplicateHidesLoss(base: nat)
    ensures ShutdownResult(2, PoolInfo(base, 128, 2), [base, base]) == 0 && (base + 128) !in [base, base]
  {
    var info := PoolInfo(base, 128, 2);
    assert Legal(info, base);
    LegalCountBound(info, [base, base]);
  }

  // ---------------------------------------------------------------- packets

  /** One buffer of a packet: its pool and where it starts. */
  datatype Part = Part(pool: nat, start: nat)

  /** Starts of the parts that belong to pool `p`, in order. */
  function Starts(parts: seq<Part>, p: nat): seq<nat> {
    if parts == [] then []
    else (if parts[0].pool == p then [parts[0].start] else []) + Starts(parts[1..], p)
  }

  /** The queues after every part has gone back to its pool. */
  function Returned(queues: seq<seq<nat>>, parts: seq<Part>): (r: seq<seq<nat>>)
    ensures |r| == |queues|
    decreases |parts|
  {
    if parts == [] then queues
    else if parts[0].pool >= |queues| then Returned(queues, parts[1..])
    else Returned(queues[parts[0].pool := queues[parts[0].pool] + [parts[0].start]], parts[1..])
  }

  /** Each pool gets its own buffers of the packet back, each once and in chain order, and nothing else. */
  lemma {:induction false} ReturnedEach(queues: seq<seq<nat>>, parts: seq<Part>, p: nat)
    requires p < |queues|
    ensures Returned(queues, parts)[p] == queues[p] + Starts(parts, p)
    decreases |parts|
  {
    if parts != [] {
      var q := parts[0].pool;
      if q >= |queues| {
        ReturnedEach(queues, parts[1..], p);
      } else {
        ReturnedEach(queues[q := queues[q] + [parts[0].start]], parts[1..], p);
      }
    }
  }

  /** Freeing a packet whose buffers were taken from the pools puts the pools' contents back. */
  lemma PacketConserves(before: seq<seq<nat>>, taken: seq<seq<nat>>, parts: seq<Part>, p: nat)
    requires |taken| == |before| && p < |before|
    requires multiset(before[p]) == multiset(taken[p]) + multiset(Starts(parts, p))
    ensures multiset(Returned(taken, parts)[p]) == multiset(before[p])
  {
    ReturnedEach(taken, parts, p);
  }

  predicate Separate(info: seq<PoolInfo>, a: Part, b: Part)
    requires a.pool < |info| && b.pool < |info|
  {
    a.start + info[a.pool].size <= b.start || b.start + info[b.pool].size <= a.start
  }

  /** The buffer pointer leads to the parts: each next pointer is stored in the 8 bytes before the data of its buffer. */
  predicate Packet(memory: nat -> BufPtr, info: seq<PoolInfo>, p: BufPtr, parts: seq<Part>)
    decreases |parts|
  {
    parts == [] ||
    (var part := parts[0];
     && p.pool == part.pool < |info| && p.addr < TWO64
     && part.start % 128 == 0 && p.addr / 128 - p.back == part.start / 128
     && part.start + 8 <= p.addr <= part.start + info[part.pool].size
     && (forall i | 1 <= i < |parts| :: parts[i].pool < |info| && Separate(info, part, parts[i]))
     && Packet(memory, info, memory(p.addr - 8), parts[1..]))
  }

  /** Memory outside `[from, to)` is as it was. */
  ghost predicate Elsewhere(before: nat -> BufPtr, after: nat -> BufPtr, from: nat, to: nat) {
    forall a: nat | !(from <= a < to) :: after(a) == before(a)
  }

  lemma PacketParts(memory: nat -> BufPtr, info: seq<PoolInfo>, p: BufPtr, parts: seq<Part>)
    requires parts != [] && Packet(memory, info, p, parts)
    ensures p.addr >= 8 && p.pool == parts[0].pool < |info| && StartOf(p) == parts[0].start
    ensures forall i | 0 <= i < |parts[1..]| :: parts[1..][i].pool < |info| && Separate(info, parts[0], parts[1..][i])
    ensures Packet(memory, info, memory(p.addr - 8), parts[1..])
  {
    hide Separate, StartOf;
    StartOfBuffer(parts[0].start, p.addr, p.back, p.pool);
    forall i | 0 <= i < |parts[1..]| ensures parts[1..][i].pool < |info| && Separate(info, parts[0], parts[1..][i]) {
      assert parts[1..][i] == parts[i + 1];
    }
  }

  /** What the hardware does to one buffer does not touch the rest of the chain. */
  lemma {:induction false} RestKeeps(before: nat -> BufPtr, after: nat -> BufPtr, info: seq<PoolInfo>, gone: Part, p: BufPtr, parts: seq<Part>)
    requires gone.pool < |info| && Packet(before, info, p, parts)
    requires Elsewhere(before, after, gone.start, gone.start + info[gone.pool].size)
    requires forall i | 0 <= i < |parts| :: parts[i].pool < |info| && Separate(info, gone, parts[i])
    ensures Packet(after, info, p, parts)
    decreases |parts|
  {
    if parts != [] {
      assert Separate(info, gone, parts[0]);
      var rest := parts[1..];
      forall i | 0 <= i < |rest| ensures rest[i].pool < |info| && Separate(info, gone, rest[i]) {
        assert rest[i] == parts[i + 1];
      }
      hide Separate;
      RestKeeps(before, after, info, gone, before(p.addr - 8), rest);
    }
  }

  // ---------------------------------------------------------------- pools carved out of boot memory

  /** What pool set-up works on: pool descriptions, pool contents and boot memory. */
  datatype Carving = Carving(info: seq<PoolInfo>, queues: seq<seq<nat>>, boot: State) {
    ghost predicate Valid() { |info| == NUM_POOLS && |queues| == NUM_POOLS && Sorted(boot.free) }
  }

  /** One call of cvmx_helper_initialize_fpa_pool; a negative pool is not set up. All three are C ints. */
  datatype PoolRequest = PoolRequest(pool: int, size: int, buffers: int) {
    /** Not both negative, and not a product in between -16 and 0, which would round to no bytes. */
    predicate Fits() {
      && pool < NUM_POOLS && -INT_LIMIT <= size < INT_LIMIT && -INT_LIMIT <= buffers < INT_LIMIT
      && (size >= 0 || buffers >= 0) && !(-16 < size * buffers < 0)
    }

    /** Size and count as the set-up takes them, 64-bit words, and their product. */
    function BlockSize(): u64 { size % TWO64 }

    function Count(): u64 { buffers % TWO64 }

    function Bytes(): u64 { size * buffers % TWO64 }
  }

  /** A product of one negative factor is too many bytes for any memory. */
  lemma BytesCases(q: PoolRequest)
    requires q.Fits()
    ensures if q.size * q.buffers >= 0 then q.Bytes() == q.size * q.buffers <= INT_LIMIT * INT_LIMIT
            else PHYS_LIMIT <= q.Bytes() <= TWO64 - 16
    ensures q.size * q.buffers > 0 ==> q.size > 0 && q.buffers > 0
  {
    var n, m := q.size, q.buffers;
    SignedProduct(n, m);
    WordOf(n * m);
  }

  lemma SignedProduct(n: int, m: int)
    requires -INT_LIMIT <= n <= INT_LIMIT && -INT_LIMIT <= m <= INT_LIMIT && (n >= 0 || m >= 0)
    ensures -INT_LIMIT * INT_LIMIT <= n * m <= INT_LIMIT * INT_LIMIT
    ensures n * m > 0 ==> n > 0 && m > 0
  {
    if n < 0 {
      MulBound(-n, m);
    } else if m < 0 {
      MulBound(n, -m);
    } else {
      MulBound(n, m);
    }
  }

  lemma WordOf(x: int)
    requires -TWO64 <= x < TWO64
    ensures x % TWO64 == if x >= 0 then x else TWO64 + x
  {
  }

  lemma BytesSmall(q: PoolRequest)
    requires q.Fits()
    ensures q.Bytes() <= TWO64 - 16 && PowerOfTwo(BUFFER_ALIGNMENT)
  {
    BytesCases(q);
    assert PowerOfTwo(2) && PowerOfTwo(4) && PowerOfTwo(8) && PowerOfTwo(16);
    assert PowerOfTwo(32) && PowerOfTwo(64);
  }

  lemma MulBound(a: nat, b: nat)
    requires a <= INT_LIMIT && b <= INT_LIMIT
    ensures 0 <= a * b <= INT_LIMIT * INT_LIMIT
  {
    assert (INT_LIMIT - a) * b == INT_LIMIT * b - a * b;
    MulBounds(INT_LIMIT - a, b);
    if a > 0 { MulBounds(a, b); }
  }

  /** The boot memory call that a set-up makes. */
  function Claim(q: PoolRequest): Op
    requires q.Fits()
  {
    BytesSmall(q);
    AllocAnonymous(q.Bytes(), 0, 0, BUFFER_ALIGNMENT)
  }

  /**
   Set up one pool. Nothing is done for no buffers, or when the pool already has some. A buffer size
   below the minimum is refused by the pool set-up, which the caller does not notice: the memory is
   taken and the pool stays empty.
   */
  function InitPool(c: Carving, k: nat, q: PoolRequest): (int, Carving)
    requires c.Valid() && q.Fits()
  {
    if q.pool < 0 || q.buffers == 0 || c.queues[q.pool] != [] then (0, c)
    else
      BytesSmall(q);
      var (a, boot) := Step(c.boot, k, Claim(q));
      if a <= 0 then (-1, c.(boot := boot))
      else if q.BlockSize() < MIN_BLOCK_SIZE then (0, c.(boot := boot))
      else
        (0, Carving(c.info[q.pool := PoolInfo(a, q.BlockSize(), q.Count())], c.queues[q.pool := Buffers(a, q.BlockSize(), q.Count())], boot))
  }

  /** Memory is only had for a size and a count above 0. */
  lemma ClaimedPositive(free: seq<Block>, q: PoolRequest)
    requires Sorted(free) && q.Fits() && q.Bytes() <= TWO64 - 16 && PowerOfTwo(BUFFER_ALIGNMENT)
    requires Alloc(free, q.Bytes(), 0, 0, BUFFER_ALIGNMENT).0 != 0
    ensures q.size > 0 && q.buffers > 0 && q.Bytes() == q.BlockSize() * q.Count()
  {
    hide PowerOfTwo, Alloc, RoundUp, Sorted, PoolRequest.Fits, Wanted, Room;
    AllocLeast(free, q.Bytes(), 0, 0, BUFFER_ALIGNMENT);
    AllocatedGood(free, q.Bytes(), 0, 0, BUFFER_ALIGNMENT);
    RoundUpLeast(q.Bytes(), 16);
    BytesCases(q);
    WordsOf(q);
  }

  lemma WordsOf(q: PoolRequest)
    requires q.Fits()
    ensures q.size > 0 ==> q.BlockSize() == q.size
    ensures q.buffers > 0 ==> q.Count() == q.buffers
  {
  }

  lemma ClaimFacts(c: Carving, k: nat, l0: seq<Block>, q: PoolRequest)
    requires c.Valid() && q.Fits() && Partition(c.boot, k, l0)
    ensures Claim(q).Legal() && Sorted(c.boot.free)
    ensures var (a, boot) := Step(c.boot, k, Claim(q));
            && Partition(boot, k, l0)
            && boot.handed == (if a == 0 then c.boot.handed else c.boot.handed + [Block(a, RoundUp(q.Bytes(), 16))])
            && (a != 0 ==> a >= 16 && a % BUFFER_ALIGNMENT == 0 && q.Bytes() == q.BlockSize() * q.Count())
  {
    hide Partition, PowerOfTwo, Alloc, RoundUp, PoolRequest.Fits, PoolRequest.Bytes;
    BytesSmall(q);
    PartitionSorted(c.boot, k, l0);
    StepKeeps(c.boot, k, l0, Claim(q));
    AllocLeast(c.boot.free, q.Bytes(), 0, 0, BUFFER_ALIGNMENT);
    if Alloc(c.boot.free, q.Bytes(), 0, 0, BUFFER_ALIGNMENT).0 != 0 {
      ClaimedPositive(c.boot.free, q);
    }
  }

  lemma PartitionSorted(s: State, k: nat, l0: seq<Block>)
    requires Partition(s, k, l0)
    ensures Sorted(s.free)
  {
  }

  lemma InitKeepsValid(c: Carving, k: nat, q: PoolRequest)
    requires c.Valid() && q.Fits()
    ensures InitPool(c, k, q).1.Valid()
  {
    BytesSmall(q);
    AllocList(c.boot.free, q.Bytes(), 0, 0, BUFFER_ALIGNMENT);
    hide PowerOfTwo, Sorted, Alloc, RoundUp, Buffers;
  }

  predicate AllFit(requests: seq<PoolRequest>) { forall i | 0 <= i < |requests| :: requests[i].Fits() }

  /** The set-ups one after the other, ending at the first that fails. */
  function InitPools(c: Carving, k: nat, requests: seq<PoolRequest>): (int, Carving)
    requires c.Valid() && AllFit(requests)
    decreases |requests|
  {
    if requests == [] then (0, c)
    else
      InitKeepsValid(c, k, requests[0]);
      var (r, c') := InitPool(c, k, requests[0]);
      assert forall i | 0 <= i < |requests[1..]| :: requests[1..][i] == requests[i + 1];
      if r != 0 then (r, c') else InitPools(c', k, requests[1..])
  }

  /** The cases of a set-up that is not skipped. */
  lemma InitPoolCases(c: Carving, k: nat, l0: seq<Block>, q: PoolRequest, a: int, boot: State)
    requires c.Valid() && q.Fits() && q.pool >= 0 && q.buffers != 0 && c.queues[q.pool] == [] && Partition(c.boot, k, l0)
    requires Claim(q).Legal() && (a, boot) == Step(c.boot, k, Claim(q))
    ensures a == 0 || (a >= 16 && a % BUFFER_ALIGNMENT == 0)
    ensures a == 0 ==> InitPool(c, k, q) == (-1, c.(boot := boot))
    ensures a != 0 && q.BlockSize() < MIN_BLOCK_SIZE ==> InitPool(c, k, q) == (0, c.(boot := boot))
    ensures a != 0 && q.BlockSize() >= MIN_BLOCK_SIZE ==>
              InitPool(c, k, q)
              == (0, Carving(c.info[q.pool := PoolInfo(a, q.BlockSize(), q.Count())], c.queues[q.pool := Buffers(a, q.BlockSize(), q.Count())], boot))
  {
    ClaimFacts(c, k, l0, q);
    hide Partition, PowerOfTwo, Step, RoundUp, Sorted, Buffers;
  }

  lemma InitPoolsStep(c: Carving, k: nat, q: PoolRequest, rest: seq<PoolRequest>)
    requires c.Valid() && AllFit([q] + rest)
    ensures q.Fits() && AllFit(rest) && AllFit([q] + rest)
    ensures var (r, c') := InitPool(c, k, q);
            c'.Valid() && InitPools(c, k, [q] + rest) == if r != 0 then (r, c') else InitPools(c', k, rest)
    ensures q.pool < 0 ==> InitPool(c, k, q) == (0, c)
  {
    assert ([q] + rest)[0] == q && ([q] + rest)[1..] == rest;
    assert AllFit(rest) by {
      forall i | 0 <= i < |rest| ensures rest[i].Fits() {
        assert rest[i] == ([q] + rest)[i + 1];
      }
    }
    InitKeepsValid(c, k, q);
    var (r, c') := InitPool(c, k, q);
    assert q.pool < 0 ==> (r, c') == (0, c);
    hide InitPool;
  }

  // ---------------------------------------------------------------- what a set-up answers

  /** Nothing to do: the pool is not wanted, no buffers are asked for, or it has some. */
  predicate Skips(c: Carving, q: PoolRequest)
    requires c.Valid() && q.Fits()
  {
    q.pool < 0 || q.buffers == 0 || c.queues[q.pool] != []
  }

  /** The memory a set-up gets: `a` is the least cache line at which `size * buffers` bytes are free together, 0 if there is none. */
  ghost predicate Claimed(c: Carving, c': Carving, q: PoolRequest, a: int) {
    var n := q.size * q.buffers % TWO64;
    && n <= TWO64 - 16 && Granted(c.boot.free, c'.boot.free, n, 0, 0, 128, a)
    && c'.boot.named == c.boot.named
    && c'.boot.handed == (if a == 0 then c.boot.handed else c.boot.handed + [Block(a, RoundUp(n, 16))])
  }

  /** What becomes of the pool: nothing without memory or below the least buffer size; else `buffers` buffers from `a` on. */
  predicate PoolFrom(c: Carving, c': Carving, q: PoolRequest, a: int)
    requires |c.info| == |c.queues| == |c'.info| == |c'.queues| == 8 && 0 <= q.pool < 8
  {
    && (forall p | 0 <= p < 8 && p != q.pool :: c'.info[p] == c.info[p] && c'.queues[p] == c.queues[p])
    && (if a == 0 || q.size < 128 then c'.info[q.pool] == c.info[q.pool] && c'.queues[q.pool] == c.queues[q.pool]
        else
          && c'.info[q.pool].base == a && c'.info[q.pool].size == q.size && c'.info[q.pool].count == q.buffers
          && |c'.queues[q.pool]| == q.buffers && forall i | 0 <= i < q.buffers :: c'.queues[q.pool][i] == a + q.size * i)
  }

  lemma BuffersFrom(base: nat, size: nat, n: nat)
    ensures |Buffers(base, size, n)| == n && forall i | 0 <= i < n :: Buffers(base, size, n)[i] == base + size * i
  {
    hide Buffers;
    BuffersLength(base, size, n);
    forall i | 0 <= i < n ensures Buffers(base, size, n)[i] == base + size * i {
      BufferAt(base, size, n, i);
    }
  }

  lemma ClaimGets(c: Carving, k: nat, l0: seq<Block>, q: PoolRequest, a: int, boot: State)
    requires c.Valid() && q.Fits() && Partition(c.boot, k, l0)
    requires Claim(q).Legal() && (a, boot) == Step(c.boot, k, Claim(q))
    ensures Claimed(c, c.(boot := boot), q, a)
    ensures a != 0 ==> q.size > 0 && q.buffers > 0 && q.BlockSize() == q.size && q.Count() == q.buffers
  {
    hide Partition, PowerOfTwo, Alloc, RoundUp, PoolRequest.Fits, Granted, Sorted;
    BytesSmall(q);
    PartitionSorted(c.boot, k, l0);
    AnonymousAnswer(c.boot, k, q.Bytes(), 0, 0, BUFFER_ALIGNMENT);
    if Alloc(c.boot.free, q.Bytes(), 0, 0, BUFFER_ALIGNMENT).0 != 0 {
      ClaimedPositive(c.boot.free, q);
      WordsOf(q);
    }
  }

  lemma Skipped(c: Carving, k: nat, q: PoolRequest)
    requires c.Valid() && q.Fits() && Skips(c, q)
    ensures InitPool(c, k, q) == (0, c)
  {
  }

  /**
   One set-up: -1 just if the memory is not to be had, and then nothing but boot memory may have changed;
   0 otherwise, even where a size below 128 bytes leaves the pool empty and the memory taken.
   */
  lemma PoolAnswer(c: Carving, k: nat, l0: seq<Block>, q: PoolRequest) returns (a: int)
    requires c.Valid() && q.Fits() && Partition(c.boot, k, l0)
    ensures Skips(c, q) ==> InitPool(c, k, q) == (0, c)
    ensures var (r, c') := InitPool(c, k, q);
            c'.Valid() && (!Skips(c, q) ==> Claimed(c, c', q, a) && PoolFrom(c, c', q, a) && r == if a == 0 then -1 else 0)
  {
    hide Partition, PowerOfTwo, Step, RoundUp, Sorted, Buffers, InitPool, Granted;
    InitKeepsValid(c, k, q);
    if Skips(c, q) {
      a := 0;
      Skipped(c, k, q);
    } else {
      var boot;
      ClaimFacts(c, k, l0, q);
      a, boot := Step(c.boot, k, Claim(q)).0, Step(c.boot, k, Claim(q)).1;
      ClaimGets(c, k, l0, q, a, boot);
      InitPoolCases(c, k, l0, q, a, boot);
      BuffersFrom(a, q.BlockSize(), q.Count());
    }
  }

  lemma PoolPartition(c: Carving, k: nat, l0: seq<Block>, q: PoolRequest)
    requires c.Valid() && q.Fits() && Partition(c.boot, k, l0)
    ensures Partition(InitPool(c, k, q).1.boot, k, l0)
  {
    hide Partition, Step, Sorted, Buffers, PowerOfTwo, RoundUp, Claim, PoolRequest.Fits;
    ClaimFacts(c, k, l0, q);
  }

  lemma NotGranted(c: Carving, c': Carving, q: PoolRequest)
    requires Claimed(c, c', q, 0)
    ensures Claimed(c, c, q, 0)
  {
    hide Wanted, Has, RoundUp;
  }

  /** It is to be set up, and boot memory has no place for it. */
  ghost predicate NoRoom(c: Carving, q: PoolRequest) {
    c.Valid() && q.Fits() && !Skips(c, q) && Claimed(c, c, q, 0)
  }

  /** The set-ups before `j` went well and led to `d`; the one at `j` finds no room. */
  ghost predicate FailsAt(c: Carving, k: nat, requests: seq<PoolRequest>, j: int, d: Carving, c': Carving) {
    && 0 <= j < |requests| && c.Valid() && AllFit(requests[..j]) && InitPools(c, k, requests[..j]) == (0, d)
    && NoRoom(d, requests[j]) && c'.info == d.info && c'.queues == d.queues
  }

  lemma PoolsInRange(requests: seq<PoolRequest>)
    requires AllFit(requests)
    ensures forall i | 0 <= i < |requests| :: requests[i].pool < 8
  {
  }

  /** A pool wanted with buffers big enough. */
  predicate Fillable(q: PoolRequest) { q.pool >= 0 && q.buffers != 0 && q.size >= 128 }

  lemma OneMore(c: Carving, k: nat, requests: seq<PoolRequest>, j: int, d: Carving, c': Carving)
    requires c.Valid() && requests != [] && AllFit(requests) && InitPool(c, k, requests[0]).0 == 0
    requires FailsAt(InitPool(c, k, requests[0]).1, k, requests[1..], j, d, c')
    ensures FailsAt(c, k, requests, j + 1, d, c')
  {
    hide InitPool, InitPools, NoRoom, PoolRequest.Fits, Sorted;
    var rest := requests[1..][..j];
    assert requests[..j + 1] == [requests[0]] + rest;
    assert forall i | 0 <= i <= j :: requests[..j + 1][i] == requests[i];
    InitPoolsStep(c, k, requests[0], rest);
  }

  /**
   All set-ups: 0 and then every pool wanted with big enough buffers has some; or -1 because one
   set-up, those before it done, finds no room in boot memory, and none after it is made.
   */
  lemma {:induction false} InitPoolsAnswer(c: Carving, k: nat, l0: seq<Block>, requests: seq<PoolRequest>)
    requires c.Valid() && AllFit(requests) && Partition(c.boot, k, l0)
    ensures var (r, c') := InitPools(c, k, requests);
            && c'.Valid() && (r == 0 || r == -1)
            && (forall p | 0 <= p < 8 && c.queues[p] != [] :: c'.queues[p] == c.queues[p])
            && (r == 0 ==> forall i | 0 <= i < |requests| && Fillable(requests[i]) :: c'.queues[requests[i].pool] != [])
            && (r == -1 ==> exists j, d :: FailsAt(c, k, requests, j, d, c'))
    decreases |requests|
  {
    hide InitPool, Partition, Sorted, Skips, Claimed, PoolFrom, PoolRequest.Fits, NoRoom;
    if requests != [] {
      var q, rest := requests[0], requests[1..];
      assert [q] + rest == requests;
      InitPoolsStep(c, k, q, rest);
      var (r1, c1) := InitPool(c, k, q);
      PoolKept(c, k, l0, q);
      if r1 != 0 {
        assert AllFit(requests[..0]) && InitPools(c, k, requests[..0]) == (0, c);
        assert FailsAt(c, k, requests, 0, c, c1);
      } else {
        InitPoolsAnswer(c1, k, l0, rest);
        PoolsInRange(requests);
        var (r, c') := InitPools(c1, k, rest);
        if r == 0 {
          forall i | 0 <= i < |requests| && Fillable(requests[i]) ensures c'.queues[requests[i].pool] != [] {
            assert i > 0 ==> requests[i] == rest[i - 1];
          }
        } else {
          var j, d :| FailsAt(c1, k, rest, j, d, c');
          OneMore(c, k, requests, j, d, c');
        }
      }
    }
  }

  /** What one set-up does to all pools. */
  lemma PoolKept(c: Carving, k: nat, l0: seq<Block>, q: PoolRequest)
    requires c.Valid() && q.Fits() && Partition(c.boot, k, l0)
    ensures var (r, c') := InitPool(c, k, q);
            && c'.Valid() && Partition(c'.boot, k, l0) && q.pool < 8
            && (forall p | 0 <= p < 8 && c.queues[p] != [] :: c'.queues[p] == c.queues[p])
            && (r == 0 && Fillable(q) ==> c'.queues[q.pool] != [])
            && (r != 0 ==> r == -1 && NoRoom(c, q) && c'.info == c.info && c'.queues == c.queues)
  {
    hide Partition, Sorted, Step, Buffers, Granted, RoundUp;
    var a := PoolAnswer(c, k, l0, q);
    PoolPartition(c, k, l0, q);
    if !Skips(c, q) && a == 0 {
      NotGranted(c, InitPool(c, k, q).1, q);
    }
  }
}
