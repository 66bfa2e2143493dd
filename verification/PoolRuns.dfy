/**
 Every run of pool set-ups, boot memory operations and buffers taken from pools and given back:
 the buffers ever made stay apart from one another and from the rest of boot memory, and each is
 in its pool or out, once.
 */
module PoolRuns {
  import opened Word64
  import opened FreeList
  import opened FreeMeaning
  import opened NamedBlocks
  import opened Fpa

  /** A successful set-up: the pool, its description, and which of the blocks handed out it occupies. */
  datatype Made = Made(pool: nat, info: PoolInfo, block: nat)

  /** Pools and boot memory, the set-ups so far, and per pool the buffers that are out. */
  datatype World = World(c: Carving, made: seq<Made>, out: seq<multiset<nat>>) {
    ghost predicate Shaped() { c.Valid() && |out| == NUM_POOLS }
  }

  datatype Event =
    | SetUp(q: PoolRequest)
    | Boot(op: Op)
    | Take(pool: nat, at: nat)
    | Give(pool: nat, a: nat)

  /** A buffer goes back to the pool it was taken from, once. */
  predicate Enabled(w: World, e: Event) {
    match e
    case SetUp(q) => q.Fits()
    case Boot(op) => op.Legal()
    case Take(p, at) => p < |w.c.queues| && at < |w.c.queues[p]|
    case Give(p, a) => p < |w.out| && p < |w.c.queues| && a in w.out[p]
  }

  /** The set-up really fills the pool. */
  predicate Fills(c: Carving, k: nat, q: PoolRequest)
    requires c.Valid() && q.Fits()
  {
    BytesSmall(q);
    q.pool >= 0 && q.buffers != 0 && c.queues[q.pool] == [] && q.BlockSize() >= MIN_BLOCK_SIZE && Step(c.boot, k, Claim(q)).0 > 0
  }

  function Next(w: World, k: nat, e: Event): World
    requires w.Shaped() && Enabled(w, e)
  {
    match e
    case SetUp(q) =>
      var c' := InitPool(w.c, k, q).1;
      w.(c := c', made := if Fills(w.c, k, q) then w.made + [Made(q.pool, c'.info[q.pool], |w.c.boot.handed|)] else w.made)
    case Boot(op) => w.(c := w.c.(boot := Step(w.c.boot, k, op).1))
    case Take(p, at) =>
      var q := w.c.queues[p];
      w.(c := w.c.(queues := w.c.queues[p := q[..at] + q[at + 1..]]), out := w.out[p := w.out[p] + multiset{q[at]}])
    case Give(p, a) =>
      w.(c := w.c.(queues := w.c.queues[p := w.c.queues[p] + [a]]), out := w.out[p := w.out[p] - multiset{a}])
  }

  // ---------------------------------------------------------------- the invariant

  /** All buffers ever put into pool `p`. */
  function MadeBuffers(made: seq<Made>, p: nat): seq<nat> {
    if made == [] then []
    else
      var last := made[|made| - 1];
      MadeBuffers(made[..|made| - 1], p) + (if last.pool == p then Buffers(last.info.base, last.info.size, last.info.count) else [])
  }

  /** The latest set-up of pool `p`. */
  function LastInfo(made: seq<Made>, p: nat): Option<PoolInfo> {
    if made == [] then None
    else if made[|made| - 1].pool == p then Some(made[|made| - 1].info)
    else LastInfo(made[..|made| - 1], p)
  }

  function SetUps(made: seq<Made>, p: nat): nat {
    if made == [] then 0 else SetUps(made[..|made| - 1], p) + (if made[|made| - 1].pool == p then 1 else 0)
  }

  /** The set-up lies inside its block. */
  predicate Inside(m: Made, handed: seq<Block>) {
    && m.pool < NUM_POOLS && m.info.size >= MIN_BLOCK_SIZE && m.block < |handed|
    && handed[m.block].addr == m.info.base && m.info.End() <= handed[m.block].End()
  }

  /** Every set-up has a block of its own among those boot memory handed out. */
  predicate Carved(made: seq<Made>, handed: seq<Block>) {
    && (forall m | 0 <= m < |made| :: Inside(made[m], handed))
    && (forall m, n | 0 <= m < n < |made| :: made[m].block != made[n].block)
  }

  /** What a pool holds and what is out of it are the buffers put into it, each once. */
  predicate Conserved(w: World, p: nat)
    requires p < |w.c.queues| && p < |w.out|
  {
    multiset(w.c.queues[p]) + w.out[p] == multiset(MadeBuffers(w.made, p))
  }

  predicate Described(w: World, p: nat)
    requires p < |w.c.info|
  {
    var last := LastInfo(w.made, p);
    last.Some? ==> w.c.info[p] == last.value
  }

  ghost predicate Inv(w: World, k: nat, l0: seq<Block>) {
    && w.Shaped() && Partition(w.c.boot, k, l0) && Carved(w.made, w.c.boot.handed)
    && (forall p | 0 <= p < NUM_POOLS :: Conserved(w, p) && Described(w, p))
  }

  // ---------------------------------------------------------------- every event keeps it

  lemma CarvedGrows(made: seq<Made>, handed: seq<Block>, handed': seq<Block>)
    requires Carved(made, handed) && handed <= handed'
    ensures Carved(made, handed')
  {
    hide PoolInfo.End;
    forall m | 0 <= m < |made| ensures Inside(made[m], handed') {
      assert Inside(made[m], handed) && handed'[..|handed|][made[m].block] == handed[made[m].block];
    }
  }

  lemma CarvedMore(made: seq<Made>, handed: seq<Block>, m: Made, b: Block)
    requires Carved(made, handed) && m.block == |handed| && Inside(m, handed + [b])
    ensures Carved(made + [m], handed + [b])
  {
    CarvedGrows(made, handed, handed + [b]);
    hide PoolInfo.End;
    var all := made + [m];
    forall i, j | 0 <= i < j < |all| ensures all[i].block != all[j].block {
      if j == |made| {
        assert Inside(made[i], handed);
      }
    }
  }

  /** No operation of boot memory takes a pool's block away. */
  lemma BootKeeps(w: World, k: nat, l0: seq<Block>, op: Op)
    requires Inv(w, k, l0) && op.Legal()
    ensures Inv(Next(w, k, Boot(op)), k, l0)
  {
    assert Sorted(w.c.boot.free);
    StepKeeps(w.c.boot, k, l0, op);
    HandedGrows(w.c.boot, k, op);
    CarvedGrows(w.made, w.c.boot.handed, Step(w.c.boot, k, op).1.handed);
    PartitionSorted(Step(w.c.boot, k, op).1, k, l0);
    var w' := Next(w, k, Boot(op));
    hide Partition, Carved, Step, Sorted, MadeBuffers, LastInfo;
    forall p | 0 <= p < NUM_POOLS ensures Conserved(w', p) && Described(w', p) {
      assert Conserved(w, p) && Described(w, p);
    }
  }

  lemma RoundedUp(n: nat)
    ensures n <= RoundUp(n, 16)
  {
  }

  /** A set-up that fills its pool gets a block of its own; any other leaves the pools alone. */
  lemma FillCases(c: Carving, k: nat, l0: seq<Block>, q: PoolRequest)
    requires c.Valid() && q.Fits() && Partition(c.boot, k, l0)
    ensures var c' := InitPool(c, k, q).1;
            && c'.Valid() && Partition(c'.boot, k, l0) && c.boot.handed <= c'.boot.handed
            && (!Fills(c, k, q) ==> c'.info == c.info && c'.queues == c.queues)
            && (Fills(c, k, q) ==>
                  && 0 <= q.pool < NUM_POOLS && q.BlockSize() >= MIN_BLOCK_SIZE && q.Bytes() == q.BlockSize() * q.Count() && c.queues[q.pool] == []
                  && c'.info == c.info[q.pool := c'.info[q.pool]]
                  && c'.info[q.pool].size == q.BlockSize() && c'.info[q.pool].count == q.Count()
                  && c'.queues == c.queues[q.pool := Buffers(c'.info[q.pool].base, q.BlockSize(), q.Count())]
                  && c'.boot.handed == c.boot.handed + [Block(c'.info[q.pool].base, RoundUp(q.Bytes(), 16))])
  {
    BytesSmall(q);
    ClaimFacts(c, k, l0, q);
    InitKeepsValid(c, k, q);
    hide Partition, Step, RoundUp, Sorted, PowerOfTwo, Buffers;
  }

  lemma SetUpCarves(w: World, k: nat, l0: seq<Block>, q: PoolRequest)
    requires Inv(w, k, l0) && q.Fits()
    ensures Carved(Next(w, k, SetUp(q)).made, InitPool(w.c, k, q).1.boot.handed)
  {
    hide Partition, Step, RoundUp, Sorted, Fills, InitPool;
    hide Buffers, Carved, Conserved, Described, PoolRequest.Fits, PoolRequest.Bytes;
    FillCases(w.c, k, l0, q);
    RoundedUp(q.Bytes());
    var c', h := InitPool(w.c, k, q).1, w.c.boot.handed;
    if Fills(w.c, k, q) {
      var info := c'.info[q.pool];
      CarvedMore(w.made, h, Made(q.pool, info, |h|), Block(info.base, RoundUp(q.Bytes(), 16)));
    } else {
      CarvedGrows(w.made, h, c'.boot.handed);
    }
  }

  lemma SetUpConserves(w: World, k: nat, l0: seq<Block>, q: PoolRequest, p: nat)
    requires Inv(w, k, l0) && q.Fits() && p < NUM_POOLS
    ensures Next(w, k, SetUp(q)).Shaped()
    ensures Conserved(Next(w, k, SetUp(q)), p) && Described(Next(w, k, SetUp(q)), p)
  {
    hide Partition, Step, RoundUp, Sorted, Fills;
    hide InitPool, Buffers, Carved, PoolInfo.End, PoolRequest.Fits, PoolRequest.Bytes;
    FillCases(w.c, k, l0, q);
    assert Conserved(w, p) && Described(w, p);
    if Fills(w.c, k, q) {
      assert Next(w, k, SetUp(q)).made[..|w.made|] == w.made;
    }
  }

  lemma SetUpKeeps(w: World, k: nat, l0: seq<Block>, q: PoolRequest)
    requires Inv(w, k, l0) && q.Fits()
    ensures Inv(Next(w, k, SetUp(q)), k, l0)
  {
    hide Partition, Step, Sorted, Fills, InitPool, Carved, Conserved, Described, PoolRequest.Fits, PoolRequest.Bytes;
    FillCases(w.c, k, l0, q);
    SetUpCarves(w, k, l0, q);
    forall p | 0 <= p < NUM_POOLS
      ensures Conserved(Next(w, k, SetUp(q)), p) && Described(Next(w, k, SetUp(q)), p)
    {
      SetUpConserves(w, k, l0, q, p);
    }
  }

  lemma TakeKeeps(w: World, k: nat, l0: seq<Block>, p: nat, at: nat)
    requires Inv(w, k, l0) && Enabled(w, Take(p, at))
    ensures Inv(Next(w, k, Take(p, at)), k, l0)
  {
    hide Partition, Carved, Sorted, MadeBuffers, LastInfo;
    var w', q := Next(w, k, Take(p, at)), w.c.queues[p];
    assert q == q[..at] + [q[at]] + q[at + 1..];
    forall r | 0 <= r < NUM_POOLS ensures Conserved(w', r) && Described(w', r) {
      assert Conserved(w, r) && Described(w, r);
    }
  }

  lemma GiveKeeps(w: World, k: nat, l0: seq<Block>, p: nat, a: nat)
    requires Inv(w, k, l0) && Enabled(w, Give(p, a))
    ensures Inv(Next(w, k, Give(p, a)), k, l0)
  {
    hide Partition, Carved, Sorted, MadeBuffers, LastInfo;
    var w' := Next(w, k, Give(p, a));
    forall r | 0 <= r < NUM_POOLS ensures Conserved(w', r) && Described(w', r) {
      assert Conserved(w, r) && Described(w, r);
    }
  }

  lemma EventKeeps(w: World, k: nat, l0: seq<Block>, e: Event)
    requires Inv(w, k, l0) && Enabled(w, e)
    ensures Inv(Next(w, k, e), k, l0)
  {
    hide Inv, Next;
    match e
    case SetUp(q) => SetUpKeeps(w, k, l0, q);
    case Boot(op) => BootKeeps(w, k, l0, op);
    case Take(p, at) => TakeKeeps(w, k, l0, p, at);
    case Give(p, a) => GiveKeeps(w, k, l0, p, a);
  }

  // ---------------------------------------------------------------- buffers in memory

  function BufferStart(info: PoolInfo, i: nat): nat { info.base + info.size * i }

  predicate Overlap(a: nat, n: nat, b: nat, m: nat) { a < b + m && b < a + n }

  lemma BufferInside(info: PoolInfo, i: nat)
    requires i < info.count
    ensures info.base <= BufferStart(info, i) && BufferStart(info, i) + info.size <= info.End()
  {
    assert (info.count - i) * info.size == info.count * info.size - i * info.size;
    MulBounds(info.count - i, info.size);
    assert info.size * i >= 0;
  }

  lemma BuffersApart(info: PoolInfo, i: nat, j: nat)
    requires i != j
    ensures !Overlap(BufferStart(info, i), info.size, BufferStart(info, j), info.size)
  {
    assert (i - j) * info.size == info.size * i - info.size * j;
    MulBounds(i - j, info.size);
  }

  /** Buffer `i` of set-up `m` and buffer `j` of set-up `n` do not overlap, unless they are the same. */
  predicate BuffersDisjoint(made: seq<Made>, m: int, i: nat, n: int, j: nat) {
    0 <= m < |made| && 0 <= n < |made| && i < made[m].info.count && j < made[n].info.count && (m != n || i != j) ==>
      !Overlap(BufferStart(made[m].info, i), made[m].info.size, BufferStart(made[n].info, j), made[n].info.size)
  }

  lemma MadeDisjoint(w: World, k: nat, l0: seq<Block>, m: int, i: nat, n: int, j: nat)
    requires Inv(w, k, l0)
    ensures BuffersDisjoint(w.made, m, i, n, j)
  {
    if 0 <= m < |w.made| && 0 <= n < |w.made| && i < w.made[m].info.count && j < w.made[n].info.count && (m != n || i != j) {
      var x, y := w.made[m], w.made[n];
      BufferInside(x.info, i);
      BufferInside(y.info, j);
      assert Inside(x, w.c.boot.handed) && Inside(y, w.c.boot.handed);
      if m == n {
        BuffersApart(x.info, i, j);
      } else {
        assert x.block != y.block by { if m < n {} else {} }
        BlocksDisjoint(w.c.boot, k, l0, x.block, y.block);
        hide Partition, Carved, PoolInfo.End, BufferStart;
      }
    }
  }

  lemma BlocksDisjoint(s: State, k: nat, l0: seq<Block>, x: nat, y: nat)
    requires Partition(s, k, l0) && x < |s.handed| && y < |s.handed| && x != y
    ensures Disjoint(s.handed[x], s.handed[y])
  {
    assert Disjoint(s.handed[x], s.handed[y]) || Disjoint(s.handed[y], s.handed[x]) by {
      if x < y {} else {}
    }
  }

  /** A byte of a buffer belongs to the initial memory, and is neither free nor part of a named block. */
  predicate Reserved(w: World, l0: seq<Block>, m: int, i: nat, y: int) {
    0 <= m < |w.made| && i < w.made[m].info.count
    && BufferStart(w.made[m].info, i) <= y < BufferStart(w.made[m].info, i) + w.made[m].info.size ==>
      Has(l0, y) && !Has(w.c.boot.free, y) && !HeldNamed(w.c.boot.named, y)
  }

  lemma HandedBytes(s: State, k: nat, l0: seq<Block>, x: nat, y: int)
    requires Partition(s, k, l0) && x < |s.handed| && s.handed[x].Holds(y)
    ensures Has(l0, y) && !Has(s.free, y) && !HeldNamed(s.named, y)
  {
    var b := s.handed[x];
    assert b.Good() && Clear(s.free, b.addr, b.size);
    assert Has(s.handed, y);
    ClearBytes(s.free, b.addr, b.size, y);
    assert forall j | 0 <= j < |s.named| && s.named[j].Live() :: Disjoint(b, s.named[j].Span());
  }

  lemma MadeReserved(w: World, k: nat, l0: seq<Block>, m: int, i: nat, y: int)
    requires Inv(w, k, l0)
    ensures Reserved(w, l0, m, i, y)
  {
    if 0 <= m < |w.made| && i < w.made[m].info.count
       && BufferStart(w.made[m].info, i) <= y < BufferStart(w.made[m].info, i) + w.made[m].info.size {
      BufferInside(w.made[m].info, i);
      assert Inside(w.made[m], w.c.boot.handed);
      hide Partition, PoolInfo.End, BufferStart;
      HandedBytes(w.c.boot, k, l0, w.made[m].block, y);
    }
  }

  // ---------------------------------------------------------------- every run

  /** The events happen in turn and lead from `w` to `w'`. */
  ghost predicate Reaches(w: World, k: nat, events: seq<Event>, w': World)
    decreases |events|
  {
    if events == [] then w' == w
    else w.Shaped() && Enabled(w, events[0]) && Reaches(Next(w, k, events[0]), k, events[1..], w')
  }

  /** Nothing set up, nothing in the pools, nothing out. */
  ghost predicate Fresh(w: World) {
    && w.Shaped() && w.made == []
    && forall p | 0 <= p < NUM_POOLS :: w.c.queues[p] == [] && w.out[p] == multiset{}
  }

  lemma {:induction false} RunKeeps(w: World, k: nat, l0: seq<Block>, events: seq<Event>, w': World)
    requires Inv(w, k, l0) && Reaches(w, k, events, w')
    ensures Inv(w', k, l0)
    decreases |events|
  {
    hide Inv, Next, Enabled;
    if events != [] {
      EventKeeps(w, k, l0, events[0]);
      RunKeeps(Next(w, k, events[0]), k, l0, events[1..], w');
    }
  }

  lemma FreshInv(w: World, k: nat, l0: seq<Block>)
    requires Fresh(w) && Partition(w.c.boot, k, l0)
    ensures Inv(w, k, l0)
  {
    hide Partition, Sorted;
    forall p | 0 <= p < NUM_POOLS ensures Conserved(w, p) && Described(w, p) {
      assert w.c.queues[p] == [] && w.out[p] == multiset{};
    }
  }

  /**
   In every run from empty pools: no two buffers ever made overlap, each lies in the initial memory
   and is neither free nor part of a named block, and each is in its pool or out of it, once.
   */
  lemma PoolsInEveryRun(w: World, k: nat, l0: seq<Block>, events: seq<Event>, w': World)
    requires Fresh(w) && Partition(w.c.boot, k, l0) && Reaches(w, k, events, w')
    ensures forall m, i: nat, n, j: nat :: BuffersDisjoint(w'.made, m, i, n, j)
    ensures forall m, i: nat, y :: Reserved(w', l0, m, i, y)
    ensures w'.Shaped() && forall p | 0 <= p < NUM_POOLS :: Conserved(w', p)
  {
    FreshInv(w, k, l0);
    RunKeeps(w, k, l0, events, w');
    forall m, i: nat, n, j: nat ensures BuffersDisjoint(w'.made, m, i, n, j) {
      MadeDisjoint(w', k, l0, m, i, n, j);
    }
    forall m, i: nat, y ensures Reserved(w', l0, m, i, y) {
      MadeReserved(w', k, l0, m, i, y);
    }
  }

  // ---------------------------------------------------------------- shutdown at the end of a run

  lemma {:induction false} OneSetUp(made: seq<Made>, p: nat)
    ensures SetUps(made, p) == 0 ==> MadeBuffers(made, p) == []
    ensures SetUps(made, p) == 1 ==>
              exists m :: 0 <= m < |made| && LastInfo(made, p) == Some(made[m].info)
                          && MadeBuffers(made, p) == Buffers(made[m].info.base, made[m].info.size, made[m].info.count)
    decreases |made|
  {
    if made != [] {
      var front := made[..|made| - 1];
      OneSetUp(front, p);
      hide Buffers;
      if SetUps(made, p) == 1 {
        if made[|made| - 1].pool == p {
          assert MadeBuffers(front, p) == [];
        } else {
          var m :| 0 <= m < |front| && LastInfo(front, p) == Some(front[m].info)
                   && MadeBuffers(front, p) == Buffers(front[m].info.base, front[m].info.size, front[m].info.count);
          assert made[m] == front[m];
        }
      }
    }
  }

  lemma MadeCount(m: Made, handed: seq<Block>)
    requires Inside(m, handed) && handed[m.block].Good()
    ensures m.info.count < TWO64
  {
    assert (m.info.size - 1) * m.info.count == m.info.size * m.info.count - m.info.count;
    MulBounds(m.info.size - 1, m.info.count);
  }

  /** A pool that holds all buffers of its description but those in `out`. */
  lemma ShutdownMissing(p: nat, info: PoolInfo, q: seq<nat>, out: multiset<nat>)
    requires 0 < info.size && info.count < TWO64
    requires multiset(q) + out == multiset(Buffers(info.base, info.size, info.count))
    ensures ShutdownResult(p, info, q) == if |out| <= Tolerance(p) then 0 else |out|
  {
    var all := Buffers(info.base, info.size, info.count);
    BuffersLength(info.base, info.size, info.count);
    hide Buffers, LegalCount;
    assert |multiset(q)| + |out| == |multiset(all)|;
    forall a | a in q ensures a in all {
      assert a in multiset(q) + out;
    }
    AllLegal(info, q);
  }

  lemma OneSetUpHolds(w: World, k: nat, l0: seq<Block>, p: nat)
    requires Inv(w, k, l0) && p < NUM_POOLS && SetUps(w.made, p) == 1
    ensures w.Shaped()
    ensures var info := w.c.info[p];
            && 0 < info.size && info.count < TWO64
            && multiset(w.c.queues[p]) + w.out[p] == multiset(Buffers(info.base, info.size, info.count))
  {
    OneSetUp(w.made, p);
    assert Conserved(w, p) && Described(w, p);
    hide Buffers, LastInfo, MadeBuffers, SetUps;
    var m :| 0 <= m < |w.made| && LastInfo(w.made, p) == Some(w.made[m].info)
             && MadeBuffers(w.made, p) == Buffers(w.made[m].info.base, w.made[m].info.size, w.made[m].info.count);
    assert Inside(w.made[m], w.c.boot.handed) && w.c.boot.handed[w.made[m].block].Good();
    hide Partition, Carved, Inside;
    MadeCount(w.made[m], w.c.boot.handed);
  }

  /** After any run, shutting down a pool that was set up once returns the number of its buffers still out, less what is tolerated. */
  lemma ShutdownAfterRun(w: World, k: nat, l0: seq<Block>, events: seq<Event>, w': World, p: nat)
    requires Fresh(w) && Partition(w.c.boot, k, l0) && Reaches(w, k, events, w')
    requires p < NUM_POOLS && SetUps(w'.made, p) == 1
    ensures w'.Shaped()
    ensures ShutdownResult(p, w'.c.info[p], w'.c.queues[p]) == if |w'.out[p]| <= Tolerance(p) then 0 else |w'.out[p]|
  {
    FreshInv(w, k, l0);
    RunKeeps(w, k, l0, events, w');
    OneSetUpHolds(w', k, l0, p);
    hide Inv, Partition, Buffers, ShutdownResult;
    ShutdownMissing(p, w'.c.info[p], w'.c.queues[p], w'.out[p]);
  }

  // ---------------------------------------------------------------- the pools set up by the helper

  /** The pool is empty, or holds all buffers of one set-up under its description. */
  ghost predicate Filled(w: World, p: nat) {
    && p < |w.c.queues| && p < |w.c.info|
    && (w.c.queues[p] == [] || exists m :: FilledBy(w, p, m))
  }

  predicate FilledBy(w: World, p: nat, m: nat)
    requires p < |w.c.queues| && p < |w.c.info|
  {
    && m < |w.made| && w.made[m].pool == p && w.made[m].info == w.c.info[p]
    && w.c.queues[p] == Buffers(w.c.info[p].base, w.c.info[p].size, w.c.info[p].count)
  }

  ghost predicate AllFilled(w: World) { forall p | 0 <= p < NUM_POOLS :: Filled(w, p) }

  lemma SetUpFills(w: World, k: nat, l0: seq<Block>, q: PoolRequest)
    requires Inv(w, k, l0) && q.Fits() && AllFilled(w)
    ensures AllFilled(Next(w, k, SetUp(q)))
  {
    var w' := Next(w, k, SetUp(q));
    hide Partition, Carved, Sorted, Fills, InitPool, Buffers, RoundUp, PoolInfo.End, PoolRequest.Fits, PoolRequest.Bytes;
    FillCases(w.c, k, l0, q);
    forall p | 0 <= p < NUM_POOLS ensures Filled(w', p) {
      assert Filled(w, p);
      if Fills(w.c, k, q) && p == q.pool {
        assert FilledBy(w', p, |w.made|);
      } else if w.c.queues[p] != [] {
        var m :| FilledBy(w, p, m);
        assert FilledBy(w', p, m);
      }
    }
  }

  /** The set-ups of one initialization are a run of set-up events. */
  lemma {:induction false} InitPoolsIsRun(w: World, k: nat, l0: seq<Block>, requests: seq<PoolRequest>) returns (events: seq<Event>, w': World)
    requires Inv(w, k, l0) && AllFit(requests) && AllFilled(w)
    ensures Reaches(w, k, events, w') && w'.c == InitPools(w.c, k, requests).1
    ensures Inv(w', k, l0) && AllFilled(w')
    decreases |requests|
  {
    if requests == [] {
      events, w' := [], w;
    } else {
      var q, rest := requests[0], requests[1..];
      assert [q] + rest == requests;
      InitPoolsStep(w.c, k, q, rest);
      SetUpKeeps(w, k, l0, q);
      SetUpFills(w, k, l0, q);
      var next := Next(w, k, SetUp(q));
      hide Inv, InitPool, InitPools, AllFilled, AllFit;
      if InitPool(w.c, k, q).0 != 0 {
        events, w' := [SetUp(q)], next;
        assert events[1..] == [];
      } else {
        var later;
        later, w' := InitPoolsIsRun(next, k, l0, rest);
        events := [SetUp(q)] + later;
        assert events[1..] == later;
      }
    }
  }

  /** Entry `i` of pool `p` and entry `j` of pool `q` are different buffers and do not overlap. */
  predicate EntriesApart(c: Carving, p: int, i: int, q: int, j: int)
    requires |c.queues| == NUM_POOLS && |c.info| == NUM_POOLS
  {
    0 <= p < NUM_POOLS && 0 <= q < NUM_POOLS && 0 <= i < |c.queues[p]| && 0 <= j < |c.queues[q]| && (p != q || i != j) ==>
      !Overlap(c.queues[p][i], c.info[p].size, c.queues[q][j], c.info[q].size)
  }

  /** A byte of entry `i` of pool `p` is initial memory, neither free nor named. */
  predicate EntryReserved(c: Carving, l0: seq<Block>, p: int, i: int, y: int)
    requires |c.queues| == NUM_POOLS && |c.info| == NUM_POOLS
  {
    0 <= p < NUM_POOLS && 0 <= i < |c.queues[p]| && c.queues[p][i] <= y < c.queues[p][i] + c.info[p].size ==>
      Has(l0, y) && !Has(c.boot.free, y) && !HeldNamed(c.boot.named, y)
  }

  lemma FilledEntry(w: World, p: nat, i: nat) returns (m: nat)
    requires Filled(w, p) && i < |w.c.queues[p]|
    ensures FilledBy(w, p, m) && i < w.made[m].info.count && w.c.queues[p][i] == BufferStart(w.made[m].info, i)
  {
    m :| FilledBy(w, p, m);
    var info := w.c.info[p];
    BuffersLength(info.base, info.size, info.count);
    BufferAt(info.base, info.size, info.count, i);
  }

  predicate EmptyPool(c: Carving, p: int)
    requires |c.queues| == NUM_POOLS
  {
    0 <= p < NUM_POOLS && c.queues[p] == []
  }

  /** `c` and `d` differ at most in the pools of `busy`, which are not empty in `c`. */
  predicate Alike(c: Carving, d: Carving, busy: set<int>)
    requires |c.queues| == NUM_POOLS && |c.info| == NUM_POOLS && |d.queues| == NUM_POOLS && |d.info| == NUM_POOLS
  {
    && c.boot == d.boot
    && forall p | 0 <= p < NUM_POOLS :: if p in busy then c.queues[p] != [] else c.queues[p] == d.queues[p] && c.info[p] == d.info[p]
  }

  /** The requests that are not for a busy pool. */
  function Others(requests: seq<PoolRequest>, busy: set<int>): (r: seq<PoolRequest>)
    ensures AllFit(requests) ==> AllFit(r)
  {
    if requests == [] then []
    else
      assert forall i | 0 <= i < |requests[1..]| :: requests[1..][i] == requests[i + 1];
      (if requests[0].pool in busy then [] else [requests[0]]) + Others(requests[1..], busy)
  }

  lemma InitPoolAlike(c: Carving, d: Carving, k: nat, q: PoolRequest, busy: set<int>)
    requires c.Valid() && d.Valid() && q.Fits() && Alike(c, d, busy) && (forall p | p in busy :: 0 <= p)
    ensures InitPool(c, k, q).1.Valid() && InitPool(d, k, q).1.Valid()
    ensures q.pool in busy ==> InitPool(c, k, q) == (0, c)
    ensures q.pool !in busy ==> InitPool(c, k, q).0 == InitPool(d, k, q).0 && Alike(InitPool(c, k, q).1, InitPool(d, k, q).1, busy)
  {
    hide Sorted, Step, Buffers, PoolRequest.Fits;
    InitKeepsValid(c, k, q);
    InitKeepsValid(d, k, q);
    assert q.Fits() ==> q.pool < NUM_POOLS by { FitsPool(q); }
    BytesSmall(q);
  }

  lemma FitsPool(q: PoolRequest)
    requires q.Fits()
    ensures q.pool < NUM_POOLS
  {
  }

  /** Pools that were in use on entry have no influence on the others: requests for them are passed over. */
  lemma {:induction false} InitPoolsAlike(c: Carving, d: Carving, k: nat, requests: seq<PoolRequest>, busy: set<int>)
    requires c.Valid() && d.Valid() && AllFit(requests) && Alike(c, d, busy) && (forall p | p in busy :: 0 <= p)
    ensures var (c', d') := (InitPools(c, k, requests).1, InitPools(d, k, Others(requests, busy)).1);
            c'.Valid() && d'.Valid() && Alike(c', d', busy)
    decreases |requests|
  {
    if requests != [] {
      var q, rest := requests[0], requests[1..];
      assert [q] + rest == requests;
      assert q.Fits();
      InitPoolsStep(c, k, q, rest);
      InitPoolAlike(c, d, k, q, busy);
      var c1 := InitPool(c, k, q).1;
      if q.pool in busy {
        assert Others(requests, busy) == Others(rest, busy);
        hide InitPool, InitPools, Alike, AllFit, Others;
        InitPoolsAlike(c, d, k, rest, busy);
      } else {
        assert Others(requests, busy) == [q] + Others(rest, busy);
        InitPoolsStep(d, k, q, Others(rest, busy));
        hide InitPool, InitPools, Alike, AllFit, Others;
        if InitPool(c, k, q).0 == 0 {
          InitPoolsAlike(c1, InitPool(d, k, q).1, k, rest, busy);
        }
      }
    }
  }

  /** The same set-ups with every pool empty on entry. */
  lemma EmptiedPoolsDisjoint(c: Carving, k: nat, l0: seq<Block>, requests: seq<PoolRequest>)
    requires c.Valid() && AllFit(requests) && Partition(c.boot, k, l0)
    requires forall p | 0 <= p < NUM_POOLS :: c.queues[p] == []
    ensures var c' := InitPools(c, k, requests).1;
            && c'.Valid() && Partition(c'.boot, k, l0)
            && (forall p, i, q, j :: EntriesApart(c', p, i, q, j))
            && (forall p, i, y :: EntryReserved(c', l0, p, i, y))
  {
    var w := World(c, [], seq(NUM_POOLS, _ => multiset{}));
    FreshInv(w, k, l0);
    assert AllFilled(w);
    var events, w' := InitPoolsIsRun(w, k, l0, requests);
    assert w'.Shaped() && Partition(w'.c.boot, k, l0);
    hide Inv, InitPools, Partition, Filled, FilledBy;
    forall p, i, q, j ensures EntriesApart(w'.c, p, i, q, j) {
      EntriesOfFilled(w', k, l0, p, i, q, j);
    }
    forall p, i, y ensures EntryReserved(w'.c, l0, p, i, y) {
      EntryOfFilled(w', k, l0, p, i, y);
    }
  }

  /** From `c` to `d`: the buffers in all pools that were empty are apart from one another and from the rest of memory. */
  ghost predicate SetUpApart(c: Carving, d: Carving, l0: seq<Block>) {
    && |c.queues| == NUM_POOLS && |d.queues| == NUM_POOLS && |d.info| == NUM_POOLS
    && (forall p, i, q, j | EmptyPool(c, p) && EmptyPool(c, q) :: EntriesApart(d, p, i, q, j))
    && (forall p, i, y | EmptyPool(c, p) :: EntryReserved(d, l0, p, i, y))
  }

  /** The helper's set-ups leave the buffers so, also when one fails. */
  lemma InitializedPoolsDisjoint(c: Carving, k: nat, l0: seq<Block>, requests: seq<PoolRequest>)
    requires c.Valid() && AllFit(requests) && Partition(c.boot, k, l0)
    ensures var c' := InitPools(c, k, requests).1;
            c'.Valid() && Partition(c'.boot, k, l0) && SetUpApart(c, c', l0)
  {
    var busy := set p | 0 <= p < NUM_POOLS && c.queues[p] != [];
    var d := c.(queues := seq(NUM_POOLS, _ => []));
    assert Alike(c, d, busy);
    InitPoolsAlike(c, d, k, requests, busy);
    EmptiedPoolsDisjoint(d, k, l0, Others(requests, busy));
    var c', d' := InitPools(c, k, requests).1, InitPools(d, k, Others(requests, busy)).1;
    hide InitPools, AllFit, Others, Partition, Sorted, Overlap, Has, HeldNamed;
    forall p, i, q, j | EmptyPool(c, p) && EmptyPool(c, q) ensures EntriesApart(c', p, i, q, j) {
      assert EntriesApart(d', p, i, q, j);
    }
    forall p, i, y | EmptyPool(c, p) ensures EntryReserved(c', l0, p, i, y) {
      assert EntryReserved(d', l0, p, i, y);
    }
  }

  lemma EntriesOfFilled(w: World, k: nat, l0: seq<Block>, p: int, i: int, q: int, j: int)
    requires Inv(w, k, l0) && w.Shaped() && AllFilled(w)
    ensures EntriesApart(w.c, p, i, q, j)
  {
    hide Inv;
    if 0 <= p < NUM_POOLS && 0 <= q < NUM_POOLS && 0 <= i < |w.c.queues[p]| && 0 <= j < |w.c.queues[q]| && (p != q || i != j) {
      assert Filled(w, p) && Filled(w, q);
      hide Filled, Overlap, BufferStart;
      var m := FilledEntry(w, p, i);
      var n := FilledEntry(w, q, j);
      SameFilled(w, p, m, n, j);
      MadeDisjoint(w, k, l0, m, i, if p == q then m else n, j);
      assert BuffersDisjoint(w.made, m, i, if p == q then m else n, j);
    }
  }

  lemma SameFilled(w: World, p: nat, m: nat, n: nat, j: nat)
    requires p < |w.c.queues| && p < |w.c.info| && FilledBy(w, p, m)
    ensures FilledBy(w, p, n) ==> BufferStart(w.made[m].info, j) == BufferStart(w.made[n].info, j)
  {
  }

  lemma EntryOfFilled(w: World, k: nat, l0: seq<Block>, p: int, i: int, y: int)
    requires Inv(w, k, l0) && w.Shaped() && AllFilled(w)
    ensures EntryReserved(w.c, l0, p, i, y)
  {
    hide Inv, Has, HeldNamed, BufferStart;
    if 0 <= p < NUM_POOLS && 0 <= i < |w.c.queues[p]| {
      assert Filled(w, p);
      var m := FilledEntry(w, p, i);
      MadeReserved(w, k, l0, m, i, y);
      assert Reserved(w, l0, m, i, y);
    }
  }
}
