/**
 The pools in place: set-up, draining and the return of a packet's buffers on a class whose
 fields they update, and the helper's initialization on boot memory itself.
 */
module PoolUnit {
  import opened Word64
  import opened AllocMeaning
  import opened FreeList
  import opened NamedBlocks
  import opened BootMemory
  import opened Headers
  import opened Fpa
  import opened PoolRuns

  class Pools {
    var info: seq<PoolInfo>
    /** What each pool holds, in no particular order. */
    var queues: seq<seq<nat>>
    /** Buffer pointers in memory, by the address they are stored at. */
    var memory: nat -> BufPtr

    predicate Valid()
      reads this
    {
      |info| == NUM_POOLS && |queues| == NUM_POOLS
    }

    constructor ()
      ensures Valid() && forall p | 0 <= p < NUM_POOLS :: queues[p] == []
    {
      info := seq(NUM_POOLS, _ => PoolInfo(0, 0, 0));
      queues := seq(NUM_POOLS, _ => []);
      memory := _ => BufPtr(0, 0, 0);
    }

    /** The hardware keeps a free buffer's memory for itself: whatever was in it is lost. */
    method Free(ptr: nat, pool: nat)
      requires Valid() && pool < NUM_POOLS
      modifies this`queues, this`memory
      ensures Valid() && queues == old(queues)[pool := old(queues[pool]) + [ptr]]
      ensures Elsewhere(old(memory), memory, ptr, ptr + info[pool].size)
    {
      queues := queues[pool := queues[pool] + [ptr]];
      var m, size, other: nat -> BufPtr := memory, info[pool].size, _ => BufPtr(0, 0, 0);
      memory := (a: nat) => if ptr <= a < ptr + size then other(a) else m(a);
    }

    /** Any buffer of the pool, or 0 if there is none. */
    method Alloc(pool: nat) returns (address: nat, ghost at: nat)
      requires Valid() && pool < NUM_POOLS
      modifies this`queues
      ensures Valid()
      ensures old(queues[pool]) == [] ==> address == 0 && queues == old(queues)
      ensures old(queues[pool]) != [] ==>
                && at < |old(queues[pool])| && address == old(queues[pool])[at]
                && queues == old(queues)[pool := old(queues[pool])[..at] + old(queues[pool])[at + 1..]]
    {
      at := 0;
      if queues[pool] == [] { return 0, 0; }
      var i: nat :| i < |queues[pool]|;
      address, at := queues[pool][i], i;
      queues := queues[pool := queues[pool][..i] + queues[pool][i + 1..]];
    }

    method SetupPool(pool: nat, buffer: nat, blockSize: nat, numBlocks: nat) returns (r: int)
      requires Valid()
      modifies this
      ensures Valid()
      ensures buffer != 0 && pool < 8 && blockSize >= 128 && buffer % 128 == 0 ==>
                && r == 0 && info == old(info)[pool := PoolInfo(buffer, blockSize, numBlocks)]
                && queues == old(queues)[pool := old(queues[pool]) + Buffers(buffer, blockSize, numBlocks)]
      ensures !(buffer != 0 && pool < 8 && blockSize >= 128 && buffer % 128 == 0) ==>
                r == -1 && info == old(info) && queues == old(queues) && memory == old(memory)
    {
      if buffer == 0 || pool >= NUM_POOLS || blockSize < MIN_BLOCK_SIZE || buffer % BUFFER_ALIGNMENT != 0 { return -1; }
      info := info[pool := PoolInfo(buffer, blockSize, numBlocks)];
      var ptr, left := buffer, numBlocks;
      ghost var done := 0;
      ghost var q := queues[pool];
      assert q + [] == q;
      while left > 0
        invariant Valid() && left + done == numBlocks && ptr == buffer + blockSize * done
        invariant info == old(info)[pool := PoolInfo(buffer, blockSize, numBlocks)]
        invariant queues == old(queues)[pool := q + Buffers(buffer, blockSize, done)]
        decreases left
      {
        left := left - 1;
        Free(ptr, pool);
        ptr := ptr + blockSize;
        done := done + 1;
        assert blockSize * done == blockSize * (done - 1) + blockSize;
        assert q + Buffers(buffer, blockSize, done) == q + Buffers(buffer, blockSize, done - 1) + [buffer + blockSize * (done - 1)];
      }
      r := 0;
    }

    /** Drain the pool and say what is missing. A free buffer at address 0 would read as the end of the pool. */
    method ShutdownPool(pool: nat) returns (r: u64)
      requires Valid() && pool < NUM_POOLS && 0 !in queues[pool]
      modifies this`queues
      ensures Valid() && queues == old(queues)[pool := []]
      ensures r == ShutdownResult(pool, info[pool], old(queues[pool]))
    {
      var me := info[pool];
      var errors, count: nat := 0, 0;
      var finish := me.base + me.size * me.count;
      var address: nat, at := Alloc(pool);
      ghost var q0 := old(queues[pool]);
      if address != 0 { LegalCountRemove(me, q0, at); }
      while address != 0
        invariant Valid() && info == old(info) && 0 !in queues[pool]
        invariant queues == old(queues)[pool := queues[pool]]
        invariant address == 0 ==> queues[pool] == [] && count + errors == |q0| && count == LegalCount(me, q0)
        invariant address != 0 ==> count + errors + 1 + |queues[pool]| == |q0|
        invariant address != 0 ==> count + (if Legal(me, address) then 1 else 0) + LegalCount(me, queues[pool]) == LegalCount(me, q0)
        decreases |queues[pool]| + (if address != 0 then 1 else 0)
      {
        if address >= me.base && address < finish && (address - me.base) % me.size == 0 {
          count := count + 1;
        } else {
          errors := errors + 1;
        }
        ghost var q := queues[pool];
        address, at := Alloc(pool);
        if address != 0 { LegalCountRemove(me, q, at); }
      }
      var lost := (me.count - count) % TWO64;
      if lost != 0 {
        if pool == 0 && lost <= 96 {
          lost := 0;
        } else if pool == 1 && lost <= 64 {
          lost := 0;
        }
      }
      r := if errors != 0 then -errors % TWO64 else lost;
    }

    /** Walk the chain: the next pointer is read before the buffer that holds it is given back. */
    method FreePacketData(packet: BufPtr, bufs: nat, ghost parts: seq<Part>)
      requires Valid() && bufs == |parts| && Packet(memory, info, packet, parts)
      modifies this`queues, this`memory
      ensures Valid() && queues == Returned(old(queues), parts)
    {
      hide Packet, StartOf, Separate, Elsewhere;
      var pointer, left := packet, bufs;
      ghost var todo := parts;
      while left > 0
        invariant Valid() && left == |todo| && Packet(memory, info, pointer, todo)
        invariant Returned(queues, todo) == Returned(old(queues), parts)
        decreases left
      {
        left := left - 1;
        PacketParts(memory, info, pointer, todo);
        var start := StartOf(pointer);
        var next := memory(pointer.addr - 8);
        ghost var before, part, rest := memory, todo[0], todo[1..];
        Free(start, pointer.pool);
        RestKeeps(before, memory, info, part, next, rest);
        pointer, todo := next, rest;
      }
    }

    ghost function With(boot: State): Carving
      reads this
    {
      Carving(info, queues, boot)
    }

    /** cvmx_helper_initialize_fpa_pool. */
    method InitializePool(boot: BootMem, q: PoolRequest) returns (r: int)
      requires Valid() && boot.Sound() && boot.majorVersion <= MAX_BLOCK_VERSION && q.Fits() && q.pool >= 0
      modifies this, boot`mem, boot`head, boot`free, boot`handed
      ensures Valid() && boot.Sound()
      ensures (r, With(boot.Abstract())) == InitPool(old(With(boot.Abstract())), boot.CompareLen(), q)
    {
      ghost var c, k, l0 := With(boot.Abstract()), boot.CompareLen(), boot.initial;
      SoundParts(boot);
      ClaimFacts(c, k, l0, q);
      BytesSmall(q);
      hide Partition, Step, PowerOfTwo, Sorted, Linked, OnlyFree, Buffers, InitPool, BootMem.Sound;
      if q.buffers == 0 || queues[q.pool] != [] {
        Skipped(c, k, q);
        return 0;
      }
      var memory := boot.AllocRange(q.Bytes(), BUFFER_ALIGNMENT, 0, 0);
      InitPoolCases(c, k, l0, q, memory, boot.Abstract());
      if memory == 0 { return -1; }
      var ignored := SetupPool(q.pool, memory, q.BlockSize(), q.Count());
      assert [] + Buffers(memory, q.BlockSize(), q.Count()) == Buffers(memory, q.BlockSize(), q.Count());
      r := 0;
    }

    lemma SoundParts(boot: BootMem)
      requires Valid() && boot.Sound()
      ensures With(boot.Abstract()).Valid() && Partition(boot.Abstract(), boot.CompareLen(), boot.initial)
    {
    }

    /** A negative pool number means that the pool is not wanted. */
    method InitializeIfWanted(boot: BootMem, q: PoolRequest) returns (r: int)
      requires Valid() && boot.Sound() && boot.majorVersion <= MAX_BLOCK_VERSION && q.Fits()
      modifies this, boot`mem, boot`head, boot`free, boot`handed
      ensures Valid() && boot.Sound() && old(With(boot.Abstract())).Valid() && With(boot.Abstract()).Valid()
      ensures (r, With(boot.Abstract())) == InitPool(old(With(boot.Abstract())), boot.CompareLen(), q)
    {
      SoundParts(boot);
      ghost var k, c := boot.CompareLen(), With(boot.Abstract());
      hide InitPool, Partition, Sorted, Linked, BootMem.Sound;
      if q.pool < 0 {
        Skipped(c, k, q);
        return 0;
      }
      r := InitializePool(boot, q);
      SoundParts(boot);
    }

    /** cvmx_helper_initialize_fpa_internal: packet, work queue, output, timer and DFA pools in turn. */
    method InitializeAll(boot: BootMem, pip: PoolRequest, wqe: PoolRequest, pko: PoolRequest, tim: PoolRequest, dfa: PoolRequest)
        returns (r: int)
      requires Valid() && boot.Sound() && boot.majorVersion <= MAX_BLOCK_VERSION
      requires pip.Fits() && wqe.Fits() && pko.Fits() && tim.Fits() && dfa.Fits()
      modifies this, boot`mem, boot`head, boot`free, boot`handed
      ensures Valid() && boot.Sound() && old(With(boot.Abstract())).Valid()
      ensures (r, With(boot.Abstract())) == InitPools(old(With(boot.Abstract())), boot.CompareLen(), [pip, wqe, pko, tim, dfa])
      ensures SetUpApart(old(With(boot.Abstract())), With(boot.Abstract()), boot.initial)
    {
      hide InitPool, InitPools, AllFit, Partition, Sorted;
      hide Linked, BootMem.Sound, BootMem.Valid, PoolRequest.Fits, Carving.Valid, SetUpApart;
      SoundParts(boot);
      ghost var k := boot.CompareLen();
      FiveFit(pip, wqe, pko, tim, dfa);
      InitializedPoolsDisjoint(With(boot.Abstract()), k, boot.initial, [pip, wqe, pko, tim, dfa]);
      assert [pip] + [wqe, pko, tim, dfa] == [pip, wqe, pko, tim, dfa];
      InitPoolsStep(With(boot.Abstract()), k, pip, [wqe, pko, tim, dfa]);
      r := InitializeIfWanted(boot, pip);
      if r != 0 { return; }
      assert [wqe] + [pko, tim, dfa] == [wqe, pko, tim, dfa];
      InitPoolsStep(With(boot.Abstract()), k, wqe, [pko, tim, dfa]);
      r := InitializeIfWanted(boot, wqe);
      if r != 0 { return; }
      assert [pko] + [tim, dfa] == [pko, tim, dfa];
      InitPoolsStep(With(boot.Abstract()), k, pko, [tim, dfa]);
      r := InitializeIfWanted(boot, pko);
      if r != 0 { return; }
      assert [tim] + [dfa] == [tim, dfa];
      InitPoolsStep(With(boot.Abstract()), k, tim, [dfa]);
      r := InitializeIfWanted(boot, tim);
      if r != 0 { return; }
      assert [dfa] + [] == [dfa];
      InitPoolsStep(With(boot.Abstract()), k, dfa, []);
      r := InitializeIfWanted(boot, dfa);
      if r != 0 { return; }
      NoMorePools(With(boot.Abstract()), k);
    }

    static lemma FiveFit(a: PoolRequest, b: PoolRequest, c: PoolRequest, d: PoolRequest, e: PoolRequest)
      requires a.Fits() && b.Fits() && c.Fits() && d.Fits() && e.Fits()
      ensures AllFit([a, b, c, d, e])
    {
      hide PoolRequest.Fits;
    }

    static lemma NoMorePools(c: Carving, k: nat)
      requires c.Valid()
      ensures InitPools(c, k, []) == (0, c)
    {
    }
  }
}
