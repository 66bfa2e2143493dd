/**
 The start-up of a Linux application in cvmx-app-init-linux.c: the first process forks one child
 for each further CPU of its affinity mask, every process adds its bit to the core mask, and all
 wait until a shared counter, updated by LL/SC loops, has come down to zero.
 */
module Startup {
  import opened Bits

  const LOOP_CPUS := 16
  const LONG_BITS := 64

  /** Where a process is in main. Process 0 is the parent; `rest` is its `cpumask`. */
  datatype Pc =
    | Looping(cpu: nat, rest: nat)
    | AddLoading(cpu: nat, rest: nat)
    | AddStoring(cpu: nat, rest: nat, loaded: int)
    | Forking(cpu: nat, rest: nat)
    | Pinning(cpu: nat)
    | Locking(cpu: nat)
    | Reading(cpu: nat)
    | Writing(cpu: nat, read: nat)
    | DecLoading(cpu: nat)
    | DecStoring(cpu: nat, loaded: int)
    | Unlocking(cpu: nat)
    | Spinning(cpu: nat)
    | Passing(cpu: nat)
    | AtBarrier(cpu: nat, mask: nat)
    | Exited(cpu: nat)
  {
    predicate InLoop() { Looping? || AddLoading? || AddStoring? || Forking? }

    /** Its bit is in the core mask. */
    predicate Registered() { DecLoading? || DecStoring? || Unlocking? || Spinning? || Passing? || AtBarrier? }

    /** It has counted itself off. */
    predicate Counted() { Unlocking? || Spinning? || Passing? || AtBarrier? }

    predicate HoldsLock() { Reading? || Writing? || DecLoading? || DecStoring? || Unlocking? }
  }

  /** pending_fork with the processes whose LL reservation on it stands, the core mask, its lock, the processes. */
  datatype Machine = Machine(pending: int, reserved: set<nat>, coreMask: nat, locked: bool, holder: nat, pcs: seq<Pc>)

  datatype Step =
    | Run(process: nat)
    | LoseReservation(process: nat)
    | ForkFails(process: nat)
    | PinFails(process: nat)

  predicate Enabled(m: Machine, step: Step) {
    && step.process < |m.pcs|
    && var pc := m.pcs[step.process];
      match step
      case Run(_) => !pc.Exited? && !pc.AtBarrier? && (pc.Locking? ==> !m.locked)
      case LoseReservation(_) => true
      case ForkFails(_) => pc.Forking?
      case PinFails(_) => pc.Pinning?
  }

  function Goto(m: Machine, p: nat, pc: Pc): Machine
    requires p < |m.pcs|
  {
    m.(pcs := m.pcs[p := pc])
  }

  /** A step of the parent in the loop that forks the children. */
  function RunLoop(m: Machine, p: nat): Machine
    requires p < |m.pcs| && m.pcs[p].InLoop()
  {
    match m.pcs[p]
    case Looping(cpu, rest) =>
      if cpu >= LOOP_CPUS then Goto(m, p, Pinning(cpu))
      else if !Has(rest, cpu) then Goto(m, p, Looping(cpu + 1, rest))
      else
        var others := Xor(rest, Bit(cpu));
        Goto(m, p, if others == 0 then Pinning(cpu) else AddLoading(cpu, others))
    case AddLoading(cpu, rest) => Goto(m.(reserved := m.reserved + {p}), p, AddStoring(cpu, rest, m.pending))
    case AddStoring(cpu, rest, loaded) =>
      if p in m.reserved then Goto(m.(pending := loaded + 1, reserved := {}), p, Forking(cpu, rest))
      else Goto(m, p, AddLoading(cpu, rest))
    case Forking(cpu, rest) => m.(pcs := m.pcs[p := Looping(cpu + 1, rest)] + [Pinning(cpu)])
  }

  /** A step of any process from there on. */
  function RunOn(m: Machine, p: nat): Machine
    requires p < |m.pcs| && !m.pcs[p].InLoop()
  {
    match m.pcs[p]
    case Pinning(cpu) => Goto(m, p, Locking(cpu))
    case Locking(cpu) => Goto(m.(locked := true, holder := p), p, Reading(cpu))
    case Reading(cpu) => Goto(m, p, Writing(cpu, m.coreMask))
    case Writing(cpu, read) => Goto(m.(coreMask := Or(read, Bit(cpu))), p, DecLoading(cpu))
    case DecLoading(cpu) => Goto(m.(reserved := m.reserved + {p}), p, DecStoring(cpu, m.pending))
    case DecStoring(cpu, loaded) =>
      if p in m.reserved then Goto(m.(pending := loaded - 1, reserved := {}), p, Unlocking(cpu))
      else Goto(m, p, DecLoading(cpu))
    case Unlocking(cpu) => Goto(m.(locked := false), p, Spinning(cpu))
    case Spinning(cpu) => if m.pending != 0 then m else Goto(m, p, Passing(cpu))
    case Passing(cpu) => Goto(m, p, AtBarrier(cpu, m.coreMask))
    case _ => m
  }

  function Apply(m: Machine, step: Step): Machine
    requires Enabled(m, step)
  {
    var p := step.process;
    match step
    case Run(_) => if m.pcs[p].InLoop() then RunLoop(m, p) else RunOn(m, p)
    case LoseReservation(_) => m.(reserved := m.reserved - {p})
    case ForkFails(_) => Goto(m, p, Exited(m.pcs[p].cpu))
    case PinFails(_) => Goto(m, p, Exited(m.pcs[p].cpu))
  }

  function Start(affinity: nat): Machine { Machine(1, {}, 0, false, 0, [Looping(0, affinity)]) }

  // ---------------------------------------------------------------- the invariant

  function Uncounted(pcs: seq<Pc>): nat {
    if pcs == [] then 0 else (if pcs[0].Counted() then 0 else 1) + Uncounted(pcs[1..])
  }

  /** The loop ends at the last CPU of the mask if that is below sixteen, and at sixteen otherwise. */
  predicate Covered(affinity: nat) {
    affinity != 0 && forall k: nat | LOOP_CPUS <= k < LONG_BITS :: !Has(affinity, k)
  }

  /** The CPUs that get a process. */
  predicate Expected(affinity: nat, k: nat) {
    if Covered(affinity) then Has(affinity, k) else (k < LOOP_CPUS && Has(affinity, k)) || k == LOOP_CPUS
  }

  predicate IsChild(pcs: seq<Pc>, k: nat) { exists p :: 0 < p < |pcs| && pcs[p].cpu == k }

  predicate IsRegistered(pcs: seq<Pc>, k: nat) { exists p :: 0 <= p < |pcs| && pcs[p].Registered() && pcs[p].cpu == k }

  /** `rest` holds the CPUs still to come; in the middle of an iteration there are some. */
  predicate LoopOk(affinity: nat, pc: Pc)
    requires pc.InLoop()
  {
    && pc.cpu <= LOOP_CPUS && pc.rest < Bit(LONG_BITS) && (affinity != 0 ==> pc.rest != 0)
    && (!pc.Looping? ==> pc.cpu < LOOP_CPUS && Has(affinity, pc.cpu))
    && forall k: nat | k < LONG_BITS :: Has(pc.rest, k) <==> Has(affinity, k) && (k > pc.cpu || (pc.Looping? && k == pc.cpu))
  }

  /** The children are those of the CPUs passed, and in the end those of all expected CPUs but the parent's own. */
  predicate ParentOk(affinity: nat, pcs: seq<Pc>)
    requires |pcs| > 0
  {
    var pc := pcs[0];
    if pc.InLoop() then LoopOk(affinity, pc) && forall k: nat | k < LONG_BITS :: IsChild(pcs, k) <==> Has(affinity, k) && k < pc.cpu
    else if pc.Exited? then true
    else
      && Expected(affinity, pc.cpu) && pc.cpu <= LOOP_CPUS
      && forall k: nat | k < LONG_BITS :: IsChild(pcs, k) <==> Expected(affinity, k) && k != pc.cpu
  }

  predicate ChildrenOk(pcs: seq<Pc>) {
    && (forall p | 0 < p < |pcs| :: !pcs[p].InLoop() && pcs[p].cpu < LOOP_CPUS)
    && (forall p, q | 0 < p < q < |pcs| :: pcs[p].cpu != pcs[q].cpu)
  }

  /** A reservation that stands was made on the counter as it is. */
  predicate ReservationOk(m: Machine, p: int)
    requires 0 <= p < |m.pcs|
  {
    p in m.reserved ==>
      && (m.pcs[p].AddStoring? ==> m.pcs[p].loaded == m.pending)
      && (m.pcs[p].DecStoring? ==> m.pcs[p].loaded == m.pending)
  }

  /** The counter is the number of processes not yet counted off, the one about to be forked included. */
  predicate CountOk(m: Machine) {
    && |m.pcs| > 0 && (forall p | 0 <= p < |m.pcs| :: ReservationOk(m, p))
    && var extra := m.pending - Uncounted(m.pcs);
      if m.pcs[0].Forking? then extra == 1 else if m.pcs[0].Exited? then 0 <= extra <= 1 else extra == 0
  }

  predicate LockOk(m: Machine) {
    && (m.locked ==> m.holder < |m.pcs|)
    && (forall p | 0 <= p < |m.pcs| :: m.pcs[p].HoldsLock() <==> m.locked && p == m.holder)
    && (forall p | 0 <= p < |m.pcs| && m.pcs[p].Writing? :: m.pcs[p].read == m.coreMask)
  }

  predicate MaskOk(m: Machine) {
    m.coreMask < Bit(LONG_BITS) && forall k: nat | k < LONG_BITS :: Has(m.coreMask, k) <==> IsRegistered(m.pcs, k)
  }

  predicate DoneOk(m: Machine) {
    && (forall p | 0 <= p < |m.pcs| && (m.pcs[p].Passing? || m.pcs[p].AtBarrier?) :: m.pending == 0)
    && (forall p | 0 <= p < |m.pcs| && m.pcs[p].AtBarrier? :: m.pcs[p].mask == m.coreMask)
  }

  predicate Inv(affinity: nat, m: Machine) {
    CountOk(m) && ParentOk(affinity, m.pcs) && ChildrenOk(m.pcs) && LockOk(m) && MaskOk(m) && DoneOk(m)
  }

  // ---------------------------------------------------------------- counting

  lemma {:induction false} UncountedUpdate(pcs: seq<Pc>, p: nat, pc: Pc)
    requires p < |pcs|
    ensures Uncounted(pcs[p := pc]) == Uncounted(pcs) - (if pcs[p].Counted() then 0 else 1) + (if pc.Counted() then 0 else 1)
  {
    if p == 0 {
      assert pcs[0 := pc][1..] == pcs[1..];
    } else {
      UncountedUpdate(pcs[1..], p - 1, pc);
      assert pcs[p := pc][1..] == pcs[1..][p - 1 := pc];
    }
  }

  lemma {:induction false} UncountedAppend(pcs: seq<Pc>, pc: Pc)
    ensures Uncounted(pcs + [pc]) == Uncounted(pcs) + (if pc.Counted() then 0 else 1)
  {
    if pcs != [] {
      UncountedAppend(pcs[1..], pc);
      assert (pcs + [pc])[1..] == pcs[1..] + [pc];
    }
  }

  lemma {:induction false} NoneUncounted(pcs: seq<Pc>, p: nat)
    requires Uncounted(pcs) == 0 && p < |pcs|
    ensures pcs[p].Counted()
  {
    if p > 0 { NoneUncounted(pcs[1..], p - 1); }
  }

  // ---------------------------------------------------------------- what zero means

  /** The counter is zero only once the parent has forked every child and every process has registered. */
  lemma ZeroMeansAll(affinity: nat, m: Machine)
    requires Inv(affinity, m) && m.pending == 0
    ensures forall p | 0 <= p < |m.pcs| :: m.pcs[p].Counted()
    ensures forall k: nat | k < LONG_BITS :: Has(m.coreMask, k) <==> Expected(affinity, k)
    ensures forall k: nat | k < LONG_BITS && Expected(affinity, k) :: exists p :: 0 <= p < |m.pcs| && m.pcs[p].cpu == k
  {
    forall p | 0 <= p < |m.pcs| ensures m.pcs[p].Counted() {
      NoneUncounted(m.pcs, p);
    }
    hide Has, Expected, Uncounted;
    assert !m.pcs[0].InLoop() && !m.pcs[0].Exited?;
    forall k: nat | k < LONG_BITS ensures IsRegistered(m.pcs, k) <==> IsChild(m.pcs, k) || k == m.pcs[0].cpu {
    }
    forall k: nat | k < LONG_BITS && Expected(affinity, k) ensures exists p :: 0 <= p < |m.pcs| && m.pcs[p].cpu == k {
      assert IsRegistered(m.pcs, k);
    }
  }

  // ---------------------------------------------------------------- every step keeps the invariant

  /** A mask that is not zero has a bit. */
  lemma SomeBit(mask: nat) returns (k: nat)
    requires 0 < mask < Bit(LONG_BITS)
    ensures k < LONG_BITS && Has(mask, k)
  {
    if forall c: nat | c < LONG_BITS :: !Has(mask, c) {
      forall c: nat | c < LONG_BITS ensures Has(mask, c) == Has(0, c) {
        ZeroHas(c);
      }
      SameBits(mask, 0, LONG_BITS);
      assert false;
    }
    k :| k < LONG_BITS && Has(mask, k);
  }

  lemma ClearBit(rest: nat, cpu: nat)
    requires rest < Bit(LONG_BITS) && cpu < LOOP_CPUS
    ensures Xor(rest, Bit(cpu)) < Bit(LONG_BITS)
    ensures forall k: nat :: Has(Xor(rest, Bit(cpu)), k) <==> Has(rest, k) != (k == cpu)
  {
    BitGrows(cpu, LONG_BITS);
    XorBound(rest, Bit(cpu), LONG_BITS);
    forall k: nat ensures Has(Xor(rest, Bit(cpu)), k) <==> Has(rest, k) != (k == cpu) {
      XorHas(rest, Bit(cpu), k);
      BitHas(cpu, k);
    }
  }

  /** The loop ends at the last CPU of the mask, or behind the sixteenth. */
  lemma LoopEnds(affinity: nat, cpu: nat, rest: nat)
    requires affinity < Bit(LONG_BITS) && LoopOk(affinity, Looping(cpu, rest))
    ensures cpu >= LOOP_CPUS ==> !Covered(affinity)
    ensures cpu < LOOP_CPUS && Has(rest, cpu) && Xor(rest, Bit(cpu)) == 0 ==> Covered(affinity)
  {
    if cpu >= LOOP_CPUS && affinity != 0 {
      var k := SomeBit(rest);
      assert Has(affinity, k);
    } else if cpu < LOOP_CPUS && Has(rest, cpu) && Xor(rest, Bit(cpu)) == 0 {
      ClearBit(rest, cpu);
      assert Has(affinity, cpu);
      forall k: nat | LOOP_CPUS <= k < LONG_BITS ensures !Has(affinity, k) {
        ZeroHas(k);
        assert Has(Xor(rest, Bit(cpu)), k) <==> Has(rest, k);
      }
      ZeroHas(cpu);
    }
  }

  lemma SameChildren(pcs: seq<Pc>, pcs': seq<Pc>)
    requires |pcs'| == |pcs| && forall p | 0 < p < |pcs| :: pcs'[p].cpu == pcs[p].cpu
    ensures forall k :: IsChild(pcs', k) == IsChild(pcs, k)
  {
    forall k ensures IsChild(pcs', k) == IsChild(pcs, k) {
      if p :| 0 < p < |pcs| && pcs[p].cpu == k {
        assert pcs'[p].cpu == k;
      }
    }
  }

  // Processes and their CPUs.

  lemma LoopKeeps(affinity: nat, m: Machine)
    requires affinity < Bit(LONG_BITS) && |m.pcs| > 0 && ParentOk(affinity, m.pcs) && m.pcs[0].Looping?
    ensures ParentOk(affinity, RunLoop(m, 0).pcs)
  {
    hide Covered, Has, Xor, Bit, IsChild;
    var cpu, rest := m.pcs[0].cpu, m.pcs[0].rest;
    LoopEnds(affinity, cpu, rest);
    SameChildren(m.pcs, RunLoop(m, 0).pcs);
    if cpu < LOOP_CPUS && Has(rest, cpu) {
      ClearBit(rest, cpu);
      if Xor(rest, Bit(cpu)) == 0 {
        forall k: nat ensures !Has(0, k) {
          ZeroHas(k);
        }
      }
    }
  }

  lemma ForkKeeps(affinity: nat, m: Machine)
    requires |m.pcs| > 0 && ParentOk(affinity, m.pcs) && ChildrenOk(m.pcs) && m.pcs[0].Forking?
    ensures ParentOk(affinity, RunLoop(m, 0).pcs) && ChildrenOk(RunLoop(m, 0).pcs)
  {
    hide Has, Bit;
    var pcs := RunLoop(m, 0).pcs;
    var cpu, n := m.pcs[0].cpu, |m.pcs|;
    forall k: nat | k < LONG_BITS ensures IsChild(pcs, k) <==> IsChild(m.pcs, k) || k == cpu {
      assert pcs[n].cpu == cpu;
      if p :| 0 < p < n && m.pcs[p].cpu == k {
        assert pcs[p].cpu == k;
      }
    }
    forall p | 0 < p < n ensures m.pcs[p].cpu != cpu {
      assert IsChild(m.pcs, m.pcs[p].cpu);
    }
  }

  lemma AddKeeps(affinity: nat, m: Machine)
    requires |m.pcs| > 0 && ParentOk(affinity, m.pcs) && (m.pcs[0].AddLoading? || m.pcs[0].AddStoring?)
    ensures ParentOk(affinity, RunLoop(m, 0).pcs)
  {
    hide Has, Bit, IsChild;
    SameChildren(m.pcs, RunLoop(m, 0).pcs);
  }

  /** Out of the loop, and on failing, a process keeps its CPU. */
  predicate Stays(m: Machine, m': Machine, p: nat) {
    && p < |m.pcs| == |m'.pcs| && m'.pcs == m.pcs[p := m'.pcs[p]]
    && m'.pcs[p].cpu == m.pcs[p].cpu && !m'.pcs[p].InLoop()
    && (!m'.pcs[p].Exited? ==> !m.pcs[p].InLoop() && !m.pcs[p].Exited?)
  }

  lemma StaysKeeps(affinity: nat, m: Machine, m': Machine, p: nat)
    requires |m.pcs| > 0 && ParentOk(affinity, m.pcs) && ChildrenOk(m.pcs) && Stays(m, m', p)
    ensures ParentOk(affinity, m'.pcs) && ChildrenOk(m'.pcs)
  {
    hide Has, Bit, Expected, IsChild, LoopOk;
    SameChildren(m.pcs, m'.pcs);
  }

  lemma CpusKeep(affinity: nat, m: Machine, step: Step)
    requires affinity < Bit(LONG_BITS) && Inv(affinity, m) && Enabled(m, step)
    ensures ParentOk(affinity, Apply(m, step).pcs) && ChildrenOk(Apply(m, step).pcs)
  {
    hide CountOk, LockOk, MaskOk, DoneOk, ParentOk, Bit, Has;
    var p := step.process;
    var m' := Apply(m, step);
    LoopIsParent(m, step);
    if step.Run? && m.pcs[p].InLoop() {
      if m.pcs[0].Looping? {
        LoopKeeps(affinity, m);
      } else if m.pcs[0].Forking? {
        ForkKeeps(affinity, m);
      } else {
        AddKeeps(affinity, m);
      }
    } else if step.LoseReservation? {
    } else {
      StaysKeeps(affinity, m, m', p);
    }
  }

  lemma LoopIsParent(m: Machine, step: Step)
    requires ChildrenOk(m.pcs) && Enabled(m, step)
    ensures m.pcs[step.process].InLoop() ==> step.process == 0
  {
  }

  // The counter.

  /** A step that neither counts nor forks. */
  lemma CountSame(m: Machine, m': Machine, p: nat)
    requires CountOk(m) && p < |m.pcs| == |m'.pcs| && m'.pcs == m.pcs[p := m'.pcs[p]]
    requires m'.pending == m.pending && m'.reserved <= m.reserved + {p} && ReservationOk(m', p)
    requires m'.pcs[p].Counted() == m.pcs[p].Counted()
    requires m'.pcs[p].Forking? == m.pcs[p].Forking? || m'.pcs[p].Exited?
    requires m.pcs[p].Exited? ==> m'.pcs[p].Exited?
    ensures CountOk(m')
  {
    UncountedUpdate(m.pcs, p, m'.pcs[p]);
    hide Uncounted;
    forall q | 0 <= q < |m'.pcs| ensures ReservationOk(m', q) {
      assert ReservationOk(m, q);
    }
  }

  /** A successful store-conditional: every other reservation is gone. */
  lemma CountStore(m: Machine, m': Machine, p: nat)
    requires CountOk(m) && p < |m.pcs| == |m'.pcs| && m'.pcs == m.pcs[p := m'.pcs[p]] && m'.reserved == {} && p in m.reserved
    requires || (m.pcs[p].AddStoring? && m'.pcs[p].Forking? && p == 0 && m'.pending == m.pcs[p].loaded + 1)
             || (m.pcs[p].DecStoring? && m'.pcs[p].Unlocking? && m'.pending == m.pcs[p].loaded - 1)
    ensures CountOk(m')
  {
    UncountedUpdate(m.pcs, p, m'.pcs[p]);
    hide Uncounted;
    assert ReservationOk(m, p);
  }

  /**
   The LL/SC loops are atomic: one that stores adds one to, or takes one from, the counter as it is at that
   moment, and no other reservation survives it. No other step touches the counter.
   */
  lemma CounterMoves(m: Machine, step: Step)
    requires CountOk(m) && Enabled(m, step)
    ensures var m', before, after := Apply(m, step), m.pcs[step.process], Apply(m, step).pcs[step.process];
            if before.AddStoring? && after.Forking? then m'.pending == m.pending + 1 && m'.reserved == {}
            else if before.DecStoring? && after.Unlocking? then m'.pending == m.pending - 1 && m'.reserved == {}
            else m'.pending == m.pending
  {
    assert ReservationOk(m, step.process);
    hide CountOk, Has, Bit, Xor, Or;
  }

  lemma CountFork(m: Machine)
    requires CountOk(m) && m.pcs[0].Forking?
    ensures CountOk(RunLoop(m, 0))
  {
    var m' := RunLoop(m, 0);
    UncountedUpdate(m.pcs, 0, m'.pcs[0]);
    UncountedAppend(m.pcs[0 := m'.pcs[0]], m'.pcs[|m.pcs|]);
    hide Uncounted;
    forall q | 0 <= q < |m'.pcs| ensures ReservationOk(m', q) {
      assert q < |m.pcs| ==> ReservationOk(m, q);
    }
  }

  lemma CountLoop(m: Machine)
    requires CountOk(m) && m.pcs[0].InLoop()
    ensures CountOk(RunLoop(m, 0))
  {
    assert ReservationOk(m, 0);
    hide CountOk, Has, Bit, Xor;
    if m.pcs[0].Forking? {
      CountFork(m);
    } else if m.pcs[0].AddStoring? && 0 in m.reserved {
      CountStore(m, RunLoop(m, 0), 0);
    } else {
      CountSame(m, RunLoop(m, 0), 0);
    }
  }

  lemma CountOn(m: Machine, p: nat)
    requires CountOk(m) && p < |m.pcs| && !m.pcs[p].InLoop()
    ensures CountOk(RunOn(m, p))
  {
    assert ReservationOk(m, p);
    hide CountOk, Bit, Or;
    if m.pcs[p].DecStoring? && p in m.reserved {
      CountStore(m, RunOn(m, p), p);
    } else {
      CountSame(m, RunOn(m, p), p);
    }
  }

  lemma CountKeeps(affinity: nat, m: Machine, step: Step)
    requires Inv(affinity, m) && Enabled(m, step)
    ensures CountOk(Apply(m, step))
  {
    LoopIsParent(m, step);
    hide LockOk, MaskOk, ParentOk, ChildrenOk, DoneOk, RunOn, RunLoop, Uncounted;
    var p := step.process;
    assert ReservationOk(m, p);
    if step.Run? && m.pcs[p].InLoop() {
      CountLoop(m);
    } else if step.Run? {
      CountOn(m, p);
    } else {
      CountSame(m, Apply(m, step), p);
    }
  }

  // The lock.

  lemma LockSame(m: Machine, m': Machine, p: nat)
    requires LockOk(m) && p < |m.pcs| <= |m'.pcs|
    requires m'.locked == m.locked && m'.holder == m.holder && (m'.coreMask == m.coreMask || m.pcs[p].HoldsLock())
    requires forall q | 0 <= q < |m.pcs| && q != p :: m'.pcs[q] == m.pcs[q]
    requires forall q | |m.pcs| <= q < |m'.pcs| :: !m'.pcs[q].HoldsLock()
    requires m'.pcs[p].HoldsLock() == m.pcs[p].HoldsLock() && (m'.pcs[p].Writing? ==> m'.pcs[p].read == m'.coreMask)
    ensures LockOk(m')
  {
    assert m.pcs[p].HoldsLock() <==> m.locked && p == m.holder;
    forall q | 0 <= q < |m'.pcs| ensures m'.pcs[q].HoldsLock() <==> m'.locked && q == m'.holder {
      assert q < |m.pcs| ==> (m.pcs[q].HoldsLock() <==> m.locked && q == m.holder);
    }
    forall q | 0 <= q < |m'.pcs| && m'.pcs[q].Writing? ensures m'.pcs[q].read == m'.coreMask {
      assert q < |m.pcs| ==> (m.pcs[q].HoldsLock() <==> m.locked && q == m.holder);
    }
  }

  lemma LockTaken(m: Machine, p: nat)
    requires LockOk(m) && p < |m.pcs| && ((m.pcs[p].Locking? && !m.locked) || m.pcs[p].Unlocking?)
    ensures LockOk(RunOn(m, p))
  {
    assert m.pcs[p].HoldsLock() <==> m.locked && p == m.holder;
    forall q | 0 <= q < |m.pcs| && q != p ensures !m.pcs[q].HoldsLock() {
      assert m.pcs[q].HoldsLock() <==> m.locked && q == m.holder;
    }
  }

  lemma LockOn(m: Machine, p: nat)
    requires LockOk(m) && p < |m.pcs| && !m.pcs[p].InLoop() && (m.pcs[p].Locking? ==> !m.locked)
    ensures LockOk(RunOn(m, p))
  {
    hide Bit, Or;
    if m.pcs[p].Locking? || m.pcs[p].Unlocking? {
      LockTaken(m, p);
    } else {
      assert m.pcs[p].Writing? ==> m.pcs[p].read == m.coreMask;
      hide LockOk;
      LockSame(m, RunOn(m, p), p);
    }
  }

  lemma LockLoop(m: Machine, p: nat)
    requires LockOk(m) && p < |m.pcs| && m.pcs[p].InLoop()
    ensures LockOk(RunLoop(m, p))
  {
    hide Has, Bit, Xor, LockOk;
    LockSame(m, RunLoop(m, p), p);
  }

  lemma LockKeeps(affinity: nat, m: Machine, step: Step)
    requires Inv(affinity, m) && Enabled(m, step)
    ensures LockOk(Apply(m, step))
  {
    hide ParentOk, ChildrenOk, CountOk, MaskOk, DoneOk, RunOn, RunLoop;
    var p := step.process;
    if step.Run? && m.pcs[p].InLoop() {
      LockLoop(m, p);
    } else if step.Run? {
      LockOn(m, p);
    } else {
      LockSame(m, Apply(m, step), p);
    }
  }

  // The core mask.

  lemma SetBit(mask: nat, cpu: nat)
    requires mask < Bit(LONG_BITS) && cpu <= LOOP_CPUS
    ensures Or(mask, Bit(cpu)) < Bit(LONG_BITS)
    ensures forall k: nat :: Has(Or(mask, Bit(cpu)), k) <==> Has(mask, k) || k == cpu
  {
    BitGrows(cpu, LONG_BITS);
    OrBound(mask, Bit(cpu), LONG_BITS);
    forall k: nat ensures Has(Or(mask, Bit(cpu)), k) <==> Has(mask, k) || k == cpu {
      OrHas(mask, Bit(cpu), k);
      BitHas(cpu, k);
    }
  }

  /** A step of a process that changes neither the mask nor who is registered. */
  lemma MaskSame(m: Machine, m': Machine, p: nat)
    requires MaskOk(m) && m'.coreMask == m.coreMask && p < |m.pcs| <= |m'.pcs|
    requires forall q | 0 <= q < |m.pcs| && q != p :: m'.pcs[q] == m.pcs[q]
    requires forall q | |m.pcs| <= q < |m'.pcs| :: !m'.pcs[q].Registered()
    requires m'.pcs[p].Registered() == m.pcs[p].Registered() && (m.pcs[p].Registered() ==> m'.pcs[p].cpu == m.pcs[p].cpu)
    ensures MaskOk(m')
  {
    hide Has, Bit;
    forall k ensures IsRegistered(m'.pcs, k) == IsRegistered(m.pcs, k) {
      if q :| 0 <= q < |m.pcs| && m.pcs[q].Registered() && m.pcs[q].cpu == k {
        assert m'.pcs[q].Registered() && m'.pcs[q].cpu == k;
      }
    }
  }

  lemma MaskWritten(m: Machine, p: nat)
    requires MaskOk(m) && p < |m.pcs| && m.pcs[p].Writing? && m.pcs[p].cpu <= LOOP_CPUS && m.pcs[p].read == m.coreMask
    ensures MaskOk(RunOn(m, p))
  {
    var cpu, m' := m.pcs[p].cpu, RunOn(m, p);
    SetBit(m.coreMask, cpu);
    hide Has, Bit, Or;
    assert m'.pcs[p].Registered();
    forall k ensures IsRegistered(m'.pcs, k) <==> IsRegistered(m.pcs, k) || k == cpu {
      if q :| 0 <= q < |m.pcs| && m.pcs[q].Registered() && m.pcs[q].cpu == k {
        assert m'.pcs[q].Registered() && m'.pcs[q].cpu == k;
      }
    }
  }

  lemma CpuBound(affinity: nat, m: Machine, p: nat)
    requires Inv(affinity, m) && p < |m.pcs| && !m.pcs[p].Exited?
    ensures m.pcs[p].cpu <= LOOP_CPUS
  {
    hide CountOk, LockOk, MaskOk, DoneOk, Has, Expected;
  }

  lemma MaskOn(m: Machine, p: nat)
    requires MaskOk(m) && p < |m.pcs| && !m.pcs[p].InLoop() && !m.pcs[p].Writing?
    ensures MaskOk(RunOn(m, p))
  {
    hide MaskOk, Bit, Or;
    MaskSame(m, RunOn(m, p), p);
  }

  lemma MaskLoop(m: Machine, p: nat)
    requires MaskOk(m) && p < |m.pcs| && m.pcs[p].InLoop()
    ensures MaskOk(RunLoop(m, p))
  {
    hide MaskOk, Has, Bit, Xor;
    MaskSame(m, RunLoop(m, p), p);
  }

  lemma MaskKeeps(affinity: nat, m: Machine, step: Step)
    requires Inv(affinity, m) && Enabled(m, step)
    ensures MaskOk(Apply(m, step))
  {
    hide CountOk, ParentOk, ChildrenOk, DoneOk, MaskOk, RunOn, RunLoop;
    var p := step.process;
    if step.Run? && m.pcs[p].Writing? {
      CpuBound(affinity, m, p);
      MaskWritten(m, p);
    } else if step.Run? && m.pcs[p].InLoop() {
      MaskLoop(m, p);
    } else if step.Run? {
      MaskOn(m, p);
    } else {
      hide LockOk;
      MaskSame(m, Apply(m, step), p);
    }
  }

  // Past the counter.

  lemma DoneSame(m: Machine, m': Machine, p: nat)
    requires DoneOk(m) && p < |m.pcs| <= |m'.pcs|
    requires forall q | 0 <= q < |m.pcs| && q != p :: m'.pcs[q] == m.pcs[q]
    requires forall q | |m.pcs| <= q < |m'.pcs| :: m'.pcs[q].Pinning?
    requires m.pending == 0 ==> m'.pending == 0 && m'.coreMask == m.coreMask
    requires m'.pcs[p].Passing? || m'.pcs[p].AtBarrier? ==> m.pending == 0
    requires m'.pcs[p].AtBarrier? ==> m'.pcs[p].mask == m'.coreMask
    ensures DoneOk(m')
  {
  }

  lemma DoneOn(m: Machine, p: nat)
    requires DoneOk(m) && p < |m.pcs| && !m.pcs[p].InLoop() && (m.pending == 0 ==> m.pcs[p].Counted())
    ensures DoneOk(RunOn(m, p))
  {
    DoneSame(m, RunOn(m, p), p);
  }

  lemma DoneLoop(m: Machine, p: nat)
    requires DoneOk(m) && p < |m.pcs| && m.pcs[p].InLoop() && m.pending != 0
    ensures DoneOk(RunLoop(m, p))
  {
    hide Has, Bit, Xor;
    DoneSame(m, RunLoop(m, p), p);
  }

  lemma DoneKeeps(affinity: nat, m: Machine, step: Step)
    requires Inv(affinity, m) && Enabled(m, step)
    ensures DoneOk(Apply(m, step))
  {
    var p := step.process;
    if m.pending == 0 {
      NoneUncounted(m.pcs, p);
    }
    hide CountOk, LockOk, MaskOk, ParentOk, ChildrenOk, RunOn, RunLoop, DoneOk;
    if step.Run? && m.pcs[p].InLoop() {
      DoneLoop(m, p);
    } else if step.Run? {
      DoneOn(m, p);
    } else {
      DoneSame(m, Apply(m, step), p);
    }
  }

  lemma StepKeeps(affinity: nat, m: Machine, step: Step)
    requires affinity < Bit(LONG_BITS) && Inv(affinity, m) && Enabled(m, step)
    ensures Inv(affinity, Apply(m, step))
  {
    CpusKeep(affinity, m, step);
    CountKeeps(affinity, m, step);
    LockKeeps(affinity, m, step);
    MaskKeeps(affinity, m, step);
    DoneKeeps(affinity, m, step);
    hide CountOk, LockOk, MaskOk, DoneOk, ParentOk, ChildrenOk, Apply, Enabled;
  }

  // ---------------------------------------------------------------- whole runs

  predicate Reaches(m: Machine, steps: seq<Step>, m': Machine)
    decreases |steps|
  {
    if steps == [] then m' == m
    else Enabled(m, steps[0]) && Reaches(Apply(m, steps[0]), steps[1..], m')
  }

  lemma StartInv(affinity: nat)
    requires affinity < Bit(LONG_BITS)
    ensures Inv(affinity, Start(affinity))
  {
    var m := Start(affinity);
    forall k: nat ensures !Has(0, k) {
      ZeroHas(k);
    }
    StartCount(m);
    hide Has, Bit, CountOk, Covered;
  }

  lemma StartCount(m: Machine)
    requires |m.pcs| == 1 && m.pending == 1 && m.reserved == {} && m.pcs[0].Looping?
    ensures CountOk(m)
  {
    assert Uncounted(m.pcs[1..]) == 0;
  }

  lemma {:induction false} RunKeeps(affinity: nat, m: Machine, steps: seq<Step>, m': Machine)
    requires affinity < Bit(LONG_BITS) && Inv(affinity, m) && Reaches(m, steps, m')
    ensures Inv(affinity, m')
    decreases |steps|
  {
    hide Inv, Enabled, Apply, Bit;
    if steps != [] {
      StepKeeps(affinity, m, steps[0]);
      RunKeeps(affinity, Apply(m, steps[0]), steps[1..], m');
    }
  }

  lemma BarrierMask(affinity: nat, m: Machine)
    requires affinity < Bit(LONG_BITS) && Inv(affinity, m) && m.pending == 0
    ensures forall q | 0 <= q < |m.pcs| :: m.pcs[q].cpu <= LOOP_CPUS && Has(m.coreMask, m.pcs[q].cpu)
    ensures Covered(affinity) ==> m.coreMask == affinity
  {
    ZeroMeansAll(affinity, m);
    hide CountOk, LockOk, ChildrenOk, ParentOk, Has, Bit;
    forall q | 0 <= q < |m.pcs| ensures m.pcs[q].cpu <= LOOP_CPUS && Has(m.coreMask, m.pcs[q].cpu) {
      CpuBound(affinity, m, q);
      assert IsRegistered(m.pcs, m.pcs[q].cpu);
    }
    if Covered(affinity) {
      SameBits(m.coreMask, affinity, LONG_BITS);
    }
  }

  /** One process for each CPU. */
  lemma DistinctCpus(affinity: nat, m: Machine)
    requires Inv(affinity, m) && forall p | 0 <= p < |m.pcs| :: m.pcs[p].Counted()
    ensures forall q, r | 0 <= q < r < |m.pcs| :: m.pcs[q].cpu != m.pcs[r].cpu
  {
    hide CountOk, LockOk, MaskOk, DoneOk, Has, Expected;
    forall q, r | 0 <= q < r < |m.pcs| ensures m.pcs[q].cpu != m.pcs[r].cpu {
      assert IsChild(m.pcs, m.pcs[r].cpu);
    }
  }

  /**
   In every interleaving, failures of fork and of pinning included: a process that gets to the
   barrier calls it with the mask of exactly the expected CPUs, its own among them, once the parent
   has forked all children and every process has registered. So all call it with the same mask.
   */
  lemma SameMaskEverywhere(affinity: nat, steps: seq<Step>, m: Machine, p: nat)
    requires affinity < Bit(LONG_BITS) && Reaches(Start(affinity), steps, m)
    requires p < |m.pcs| && m.pcs[p].AtBarrier?
    ensures m.pending == 0 && forall q | 0 <= q < |m.pcs| :: m.pcs[q].Counted()
    ensures forall q | 0 <= q < |m.pcs| :: m.pcs[q].cpu <= 16 && Has(m.pcs[p].mask, m.pcs[q].cpu)
    ensures forall q, r | 0 <= q < r < |m.pcs| :: m.pcs[q].cpu != m.pcs[r].cpu
    ensures if affinity != 0 && (forall k: nat | 16 <= k < 64 :: !Has(affinity, k)) then m.pcs[p].mask == affinity
            else forall k: nat | k < 64 :: Has(m.pcs[p].mask, k) <==> (k < 16 && Has(affinity, k)) || k == 16
  {
    StartInv(affinity);
    RunKeeps(affinity, Start(affinity), steps, m);
    assert m.pending == 0 && m.pcs[p].mask == m.coreMask;
    hide Reaches, CountOk, LockOk, ChildrenOk, ParentOk, MaskOk, DoneOk, Has, Bit, Expected, Covered;
    ZeroMeansAll(affinity, m);
    BarrierMask(affinity, m);
    DistinctCpus(affinity, m);
  }

  /** Once every process has counted itself off nobody waits in vain. */
  lemma AllCountedMeansZero(affinity: nat, m: Machine)
    requires Inv(affinity, m) && forall p | 0 <= p < |m.pcs| :: m.pcs[p].Counted()
    ensures m.pending == 0
  {
    NoneLeft(m.pcs);
    hide ParentOk, ChildrenOk, LockOk, MaskOk, DoneOk, Uncounted;
  }

  lemma {:induction false} NoneLeft(pcs: seq<Pc>)
    requires forall p | 0 <= p < |pcs| :: pcs[p].Counted()
    ensures Uncounted(pcs) == 0
  {
    if pcs != [] { NoneLeft(pcs[1..]); }
  }

  // ---------------------------------------------------------------- nobody is stuck

  /** How far a process, with the children it has still to fork, is from the barrier. */
  function Left(pc: Pc): nat {
    var loops := if pc.cpu <= LOOP_CPUS then 20 * (LOOP_CPUS - pc.cpu) else 0;
    match pc
    case Looping(_, _) => loops + 12
    case AddLoading(_, _) => loops + 11
    case AddStoring(_, _, _) => loops + 11
    case Forking(_, _) => loops + 10
    case Pinning(_) => 8
    case Locking(_) => 7
    case Reading(_) => 6
    case Writing(_, _) => 5
    case DecLoading(_) => 4
    case DecStoring(_, _) => 4
    case Unlocking(_) => 3
    case Spinning(_) => 2
    case Passing(_) => 1
    case AtBarrier(_, _) => 0
    case Exited(_) => 0
  }

  function LeftAll(pcs: seq<Pc>): nat {
    if pcs == [] then 0 else Left(pcs[0]) + LeftAll(pcs[1..])
  }

  lemma {:induction false} LeftUpdate(pcs: seq<Pc>, p: nat, pc: Pc)
    requires p < |pcs|
    ensures LeftAll(pcs[p := pc]) == LeftAll(pcs) - Left(pcs[p]) + Left(pc)
  {
    hide Left;
    if p == 0 {
      assert pcs[0 := pc][1..] == pcs[1..];
    } else {
      LeftUpdate(pcs[1..], p - 1, pc);
      assert pcs[p := pc][1..] == pcs[1..][p - 1 := pc];
    }
  }

  lemma {:induction false} LeftAppend(pcs: seq<Pc>, pc: Pc)
    ensures LeftAll(pcs + [pc]) == LeftAll(pcs) + Left(pc)
  {
    hide Left;
    if pcs == [] {
      assert [pc][1..] == [];
    } else {
      LeftAppend(pcs[1..], pc);
      assert (pcs + [pc])[1..] == pcs[1..] + [pc];
    }
  }

  /** Steps until its LL/SC loop stores, if nobody comes in between. */
  function Tries(m: Machine, p: nat): nat
    requires p < |m.pcs|
  {
    var pc := m.pcs[p];
    if pc.AddLoading? || pc.DecLoading? then 1
    else if pc.AddStoring? || pc.DecStoring? then if p in m.reserved then 0 else 2
    else 0
  }

  predicate NoneFailed(m: Machine) { forall p | 0 <= p < |m.pcs| :: !m.pcs[p].Exited? }

  predicate AllArrived(m: Machine) { forall p | 0 <= p < |m.pcs| :: m.pcs[p].AtBarrier? }

  /** It waits for nobody. */
  predicate Ready(m: Machine, p: nat) {
    && p < |m.pcs| && !m.pcs[p].AtBarrier? && !m.pcs[p].Exited?
    && (m.pcs[p].Locking? ==> !m.locked) && (m.pcs[p].Spinning? ==> m.pending == 0)
    && (m.pcs[p].InLoop() ==> m.pcs[p].cpu <= LOOP_CPUS && (!m.pcs[p].Looping? ==> m.pcs[p].cpu < LOOP_CPUS))
  }

  /** A step of a process that waits for nobody brings it nearer to the barrier, or to its store. */
  lemma ReadyMoves(m: Machine, p: nat)
    requires NoneFailed(m) && Ready(m, p)
    ensures Enabled(m, Run(p))
    ensures var m' := Apply(m, Run(p));
            && NoneFailed(m') && p < |m'.pcs|
            && (LeftAll(m'.pcs) < LeftAll(m.pcs)
                || (LeftAll(m'.pcs) == LeftAll(m.pcs) && Tries(m', p) < Tries(m, p) && Ready(m', p)))
  {
    hide Has, Xor, Or, Bit, LeftAll;
    var m' := Apply(m, Run(p));
    LeftUpdate(m.pcs, p, m'.pcs[p]);
    if m.pcs[p].Forking? {
      LeftAppend(m.pcs[p := m'.pcs[p]], m'.pcs[|m.pcs|]);
    } else {
      assert m'.pcs == m.pcs[p := m'.pcs[p]];
    }
  }

  /** Somebody waits for nobody, until all have arrived: the holder of the lock, or any process not counted off, or, with the counter at zero, any. */
  lemma SomebodyReady(affinity: nat, m: Machine) returns (p: nat)
    requires Inv(affinity, m) && NoneFailed(m) && !AllArrived(m)
    ensures Ready(m, p)
  {
    hide MaskOk, DoneOk, CountOk, Has, Bit, Expected, Covered, IsChild;
    if m.locked {
      p := m.holder;
      assert m.pcs[p].HoldsLock();
    } else if q :| 0 <= q < |m.pcs| && !m.pcs[q].Counted() {
      p := q;
      assert !m.pcs[p].HoldsLock();
    } else {
      AllCountedMeansZero(affinity, m);
      p :| 0 <= p < |m.pcs| && !m.pcs[p].AtBarrier?;
      assert m.pcs[p].HoldsLock() <==> m.locked && p == m.holder;
    }
  }

  /** Left alone, it gets nearer. */
  lemma {:induction false} Drive(affinity: nat, m: Machine, p: nat) returns (steps: seq<Step>, m': Machine)
    requires affinity < Bit(LONG_BITS) && Inv(affinity, m) && NoneFailed(m) && Ready(m, p)
    ensures Reaches(m, steps, m') && Inv(affinity, m') && NoneFailed(m') && LeftAll(m'.pcs) < LeftAll(m.pcs)
    decreases Tries(m, p)
  {
    hide Inv, Enabled, Apply, Bit, LeftAll, NoneFailed, Tries;
    ReadyMoves(m, p);
    StepKeeps(affinity, m, Run(p));
    var m1 := Apply(m, Run(p));
    if LeftAll(m1.pcs) < LeftAll(m.pcs) {
      steps, m' := [Run(p)], m1;
      assert Reaches(m1, steps[1..], m1);
    } else {
      var more;
      more, m' := Drive(affinity, m1, p);
      steps := [Run(p)] + more;
      assert steps[1..] == more;
    }
  }

  lemma {:induction false} ReachesOn(m: Machine, steps: seq<Step>, m1: Machine, more: seq<Step>, m': Machine)
    requires Reaches(m, steps, m1) && Reaches(m1, more, m')
    ensures Reaches(m, steps + more, m')
    decreases |steps|
  {
    hide Enabled, Apply;
    if steps == [] {
      assert [] + more == more;
    } else {
      ReachesOn(Apply(m, steps[0]), steps[1..], m1, more, m');
      assert (steps + more)[1..] == steps[1..] + more;
    }
  }

  lemma {:induction false} Finish(affinity: nat, m: Machine) returns (steps: seq<Step>, m': Machine)
    requires affinity < Bit(LONG_BITS) && Inv(affinity, m) && NoneFailed(m)
    ensures Reaches(m, steps, m') && AllArrived(m')
    decreases LeftAll(m.pcs)
  {
    hide Inv, NoneFailed, Bit, LeftAll, AllArrived, Ready;
    if AllArrived(m) {
      steps, m' := [], m;
    } else {
      var p := SomebodyReady(affinity, m);
      var first, m1 := Drive(affinity, m, p);
      var more;
      more, m' := Finish(affinity, m1);
      ReachesOn(m, first, m1, more, m');
      steps := first + more;
    }
  }

  /**
   No run gets stuck: as long as no fork and no pinning has failed, whatever has happened and whatever
   reservations were lost, it can go on to where every process calls the barrier.
   */
  lemma EverybodyCanArrive(affinity: nat, steps: seq<Step>, m: Machine)
    requires affinity < Bit(LONG_BITS) && Reaches(Start(affinity), steps, m)
    requires forall p | 0 <= p < |m.pcs| :: !m.pcs[p].Exited?
    ensures exists more, m' :: Reaches(Start(affinity), steps + more, m') && AllArrived(m')
  {
    hide Inv, Reaches, Bit, Start, AllArrived;
    StartInv(affinity);
    RunKeeps(affinity, Start(affinity), steps, m);
    var more, m' := Finish(affinity, m);
    ReachesOn(Start(affinity), steps, m, more, m');
  }
}
