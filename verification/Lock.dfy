/**
 The LL/SC spinlock of cvmx-bootmem-shared.h around the allocator's entry points. Cores interleave
 instruction by instruction outside the lock and statement by statement inside it; the results
 are those of the same calls made one after another in the order in which the lock was taken.
 */
module Lock {
  import opened Word64
  import opened FreeList
  import opened FreeMeaning
  import opened NamedBlocks

  // ---------------------------------------------------------------- inside the lock, statement by statement

  /** How far a call has got, and the local variables it needs to go on. */
  datatype Work =
    | Begin(op: Op)
    | HasSlot(op: Op, slot: int)
    | NameFree(op: Op, slot: int)
    | FillBase(op: Op, slot: int, address: u64)
    | FillSize(op: Op, slot: int, address: u64)
    | FillName(op: Op, slot: int, address: u64)
    | Located(op: Op, slot: int)
    | ClearSize(op: Op, slot: int)
    | Done(op: Op, result: int)

  predicate InTable(s: State, slot: int) { 0 <= slot < |s.named| }

  /** What the next statement relies on. */
  predicate Ready(s: State, w: Work) {
    match w
    case Begin(op) => Sorted(s.free) && op.Legal()
    case HasSlot(op, slot) => op.AllocNamed? && slot < |s.named|
    case NameFree(op, slot) => op.AllocNamed? && Sorted(s.free) && op.Legal() && InTable(s, slot)
    case FillBase(op, slot, _) => op.AllocNamed? && InTable(s, slot)
    case FillSize(op, slot, _) => op.AllocNamed? && InTable(s, slot)
    case FillName(op, slot, _) => op.AllocNamed? && InTable(s, slot)
    case Located(op, slot) => InTable(s, slot)
    case ClearSize(op, slot) => InTable(s, slot)
    case Done(_, _) => false
  }

  function WithBlock(s: State, slot: int, b: NamedBlock): State
    requires InTable(s, slot)
  {
    s.(named := s.named[slot := b])
  }

  /** One statement: in between, the table and the free list need not agree. */
  function Micro(s: State, k: nat, w: Work): (State, Work)
    requires Ready(s, w)
  {
    match w
    case Begin(op) =>
      (match op
       case AllocNamed(_, _, _, _, _) => (s, HasSlot(op, Find(s.named, None, k)))
       case FreeNamed(name) =>
         var i := Find(s.named, name, k);
         (s, if i < 0 then Done(op, 0) else Located(op, i))
       case AllocAnonymous(_, _, _, _) => var (r, s') := Step(s, k, op); (s', Done(op, r))
       case FindNamed(name) => (s, Done(op, Find(s.named, name, k) + 1)))
    case HasSlot(op, slot) =>
      (s, if Find(s.named, op.name, k) >= 0 || slot < 0 then Done(op, 0) else NameFree(op, slot))
    case NameFree(op, slot) =>
      RoundedSmall(op.size);
      AllocatedGood(s.free, MaskUp(op.size, 16), op.addressMin, op.addressMax, op.alignment);
      var (r, l) := Alloc(s.free, MaskUp(op.size, 16), op.addressMin, op.addressMax, op.alignment);
      (s.(free := l), if r == 0 then Done(op, 0) else FillBase(op, slot, r))
    case FillBase(op, slot, r) => (WithBlock(s, slot, s.named[slot].(base := r)), FillSize(op, slot, r))
    case FillSize(op, slot, r) => (WithBlock(s, slot, s.named[slot].(size := MaskUp(op.size, 16))), FillName(op, slot, r))
    case FillName(op, slot, r) => (WithBlock(s, slot, s.named[slot].(name := Trunc(NameOf(op.name), k))), Done(op, r))
    case Located(op, slot) =>
      (s.(free := Release(s.free, s.named[slot].base, s.named[slot].size).1), ClearSize(op, slot))
    case ClearSize(op, slot) => (WithBlock(s, slot, s.named[slot].(size := 0)), Done(op, 1))
  }

  /** `s` and `w` are what the call `w.op`, begun alone in state `s0`, has made so far. */
  predicate Midway(s0: State, k: nat, s: State, w: Work) {
    && Sorted(s0.free) && w.op.Legal()
    && match w
       case Begin(op) => s == s0
       case HasSlot(op, slot) => op.AllocNamed? && s == s0 && slot == Find(s0.named, None, k)
       case NameFree(op, slot) =>
         op.AllocNamed? && s == s0 && slot == Find(s0.named, None, k) && InTable(s0, slot) && Find(s0.named, op.name, k) < 0
       case FillBase(op, slot, r) =>
         && op.AllocNamed? && InTable(s, slot) && r != 0
         && Step(s0, k, op) == (r, WithBlock(s, slot, NamedBlock(r, MaskUp(op.size, 16), Trunc(NameOf(op.name), k))))
       case FillSize(op, slot, r) =>
         && op.AllocNamed? && InTable(s, slot) && r != 0 && s.named[slot].base == r
         && Step(s0, k, op) == (r, WithBlock(s, slot, NamedBlock(r, MaskUp(op.size, 16), Trunc(NameOf(op.name), k))))
       case FillName(op, slot, r) =>
         && op.AllocNamed? && InTable(s, slot) && r != 0 && s.named[slot].base == r && s.named[slot].size == MaskUp(op.size, 16)
         && Step(s0, k, op) == (r, WithBlock(s, slot, NamedBlock(r, MaskUp(op.size, 16), Trunc(NameOf(op.name), k))))
       case Located(op, slot) => op.FreeNamed? && s == s0 && slot == Find(s0.named, op.name, k) && InTable(s0, slot)
       case ClearSize(op, slot) =>
         && op.FreeNamed? && InTable(s, slot)
         && Step(s0, k, op) == (1, WithBlock(s, slot, s.named[slot].(size := 0)))
       case Done(op, r) => Step(s0, k, op) == (r, s)
  }

  /** A statement leaves the rest of the call to do what the whole call does at once. */
  lemma MicroKeeps(s0: State, k: nat, s: State, w: Work)
    requires Midway(s0, k, s, w) && !w.Done?
    ensures Ready(s, w)
    ensures Midway(s0, k, Micro(s, k, w).0, Micro(s, k, w).1) && Micro(s, k, w).1.op == w.op
  {
    hide Sorted, PowerOfTwo, MaskUp, Alloc, Release, Find, Trunc;
    match w
    case FillBase(_, slot, r) => Overwrite(s, slot, s.named[slot].(base := r));
    case FillSize(op, slot, r) => Overwrite(s, slot, s.named[slot].(size := MaskUp(op.size, 16)));
    case _ =>
  }

  lemma Overwrite(s: State, slot: int, b: NamedBlock)
    requires InTable(s, slot)
    ensures forall c :: WithBlock(WithBlock(s, slot, b), slot, c) == WithBlock(s, slot, c)
  {
    forall c: NamedBlock ensures WithBlock(WithBlock(s, slot, b), slot, c) == WithBlock(s, slot, c) {
      assert s.named[slot := b][slot := c] == s.named[slot := c];
    }
  }

  // ---------------------------------------------------------------- the lock, instruction by instruction

  /** A core between its instructions; `loaded` is the register that LL filled. */
  datatype Core =
    | Idle
    | AtLoad(op: Op)
    | AtBranch(op: Op, loaded: nat)
    | AtStore(op: Op)
    | Holding(work: Work)

  /** The lock word, the cores whose reservation on it stands, the cores, and what the lock protects. */
  datatype Machine = Machine(lock: nat, reserved: set<nat>, cores: seq<Core>, shared: State)

  /** Calls in the order in which they took the lock and the cores that made them, their results as they return, and the state the present holder found. */
  datatype History = History(calls: seq<Op>, callers: seq<nat>, results: seq<int>, found: State, holder: nat)

  datatype Move =
    | Call(core: nat, op: Op)
    | LoadLinked(core: nat)
    | BranchIfTaken(core: nat)
    | StoreConditional(core: nat)
    | LoseReservation(core: nat)
    | Statement(core: nat)
    | Unlock(core: nat)

  predicate Enabled(m: Machine, step: Move) {
    && step.core < |m.cores|
    && var c := m.cores[step.core];
      match step
      case Call(_, op) => c.Idle? && op.Legal()
      case LoadLinked(_) => c.AtLoad?
      case BranchIfTaken(_) => c.AtBranch?
      case StoreConditional(_) => c.AtStore?
      case LoseReservation(_) => true
      case Statement(_) => c.Holding? && !c.work.Done? && Ready(m.shared, c.work)
      case Unlock(_) => c.Holding? && c.work.Done?
  }

  /** A store to the lock word cancels every reservation; a store-conditional succeeds only on a standing one. */
  function Apply(m: Machine, k: nat, step: Move): Machine
    requires Enabled(m, step)
  {
    var i := step.core;
    var c := m.cores[i];
    match step
    case Call(_, op) => m.(cores := m.cores[i := AtLoad(op)])
    case LoadLinked(_) => m.(reserved := m.reserved + {i}, cores := m.cores[i := AtBranch(c.op, m.lock)])
    case BranchIfTaken(_) => m.(cores := m.cores[i := if c.loaded != 0 then AtLoad(c.op) else AtStore(c.op)])
    case StoreConditional(_) =>
      if i in m.reserved then m.(lock := 1, reserved := {}, cores := m.cores[i := Holding(Begin(c.op))])
      else m.(cores := m.cores[i := AtLoad(c.op)])
    case LoseReservation(_) => m.(reserved := m.reserved - {i})
    case Statement(_) =>
      var (s, w) := Micro(m.shared, k, c.work);
      m.(shared := s, cores := m.cores[i := Holding(w)])
    case Unlock(_) => m.(lock := 0, reserved := {}, cores := m.cores[i := Idle])
  }

  function Record(m: Machine, h: History, step: Move): History
    requires Enabled(m, step)
  {
    match step
    case StoreConditional(i) =>
      if i in m.reserved
      then h.(calls := h.calls + [m.cores[i].op], callers := h.callers + [i], found := m.shared, holder := i) else h
    case Unlock(i) => h.(results := h.results + [m.cores[i].work.result])
    case _ => h
  }

  // ---------------------------------------------------------------- the serial run

  predicate AllLegal(ops: seq<Op>) { forall i | 0 <= i < |ops| :: ops[i].Legal() }

  /** The same calls one after another: their results and the state they leave. */
  ghost function Serial(s0: State, k: nat, l0: seq<Block>, ops: seq<Op>): (r: (seq<int>, State))
    requires Partition(s0, k, l0) && AllLegal(ops)
    ensures Partition(r.1, k, l0) && |r.0| == |ops|
  {
    if ops == [] then ([], s0)
    else
      var front := Serial(s0, k, l0, ops[..|ops| - 1]);
      StepKeeps(front.1, k, l0, ops[|ops| - 1]);
      assert Sorted(front.1.free);
      var (r, s) := Step(front.1, k, ops[|ops| - 1]);
      (front.0 + [r], s)
  }

  // ---------------------------------------------------------------- the invariant

  /** A reservation that stands was made on the lock word as it is. */
  predicate ReservationOk(m: Machine, i: int)
    requires 0 <= i < |m.cores|
  {
    i in m.reserved ==>
      && (m.cores[i].AtBranch? ==> m.cores[i].loaded == m.lock)
      && (m.cores[i].AtStore? ==> m.lock == 0)
  }

  predicate CoresOk(m: Machine, h: History) {
    && m.lock <= 1 && (m.lock == 1 ==> h.holder < |m.cores|)
    && (forall i | 0 <= i < |m.cores| :: ReservationOk(m, i))
    && (forall i | 0 <= i < |m.cores| :: m.cores[i].Holding? <==> m.lock == 1 && i == h.holder)
    && (forall i | 0 <= i < |m.cores| && (m.cores[i].AtLoad? || m.cores[i].AtBranch? || m.cores[i].AtStore?) :: m.cores[i].op.Legal())
  }

  ghost predicate SharedOk(m: Machine, h: History, k: nat, s0: State, l0: seq<Block>)
    requires Partition(s0, k, l0) && AllLegal(h.calls) && CoresOk(m, h)
  {
    if m.lock == 0 then Serial(s0, k, l0, h.calls) == (h.results, m.shared)
    else
      && h.calls != []
      && var w := m.cores[h.holder].work;
      && Serial(s0, k, l0, h.calls[..|h.calls| - 1]) == (h.results, h.found)
      && w.op == h.calls[|h.calls| - 1]
      && Midway(h.found, k, m.shared, w)
  }

  ghost predicate Inv(m: Machine, h: History, k: nat, s0: State, l0: seq<Block>) {
    Partition(s0, k, l0) && AllLegal(h.calls) && CoresOk(m, h) && SharedOk(m, h, k, s0, l0)
  }

  /** At most one core is between a successful store-conditional and the store that unlocks. */
  lemma MutualExclusion(m: Machine, h: History, k: nat, s0: State, l0: seq<Block>, i: nat, j: nat)
    requires Inv(m, h, k, s0, l0) && i < |m.cores| && j < |m.cores| && m.cores[i].Holding? && m.cores[j].Holding?
    ensures i == j && m.lock == 1
  {
    assert m.cores[i].Holding? <==> m.lock == 1 && i == h.holder;
    assert m.cores[j].Holding? <==> m.lock == 1 && j == h.holder;
  }

  lemma CoresKeep(m: Machine, h: History, k: nat, step: Move)
    requires CoresOk(m, h) && Enabled(m, step)
    ensures CoresOk(Apply(m, k, step), Record(m, h, step))
  {
    hide Micro, Ready, Midway;
    var m', h' := Apply(m, k, step), Record(m, h, step);
    assert ReservationOk(m, step.core);
    forall i | 0 <= i < |m'.cores| ensures ReservationOk(m', i) {
      assert ReservationOk(m, i);
    }
    forall i | 0 <= i < |m'.cores| ensures m'.cores[i].Holding? <==> m'.lock == 1 && i == h'.holder {
      assert m.cores[i].Holding? <==> m.lock == 1 && i == h.holder;
      assert m.cores[step.core].Holding? <==> m.lock == 1 && step.core == h.holder;
    }
  }

  // The lock is taken: what it protects is as the serial run so far leaves it.

  lemma TakeKeeps(m: Machine, h: History, k: nat, s0: State, l0: seq<Block>, i: nat)
    requires Inv(m, h, k, s0, l0) && Enabled(m, StoreConditional(i)) && i in m.reserved
    ensures Inv(Apply(m, k, StoreConditional(i)), Record(m, h, StoreConditional(i)), k, s0, l0)
  {
    CoresKeep(m, h, k, StoreConditional(i));
    hide Partition, Serial, CoresOk, Step;
    var m', h' := Apply(m, k, StoreConditional(i)), Record(m, h, StoreConditional(i));
    FreeWhenStored(m, h, i);
    assert h'.calls[..|h'.calls| - 1] == h.calls;
    assert Sorted(m.shared.free) by { SerialSorted(s0, k, l0, h.calls); }
  }

  lemma FreeWhenStored(m: Machine, h: History, i: nat)
    requires CoresOk(m, h) && Enabled(m, StoreConditional(i)) && i in m.reserved
    ensures m.lock == 0 && m.cores[i].op.Legal()
  {
    assert ReservationOk(m, i);
  }

  lemma SerialSorted(s0: State, k: nat, l0: seq<Block>, ops: seq<Op>)
    requires Partition(s0, k, l0) && AllLegal(ops)
    ensures Sorted(Serial(s0, k, l0, ops).1.free)
  {
    hide Serial;
  }

  // A statement inside the lock.

  lemma StatementKeeps(m: Machine, h: History, k: nat, s0: State, l0: seq<Block>, i: nat)
    requires Inv(m, h, k, s0, l0) && Enabled(m, Statement(i))
    ensures Inv(Apply(m, k, Statement(i)), Record(m, h, Statement(i)), k, s0, l0)
  {
    CoresKeep(m, h, k, Statement(i));
    assert m.lock == 1 && i == h.holder;
    hide Partition, Serial, CoresOk, Micro, Midway;
    MicroKeeps(h.found, k, m.shared, m.cores[i].work);
  }

  // The lock is released: the call is finished, and so is the serial one.

  lemma {:induction false} SerialExtends(s0: State, k: nat, l0: seq<Block>, ops: seq<Op>)
    requires Partition(s0, k, l0) && AllLegal(ops) && ops != []
    ensures AllLegal(ops[..|ops| - 1])
    ensures var front, op := Serial(s0, k, l0, ops[..|ops| - 1]), ops[|ops| - 1];
            && Sorted(front.1.free) && op.Legal()
            && var (r, s) := Step(front.1, k, op); Serial(s0, k, l0, ops) == (front.0 + [r], s)
  {
    hide Partition, Step;
    SerialSorted(s0, k, l0, ops[..|ops| - 1]);
  }

  /** A call that is done has done what the serial run does last. */
  lemma DoneIsSerial(m: Machine, h: History, k: nat, s0: State, l0: seq<Block>, i: nat)
    requires Inv(m, h, k, s0, l0) && Enabled(m, Unlock(i))
    ensures h.calls != [] && m.cores[i].work.op == h.calls[|h.calls| - 1]
    ensures Serial(s0, k, l0, h.calls) == (h.results + [m.cores[i].work.result], m.shared)
  {
    hide Partition, Serial, Step, Ready;
    assert m.lock == 1 && i == h.holder;
    hide CoresOk;
    SerialExtends(s0, k, l0, h.calls);
  }

  lemma UnlockKeeps(m: Machine, h: History, k: nat, s0: State, l0: seq<Block>, i: nat)
    requires Inv(m, h, k, s0, l0) && Enabled(m, Unlock(i))
    ensures Inv(Apply(m, k, Unlock(i)), Record(m, h, Unlock(i)), k, s0, l0)
  {
    CoresKeep(m, h, k, Unlock(i));
    DoneIsSerial(m, h, k, s0, l0, i);
    hide Partition, Serial, CoresOk, Step, Midway;
  }

  // Everything else leaves what the lock protects alone.

  lemma HoldingKnown(m: Machine, h: History, c: nat)
    requires CoresOk(m, h) && c < |m.cores|
    ensures m.lock <= 1 && (m.lock == 1 ==> h.holder < |m.cores|)
    ensures m.cores[c].Holding? <==> m.lock == 1 && c == h.holder
  {
  }

  lemma OutsideKeeps(m: Machine, h: History, k: nat, s0: State, l0: seq<Block>, step: Move)
    requires Inv(m, h, k, s0, l0) && Enabled(m, step)
    requires step.Call? || step.LoadLinked? || step.BranchIfTaken? || step.LoseReservation?
             || (step.StoreConditional? && step.core !in m.reserved)
    ensures Inv(Apply(m, k, step), Record(m, h, step), k, s0, l0)
  {
    hide Partition, Serial, CoresOk, Midway;
    CoresKeep(m, h, k, step);
    HoldingKnown(m, h, step.core);
  }

  lemma MoveKeeps(m: Machine, h: History, k: nat, s0: State, l0: seq<Block>, step: Move)
    requires Inv(m, h, k, s0, l0) && Enabled(m, step)
    ensures Inv(Apply(m, k, step), Record(m, h, step), k, s0, l0)
  {
    hide Inv, Apply, Record;
    match step
    case StoreConditional(i) =>
      if i in m.reserved {
        TakeKeeps(m, h, k, s0, l0, i);
      } else {
        OutsideKeeps(m, h, k, s0, l0, step);
      }
    case Statement(i) => StatementKeeps(m, h, k, s0, l0, i);
    case Unlock(i) => UnlockKeeps(m, h, k, s0, l0, i);
    case _ => OutsideKeeps(m, h, k, s0, l0, step);
  }

  // ---------------------------------------------------------------- every interleaving

  ghost predicate Reaches(m: Machine, h: History, k: nat, steps: seq<Move>, m': Machine, h': History)
    decreases |steps|
  {
    if steps == [] then m' == m && h' == h
    else Enabled(m, steps[0]) && Reaches(Apply(m, k, steps[0]), Record(m, h, steps[0]), k, steps[1..], m', h')
  }

  function AllIdle(s0: State, cores: nat): Machine { Machine(0, {}, seq(cores, _ => Idle), s0) }

  function NoHistory(s0: State): History { History([], [], [], s0, 0) }

  lemma {:induction false} RunKeeps(m: Machine, h: History, k: nat, s0: State, l0: seq<Block>, steps: seq<Move>, m': Machine, h': History)
    requires Inv(m, h, k, s0, l0) && Reaches(m, h, k, steps, m', h')
    ensures Inv(m', h', k, s0, l0)
    decreases |steps|
  {
    hide Inv, Record;
    if steps != [] {
      MoveKeeps(m, h, k, s0, l0, steps[0]);
      RunKeeps(Apply(m, k, steps[0]), Record(m, h, steps[0]), k, s0, l0, steps[1..], m', h');
    }
  }

  // ---------------------------------------------------------------- who called what, and who got which result

  /** What core `i` called for, in order, by the moves alone. */
  function CallsBy(steps: seq<Move>, i: nat): seq<Op> {
    if steps == [] then []
    else (if steps[0].Call? && steps[0].core == i then [steps[0].op] else []) + CallsBy(steps[1..], i)
  }

  /** The calls of core `i` among those that took the lock. */
  function TakenBy(calls: seq<Op>, callers: seq<nat>, i: nat): seq<Op>
    requires |callers| == |calls|
  {
    if calls == [] then []
    else
      TakenBy(calls[..|calls| - 1], callers[..|calls| - 1], i) + (if callers[|calls| - 1] == i then [calls[|calls| - 1]] else [])
  }

  function Returned(m: Machine, step: Move): seq<(nat, int)>
    requires Enabled(m, step)
  {
    if step.Unlock? then [(step.core, m.cores[step.core].work.result)] else []
  }

  /** Each return of the run: the core that unlocks, and what its call gives back. */
  function Returns(m: Machine, k: nat, steps: seq<Move>): seq<(nat, int)>
    decreases |steps|
  {
    if steps == [] || !Enabled(m, steps[0]) then []
    else
      Returned(m, steps[0]) + Returns(Apply(m, k, steps[0]), k, steps[1..])
  }

  /** A call that has not taken the lock yet. */
  function Waiting(c: Core): seq<Op> {
    if c.AtLoad? || c.AtBranch? || c.AtStore? then [c.op] else []
  }

  /** Core `i` has called for `asked`: its calls that took the lock, and the one waiting. */
  predicate Asked(m: Machine, h: History, i: nat, asked: seq<Op>) {
    |h.callers| == |h.calls| && i < |m.cores| && asked == TakenBy(h.calls, h.callers, i) + Waiting(m.cores[i])
  }

  lemma MoveAsks(m: Machine, h: History, k: nat, step: Move, i: nat, asked: seq<Op>)
    requires Enabled(m, step) && Asked(m, h, i, asked)
    ensures Asked(Apply(m, k, step), Record(m, h, step), i, asked + CallsBy([step], i))
  {
    hide Micro, Ready;
    assert [step][1..] == [];
    assert CallsBy([step], i) == if step.Call? && step.core == i then [step.op] else [];
    var h' := Record(m, h, step);
    if step.StoreConditional? && step.core in m.reserved {
      assert h'.calls[..|h.calls|] == h.calls && h'.callers[..|h.calls|] == h.callers;
    }
  }

  lemma {:induction false} RunAsks(m: Machine, h: History, k: nat, steps: seq<Move>, m': Machine, h': History, i: nat, asked: seq<Op>)
    requires Reaches(m, h, k, steps, m', h') && Asked(m, h, i, asked)
    ensures Asked(m', h', i, asked + CallsBy(steps, i))
    decreases |steps|
  {
    hide Asked, Enabled, Apply, Record, CallsBy;
    if steps == [] {
      NoCalls(i);
      assert asked + [] == asked;
    } else {
      MoveAsks(m, h, k, steps[0], i, asked);
      var now := asked + CallsBy([steps[0]], i);
      RunAsks(Apply(m, k, steps[0]), Record(m, h, steps[0]), k, steps[1..], m', h', i, now);
      FirstCall(steps, i);
      assert now + CallsBy(steps[1..], i) == asked + CallsBy(steps, i);
    }
  }

  lemma NoCalls(i: nat)
    ensures CallsBy([], i) == []
  {
  }

  lemma FirstCall(steps: seq<Move>, i: nat)
    requires steps != []
    ensures CallsBy(steps, i) == CallsBy([steps[0]], i) + CallsBy(steps[1..], i)
  {
    assert [steps[0]][1..] == [];
  }

  /** The results so far, each with the core that made the call. */
  predicate Paired(h: History, returned: seq<(nat, int)>) {
    && |h.results| <= |h.callers| && |returned| == |h.results|
    && forall j | 0 <= j < |returned| :: returned[j] == (h.callers[j], h.results[j])
  }

  predicate CallersOk(m: Machine, h: History) {
    && |h.callers| == |h.calls| == |h.results| + m.lock
    && (m.lock == 1 ==> h.callers != [] && h.callers[|h.callers| - 1] == h.holder)
  }

  lemma MoveReturns(m: Machine, h: History, k: nat, step: Move, returned: seq<(nat, int)>)
    requires CoresOk(m, h) && Enabled(m, step) && CallersOk(m, h) && Paired(h, returned)
    ensures CallersOk(Apply(m, k, step), Record(m, h, step))
    ensures Paired(Record(m, h, step), returned + Returned(m, step))
  {
    assert step.StoreConditional? && step.core in m.reserved ==> m.lock == 0 by { assert ReservationOk(m, step.core); }
    HoldingKnown(m, h, step.core);
    hide CoresOk, Micro, Ready;
  }

  lemma {:induction false} RunReturns(m: Machine, h: History, k: nat, s0: State, l0: seq<Block>, steps: seq<Move>, m': Machine, h': History,
                                      returned: seq<(nat, int)>)
    requires Inv(m, h, k, s0, l0) && Reaches(m, h, k, steps, m', h') && CallersOk(m, h) && Paired(h, returned)
    ensures CallersOk(m', h') && Paired(h', returned + Returns(m, k, steps))
    decreases |steps|
  {
    hide Inv, Partition, SharedOk, CoresOk, Enabled, Apply, Record, Paired, CallersOk, Returns;
    ReturnsUnfold(m, k, steps);
    if steps == [] {
      assert returned + [] == returned;
    } else {
      InvCores(m, h, k, s0, l0);
      MoveReturns(m, h, k, steps[0], returned);
      MoveKeeps(m, h, k, s0, l0, steps[0]);
      var first := Returned(m, steps[0]);
      RunReturns(Apply(m, k, steps[0]), Record(m, h, steps[0]), k, s0, l0, steps[1..], m', h', returned + first);
      assert returned + first + Returns(Apply(m, k, steps[0]), k, steps[1..]) == returned + Returns(m, k, steps);
    }
  }

  lemma InvCores(m: Machine, h: History, k: nat, s0: State, l0: seq<Block>)
    requires Inv(m, h, k, s0, l0)
    ensures CoresOk(m, h)
  {
  }

  lemma ReturnsUnfold(m: Machine, k: nat, steps: seq<Move>)
    ensures steps == [] ==> Returns(m, k, steps) == []
    ensures steps != [] && Enabled(m, steps[0]) ==>
              Returns(m, k, steps) == Returned(m, steps[0]) + Returns(Apply(m, k, steps[0]), k, steps[1..])
  {
    hide Apply;
  }

  /**
   Serialisability. In every interleaving there is one order of the calls, that of taking the lock, such
   that: in it each core's calls are those it made, in its own order, but for one that still waits; each
   return so far goes to the core that made the call and gives what the call gives when the calls are made
   one after another in that order; and whenever the lock is free the state is that of the serial run,
   with the partition of memory kept.
   */
  lemma Serialisable(s0: State, k: nat, l0: seq<Block>, cores: nat, steps: seq<Move>, m: Machine, h: History)
    requires Partition(s0, k, l0) && Reaches(AllIdle(s0, cores), NoHistory(s0), k, steps, m, h)
    ensures AllLegal(h.calls) && |h.callers| == |h.calls| && |m.cores| == cores
    ensures forall i: nat | i < cores ::
              CallsBy(steps, i) == TakenBy(h.calls, h.callers, i) + Waiting(m.cores[i]) && |Waiting(m.cores[i])| <= 1
    ensures var results, given := Serial(s0, k, l0, h.calls).0, Returns(AllIdle(s0, cores), k, steps);
            && |given| + m.lock == |h.calls| == |results|
            && forall j | 0 <= j < |given| :: given[j] == (h.callers[j], results[j])
    ensures m.lock == 0 ==> m.shared == Serial(s0, k, l0, h.calls).1 && Partition(m.shared, k, l0)
    ensures forall i, j | 0 <= i < |m.cores| && 0 <= j < |m.cores| && m.cores[i].Holding? && m.cores[j].Holding? :: i == j
  {
    hide *;
    var m0, h0 := AllIdle(s0, cores), NoHistory(s0);
    IdleInv(s0, k, l0, cores);
    RunKeeps(m0, h0, k, s0, l0, steps, m, h);
    CoresStay(m0, h0, k, steps, m, h);
    RunReturns(m0, h0, k, s0, l0, steps, m, h, []);
    assert [] + Returns(m0, k, steps) == Returns(m0, k, steps);
    GivenSerially(m, h, k, s0, l0, Returns(m0, k, steps));
    forall i: nat | i < cores ensures CallsBy(steps, i) == TakenBy(h.calls, h.callers, i) + Waiting(m.cores[i]) && |Waiting(m.cores[i])| <= 1 {
      RunAsks(m0, h0, k, steps, m, h, i, []);
      assert [] + CallsBy(steps, i) == CallsBy(steps, i);
      AskedParts(m, h, i, CallsBy(steps, i));
    }
    forall i, j | 0 <= i < |m.cores| && 0 <= j < |m.cores| && m.cores[i].Holding? && m.cores[j].Holding? ensures i == j {
      MutualExclusion(m, h, k, s0, l0, i, j);
    }
  }

  lemma IdleInv(s0: State, k: nat, l0: seq<Block>, cores: nat)
    requires Partition(s0, k, l0)
    ensures var m, h := AllIdle(s0, cores), NoHistory(s0);
            && Inv(m, h, k, s0, l0) && CallersOk(m, h) && Paired(h, []) && |m.cores| == cores
            && forall i: nat | i < cores :: Asked(m, h, i, [])
  {
    hide Partition;
  }

  lemma AskedParts(m: Machine, h: History, i: nat, asked: seq<Op>)
    requires Asked(m, h, i, asked)
    ensures |h.callers| == |h.calls| && i < |m.cores|
    ensures asked == TakenBy(h.calls, h.callers, i) + Waiting(m.cores[i]) && |Waiting(m.cores[i])| <= 1
  {
  }

  lemma GivenSerially(m: Machine, h: History, k: nat, s0: State, l0: seq<Block>, given: seq<(nat, int)>)
    requires Inv(m, h, k, s0, l0) && CallersOk(m, h) && Paired(h, given)
    ensures AllLegal(h.calls) && |h.callers| == |h.calls|
    ensures var results := Serial(s0, k, l0, h.calls).0;
            && |given| + m.lock == |h.calls| == |results|
            && forall j | 0 <= j < |given| :: given[j] == (h.callers[j], results[j])
    ensures m.lock == 0 ==> m.shared == Serial(s0, k, l0, h.calls).1 && Partition(m.shared, k, l0)
  {
    hide Partition, Step, Serial, Midway, ReservationOk, Op.Legal;
    if m.lock == 1 {
      SerialExtends(s0, k, l0, h.calls);
    }
  }

  lemma {:induction false} CoresStay(m: Machine, h: History, k: nat, steps: seq<Move>, m': Machine, h': History)
    requires Reaches(m, h, k, steps, m', h')
    ensures |m'.cores| == |m.cores|
    decreases |steps|
  {
    hide Micro, Ready, Record;
    if steps != [] {
      CoresStay(Apply(m, k, steps[0]), Record(m, h, steps[0]), k, steps[1..], m', h');
    }
  }

  // ---------------------------------------------------------------- nobody is stuck

  function WorkLeft(w: Work): nat {
    match w
    case Begin(_) => 8
    case HasSlot(_, _) => 7
    case NameFree(_, _) => 6
    case FillBase(_, _, _) => 5
    case FillSize(_, _, _) => 4
    case FillName(_, _, _) => 3
    case Located(_, _) => 3
    case ClearSize(_, _) => 2
    case Done(_, _) => 1
  }

  function CoreLeft(c: Core): nat { if c.Idle? then 0 else if c.Holding? then WorkLeft(c.work) else 9 }

  function AllLeft(cores: seq<Core>): nat {
    if cores == [] then 0 else CoreLeft(cores[0]) + AllLeft(cores[1..])
  }

  lemma {:induction false} AllLeftUpdate(cores: seq<Core>, i: nat, c: Core)
    requires i < |cores|
    ensures AllLeft(cores[i := c]) == AllLeft(cores) - CoreLeft(cores[i]) + CoreLeft(c)
  {
    hide CoreLeft;
    if i == 0 {
      assert cores[0 := c][1..] == cores[1..];
    } else {
      AllLeftUpdate(cores[1..], i - 1, c);
      assert cores[i := c][1..] == cores[1..][i - 1 := c];
    }
  }

  /** Instructions until it has the lock, if nobody comes in between. */
  function Tries(m: Machine, i: nat): nat
    requires i < |m.cores|
  {
    match m.cores[i]
    case AtLoad(_) => 2
    case AtBranch(_, loaded) => if loaded != 0 then 3 else if i in m.reserved then 1 else 4
    case AtStore(_) => if i in m.reserved then 0 else 3
    case _ => 0
  }

  /** In a call, and it has the lock or finds it free. */
  predicate MayGo(m: Machine, i: nat) { i < |m.cores| && !m.cores[i].Idle? && (m.cores[i].Holding? || m.lock == 0) }

  lemma StatementsEnd(s: State, k: nat, w: Work)
    requires Ready(s, w)
    ensures WorkLeft(Micro(s, k, w).1) < WorkLeft(w)
  {
    hide Sorted, Op.Legal, Find, Alloc, Release, Step, MaskUp, Trunc;
  }

  /** The next instruction or statement of a core that may go brings its call nearer to its end, or itself to the lock. */
  lemma GoesOn(m: Machine, h: History, k: nat, s0: State, l0: seq<Block>, i: nat) returns (step: Move)
    requires Inv(m, h, k, s0, l0) && MayGo(m, i)
    ensures Enabled(m, step) && !step.Call?
    ensures var m' := Apply(m, k, step);
            && i < |m'.cores|
            && (AllLeft(m'.cores) < AllLeft(m.cores)
                || (AllLeft(m'.cores) == AllLeft(m.cores) && Tries(m', i) < Tries(m, i) && MayGo(m', i)))
  {
    hide Partition, Serial, Midway, Micro, Ready, AllLeft, WorkLeft, Op.Legal;
    match m.cores[i] {
      case AtLoad(_) => step := LoadLinked(i);
      case AtBranch(_, _) => step := BranchIfTaken(i);
      case AtStore(_) => step := StoreConditional(i);
      case Holding(w) =>
        if w.Done? {
          step := Unlock(i);
        } else {
          HolderReady(m, h, k, s0, l0, i);
          StatementsEnd(m.shared, k, w);
          step := Statement(i);
        }
    }
    WorkAtMost(m.cores[i]);
    AllLeftUpdate(m.cores, i, Apply(m, k, step).cores[i]);
    assert Apply(m, k, step).cores == m.cores[i := Apply(m, k, step).cores[i]];
  }

  lemma WorkAtMost(c: Core)
    ensures forall op :: WorkLeft(Begin(op)) == 8
    ensures c.Holding? ==> 0 < WorkLeft(c.work)
  {
  }

  lemma HolderReady(m: Machine, h: History, k: nat, s0: State, l0: seq<Block>, i: nat)
    requires Inv(m, h, k, s0, l0) && i < |m.cores| && m.cores[i].Holding? && !m.cores[i].work.Done?
    ensures Ready(m.shared, m.cores[i].work)
  {
    assert m.lock == 1 && i == h.holder;
    hide Partition, Serial, CoresOk, Micro, Midway, Ready;
    MicroKeeps(h.found, k, m.shared, m.cores[i].work);
  }

  lemma SomebodyMayGo(m: Machine, h: History, k: nat, s0: State, l0: seq<Block>) returns (i: nat)
    requires Inv(m, h, k, s0, l0) && exists j :: 0 <= j < |m.cores| && !m.cores[j].Idle?
    ensures MayGo(m, i)
  {
    hide Partition, Serial, SharedOk, ReservationOk, Op.Legal;
    if m.lock == 1 {
      i := h.holder;
      assert m.cores[i].Holding?;
    } else {
      i :| 0 <= i < |m.cores| && !m.cores[i].Idle?;
    }
  }

  predicate NoNewCalls(steps: seq<Move>) { forall j | 0 <= j < |steps| :: !steps[j].Call? }

  predicate Quiet(m: Machine) { forall j | 0 <= j < |m.cores| :: m.cores[j].Idle? }

  /** Left alone, it gets nearer. */
  lemma {:induction false} Drive(m: Machine, h: History, k: nat, s0: State, l0: seq<Block>, i: nat)
      returns (steps: seq<Move>, m': Machine, h': History)
    requires Inv(m, h, k, s0, l0) && MayGo(m, i)
    ensures Reaches(m, h, k, steps, m', h') && NoNewCalls(steps) && Inv(m', h', k, s0, l0) && AllLeft(m'.cores) < AllLeft(m.cores)
    decreases Tries(m, i)
  {
    hide Inv, Enabled, Apply, Record, AllLeft, Tries, MayGo;
    var step := GoesOn(m, h, k, s0, l0, i);
    MoveKeeps(m, h, k, s0, l0, step);
    var m1, h1 := Apply(m, k, step), Record(m, h, step);
    if AllLeft(m1.cores) < AllLeft(m.cores) {
      steps, m', h' := [step], m1, h1;
      assert Reaches(m1, h1, k, steps[1..], m1, h1);
    } else {
      var more;
      more, m', h' := Drive(m1, h1, k, s0, l0, i);
      steps := [step] + more;
      assert steps[1..] == more;
    }
  }

  lemma {:induction false} ReachesOn(m: Machine, h: History, k: nat, steps: seq<Move>, m1: Machine, h1: History, more: seq<Move>, m': Machine, h': History)
    requires Reaches(m, h, k, steps, m1, h1) && Reaches(m1, h1, k, more, m', h')
    ensures Reaches(m, h, k, steps + more, m', h')
    decreases |steps|
  {
    hide Enabled, Apply, Record;
    if steps == [] {
      assert [] + more == more;
    } else {
      ReachesOn(Apply(m, k, steps[0]), Record(m, h, steps[0]), k, steps[1..], m1, h1, more, m', h');
      assert (steps + more)[1..] == steps[1..] + more;
    }
  }

  lemma {:induction false} Finish(m: Machine, h: History, k: nat, s0: State, l0: seq<Block>)
      returns (steps: seq<Move>, m': Machine, h': History)
    requires Inv(m, h, k, s0, l0)
    ensures Reaches(m, h, k, steps, m', h') && NoNewCalls(steps) && Quiet(m')
    decreases AllLeft(m.cores)
  {
    hide Inv, AllLeft, MayGo;
    if Quiet(m) {
      steps, m', h' := [], m, h;
    } else {
      var i := SomebodyMayGo(m, h, k, s0, l0);
      var first, m1, h1 := Drive(m, h, k, s0, l0, i);
      var more;
      more, m', h' := Finish(m1, h1, k, s0, l0);
      ReachesOn(m, h, k, first, m1, h1, more, m', h');
      steps := first + more;
    }
  }

  /** No run gets stuck: whatever reservations were lost, it can go on to where every call made has returned. */
  lemma EveryCallCanReturn(s0: State, k: nat, l0: seq<Block>, cores: nat, steps: seq<Move>, m: Machine, h: History)
    requires Partition(s0, k, l0) && Reaches(AllIdle(s0, cores), NoHistory(s0), k, steps, m, h)
    ensures exists more, m', h' ::
              Reaches(AllIdle(s0, cores), NoHistory(s0), k, steps + more, m', h') && NoNewCalls(more) && Quiet(m')
  {
    hide *;
    var m0, h0 := AllIdle(s0, cores), NoHistory(s0);
    IdleInv(s0, k, l0, cores);
    RunKeeps(m0, h0, k, s0, l0, steps, m, h);
    var more, m', h' := Finish(m, h, k, s0, l0);
    ReachesOn(m0, h0, k, steps, m, h, more, m', h');
  }
}
