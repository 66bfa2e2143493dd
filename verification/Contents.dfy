/**
 What blocks hold: over every run of boot memory operations the contents of a named block survive
 until it is freed by its name, and those of a block handed out without a name for ever.
 */
module Contents {
  import opened Word64
  import opened FreeList
  import opened FreeMeaning
  import opened Headers
  import opened NamedBlocks
  import opened BootMemory

  /** The operation frees by this name, as far as names are compared. */
  predicate Frees(op: Op, name: string, k: nat) {
    op.FreeNamed? && op.name.Some? && Trunc(op.name.value, k) == Trunc(name, k)
  }

  lemma ClearUntouched(free: seq<Block>, b: Block, w: int)
    requires Sorted(free) && b.Good() && Clear(free, b.addr, b.size) && b.Holds(w)
    ensures !Has(free, w)
  {
    ClearBytes(free, b.addr, b.size, w);
  }

  /** The slot that an operation frees is not that of a live block of another name. */
  lemma OtherSlot(s: State, k: nat, name: Option<string>, i: int)
    requires 0 <= i < |s.named| && s.named[i].Live() && !Frees(FreeNamed(name), s.named[i].name, k)
    ensures Find(s.named, name, k) != i
  {
    hide Find;
    var j := Find(s.named, name, k);
    assert j >= 0 ==> Matches(s.named[j], name, k);
  }

  lemma LiveElsewhere(s: State, k: nat, l0: seq<Block>, i: int, j: int, w: int)
    requires Partition(s, k, l0) && 0 <= i < |s.named| && 0 <= j < |s.named| && i != j
    requires s.named[i].Live() && s.named[i].Span().Holds(w)
    ensures !s.named[j].Span().Holds(w)
  {
    if s.named[j].Live() {
      assert Disjoint(s.named[i].Span(), s.named[j].Span()) || Disjoint(s.named[j].Span(), s.named[i].Span()) by {
        if i < j {} else {}
      }
    }
  }

  /** One operation: a live named block that is not the one freed keeps its slot and its bytes. */
  lemma LiveContentsKept(s: State, k: nat, l0: seq<Block>, op: Op, m: Memory, m': Memory, i: int, w: int)
    requires Partition(s, k, l0) && op.Legal() && Writes(m, m', s, k, op)
    requires 0 <= i < |s.named| && s.named[i].Live() && s.named[i].Span().Holds(w) && !Frees(op, s.named[i].name, k)
    ensures Sorted(s.free)
    ensures var s' := Step(s, k, op).1; i < |s'.named| && s'.named[i] == s.named[i]
    ensures Read(m', w) == Read(m, w)
  {
    ClearUntouched(s.free, s.named[i].Span(), w);
    if op.FreeNamed? {
      OtherSlot(s, k, op.name, i);
      var j := Find(s.named, op.name, k);
      if j >= 0 {
        LiveElsewhere(s, k, l0, i, j, w);
      }
    }
    hide Partition, Has, Alloc, Release, Find, MaskUp, RoundUp, PowerOfTwo, Sorted;
  }

  lemma HandedContentsKept(s: State, k: nat, l0: seq<Block>, op: Op, m: Memory, m': Memory, i: int, w: int)
    requires Partition(s, k, l0) && op.Legal() && Writes(m, m', s, k, op)
    requires 0 <= i < |s.handed| && s.handed[i].Holds(w)
    ensures Sorted(s.free) && s.handed <= Step(s, k, op).1.handed
    ensures Read(m', w) == Read(m, w)
  {
    ClearUntouched(s.free, s.handed[i], w);
    HandedGrows(s, k, op);
    if op.FreeNamed? {
      var j := Find(s.named, op.name, k);
      assert j >= 0 && s.named[j].Live() ==> Disjoint(s.handed[i], s.named[j].Span());
    }
    hide Partition, Has, Step, Find, PowerOfTwo, Sorted;
  }

  /** The operations happen in turn; `mems` is memory before, between and after them. */
  ghost predicate RunsOn(s: State, k: nat, ops: seq<Op>, s': State, mems: seq<Memory>)
    decreases |ops|
  {
    && |mems| == |ops| + 1
    && if ops == [] then s' == s
       else Sorted(s.free) && ops[0].Legal() && Writes(mems[0], mems[1], s, k, ops[0])
            && RunsOn(Step(s, k, ops[0]).1, k, ops[1..], s', mems[1..])
  }

  /** A live named block keeps its slot and every byte through every run that does not free its name. */
  lemma {:induction false} LiveContentsInRun(s: State, k: nat, l0: seq<Block>, ops: seq<Op>, s': State, mems: seq<Memory>, i: int, w: int)
    requires Partition(s, k, l0) && RunsOn(s, k, ops, s', mems)
    requires 0 <= i < |s.named| && s.named[i].Live() && s.named[i].Span().Holds(w)
    requires forall j | 0 <= j < |ops| :: !Frees(ops[j], s.named[i].name, k)
    ensures i < |s'.named| && s'.named[i] == s.named[i]
    ensures Read(mems[|ops|], w) == Read(mems[0], w)
    decreases |ops|
  {
    hide Partition, Step, Frees, Writes, Sorted;
    if ops != [] {
      LiveContentsKept(s, k, l0, ops[0], mems[0], mems[1], i, w);
      StepKeeps(s, k, l0, ops[0]);
      var rest := ops[1..];
      forall j | 0 <= j < |rest| ensures !Frees(rest[j], s.named[i].name, k) {
        assert rest[j] == ops[j + 1];
      }
      LiveContentsInRun(Step(s, k, ops[0]).1, k, l0, rest, s', mems[1..], i, w);
    }
  }

  /** A block handed out without a name keeps every byte through every run. */
  lemma {:induction false} HandedContentsInRun(s: State, k: nat, l0: seq<Block>, ops: seq<Op>, s': State, mems: seq<Memory>, i: int, w: int)
    requires Partition(s, k, l0) && RunsOn(s, k, ops, s', mems)
    requires 0 <= i < |s.handed| && s.handed[i].Holds(w)
    ensures s.handed <= s'.handed && Read(mems[|ops|], w) == Read(mems[0], w)
    decreases |ops|
  {
    hide Partition, Step, Writes, Sorted;
    if ops != [] {
      HandedContentsKept(s, k, l0, ops[0], mems[0], mems[1], i, w);
      StepKeeps(s, k, l0, ops[0]);
      HandedContentsInRun(Step(s, k, ops[0]).1, k, l0, ops[1..], s', mems[1..], i, w);
    }
  }
}
