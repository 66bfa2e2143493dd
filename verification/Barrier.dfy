/**
 cvmx_coremask_barrier_sync as interleaved steps of 32 cores. A table of barriers, one per mask
 ever used, is searched and updated under a spinlock; the cores that wait poll an exit counter
 that wraps at 32 bits without holding the lock.
 */
module Barrier {
  import opened Bits

  const MAX_SYNCS := 20
  const CORES := 32
  const TWO32 := 0x1_0000_0000

  datatype Slot = Slot(coremask: nat, checkin: nat, exit: nat)

  /** Where a core is in the call. `round` counts the rounds of its barrier; no step reads it. */
  datatype Pc =
    | Idle
    | Entering(mask: nat)
    | Scanning(mask: nat, i: nat)
    | CheckingIn(mask: nat, i: nat, target: nat)
    | Comparing(mask: nat, i: nat, target: nat, round: nat)
    | Signalling(mask: nat, i: nat, target: nat, round: nat)
    | Releasing(mask: nat, i: nat, target: nat, round: nat)
    | Spinning(mask: nat, i: nat, target: nat, round: nat)
    | Failing(mask: nat)
    | Aborted(mask: nat)
  {
    /** Between taking and releasing the spinlock. */
    predicate HoldsLock() { Scanning? || CheckingIn? || Comparing? || Signalling? || Releasing? || Failing? }

    /** Checked in to barrier `j` and not yet past it. */
    predicate WaitsAt(j: nat) { (Comparing? || Signalling? || Releasing? || Spinning?) && i == j }
  }

  datatype Machine = Machine(locked: bool, slots: seq<Slot>, pcs: seq<Pc>)

  /** Per barrier: rounds completed; per barrier and core: rounds entered and left. And who last took the lock. */
  datatype History = History(completed: seq<nat>, entered: seq<seq<nat>>, left: seq<seq<nat>>, holder: nat)

  datatype Step =
    | Call(core: nat, mask: nat)
    | Acquire(core: nat)
    | Scan(core: nat)
    | CheckIn(core: nat)
    | Compare(core: nat)
    | Signal(core: nat)
    | Release(core: nat)
    | Spin(core: nat)
    | Fail(core: nat)

  predicate InTable(m: Machine, pc: Pc) {
    (pc.CheckingIn? || pc.Comparing? || pc.Signalling? || pc.Releasing? || pc.Spinning?) && pc.i < |m.slots|
  }

  predicate Enabled(m: Machine, step: Step) {
    && step.core < |m.pcs|
    && var pc := m.pcs[step.core];
      match step
      case Call(c, mask) => pc.Idle? && 0 < mask < TWO32 && Has(mask, c)
      case Acquire(_) => pc.Entering? && !m.locked
      case Scan(_) => pc.Scanning? && (pc.i >= MAX_SYNCS || pc.i < |m.slots|)
      case CheckIn(_) => pc.CheckingIn? && InTable(m, pc)
      case Compare(_) => pc.Comparing? && InTable(m, pc)
      case Signal(_) => pc.Signalling? && InTable(m, pc)
      case Release(_) => pc.Releasing?
      case Spin(_) => pc.Spinning? && InTable(m, pc)
      case Fail(_) => pc.Failing?
  }

  function At(t: seq<nat>, i: nat): nat { if i < |t| then t[i] else 0 }

  function Bump(t: seq<seq<nat>>, i: nat, c: nat): seq<seq<nat>> {
    if i < |t| && c < |t[i]| then t[i := t[i][c := t[i][c] + 1]] else t
  }

  function Apply(m: Machine, h: History, step: Step): Machine
    requires Enabled(m, step)
  {
    var c := step.core;
    var pc := m.pcs[c];
    match step
    case Call(_, mask) => m.(pcs := m.pcs[c := Entering(mask)])
    case Acquire(_) => m.(locked := true, pcs := m.pcs[c := Scanning(pc.mask, 0)])
    case Scan(_) =>
      if pc.i >= MAX_SYNCS then m.(pcs := m.pcs[c := Failing(pc.mask)])
      else
        var s := m.slots[pc.i];
        var owner := if s.coremask == 0 then pc.mask else s.coremask;
        m.(slots := m.slots[pc.i := s.(coremask := owner)],
           pcs := m.pcs[c := if owner == pc.mask then CheckingIn(pc.mask, pc.i, (s.exit + 1) % TWO32) else Scanning(pc.mask, pc.i + 1)])
    case CheckIn(_) =>
      var s := m.slots[pc.i];
      m.(slots := m.slots[pc.i := s.(checkin := Or(s.checkin, Bit(c)))],
         pcs := m.pcs[c := Comparing(pc.mask, pc.i, pc.target, At(h.completed, pc.i) + 1)])
    case Compare(_) =>
      var s := m.slots[pc.i];
      if s.checkin == pc.mask then
        m.(slots := m.slots[pc.i := s.(checkin := 0)], pcs := m.pcs[c := Signalling(pc.mask, pc.i, pc.target, pc.round)])
      else m.(pcs := m.pcs[c := Releasing(pc.mask, pc.i, pc.target, pc.round)])
    case Signal(_) =>
      m.(slots := m.slots[pc.i := m.slots[pc.i].(exit := pc.target)],
         pcs := m.pcs[c := Releasing(pc.mask, pc.i, pc.target, pc.round)])
    case Release(_) => m.(locked := false, pcs := m.pcs[c := Spinning(pc.mask, pc.i, pc.target, pc.round)])
    case Spin(_) => if m.slots[pc.i].exit != pc.target then m else m.(pcs := m.pcs[c := Idle])
    case Fail(_) => m.(locked := false, pcs := m.pcs[c := Aborted(pc.mask)])
  }

  function Record(m: Machine, h: History, step: Step): History
    requires Enabled(m, step)
  {
    var c := step.core;
    var pc := m.pcs[c];
    match step
    case Acquire(_) => h.(holder := c)
    case CheckIn(_) => h.(entered := Bump(h.entered, pc.i, c))
    case Signal(_) => if pc.i < |h.completed| then h.(completed := h.completed[pc.i := h.completed[pc.i] + 1]) else h
    case Spin(_) => if m.slots[pc.i].exit != pc.target then h else h.(left := Bump(h.left, pc.i, c))
    case _ => h
  }

  // ---------------------------------------------------------------- the invariant

  predicate MaskOk(mask: nat, c: nat) { 0 < mask < TWO32 && Has(mask, c) }

  predicate ShapeOk(m: Machine, h: History) {
    && |m.slots| == MAX_SYNCS && |m.pcs| == CORES
    && |h.completed| == MAX_SYNCS && |h.entered| == MAX_SYNCS && |h.left| == MAX_SYNCS
    && (forall i | 0 <= i < MAX_SYNCS :: |h.entered[i]| == CORES && |h.left[i]| == CORES)
  }

  /** Entries are used from the front, each for its own mask. */
  predicate TableOk(slots: seq<Slot>) {
    && (forall i | 0 <= i < |slots| :: slots[i].coremask < TWO32 && slots[i].checkin < TWO32 && slots[i].exit < TWO32)
    && (forall i, j | 0 <= i < j < |slots| && slots[j].coremask != 0 ::
          slots[i].coremask != 0 && slots[i].coremask != slots[j].coremask)
  }

  predicate LockOk(m: Machine, h: History) {
    forall c | 0 <= c < |m.pcs| :: m.pcs[c].HoldsLock() <==> m.locked && c == h.holder
  }

  /** The first `n` entries belong to other masks. */
  predicate OthersBefore(slots: seq<Slot>, mask: nat, n: nat) {
    n <= |slots| && forall j | 0 <= j < n :: slots[j].coremask != 0 && slots[j].coremask != mask
  }

  predicate Uses(m: Machine, mask: nat, i: nat) { i < |m.slots| && m.slots[i].coremask == mask }

  /** What a core knows of its own call. */
  predicate PcOk(m: Machine, h: History, c: nat)
    requires ShapeOk(m, h) && c < CORES
  {
    var pc := m.pcs[c];
    match pc
    case Idle => true
    case Entering(mask) => MaskOk(mask, c)
    case Scanning(mask, i) => MaskOk(mask, c) && OthersBefore(m.slots, mask, i)
    case CheckingIn(mask, i, target) => MaskOk(mask, c) && Uses(m, mask, i) && target == (h.completed[i] + 1) % TWO32
    case Comparing(mask, i, target, round) => MaskOk(mask, c) && Uses(m, mask, i) && target == round % TWO32 && round == h.completed[i] + 1
    case Signalling(mask, i, target, round) => MaskOk(mask, c) && Uses(m, mask, i) && target == round % TWO32 && round == h.completed[i] + 1
    case Releasing(mask, i, target, round) => MaskOk(mask, c) && Uses(m, mask, i) && target == round % TWO32 && round == h.entered[i][c]
    case Spinning(mask, i, target, round) => MaskOk(mask, c) && Uses(m, mask, i) && target == round % TWO32 && round == h.entered[i][c]
    case Failing(mask) => MaskOk(mask, c) && OthersBefore(m.slots, mask, MAX_SYNCS)
    case Aborted(mask) => MaskOk(mask, c) && OthersBefore(m.slots, mask, MAX_SYNCS)
  }

  predicate SignalPending(m: Machine, h: History, i: nat) {
    m.locked && h.holder < |m.pcs| && m.pcs[h.holder].Signalling? && m.pcs[h.holder].i == i
  }

  predicate ComparePending(m: Machine, h: History, i: nat) {
    m.locked && h.holder < |m.pcs| && m.pcs[h.holder].Comparing? && m.pcs[h.holder].i == i
  }

  predicate SlotOk(m: Machine, h: History, i: nat)
    requires ShapeOk(m, h) && i < MAX_SYNCS
  {
    && m.slots[i].exit == h.completed[i] % TWO32
    && (m.slots[i].coremask == 0 ==> h.completed[i] == 0 && m.slots[i].checkin == 0)
    && (SignalPending(m, h, i) ==> m.slots[i].checkin == 0)
    && (m.slots[i].coremask != 0 && !ComparePending(m, h, i) ==> m.slots[i].checkin != m.slots[i].coremask)
  }

  /** How core `d` stands to barrier `i`: a member has entered one round more than are complete just when it is checked in. */
  predicate CoreOk(m: Machine, h: History, i: nat, d: nat)
    requires ShapeOk(m, h) && i < MAX_SYNCS && d < CORES
  {
    var e, l, k := h.entered[i][d], h.left[i][d], h.completed[i];
    var here := Has(m.slots[i].checkin, d);
    && e == l + (if m.pcs[d].WaitsAt(i) then 1 else 0)
    && (here ==> m.pcs[d].WaitsAt(i))
    && (if !Has(m.slots[i].coremask, d) then !here && e == 0
        else if SignalPending(m, h, i) then e == k + 1 && m.pcs[d].WaitsAt(i)
        else e == k + (if here then 1 else 0))
    && (m.pcs[d].WaitsAt(i) ==> m.pcs[d].round == e)
  }

  predicate Inv(m: Machine, h: History) {
    && ShapeOk(m, h) && TableOk(m.slots) && LockOk(m, h)
    && (forall c | 0 <= c < CORES :: PcOk(m, h, c))
    && (forall i | 0 <= i < MAX_SYNCS :: SlotOk(m, h, i))
    && (forall i, d | 0 <= i < MAX_SYNCS && 0 <= d < CORES :: CoreOk(m, h, i, d))
  }

  // ---------------------------------------------------------------- consequences

  /** No core has left round k of a barrier before every member of its mask has entered round k. */
  lemma BarrierSafe(m: Machine, h: History, i: nat, c: nat, d: nat)
    requires Inv(m, h) && i < MAX_SYNCS && c < CORES && d < CORES && Has(m.slots[i].coremask, c) && Has(m.slots[i].coremask, d)
    ensures h.left[i][c] <= h.entered[i][d] <= h.left[i][c] + 2
    ensures h.left[i][d] <= h.completed[i] <= h.entered[i][d]
  {
    assert CoreOk(m, h, i, c) && CoreOk(m, h, i, d);
  }

  /** When all members have entered the round a core waits for and no core is in the locked part, it is free to go. */
  lemma NoLostWakeup(m: Machine, h: History, c: nat)
    requires Inv(m, h) && c < CORES && m.pcs[c].Spinning? && m.pcs[c].i < MAX_SYNCS && !m.locked
    requires forall d | 0 <= d < CORES && Has(m.slots[m.pcs[c].i].coremask, d) :: h.entered[m.pcs[c].i][d] >= m.pcs[c].round
    ensures m.slots[m.pcs[c].i].exit == m.pcs[c].target
  {
    hide Has;
    var i := m.pcs[c].i;
    assert PcOk(m, h, c) && SlotOk(m, h, i) && CoreOk(m, h, i, c);
    if m.pcs[c].round == h.completed[i] + 1 {
      forall d: nat | d < CORES ensures Has(m.slots[i].coremask, d) == Has(m.slots[i].checkin, d) {
        assert CoreOk(m, h, i, d);
      }
      TwoToThe32();
      SameBits(m.slots[i].coremask, m.slots[i].checkin, CORES);
    }
  }

  lemma {:induction false} TwoToThe32()
    ensures Bit(CORES) == TWO32
  {
    assert Bit(8) == 256;
    assert Bit(16) == 65536 by { assert Bit(12) == 4096; }
    assert Bit(24) == 0x100_0000 by { assert Bit(20) == 0x10_0000; }
    assert Bit(28) == 0x1000_0000;
  }

  /** The waiting core may go exactly when its round is complete: the exit counter never runs ahead of it, wrap or no wrap. */
  lemma ReleasedExactly(m: Machine, h: History, c: nat)
    requires Inv(m, h) && c < CORES && m.pcs[c].Spinning?
    ensures m.pcs[c].i < MAX_SYNCS
    ensures h.completed[m.pcs[c].i] <= m.pcs[c].round <= h.completed[m.pcs[c].i] + 1
    ensures m.slots[m.pcs[c].i].exit == m.pcs[c].target <==> m.pcs[c].round == h.completed[m.pcs[c].i]
  {
    hide Has;
    var i := m.pcs[c].i;
    assert PcOk(m, h, c) && SlotOk(m, h, i) && CoreOk(m, h, i, c);
    assert Has(m.slots[i].coremask, c);
  }

  // ---------------------------------------------------------------- every step keeps the invariant

  /** Entries in use stay as they are. */
  predicate Grows(slots: seq<Slot>, slots': seq<Slot>) {
    |slots'| == |slots| && forall i | 0 <= i < |slots| && slots[i].coremask != 0 :: slots'[i].coremask == slots[i].coremask
  }

  lemma PcFrame(m: Machine, h: History, m': Machine, h': History, d: nat)
    requires ShapeOk(m, h) && ShapeOk(m', h') && d < CORES && PcOk(m, h, d) && m'.pcs[d] == m.pcs[d]
    requires Grows(m.slots, m'.slots) && (forall i | 0 <= i < MAX_SYNCS :: h'.entered[i][d] == h.entered[i][d])
    requires h'.completed == h.completed || !m.pcs[d].HoldsLock()
    ensures PcOk(m', h', d)
  {
    hide Has;
  }

  lemma LockFrame(m: Machine, h: History, m': Machine, h': History, c: nat)
    requires LockOk(m, h) && c < |m.pcs| == |m'.pcs| && m'.pcs == m.pcs[c := m'.pcs[c]]
    requires m'.pcs[c].HoldsLock() == m.pcs[c].HoldsLock() && m'.locked == m.locked && h'.holder == h.holder
    ensures LockOk(m', h')
  {
    forall d | 0 <= d < |m'.pcs| ensures m'.pcs[d].HoldsLock() <==> m'.locked && d == h'.holder {
      assert m.pcs[d].HoldsLock() <==> m.locked && d == h.holder;
    }
  }

  /** A step that only moves one core, neither to nor from a place where a barrier counts it or depends on it. */
  lemma MoveFrame(m: Machine, h: History, m': Machine, h': History, c: nat)
    requires Inv(m, h) && ShapeOk(m', h') && LockOk(m', h') && c < CORES && PcOk(m', h', c)
    requires m'.slots == m.slots && m'.pcs == m.pcs[c := m'.pcs[c]]
    requires h'.completed == h.completed && h'.entered == h.entered && h'.left == h.left
    requires forall i | 0 <= i < MAX_SYNCS :: m'.pcs[c].WaitsAt(i) == m.pcs[c].WaitsAt(i)
    requires forall i | 0 <= i < MAX_SYNCS && m.pcs[c].WaitsAt(i) && m'.pcs[c].WaitsAt(i) :: m'.pcs[c].round == m.pcs[c].round
    requires forall i | 0 <= i < MAX_SYNCS :: SignalPending(m', h', i) == SignalPending(m, h, i)
    requires forall i | 0 <= i < MAX_SYNCS :: ComparePending(m', h', i) == ComparePending(m, h, i)
    ensures Inv(m', h')
  {
    hide Has, LockOk, SignalPending, ComparePending, TableOk;
    forall d | 0 <= d < CORES ensures PcOk(m', h', d) {
      if d != c {
        PcFrame(m, h, m', h', d);
      }
    }
    hide PcOk;
    forall i | 0 <= i < MAX_SYNCS ensures SlotOk(m', h', i) {
      assert SlotOk(m, h, i);
    }
    forall i, d | 0 <= i < MAX_SYNCS && 0 <= d < CORES ensures CoreOk(m', h', i, d) {
      assert CoreOk(m, h, i, d);
    }
  }

  lemma CallKeeps(m: Machine, h: History, c: nat, mask: nat)
    requires Inv(m, h) && Enabled(m, Call(c, mask))
    ensures Inv(Apply(m, h, Call(c, mask)), Record(m, h, Call(c, mask)))
  {
    var m', h' := Apply(m, h, Call(c, mask)), Record(m, h, Call(c, mask));
    LockFrame(m, h, m', h', c);
    hide TableOk, SlotOk, CoreOk, Has;
    MoveFrame(m, h, m', h', c);
  }

  lemma AcquireKeeps(m: Machine, h: History, c: nat)
    requires Inv(m, h) && Enabled(m, Acquire(c))
    ensures Inv(Apply(m, h, Acquire(c)), Record(m, h, Acquire(c)))
  {
    hide TableOk, SlotOk, CoreOk, Has;
    var m', h' := Apply(m, h, Acquire(c)), Record(m, h, Acquire(c));
    assert PcOk(m, h, c);
    forall d | 0 <= d < |m'.pcs| ensures m'.pcs[d].HoldsLock() <==> m'.locked && d == h'.holder {
      assert m.pcs[d].HoldsLock() <==> m.locked && d == h.holder;
    }
    MoveFrame(m, h, m', h', c);
  }

  /** The step of a core that holds the lock is a step of the holder. */
  lemma Holder(m: Machine, h: History, c: nat)
    requires Inv(m, h) && c < CORES && m.pcs[c].HoldsLock()
    ensures m.locked && h.holder == c && PcOk(m, h, c)
    ensures forall d | 0 <= d < CORES && d != c :: !m.pcs[d].HoldsLock()
  {
    hide PcOk, SlotOk, CoreOk, TableOk;
    assert m.pcs[c].HoldsLock() <==> m.locked && c == h.holder;
  }

  lemma UnlockFrame(m: Machine, h: History, m': Machine, h': History, c: nat)
    requires Inv(m, h) && c < CORES && m.pcs[c].HoldsLock() && h' == h
    requires |m'.pcs| == CORES && m'.pcs == m.pcs[c := m'.pcs[c]] && !m'.pcs[c].HoldsLock() && !m'.locked
    ensures LockOk(m', h')
  {
    Holder(m, h, c);
  }

  lemma ReleaseKeeps(m: Machine, h: History, c: nat)
    requires Inv(m, h) && Enabled(m, Release(c))
    ensures Inv(Apply(m, h, Release(c)), Record(m, h, Release(c)))
  {
    Holder(m, h, c);
    var m', h' := Apply(m, h, Release(c)), Record(m, h, Release(c));
    UnlockFrame(m, h, m', h', c);
    hide TableOk, SlotOk, CoreOk, Has, LockOk;
    MoveFrame(m, h, m', h', c);
  }

  lemma FailKeeps(m: Machine, h: History, c: nat)
    requires Inv(m, h) && Enabled(m, Fail(c))
    ensures Inv(Apply(m, h, Fail(c)), Record(m, h, Fail(c)))
  {
    Holder(m, h, c);
    var m', h' := Apply(m, h, Fail(c)), Record(m, h, Fail(c));
    UnlockFrame(m, h, m', h', c);
    hide TableOk, SlotOk, CoreOk, Has, LockOk;
    MoveFrame(m, h, m', h', c);
  }

  // The table is searched; the first unused entry is taken for the mask.

  lemma NothingPending(m: Machine, h: History, i: nat)
    requires h.holder < |m.pcs| && !m.pcs[h.holder].Signalling? && !m.pcs[h.holder].Comparing?
    ensures !SignalPending(m, h, i) && !ComparePending(m, h, i)
  {
  }

  /** In an entry not yet used no core is a member, waits, or has ever been counted. */
  lemma UnusedEntry(m: Machine, h: History, i: nat, d: nat)
    requires Inv(m, h) && i < MAX_SYNCS && d < CORES && m.slots[i].coremask == 0
    ensures !m.pcs[d].WaitsAt(i) && h.entered[i][d] == 0 && h.left[i][d] == 0 && h.completed[i] == 0 && m.slots[i].checkin == 0
  {
    assert CoreOk(m, h, i, d) && SlotOk(m, h, i) && PcOk(m, h, d);
    ZeroHas(d);
    hide Has;
  }

  lemma ScanTable(slots: seq<Slot>, i: nat, mask: nat)
    requires TableOk(slots) && i < |slots| && 0 < mask < TWO32 && OthersBefore(slots, mask, i)
    ensures var owner := if slots[i].coremask == 0 then mask else slots[i].coremask;
            var slots' := slots[i := slots[i].(coremask := owner)];
            TableOk(slots') && Grows(slots, slots') && (owner != mask ==> slots' == slots && OthersBefore(slots', mask, i + 1))
  {
  }

  lemma ScanKeeps(m: Machine, h: History, c: nat)
    requires Inv(m, h) && Enabled(m, Scan(c))
    ensures Inv(Apply(m, h, Scan(c)), Record(m, h, Scan(c)))
  {
    Holder(m, h, c);
    var m', h' := Apply(m, h, Scan(c)), Record(m, h, Scan(c));
    var i, mask := m.pcs[c].i, m.pcs[c].mask;
    LockFrame(m, h, m', h', c);
    if i < MAX_SYNCS {
      ScanTable(m.slots, i, mask);
      assert SlotOk(m, h, i);
      SameTarget(h.completed[i]);
    }
    hide TableOk, Has, LockOk, Grows;
    forall d | 0 <= d < CORES ensures PcOk(m', h', d) {
      if d != c {
        PcFrame(m, h, m', h', d);
      }
    }
    forall j: nat | j < MAX_SYNCS ensures SlotOk(m', h', j) && !SignalPending(m', h', j) && !SignalPending(m, h, j) {
      assert SlotOk(m, h, j);
      NothingPending(m, h, j);
      NothingPending(m', h', j);
    }
    hide PcOk, SlotOk, SignalPending;
    forall j: nat, d: nat | j < MAX_SYNCS && d < CORES ensures CoreOk(m', h', j, d) {
      assert CoreOk(m, h, j, d);
      if j == i && m.slots[i].coremask == 0 {
        UnusedEntry(m, h, i, d);
        ZeroHas(d);
      }
    }
  }

  lemma SameTarget(k: nat)
    ensures (k % TWO32 + 1) % TWO32 == (k + 1) % TWO32
  {
  }

  // A core checks in.

  lemma CheckInKeeps(m: Machine, h: History, c: nat)
    requires Inv(m, h) && Enabled(m, CheckIn(c))
    ensures Inv(Apply(m, h, CheckIn(c)), Record(m, h, CheckIn(c)))
  {
    Holder(m, h, c);
    var m', h' := Apply(m, h, CheckIn(c)), Record(m, h, CheckIn(c));
    var i := m.pcs[c].i;
    LockFrame(m, h, m', h', c);
    CheckInWord(m.slots[i].checkin, c);
    assert TableOk(m'.slots) && Grows(m.slots, m'.slots);
    hide TableOk, Has, LockOk, Grows, Or, Bit;
    forall d | 0 <= d < CORES ensures PcOk(m', h', d) {
      if d != c {
        PcFrame(m, h, m', h', d);
      }
    }
    forall j: nat | j < MAX_SYNCS ensures SlotOk(m', h', j) && !SignalPending(m', h', j) && !SignalPending(m, h, j) {
      assert SlotOk(m, h, j);
    }
    hide PcOk, SlotOk, SignalPending;
    forall j: nat, d: nat | j < MAX_SYNCS && d < CORES ensures CoreOk(m', h', j, d) {
      assert CoreOk(m, h, j, d);
    }
  }

  lemma CheckInWord(checkin: nat, c: nat)
    requires checkin < TWO32 && c < CORES
    ensures Or(checkin, Bit(c)) < TWO32 && (forall d: nat :: Has(Or(checkin, Bit(c)), d) <==> Has(checkin, d) || d == c)
  {
    TwoToThe32();
    BitGrows(c, CORES);
    OrBound(checkin, Bit(c), CORES);
    forall d: nat ensures Has(Or(checkin, Bit(c)), d) <==> Has(checkin, d) || d == c {
      OrHas(checkin, Bit(c), d);
      BitHas(c, d);
    }
  }

  // The last to check in clears the check-ins, and then lets the round complete.

  lemma CompareKeeps(m: Machine, h: History, c: nat)
    requires Inv(m, h) && Enabled(m, Compare(c))
    ensures Inv(Apply(m, h, Compare(c)), Record(m, h, Compare(c)))
  {
    Holder(m, h, c);
    var m', h' := Apply(m, h, Compare(c)), Record(m, h, Compare(c));
    var i := m.pcs[c].i;
    LockFrame(m, h, m', h', c);
    assert TableOk(m'.slots) && Grows(m.slots, m'.slots);
    assert CoreOk(m, h, i, c) && SlotOk(m, h, i);
    hide TableOk, Has, LockOk, Grows;
    forall d | 0 <= d < CORES ensures PcOk(m', h', d) {
      if d != c {
        PcFrame(m, h, m', h', d);
      }
    }
    forall j: nat | j < MAX_SYNCS ensures SlotOk(m', h', j) && !SignalPending(m, h, j) {
      assert SlotOk(m, h, j);
    }
    hide PcOk, SlotOk;
    forall j: nat, d: nat | j < MAX_SYNCS && d < CORES ensures CoreOk(m', h', j, d) {
      assert CoreOk(m, h, j, d);
      ZeroHas(d);
    }
  }

  lemma SignalKeeps(m: Machine, h: History, c: nat)
    requires Inv(m, h) && Enabled(m, Signal(c))
    ensures Inv(Apply(m, h, Signal(c)), Record(m, h, Signal(c)))
  {
    Holder(m, h, c);
    var m', h' := Apply(m, h, Signal(c)), Record(m, h, Signal(c));
    var i := m.pcs[c].i;
    LockFrame(m, h, m', h', c);
    assert TableOk(m'.slots) && Grows(m.slots, m'.slots);
    assert CoreOk(m, h, i, c) && SlotOk(m, h, i);
    hide TableOk, Has, LockOk, Grows;
    forall d | 0 <= d < CORES ensures PcOk(m', h', d) {
      if d != c {
        PcFrame(m, h, m', h', d);
      }
    }
    forall j: nat | j < MAX_SYNCS ensures SlotOk(m', h', j) && !SignalPending(m', h', j) {
      assert SlotOk(m, h, j);
    }
    hide PcOk, SlotOk;
    forall j: nat, d: nat | j < MAX_SYNCS && d < CORES ensures CoreOk(m', h', j, d) {
      assert CoreOk(m, h, j, d);
      ZeroHas(d);
    }
  }

  // A core sees the exit it waits for and leaves.

  lemma SpinKeeps(m: Machine, h: History, c: nat)
    requires Inv(m, h) && Enabled(m, Spin(c))
    ensures Inv(Apply(m, h, Spin(c)), Record(m, h, Spin(c)))
  {
    ReleasedExactly(m, h, c);
    var m', h' := Apply(m, h, Spin(c)), Record(m, h, Spin(c));
    var i := m.pcs[c].i;
    if m.slots[i].exit == m.pcs[c].target {
      LockFrame(m, h, m', h', c);
      assert PcOk(m, h, c) && CoreOk(m, h, i, c);
      hide TableOk, Has;
      assert m.pcs[c].HoldsLock() <==> m.locked && c == h.holder;
      hide LockOk;
      forall d | 0 <= d < CORES ensures PcOk(m', h', d) {
        if d != c {
          PcFrame(m, h, m', h', d);
        }
      }
      forall j: nat | j < MAX_SYNCS ensures SlotOk(m', h', j) && SignalPending(m', h', j) == SignalPending(m, h, j) {
        assert SlotOk(m, h, j);
      }
      hide PcOk, SlotOk, SignalPending;
      forall j: nat, d: nat | j < MAX_SYNCS && d < CORES ensures CoreOk(m', h', j, d) {
        assert CoreOk(m, h, j, d);
      }
    }
  }

  lemma StepKeeps(m: Machine, h: History, step: Step)
    requires Inv(m, h) && Enabled(m, step)
    ensures Inv(Apply(m, h, step), Record(m, h, step))
  {
    hide Inv, Enabled, Apply, Record;
    match step
    case Call(c, mask) => CallKeeps(m, h, c, mask);
    case Acquire(c) => AcquireKeeps(m, h, c);
    case Scan(c) => ScanKeeps(m, h, c);
    case CheckIn(c) => CheckInKeeps(m, h, c);
    case Compare(c) => CompareKeeps(m, h, c);
    case Signal(c) => SignalKeeps(m, h, c);
    case Release(c) => ReleaseKeeps(m, h, c);
    case Spin(c) => SpinKeeps(m, h, c);
    case Fail(c) => FailKeeps(m, h, c);
  }

  // ---------------------------------------------------------------- whole runs

  predicate Reaches(m: Machine, h: History, steps: seq<Step>, m': Machine, h': History)
    decreases |steps|
  {
    if steps == [] then m' == m && h' == h
    else Enabled(m, steps[0]) && Reaches(Apply(m, h, steps[0]), Record(m, h, steps[0]), steps[1..], m', h')
  }

  function Start(): Machine { Machine(false, seq(MAX_SYNCS, _ => Slot(0, 0, 0)), seq(CORES, _ => Idle)) }

  function NoRounds(): seq<seq<nat>> { seq(MAX_SYNCS, _ => seq(CORES, _ => 0)) }

  function NoHistory(): History { History(seq(MAX_SYNCS, _ => 0), NoRounds(), NoRounds(), 0) }

  lemma StartInv()
    ensures Inv(Start(), NoHistory())
  {
    forall d: nat | d < CORES ensures !Has(0, d) {
      ZeroHas(d);
    }
    hide Has;
  }

  lemma {:induction false} RunKeeps(m: Machine, h: History, steps: seq<Step>, m': Machine, h': History)
    requires Inv(m, h) && Reaches(m, h, steps, m', h')
    ensures Inv(m', h')
    decreases |steps|
  {
    hide Inv, Enabled, Apply, Record;
    if steps != [] {
      StepKeeps(m, h, steps[0]);
      RunKeeps(Apply(m, h, steps[0]), Record(m, h, steps[0]), steps[1..], m', h');
    }
  }

  /**
   In every run in which only members call with a mask: each mask has one entry of the table, and
   when a core has left round k of that barrier every member has entered round k.
   */
  lemma NobodyLeavesEarly(steps: seq<Step>, m: Machine, h: History, i: nat, c: nat, d: nat)
    requires Reaches(Start(), NoHistory(), steps, m, h)
    requires i < MAX_SYNCS && c < CORES && d < CORES
    ensures Inv(m, h)
    ensures Has(m.slots[i].coremask, c) && Has(m.slots[i].coremask, d) ==> h.left[i][c] <= h.entered[i][d]
    ensures !Has(m.slots[i].coremask, c) ==> h.left[i][c] == h.entered[i][c] == 0
    ensures forall j | 0 <= j < MAX_SYNCS && j != i && m.slots[i].coremask != 0 :: m.slots[j].coremask != m.slots[i].coremask
  {
    StartInv();
    RunKeeps(Start(), NoHistory(), steps, m, h);
    hide Reaches, LockOk, PcOk, SlotOk, Has;
    assert CoreOk(m, h, i, c);
    if Has(m.slots[i].coremask, c) && Has(m.slots[i].coremask, d) {
      BarrierSafe(m, h, i, c, d);
    }
    forall j | 0 <= j < MAX_SYNCS && j != i && m.slots[i].coremask != 0 ensures m.slots[j].coremask != m.slots[i].coremask {
      if j < i {} else {}
    }
  }

  // ---------------------------------------------------------------- calls and returns, by mask

  /** How often core `d` has called with the mask, by the steps alone. */
  function Calls(steps: seq<Step>, d: nat, mask: nat): nat {
    if steps == [] then 0 else (if steps[0] == Call(d, mask) then 1 else 0) + Calls(steps[1..], d, mask)
  }

  /** A step by which core `c` comes back from its call. */
  predicate ComesBack(m: Machine, h: History, step: Step, c: nat) {
    step.core == c && c < |m.pcs| && Enabled(m, step) && !m.pcs[c].Idle? && (c < |Apply(m, h, step).pcs| && Apply(m, h, step).pcs[c].Idle?)
  }

  /** The mask of core `c`'s latest call, which was `mask` before the step. */
  function CalledWith(step: Step, c: nat, mask: nat): nat { if step.Call? && step.core == c then step.mask else mask }

  /** How often core `c` comes back from calls with the mask; `latest` is that of the call it is in. */
  function Returns(m: Machine, h: History, steps: seq<Step>, c: nat, mask: nat, latest: nat): nat
    decreases |steps|
  {
    if steps == [] || !Enabled(m, steps[0]) then 0
    else
      (if ComesBack(m, h, steps[0], c) && latest == mask then 1 else 0)
      + Returns(Apply(m, h, steps[0]), Record(m, h, steps[0]), steps[1..], c, mask, CalledWith(steps[0], c, latest))
  }

  /** In a call with the mask, and not checked in yet. */
  predicate Before(pc: Pc, mask: nat) {
    (pc.Entering? || pc.Scanning? || pc.CheckingIn? || pc.Failing? || pc.Aborted?) && pc.mask == mask
  }

  /** The calls of core `d` with the mask are the rounds it entered there, and the one it is about to enter. */
  predicate CallsOk(m: Machine, h: History, d: nat, mask: nat, calls: nat)
    requires ShapeOk(m, h) && d < CORES
  {
    var early := if Before(m.pcs[d], mask) then 1 else 0;
    && (forall i | 0 <= i < MAX_SYNCS && m.slots[i].coremask == mask :: calls == h.entered[i][d] + early)
    && ((forall i | 0 <= i < MAX_SYNCS :: m.slots[i].coremask != mask) ==> calls == early)
  }

  /** The returns of core `c` from calls with the mask are the rounds it left there. */
  predicate ReturnsOk(m: Machine, h: History, c: nat, mask: nat, latest: nat, left: nat)
    requires ShapeOk(m, h) && c < CORES
  {
    && (!m.pcs[c].Idle? ==> m.pcs[c].mask == latest)
    && (forall i | 0 <= i < MAX_SYNCS && m.slots[i].coremask == mask :: left == h.left[i][c])
    && ((forall i | 0 <= i < MAX_SYNCS :: m.slots[i].coremask != mask) ==> left == 0)
  }

  predicate SameMasks(m: Machine, m': Machine) {
    |m.slots| == |m'.slots| && forall i | 0 <= i < |m.slots| :: m'.slots[i].coremask == m.slots[i].coremask
  }

  /** A core that does not search or check in enters no round and takes no entry. */
  lemma OtherSteps(m: Machine, h: History, step: Step)
    requires Inv(m, h) && Enabled(m, step) && !step.Scan? && !step.CheckIn?
    ensures SameMasks(m, Apply(m, h, step)) && Record(m, h, step).entered == h.entered
  {
    hide PcOk, SlotOk, CoreOk, LockOk, TableOk, Has;
  }

  /** The search takes at most the entry it stands at, and only if that is unused. */
  lemma ScanSteps(m: Machine, h: History, c: nat, mask: nat)
    requires Inv(m, h) && Enabled(m, Scan(c)) && mask != 0
    ensures var m', h' := Apply(m, h, Scan(c)), Record(m, h, Scan(c));
            && h' == h && |m'.slots| == MAX_SYNCS && m.pcs[c].mask == m'.pcs[c].mask
            && Before(m'.pcs[c], mask) == Before(m.pcs[c], mask)
            && (forall i | 0 <= i < MAX_SYNCS :: m'.slots[i].coremask == m.slots[i].coremask
                                                 || (m.slots[i].coremask == 0 && m'.slots[i].coremask == m.pcs[c].mask))
            && forall i | 0 <= i < MAX_SYNCS && m.slots[i].coremask == mask :: m'.slots[i].coremask == mask
  {
    hide PcOk, SlotOk, CoreOk, LockOk, TableOk, Has;
  }

  lemma CallsScan(m: Machine, h: History, c: nat, d: nat, mask: nat, calls: nat)
    requires Inv(m, h) && Enabled(m, Scan(c)) && d < CORES && mask != 0 && CallsOk(m, h, d, mask, calls)
    requires Inv(Apply(m, h, Scan(c)), Record(m, h, Scan(c)))
    ensures CallsOk(Apply(m, h, Scan(c)), Record(m, h, Scan(c)), d, mask, calls)
  {
    hide PcOk, SlotOk, CoreOk, LockOk, TableOk, Has, Before;
    var m', h' := Apply(m, h, Scan(c)), Record(m, h, Scan(c));
    ScanSteps(m, h, c, mask);
    forall i | 0 <= i < MAX_SYNCS && m.slots[i].coremask == 0 ensures h.entered[i][d] == 0 {
      UnusedEntry(m, h, i, d);
    }
    if i :| 0 <= i < MAX_SYNCS && m.slots[i].coremask == mask {
      OneEntry(m', h', i, mask);
    }
  }

  lemma CallsCheckIn(m: Machine, h: History, c: nat, d: nat, mask: nat, calls: nat)
    requires Inv(m, h) && Enabled(m, CheckIn(c)) && d < CORES && mask != 0 && CallsOk(m, h, d, mask, calls)
    requires Inv(Apply(m, h, CheckIn(c)), Record(m, h, CheckIn(c)))
    ensures CallsOk(Apply(m, h, CheckIn(c)), Record(m, h, CheckIn(c)), d, mask, calls)
  {
    hide PcOk, SlotOk, CoreOk, LockOk, TableOk, Has;
    CheckInSteps(m, h, c);
    OneEntry(m, h, m.pcs[c].i, m.pcs[c].mask);
  }

  lemma CallsOther(m: Machine, h: History, step: Step, d: nat, mask: nat, calls: nat)
    requires Inv(m, h) && Enabled(m, step) && !step.Scan? && !step.CheckIn?
    requires d < CORES && mask != 0 && CallsOk(m, h, d, mask, calls)
    requires Inv(Apply(m, h, step), Record(m, h, step))
    ensures CallsOk(Apply(m, h, step), Record(m, h, step), d, mask, calls + (if step == Call(d, mask) then 1 else 0))
  {
    hide PcOk, SlotOk, CoreOk, LockOk, TableOk, Has;
    OtherSteps(m, h, step);
  }

  lemma CallsKeep(m: Machine, h: History, step: Step, d: nat, mask: nat, calls: nat)
    requires Inv(m, h) && Enabled(m, step) && d < CORES && mask != 0 && CallsOk(m, h, d, mask, calls)
    ensures Inv(Apply(m, h, step), Record(m, h, step))
    ensures CallsOk(Apply(m, h, step), Record(m, h, step), d, mask, calls + (if step == Call(d, mask) then 1 else 0))
  {
    hide *;
    StepKeeps(m, h, step);
    match step
    case Scan(c) => CallsScan(m, h, c, d, mask, calls);
    case CheckIn(c) => CallsCheckIn(m, h, c, d, mask, calls);
    case _ => CallsOther(m, h, step, d, mask, calls);
  }

  /** No other entry has the mask. */
  lemma OneEntry(m: Machine, h: History, i: nat, mask: nat)
    requires Inv(m, h) && i < MAX_SYNCS && m.slots[i].coremask == mask != 0
    ensures forall j | 0 <= j < MAX_SYNCS && j != i :: m.slots[j].coremask != mask
  {
    hide PcOk, SlotOk, CoreOk, LockOk, Has;
    forall j | 0 <= j < MAX_SYNCS && j != i ensures m.slots[j].coremask != mask {
      if j < i {} else {}
    }
  }

  lemma CheckInSteps(m: Machine, h: History, c: nat)
    requires Inv(m, h) && Enabled(m, CheckIn(c))
    ensures var m', h', i := Apply(m, h, CheckIn(c)), Record(m, h, CheckIn(c)), m.pcs[c].i;
            && SameMasks(m, m') && i < MAX_SYNCS && m.slots[i].coremask == m.pcs[c].mask != 0
            && h'.entered == h.entered[i := h.entered[i][c := h.entered[i][c] + 1]] && m'.pcs[c].Comparing?
  {
    assert PcOk(m, h, c);
    hide SlotOk, CoreOk, LockOk, TableOk, Has;
  }

  lemma ReturnsScan(m: Machine, h: History, x: nat, c: nat, mask: nat, latest: nat, left: nat)
    requires Inv(m, h) && Enabled(m, Scan(x)) && c < CORES && mask != 0 && ReturnsOk(m, h, c, mask, latest, left)
    requires Inv(Apply(m, h, Scan(x)), Record(m, h, Scan(x)))
    ensures !ComesBack(m, h, Scan(x), c) && ReturnsOk(Apply(m, h, Scan(x)), Record(m, h, Scan(x)), c, mask, latest, left)
  {
    hide PcOk, SlotOk, CoreOk, LockOk, TableOk, Has, Before;
    var m', h' := Apply(m, h, Scan(x)), Record(m, h, Scan(x));
    ScanSteps(m, h, x, mask);
    forall i | 0 <= i < MAX_SYNCS && m.slots[i].coremask == 0 ensures h.left[i][c] == 0 {
      UnusedEntry(m, h, i, c);
    }
    if i :| 0 <= i < MAX_SYNCS && m.slots[i].coremask == mask {
      OneEntry(m', h', i, mask);
    }
  }

  lemma ReturnsSpin(m: Machine, h: History, x: nat, c: nat, mask: nat, latest: nat, left: nat)
    requires Inv(m, h) && Enabled(m, Spin(x)) && c < CORES && mask != 0 && ReturnsOk(m, h, c, mask, latest, left)
    requires Inv(Apply(m, h, Spin(x)), Record(m, h, Spin(x)))
    ensures ReturnsOk(Apply(m, h, Spin(x)), Record(m, h, Spin(x)), c, mask, latest,
                      left + (if ComesBack(m, h, Spin(x), c) && latest == mask then 1 else 0))
  {
    hide PcOk, SlotOk, CoreOk, LockOk, TableOk, Has;
    OtherSteps(m, h, Spin(x));
    SpinSteps(m, h, x);
    OneEntry(m, h, m.pcs[x].i, m.pcs[x].mask);
  }

  lemma ReturnsOther(m: Machine, h: History, step: Step, c: nat, mask: nat, latest: nat, left: nat)
    requires Inv(m, h) && Enabled(m, step) && !step.Scan? && !step.Spin?
    requires c < CORES && mask != 0 && ReturnsOk(m, h, c, mask, latest, left)
    requires Inv(Apply(m, h, step), Record(m, h, step))
    ensures !ComesBack(m, h, step, c)
    ensures ReturnsOk(Apply(m, h, step), Record(m, h, step), c, mask, CalledWith(step, c, latest), left)
  {
    hide PcOk, SlotOk, CoreOk, LockOk, TableOk, Has;
    if step.CheckIn? {
      CheckInSteps(m, h, step.core);
    } else {
      OtherSteps(m, h, step);
    }
  }

  lemma ReturnsKeep(m: Machine, h: History, step: Step, c: nat, mask: nat, latest: nat, left: nat)
    requires Inv(m, h) && Enabled(m, step) && c < CORES && mask != 0 && ReturnsOk(m, h, c, mask, latest, left)
    ensures Inv(Apply(m, h, step), Record(m, h, step))
    ensures ReturnsOk(Apply(m, h, step), Record(m, h, step), c, mask, CalledWith(step, c, latest),
                      left + (if ComesBack(m, h, step, c) && latest == mask then 1 else 0))
  {
    hide Inv, Enabled, Apply, Record, ReturnsOk, ComesBack;
    StepKeeps(m, h, step);
    match step
    case Scan(x) => ReturnsScan(m, h, x, c, mask, latest, left);
    case Spin(x) => ReturnsSpin(m, h, x, c, mask, latest, left);
    case _ => ReturnsOther(m, h, step, c, mask, latest, left);
  }

  lemma SpinSteps(m: Machine, h: History, c: nat)
    requires Inv(m, h) && Enabled(m, Spin(c))
    ensures var m', h', i := Apply(m, h, Spin(c)), Record(m, h, Spin(c)), m.pcs[c].i;
            && i < MAX_SYNCS && m.slots[i].coremask == m.pcs[c].mask != 0
            && (ComesBack(m, h, Spin(c), c) ==> h'.left == h.left[i := h.left[i][c := h.left[i][c] + 1]])
            && (!ComesBack(m, h, Spin(c), c) ==> m' == m && h' == h)
  {
    assert PcOk(m, h, c);
    hide SlotOk, CoreOk, LockOk, TableOk, Has;
  }

  lemma {:induction false} RunCalls(m: Machine, h: History, steps: seq<Step>, m': Machine, h': History, d: nat, mask: nat, calls: nat)
    requires Inv(m, h) && Reaches(m, h, steps, m', h') && d < CORES && mask != 0 && CallsOk(m, h, d, mask, calls)
    ensures Inv(m', h') && CallsOk(m', h', d, mask, calls + Calls(steps, d, mask))
    decreases |steps|
  {
    hide CallsOk, PcOk, SlotOk, CoreOk, LockOk, TableOk, Enabled, Apply, Record;
    if steps != [] {
      CallsKeep(m, h, steps[0], d, mask, calls);
      RunCalls(Apply(m, h, steps[0]), Record(m, h, steps[0]), steps[1..], m', h', d, mask,
               calls + (if steps[0] == Call(d, mask) then 1 else 0));
    }
  }

  lemma {:induction false} RunReturns(m: Machine, h: History, steps: seq<Step>, m': Machine, h': History, c: nat, mask: nat, latest: nat, left: nat)
      returns (now: nat)
    requires Inv(m, h) && Reaches(m, h, steps, m', h') && c < CORES && mask != 0 && ReturnsOk(m, h, c, mask, latest, left)
    ensures Inv(m', h') && ReturnsOk(m', h', c, mask, now, left + Returns(m, h, steps, c, mask, latest))
    decreases |steps|
  {
    hide ReturnsOk, PcOk, SlotOk, CoreOk, LockOk, TableOk, Enabled, Apply, Record, ComesBack, CalledWith;
    if steps == [] {
      now := latest;
    } else {
      ReturnsKeep(m, h, steps[0], c, mask, latest, left);
      now := RunReturns(Apply(m, h, steps[0]), Record(m, h, steps[0]), steps[1..], m', h', c, mask, CalledWith(steps[0], c, latest),
                        left + (if ComesBack(m, h, steps[0], c) && latest == mask then 1 else 0));
    }
  }

  /**
   The barrier as its callers see it: in every run, if core `c` has come back k times from calls with a
   mask, every core of that mask has called with it at least k times.
   */
  lemma CallsBeforeReturns(steps: seq<Step>, m: Machine, h: History, mask: nat, c: nat, d: nat)
    requires Reaches(Start(), NoHistory(), steps, m, h) && c < CORES && d < CORES && Has(mask, d)
    ensures Returns(Start(), NoHistory(), steps, c, mask, 0) <= Calls(steps, d, mask)
  {
    hide *;
    if mask == 0 { ZeroHas(d); }
    StartInv();
    StartCounts(c, d, mask);
    RunCalls(Start(), NoHistory(), steps, m, h, d, mask, 0);
    var latest := RunReturns(Start(), NoHistory(), steps, m, h, c, mask, 0, 0);
    LeftEntered(m, h, c, d, mask, latest, Calls(steps, d, mask), Returns(Start(), NoHistory(), steps, c, mask, 0));
  }

  lemma StartCounts(c: nat, d: nat, mask: nat)
    requires c < CORES && d < CORES && mask != 0
    ensures ShapeOk(Start(), NoHistory())
    ensures CallsOk(Start(), NoHistory(), d, mask, 0) && ReturnsOk(Start(), NoHistory(), c, mask, 0, 0)
  {
  }

  lemma LeftEntered(m: Machine, h: History, c: nat, d: nat, mask: nat, latest: nat, calls: nat, left: nat)
    requires Inv(m, h) && c < CORES && d < CORES && Has(mask, d)
    requires CallsOk(m, h, d, mask, calls) && ReturnsOk(m, h, c, mask, latest, left)
    ensures left <= calls
  {
    if i :| 0 <= i < MAX_SYNCS && m.slots[i].coremask == mask {
      assert CoreOk(m, h, i, c) && CoreOk(m, h, i, d);
    }
    hide Has, PcOk, SlotOk, LockOk, TableOk;
  }

  /** An entry once taken for a mask stays that mask's. */
  lemma {:induction false} EntriesStay(m: Machine, h: History, steps: seq<Step>, m': Machine, h': History)
    requires Inv(m, h) && Reaches(m, h, steps, m', h')
    ensures Grows(m.slots, m'.slots)
    decreases |steps|
  {
    if steps != [] {
      hide Inv, Record;
      StepKeeps(m, h, steps[0]);
      EntriesStay(Apply(m, h, steps[0]), Record(m, h, steps[0]), steps[1..], m', h');
    }
  }

  /** Once a waiting core may go, no step of another core takes that away, other masks and later rounds included. */
  lemma ReleasedStays(m: Machine, h: History, step: Step, c: nat)
    requires Inv(m, h) && Enabled(m, step) && step.core != c && c < CORES && m.pcs[c].Spinning? && m.pcs[c].i < MAX_SYNCS
    requires m.slots[m.pcs[c].i].exit == m.pcs[c].target
    ensures Apply(m, h, step).pcs[c] == m.pcs[c]
    ensures Apply(m, h, step).slots[m.pcs[c].i].exit == m.pcs[c].target
  {
    var m', h' := Apply(m, h, step), Record(m, h, step);
    StepKeeps(m, h, step);
    ReleasedExactly(m, h, c);
    ReleasedExactly(m', h', c);
    hide PcOk, SlotOk, CoreOk, LockOk, TableOk;
  }

  /** Steps to the release of the lock, at most. */
  function ToRelease(pc: Pc): nat {
    match pc
    case Scanning(_, i) => if i <= MAX_SYNCS then MAX_SYNCS - i + 5 else 0
    case CheckingIn(_, _, _) => 4
    case Comparing(_, _, _, _) => 3
    case Signalling(_, _, _, _) => 2
    case Releasing(_, _, _, _) => 1
    case Failing(_) => 1
    case _ => 0
  }

  /** The lock is never held for good: its holder can always take its next step, and each brings it nearer to the release. */
  lemma HolderMoves(m: Machine, h: History) returns (step: Step)
    requires Inv(m, h) && m.locked && h.holder < CORES && m.pcs[h.holder].HoldsLock()
    ensures Enabled(m, step) && step.core == h.holder
    ensures var m' := Apply(m, h, step);
            !m'.locked || (m'.pcs[h.holder].HoldsLock() && ToRelease(m'.pcs[h.holder]) < ToRelease(m.pcs[h.holder]))
  {
    var c := h.holder;
    assert PcOk(m, h, c);
    hide SlotOk, CoreOk, TableOk, LockOk, Has, Bit, Or;
    step := match m.pcs[c]
      case Scanning(_, _) => Scan(c)
      case CheckingIn(_, _, _) => CheckIn(c)
      case Comparing(_, _, _, _) => Compare(c)
      case Signalling(_, _, _, _) => Signal(c)
      case Releasing(_, _, _, _) => Release(c)
      case _ => Fail(c);
  }

  /** A call that is past its search has failed just if all twenty entries are taken by other masks, and those are twenty different ones. */
  lemma FailsJustWhenFull(m: Machine, h: History, c: nat)
    requires Inv(m, h) && c < CORES && !m.pcs[c].Idle? && !m.pcs[c].Entering? && !m.pcs[c].Scanning?
    ensures m.pcs[c].Failing? || m.pcs[c].Aborted? <==>
              forall i | 0 <= i < 20 :: m.slots[i].coremask != 0 && m.slots[i].coremask != m.pcs[c].mask
    ensures m.pcs[c].Failing? || m.pcs[c].Aborted? ==>
              forall i, j | 0 <= i < j < 20 :: m.slots[i].coremask != m.slots[j].coremask
  {
    assert PcOk(m, h, c);
  }
}
