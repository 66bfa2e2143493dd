/**
 The DFA command queue of cvmx-dfa.h: cores take tickets from one packed 64-bit fetch-and-add
 register, the holder of the ticket being served writes its command into a chunk, links a new
 chunk when the last slot is used, rings the doorbell and passes the turn on. The DFA hardware
 reads the commands, follows the links and gives consumed chunks back to the pool.
 */
module DfaQueue {
  import Word64

  const TWO16 := 0x1_0000
  const TWO32 := 0x1_0000_0000
  const TWO33 := 0x2_0000_0000
  const TWO64 := 0x1_0000_0000_0000_0000
  const ADDRESS_LIMIT := 0x10_0000_0000

  /** Index and turn are 8-bit fields. */
  const MAX_CAPACITY := 256
  const MAX_CORES := 256

  type Command = int

  /** A chunk in memory: its command slots and the next-chunk pointer behind them. */
  datatype Chunk = Chunk(slots: seq<Command>, link: int)

  // ---------------------------------------------------------------- the packed register

  function Index(r: nat): nat { r % 256 }

  function NowServing(r: nat): nat { r / 256 % 256 }

  function Ticket(r: nat): nat { r / TWO16 % 256 }

  /** base_address_div32 * 32: the carry bit below it is dropped. */
  function BaseAddress(r: nat): nat { r / TWO33 * 32 }

  function FetchAndAddTicket(r: nat): nat { (r + TWO16) % TWO64 }

  /** The 32-bit write to base_address_div16. */
  function WriteBase(r: nat, base: nat): nat { base / 16 % TWO32 * TWO32 + r % TWO32 }

  /** The 16-bit write of now_serving and index; the carry out of the ticket is lost. */
  function WriteServing(r: nat, ticket: nat, index: nat): nat {
    r / TWO16 * TWO16 + ((ticket + 1) * 256 + index) % TWO16
  }

  // ---------------------------------------------------------------- states and steps

  /**
   Where a core is in cvmx_dfa_write_command. `num` and `seenServed` count tickets without
   wrap-around; they record history and no step reads them.
   */
  datatype Pc =
    | Idle
    | Polling(command: Command, ticket: nat, seen: nat, num: nat, seenServed: nat)
    | NeedsChunk(ticket: nat, base: int, num: nat)
    | HasChunk(ticket: nat, base: int, chunk: nat, num: nat)
    | HasLinked(ticket: nat, chunk: nat, num: nat)
    | Ringing(ticket: nat, index: nat, num: nat)
    | Leaving(ticket: nat, index: nat, num: nat)
  {
    /** Between seeing its turn, before the command is copied, and passing it on. */
    predicate InTurn() {
      if Polling? then ticket == NowServing(seen) else !Idle?
    }
  }

  /** Register, chunk memory, free chunks, doorbells not yet answered, cores, hardware read position. */
  datatype Machine = Machine(reg: nat, mem: map<int, Chunk>, pool: set<int>, doorbells: nat,
                             pcs: seq<Pc>, hwBase: int, hwIndex: nat, starved: bool)

  /**
   What happened so far: tickets issued and served, wraps of the ticket total at the last base
   rewrite, chunks in order with the commands written to each, where the last chunk starts,
   commands in ticket order, commands consumed, and the number of the chunk the hardware is in.
   */
  datatype History = History(issued: nat, served: nat, wraps: nat, chain: seq<int>, log: seq<seq<Command>>, start: nat,
                             order: seq<Command>, consumed: seq<Command>, hwChunk: nat)

  datatype Step =
    | TakeTicket(core: nat, command: Command)
    | Poll(core: nat)
    | Copy(core: nat)
    | AllocChunk(core: nat, chunk: nat)
    | AllocFails(core: nat)
    | WriteLink(core: nat)
    | Rebase(core: nat)
    | RingDoorbell(core: nat)
    | PassTurn(core: nat)
    | HardwareFetch

  predicate Enabled(m: Machine, step: Step) {
    if step.HardwareFetch? then m.doorbells > 0
    else
      && step.core < |m.pcs|
      && var pc := m.pcs[step.core];
      match step
      case TakeTicket(_, _) => pc.Idle?
      case Poll(_) => pc.Polling? && pc.ticket != NowServing(pc.seen)
      case Copy(_) => pc.Polling? && pc.ticket == NowServing(pc.seen)
      case AllocChunk(_, chunk) => pc.NeedsChunk? && chunk in m.pool
      case AllocFails(_) => pc.NeedsChunk? && m.pool == {}
      case WriteLink(_) => pc.HasChunk?
      case Rebase(_) => pc.HasLinked?
      case RingDoorbell(_) => pc.Ringing?
      case PassTurn(_) => pc.Leaving?
      case HardwareFetch => true
  }

  function WithSlot(mem: map<int, Chunk>, base: int, index: nat, c: Command): map<int, Chunk> {
    if base in mem && index < |mem[base].slots| then mem[base := mem[base].(slots := mem[base].slots[index := c])] else mem
  }

  function WithLink(mem: map<int, Chunk>, base: int, link: int): map<int, Chunk> {
    if base in mem then mem[base := mem[base].(link := link)] else mem
  }

  function Slot(mem: map<int, Chunk>, base: int, index: nat): Command {
    if base in mem && index < |mem[base].slots| then mem[base].slots[index] else 0
  }

  function Link(mem: map<int, Chunk>, base: int): int {
    if base in mem then mem[base].link else 0
  }

  /** One step of one core, or of the hardware; `cap` is the number of commands per chunk. */
  function Apply(m: Machine, cap: nat, h: History, step: Step): Machine
    requires Enabled(m, step)
  {
    match step
    case TakeTicket(c, command) =>
      m.(reg := FetchAndAddTicket(m.reg), pcs := m.pcs[c := Polling(command, Ticket(m.reg), m.reg, h.issued, h.served)])
    case Poll(c) =>
      m.(pcs := m.pcs[c := m.pcs[c].(seen := m.reg, seenServed := h.served)])
    case Copy(c) =>
      var pc := m.pcs[c];
      var base, index := BaseAddress(pc.seen), Index(pc.seen);
      m.(mem := WithSlot(m.mem, base, index, pc.command),
         pcs := m.pcs[c := if index + 1 >= cap then NeedsChunk(pc.ticket, base, pc.num) else Ringing(pc.ticket, index + 1, pc.num)])
    case AllocChunk(c, chunk) =>
      var pc := m.pcs[c];
      m.(pool := m.pool - {chunk}, pcs := m.pcs[c := HasChunk(pc.ticket, pc.base, chunk, pc.num)])
    case AllocFails(c) =>
      var pc := m.pcs[c];
      m.(starved := true, pcs := m.pcs[c := Ringing(pc.ticket, 0, pc.num)])
    case WriteLink(c) =>
      var pc := m.pcs[c];
      m.(mem := WithLink(m.mem, pc.base, pc.chunk), pcs := m.pcs[c := HasLinked(pc.ticket, pc.chunk, pc.num)])
    case Rebase(c) =>
      var pc := m.pcs[c];
      m.(reg := WriteBase(m.reg, pc.chunk), pcs := m.pcs[c := Ringing(pc.ticket, 0, pc.num)])
    case RingDoorbell(c) =>
      var pc := m.pcs[c];
      m.(doorbells := m.doorbells + 1, pcs := m.pcs[c := Leaving(pc.ticket, pc.index, pc.num)])
    case PassTurn(c) =>
      var pc := m.pcs[c];
      m.(reg := WriteServing(m.reg, pc.ticket, pc.index), pcs := m.pcs[c := Idle])
    case HardwareFetch =>
      if m.hwIndex + 1 >= cap then
        m.(doorbells := m.doorbells - 1, pool := m.pool + {m.hwBase}, hwBase := Link(m.mem, m.hwBase), hwIndex := 0)
      else m.(doorbells := m.doorbells - 1, hwIndex := m.hwIndex + 1)
  }

  /** The history after the step. */
  function Record(m: Machine, cap: nat, h: History, step: Step): History
    requires Enabled(m, step) && h.log != []
  {
    match step
    case TakeTicket(_, command) => h.(issued := h.issued + 1, order := h.order + [command])
    case Copy(c) => h.(log := h.log[|h.log| - 1 := h.log[|h.log| - 1] + [m.pcs[c].command]])
    case Rebase(c) =>
      h.(wraps := h.issued / TWO16, chain := h.chain + [m.pcs[c].chunk],
         start := h.start + |h.log[|h.log| - 1]|, log := h.log + [[]])
    case PassTurn(_) => h.(served := h.served + 1)
    case HardwareFetch =>
      h.(consumed := h.consumed + [Slot(m.mem, m.hwBase, m.hwIndex)],
         hwChunk := if m.hwIndex + 1 >= cap then h.hwChunk + 1 else h.hwChunk)
    case _ => h
  }

  // ---------------------------------------------------------------- the register, decoded

  predicate IsChunk(a: int) { 0 < a < ADDRESS_LIMIT && a % 128 == 0 }

  /** A register with `total` tickets since the last whole wrap: up to one carry above 16 bits. */
  function Pack(base: int, total: int, serving: int, index: int): int {
    base * 0x1000_0000 + total * TWO16 + serving * 256 + index
  }

  predicate Packable(base: int, total: int, serving: int, index: int) {
    IsChunk(base) && 0 <= total < 2 * TWO16 && 0 <= serving < 256 && 0 <= index < 256
  }

  lemma DecodeBase(base: int, total: int, serving: int, index: int)
    requires Packable(base, total, serving, index)
    ensures var r := Pack(base, total, serving, index); 0 <= r < TWO64 - TWO16 && BaseAddress(r) == base
  {
    var k := base / 128;
    assert base == 128 * k;
    assert Pack(base, total, serving, index) == (k * 4) * TWO33 + (total * TWO16 + serving * 256 + index);
  }

  lemma DecodeTicket(base: int, total: int, serving: int, index: int)
    requires Packable(base, total, serving, index) && Pack(base, total, serving, index) >= 0
    ensures Ticket(Pack(base, total, serving, index)) == total % 256
  {
    var r, high := Pack(base, total, serving, index), base * 0x1000 + total;
    Word64.ModUnique(r, TWO16, high, serving * 256 + index);
    Word64.ModUnique(high, 256, base * 16 + total / 256, total % 256);
  }

  lemma DecodeTurn(base: int, total: int, serving: int, index: int)
    requires Packable(base, total, serving, index) && Pack(base, total, serving, index) >= 0
    ensures var r := Pack(base, total, serving, index); NowServing(r) == serving && Index(r) == index
  {
    var r := Pack(base, total, serving, index);
    assert r / 256 == base * 0x10_0000 + total * 256 + serving;
  }

  /** Every field decodes; the base does so whether or not the ticket total has carried. */
  lemma DecodePacked(base: int, total: int, serving: int, index: int)
    requires Packable(base, total, serving, index)
    ensures var r := Pack(base, total, serving, index);
            0 <= r < TWO64 - TWO16 && BaseAddress(r) == base && Ticket(r) == total % 256 && NowServing(r) == serving && Index(r) == index
  {
    DecodeBase(base, total, serving, index);
    hide Packable, Pack, Ticket, BaseAddress, NowServing, Index;
    DecodeTicket(base, total, serving, index);
    DecodeTurn(base, total, serving, index);
  }

  /** A ticket taken, a base rewritten (the carry is cleared), a turn passed on: each is the packed register with one part changed. */
  lemma PackedTake(base: int, total: int, serving: int, index: int)
    requires Packable(base, total, serving, index)
    ensures var r := Pack(base, total, serving, index); r >= 0 && FetchAndAddTicket(r) == Pack(base, total + 1, serving, index)
  {
    DecodeBase(base, total, serving, index);
  }

  lemma PackedRebase(base: int, total: int, serving: int, index: int, a: nat)
    requires Packable(base, total, serving, index) && IsChunk(a)
    ensures var r := Pack(base, total, serving, index); r >= 0 && WriteBase(r, a) == Pack(a, total % TWO16, serving, index)
  {
    DecodeBase(base, total, serving, index);
    var r := Pack(base, total, serving, index);
    Word64.ModUnique(r, TWO32, base / 16 + total / TWO16, total % TWO16 * TWO16 + serving * 256 + index);
    Word64.ModUnique(a / 16, TWO32, 0, a / 16);
  }

  lemma PackedPass(base: int, total: int, serving: int, index: int, t: nat, i: nat)
    requires Packable(base, total, serving, index) && t < 256 && i < 256
    ensures var r := Pack(base, total, serving, index); r >= 0 && WriteServing(r, t, i) == Pack(base, total, (t + 1) % 256, i)
  {
    DecodeBase(base, total, serving, index);
    var r := Pack(base, total, serving, index);
    assert r / TWO16 == base * 0x1000 + total;
  }

  // ---------------------------------------------------------------- the invariant

  function Flatten(log: seq<seq<Command>>): seq<Command> {
    if log == [] then [] else Flatten(log[..|log| - 1]) + log[|log| - 1]
  }

  predicate Started(h: History) { 0 < |h.log| == |h.chain| }

  function Base(h: History): int requires Started(h) { h.chain[|h.chain| - 1] }

  function Last(h: History): seq<Command> requires Started(h) { h.log[|h.log| - 1] }

  /** Commands written, and doorbells rung, in all. */
  function Written(h: History): nat requires Started(h) { h.start + |Last(h)| }

  function Rung(m: Machine, h: History): nat { |h.consumed| + m.doorbells }

  function Busy(pcs: seq<Pc>): nat {
    if pcs == [] then 0 else (if pcs[0].Idle? then 0 else 1) + Busy(pcs[1..])
  }

  /** Commands lie in the chunks in ticket order. */
  predicate LogOk(h: History, cap: nat)
    requires Started(h)
  {
    && (forall j | 0 <= j < |h.log| - 1 :: |h.log[j]| == cap)
    && |Last(h)| <= cap
    && |Flatten(h.log[..|h.log| - 1])| == h.start
    && |h.order| == h.issued
    && Written(h) <= h.issued && Flatten(h.log) == h.order[..Written(h)]
  }

  function Total(h: History): int { h.issued - TWO16 * h.wraps }

  /** The register packs the current base, the ticket total since its last wrap, and the turn. */
  predicate RegisterOk(m: Machine, h: History, cap: nat)
    requires Started(h)
  {
    && IsChunk(Base(h)) && 0 <= Total(h) && h.start < TWO16 * (h.wraps + 1)
    && m.reg == Pack(Base(h), Total(h), h.served % 256, Index(m.reg))
    && (Written(h) == h.served ==> Index(m.reg) == |Last(h)|)
  }

  /** Tickets outstanding are held by exactly the busy cores, one each. */
  predicate TicketsOk(m: Machine, h: History) {
    && h.served + Busy(m.pcs) == h.issued && |m.pcs| <= MAX_CORES
    && (forall c | 0 <= c < |m.pcs| && !m.pcs[c].Idle? ::
          h.served <= m.pcs[c].num < h.issued && m.pcs[c].ticket == m.pcs[c].num % 256)
    && (forall c, d | 0 <= c < d < |m.pcs| && !m.pcs[c].Idle? && !m.pcs[d].Idle? :: m.pcs[c].num != m.pcs[d].num)
  }

  /** What a polling core last saw of the register is old but not misleading. */
  predicate SnapshotOk(pc: Pc, h: History)
    requires Started(h) && pc.Polling?
  {
    && pc.num < |h.order| && h.order[pc.num] == pc.command
    && pc.seenServed <= h.served && pc.num - pc.seenServed < 256
    && NowServing(pc.seen) == pc.seenServed % 256
    && (pc.seenServed == pc.num ==> Index(pc.seen) == |Last(h)| && BaseAddress(pc.seen) == Base(h))
  }

  /** A chunk that may be linked: in memory, of full size, neither in use nor free for others. */
  predicate Unused(m: Machine, h: History, cap: nat, a: int) {
    && IsChunk(a) && a in m.mem && |m.mem[a].slots| == cap && a !in m.pool
    && (forall j | h.hwChunk <= j < |h.chain| :: h.chain[j] != a)
  }

  /** How far the core inside has got. */
  predicate PhaseOk(pc: Pc, m: Machine, h: History, cap: nat)
    requires Started(h)
  {
    match pc
    case Idle => true
    case Polling(_, _, _, num, _) => SnapshotOk(pc, h) && (num == h.served ==> Written(h) == h.served)
    case NeedsChunk(_, base, num) =>
      num == h.served && Written(h) == h.served + 1 && Rung(m, h) == h.served && |Last(h)| == cap && base == Base(h)
    case HasChunk(_, base, chunk, num) =>
      num == h.served && Written(h) == h.served + 1 && Rung(m, h) == h.served && |Last(h)| == cap && base == Base(h)
      && Unused(m, h, cap, chunk)
    case HasLinked(_, chunk, num) =>
      num == h.served && Written(h) == h.served + 1 && Rung(m, h) == h.served && |Last(h)| == cap
      && Unused(m, h, cap, chunk) && Link(m.mem, Base(h)) == chunk
    case Ringing(_, index, num) =>
      num == h.served && Written(h) == h.served + 1 && Rung(m, h) == h.served && index == |Last(h)| < cap
    case Leaving(_, index, num) =>
      num == h.served && Written(h) == h.served + 1 && Rung(m, h) == h.served + 1 && index == |Last(h)| < cap
  }

  predicate TurnOk(m: Machine, h: History, cap: nat)
    requires Started(h)
  {
    && h.served <= Written(h) <= h.served + 1 && h.served <= Rung(m, h) <= Written(h)
    && (Written(h) == h.served ==> |Last(h)| < cap)
    && (h.issued == h.served ==> Written(h) == h.served)
    && (|Last(h)| == cap ==> Rung(m, h) < Written(h))
    && (forall c | 0 <= c < |m.pcs| :: PhaseOk(m.pcs[c], m, h, cap))
  }

  /** Chunk `j`, not yet consumed, holds its commands, links to the next, and is shared with nobody. */
  predicate ChunkOk(m: Machine, h: History, cap: nat, j: int)
    requires Started(h) && 0 <= j < |h.chain|
  {
    && IsChunk(h.chain[j]) && h.chain[j] in m.mem && h.chain[j] !in m.pool
    && |m.mem[h.chain[j]].slots| == cap && |h.log[j]| <= cap
    && m.mem[h.chain[j]].slots[..|h.log[j]|] == h.log[j]
    && (j + 1 < |h.chain| ==> m.mem[h.chain[j]].link == h.chain[j + 1])
  }

  predicate ChunksOk(m: Machine, h: History, cap: nat)
    requires Started(h)
  {
    && (forall j | h.hwChunk <= j < |h.chain| :: ChunkOk(m, h, cap, j))
    && (forall i, j | h.hwChunk <= i < j < |h.chain| :: h.chain[i] != h.chain[j])
    && (forall a | a in m.pool :: IsChunk(a) && a in m.mem && |m.mem[a].slots| == cap)
  }

  /** The hardware has consumed exactly the commands before its read position. */
  predicate HardwareOk(m: Machine, h: History, cap: nat)
    requires Started(h)
  {
    && h.hwChunk < |h.chain| && m.hwBase == h.chain[h.hwChunk]
    && m.hwIndex <= |h.log[h.hwChunk]| && m.hwIndex < cap
    && h.consumed == Flatten(h.log[..h.hwChunk]) + h.log[h.hwChunk][..m.hwIndex]
  }

  predicate Inv(m: Machine, h: History, cap: nat) {
    && !m.starved && 0 < cap <= MAX_CAPACITY && Started(h)
    && LogOk(h, cap) && RegisterOk(m, h, cap) && TicketsOk(m, h) && TurnOk(m, h, cap)
    && ChunksOk(m, h, cap) && HardwareOk(m, h, cap)
  }

  // ---------------------------------------------------------------- consequences

  /** Outstanding tickets never exceed the number of cores. */
  lemma {:induction false} BusyBounded(pcs: seq<Pc>)
    ensures Busy(pcs) <= |pcs|
  {
    if pcs != [] { BusyBounded(pcs[1..]); }
  }

  lemma {:induction false} BusyUpdate(pcs: seq<Pc>, c: nat, pc: Pc)
    requires c < |pcs|
    ensures Busy(pcs[c := pc]) == Busy(pcs) - (if pcs[c].Idle? then 0 else 1) + (if pc.Idle? then 0 else 1)
  {
    if c == 0 {
      assert pcs[0 := pc][1..] == pcs[1..];
    } else {
      BusyUpdate(pcs[1..], c - 1, pc);
      assert pcs[c := pc][1..] == pcs[1..][c - 1 := pc];
    }
  }

  lemma RegisterPackable(m: Machine, h: History, cap: nat)
    requires Inv(m, h, cap)
    ensures Packable(Base(h), Total(h), h.served % 256, Index(m.reg))
    ensures h.issued - h.served <= 256 && Total(h) < TWO16 + 512
  {
    BusyBounded(m.pcs);
    hide ChunksOk, HardwareOk, PhaseOk, Busy, Pack, Flatten;
    assert h.issued <= h.served + 256 <= h.start + cap + 256;
  }

  /** The base every core decodes is the current chunk, carry or no carry. */
  lemma BaseDecodes(m: Machine, h: History, cap: nat)
    requires Inv(m, h, cap)
    ensures BaseAddress(m.reg) == Base(h) && NowServing(m.reg) == h.served % 256 && Ticket(m.reg) == h.issued % 256
  {
    RegisterPackable(m, h, cap);
    hide ChunksOk, HardwareOk, TurnOk, TicketsOk, LogOk, IsChunk, Pack, Packable, BaseAddress, NowServing, Ticket, Index;
    DecodePacked(Base(h), Total(h), h.served % 256, Index(m.reg));
    WholeWraps(h.issued, h.wraps);
  }

  lemma WholeWraps(issued: int, wraps: int)
    ensures (issued - TWO16 * wraps) % 256 == issued % 256
  {
    Word64.ModUnique(issued - TWO16 * wraps, 256, issued / 256 - 256 * wraps, issued % 256);
  }

  // ---------------------------------------------------------------- every step keeps the invariant

  lemma ChunksFrame(m: Machine, h: History, m': Machine, h': History, cap: nat)
    requires Started(h) && Started(h') && ChunksOk(m, h, cap)
    requires m'.mem == m.mem && m'.pool == m.pool && h'.chain == h.chain && h'.log == h.log && h'.hwChunk == h.hwChunk
    ensures ChunksOk(m', h', cap)
  {
    forall j | h'.hwChunk <= j < |h'.chain| ensures ChunkOk(m', h', cap, j) {
      assert ChunkOk(m, h, cap, j);
    }
  }

  lemma HardwareFrame(m: Machine, h: History, m': Machine, h': History, cap: nat)
    requires Started(h) && Started(h') && HardwareOk(m, h, cap)
    requires m'.hwBase == m.hwBase && m'.hwIndex == m.hwIndex
    requires h'.chain == h.chain && h'.log == h.log && h'.hwChunk == h.hwChunk && h'.consumed == h.consumed
    ensures HardwareOk(m', h', cap)
  {
    hide Flatten;
  }

  // A ticket is taken.

  lemma TakeTickets(m: Machine, h: History, m': Machine, h': History, c: nat, pc: Pc)
    requires c < |m.pcs| && m'.pcs == m.pcs[c := pc] && h'.served == h.served && h'.issued == h.issued + 1
    requires TicketsOk(m, h) && m.pcs[c].Idle? && !pc.Idle? && pc.num == h.issued && pc.ticket == h.issued % 256
    ensures TicketsOk(m', h')
    ensures 0 <= h.issued - h.served < 256
  {
    BusyUpdate(m.pcs, c, pc);
    BusyBounded(m.pcs[c := pc]);
    hide Busy;
  }

  lemma TakeTurn(m: Machine, h: History, cap: nat, m': Machine, h': History, c: nat, pc: Pc)
    requires Started(h) && TurnOk(m, h, cap) && c < |m.pcs| && h.issued - h.served < 256 && |h.order| == h.issued
    requires m'.pcs == m.pcs[c := pc] && m'.mem == m.mem && m'.pool == m.pool && m'.doorbells == m.doorbells
    requires pc.Polling? && pc.num == h.issued && pc.seenServed == h.served && pc.seen == m.reg
    requires NowServing(m.reg) == h.served % 256 && BaseAddress(m.reg) == Base(h) && h.served <= h.issued
    requires Written(h) == h.served ==> Index(m.reg) == |Last(h)|
    requires h' == h.(issued := h.issued + 1, order := h.order + [pc.command])
    ensures TurnOk(m', h', cap)
  {
    hide Index, NowServing, BaseAddress;
    forall d | 0 <= d < |m'.pcs| ensures PhaseOk(m'.pcs[d], m', h', cap) {
      if d != c {
        assert PhaseOk(m.pcs[d], m, h, cap);
      }
    }
  }

  lemma TakeRegister(m: Machine, h: History, cap: nat)
    requires Inv(m, h, cap)
    ensures NowServing(m.reg) == h.served % 256 && BaseAddress(m.reg) == Base(h) && Ticket(m.reg) == h.issued % 256
    ensures var r := FetchAndAddTicket(m.reg); Index(r) == Index(m.reg) && r == Pack(Base(h), Total(h) + 1, h.served % 256, Index(r))
  {
    RegisterPackable(m, h, cap);
    BaseDecodes(m, h, cap);
    PackedTake(Base(h), Total(h), h.served % 256, Index(m.reg));
    DecodeTurn(Base(h), Total(h) + 1, h.served % 256, Index(m.reg));
    hide ChunksOk, TurnOk, HardwareOk, LogOk, TicketsOk, Index, NowServing, BaseAddress, Ticket, FetchAndAddTicket, Pack;
  }

  lemma TakeTicketKeeps(m: Machine, h: History, cap: nat, c: nat, command: Command)
    requires Inv(m, h, cap) && Enabled(m, TakeTicket(c, command))
    ensures Inv(Apply(m, cap, h, TakeTicket(c, command)), Record(m, cap, h, TakeTicket(c, command)), cap)
  {
    hide ChunksOk, TurnOk, HardwareOk, TicketsOk, Index, NowServing, BaseAddress, Ticket, FetchAndAddTicket, Pack, IsChunk;
    var m', h' := Apply(m, cap, h, TakeTicket(c, command)), Record(m, cap, h, TakeTicket(c, command));
    TakeRegister(m, h, cap);
    TakeTickets(m, h, m', h', c, m'.pcs[c]);
    assert RegisterOk(m', h', cap);
    TakeTurn(m, h, cap, m', h', c, m'.pcs[c]);
    ChunksFrame(m, h, m', h', cap);
    HardwareFrame(m, h, m', h', cap);
    assert h'.order[..Written(h)] == h.order[..Written(h)];
  }

  // The register is polled again.

  lemma TicketsSame(m: Machine, h: History, m': Machine, h': History, c: nat, pc: Pc)
    requires TicketsOk(m, h) && c < |m.pcs| && m'.pcs == m.pcs[c := pc] && h'.served == h.served && h'.issued == h.issued
    requires !m.pcs[c].Idle? && !pc.Idle? && pc.num == m.pcs[c].num && pc.ticket == m.pcs[c].ticket
    ensures TicketsOk(m', h')
  {
    BusyUpdate(m.pcs, c, pc);
    hide Busy;
  }

  lemma PollTurn(m: Machine, h: History, cap: nat, m': Machine, c: nat, pc: Pc)
    requires Started(h) && TurnOk(m, h, cap) && TicketsOk(m, h) && c < |m.pcs| && h.issued - h.served <= 256
    requires m'.pcs == m.pcs[c := pc] && m'.mem == m.mem && m'.pool == m.pool && m'.doorbells == m.doorbells
    requires m.pcs[c].Polling? && pc == m.pcs[c].(seen := m.reg, seenServed := h.served)
    requires NowServing(m.reg) == h.served % 256 && BaseAddress(m.reg) == Base(h)
    requires Written(h) == h.served ==> Index(m.reg) == |Last(h)|
    ensures TurnOk(m', h, cap)
  {
    hide Index, NowServing, BaseAddress, Busy;
    assert PhaseOk(m.pcs[c], m, h, cap);
    assert h.served <= m.pcs[c].num < h.issued;
    hide TicketsOk;
    forall d | 0 <= d < |m'.pcs| ensures PhaseOk(m'.pcs[d], m', h, cap) {
      if d != c {
        assert PhaseOk(m.pcs[d], m, h, cap);
      }
    }
  }

  lemma PollKeeps(m: Machine, h: History, cap: nat, c: nat)
    requires Inv(m, h, cap) && Enabled(m, Poll(c))
    ensures Inv(Apply(m, cap, h, Poll(c)), Record(m, cap, h, Poll(c)), cap)
  {
    hide ChunksOk, TurnOk, HardwareOk, TicketsOk, LogOk, Index, NowServing, BaseAddress, Ticket, Pack, IsChunk;
    var m' := Apply(m, cap, h, Poll(c));
    RegisterPackable(m, h, cap);
    TakeRegister(m, h, cap);
    TicketsSame(m, h, m', h, c, m'.pcs[c]);
    PollTurn(m, h, cap, m', c, m'.pcs[c]);
    ChunksFrame(m, h, m', h, cap);
    HardwareFrame(m, h, m', h, cap);
  }

  // One core is at its turn: what that says of the others.

  /** Idle, or polling for a later turn. */
  predicate Waits(pc: Pc, h: History) {
    || pc.Idle?
    || (pc.Polling? && h.served < pc.num < |h.order| && h.order[pc.num] == pc.command
        && pc.seenServed <= h.served && pc.num - pc.seenServed < 256 && NowServing(pc.seen) == pc.seenServed % 256)
  }

  lemma OthersWait(m: Machine, h: History, cap: nat, c: nat)
    requires Started(h) && TurnOk(m, h, cap) && TicketsOk(m, h) && c < |m.pcs| && !m.pcs[c].Idle? && m.pcs[c].num == h.served
    ensures forall d | 0 <= d < |m.pcs| && d != c :: Waits(m.pcs[d], h)
  {
    hide Busy, NowServing, Index, BaseAddress;
    forall d | 0 <= d < |m.pcs| && d != c ensures Waits(m.pcs[d], h) {
      assert PhaseOk(m.pcs[d], m, h, cap);
      if !m.pcs[d].Idle? {
        assert m.pcs[d].num != m.pcs[c].num by { if d < c {} }
        assert h.served <= m.pcs[d].num;
      }
    }
  }

  lemma WaitsPhase(pc: Pc, h: History, m': Machine, h': History, cap: nat)
    requires Started(h') && Waits(pc, h) && h'.order == h.order && h.served <= h'.served <= h.served + 1
    requires h'.served == h.served + 1 ==> Written(h') == h'.served
    ensures PhaseOk(pc, m', h', cap)
  {
  }

  /** The turn is in order if the core at its turn is and the others wait. */
  lemma TurnFrom(m: Machine, h: History, m': Machine, h': History, cap: nat, c: nat)
    requires Started(h') && c < |m'.pcs|
    requires forall d | 0 <= d < |m'.pcs| && d != c :: Waits(m'.pcs[d], h)
    requires h'.order == h.order && h.served <= h'.served <= h.served + 1 && (h'.served == h.served + 1 ==> Written(h') == h'.served)
    requires PhaseOk(m'.pcs[c], m', h', cap)
    requires h'.served <= Written(h') <= h'.served + 1 && h'.served <= Rung(m', h') <= Written(h')
    requires Written(h') == h'.served ==> |Last(h')| < cap
    requires h'.issued == h'.served ==> Written(h') == h'.served
    requires |Last(h')| == cap ==> Rung(m', h') < Written(h')
    ensures TurnOk(m', h', cap)
  {
    hide PhaseOk, Waits, Written, Rung, Last;
    forall d | 0 <= d < |m'.pcs| ensures PhaseOk(m'.pcs[d], m', h', cap) {
      if d != c {
        WaitsPhase(m'.pcs[d], h, m', h', cap);
      }
    }
  }

  // The command is copied into its slot.

  /** The turn a polling core sees is its own only if it is: the wrap at 256 cannot fool it. */
  lemma TurnIsMine(m: Machine, h: History, cap: nat, c: nat)
    requires Inv(m, h, cap) && Enabled(m, Copy(c))
    ensures var pc := m.pcs[c];
            && pc.num == h.served && Written(h) == h.served && Rung(m, h) == h.served && |Last(h)| < cap && h.served < h.issued
            && Index(pc.seen) == |Last(h)| && BaseAddress(pc.seen) == Base(h) && h.order[h.served] == pc.command
  {
    hide ChunksOk, HardwareOk, RegisterOk, LogOk, Busy, Index, BaseAddress, Flatten;
    var pc := m.pcs[c];
    assert PhaseOk(pc, m, h, cap);
    assert h.served <= pc.num < h.issued && pc.ticket == pc.num % 256;
    assert pc.num % 256 == pc.seenServed % 256;
    assert pc.num == pc.seenServed;
  }

  /** At most one core is at its turn at any time, although tickets wrap at 8 bits: it holds the ticket being served. */
  lemma MutualExclusion(m: Machine, h: History, cap: nat, c: nat, d: nat)
    requires Inv(m, h, cap) && c < |m.pcs| && d < |m.pcs|
    requires m.pcs[c].InTurn() && m.pcs[d].InTurn()
    ensures c == d && m.pcs[c].num == h.served
  {
    InTurnIsServed(m, h, cap, c);
    InTurnIsServed(m, h, cap, d);
    hide RegisterOk, TurnOk, ChunksOk, HardwareOk, LogOk, Busy, NowServing;
    assert TicketsOk(m, h);
  }

  lemma InTurnIsServed(m: Machine, h: History, cap: nat, c: nat)
    requires Inv(m, h, cap) && c < |m.pcs| && m.pcs[c].InTurn()
    ensures !m.pcs[c].Idle? && m.pcs[c].num == h.served
  {
    if m.pcs[c].Polling? {
      TurnIsMine(m, h, cap, c);
    } else {
      assert PhaseOk(m.pcs[c], m, h, cap);
    }
  }

  lemma CopyLog(h: History, cap: nat, h': History, command: Command)
    requires Started(h) && LogOk(h, cap) && |Last(h)| < cap && Written(h) < h.issued && h.order[Written(h)] == command
    requires h' == h.(log := h.log[|h.log| - 1 := Last(h) + [command]])
    ensures Started(h') && LogOk(h', cap) && Last(h') == Last(h) + [command]
  {
    var k := |h.log| - 1;
    assert h'.log[..k] == h.log[..k];
    assert Flatten(h'.log) == Flatten(h.log[..k]) + (Last(h) + [command]);
    assert Flatten(h'.log) == Flatten(h.log) + [command];
    assert h.order[..Written(h)] + [command] == h.order[..Written(h) + 1];
  }

  lemma CopyChunks(m: Machine, h: History, cap: nat, m': Machine, h': History, command: Command)
    requires Started(h) && ChunksOk(m, h, cap) && |Last(h)| < cap && h.hwChunk < |h.chain|
    requires m'.mem == WithSlot(m.mem, Base(h), |Last(h)|, command) && m'.pool == m.pool
    requires h' == h.(log := h.log[|h.log| - 1 := Last(h) + [command]])
    ensures ChunksOk(m', h', cap)
  {
    hide IsChunk;
    var k := |h.chain| - 1;
    assert ChunkOk(m, h, cap, k);
    forall j | h'.hwChunk <= j < |h'.chain| ensures ChunkOk(m', h', cap, j) {
      assert ChunkOk(m, h, cap, j);
      if j == k {
        var s, n := m.mem[Base(h)].slots, |Last(h)|;
        assert s[n := command][..n + 1] == s[..n] + [command];
      } else {
        assert h.chain[j] != h.chain[k];
      }
    }
  }

  lemma CopyHardware(m: Machine, h: History, cap: nat, m': Machine, h': History, command: Command)
    requires Started(h) && HardwareOk(m, h, cap)
    requires m'.hwBase == m.hwBase && m'.hwIndex == m.hwIndex
    requires h' == h.(log := h.log[|h.log| - 1 := Last(h) + [command]])
    ensures HardwareOk(m', h', cap)
  {
    hide Flatten;
    assert h'.log[..h.hwChunk] == h.log[..h.hwChunk];
    assert (Last(h) + [command])[..if m.hwIndex <= |Last(h)| then m.hwIndex else 0] == Last(h)[..if m.hwIndex <= |Last(h)| then m.hwIndex else 0];
  }

  lemma CopyKeeps(m: Machine, h: History, cap: nat, c: nat)
    requires Inv(m, h, cap) && Enabled(m, Copy(c))
    ensures Inv(Apply(m, cap, h, Copy(c)), Record(m, cap, h, Copy(c)), cap)
  {
    TurnIsMine(m, h, cap, c);
    hide ChunksOk, TurnOk, HardwareOk, TicketsOk, LogOk, Index, NowServing, BaseAddress, Pack, IsChunk, Flatten;
    var m', h' := Apply(m, cap, h, Copy(c)), Record(m, cap, h, Copy(c));
    var command := m.pcs[c].command;
    OthersWait(m, h, cap, c);
    CopyLog(h, cap, h', command);
    TicketsSame(m, h, m', h', c, m'.pcs[c]);
    HardwareInRange(m, h, cap);
    CopyChunks(m, h, cap, m', h', command);
    CopyHardware(m, h, cap, m', h', command);
    TurnFrom(m, h, m', h', cap, c);
  }

  lemma HardwareInRange(m: Machine, h: History, cap: nat)
    requires Started(h) && HardwareOk(m, h, cap)
    ensures h.hwChunk < |h.chain|
  {
  }

  // A chunk is taken for the commands to come.

  lemma AllocUnused(m: Machine, h: History, cap: nat, chunk: int, m': Machine)
    requires Started(h) && ChunksOk(m, h, cap) && chunk in m.pool && m'.pool == m.pool - {chunk} && m'.mem == m.mem
    ensures ChunksOk(m', h, cap) && Unused(m', h, cap, chunk)
  {
    hide IsChunk;
    forall j | h.hwChunk <= j < |h.chain| ensures ChunkOk(m', h, cap, j) && h.chain[j] != chunk {
      assert ChunkOk(m, h, cap, j);
    }
  }

  lemma AllocChunkKeeps(m: Machine, h: History, cap: nat, c: nat, chunk: nat)
    requires Inv(m, h, cap) && Enabled(m, AllocChunk(c, chunk))
    ensures Inv(Apply(m, cap, h, AllocChunk(c, chunk)), Record(m, cap, h, AllocChunk(c, chunk)), cap)
  {
    var m' := Apply(m, cap, h, AllocChunk(c, chunk));
    assert PhaseOk(m.pcs[c], m, h, cap);
    hide ChunksOk, HardwareOk, TicketsOk, LogOk, RegisterOk, Unused, Index, Pack;
    OthersWait(m, h, cap, c);
    AllocUnused(m, h, cap, chunk, m');
    TicketsSame(m, h, m', h, c, m'.pcs[c]);
    HardwareFrame(m, h, m', h, cap);
    TurnFrom(m, h, m', h, cap, c);
    assert RegisterOk(m', h, cap) by { SameRegister(m, h, m', h, cap); }
  }

  lemma SameRegister(m: Machine, h: History, m': Machine, h': History, cap: nat)
    requires Started(h) && Started(h') && RegisterOk(m, h, cap) && m'.reg == m.reg
    requires h' == h
    ensures RegisterOk(m', h', cap)
  {
  }

  // The link to it is written behind the last command.

  lemma LinkChunks(m: Machine, h: History, cap: nat, m': Machine, chunk: int)
    requires Started(h) && ChunksOk(m, h, cap) && h.hwChunk < |h.chain|
    requires m'.mem == WithLink(m.mem, Base(h), chunk) && m'.pool == m.pool
    ensures ChunksOk(m', h, cap) && Link(m'.mem, Base(h)) == chunk
  {
    hide IsChunk;
    var k := |h.chain| - 1;
    assert ChunkOk(m, h, cap, k);
    forall j | h.hwChunk <= j < |h.chain| ensures ChunkOk(m', h, cap, j) {
      assert ChunkOk(m, h, cap, j);
      assert j < k ==> h.chain[j] != h.chain[k];
    }
  }

  lemma LinkUnused(m: Machine, h: History, cap: nat, m': Machine, chunk: int, base: int, link: int)
    requires Unused(m, h, cap, chunk) && m'.mem == WithLink(m.mem, base, link) && m'.pool == m.pool
    ensures Unused(m', h, cap, chunk)
  {
    hide IsChunk;
  }

  lemma WriteLinkKeeps(m: Machine, h: History, cap: nat, c: nat)
    requires Inv(m, h, cap) && Enabled(m, WriteLink(c))
    ensures Inv(Apply(m, cap, h, WriteLink(c)), Record(m, cap, h, WriteLink(c)), cap)
  {
    var m' := Apply(m, cap, h, WriteLink(c));
    assert PhaseOk(m.pcs[c], m, h, cap);
    HardwareInRange(m, h, cap);
    hide ChunksOk, HardwareOk, TicketsOk, LogOk, RegisterOk, Unused, Index, Pack, WithLink, Link;
    OthersWait(m, h, cap, c);
    LinkChunks(m, h, cap, m', m.pcs[c].chunk);
    LinkUnused(m, h, cap, m', m.pcs[c].chunk, Base(h), m.pcs[c].chunk);
    TicketsSame(m, h, m', h, c, m'.pcs[c]);
    HardwareFrame(m, h, m', h, cap);
    TurnFrom(m, h, m', h, cap, c);
    SameRegister(m, h, m', h, cap);
  }

  // The doorbell is rung.

  lemma RingDoorbellKeeps(m: Machine, h: History, cap: nat, c: nat)
    requires Inv(m, h, cap) && Enabled(m, RingDoorbell(c))
    ensures Inv(Apply(m, cap, h, RingDoorbell(c)), Record(m, cap, h, RingDoorbell(c)), cap)
  {
    var m' := Apply(m, cap, h, RingDoorbell(c));
    assert PhaseOk(m.pcs[c], m, h, cap);
    hide ChunksOk, HardwareOk, TicketsOk, LogOk, RegisterOk, Index, Pack;
    OthersWait(m, h, cap, c);
    TicketsSame(m, h, m', h, c, m'.pcs[c]);
    ChunksFrame(m, h, m', h, cap);
    HardwareFrame(m, h, m', h, cap);
    TurnFrom(m, h, m', h, cap, c);
    SameRegister(m, h, m', h, cap);
  }

  // The base address is rewritten: the new chunk becomes the current one and the carry is cleared.

  lemma RebaseLog(h: History, cap: nat, h': History, chunk: int)
    requires Started(h) && LogOk(h, cap) && |Last(h)| == cap > 0
    requires h' == h.(wraps := h.issued / TWO16, chain := h.chain + [chunk], start := h.start + |Last(h)|, log := h.log + [[]])
    ensures Started(h') && LogOk(h', cap) && Last(h') == [] && Written(h') == Written(h) && Base(h') == chunk
  {
    assert h'.log[..|h.log|] == h.log;
    assert Flatten(h'.log) == Flatten(h.log) + [];
  }

  lemma RebaseRegister(m: Machine, h: History, cap: nat, m': Machine, h': History, chunk: int)
    requires Inv(m, h, cap) && IsChunk(chunk) && |Last(h)| == cap && Written(h) == h.served + 1
    requires m'.reg == WriteBase(m.reg, chunk)
    requires h' == h.(wraps := h.issued / TWO16, chain := h.chain + [chunk], start := h.start + |Last(h)|, log := h.log + [[]])
    ensures Started(h') && RegisterOk(m', h', cap)
  {
    RegisterPackable(m, h, cap);
    hide ChunksOk, HardwareOk, TicketsOk, TurnOk, Index, WriteBase, Pack;
    var served, index := h.served % 256, Index(m.reg);
    PackedRebase(Base(h), Total(h), served, index, chunk);
    var q := h.issued / TWO16;
    Word64.ModUnique(Total(h), TWO16, q - h.wraps, h.issued - TWO16 * q);
    DecodeTurn(chunk, Total(h) % TWO16, served, index);
    assert Base(h') == chunk && Total(h') == Total(h) % TWO16 && Index(m'.reg) == index;
    assert Written(h) <= h.issued < TWO16 * (q + 1);
  }

  lemma RebaseChunks(m: Machine, h: History, cap: nat, m': Machine, h': History, chunk: int)
    requires Started(h) && ChunksOk(m, h, cap) && Unused(m, h, cap, chunk) && Link(m.mem, Base(h)) == chunk && h.hwChunk < |h.chain|
    requires m'.mem == m.mem && m'.pool == m.pool && Started(h') && h'.hwChunk == h.hwChunk
    requires h'.chain == h.chain + [chunk] && h'.log == h.log + [[]]
    ensures ChunksOk(m', h', cap)
  {
    hide IsChunk;
    forall j | h'.hwChunk <= j < |h'.chain| ensures ChunkOk(m', h', cap, j) {
      if j < |h.chain| {
        assert ChunkOk(m, h, cap, j);
      }
    }
  }

  lemma RebaseHardware(m: Machine, h: History, cap: nat, m': Machine, h': History, chunk: int)
    requires Started(h) && HardwareOk(m, h, cap) && m'.hwBase == m.hwBase && m'.hwIndex == m.hwIndex
    requires Started(h') && h'.hwChunk == h.hwChunk && h'.consumed == h.consumed
    requires h'.chain == h.chain + [chunk] && h'.log == h.log + [[]]
    ensures HardwareOk(m', h', cap)
  {
    hide Flatten;
    assert h'.log[..h.hwChunk] == h.log[..h.hwChunk];
  }

  lemma UnusedIsChunk(m: Machine, h: History, cap: nat, chunk: int)
    requires Unused(m, h, cap, chunk)
    ensures IsChunk(chunk)
  {
  }

  lemma RebaseKeeps(m: Machine, h: History, cap: nat, c: nat)
    requires Inv(m, h, cap) && Enabled(m, Rebase(c))
    ensures Inv(Apply(m, cap, h, Rebase(c)), Record(m, cap, h, Rebase(c)), cap)
  {
    var m', h' := Apply(m, cap, h, Rebase(c)), Record(m, cap, h, Rebase(c));
    var chunk := m.pcs[c].chunk;
    assert PhaseOk(m.pcs[c], m, h, cap);
    HardwareInRange(m, h, cap);
    UnusedIsChunk(m, h, cap, chunk);
    hide ChunksOk, HardwareOk, TicketsOk, LogOk, RegisterOk, Unused, Index, Pack, WriteBase, Link, IsChunk;
    OthersWait(m, h, cap, c);
    RebaseLog(h, cap, h', chunk);
    RebaseRegister(m, h, cap, m', h', chunk);
    RebaseChunks(m, h, cap, m', h', chunk);
    RebaseHardware(m, h, cap, m', h', chunk);
    TicketsSame(m, h, m', h', c, m'.pcs[c]);
    TurnFrom(m, h, m', h', cap, c);
  }

  // The turn is passed on.

  lemma PassTickets(m: Machine, h: History, m': Machine, h': History, c: nat)
    requires TicketsOk(m, h) && c < |m.pcs| && !m.pcs[c].Idle? && m.pcs[c].num == h.served
    requires m'.pcs == m.pcs[c := Idle] && h' == h.(served := h.served + 1)
    ensures TicketsOk(m', h')
  {
    BusyUpdate(m.pcs, c, Idle);
    hide Busy;
    forall d | 0 <= d < |m'.pcs| && !m'.pcs[d].Idle?
      ensures h'.served <= m'.pcs[d].num < h'.issued && m'.pcs[d].ticket == m'.pcs[d].num % 256
    {
      assert m.pcs[d].num != m.pcs[c].num by { if d < c {} }
    }
  }

  lemma PassRegister(m: Machine, h: History, cap: nat, m': Machine, h': History, ticket: nat, index: nat)
    requires Inv(m, h, cap) && ticket == h.served % 256 && index == |Last(h)| < cap && Written(h) == h.served + 1
    requires m'.reg == WriteServing(m.reg, ticket, index) && h' == h.(served := h.served + 1)
    ensures RegisterOk(m', h', cap)
  {
    RegisterPackable(m, h, cap);
    NextTurn(h.served);
    var next := (ticket + 1) % 256;
    hide ChunksOk, HardwareOk, TicketsOk, TurnOk, LogOk, Index, WriteServing, Pack, IsChunk;
    assert 0 <= index < 256 && 0 <= ticket < 256;
    PackedPass(Base(h), Total(h), h.served % 256, Index(m.reg), ticket, index);
    DecodeTurn(Base(h), Total(h), next, index);
    hide Packable;
    assert Base(h') == Base(h) && Total(h') == Total(h) && Written(h') == Written(h);
    assert m'.reg == Pack(Base(h'), Total(h'), h'.served % 256, index) && Index(m'.reg) == index;
  }

  lemma NextTurn(served: nat)
    ensures (served % 256 + 1) % 256 == (served + 1) % 256
  {
  }

  lemma PassTurnKeeps(m: Machine, h: History, cap: nat, c: nat)
    requires Inv(m, h, cap) && Enabled(m, PassTurn(c))
    ensures Inv(Apply(m, cap, h, PassTurn(c)), Record(m, cap, h, PassTurn(c)), cap)
  {
    var m', h' := Apply(m, cap, h, PassTurn(c)), Record(m, cap, h, PassTurn(c));
    assert PhaseOk(m.pcs[c], m, h, cap);
    assert m.pcs[c].ticket == h.served % 256;
    hide ChunksOk, HardwareOk, TicketsOk, RegisterOk, Index, Pack, WriteServing, IsChunk, Flatten;
    OthersWait(m, h, cap, c);
    PassTickets(m, h, m', h', c);
    PassRegister(m, h, cap, m', h', m.pcs[c].ticket, m.pcs[c].index);
    ChunksFrame(m, h, m', h', cap);
    HardwareFrame(m, h, m', h', cap);
    TurnFrom(m, h, m', h', cap, c);
  }

  // The hardware fetches a command.

  lemma {:induction false} FlattenFull(log: seq<seq<Command>>, n: nat, cap: nat)
    requires n <= |log| && (forall j | 0 <= j < n :: |log[j]| == cap)
    ensures |Flatten(log[..n])| == n * cap
  {
    if n > 0 {
      FlattenFull(log, n - 1, cap);
      assert log[..n][..n - 1] == log[..n - 1];
    }
  }

  /** A doorbell still unanswered means that the command at the read position is written, and no chunk is left early. */
  lemma FetchReady(m: Machine, h: History, cap: nat)
    requires Inv(m, h, cap) && m.doorbells > 0
    ensures h.hwChunk < |h.chain| && m.hwIndex < |h.log[h.hwChunk]|
    ensures m.hwIndex + 1 >= cap ==> h.hwChunk + 1 < |h.chain|
  {
    hide ChunksOk, RegisterOk, TicketsOk, PhaseOk, Flatten;
    var k, last := h.hwChunk, |h.chain| - 1;
    FlattenFull(h.log, k, cap);
    FlattenFull(h.log, last, cap);
    assert h.log[..last] == h.log[..|h.log| - 1];
    assert |h.consumed| == k * cap + m.hwIndex < Written(h) == last * cap + |Last(h)|;
  }

  lemma FetchSlot(m: Machine, h: History, cap: nat)
    requires Started(h) && ChunksOk(m, h, cap) && HardwareOk(m, h, cap) && m.hwIndex < |h.log[h.hwChunk]|
    ensures Slot(m.mem, m.hwBase, m.hwIndex) == h.log[h.hwChunk][m.hwIndex]
    ensures h.hwChunk + 1 < |h.chain| ==> Link(m.mem, m.hwBase) == h.chain[h.hwChunk + 1]
  {
    hide IsChunk, Flatten;
    assert ChunkOk(m, h, cap, h.hwChunk);
    var slots, written := m.mem[m.hwBase].slots, h.log[h.hwChunk];
    assert slots[..|written|][m.hwIndex] == slots[m.hwIndex];
  }

  lemma FetchHardware(m: Machine, h: History, cap: nat)
    requires Inv(m, h, cap) && Enabled(m, HardwareFetch)
    ensures HardwareOk(Apply(m, cap, h, HardwareFetch), Record(m, cap, h, HardwareFetch), cap)
  {
    FetchReady(m, h, cap);
    FetchSlot(m, h, cap);
    hide ChunksOk, RegisterOk, TicketsOk, TurnOk, Slot, Link;
    var k, i := h.hwChunk, m.hwIndex;
    var before, chunk := Flatten(h.log[..k]), h.log[k];
    assert h.consumed + [chunk[i]] == before + chunk[..i + 1];
    if i + 1 >= cap {
      assert |chunk| <= cap;
      assert chunk[..i + 1] == chunk;
      assert h.log[..k + 1][..k] == h.log[..k];
      assert before + chunk == Flatten(h.log[..k + 1]);
      assert h.log[k + 1][..0] == [];
      assert before + chunk == Flatten(h.log[..k + 1]) + h.log[k + 1][..0];
    }
  }

  lemma FetchChunks(m: Machine, h: History, cap: nat, m': Machine, h': History)
    requires Started(h) && ChunksOk(m, h, cap) && HardwareOk(m, h, cap) && Started(h')
    requires m'.mem == m.mem && h'.chain == h.chain && h'.log == h.log
    requires (m'.pool == m.pool && h'.hwChunk == h.hwChunk) || (m'.pool == m.pool + {m.hwBase} && h'.hwChunk == h.hwChunk + 1)
    ensures ChunksOk(m', h', cap)
  {
    hide IsChunk, Flatten;
    assert ChunkOk(m, h, cap, h.hwChunk);
    forall j | h'.hwChunk <= j < |h'.chain| ensures ChunkOk(m', h', cap, j) {
      assert ChunkOk(m, h, cap, j);
      assert h'.hwChunk > h.hwChunk ==> h.chain[h.hwChunk] != h.chain[j];
    }
  }

  /** The core inside still owns the chunk it took: a chunk given back was in the chain. */
  lemma FetchPhase(pc: Pc, m: Machine, h: History, cap: nat, m': Machine, h': History)
    requires Started(h) && Started(h') && PhaseOk(pc, m, h, cap) && h.hwChunk < |h.chain| && m.hwBase == h.chain[h.hwChunk]
    requires m'.mem == m.mem && h'.chain == h.chain && h'.log == h.log && h'.start == h.start && h'.order == h.order
    requires h'.served == h.served && Rung(m', h') == Rung(m, h)
    requires (m'.pool == m.pool && h'.hwChunk == h.hwChunk) || (m'.pool == m.pool + {m.hwBase} && h'.hwChunk == h.hwChunk + 1)
    ensures PhaseOk(pc, m', h', cap)
  {
    hide IsChunk, NowServing, Index, BaseAddress, Rung;
  }

  lemma HardwareFetchKeeps(m: Machine, h: History, cap: nat)
    requires Inv(m, h, cap) && Enabled(m, HardwareFetch)
    ensures Inv(Apply(m, cap, h, HardwareFetch), Record(m, cap, h, HardwareFetch), cap)
  {
    var m', h' := Apply(m, cap, h, HardwareFetch), Record(m, cap, h, HardwareFetch);
    FetchHardware(m, h, cap);
    FetchChunks(m, h, cap, m', h');
    HardwareInRange(m, h, cap);
    assert m.hwBase == h.chain[h.hwChunk];
    hide ChunksOk, HardwareOk, LogOk, RegisterOk, TicketsOk, PhaseOk, Slot, Link, Pack;
    forall c | 0 <= c < |m'.pcs| ensures PhaseOk(m'.pcs[c], m', h', cap) {
      FetchPhase(m.pcs[c], m, h, cap, m', h');
    }
    assert RegisterOk(m', h', cap) by { FetchRegister(m, h, m', h', cap); }
    assert LogOk(h', cap) && TicketsOk(m', h') by { FetchLog(m, h, m', h', cap); }
  }

  lemma FetchRegister(m: Machine, h: History, m': Machine, h': History, cap: nat)
    requires Started(h) && RegisterOk(m, h, cap) && m'.reg == m.reg
    requires h' == h.(consumed := h'.consumed, hwChunk := h'.hwChunk)
    ensures RegisterOk(m', h', cap)
  {
    hide Pack, IsChunk;
  }

  lemma FetchLog(m: Machine, h: History, m': Machine, h': History, cap: nat)
    requires Started(h) && LogOk(h, cap) && TicketsOk(m, h) && m'.pcs == m.pcs
    requires h' == h.(consumed := h'.consumed, hwChunk := h'.hwChunk)
    ensures LogOk(h', cap) && TicketsOk(m', h')
  {
    hide Flatten, Busy;
  }

  /** Every step keeps the invariant, as long as the pool has a chunk when one is needed. */
  lemma StepKeeps(m: Machine, h: History, cap: nat, step: Step)
    requires Inv(m, h, cap) && Enabled(m, step) && !step.AllocFails?
    ensures Inv(Apply(m, cap, h, step), Record(m, cap, h, step), cap)
  {
    hide Inv, Enabled, Apply, Record;
    match step
    case TakeTicket(c, command) => TakeTicketKeeps(m, h, cap, c, command);
    case Poll(c) => PollKeeps(m, h, cap, c);
    case Copy(c) => CopyKeeps(m, h, cap, c);
    case AllocChunk(c, chunk) => AllocChunkKeeps(m, h, cap, c, chunk);
    case WriteLink(c) => WriteLinkKeeps(m, h, cap, c);
    case Rebase(c) => RebaseKeeps(m, h, cap, c);
    case RingDoorbell(c) => RingDoorbellKeeps(m, h, cap, c);
    case PassTurn(c) => PassTurnKeeps(m, h, cap, c);
    case HardwareFetch => HardwareFetchKeeps(m, h, cap);
  }

  // ---------------------------------------------------------------- chunks are conserved

  predicate Holds(pc: Pc, a: int) {
    (pc.HasChunk? && pc.chunk == a) || (pc.HasLinked? && pc.chunk == a)
  }

  predicate Held(pcs: seq<Pc>, a: int) { exists c :: 0 <= c < |pcs| && Holds(pcs[c], a) }

  predicate InUse(h: History, a: int) { exists j :: h.hwChunk <= j < |h.chain| && h.chain[j] == a }

  /** Free, linked and not yet consumed, or about to be linked. */
  predicate Somewhere(m: Machine, h: History, a: int) {
    a in m.pool || InUse(h, a) || Held(m.pcs, a)
  }

  lemma HeldUpdate(pcs: seq<Pc>, c: nat, pc: Pc, a: int)
    requires c < |pcs|
    ensures Holds(pcs[c], a) == Holds(pc, a) ==> Held(pcs[c := pc], a) == Held(pcs, a)
    ensures Holds(pc, a) ==> Held(pcs[c := pc], a)
    ensures Holds(pcs[c], a) ==> Held(pcs, a)
    ensures Held(pcs, a) && !Holds(pcs[c], a) ==> Held(pcs[c := pc], a)
    ensures Held(pcs[c := pc], a) && !Holds(pc, a) ==> Held(pcs, a)
  {
    var next := pcs[c := pc];
    if d :| 0 <= d < |pcs| && Holds(pcs[d], a) && d != c {
      assert Holds(next[d], a);
    }
    if d :| 0 <= d < |pcs| && Holds(next[d], a) && d != c {
      assert Holds(pcs[d], a);
    }
    assert next[c] == pc;
  }

  lemma InUseGrows(h: History, h': History, chunk: int, a: int)
    requires h'.hwChunk == h.hwChunk <= |h.chain| && h'.chain == h.chain + [chunk]
    ensures InUse(h', a) <==> InUse(h, a) || a == chunk
  {
    assert h'.chain[|h.chain|] == chunk;
    if j :| h.hwChunk <= j < |h.chain| && h.chain[j] == a {
      assert h'.chain[j] == a;
    }
  }

  lemma InUseShrinks(h: History, h': History, a: int)
    requires h.hwChunk < |h.chain| && h'.hwChunk == h.hwChunk + 1 && h'.chain == h.chain
    ensures InUse(h, a) <==> InUse(h', a) || a == h.chain[h.hwChunk]
  {
    if j :| h'.hwChunk <= j < |h'.chain| && h'.chain[j] == a {
      assert h.chain[j] == a;
    }
  }

  /** No step loses a chunk or makes one up. */
  lemma ChunkConserved(m: Machine, h: History, cap: nat, step: Step, a: int)
    requires Inv(m, h, cap) && Enabled(m, step)
    ensures Somewhere(Apply(m, cap, h, step), Record(m, cap, h, step), a) <==> Somewhere(m, h, a)
  {
    HardwareInRange(m, h, cap);
    assert m.hwBase == h.chain[h.hwChunk];
    hide Inv, Held, InUse, RegisterOk, TicketsOk, TurnOk, ChunksOk, HardwareOk, LogOk;
    var m', h' := Apply(m, cap, h, step), Record(m, cap, h, step);
    if !step.HardwareFetch? {
      HeldUpdate(m.pcs, step.core, m'.pcs[step.core], a);
    }
    if step.Rebase? {
      InUseGrows(h, h', m.pcs[step.core].chunk, a);
    } else if step.HardwareFetch? && m.hwIndex + 1 >= cap {
      InUseShrinks(h, h', a);
    } else {
      SameUse(h, h', a);
    }
  }

  lemma SameUse(h: History, h': History, a: int)
    requires h'.hwChunk == h.hwChunk && h'.chain == h.chain
    ensures InUse(h', a) <==> InUse(h, a)
  {
  }

  // ---------------------------------------------------------------- whole runs

  predicate Reaches(m: Machine, h: History, cap: nat, steps: seq<Step>, m': Machine, h': History)
    decreases |steps|
  {
    if steps == [] then m' == m && h' == h
    else
      && Enabled(m, steps[0]) && h.log != []
      && Reaches(Apply(m, cap, h, steps[0]), Record(m, cap, h, steps[0]), cap, steps[1..], m', h')
  }

  /** The commands of the tickets taken, in order. */
  function Submitted(steps: seq<Step>): seq<Command> {
    if steps == [] then [] else (if steps[0].TakeTicket? then [steps[0].command] else []) + Submitted(steps[1..])
  }

  /** What the hardware finds in memory, fetch by fetch. */
  function Fetched(m: Machine, h: History, cap: nat, steps: seq<Step>): seq<Command>
    decreases |steps|
  {
    if steps == [] || !Enabled(m, steps[0]) || h.log == [] then []
    else
      (if steps[0].HardwareFetch? then [Slot(m.mem, m.hwBase, m.hwIndex)] else [])
      + Fetched(Apply(m, cap, h, steps[0]), Record(m, cap, h, steps[0]), cap, steps[1..])
  }

  lemma RecordOrder(m: Machine, cap: nat, h: History, step: Step)
    requires Enabled(m, step) && h.log != []
    ensures Record(m, cap, h, step).order == h.order + (if step.TakeTicket? then [step.command] else [])
    ensures Record(m, cap, h, step).consumed == h.consumed + (if step.HardwareFetch? then [Slot(m.mem, m.hwBase, m.hwIndex)] else [])
  {
    hide Slot;
  }

  lemma {:induction false} RunOrder(m: Machine, h: History, cap: nat, steps: seq<Step>, m': Machine, h': History)
    requires Reaches(m, h, cap, steps, m', h')
    ensures h'.order == h.order + Submitted(steps) && h'.consumed == h.consumed + Fetched(m, h, cap, steps)
    decreases |steps|
  {
    hide Apply, Record, Enabled, Slot;
    if steps != [] {
      RecordOrder(m, cap, h, steps[0]);
      RunOrder(Apply(m, cap, h, steps[0]), Record(m, cap, h, steps[0]), cap, steps[1..], m', h');
    }
  }

  /** cvmx_dfa_initialize: one chunk from the pool is the queue, its address the whole of the register. */
  function Initial(mem: map<int, Chunk>, pool: set<int>, base: nat, cores: nat): Machine {
    Machine(base / 16 % TWO32 * TWO32, mem, pool - {base}, 0, seq(cores, _ => Idle), base, 0, false)
  }

  function NoHistory(base: nat): History { History(0, 0, 0, [base], [[]], 0, [], [], 0) }

  /** A pool of chunks with room for `cap` commands each, and no more cores than tickets. */
  predicate Configured(mem: map<int, Chunk>, pool: set<int>, cores: nat, cap: nat) {
    && 0 < cap <= MAX_CAPACITY && cores <= MAX_CORES
    && forall a | a in pool :: IsChunk(a) && a in mem && |mem[a].slots| == cap
  }

  lemma {:induction false} AllIdle(pcs: seq<Pc>)
    requires forall c | 0 <= c < |pcs| :: pcs[c].Idle?
    ensures Busy(pcs) == 0
  {
    if pcs != [] { AllIdle(pcs[1..]); }
  }

  lemma InitialRegister(mem: map<int, Chunk>, pool: set<int>, base: nat, cores: nat, cap: nat)
    requires Configured(mem, pool, cores, cap) && base in pool
    ensures RegisterOk(Initial(mem, pool, base, cores), NoHistory(base), cap)
    ensures TicketsOk(Initial(mem, pool, base, cores), NoHistory(base))
  {
    var m, h := Initial(mem, pool, base, cores), NoHistory(base);
    AllIdle(m.pcs);
    InitialPacked(base);
    hide Busy, Index, Pack;
  }

  lemma InitialPacked(base: nat)
    requires IsChunk(base)
    ensures var r := base / 16 % TWO32 * TWO32; r == Pack(base, 0, 0, 0) && Index(r) == 0
  {
    Word64.ModUnique(base / 16, TWO32, 0, base / 16);
    DecodeTurn(base, 0, 0, 0);
  }

  lemma InitialChunks(mem: map<int, Chunk>, pool: set<int>, base: nat, cores: nat, cap: nat)
    requires Configured(mem, pool, cores, cap) && base in pool
    ensures ChunksOk(Initial(mem, pool, base, cores), NoHistory(base), cap)
    ensures HardwareOk(Initial(mem, pool, base, cores), NoHistory(base), cap)
  {
    hide IsChunk;
    var m, h := Initial(mem, pool, base, cores), NoHistory(base);
    assert h.log[..0] == [];
    assert ChunkOk(m, h, cap, 0);
  }

  lemma InitialInv(mem: map<int, Chunk>, pool: set<int>, base: nat, cores: nat, cap: nat)
    requires Configured(mem, pool, cores, cap) && base in pool
    ensures Inv(Initial(mem, pool, base, cores), NoHistory(base), cap)
  {
    InitialRegister(mem, pool, base, cores, cap);
    InitialChunks(mem, pool, base, cores, cap);
    hide ChunksOk, HardwareOk, RegisterOk, TicketsOk;
    assert NoHistory(base).log[..0] == [];
  }

  lemma {:induction false} StarvedStays(m: Machine, h: History, cap: nat, steps: seq<Step>, m': Machine, h': History)
    requires Reaches(m, h, cap, steps, m', h') && m.starved
    ensures m'.starved
    decreases |steps|
  {
    if steps != [] {
      StarvedStays(Apply(m, cap, h, steps[0]), Record(m, cap, h, steps[0]), cap, steps[1..], m', h');
    }
  }

  lemma {:induction false} RunKeeps(m: Machine, h: History, cap: nat, steps: seq<Step>, m': Machine, h': History, a: int)
    requires Inv(m, h, cap) && Reaches(m, h, cap, steps, m', h') && !m'.starved
    ensures Inv(m', h', cap) && (Somewhere(m', h', a) <==> Somewhere(m, h, a))
    decreases |steps|
  {
    hide Inv, Enabled, Record, Somewhere;
    if steps != [] {
      var m1, h1 := Apply(m, cap, h, steps[0]), Record(m, cap, h, steps[0]);
      if steps[0].AllocFails? {
        StarvedStays(m1, h1, cap, steps[1..], m', h');
        assert false;
      }
      StepKeeps(m, h, cap, steps[0]);
      ChunkConserved(m, h, cap, steps[0], a);
      RunKeeps(m1, h1, cap, steps[1..], m', h', a);
    }
  }

  // ---------------------------------------------------------------- what every run promises

  /** Commands are consumed in ticket order, each at most once, none before it is written, and never more rung for than written. */
  lemma ConsumedInOrder(m: Machine, h: History, cap: nat)
    requires Inv(m, h, cap)
    ensures h.consumed <= h.order && Rung(m, h) <= Written(h) <= |h.order|
    ensures Flatten(h.log) == h.order[..Written(h)]
  {
    var k := h.hwChunk;
    FlattenPrefix(h.log, k + 1);
    hide ChunksOk, RegisterOk, TicketsOk, PhaseOk;
    var upTo := Flatten(h.log[..k]) + h.log[k];
    assert h.log[..k + 1][..k] == h.log[..k];
    assert upTo == Flatten(h.log[..k + 1]);
    assert h.consumed == upTo[..|h.consumed|];
  }

  lemma {:induction false} FlattenPrefix(log: seq<seq<Command>>, n: nat)
    requires n <= |log|
    ensures Flatten(log[..n]) <= Flatten(log)
    decreases |log|
  {
    if n == |log| {
      assert log[..n] == log;
    } else {
      var front := log[..|log| - 1];
      assert front[..n] == log[..n];
      FlattenPrefix(front, n);
    }
  }

  /** Every chunk not yet consumed whose last doorbell has been rung links to the next. */
  predicate LinksInPlace(m: Machine, h: History, cap: nat) {
    forall j | h.hwChunk <= j < |h.chain| && (j + 1) * cap <= Rung(m, h) :: LinkedOn(m, h, j)
  }

  predicate LinkedOn(m: Machine, h: History, j: nat) {
    j + 1 < |h.chain| && Link(m.mem, h.chain[j]) == h.chain[j + 1]
  }

  /** Before the doorbell for the last command of a chunk is rung, the link behind that command is in place. */
  lemma LinkBeforeDoorbell(m: Machine, h: History, cap: nat)
    requires Inv(m, h, cap)
    ensures LinksInPlace(m, h, cap)
  {
    RungInLastChunk(m, h, cap);
    forall j | h.hwChunk <= j < |h.chain| && (j + 1) * cap <= Rung(m, h) ensures LinkedOn(m, h, j) {
      assert ChunkOk(m, h, cap, j);
    }
  }

  /** With the last chunk full and not yet linked onwards, its last doorbell is still to come. */
  lemma RungInLastChunk(m: Machine, h: History, cap: nat)
    requires Inv(m, h, cap)
    ensures Rung(m, h) < |h.chain| * cap
  {
    hide ChunksOk, RegisterOk, HardwareOk, TicketsOk, PhaseOk;
    var last := |h.chain| - 1;
    FlattenFull(h.log, last, cap);
    hide Flatten;
    assert h.log[..last] == h.log[..|h.log| - 1];
    assert (last + 1) * cap == last * cap + cap;
  }

  /** Once no core is busy and every doorbell is answered, each command has been consumed exactly once, in ticket order. */
  lemma QuietMeansDone(m: Machine, h: History, cap: nat)
    requires Inv(m, h, cap) && m.doorbells == 0 && (forall c | 0 <= c < |m.pcs| :: m.pcs[c].Idle?)
    ensures h.consumed == h.order
  {
    ConsumedInOrder(m, h, cap);
    AllIdle(m.pcs);
    hide ChunksOk, RegisterOk, HardwareOk, LogOk, PhaseOk, Flatten, Busy;
    assert |h.consumed| == |h.order| by { assert |h.order| == h.issued by { QuietLength(h, cap); } }
  }

  lemma QuietLength(h: History, cap: nat)
    requires Started(h) && LogOk(h, cap)
    ensures |h.order| == h.issued
  {
  }

  /**
   The queue over every run of cores and hardware from initialisation, the pool never running dry:
   one core at its turn at a time, the base in the register the current chunk however many commands
   were submitted, the hardware fed each command once and in order, the links in place that it will
   follow, and no chunk lost.
   */
  lemma RunsAreSafe(mem: map<int, Chunk>, pool: set<int>, base: nat, cores: nat, cap: nat, steps: seq<Step>, m: Machine, h: History)
    requires Configured(mem, pool, cores, cap) && base in pool
    requires Reaches(Initial(mem, pool, base, cores), NoHistory(base), cap, steps, m, h) && !m.starved
    ensures forall c, d | 0 <= c < |m.pcs| && 0 <= d < |m.pcs| && m.pcs[c].InTurn() && m.pcs[d].InTurn() :: c == d
    ensures h.chain != [] && BaseAddress(m.reg) == h.chain[|h.chain| - 1]
    ensures h.order == Submitted(steps) && h.consumed == Fetched(Initial(mem, pool, base, cores), NoHistory(base), cap, steps)
    ensures h.consumed <= h.order && Rung(m, h) <= |Flatten(h.log)| && Flatten(h.log) <= h.order
    ensures LinksInPlace(m, h, cap)
    ensures forall a :: Somewhere(m, h, a) <==> a in pool
  {
    hide Submitted, Fetched;
    InitialInv(mem, pool, base, cores, cap);
    var m0, h0 := Initial(mem, pool, base, cores), NoHistory(base);
    RunKeeps(m0, h0, cap, steps, m, h, base);
    RunOrder(m0, h0, cap, steps, m, h);
    assert [] + Submitted(steps) == Submitted(steps) && [] + Fetched(m0, h0, cap, steps) == Fetched(m0, h0, cap, steps);
    hide Inv, Reaches, Somewhere, LinksInPlace;
    forall c, d | 0 <= c < |m.pcs| && 0 <= d < |m.pcs| && m.pcs[c].InTurn() && m.pcs[d].InTurn() ensures c == d {
      MutualExclusion(m, h, cap, c, d);
    }
    BaseDecodes(m, h, cap);
    ConsumedInOrder(m, h, cap);
    LinkBeforeDoorbell(m, h, cap);
    forall a ensures Somewhere(m, h, a) <==> a in pool {
      RunKeeps(m0, h0, cap, steps, m, h, a);
      InitiallySomewhere(mem, pool, base, cores, a);
    }
  }

  lemma InitiallySomewhere(mem: map<int, Chunk>, pool: set<int>, base: nat, cores: nat, a: int)
    requires base in pool
    ensures Somewhere(Initial(mem, pool, base, cores), NoHistory(base), a) <==> a in pool
  {
    assert NoHistory(base).chain[0] == base;
  }

  /** cvmx_dfa_shutdown, once all is quiet, frees the one chunk that is not in the pool: none is leaked, none freed twice. */
  lemma ShutdownReturnsAll(mem: map<int, Chunk>, pool: set<int>, base: nat, cores: nat, cap: nat, steps: seq<Step>, m: Machine, h: History)
    requires Configured(mem, pool, cores, cap) && base in pool
    requires Reaches(Initial(mem, pool, base, cores), NoHistory(base), cap, steps, m, h) && !m.starved
    requires m.doorbells == 0 && (forall c | 0 <= c < |m.pcs| :: m.pcs[c].Idle?)
    ensures Fetched(Initial(mem, pool, base, cores), NoHistory(base), cap, steps) == Submitted(steps)
    ensures BaseAddress(m.reg) !in m.pool && m.pool + {BaseAddress(m.reg)} == pool
  {
    InitialInv(mem, pool, base, cores, cap);
    RunKeeps(Initial(mem, pool, base, cores), NoHistory(base), cap, steps, m, h, base);
    RunsAreSafe(mem, pool, base, cores, cap, steps, m, h);
    QuietMeansDone(m, h, cap);
    QuietChunk(m, h, cap);
    hide Inv, Reaches, Initial, NoHistory, Configured;
    forall a ensures a in pool <==> a in m.pool || a == BaseAddress(m.reg) {
      assert Somewhere(m, h, a) <==> a in pool;
    }
  }

  /** Everything consumed, the hardware stands in the last chunk. */
  lemma QuietInLast(h: History, m: Machine, cap: nat)
    requires 0 < cap && Started(h) && LogOk(h, cap) && HardwareOk(m, h, cap) && |h.consumed| >= h.start
    ensures h.hwChunk == |h.chain| - 1
  {
    var k, last := h.hwChunk, |h.chain| - 1;
    FlattenFull(h.log, k, cap);
    FlattenFull(h.log, last, cap);
    hide Flatten;
    assert h.log[..last] == h.log[..|h.log| - 1];
    NoGap(k, last, cap, m.hwIndex);
  }

  lemma NoGap(k: nat, last: nat, cap: nat, i: nat)
    requires k <= last && i < cap && k * cap + i >= last * cap
    ensures k == last
  {
    Word64.MulBounds(last - k, cap);
    assert (last - k) * cap == last * cap - k * cap;
  }

  lemma QuietChunk(m: Machine, h: History, cap: nat)
    requires Inv(m, h, cap) && m.doorbells == 0 && (forall c | 0 <= c < |m.pcs| :: m.pcs[c].Idle?)
    ensures Base(h) !in m.pool
    ensures forall a :: Somewhere(m, h, a) <==> a in m.pool || a == Base(h)
  {
    AllIdle(m.pcs);
    hide RegisterOk, PhaseOk, LogOk, Flatten, Busy, IsChunk;
    QuietInLast(h, m, cap);
    assert ChunkOk(m, h, cap, h.hwChunk);
  }

  // ---------------------------------------------------------------- when the pool runs dry

  /** A core that finds the pool empty rings its doorbell, and then passes the turn on. */
  function StarvedRing(m: Machine, cap: nat, h: History, c: nat): Machine
    requires Enabled(m, AllocFails(c))
  {
    Apply(Apply(m, cap, h, AllocFails(c)), cap, h, RingDoorbell(c))
  }

  function StarvedPass(m: Machine, cap: nat, h: History, c: nat): Machine
    requires Enabled(m, AllocFails(c))
  {
    Apply(StarvedRing(m, cap, h, c), cap, h, PassTurn(c))
  }

  lemma CommandsInFull(m: Machine, h: History, cap: nat)
    requires Inv(m, h, cap)
    ensures h.start == (|h.chain| - 1) * cap
  {
    hide ChunksOk, RegisterOk, HardwareOk, TicketsOk, TurnOk;
    var last := |h.chain| - 1;
    FlattenFull(h.log, last, cap);
    hide Flatten;
    assert h.log[..last] == h.log[..|h.log| - 1];
  }

  lemma AllRungFor(m: Machine, h: History, cap: nat, c: nat)
    requires Inv(m, h, cap) && Enabled(m, AllocFails(c))
    ensures h.hwChunk < |h.chain| && Rung(m, h) + 1 == |h.chain| * cap
  {
    assert PhaseOk(m.pcs[c], m, h, cap) && HardwareOk(m, h, cap);
    hide Inv, ChunksOk, RegisterOk, TicketsOk, LogOk, Flatten, SnapshotOk, Unused, Rung, TurnOk;
    var n := |h.chain|;
    CommandsInFull(m, h, cap);
    OneChunkMore(n, cap);
  }

  lemma OneChunkMore(n: int, cap: nat)
    ensures (n - 1) * cap + cap == n * cap
  {
  }

  /** One failed allocation is enough: all commands of the last chunk are rung for, and it has no successor. */
  lemma StarvedBreaksLinks(m: Machine, h: History, cap: nat, c: nat)
    requires Inv(m, h, cap) && Enabled(m, AllocFails(c))
    ensures Rung(StarvedRing(m, cap, h, c), h) == |h.chain| * cap
    ensures !LinksInPlace(StarvedRing(m, cap, h, c), h, cap)
  {
    var m', last := StarvedRing(m, cap, h, c), |h.chain| - 1;
    AllRungFor(m, h, cap, c);
    hide Inv, LogOk, PhaseOk;
    assert !LinkedOn(m', h, last);
  }

  /** The base stays, the index goes back to 0: the next turn's first slot is that of the full chunk. */
  lemma StarvedReusesChunk(m: Machine, h: History, cap: nat, c: nat)
    requires Inv(m, h, cap) && Enabled(m, AllocFails(c))
    ensures var r := StarvedPass(m, cap, h, c).reg;
            BaseAddress(r) == Base(h) && Index(r) == 0 && NowServing(r) == (h.served + 1) % 256
  {
    assert PhaseOk(m.pcs[c], m, h, cap);
    assert m.pcs[c].ticket == h.served % 256;
    RegisterPackable(m, h, cap);
    NextTurn(h.served);
    hide ChunksOk, HardwareOk, TicketsOk, TurnOk, LogOk, PhaseOk, Index, WriteServing, BaseAddress, NowServing, Pack, IsChunk;
    PackedPass(Base(h), Total(h), h.served % 256, Index(m.reg), m.pcs[c].ticket, 0);
    DecodePacked(Base(h), Total(h), (h.served + 1) % 256, 0);
  }

  lemma FirstOfLast(m: Machine, h: History, cap: nat)
    requires Inv(m, h, cap) && |Last(h)| > 0
    ensures h.start < |h.order| && Base(h) in m.mem && |m.mem[Base(h)].slots| == cap && Slot(m.mem, Base(h), 0) == h.order[h.start]
  {
    hide RegisterOk, TicketsOk, TurnOk;
    assert ChunkOk(m, h, cap, |h.chain| - 1);
    var slots := m.mem[Base(h)].slots;
    assert Flatten(h.log) == Flatten(h.log[..|h.log| - 1]) + Last(h);
    hide Flatten;
    assert slots[..|Last(h)|][0] == slots[0];
    assert h.order[..Written(h)][h.start] == h.order[h.start];
  }

  /** The waiting core's last look showed an earlier turn, so it polls on. */
  lemma StillPolling(pc: Pc, h: History)
    requires Started(h) && pc.Polling? && SnapshotOk(pc, h) && pc.num == h.served + 1 && pc.ticket == pc.num % 256
    ensures pc.ticket != NowServing(pc.seen)
  {
    var a, b := pc.num, pc.seenServed;
    if b % 256 + (a - b) < 256 {
      Word64.ModUnique(a, 256, b / 256, b % 256 + (a - b));
    } else {
      Word64.ModUnique(a, 256, b / 256 + 1, b % 256 + (a - b) - 256);
    }
  }

  lemma ReadsFirst(m: Machine, h: History, cap: nat)
    requires Inv(m, h, cap) && |h.consumed| == h.start
    ensures m.hwBase == Base(h) && m.hwIndex == 0
  {
    var k, last := h.hwChunk, |h.chain| - 1;
    CommandsInFull(m, h, cap);
    FlattenFull(h.log, k, cap);
    hide Flatten, ChunksOk, RegisterOk, TicketsOk, TurnOk;
    NoGap(k, last, cap, m.hwIndex);
  }

  /**
   And the core whose turn is next writes its command over command number `start`, the first of the
   chunk: if the hardware had come no further, it is fed the other command in its place.
   */
  lemma StarvedOverwrites(m: Machine, h: History, cap: nat, c: nat, d: nat)
    requires Inv(m, h, cap) && Enabled(m, AllocFails(c))
    requires d < |m.pcs| && m.pcs[d].Polling? && m.pcs[d].num == h.served + 1
    ensures h.start < |h.order| && Slot(m.mem, Base(h), 0) == h.order[h.start]
    ensures var m3, h3 := StarvedPass(m, cap, h, c), h.(served := h.served + 1);
            && Enabled(m3, Poll(d))
            && var m4 := Apply(m3, cap, h3, Poll(d));
            && Enabled(m4, Copy(d))
            && var m5 := Apply(m4, cap, h3, Copy(d));
            && Slot(m5.mem, Base(h), 0) == m.pcs[d].command
            && (|h.consumed| == h.start ==>
                  && Enabled(m5, HardwareFetch) && h3.log != []
                  && Record(m5, cap, h3, HardwareFetch).consumed == h.consumed + [m.pcs[d].command])
  {
    assert PhaseOk(m.pcs[c], m, h, cap) && PhaseOk(m.pcs[d], m, h, cap);
    StarvedReusesChunk(m, h, cap, c);
    FirstOfLast(m, h, cap);
    assert m.pcs[d].ticket == m.pcs[d].num % 256;
    StillPolling(m.pcs[d], h);
    if |h.consumed| == h.start {
      ReadsFirst(m, h, cap);
    }
    hide Inv, SnapshotOk, LogOk, BaseAddress, Index, NowServing, WriteServing;
  }

  // ---------------------------------------------------------------- somebody's turn always comes

  function Numbers(pcs: seq<Pc>): set<int> {
    set c | 0 <= c < |pcs| && !pcs[c].Idle? :: pcs[c].num
  }

  lemma {:induction false} NumbersCount(pcs: seq<Pc>)
    requires forall c, d | 0 <= c < d < |pcs| && !pcs[c].Idle? && !pcs[d].Idle? :: pcs[c].num != pcs[d].num
    ensures |Numbers(pcs)| == Busy(pcs)
  {
    if pcs != [] {
      var rest := pcs[1..];
      forall c, d | 0 <= c < d < |rest| && !rest[c].Idle? && !rest[d].Idle? ensures rest[c].num != rest[d].num {
        assert pcs[c + 1].num != pcs[d + 1].num;
      }
      NumbersCount(rest);
      var first := if pcs[0].Idle? then {} else {pcs[0].num};
      forall n ensures n in Numbers(pcs) <==> n in first || n in Numbers(rest) {
        if n in Numbers(pcs) {
          var c :| 0 <= c < |pcs| && !pcs[c].Idle? && pcs[c].num == n;
          assert c > 0 ==> rest[c - 1] == pcs[c];
        }
        if n in Numbers(rest) {
          var c :| 0 <= c < |rest| && !rest[c].Idle? && rest[c].num == n;
          assert pcs[c + 1] == rest[c];
        }
      }
      assert Numbers(pcs) == first + Numbers(rest);
      forall n | n in Numbers(rest) ensures n !in first {
        var c :| 0 <= c < |rest| && !rest[c].Idle? && rest[c].num == n;
        assert pcs[c + 1] == rest[c];
      }
    }
  }

  lemma {:induction false} RangeCount(lo: int, hi: int, s: set<int>)
    requires lo <= hi && (forall n | n in s :: lo <= n < hi)
    ensures |s| <= hi - lo
    decreases hi - lo
  {
    if lo == hi {
      forall n ensures n !in s {
      }
    } else {
      RangeCount(lo, hi - 1, s - {hi - 1});
    }
  }

  /** While tickets are outstanding, exactly the next one is held by some core; one look at the register shows it its turn. */
  lemma TurnIsHeld(m: Machine, h: History, cap: nat) returns (c: nat)
    requires Inv(m, h, cap) && h.served < h.issued
    ensures c < |m.pcs| && !m.pcs[c].Idle? && m.pcs[c].num == h.served && m.pcs[c].ticket == NowServing(m.reg)
  {
    BaseDecodes(m, h, cap);
    NumbersCount(m.pcs);
    if h.served !in Numbers(m.pcs) {
      RangeCount(h.served + 1, h.issued, Numbers(m.pcs));
    }
    c :| 0 <= c < |m.pcs| && !m.pcs[c].Idle? && m.pcs[c].num == h.served;
  }

  // ---------------------------------------------------------------- nobody is stuck

  /** How far a core is from the end of its call; ringing the doorbell makes work for the hardware. */
  function Left(pc: Pc): nat {
    match pc
    case Idle => 0
    case Polling(_, ticket, seen, _, _) => if ticket == NowServing(seen) then 7 else 8
    case NeedsChunk(_, _, _) => 6
    case HasChunk(_, _, _, _) => 5
    case HasLinked(_, _, _) => 4
    case Ringing(_, _, _) => 3
    case Leaving(_, _, _) => 1
  }

  function LeftAll(pcs: seq<Pc>): nat {
    if pcs == [] then 0 else Left(pcs[0]) + LeftAll(pcs[1..])
  }

  function ToGo(m: Machine): nat { LeftAll(m.pcs) + m.doorbells }

  lemma {:induction false} LeftUpdate(pcs: seq<Pc>, c: nat, pc: Pc)
    requires c < |pcs|
    ensures LeftAll(pcs[c := pc]) == LeftAll(pcs) - Left(pcs[c]) + Left(pc)
  {
    hide Left;
    if c == 0 {
      assert pcs[0 := pc][1..] == pcs[1..];
    } else {
      LeftUpdate(pcs[1..], c - 1, pc);
      assert pcs[c := pc][1..] == pcs[1..][c - 1 := pc];
    }
  }

  lemma {:induction false} NoneBusy(pcs: seq<Pc>)
    requires Busy(pcs) == 0
    ensures forall c | 0 <= c < |pcs| :: pcs[c].Idle?
  {
    if pcs != [] { NoneBusy(pcs[1..]); }
  }

  /** Doorbells answered, the hardware has left every chunk but the current one, so of two chunks one is free. */
  lemma ChunkToBeHad(m: Machine, h: History, cap: nat, c: nat, a: int, b: int)
    requires Inv(m, h, cap) && c < |m.pcs| && m.pcs[c].NeedsChunk? && m.doorbells == 0
    requires a != b && Somewhere(m, h, a) && Somewhere(m, h, b)
    ensures a in m.pool || b in m.pool
  {
    assert PhaseOk(m.pcs[c], m, h, cap);
    hide RegisterOk, ChunksOk, Flatten, Busy, TicketsOk, TurnOk, PhaseOk;
    QuietInLast(h, m, cap);
    NothingHeld(m, h, cap, c, a);
    NothingHeld(m, h, cap, c, b);
  }

  lemma NothingHeld(m: Machine, h: History, cap: nat, c: nat, a: int)
    requires Inv(m, h, cap) && c < |m.pcs| && m.pcs[c].NeedsChunk?
    ensures !Held(m.pcs, a)
  {
    hide Inv;
    if d :| 0 <= d < |m.pcs| && Holds(m.pcs[d], a) {
      MutualExclusion(m, h, cap, c, d);
    }
  }

  /** While somebody is busy or a doorbell not answered, some step other than a new call or a failure brings the end nearer. */
  lemma SomebodyMoves(m: Machine, h: History, cap: nat, a: int, b: int) returns (step: Step)
    requires Inv(m, h, cap) && ToGo(m) > 0 && a != b && Somewhere(m, h, a) && Somewhere(m, h, b)
    requires a >= 0 && b >= 0
    ensures Enabled(m, step) && !step.TakeTicket? && !step.AllocFails?
    ensures ToGo(Apply(m, cap, h, step)) < ToGo(m)
  {
    hide Inv, LeftAll, BaseAddress, NowServing, Index, Somewhere;
    if m.doorbells > 0 {
      step := HardwareFetch;
    } else {
      var c := BusyOne(m, h, cap);
      var pc := m.pcs[c];
      match pc {
        case Polling(_, ticket, seen, _, _) => step := if ticket == NowServing(seen) then Copy(c) else Poll(c);
        case NeedsChunk(_, _, _) =>
          ChunkToBeHad(m, h, cap, c, a, b);
          step := AllocChunk(c, if a in m.pool then a else b);
        case HasChunk(_, _, _, _) => step := WriteLink(c);
        case HasLinked(_, _, _) => step := Rebase(c);
        case Ringing(_, _, _) => step := RingDoorbell(c);
        case Leaving(_, _, _) => step := PassTurn(c);
      }
      LeftUpdate(m.pcs, c, Apply(m, cap, h, step).pcs[c]);
      assert Apply(m, cap, h, step).pcs == m.pcs[c := Apply(m, cap, h, step).pcs[c]];
    }
  }

  lemma BusyOne(m: Machine, h: History, cap: nat) returns (c: nat)
    requires Inv(m, h, cap) && LeftAll(m.pcs) > 0
    ensures c < |m.pcs| && !m.pcs[c].Idle? && (m.pcs[c].Polling? ==> m.pcs[c].ticket == NowServing(m.reg))
  {
    hide RegisterOk, TurnOk, ChunksOk, HardwareOk, LogOk, NowServing;
    if h.served == h.issued {
      NoneBusy(m.pcs);
      NothingLeft(m.pcs);
      assert false;
    } else {
      assert h.served < h.issued;
      c := TurnIsHeld(m, h, cap);
    }
  }

  lemma {:induction false} NothingLeft(pcs: seq<Pc>)
    requires forall c | 0 <= c < |pcs| :: pcs[c].Idle?
    ensures LeftAll(pcs) == 0
  {
    if pcs != [] { NothingLeft(pcs[1..]); }
  }

  lemma {:induction false} AllDone(pcs: seq<Pc>)
    requires LeftAll(pcs) == 0
    ensures forall c | 0 <= c < |pcs| :: pcs[c].Idle?
  {
    if pcs != [] { AllDone(pcs[1..]); }
  }

  lemma {:induction false} ReachesOn(m: Machine, h: History, cap: nat, steps: seq<Step>, m1: Machine, h1: History, more: seq<Step>, m': Machine, h': History)
    requires Reaches(m, h, cap, steps, m1, h1) && Reaches(m1, h1, cap, more, m', h')
    ensures Reaches(m, h, cap, steps + more, m', h')
    decreases |steps|
  {
    hide Enabled, Apply, Record;
    if steps == [] {
      assert [] + more == more;
    } else {
      ReachesOn(Apply(m, cap, h, steps[0]), Record(m, cap, h, steps[0]), cap, steps[1..], m1, h1, more, m', h');
      assert (steps + more)[1..] == steps[1..] + more;
    }
  }

  lemma {:induction false} Finish(m: Machine, h: History, cap: nat, a: int, b: int) returns (steps: seq<Step>, m': Machine, h': History)
    requires Inv(m, h, cap) && 0 <= a && 0 <= b && a != b && Somewhere(m, h, a) && Somewhere(m, h, b)
    ensures Reaches(m, h, cap, steps, m', h') && Submitted(steps) == [] && !m'.starved && ToGo(m') == 0
    decreases ToGo(m)
  {
    hide RegisterOk, TicketsOk, TurnOk, ChunksOk, HardwareOk, LogOk, Enabled, Apply, Record, ToGo, Somewhere;
    if ToGo(m) == 0 {
      steps, m', h' := [], m, h;
    } else {
      var step := SomebodyMoves(m, h, cap, a, b);
      StepKeeps(m, h, cap, step);
      ChunkConserved(m, h, cap, step, a);
      ChunkConserved(m, h, cap, step, b);
      var more;
      more, m', h' := Finish(Apply(m, cap, h, step), Record(m, cap, h, step), cap, a, b);
      steps := [step] + more;
      assert steps[1..] == more;
    }
  }

  /**
   No run gets stuck that has not run out of chunks: with two chunks or more to start with, it can go on,
   never finding the pool empty, to where every call has returned and every doorbell is answered. By then
   the hardware has fetched exactly the commands submitted.
   */
  lemma EveryCommandCanBeFetched(mem: map<int, Chunk>, pool: set<int>, base: nat, cores: nat, cap: nat, steps: seq<Step>, m: Machine, h: History)
    requires Configured(mem, pool, cores, cap) && base in pool && |pool| >= 2
    requires Reaches(Initial(mem, pool, base, cores), NoHistory(base), cap, steps, m, h) && !m.starved
    ensures exists more, m', h' ::
              && Reaches(Initial(mem, pool, base, cores), NoHistory(base), cap, steps + more, m', h') && !m'.starved
              && m'.doorbells == 0 && (forall c | 0 <= c < |m'.pcs| :: m'.pcs[c].Idle?)
              && Fetched(Initial(mem, pool, base, cores), NoHistory(base), cap, steps + more) == Submitted(steps)
  {
    hide Inv, Reaches, Somewhere, LinksInPlace, LeftAll, Initial, NoHistory, Fetched;
    var m0, h0 := Initial(mem, pool, base, cores), NoHistory(base);
    InitialInv(mem, pool, base, cores, cap);
    RunKeeps(m0, h0, cap, steps, m, h, base);
    RunsAreSafe(mem, pool, base, cores, cap, steps, m, h);
    var other := AnotherChunk(pool, base);
    assert IsChunk(other);
    var more, m', h' := Finish(m, h, cap, base, other);
    ReachesOn(m0, h0, cap, steps, m, h, more, m', h');
    AllDone(m'.pcs);
    ShutdownReturnsAll(mem, pool, base, cores, cap, steps + more, m', h');
    SubmittedOn(steps, more);
  }

  lemma AnotherChunk(pool: set<int>, base: int) returns (a: int)
    requires |pool| >= 2
    ensures a in pool && a != base
  {
    if forall x | x in pool :: x == base {
      assert pool <= {base};
      Fewer(pool, {base});
      assert false;
    }
    a :| a in pool && a != base;
  }

  lemma Fewer(a: set<int>, b: set<int>)
    requires a <= b
    ensures |a| <= |b|
  {
    assert b == a + (b - a);
  }

  lemma {:induction false} SubmittedOn(steps: seq<Step>, more: seq<Step>)
    requires Submitted(more) == []
    ensures Submitted(steps + more) == Submitted(steps)
  {
    if steps == [] {
      assert [] + more == more;
    } else {
      SubmittedOn(steps[1..], more);
      assert (steps + more)[1..] == steps[1..] + more;
    }
  }
}
