/**
 The circular log of cvmx-log.c. Four buffers are chained through their last words; the writer
 moves along the chain and, at its end, takes the oldest buffer for the newest. What can be read
 from the head is always the latest part of everything ever written.
 */
module Log {
  import opened Word64
  import opened LogFormat

  const SIZE := 32768
  const ROOM := 32767
  const BUFFERS := 4
  const TOTAL := 131068

  /** A pointer to word `k` of buffer `b`, counted in words from 1; 0 is NULL. */
  function Ptr(b: nat, k: nat): nat { 1 + b * SIZE + k }

  /** `chain` lists the buffers in the order in which their last words link them; the last link is NULL. */
  predicate Chained(w: seq<u64>, chain: seq<nat>) {
    && |w| == BUFFERS * SIZE && |chain| == BUFFERS
    && (forall j | 0 <= j < BUFFERS :: chain[j] < BUFFERS)
    && (forall i, j | 0 <= i < j < BUFFERS :: chain[i] != chain[j])
    && (forall j | 0 <= j < BUFFERS :: Links(w, chain, j))
  }

  predicate Links(w: seq<u64>, chain: seq<nat>, j: int)
    requires |w| == BUFFERS * SIZE && |chain| == BUFFERS && 0 <= j < BUFFERS && chain[j] < BUFFERS
  {
    w[chain[j] * SIZE + ROOM] == if j + 1 < BUFFERS then Ptr(chain[j + 1], 0) else 0
  }

  /** Where word `n` of the chain lies. */
  function Place(chain: seq<nat>, n: nat): nat
    requires |chain| == BUFFERS && n < TOTAL
  {
    chain[n / ROOM] * SIZE + n % ROOM
  }

  lemma PlaceInside(chain: seq<nat>, n: nat)
    requires |chain| == BUFFERS && n < TOTAL && forall j | 0 <= j < BUFFERS :: chain[j] < BUFFERS
    ensures Place(chain, n) < BUFFERS * SIZE
  {
  }

  /** All words of the chain from its head on, links left out. */
  function Stream(w: seq<u64>, chain: seq<nat>): (s: seq<u64>)
    requires Chained(w, chain)
    ensures |s| == TOTAL
  {
    seq(TOTAL, n requires 0 <= n < TOTAL => PlaceInside(chain, n); w[Place(chain, n)])
  }

  lemma PlaceOf(chain: seq<nat>, j: nat, k: nat)
    requires |chain| == BUFFERS && j < BUFFERS && k < ROOM
    ensures j * ROOM + k < TOTAL && Place(chain, j * ROOM + k) == chain[j] * SIZE + k
  {
    ModUnique(j * ROOM + k, ROOM, j, k);
  }

  lemma StreamWord(w: seq<u64>, chain: seq<nat>, j: nat, k: nat)
    requires Chained(w, chain) && j < BUFFERS && k < ROOM
    ensures j * ROOM + k < TOTAL && chain[j] * SIZE + k < |w|
    ensures Stream(w, chain)[j * ROOM + k] == w[chain[j] * SIZE + k]
  {
    PlaceOf(chain, j, k);
    PlaceInside(chain, j * ROOM + k);
    hide Place;
  }

  lemma LinkOf(w: seq<u64>, chain: seq<nat>, j: nat)
    requires Chained(w, chain) && j < BUFFERS
    ensures chain[j] * SIZE + ROOM < |w|
    ensures w[chain[j] * SIZE + ROOM] == if j + 1 < BUFFERS then Ptr(chain[j + 1], 0) else 0
  {
    assert Links(w, chain, j);
  }

  lemma PlacesDiffer(chain: seq<nat>, n: nat, m: nat)
    requires |chain| == BUFFERS && n < TOTAL && m < TOTAL && n != m
    requires forall i, j | 0 <= i < j < BUFFERS :: chain[i] != chain[j]
    ensures Place(chain, n) != Place(chain, m)
  {
    if n / ROOM < m / ROOM {
      assert chain[n / ROOM] != chain[m / ROOM];
    } else if m / ROOM < n / ROOM {
      assert chain[m / ROOM] != chain[n / ROOM];
    }
  }

  /** A word stored at place `n` changes word `n` of the stream and no link. */
  lemma StoreStream(w: seq<u64>, chain: seq<nat>, n: nat, data: u64)
    requires Chained(w, chain) && n < TOTAL
    ensures Place(chain, n) < |w| && Chained(w[Place(chain, n) := data], chain)
    ensures Stream(w[Place(chain, n) := data], chain) == Stream(w, chain)[n := data]
  {
    PlaceInside(chain, n);
    var w' := w[Place(chain, n) := data];
    forall j | 0 <= j < BUFFERS ensures Links(w', chain, j) {
      assert Links(w, chain, j);
    }
    forall m | 0 <= m < TOTAL ensures Stream(w', chain)[m] == Stream(w, chain)[n := data][m] {
      if m != n {
        PlacesDiffer(chain, n, m);
      }
    }
  }

  lemma InitialChain(w: seq<u64>)
    requires |w| == BUFFERS * SIZE && w[3 * SIZE + ROOM] == 0
    requires forall j | 0 <= j < BUFFERS - 1 :: w[j * SIZE + ROOM] == Ptr(j + 1, 0)
    ensures Chained(w, [0, 1, 2, 3]) && Holds(w, [0, 1, 2, 3], 0, 0, [])
  {
    var chain := [0, 1, 2, 3];
    assert w[0 * SIZE + ROOM] == Ptr(1, 0) && w[1 * SIZE + ROOM] == Ptr(2, 0) && w[2 * SIZE + ROOM] == Ptr(3, 0);
    assert Links(w, chain, 0) && Links(w, chain, 1) && Links(w, chain, 2) && Links(w, chain, 3);
  }

  /** The head buffer becomes the last one. */
  function Rotated(chain: seq<nat>): seq<nat>
    requires |chain| == BUFFERS
  {
    chain[1..] + [chain[0]]
  }

  function Relinked(w: seq<u64>, chain: seq<nat>): seq<u64>
    requires Chained(w, chain)
  {
    w[chain[BUFFERS - 1] * SIZE + ROOM := Ptr(chain[0], 0)][chain[0] * SIZE + ROOM := 0]
  }

  lemma RotateChained(w: seq<u64>, chain: seq<nat>)
    requires Chained(w, chain)
    ensures Chained(Relinked(w, chain), Rotated(chain))
  {
    var w', chain' := Relinked(w, chain), Rotated(chain);
    assert chain' == [chain[1], chain[2], chain[3], chain[0]];
    assert Links(w, chain, 1) && Links(w, chain, 2);
    assert chain[0] != chain[1] && chain[0] != chain[2] && chain[0] != chain[3];
    assert chain[1] != chain[2] && chain[1] != chain[3] && chain[2] != chain[3];
    assert Links(w', chain', 0) && Links(w', chain', 1) && Links(w', chain', 2) && Links(w', chain', 3);
  }

  lemma RotateStream(w: seq<u64>, chain: seq<nat>)
    requires Chained(w, chain)
    ensures Chained(Relinked(w, chain), Rotated(chain))
    ensures Stream(Relinked(w, chain), Rotated(chain))[..TOTAL - ROOM] == Stream(w, chain)[ROOM..]
  {
    RotateChained(w, chain);
    var w', chain' := Relinked(w, chain), Rotated(chain);
    forall n | 0 <= n < TOTAL - ROOM ensures Stream(w', chain')[n] == Stream(w, chain)[n + ROOM] {
      ModUnique(n + ROOM, ROOM, n / ROOM + 1, n % ROOM);
      assert chain'[n / ROOM] == chain[n / ROOM + 1];
      assert Place(chain', n) == Place(chain, n + ROOM);
    }
  }

  /** With `filled` words in the chain, the log holds the last `filled` words of `history`, all of it while there was room. */
  predicate Holds(w: seq<u64>, chain: seq<nat>, cur: nat, filled: nat, history: seq<u64>)
    requires Chained(w, chain)
  {
    && cur < BUFFERS && cur * ROOM <= filled <= cur * ROOM + ROOM && filled <= TOTAL
    && filled <= |history| && (filled < |history| ==> cur == BUFFERS - 1 && |history| >= TOTAL)
    && Stream(w, chain)[..filled] == history[|history| - filled..]
  }

  lemma StoreHolds(w: seq<u64>, chain: seq<nat>, cur: nat, k: nat, history: seq<u64>, data: u64)
    requires Chained(w, chain) && k < ROOM && Holds(w, chain, cur, cur * ROOM + k, history)
    ensures chain[cur] * SIZE + k < |w|
    ensures var w' := w[chain[cur] * SIZE + k := data];
            && Chained(w', chain) && Holds(w', chain, cur, cur * ROOM + k + 1, history + [data])
            && (|history| < TOTAL ==> cur * ROOM + k + 1 == |history| + 1)
  {
    var n := cur * ROOM + k;
    PlaceOf(chain, cur, k);
    StoreStream(w, chain, n, data);
    hide Chained, Stream, Place;
    var w', h' := w[chain[cur] * SIZE + k := data], history + [data];
    assert Stream(w', chain)[..n + 1] == Stream(w, chain)[..n] + [data];
    assert h'[|h'| - (n + 1)..] == history[|history| - n..] + [data];
  }

  lemma RotateHolds(w: seq<u64>, chain: seq<nat>, history: seq<u64>)
    requires Chained(w, chain) && Holds(w, chain, BUFFERS - 1, TOTAL, history)
    ensures var w', chain' := Relinked(w, chain), Rotated(chain);
            Chained(w', chain') && Holds(w', chain', BUFFERS - 1, TOTAL - ROOM, history)
  {
    RotateStream(w, chain);
    hide Chained, Relinked, Rotated;
    var s := Stream(w, chain);
    assert s[..TOTAL] == s;
    assert s[ROOM..] == history[|history| - TOTAL..][ROOM..] == history[|history| - (TOTAL - ROOM)..];
  }

  class Log {
    /** cvmx_log_buffers, buffer after buffer. */
    const words: array<u64>
    var writePtr: nat
    var endPtr: nat
    var headPtr: nat
    var readPtr: nat
    var readEndPtr: nat

    /** The buffers in chain order, which of them is written and which is read, and everything ever written. */
    ghost var chain: seq<nat>
    ghost var cur: nat
    ghost var readBuf: nat
    ghost var history: seq<u64>

    /** Words in the log. */
    ghost function Filled(): int
      reads `writePtr, `chain, `cur
      requires cur < |chain|
    {
      cur * ROOM + writePtr - Ptr(chain[cur], 0)
    }

    /** In use, with the write pointer somewhere in the current buffer. */
    ghost predicate Linked()
      reads `writePtr, `endPtr, `headPtr, `chain, `cur, `history, words
    {
      && Chained(words[..], chain) && cur < BUFFERS
      && headPtr == Ptr(chain[0], 0) && endPtr == Ptr(chain[cur], ROOM)
      && Ptr(chain[cur], 0) <= writePtr <= endPtr
      && Holds(words[..], chain, cur, Filled(), history)
    }

    ghost predicate Valid()
      reads `writePtr, `endPtr, `headPtr, `chain, `cur, `history, words
    {
      && words.Length == BUFFERS * SIZE
      && if headPtr == 0 then writePtr == 0 && endPtr == 0 && history == []
         else Linked() && Ptr(chain[cur], 0) < writePtr && (|history| <= TOTAL ==> Filled() == |history|)
    }

    /** All words of the chain, stale ones behind the write position included. */
    ghost function Whole(): (s: seq<u64>)
      reads `writePtr, `endPtr, `headPtr, `chain, `cur, `history, words
      requires Valid() && headPtr != 0
      ensures |s| == TOTAL
    {
      Stream(words[..], chain)
    }

    /** The write position in it. */
    ghost function Stop(): nat
      reads `writePtr, `endPtr, `headPtr, `chain, `cur, `history, words
      requires Valid() && headPtr != 0
    {
      Filled()
    }

    /** What can be read: the words from the head to the write position. */
    ghost function Contents(): seq<u64>
      reads `writePtr, `endPtr, `headPtr, `chain, `cur, `history, words
      requires Valid()
    {
      if headPtr == 0 then [] else Whole()[..Stop()]
    }

    constructor ()
      ensures Valid() && history == [] && fresh(words)
    {
      words := new u64[BUFFERS * SIZE];
      writePtr, endPtr, headPtr, readPtr, readEndPtr := 0, 0, 0, 0, 0;
      chain, cur, readBuf, history := [], 0, 0, [];
    }

    /**
     The log is the latest part of the history: all of it as long as it fits, and at least three
     full buffers from then on.
     */
    lemma ContentsAreLatest()
      requires Valid()
      ensures Contents() == history[|history| - |Contents()|..]
      ensures |history| <= 4 * 32767 <==> Contents() == history
      ensures |history| > 4 * 32767 ==> 3 * 32767 < |Contents()| <= 4 * 32767
    {
      hide Chained, Stream;
    }

    method Initialize()
      requires Valid() && headPtr == 0
      modifies this, words
      ensures words.Length == BUFFERS * SIZE && history == [] && headPtr != 0
      ensures Linked() && writePtr != endPtr
    {
      var buf := 0;
      while buf < BUFFERS - 1
        invariant 0 <= buf <= BUFFERS - 1 && headPtr == 0 && history == []
        invariant forall j | 0 <= j < buf :: words[j * SIZE + ROOM] == Ptr(j + 1, 0)
      {
        words[buf * SIZE + SIZE - 1] := Ptr(buf + 1, 0);
        buf := buf + 1;
      }
      words[(BUFFERS - 1) * SIZE + SIZE - 1] := 0;
      headPtr := Ptr(0, 0);
      writePtr := Ptr(0, 0);
      endPtr := writePtr + SIZE - 1;
      chain, cur := [0, 1, 2, 3], 0;
      InitialChain(words[..]);
      hide Chained, Stream;
    }

    /** The store that every write ends in. */
    method Store(data: u64)
      requires words.Length == BUFFERS * SIZE && Linked() && writePtr != endPtr
      modifies this`writePtr, this`history, words
      ensures Valid() && headPtr != 0 && history == old(history) + [data]
    {
      ghost var w, k := words[..], writePtr - Ptr(chain[cur], 0);
      StoreHolds(w, chain, cur, k, history, data);
      hide Chained, Stream;
      assert chain[cur] * SIZE + k == writePtr - 1 < |w|;
      words[writePtr - 1] := data;
      assert words[..] == w[writePtr - 1 := data];
      writePtr := writePtr + 1;
      history := history + [data];
    }

    /** The last buffer is full: the head buffer is reused behind it. */
    method FullProcess()
      requires words.Length == BUFFERS * SIZE && Chained(words[..], chain) && Holds(words[..], chain, BUFFERS - 1, TOTAL, history)
      requires headPtr == Ptr(chain[0], 0) && endPtr == Ptr(chain[BUFFERS - 1], ROOM) && writePtr == 0
      modifies this, words
      ensures Linked() && writePtr != endPtr && history == old(history) && cur == BUFFERS - 1
    {
      RotateHolds(words[..], chain, history);
      assert Links(words[..], chain, 0);
      assert chain[0] != chain[BUFFERS - 1];
      words[endPtr - 1] := headPtr;
      writePtr := headPtr;
      endPtr := writePtr + SIZE - 1;
      headPtr := words[endPtr - 1];
      words[endPtr - 1] := 0;
      assert words[..] == Relinked(old(words[..]), chain);
      chain, cur := Rotated(chain), BUFFERS - 1;
      hide Chained, Holds, Stream;
    }

    /** Every word written is appended to the history; what the log holds follows from Valid. */
    method Write(data: u64)
      requires Valid()
      modifies this, words
      ensures Valid() && headPtr != 0 && history == old(history) + [data]
    {
      if writePtr == endPtr {
        if headPtr == 0 {
          Initialize();
        } else {
          NextLink();
          writePtr := words[endPtr - 1];
          if writePtr != 0 {
            endPtr := writePtr + SIZE - 1;
            cur := cur + 1;
          } else {
            FullProcess();
          }
        }
      }
      Store(data);
    }

    /** The link behind a full buffer leads to the next of the chain. */
    lemma NextLink()
      requires Valid() && headPtr != 0
      ensures endPtr - 1 < words.Length && words[endPtr - 1] == if cur + 1 < BUFFERS then Ptr(chain[cur + 1], 0) else 0
    {
      assert Links(words[..], chain, cur);
    }

    // ---------------------------------------------------------------- the entry writers

    method LogPc(pc: u64, cycle: u64)
      requires Valid()
      modifies this, words
      ensures Valid() && history == old(history) + Encode(Pc(cycle % TWO53, pc))
    {
      hide Valid, Header;
      Write(Header(TYPE_PC, 1, cycle));
      Write(pc);
      SameHeader(TYPE_PC, 1, cycle);
    }

    /** cvmx_log_printf0 to cvmx_log_printf4: they differ in the number of arguments. */
    method LogPrintf(format: u64, args: seq<u64>, cycle: u64)
      requires Valid() && |args| <= 4
      modifies this, words
      ensures Valid() && history == old(history) + Encode(Printf(cycle % TWO53, format, args))
    {
      hide Valid, Header;
      Write(Header(TYPE_PRINTF, |args| + 1, cycle));
      Write(format);
      WriteAll(args);
      SameHeader(TYPE_PRINTF, |args| + 1, cycle);
    }

    method WriteAll(data: seq<u64>)
      requires Valid()
      modifies this, words
      ensures Valid() && history == old(history) + data
    {
      var i := 0;
      while i < |data|
        invariant 0 <= i <= |data| && Valid() && history == old(history) + data[..i]
      {
        Write(data[i]);
        i := i + 1;
        assert data[..i] == data[..i - 1] + [data[i - 1]];
      }
      assert data[..i] == data;
    }

    static lemma EncodedData(h: seq<u64>, cycle: u64, data: seq<u64>)
      ensures h + [Header(TYPE_DATA, |data|, cycle)] + data == h + Encode(Data(cycle % TWO53, data))
    {
      SameHeader(TYPE_DATA, |data|, cycle);
    }

    static lemma EncodedStructure(h: seq<u64>, cycle: u64, name: u64, data: seq<u64>)
      ensures h + [Header(TYPE_STRUCTURE, |data| + 1, cycle)] + [name] + data == h + Encode(Structure(cycle % TWO53, name, data))
    {
      SameHeader(TYPE_STRUCTURE, |data| + 1, cycle);
    }

    /** At most 255 words are logged. */
    method LogData(sizeInDwords: u64, data: seq<u64>, cycle: u64)
      requires Valid() && |data| >= if sizeInDwords > 255 then 255 else sizeInDwords
      modifies this, words
      ensures Valid()
      ensures history == old(history) + Encode(Data(cycle % TWO53, data[..if sizeInDwords > 255 then 255 else sizeInDwords]))
    {
      hide Valid, Header, Encode;
      var n := sizeInDwords;
      if n > 255 { n := 255; }
      Write(Header(TYPE_DATA, n, cycle));
      WriteAll(data[..n]);
      EncodedData(old(history), cycle, data[..n]);
    }

    /** The size in bytes is rounded up to words; a negative size turns into a huge unsigned one and is cut like it. */
    static function StructureWords(sizeInBytes: int): nat {
      var dwords := (sizeInBytes + 7) / 8;
      if dwords < 0 || dwords > 254 then 254 else dwords
    }

    static lemma StructureCut(sizeInBytes: int)
      requires -0x8000_0000 <= sizeInBytes < 0x8000_0000
      ensures var n := (sizeInBytes + 7) / 8 % TWO64; StructureWords(sizeInBytes) == if n > 254 then 254 else n
    {
    }

    method LogStructure(name: u64, data: seq<u64>, sizeInBytes: int, cycle: u64)
      requires Valid() && -0x8000_0000 <= sizeInBytes < 0x7FFF_FFF9 && |data| >= StructureWords(sizeInBytes)
      modifies this, words
      ensures Valid()
      ensures history == old(history) + Encode(Structure(cycle % TWO53, name, data[..StructureWords(sizeInBytes)]))
    {
      hide Valid, Header, Encode;
      var n: u64 := (sizeInBytes + 7) / 8 % TWO64;
      if n > 254 { n := 254; }
      StructureCut(sizeInBytes);
      hide StructureWords;
      Write(Header(TYPE_STRUCTURE, n + 1, cycle));
      Write(name);
      WriteAll(data[..n]);
      EncodedStructure(old(history), cycle, name, data[..n]);
    }

    method LogPerf(control1: u64, control2: u64, data1: u64, data2: u64, cycle: u64)
      requires Valid()
      modifies this, words
      ensures Valid()
      ensures history == old(history)
                         + Encode(Perf(cycle % TWO53, control1 % 0x1_0000_0000 * 0x1_0000_0000 + control2 % 0x1_0000_0000, data1, data2))
    {
      hide Valid, Header;
      Write(Header(TYPE_PERF, 3, cycle));
      Write(control1 % 0x1_0000_0000 * 0x1_0000_0000 + control2 % 0x1_0000_0000);
      Write(data1);
      Write(data2);
      SameHeader(TYPE_PERF, 3, cycle);
    }

    static lemma SameHeader(kind: nat, size: nat, cycle: u64)
      ensures Header(kind, size, cycle % TWO53) == Header(kind, size, cycle)
    {
    }

    // ---------------------------------------------------------------- reading

    /** The read position is before word `n` of the chain; behind its end the pointers are NULL. */
    ghost predicate ReadsAt(n: nat)
      reads `readPtr, `readEndPtr, `readBuf, `chain
      requires |chain| == BUFFERS
    {
      if n > TOTAL then n == TOTAL + 1 && readPtr == 0 && readEndPtr == 0
      else
        && readBuf < BUFFERS && readEndPtr == Ptr(chain[readBuf], ROOM)
        && readBuf * ROOM <= n <= readBuf * ROOM + ROOM && (n == readBuf * ROOM ==> n == 0)
        && readPtr == Ptr(chain[readBuf], 0) + n - readBuf * ROOM
    }

    /** Inside a buffer the read pointer is at word `n` of the chain. */
    lemma InBuffer(n: nat)
      requires Valid() && headPtr != 0 && ReadsAt(n) && readPtr != readEndPtr
      ensures n < TOTAL && 0 < readPtr <= words.Length && words[readPtr - 1] == Whole()[n]
    {
      hide Stream, Holds;
      StreamWord(words[..], chain, readBuf, readPtr - Ptr(chain[readBuf], 0));
    }

    /** At the end of a buffer the link leads to word `n` of the chain, if there is one. */
    lemma AtLink(n: nat)
      requires Valid() && headPtr != 0 && ReadsAt(n) && readPtr == readEndPtr && n <= TOTAL
      ensures 0 < readEndPtr <= words.Length && n == (readBuf + 1) * ROOM
      ensures readBuf + 1 < BUFFERS ==>
                && words[readEndPtr - 1] == Ptr(chain[readBuf + 1], 0) <= words.Length
                && n < TOTAL && words[Ptr(chain[readBuf + 1], 0) - 1] == Whole()[n]
      ensures readBuf + 1 >= BUFFERS ==> words[readEndPtr - 1] == 0 && n == TOTAL
    {
      hide Stream, Holds;
      LinkOf(words[..], chain, readBuf);
      if readBuf + 1 < BUFFERS {
        StreamWord(words[..], chain, readBuf + 1, 0);
      }
    }

    /** The next word, 0 just behind the end of the chain; one read more dereferences NULL. */
    method Read(ghost n: nat) returns (data: u64, fault: bool)
      requires Valid() && headPtr != 0 && ReadsAt(n)
      modifies this`readPtr, this`readEndPtr, this`readBuf
      ensures n <= TOTAL ==> !fault && ReadsAt(n + 1)
      ensures n < TOTAL ==> data == Whole()[n]
      ensures n == TOTAL ==> data == 0
      ensures n > TOTAL ==> fault
    {
      hide Whole, Valid;
      FourBuffers();
      data, fault := 0, false;
      if readPtr != readEndPtr {
        InBuffer(n);
        data := words[readPtr - 1];
        readPtr := readPtr + 1;
      } else if readEndPtr == 0 {
        fault := true;
      } else {
        AtLink(n);
        readPtr := words[readEndPtr - 1];
        if readPtr != 0 {
          readBuf := readBuf + 1;
          readEndPtr := readPtr + SIZE - 1;
          data := words[readPtr - 1];
          readPtr := readPtr + 1;
        } else {
          readEndPtr := 0;
        }
      }
    }

    /** The read position is the write position just if the same number of words lies before them. */
    lemma AtWritePosition(n: nat)
      requires Valid() && headPtr != 0 && ReadsAt(n)
      ensures readPtr == 0 <==> n > TOTAL
      ensures readPtr == writePtr <==> n == Stop()
    {
      hide Stream, Holds;
      if readPtr != 0 && readBuf != cur {
        assert chain[readBuf] != chain[cur];
      }
    }

    method ReadWords(ghost n: nat, k: nat) returns (data: seq<u64>, fault: bool)
      requires Valid() && headPtr != 0 && ReadsAt(n) && n <= TOTAL
      modifies this`readPtr, this`readEndPtr, this`readBuf
      ensures Valid() && (fault <==> n + k > TOTAL + 1)
      ensures !fault ==> ReadsAt(n + k) && data == Words(Whole(), n, k)
    {
      hide Whole, Words, Valid, ReadsAt;
      FourBuffers();
      ghost var stream := Whole();
      assert Words(stream, n, 0) == [] by { NoWords(stream, n); }
      data, fault := [], false;
      while |data| < k
        invariant Valid() && headPtr != 0 && |chain| == BUFFERS && |data| <= k && n + |data| <= TOTAL + 1 && ReadsAt(n + |data|)
        invariant data == Words(stream, n, |data|)
        decreases k - |data|
      {
        ghost var at := n + |data|;
        var word;
        word, fault := Read(at);
        if fault { return; }
        WordsGrow(stream, n, |data|);
        data := data + [word];
      }
    }

    lemma FourBuffers()
      requires Valid() && headPtr != 0
      ensures |chain| == BUFFERS
    {
    }

    static lemma NoWords(stream: seq<u64>, at: nat)
      requires at <= |stream|
      ensures Words(stream, at, 0) == []
    {
    }

    static lemma WordsGrow(stream: seq<u64>, at: nat, k: nat)
      requires at <= |stream| && at + k <= |stream|
      ensures Words(stream, at, k + 1) == Words(stream, at, k) + [if at + k < |stream| then stream[at + k] else 0]
    {
    }

    /** The display shows what Parse makes of the words from the head to the write position. */
    method Display() returns (out: seq<Entry>, fault: bool)
      requires Valid()
      modifies this`readPtr, this`readEndPtr, this`readBuf
      ensures Valid() && (headPtr == 0 ==> out == [] && !fault)
      ensures headPtr != 0 ==> (out, fault) == Parse(Whole(), 0, Stop())
    {
      hide Whole, Stop, Decode, Payload, Words, Cycle, Shown, Parse, Valid, ReadsAt;
      out, fault := [], false;
      readPtr := headPtr;
      if headPtr == 0 { return; }
      readEndPtr := readPtr + SIZE - 1;
      readBuf := 0;
      HeadIsFirst();
      ghost var stream, stop, n := Whole(), Stop(), 0;
      NothingShown(stream, stop);
      AtWritePosition(0);
      while readPtr != 0 && readPtr != writePtr
        invariant Valid() && headPtr != 0 && |chain| == BUFFERS && n <= TOTAL + 1 && ReadsAt(n) && !fault
        invariant readPtr == 0 <==> n > TOTAL
        invariant readPtr == writePtr <==> n == stop
        invariant Shown(stream, stop, out, n)
        decreases TOTAL + 1 - n
      {
        var header;
        header, fault := Read(n);
        if Cycle(header) == 0 {
          SkipShown(stream, stop, out, n);
          n := n + 1;
        } else {
          ZeroIsSkipped();
          EntryShown(stream, stop, out, n);
          var body;
          body, fault := ReadWords(n + 1, Payload(header));
          if fault { return; }
          out := out + [Decode(header, body)];
          n := n + 1 + Payload(header);
        }
        AtWritePosition(n);
      }
      AllShown(stream, stop, out, n);
    }

    lemma HeadIsFirst()
      requires Valid() && headPtr != 0 && readPtr == headPtr && readEndPtr == readPtr + SIZE - 1 && readBuf == 0
      ensures |chain| == BUFFERS && ReadsAt(0)
    {
      hide Holds, Stream;
    }

    static lemma ZeroIsSkipped()
      ensures Cycle(0) == 0
    {
    }

    /** The display shows exactly the entries that what is left in the log encodes, also after a reuse, just if none has a zero time stamp. */
    lemma DisplayShowsContents(entries: seq<Entry>)
      requires Valid() && headPtr != 0 && Contents() == EncodeAll(entries) && forall i | 0 <= i < |entries| :: Shaped(entries[i])
      ensures Parse(Whole(), 0, Stop()) == (entries, false) <==> forall i | 0 <= i < |entries| :: entries[i].cycle != 0
    {
      var stream, stop := Whole(), Stop();
      assert stop <= |stream|;
      hide Whole, Stop, Valid, Parse, EncodeAll, Shaped;
      assert stream[0..stop] == stream[..stop];
      RecoversJust(stream, 0, stop, entries);
    }

    /** Until the first buffer is reused the display recovers exactly the entries logged, just if none has a zero time stamp. */
    lemma DisplayRecovers(entries: seq<Entry>)
      requires Valid() && headPtr != 0 && |history| <= TOTAL
      requires history == EncodeAll(entries) && forall i | 0 <= i < |entries| :: Shaped(entries[i])
      ensures Parse(Whole(), 0, Stop()) == (entries, false) <==> forall i | 0 <= i < |entries| :: entries[i].cycle != 0
    {
      ContentsAreLatest();
      hide Whole, Stop, Valid, Parse, EncodeAll, Contents, Shaped;
      DisplayShowsContents(entries);
    }
  }
}
