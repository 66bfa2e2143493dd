/** The entries of cvmx-log.c as 64-bit words: how they are written, how the display reads them back. */
module LogFormat {
  import opened Word64

  const TWO53 := 0x20_0000_0000_0000
  const TWO61 := 0x2000_0000_0000_0000

  const TYPE_PC := 0
  const TYPE_PRINTF := 1
  const TYPE_DATA := 2
  const TYPE_STRUCTURE := 3
  const TYPE_PERF := 4

  /** One line of the display. The last two are what a header that no writer makes is shown as. */
  datatype Entry =
    | Pc(cycle: nat, pc: u64)
    | Printf(cycle: nat, format: u64, args: seq<u64>)
    | Data(cycle: nat, words: seq<u64>)
    | Structure(cycle: nat, name: u64, words: seq<u64>)
    | Perf(cycle: nat, control: u64, data1: u64, data2: u64)
    | IllegalSize(cycle: nat, size: nat)
    | Unknown(cycle: nat)

  /** cvmx_log_build_header: fields of 3, 8 and 53 bits. */
  function Header(kind: nat, size: nat, cycle: nat): u64 {
    kind % 8 * TWO61 + size % 256 * TWO53 + cycle % TWO53
  }

  function Kind(h: u64): nat { h / TWO61 }

  function Size(h: u64): nat { h / TWO53 % 256 }

  function Cycle(h: u64): nat { h % TWO53 }

  lemma HeaderDecodes(kind: nat, size: nat, cycle: nat)
    requires kind < 8 && size < 256
    ensures var h := Header(kind, size, cycle); Kind(h) == kind && Size(h) == size && Cycle(h) == cycle % TWO53
  {
    var h, c := Header(kind, size, cycle), cycle % TWO53;
    ModUnique(h, TWO53, kind * 256 + size, c);
    ModUnique(h, TWO61, kind, size * TWO53 + c);
    ModUnique(kind * 256 + size, 256, kind, size);
  }

  // ---------------------------------------------------------------- writing

  /** An entry some writer makes. */
  predicate Shaped(e: Entry) {
    && e.cycle < TWO53
    && match e
       case Printf(_, _, args) => |args| <= 4
       case Data(_, words) => |words| <= 255
       case Structure(_, _, words) => |words| <= 254
       case IllegalSize(_, _) => false
       case Unknown(_) => false
       case _ => true
  }

  /** A zero time stamp hides an entry from the display. */
  predicate Loggable(e: Entry) { Shaped(e) && e.cycle > 0 }

  function Encode(e: Entry): seq<u64> {
    match e
    case Pc(cycle, pc) => [Header(TYPE_PC, 1, cycle), pc]
    case Printf(cycle, format, args) => [Header(TYPE_PRINTF, |args| + 1, cycle), format] + args
    case Data(cycle, words) => [Header(TYPE_DATA, |words|, cycle)] + words
    case Structure(cycle, name, words) => [Header(TYPE_STRUCTURE, |words| + 1, cycle), name] + words
    case Perf(cycle, control, data1, data2) => [Header(TYPE_PERF, 3, cycle), control, data1, data2]
    case _ => []
  }

  function EncodeAll(entries: seq<Entry>): seq<u64> {
    if entries == [] then [] else Encode(entries[0]) + EncodeAll(entries[1..])
  }

  // ---------------------------------------------------------------- reading

  /** How many words the display reads behind a header. */
  function Payload(h: u64): nat {
    var size := Size(h);
    if Kind(h) == TYPE_PC then if size == 1 then 1 else 0
    else if Kind(h) == TYPE_PRINTF then if 1 <= size <= 5 then size else 0
    else if Kind(h) == TYPE_DATA then size
    else if Kind(h) == TYPE_STRUCTURE then if size == 0 then 1 else size
    else if Kind(h) == TYPE_PERF then if size == 3 then 3 else 0
    else 0
  }

  /** What the display makes of a header and the words behind it. */
  function Decode(h: u64, words: seq<u64>): Entry
    requires |words| == Payload(h)
  {
    var cycle, size := Cycle(h), Size(h);
    if Kind(h) == TYPE_PC then if size == 1 then Pc(cycle, words[0]) else IllegalSize(cycle, size)
    else if Kind(h) == TYPE_PRINTF then if 1 <= size <= 5 then Printf(cycle, words[0], words[1..]) else IllegalSize(cycle, size)
    else if Kind(h) == TYPE_DATA then Data(cycle, words)
    else if Kind(h) == TYPE_STRUCTURE then Structure(cycle, words[0], words[1..])
    else if Kind(h) == TYPE_PERF then if size == 3 then Perf(cycle, words[0], words[1], words[2]) else IllegalSize(cycle, size)
    else Unknown(cycle)
  }

  /** `n` words from position `at` of the chained buffers: the first word past their end reads as 0, the next is a NULL dereference. */
  function Words(stream: seq<u64>, at: nat, n: nat): (words: seq<u64>)
    requires at <= |stream| && at + n <= |stream| + 1
    ensures |words| == n
  {
    if at + n <= |stream| then stream[at..at + n] else stream[at..] + [0]
  }

  /**
   The display loop, from position `at` of the chained buffers to the write position `stop`, and
   whether it ended in a NULL dereference.
   */
  function Parse(stream: seq<u64>, at: nat, stop: nat): (seq<Entry>, bool)
    decreases |stream| - at
  {
    if at == stop || at >= |stream| then ([], false)
    else if Cycle(stream[at]) == 0 then Parse(stream, at + 1, stop)
    else
      var h := stream[at];
      var n := Payload(h);
      if at + 1 + n > |stream| + 1 then ([], true)
      else
        var (rest, fault) := Parse(stream, at + 1 + n, stop);
        ([Decode(h, Words(stream, at + 1, n))] + rest, fault)
  }

  /** The loop, having shown `out` and come to position `at`, has the rest of the display still to show. */
  predicate Shown(stream: seq<u64>, stop: nat, out: seq<Entry>, at: nat) {
    Parse(stream, 0, stop) == (out + Parse(stream, at, stop).0, Parse(stream, at, stop).1)
  }

  lemma NothingShown(stream: seq<u64>, stop: nat)
    ensures Shown(stream, stop, [], 0)
  {
    assert [] + Parse(stream, 0, stop).0 == Parse(stream, 0, stop).0;
  }

  lemma AllShown(stream: seq<u64>, stop: nat, out: seq<Entry>, at: nat)
    requires Shown(stream, stop, out, at) && (at == stop || at >= |stream|)
    ensures Parse(stream, 0, stop) == (out, false)
  {
    assert out + [] == out;
  }

  lemma SkipShown(stream: seq<u64>, stop: nat, out: seq<Entry>, at: nat)
    requires Shown(stream, stop, out, at) && at != stop && (at < |stream| ==> Cycle(stream[at]) == 0)
    ensures Shown(stream, stop, out, at + 1)
  {
  }

  lemma EntryShown(stream: seq<u64>, stop: nat, out: seq<Entry>, at: nat)
    requires Shown(stream, stop, out, at) && at != stop && at < |stream| && Cycle(stream[at]) != 0
    ensures var h, n := stream[at], Payload(stream[at]);
            if at + 1 + n > |stream| + 1 then Parse(stream, 0, stop) == (out, true)
            else Shown(stream, stop, out + [Decode(h, Words(stream, at + 1, n))], at + 1 + n)
  {
    hide Payload, Decode, Words, Cycle;
    var h, n := stream[at], Payload(stream[at]);
    if at + 1 + n > |stream| + 1 {
      assert out + [] == out;
    } else {
      var e, rest := Decode(h, Words(stream, at + 1, n)), Parse(stream, at + 1 + n, stop).0;
      assert out + ([e] + rest) == (out + [e]) + rest;
    }
  }

  // ---------------------------------------------------------------- what is shown for any word

  /** Word `j` of the buffers; 0 behind their end. */
  function WordAt(stream: seq<u64>, j: nat): u64 { if j < |stream| then stream[j] else 0 }

  lemma WordsAt(stream: seq<u64>, at: nat, n: nat, j: nat)
    requires at <= |stream| && at + n <= |stream| + 1 && j < n
    ensures |Words(stream, at, n)| == n && Words(stream, at, n)[j] == WordAt(stream, at + j)
  {
  }

  /** At `at` the display reads `n` words more, shows the entry and goes on behind them; or it reads past the end, and is done. */
  predicate Shows(stream: seq<u64>, at: nat, stop: nat, n: nat, e: Entry)
    requires at < |stream|
  {
    Parse(stream, at, stop) ==
    if at + n > |stream| then ([], true)
    else ([e] + Parse(stream, at + 1 + n, stop).0, Parse(stream, at + 1 + n, stop).1)
  }

  /** The `n` words from `at` on, as far as they can be read. */
  function Behind(stream: seq<u64>, at: nat, n: nat): (words: seq<u64>)
    ensures |words| == n && forall j | 0 <= j < n :: words[j] == WordAt(stream, at + j)
  {
    if n == 0 then [] else Behind(stream, at, n - 1) + [WordAt(stream, at + n - 1)]
  }

  lemma BehindWords(stream: seq<u64>, at: nat, n: nat)
    requires at <= |stream| && at + n <= |stream| + 1
    ensures Words(stream, at, n) == Behind(stream, at, n)
  {
    forall j: nat | j < n ensures Words(stream, at, n)[j] == Behind(stream, at, n)[j] {
      WordsAt(stream, at, n, j);
    }
  }

  lemma BehindSplit(stream: seq<u64>, at: nat, n: nat)
    requires n > 0
    ensures Behind(stream, at, n)[0] == WordAt(stream, at) && Behind(stream, at, n)[1..] == Behind(stream, at + 1, n - 1)
  {
    hide WordAt;
  }

  lemma BehindFour(stream: seq<u64>, at: nat)
    ensures Behind(stream, at, 0) == [] && Behind(stream, at, 1)[0] == WordAt(stream, at)
    ensures Behind(stream, at, 3) == [WordAt(stream, at), WordAt(stream, at + 1), WordAt(stream, at + 2)]
  {
    hide WordAt;
  }

  lemma HeaderParts(h: u64, kind: nat, size: nat, time: nat)
    requires time < 0x20_0000_0000_0000 && size < 0x100 && kind < 8
    requires h == kind * 0x2000_0000_0000_0000 + size * 0x20_0000_0000_0000 + time
    ensures Kind(h) == kind && Size(h) == size && Cycle(h) == time
  {
    ModUnique(h, TWO53, kind * 256 + size, time);
    ModUnique(h, TWO61, kind, size * TWO53 + time);
    ModUnique(kind * 256 + size, 256, kind, size);
  }

  /** What `Payload` and `Decode` come to for a header of the given parts. */
  lemma PartsShown(h: u64, kind: nat, size: nat, time: nat, words: seq<u64>)
    requires Kind(h) == kind && Size(h) == size && Cycle(h) == time && |words| == Payload(h)
    ensures kind == 0 && size == 1 ==> |words| == 1 && Decode(h, words) == Pc(time, words[0])
    ensures kind == 1 && 1 <= size <= 5 ==> |words| == size && Decode(h, words) == Printf(time, words[0], words[1..])
    ensures kind == 2 ==> |words| == size && Decode(h, words) == Data(time, words)
    ensures kind == 3 && size == 0 ==> |words| == 1 && Decode(h, words) == Structure(time, words[0], words[1..])
    ensures kind == 3 && size > 0 ==> |words| == size && Decode(h, words) == Structure(time, words[0], words[1..])
    ensures kind == 4 && size == 3 ==> |words| == 3 && Decode(h, words) == Perf(time, words[0], words[1], words[2])
    ensures (kind == 0 && size != 1) || (kind == 1 && !(1 <= size <= 5)) || (kind == 4 && size != 3) ==>
              |words| == 0 && Decode(h, words) == IllegalSize(time, size)
    ensures kind >= 5 ==> |words| == 0 && Decode(h, words) == Unknown(time)
  {
    hide Kind, Size, Cycle;
  }

  lemma ParseHeader(stream: seq<u64>, at: nat, stop: nat, n: nat)
    requires at < |stream| && at != stop && Cycle(stream[at]) != 0 && n == Payload(stream[at])
    ensures Shows(stream, at, stop, n, Decode(stream[at], Behind(stream, at + 1, n)))
  {
    hide Payload, Decode, Words, Behind, Cycle;
    if at + n <= |stream| {
      BehindWords(stream, at + 1, n);
    }
  }

  /**
   Whatever word is met as a header, written as one or not: how many words are read behind it and what is
   shown, by its type in the upper 3 bits, its size in the next 8 and its time in the lower 53.
   */
  lemma AnyHeader(stream: seq<u64>, at: nat, stop: nat, kind: nat, size: nat, time: nat)
    requires at < |stream| && at != stop && 0 < time < 0x20_0000_0000_0000 && size < 0x100 && kind < 8
    requires stream[at] == kind * 0x2000_0000_0000_0000 + size * 0x20_0000_0000_0000 + time
    ensures kind == 0 && size == 1 ==> Shows(stream, at, stop, 1, Pc(time, WordAt(stream, at + 1)))
    ensures kind == 1 && 1 <= size <= 5 ==>
              Shows(stream, at, stop, size, Printf(time, WordAt(stream, at + 1), Behind(stream, at + 2, size - 1)))
    ensures kind == 2 ==> Shows(stream, at, stop, size, Data(time, Behind(stream, at + 1, size)))
    ensures kind == 3 && size == 0 ==> Shows(stream, at, stop, 1, Structure(time, WordAt(stream, at + 1), []))
    ensures kind == 3 && size > 0 ==>
              Shows(stream, at, stop, size, Structure(time, WordAt(stream, at + 1), Behind(stream, at + 2, size - 1)))
    ensures kind == 4 && size == 3 ==>
              Shows(stream, at, stop, 3, Perf(time, WordAt(stream, at + 1), WordAt(stream, at + 2), WordAt(stream, at + 3)))
    ensures (kind == 0 && size != 1) || (kind == 1 && !(1 <= size <= 5)) || (kind == 4 && size != 3) ==>
              Shows(stream, at, stop, 0, IllegalSize(time, size))
    ensures kind >= 5 ==> Shows(stream, at, stop, 0, Unknown(time))
  {
    hide *;
    HeaderParts(stream[at], kind, size, time);
    var n := Payload(stream[at]);
    var words := Behind(stream, at + 1, n);
    PartsShown(stream[at], kind, size, time, words);
    ParseHeader(stream, at, stop, n);
    BehindFour(stream, at + 1);
    BehindFour(stream, at + 2);
    if n > 0 {
      BehindSplit(stream, at + 1, n);
    }
  }

  /** A word without a time is passed over, and nothing is shown at the write position or behind the end. */
  lemma NoHeader(stream: seq<u64>, at: nat, stop: nat)
    ensures at == stop || at >= |stream| ==> Parse(stream, at, stop) == ([], false)
    ensures at != stop && at < |stream| && stream[at] % 0x20_0000_0000_0000 == 0 ==> Parse(stream, at, stop) == Parse(stream, at + 1, stop)
  {
  }

  // ---------------------------------------------------------------- the round trip

  lemma EncodedSize(e: Entry)
    requires Shaped(e)
    ensures Encode(e) != [] && Cycle(Encode(e)[0]) == e.cycle && Payload(Encode(e)[0]) == |Encode(e)| - 1
    ensures Decode(Encode(e)[0], Encode(e)[1..]) == e
  {
    hide Header;
    match e
    case Pc(cycle, _) => HeaderDecodes(TYPE_PC, 1, cycle);
    case Printf(cycle, _, args) => HeaderDecodes(TYPE_PRINTF, |args| + 1, cycle);
    case Data(cycle, words) => HeaderDecodes(TYPE_DATA, |words|, cycle);
    case Structure(cycle, _, words) => HeaderDecodes(TYPE_STRUCTURE, |words| + 1, cycle);
    case Perf(cycle, _, _, _) => HeaderDecodes(TYPE_PERF, 3, cycle);
  }

  lemma ParseOne(stream: seq<u64>, at: nat, stop: nat, e: Entry)
    requires Loggable(e) && at + |Encode(e)| <= stop <= |stream| && stream[at..at + |Encode(e)|] == Encode(e)
    ensures var (rest, fault) := Parse(stream, at + |Encode(e)|, stop); Parse(stream, at, stop) == ([e] + rest, fault)
  {
    EncodedSize(e);
    hide Encode, Header, Cycle, Payload, Decode;
    var code := Encode(e);
    assert stream[at] == stream[at..at + |code|][0];
    assert e.cycle > 0;
    assert Words(stream, at + 1, |code| - 1) == code[1..] by {
      assert stream[at + 1..at + |code|] == stream[at..at + |code|][1..];
    }
  }

  lemma SplitSlice(s: seq<u64>, lo: nat, hi: nat, a: seq<u64>, b: seq<u64>)
    requires lo <= hi <= |s| && s[lo..hi] == a + b
    ensures lo + |a| <= hi && s[lo..lo + |a|] == a && s[lo + |a|..hi] == b
  {
    assert |a| + |b| == hi - lo;
    assert s[lo..lo + |a|] == s[lo..hi][..|a|];
    assert s[lo + |a|..hi] == s[lo..hi][|a|..];
  }

  /** The display recovers exactly the entries written, wherever in the buffers they lie. */
  lemma {:induction false} ParseRecovers(stream: seq<u64>, at: nat, stop: nat, entries: seq<Entry>)
    requires at <= stop <= |stream| && stream[at..stop] == EncodeAll(entries)
    requires forall i | 0 <= i < |entries| :: Loggable(entries[i])
    ensures Parse(stream, at, stop) == (entries, false)
    decreases |entries|
  {
    if entries == [] {
      assert at == stop;
    } else {
      hide Encode, Loggable;
      var code := Encode(entries[0]);
      SplitSlice(stream, at, stop, code, EncodeAll(entries[1..]));
      hide EncodeAll;
      ParseRecovers(stream, at + |code|, stop, entries[1..]);
      hide Parse;
      ParseOne(stream, at, stop, entries[0]);
      assert [entries[0]] + entries[1..] == entries;
    }
  }

  /** Nothing shown has a zero time stamp, whatever is in the buffers. */
  lemma {:induction false} NothingZeroShown(stream: seq<u64>, at: nat, stop: nat)
    ensures forall e | e in Parse(stream, at, stop).0 :: e.cycle != 0
    decreases |stream| - at
  {
    hide Cycle, Payload, Words;
    if at == stop || at >= |stream| {
    } else if Cycle(stream[at]) == 0 {
      NothingZeroShown(stream, at + 1, stop);
    } else {
      var h, n := stream[at], Payload(stream[at]);
      if at + 1 + n <= |stream| + 1 {
        NothingZeroShown(stream, at + 1 + n, stop);
        assert Decode(h, Words(stream, at + 1, n)).cycle == Cycle(h);
      }
    }
  }

  /** So the display recovers what the writers wrote just if no entry has a zero time stamp. */
  lemma RecoversJust(stream: seq<u64>, at: nat, stop: nat, entries: seq<Entry>)
    requires at <= stop <= |stream| && stream[at..stop] == EncodeAll(entries)
    requires forall i | 0 <= i < |entries| :: Shaped(entries[i])
    ensures Parse(stream, at, stop) == (entries, false) <==> forall i | 0 <= i < |entries| :: entries[i].cycle != 0
  {
    hide Parse, EncodeAll, Shaped;
    NothingZeroShown(stream, at, stop);
    if forall i | 0 <= i < |entries| :: entries[i].cycle != 0 {
      ParseRecovers(stream, at, stop, entries);
    }
  }

  /** The header of an entry with a zero time stamp is skipped, and what follows is taken for a header. */
  lemma ZeroCycleIsSkipped(stream: seq<u64>, at: nat, stop: nat, e: Entry)
    requires Shaped(e) && e.cycle == 0
    requires at + |Encode(e)| <= stop <= |stream| && stream[at..at + |Encode(e)|] == Encode(e)
    ensures Parse(stream, at, stop) == Parse(stream, at + 1, stop)
  {
    EncodedSize(e);
    hide Encode, Cycle, Decode, Payload;
    assert stream[at] == stream[at..at + |Encode(e)|][0];
  }

  lemma {:induction false} EncodeAppend(entries: seq<Entry>, e: Entry)
    ensures EncodeAll(entries + [e]) == EncodeAll(entries) + Encode(e)
  {
    hide Encode;
    if entries == [] {
      assert EncodeAll([e]) == Encode(e) + EncodeAll([]);
    } else {
      EncodeAppend(entries[1..], e);
      assert (entries + [e])[1..] == entries[1..] + [e];
    }
  }
}
