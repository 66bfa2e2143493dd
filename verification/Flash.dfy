/**
 The flash writer of cvmx-flash.c: regions of equal blocks laid out one behind the other, blocks
 erased to ones and programmed byte by byte, and a write that runs over blocks and regions. Any
 erase and any byte may fail, which ends the write.
 */
module Flash {
  import opened Word64

  const MAX_NUM_REGIONS := 8
  const INT_MAX := 0x7FFF_FFFF
  const AMD_STANDARD := 2
  const INTEL_EXTENDED := 1
  const INTEL_STANDARD := 3

  datatype Region = Region(startOffset: nat, blockSize: nat, numBlocks: nat)

  function RegionBytes(r: Region): nat { r.blockSize * r.numBlocks }

  /** What cvmx_flash_queury_cfi finds out about a chip on the bus. */
  datatype Chip = Chip(base: nat, size: nat, vendor: nat, regions: seq<Region>) {
    predicate Supported() { vendor == AMD_STANDARD || vendor == INTEL_STANDARD || vendor == INTEL_EXTENDED }
  }

  /** One region in the query table: the number of blocks less one, and the block size in units of 256, 0 for 128 bytes. */
  datatype Geometry = Geometry(blocks: nat, size: nat) {
    predicate Fits() { blocks < 0x1_0000 && size < 0x1_0000 }
    function BlockSize(): nat { if size == 0 then 128 else 256 * size }
    function Bytes(): nat { BlockSize() * (blocks + 1) }
  }

  function TableBytes(table: seq<Geometry>): nat {
    if table == [] then 0 else TableBytes(table[..|table| - 1]) + table[|table| - 1].Bytes()
  }

  /** The first `i` regions' bytes. */
  function Offset(regions: seq<Region>, i: nat): nat
    requires i <= |regions|
  {
    if i == 0 then 0 else Offset(regions, i - 1) + RegionBytes(regions[i - 1])
  }

  /** Regions lie one behind the other from 0 to `size`. */
  predicate Tiles(regions: seq<Region>, size: nat) {
    && (forall i | 0 <= i < |regions| :: regions[i].startOffset == Offset(regions, i))
    && (forall i | 0 <= i < |regions| :: regions[i].blockSize > 0 && regions[i].numBlocks > 0)
    && Offset(regions, |regions|) == size
  }

  lemma {:induction false} OffsetPrefix(a: seq<Region>, b: seq<Region>, i: nat)
    requires i <= |a| && i <= |b| && a[..i] == b[..i]
    ensures Offset(a, i) == Offset(b, i)
  {
    if i > 0 {
      assert a[i - 1] == a[..i][i - 1] == b[i - 1];
      assert a[..i - 1] == a[..i][..i - 1] == b[..i - 1];
      OffsetPrefix(a, b, i - 1);
    }
  }

  lemma {:induction false} OffsetGrows(regions: seq<Region>, i: nat, j: nat)
    requires i <= j <= |regions|
    ensures Offset(regions, i) <= Offset(regions, j)
  {
    if i < j { OffsetGrows(regions, i, j - 1); }
  }

  lemma OffsetAppend(regions: seq<Region>, r: Region, i: nat)
    requires i <= |regions|
    ensures Offset(regions + [r], i) == Offset(regions, i)
  {
    assert (regions + [r])[..i] == regions[..i];
    OffsetPrefix(regions + [r], regions, i);
  }

  lemma TilesAppend(regions: seq<Region>, size: nat, r: Region)
    requires Tiles(regions, size) && r.startOffset == size && r.blockSize > 0 && r.numBlocks > 0
    ensures Tiles(regions + [r], size + RegionBytes(r))
  {
    hide Offset, RegionBytes;
    var all, n := regions + [r], |regions|;
    forall i | 0 <= i <= n ensures Offset(all, i) == Offset(regions, i) {
      OffsetAppend(regions, r, i);
    }
    OffsetStep(all, n);
  }

  lemma OffsetStep(regions: seq<Region>, i: nat)
    requires i < |regions|
    ensures Offset(regions, i + 1) == Offset(regions, i) + RegionBytes(regions[i])
  {
    hide RegionBytes;
  }

  lemma BytesOf(r: Region)
    ensures RegionBytes(r) == r.blockSize * r.numBlocks
  {
  }

  lemma NoRegions()
    ensures Tiles([], 0)
  {
  }

  lemma TableNext(table: seq<Geometry>, i: nat)
    requires i < |table|
    ensures TableBytes(table[..i + 1]) == TableBytes(table[..i]) + table[i].BlockSize() * (table[i].blocks + 1)
  {
    assert table[..i + 1][..i] == table[..i];
  }

  /** The region loop: the computed start offsets tile as many bytes as the table describes. */
  method BuildRegions(table: seq<Geometry>) returns (regions: seq<Region>)
    requires |table| <= MAX_NUM_REGIONS && (forall i | 0 <= i < |table| :: table[i].Fits()) && TableBytes(table) <= INT_MAX
    ensures Tiles(regions, TableBytes(table)) && |regions| == |table|
    ensures forall i | 0 <= i < |table| ::
              && regions[i].blockSize == (if table[i].size == 0 then 128 else 256 * table[i].size)
              && regions[i].numBlocks == table[i].blocks + 1
  {
    hide Tiles, RegionBytes;
    regions := [];
    NoRegions();
    var startOffset := 0;
    var region := 0;
    assert table[..0] == [];
    while region < |table|
      invariant 0 <= region <= |table| && |regions| == region
      invariant startOffset == TableBytes(table[..region]) && Tiles(regions, startOffset)
      invariant forall i | 0 <= i < region :: regions[i].blockSize == table[i].BlockSize() && regions[i].numBlocks == table[i].blocks + 1
    {
      var numBlocks := 1 + table[region].blocks;
      var blockSize := if table[region].size == 0 then 128 else 256 * table[region].size;
      assert blockSize == table[region].BlockSize();
      TilesAppend(regions, startOffset, Region(startOffset, blockSize, numBlocks));
      BytesOf(Region(startOffset, blockSize, numBlocks));
      TableNext(table, region);
      regions := regions + [Region(startOffset, blockSize, numBlocks)];
      startOffset := startOffset + blockSize * numBlocks;
      region := region + 1;
    }
    assert table[..region] == table;
  }

  // ---------------------------------------------------------------- blocks

  predicate IsRegion(regions: seq<Region>, r: int) { 0 <= r < |regions| }

  function BlockStart(r: Region, block: nat): nat { r.startOffset + block * r.blockSize }

  lemma Times(b: nat, s: nat)
    ensures (b + 1) * s == b * s + s
  {
  }

  lemma NextBlock(r: Region, block: nat)
    ensures BlockStart(r, 0) == r.startOffset
    ensures BlockStart(r, block + 1) == BlockStart(r, block) + r.blockSize
    ensures BlockStart(r, r.numBlocks) == r.startOffset + RegionBytes(r)
  {
    Times(block, r.blockSize);
  }

  lemma {:induction false} BlocksGrow(r: Region, i: nat, j: nat)
    requires i <= j
    ensures BlockStart(r, i) <= BlockStart(r, j)
  {
    if i < j {
      BlocksGrow(r, i, j - 1);
      NextBlock(r, j - 1);
      hide BlockStart;
    }
  }

  /** A block lies inside its region, and so inside the chip. */
  lemma BlockInside(regions: seq<Region>, size: nat, r: nat, block: nat)
    requires Tiles(regions, size) && r < |regions| && block < regions[r].numBlocks
    ensures Offset(regions, r) <= BlockStart(regions[r], block)
    ensures BlockStart(regions[r], block) + regions[r].blockSize == BlockStart(regions[r], block + 1) <= Offset(regions, r + 1) <= size
  {
    hide BlockStart, RegionBytes;
    OffsetGrows(regions, r + 1, |regions|);
    NextBlock(regions[r], block);
    BlocksGrow(regions[r], block + 1, regions[r].numBlocks);
    BlocksGrow(regions[r], 0, block);
  }

  /** `[from, to)` is one block of the chip. */
  ghost predicate IsBlock(regions: seq<Region>, from: nat, to: nat) {
    exists r, block :: Spans(regions, r, block, from, to)
  }

  predicate Spans(regions: seq<Region>, r: int, block: int, from: nat, to: nat) {
    IsRegion(regions, r) && 0 <= block < regions[r].numBlocks && from == BlockStart(regions[r], block) && to == from + regions[r].blockSize
  }

  ghost predicate StartsBlock(regions: seq<Region>, from: nat) { exists to :: IsBlock(regions, from, to) }

  /** Where a write that ends at `x` stops: at the end of the block that holds its last byte. */
  ghost predicate CoveredTo(regions: seq<Region>, x: nat, end: nat) {
    exists from :: 0 <= from < x <= end && IsBlock(regions, from, end)
  }

  /** An earlier block ends where a later one starts, or before. */
  lemma BlockBefore(regions: seq<Region>, size: nat, r: nat, i: nat, a: nat, b: nat, s: nat, j: nat, c: nat, d: nat)
    requires Tiles(regions, size) && Spans(regions, r, i, a, b) && Spans(regions, s, j, c, d)
    requires r < s || (r == s && i < j)
    ensures b <= c
  {
    hide BlockStart, RegionBytes, Offset, Tiles;
    BlockInside(regions, size, r, i);
    BlockInside(regions, size, s, j);
    if r < s {
      OffsetGrows(regions, r + 1, s);
    } else {
      BlocksGrow(regions[r], i + 1, j);
    }
  }

  /** Two blocks are the same or apart. */
  lemma BlocksApart(regions: seq<Region>, size: nat, a: nat, b: nat, c: nat, d: nat)
    requires Tiles(regions, size) && IsBlock(regions, a, b) && IsBlock(regions, c, d)
    ensures (a == c && b == d) || b <= c || d <= a
  {
    var r, i :| Spans(regions, r, i, a, b);
    var s, j :| Spans(regions, s, j, c, d);
    hide BlockStart, Tiles;
    if r < s || (r == s && i < j) {
      BlockBefore(regions, size, r, i, a, b, s, j, c, d);
    } else if s < r || j < i {
      BlockBefore(regions, size, s, j, c, d, r, i, a, b);
    }
  }

  /** So where a write stops is determined by where it ends. */
  lemma CoveredToUnique(regions: seq<Region>, size: nat, x: nat, e1: nat, e2: nat)
    requires Tiles(regions, size) && CoveredTo(regions, x, e1) && CoveredTo(regions, x, e2)
    ensures e1 == e2
  {
    var f1 :| 0 <= f1 < x <= e1 && IsBlock(regions, f1, e1);
    var f2 :| 0 <= f2 < x <= e2 && IsBlock(regions, f2, e2);
    BlocksApart(regions, size, f1, e1, f2, e2);
  }

  /** The block the division finds for an offset in the region. */
  function BlockOf(r: Region, offset: nat): nat
    requires r.blockSize > 0 && offset >= r.startOffset
  {
    (offset - r.startOffset) / r.blockSize
  }

  lemma QuotientBelow(x: nat, s: nat, n: nat)
    requires s > 0 && x < s * n
    ensures x / s < n
  {
    var q := x / s;
    assert (q - n) * s == q * s - n * s;
    MulBounds(q - n, s);
  }

  lemma BlockOfBelow(r: Region, offset: nat)
    requires r.blockSize > 0 && r.startOffset <= offset < r.startOffset + RegionBytes(r)
    ensures BlockOf(r, offset) < r.numBlocks
  {
    QuotientBelow(offset - r.startOffset, r.blockSize, r.numBlocks);
  }

  lemma BlockOfStart(r: Region, block: nat)
    requires r.blockSize > 0
    ensures BlockStart(r, block) >= r.startOffset && BlockOf(r, BlockStart(r, block)) == block
  {
    ModUnique(block * r.blockSize, r.blockSize, block, 0);
  }

  /** Only a region's own blocks start in it. */
  lemma OwnRegion(regions: seq<Region>, size: nat, region: nat, offset: nat, s: nat, j: nat, to: nat)
    requires Tiles(regions, size) && region < |regions| && Offset(regions, region) <= offset < Offset(regions, region + 1)
    requires Spans(regions, s, j, offset, to)
    ensures s == region
  {
    hide BlockStart, RegionBytes, Offset;
    assert regions[s].blockSize > 0;
    hide Tiles;
    BlockInside(regions, size, s, j);
    if s < region {
      OffsetGrows(regions, s + 1, region);
    } else if region < s {
      OffsetGrows(regions, region + 1, s);
    }
  }

  /** An offset starts a block just if its block, found by division in its region, starts there. */
  lemma AlignedJust(regions: seq<Region>, size: nat, region: nat, offset: nat)
    requires Tiles(regions, size) && region < |regions| && Offset(regions, region) <= offset < Offset(regions, region + 1)
    ensures regions[region].blockSize > 0 && regions[region].startOffset <= offset
    ensures BlockOf(regions[region], offset) < regions[region].numBlocks
    ensures StartsBlock(regions, offset) <==> offset == BlockStart(regions[region], BlockOf(regions[region], offset))
  {
    var r := regions[region];
    assert Offset(regions, region + 1) == r.startOffset + RegionBytes(r) && r.blockSize > 0 && r.startOffset <= offset;
    BlockOfBelow(r, offset);
    hide BlockOf, BlockStart, RegionBytes, Tiles, Offset;
    var block := BlockOf(r, offset);
    if offset == BlockStart(r, block) {
      assert Spans(regions, region, block, offset, offset + r.blockSize);
      assert IsBlock(regions, offset, offset + r.blockSize);
    }
    if to :| IsBlock(regions, offset, to) {
      var s, j :| Spans(regions, s, j, offset, to);
      OwnRegion(regions, size, region, offset, s, j, to);
      BlockOfStart(r, j);
    }
  }

  // ---------------------------------------------------------------- the chip memory

  /** A byte can only be programmed from ones to zeros. */
  function Programmed(old_: bv8, data: bv8): bv8 { old_ & data }

  lemma ProgramErased(data: bv8)
    ensures Programmed(0xff, data) == data
  {
  }

  /** Bytes `[from, to)` of `s` are as in `data`. */
  predicate Matches(s: seq<bv8>, from: nat, to: nat, data: seq<bv8>) {
    from <= to <= |s| && to - from <= |data| && forall i | from <= i < to :: s[i] == data[i - from]
  }

  /** Nothing outside `[from, to)` differs. */
  predicate Only(before: seq<bv8>, after: seq<bv8>, from: nat, to: nat) {
    |before| == |after| && forall i | 0 <= i < |after| && !(from <= i < to) :: after[i] == before[i]
  }

  /** Each byte of `[from, to)` is its old value, programmed. */
  predicate ProgrammedFrom(before: seq<bv8>, after: seq<bv8>, from: nat, to: nat, data: seq<bv8>) {
    && |before| == |after| && from <= to <= |after| && to - from <= |data|
    && forall i | from <= i < to :: after[i] == Programmed(before[i], data[i - from])
  }

  predicate Erased(s: seq<bv8>, from: nat, to: nat) {
    from <= to <= |s| && forall i | from <= i < to :: s[i] == 0xff
  }

  lemma OneMoreByte(before: seq<bv8>, s: seq<bv8>, from: nat, at: nat, v: bv8, data: seq<bv8>)
    requires Only(before, s, from, at) && from <= at < |s| && at - from < |data|
    ensures Only(before, s[at := v], from, at + 1)
    ensures Erased(s, from, at) && v == 0xff ==> Erased(s[at := v], from, at + 1)
    ensures ProgrammedFrom(before, s, from, at, data) && v == Programmed(s[at], data[at - from]) ==>
              ProgrammedFrom(before, s[at := v], from, at + 1, data)
  {
    hide Programmed;
  }

  lemma OnlyWider(before: seq<bv8>, after: seq<bv8>, from: nat, to: nat, end: nat)
    requires Only(before, after, from, to) && to <= end
    ensures Only(before, after, from, end)
  {
  }

  lemma OnlyTwice(s0: seq<bv8>, s1: seq<bv8>, s2: seq<bv8>, from: nat, to: nat)
    requires Only(s0, s1, from, to) && Only(s1, s2, from, to)
    ensures Only(s0, s2, from, to)
  {
  }

  /** Programming erased bytes leaves the data. */
  lemma ProgrammedErased(before: seq<bv8>, after: seq<bv8>, from: nat, to: nat, data: seq<bv8>)
    requires Erased(before, from, to) && ProgrammedFrom(before, after, from, to, data)
    ensures Matches(after, from, to, data)
  {
    hide Programmed;
    forall i | from <= i < to ensures after[i] == data[i - from] {
      ProgramErased(data[i - from]);
    }
  }

  /** Blocks up to `pos` written: the next one extends that. */
  lemma Extend(before: seq<bv8>, s: seq<bv8>, s': seq<bv8>, address: nat, pos: nat, next: nat, data: seq<bv8>)
    requires address <= pos <= next && next - address <= |data|
    requires Matches(s, address, pos, data) && Only(before, s, address, pos)
    requires Only(s, s', pos, next) && Matches(s', pos, next, data[pos - address..])
    ensures Matches(s', address, next, data) && Only(before, s', address, next)
  {
    forall i | address <= i < next ensures s'[i] == data[i - address] {
      if i >= pos {
        assert s'[i] == data[pos - address..][i - pos];
      }
    }
  }

  /** A failed block leaves those before it. */
  lemma Disturb(before: seq<bv8>, s: seq<bv8>, s': seq<bv8>, address: nat, pos: nat, next: nat, data: seq<bv8>)
    requires address <= pos <= next
    requires Matches(s, address, pos, data) && Only(before, s, address, pos) && Only(s, s', pos, next)
    ensures Matches(s', address, pos, data) && Only(before, s', address, next)
  {
  }

  class Flash {
    /** What the processor sees on the boot bus; chip `c` answers from `chips[c].base` on. */
    const bus: array<bv8>
    const chips: seq<Chip>

    /** No erase and no programming of a byte fails. */
    const flawless: bool

    constructor (bus: array<bv8>, chips: seq<Chip>, flawless: bool)
      ensures this.bus == bus && this.chips == chips && this.flawless == flawless
    {
      this.bus, this.chips, this.flawless := bus, chips, flawless;
    }

    predicate Valid() {
      forall c | 0 <= c < |chips| ::
        chips[c].base + chips[c].size <= bus.Length && (chips[c].size > 0 ==> Tiles(chips[c].regions, chips[c].size))
    }

    /** Bus address of a block. */
    function Address(chip: nat, region: nat, block: nat): nat
      requires chip < |chips| && region < |chips[chip].regions|
    {
      chips[chip].base + BlockStart(chips[chip].regions[region], block)
    }

    predicate HasBlock(chip: nat, region: nat, block: nat) {
      && chip < |chips| && chips[chip].size > 0 && region < |chips[chip].regions| && block < chips[chip].regions[region].numBlocks
    }

    lemma AddressInside(chip: nat, region: nat, block: nat)
      requires Valid() && HasBlock(chip, region, block)
      ensures Address(chip, region, block) + chips[chip].regions[region].blockSize <= chips[chip].base + chips[chip].size <= bus.Length
    {
      BlockInside(chips[chip].regions, chips[chip].size, region, block);
    }

    /** End of a block on the bus. */
    function AddressEnd(chip: nat, region: nat, block: nat): nat
      requires chip < |chips| && region < |chips[chip].regions|
    {
      Address(chip, region, block) + chips[chip].regions[region].blockSize
    }

    method EraseBlock(chip: nat, region: nat, block: nat) returns (r: int)
      requires Valid() && HasBlock(chip, region, block)
      modifies bus
      ensures r == 0 || r == -1
      ensures Only(old(bus[..]), bus[..], Address(chip, region, block), AddressEnd(chip, region, block))
      ensures r == 0 ==> Erased(bus[..], Address(chip, region, block), AddressEnd(chip, region, block))
      ensures !(1 <= chips[chip].vendor <= 3) ==> r == -1 && bus[..] == old(bus[..])
      ensures flawless && 1 <= chips[chip].vendor <= 3 ==> r == 0
    {
      AddressInside(chip, region, block);
      var offset, n := Address(chip, region, block), chips[chip].regions[region].blockSize;
      hide Valid, HasBlock, Address, Only, Erased, ProgrammedFrom;
      ghost var before := bus[..];
      NothingDone(before, offset);
      if !chips[chip].Supported() {
        OnlyWider(before, before, offset, offset, offset + n);
        return -1;
      }
      var ok: bool := *;
      ok := ok || flawless;
      var i := 0;
      while i < n
        invariant 0 <= i <= n && Only(before, bus[..], offset, offset + i)
        invariant ok ==> Erased(bus[..], offset, offset + i)
      {
        var after: bv8 := *;
        if ok { after := 0xff; }
        OneMoreByte(before, bus[..], offset, offset + i, after, seq(n, _ => 0));
        ghost var s := bus[..];
        bus[offset + i] := after;
        assert bus[..] == s[offset + i := after];
        i := i + 1;
      }
      r := if ok then 0 else -1;
    }

    static lemma NothingDone(s: seq<bv8>, from: nat)
      requires from <= |s|
      ensures Only(s, s, from, from) && Erased(s, from, from) && forall data :: ProgrammedFrom(s, s, from, from, data)
    {
    }

    /** Bytes are programmed one by one until one fails. */
    method WriteBlock(chip: nat, region: nat, block: nat, data: seq<bv8>) returns (r: int)
      requires Valid() && HasBlock(chip, region, block) && |data| >= chips[chip].regions[region].blockSize
      modifies bus
      ensures r == 0 || r == -1
      ensures Only(old(bus[..]), bus[..], Address(chip, region, block), AddressEnd(chip, region, block))
      ensures r == 0 ==> ProgrammedFrom(old(bus[..]), bus[..], Address(chip, region, block), AddressEnd(chip, region, block), data)
      ensures !(1 <= chips[chip].vendor <= 3) ==> r == -1 && bus[..] == old(bus[..])
      ensures flawless && 1 <= chips[chip].vendor <= 3 ==> r == 0
    {
      AddressInside(chip, region, block);
      var offset, n := Address(chip, region, block), chips[chip].regions[region].blockSize;
      hide Valid, HasBlock, Address, Only, Erased, ProgrammedFrom, Programmed;
      ghost var before := bus[..];
      NothingDone(before, offset);
      if !chips[chip].Supported() {
        OnlyWider(before, before, offset, offset, offset + n);
        return -1;
      }
      var i := 0;
      while i < n
        invariant 0 <= i <= n && Only(before, bus[..], offset, offset + i)
        invariant ProgrammedFrom(before, bus[..], offset, offset + i, data)
      {
        var ok: bool := *;
        var after: bv8 := *;
        if ok || flawless { after := Programmed(bus[offset + i], data[i]); }
        OneMoreByte(before, bus[..], offset, offset + i, after, data);
        ghost var s := bus[..];
        bus[offset + i] := after;
        assert bus[..] == s[offset + i := after];
        if !ok && !flawless {
          OnlyWider(before, bus[..], offset, offset + i + 1, offset + n);
          return -1;
        }
        i := i + 1;
      }
      r := 0;
    }

    /** The chip's range holds the whole write. */
    predicate Holds(c: int, address: nat, len: int) {
      0 <= c < |chips| && chips[c].base <= address && address + len <= chips[c].base + chips[c].size
    }

    /** The first such chip. */
    predicate Owner(c: int, address: nat, len: int) {
      Holds(c, address, len) && forall d | 0 <= d < c :: !Holds(d, address, len)
    }

    method FindChip(address: nat, len: int) returns (chip: nat)
      ensures chip <= |chips| && (chip < |chips| <==> Owner(chip, address, len))
      ensures chip == |chips| ==> forall c :: !Owner(c, address, len)
    {
      chip := 0;
      while chip < |chips|
        invariant chip <= |chips|
        invariant forall c | 0 <= c < chip :: !Holds(c, address, len)
      {
        if chips[chip].base <= address && address + len <= chips[chip].base + chips[chip].size { return; }
        chip := chip + 1;
      }
    }

    /** The region an address of the chip lies in, and its bus address. */
    method FindRegion(chip: nat, address: nat) returns (region: nat, regionBase: nat)
      requires Valid() && chip < |chips| && chips[chip].base <= address < chips[chip].base + chips[chip].size
      ensures region < |chips[chip].regions| && regionBase == chips[chip].base + chips[chip].regions[region].startOffset
      ensures regionBase <= address < regionBase + RegionBytes(chips[chip].regions[region])
    {
      var regions, base := chips[chip].regions, chips[chip].base;
      assert Tiles(regions, chips[chip].size);
      HasRegion(regions, chips[chip].size);
      hide Valid, RegionBytes;
      regionBase, region := base, 0;
      assert Offset(regions, 0) == 0;
      while regionBase + regions[region].numBlocks * regions[region].blockSize <= address
        invariant region < |regions| && regionBase == base + Offset(regions, region) <= address
        decreases |regions| - region
      {
        RegionEnds(regions, chips[chip].size, region);
        region := region + 1;
        regionBase := base + regions[region].startOffset;
      }
      RegionEnds(regions, chips[chip].size, region);
    }

    static lemma HasRegion(regions: seq<Region>, size: nat)
      requires Tiles(regions, size) && size > 0
      ensures regions != []
    {
    }

    static lemma RegionEnds(regions: seq<Region>, size: nat, region: nat)
      requires Tiles(regions, size) && region < |regions|
      ensures regions[region].startOffset == Offset(regions, region)
      ensures Offset(regions, region + 1) == Offset(regions, region) + regions[region].numBlocks * regions[region].blockSize
      ensures Offset(regions, region + 1) == regions[region].startOffset + RegionBytes(regions[region])
      ensures RegionBytes(regions[region]) == regions[region].numBlocks * regions[region].blockSize
      ensures region + 1 == |regions| ==> Offset(regions, region + 1) == size
    {
    }

    /** The region search stops at this region, if it has not before. */
    static predicate StopsAt(regions: seq<Region>, r: int, offset: nat) {
      0 <= r < |regions| && offset < regions[r].startOffset + RegionBytes(regions[r])
    }

    static lemma StopsInside(regions: seq<Region>, size: nat, r: int, offset: nat)
      requires Tiles(regions, size) && StopsAt(regions, r, offset)
      ensures offset < size
    {
      OffsetStep(regions, r);
      OffsetGrows(regions, r + 1, |regions|);
      hide RegionBytes, Offset;
    }

    static lemma StopsAtLast(regions: seq<Region>, size: nat, offset: nat)
      requires Tiles(regions, size) && offset < size
      ensures StopsAt(regions, |regions| - 1, offset)
    {
      OffsetStep(regions, |regions| - 1);
      hide RegionBytes, Offset;
    }

    /** The region search stops inside its table just if the chip reaches beyond the offset. */
    static lemma RegionSearchEnds(regions: seq<Region>, size: nat, offset: nat)
      requires Tiles(regions, size)
      ensures (exists r :: StopsAt(regions, r, offset)) <==> offset < size
    {
      hide StopsAt, Tiles;
      if offset < size {
        StopsAtLast(regions, size, offset);
      }
      if r :| StopsAt(regions, r, offset) {
        StopsInside(regions, size, r, offset);
      }
    }

    /** The address starts a block of the chip. */
    ghost predicate Aligned(c: nat, address: nat)
      requires c < |chips| && chips[c].base <= address
    {
      StartsBlock(chips[c].regions, address - chips[c].base)
    }

    /**
     Erase and program one block: a success leaves the data there, whatever was there before; a
     failure disturbs nothing outside the block.
     */
    method RewriteBlock(chip: nat, region: nat, block: nat, data: seq<bv8>) returns (r: int)
      requires Valid() && HasBlock(chip, region, block) && |data| >= chips[chip].regions[region].blockSize
      modifies bus
      ensures r == 0 || r == -1
      ensures Only(old(bus[..]), bus[..], Address(chip, region, block), AddressEnd(chip, region, block))
      ensures r == 0 ==> Matches(bus[..], Address(chip, region, block), AddressEnd(chip, region, block), data)
      ensures flawless && 1 <= chips[chip].vendor <= 3 ==> r == 0
      ensures !(1 <= chips[chip].vendor <= 3) ==> r == -1 && bus[..] == old(bus[..])
    {
      ghost var from, to, s0 := Address(chip, region, block), AddressEnd(chip, region, block), bus[..];
      hide Valid, HasBlock, Address, AddressEnd, Only, Erased, ProgrammedFrom, Matches;
      r := EraseBlock(chip, region, block);
      if r != 0 { return -1; }
      ghost var s1 := bus[..];
      r := WriteBlock(chip, region, block, data);
      OnlyTwice(s0, s1, bus[..], from, to);
      if r != 0 { return -1; }
      ProgrammedErased(s1, bus[..], from, to, data);
    }

    /** The write on chip `c` ends in the block that ends at offset `end`. */
    ghost predicate Covers(c: nat, address: nat, len: int, end: nat)
      requires c < |chips|
    {
      len > 0 && chips[c].base <= address && CoveredTo(chips[c].regions, address - chips[c].base + len, end)
    }

    /** The whole of the block that the last byte goes to is written: there must be data for it. */
    ghost predicate Readable(address: nat, data: seq<bv8>, len: int) {
      |data| >= len && forall c: nat, end: nat | c < |chips| && Covers(c, address, len, end) :: |data| >= chips[c].base + end - address
    }

    /** Blocks are written from the address to the end of the block that holds the last byte. */
    ghost predicate Finished(c: nat, address: nat, len: int, done: nat)
      requires c < |chips|
    {
      && chips[c].base <= address && Aligned(c, address)
      && if len <= 0 then done == address else chips[c].base <= done && Covers(c, address, len, done - chips[c].base)
    }

    /** At most one block was begun and not finished. */
    ghost predicate Stopped(c: nat, done: nat, touched: nat)
      requires c < |chips|
    {
      chips[c].base <= done <= touched && (touched == done || IsBlock(chips[c].regions, done - chips[c].base, touched - chips[c].base))
    }

    /** With fewer bytes left than a block, this block is the last. */
    lemma LastBlock(chip: nat, address: nat, len: int, region: nat, block: nat)
      requires Valid() && HasBlock(chip, region, block) && chips[chip].base <= address < address + len
      requires Address(chip, region, block) < address + len <= Address(chip, region, block) + chips[chip].regions[region].blockSize
      ensures Covers(chip, address, len, AddressEnd(chip, region, block) - chips[chip].base)
    {
      hide BlockStart, Tiles, Valid;
      var regions, from := chips[chip].regions, BlockStart(chips[chip].regions[region], block);
      assert Spans(regions, region, block, from, from + regions[region].blockSize);
      assert IsBlock(regions, from, from + regions[region].blockSize);
    }

    /** Behind a block comes the next of its region, or the first of the next region. */
    lemma NextAddress(chip: nat, region: nat, block: nat)
      requires Valid() && HasBlock(chip, region, block)
      requires Address(chip, region, block) + chips[chip].regions[region].blockSize < chips[chip].base + chips[chip].size
      ensures var next := Address(chip, region, block) + chips[chip].regions[region].blockSize;
              if block + 1 < chips[chip].regions[region].numBlocks
              then HasBlock(chip, region, block + 1) && Address(chip, region, block + 1) == next
              else HasBlock(chip, region + 1, 0) && Address(chip, region + 1, 0) == next
    {
      var regions := chips[chip].regions;
      assert Tiles(regions, chips[chip].size);
      hide BlockStart, Valid, Tiles;
      NextBlock(regions[region], block);
      if block + 1 >= regions[region].numBlocks {
        RegionFollows(regions, chips[chip].size, region, block);
      }
    }

    static lemma RegionFollows(regions: seq<Region>, size: nat, region: nat, block: nat)
      requires Tiles(regions, size) && region < |regions| && block + 1 == regions[region].numBlocks
      requires BlockStart(regions[region], block) + regions[region].blockSize < size
      ensures region + 1 < |regions| && regions[region + 1].numBlocks > 0
      ensures BlockStart(regions[region + 1], 0) == BlockStart(regions[region], block) + regions[region].blockSize
    {
      NextBlock(regions[region], block);
      assert Offset(regions, region + 1) == Offset(regions, region) + RegionBytes(regions[region]);
      hide BlockStart, RegionBytes;
      if region + 1 < |regions| {
        NextBlock(regions[region + 1], 0);
      }
    }

    /** The block found for the address is its block just if the address is aligned. */
    lemma FirstBlock(chip: nat, address: nat, region: nat)
      requires Valid() && chip < |chips| && chips[chip].base <= address && region < |chips[chip].regions| && chips[chip].size > 0
      requires InRegion(chips[chip].regions[region], address - chips[chip].base)
      ensures chips[chip].regions[region].blockSize > 0
      ensures var block := BlockOf(chips[chip].regions[region], address - chips[chip].base);
              HasBlock(chip, region, block) && (Aligned(chip, address) <==> address == Address(chip, region, block))
    {
      var regions, size, offset := chips[chip].regions, chips[chip].size, address - chips[chip].base;
      assert Tiles(regions, size);
      hide Valid, Tiles, RegionBytes, StartsBlock, BlockOf, BlockStart, Offset;
      RegionEnds(regions, size, region);
      AlignedJust(regions, size, region, offset);
    }

    static predicate InRegion(r: Region, offset: int) { r.startOffset <= offset < r.startOffset + RegionBytes(r) }

    /** Rewriting the block behind those already written. */
    method WriteNext(chip: nat, region: nat, block: nat, ghost address: nat, at: nat, data: seq<bv8>, ghost before: seq<bv8>)
      returns (r: int)
      requires Valid() && HasBlock(chip, region, block) && Address(chip, region, block) == address + at
      requires AddressEnd(chip, region, block) - address <= |data|
      requires Matches(bus[..], address, address + at, data) && Only(before, bus[..], address, address + at)
      modifies bus
      ensures r == 0 || r == -1
      ensures Only(before, bus[..], address, AddressEnd(chip, region, block)) && Matches(bus[..], address, address + at, data)
      ensures r == 0 ==> Matches(bus[..], address, AddressEnd(chip, region, block), data)
      ensures flawless && 1 <= chips[chip].vendor <= 3 ==> r == 0
      ensures !(1 <= chips[chip].vendor <= 3) ==> r == -1 && bus[..] == old(bus[..])
    {
      hide BlockStart, Matches, Only, Valid;
      ghost var s, next := bus[..], AddressEnd(chip, region, block);
      assert next >= address + at && (address + at) - address == at;
      hide HasBlock, Address, AddressEnd;
      r := RewriteBlock(chip, region, block, data[at..]);
      Disturb(before, s, bus[..], address, address + at, next, data);
      if r == 0 {
        Extend(before, s, bus[..], address, address + at, next, data);
      }
    }

    /** What the block loop keeps: the place it stands at is the next block, or all is written. */
    ghost predicate Progress(chip: nat, address: nat, len: int, region: nat, block: nat, done: nat) {
      && chip < |chips| && chips[chip].base <= address <= done && Aligned(chip, address) && Stopped(chip, done, done)
      && address + len <= chips[chip].base + chips[chip].size
      && (done < address + len ==> HasBlock(chip, region, block) && Address(chip, region, block) == done)
      && (done >= address + len ==> Finished(chip, address, len, done))
    }

    lemma ProgressMade(chip: nat, address: nat, len: int, region: nat, block: nat, done: nat)
      requires Valid() && Progress(chip, address, len, region, block, done) && done < address + len
      ensures chip < |chips| && region < |chips[chip].regions|
      ensures HasBlock(chip, region, block) && AddressEnd(chip, region, block) > done == Address(chip, region, block)
      ensures var last := block + 1 >= chips[chip].regions[region].numBlocks;
              Progress(chip, address, len, if last then region + 1 else region, if last then 0 else block + 1, AddressEnd(chip, region, block))
    {
      hide Valid, Address, Aligned, Finished, Stopped;
      SizePositive(chip, region, block);
      StoppedAfter(chip, region, block);
      if AddressEnd(chip, region, block) < address + len {
        NextAddress(chip, region, block);
      } else {
        FinishedAt(chip, address, len, region, block);
      }
    }

    /**
     cvmx_flash_write. `chip` is the chip found, `done` how far blocks were written, and `touched`
     the end of the block that failed, if one did. Nothing else changes. The length is a C int: with
     none or a negative one, nothing is written, and the chip found may end at or before the address,
     which would send the source's region search past its table.
     */
    method Write(address: nat, data: seq<bv8>, len: int) returns (r: int, ghost chip: nat, ghost done: nat, ghost touched: nat)
      requires Valid() && Readable(address, data, len)
      requires forall c | 0 <= c < |chips| && Owner(c, address, len) :: address < chips[c].base + chips[c].size
      modifies bus
      ensures r == 0 || r == -1
      ensures Only(old(bus[..]), bus[..], address, touched)
      ensures if chip < |chips| then Owner(chip, address, len) && chips[chip].base <= address
              else (forall c :: !Owner(c, address, len)) && r == -1 && touched == address
      ensures chip < |chips| ==> Matches(bus[..], address, done, data) && Stopped(chip, done, touched)
      ensures chip < |chips| && r == 0 ==> Finished(chip, address, len, done) && touched == done
      ensures chip < |chips| && !Aligned(chip, address) ==> r == -1 && touched == address
      ensures chip < |chips| && Aligned(chip, address) && 1 <= chips[chip].vendor <= 3 && flawless ==> r == 0
      ensures chip < |chips| && len > 0 && !(1 <= chips[chip].vendor <= 3) ==> r == -1 && bus[..] == old(bus[..])
    {
      hide Valid, Readable, Finished, Stopped, Aligned, Matches, Only, HasBlock, Address, Covers, RegionBytes;
      done, touched := address, address;
      var found := FindChip(address, len);
      chip := found;
      Untouched(address);
      if found == |chips| { r := -1; return; }
      NothingWritten(found, address, data, len);
      var base, regions := chips[found].base, chips[found].regions;
      var region, regionBase := FindRegion(found, address);
      FirstBlock(found, address, region);
      var block: nat := (address - regionBase) / regions[region].blockSize;
      assert block == BlockOf(regions[region], address - base);
      assert Address(found, region, block) == regionBase + block * regions[region].blockSize by { AddressOf(found, region, block); }
      hide BlockOf, BlockStart;
      if address != regionBase + block * regions[region].blockSize { r := -1; return; }
      ghost var before := bus[..];
      var at := 0;
      if len <= 0 { AlignedWithNothing(found, address, len); }
      hide Aligned;
      assert Progress(found, address, len, region, block, done);
      hide Progress, Owner;
      while at < len
        invariant done == address + at && touched == done && Progress(found, address, len, region, block, done)
        invariant Matches(bus[..], address, done, data) && Only(before, bus[..], address, done)
        invariant if at == 0 then bus[..] == before else chips[found].Supported()
        decreases len - at
      {
        ProgressMade(found, address, len, region, block, done);
        BlockData(found, address, data, len, region, block);
        r := WriteNext(found, region, block, address, at, data, before);
        if r != 0 {
          StoppedAt(found, region, block);
          touched := AddressEnd(found, region, block);
          return;
        }
        done := AddressEnd(found, region, block);
        touched := done;
        at := at + regions[region].blockSize;
        block := block + 1;
        if block >= regions[region].numBlocks {
          block := 0;
          region := region + 1;
        }
      }
      ProgressEnds(found, address, len, region, block, done);
      r := 0;
    }

    lemma ProgressEnds(chip: nat, address: nat, len: int, region: nat, block: nat, done: nat)
      requires Progress(chip, address, len, region, block, done)
      ensures chip < |chips| && Stopped(chip, done, done) && (done >= address + len ==> Finished(chip, address, len, done))
    {
    }

    lemma SizePositive(chip: nat, region: nat, block: nat)
      requires Valid() && HasBlock(chip, region, block)
      ensures chips[chip].regions[region].blockSize > 0
    {
    }

    /** There is data for a whole block. */
    lemma BlockData(chip: nat, address: nat, data: seq<bv8>, len: int, region: nat, block: nat)
      requires Valid() && HasBlock(chip, region, block) && Readable(address, data, len) && chips[chip].base <= address
      requires address <= Address(chip, region, block) < address + len
      ensures Address(chip, region, block) + chips[chip].regions[region].blockSize - address <= |data|
    {
      hide Valid, Address, Covers;
      SizePositive(chip, region, block);
      if address + len <= Address(chip, region, block) + chips[chip].regions[region].blockSize {
        LastBlock(chip, address, len, region, block);
      }
    }

    lemma StoppedAt(chip: nat, region: nat, block: nat)
      requires HasBlock(chip, region, block)
      ensures Stopped(chip, Address(chip, region, block), Address(chip, region, block) + chips[chip].regions[region].blockSize)
    {
      var from := BlockStart(chips[chip].regions[region], block);
      hide BlockStart;
      assert Spans(chips[chip].regions, region, block, from, from + chips[chip].regions[region].blockSize);
    }

    lemma StoppedAfter(chip: nat, region: nat, block: nat)
      requires HasBlock(chip, region, block)
      ensures var next := Address(chip, region, block) + chips[chip].regions[region].blockSize; Stopped(chip, next, next)
    {
    }

    lemma FinishedAt(chip: nat, address: nat, len: int, region: nat, block: nat)
      requires Valid() && HasBlock(chip, region, block) && chips[chip].base <= address && Aligned(chip, address)
      requires address <= Address(chip, region, block) < address + len
      requires address + len <= Address(chip, region, block) + chips[chip].regions[region].blockSize
      ensures Finished(chip, address, len, Address(chip, region, block) + chips[chip].regions[region].blockSize)
    {
      LastBlock(chip, address, len, region, block);
    }

    lemma AlignedWithNothing(chip: nat, address: nat, len: int)
      requires len <= 0 && chip < |chips| && chips[chip].base <= address && Aligned(chip, address)
      ensures Finished(chip, address, len, address)
    {
    }

    lemma AddressOf(chip: nat, region: nat, block: nat)
      requires chip < |chips| && region < |chips[chip].regions|
      ensures Address(chip, region, block)
              == chips[chip].base + chips[chip].regions[region].startOffset + block * chips[chip].regions[region].blockSize
    {
    }

    lemma Untouched(address: nat)
      ensures Only(bus[..], bus[..], address, address)
    {
    }

    /** Before the first block. */
    lemma NothingWritten(chip: nat, address: nat, data: seq<bv8>, len: int)
      requires Valid() && Owner(chip, address, len)
      requires address < chips[chip].base + chips[chip].size
      ensures chips[chip].base <= address < chips[chip].base + chips[chip].size && chips[chip].size > 0
      ensures Matches(bus[..], address, address, data) && Stopped(chip, address, address)
    {
    }
  }
}
