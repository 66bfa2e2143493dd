/**
 What the calls on boot memory answer, said of their arguments and of the state they are made in:
 which address, which slot, when nothing, and what else changes.
 */
module Answers {
  import opened Word64
  import opened FreeList
  import opened AllocMeaning
  import opened FreeMeaning
  import opened NamedBlocks

  /** The names have the same character at `i`, or both end before it. */
  predicate AgreeAt(a: string, b: string, i: nat) {
    if i < |a| && i < |b| then a[i] == b[i] else i >= |a| && i >= |b|
  }

  /** The names are the same in their first `k` characters, as strncmp compares them. */
  predicate AgreeTo(a: string, b: string, k: nat) { forall i: nat | i < k :: AgreeAt(a, b, i) }

  /** Slot `i` holds a block of that name. */
  predicate IsNamed(t: Table, name: string, k: nat, i: int) {
    0 <= i < |t| && t[i].size != 0 && AgreeTo(t[i].name, name, k)
  }

  predicate Unused(t: Table, i: int) { 0 <= i < |t| && t[i].size == 0 }

  lemma TruncAgrees(a: string, b: string, k: nat)
    ensures Trunc(a, k) == Trunc(b, k) <==> AgreeTo(a, b, k)
  {
    var x, y := Trunc(a, k), Trunc(b, k);
    if x == y {
      forall i: nat | i < k ensures AgreeAt(a, b, i) {
        assert i < |a| ==> x[i] == a[i];
        assert i < |b| ==> y[i] == b[i];
      }
    }
    if AgreeTo(a, b, k) {
      assert |x| < k ==> AgreeAt(a, b, |x|);
      assert |y| < k ==> AgreeAt(a, b, |y|);
      forall i | 0 <= i < |x| ensures x[i] == y[i] {
        assert AgreeAt(a, b, i);
      }
    }
  }

  lemma MatchesNamed(t: Table, name: string, k: nat, i: int)
    requires 0 <= i < |t|
    ensures Matches(t[i], Some(name), k) <==> IsNamed(t, name, k, i)
    ensures Matches(t[i], None, k) <==> Unused(t, i)
  {
    TruncAgrees(t[i].name, name, k);
  }

  /** The lookup finds the first slot of the name, or the first unused one, and fails just if there is none. */
  lemma FindAnswer(t: Table, name: string, k: nat)
    ensures var r := Find(t, Some(name), k);
            if r < 0 then forall i :: !IsNamed(t, name, k, i) else IsNamed(t, name, k, r) && forall i | i < r :: !IsNamed(t, name, k, i)
    ensures var r := Find(t, None, k);
            if r < 0 then forall i :: !Unused(t, i) else Unused(t, r) && forall i | i < r :: !Unused(t, i)
  {
    hide Matches, Trunc, AgreeTo;
    var r, u := Find(t, Some(name), k), Find(t, None, k);
    forall i | 0 <= i < |t| ensures Matches(t[i], Some(name), k) <==> IsNamed(t, name, k, i) {
      MatchesNamed(t, name, k, i);
    }
    forall i | 0 <= i < |t| ensures Matches(t[i], None, k) <==> Unused(t, i) {
      MatchesNamed(t, name, k, i);
    }
  }

  // ---------------------------------------------------------------- a lookup

  /** Looking a name up changes nothing; the answer is the slot that holds it, counted from one, and 0 just if no live block has the name. */
  lemma LookupAnswer(s: State, k: nat, l0: seq<Block>, name: string)
    requires Partition(s, k, l0)
    ensures var (r, s') := Step(s, k, FindNamed(Some(name)));
            && s' == s
            && (r == 0 <==> forall i :: !IsNamed(s.named, name, k, i))
            && (forall i | IsNamed(s.named, name, k, i) :: r == i + 1)
  {
    var r := Find(s.named, Some(name), k);
    FindAnswer(s.named, name, k);
    hide Partition, Find, AgreeTo;
    forall i | IsNamed(s.named, name, k, i) ensures r == i {
      OneNamed(s, k, l0, name, r, i);
    }
  }

  /** No two live blocks have the same name. */
  lemma OneNamed(s: State, k: nat, l0: seq<Block>, name: string, i: int, j: int)
    requires Partition(s, k, l0) && IsNamed(s.named, name, k, i) && IsNamed(s.named, name, k, j)
    ensures i == j
  {
    var t := s.named;
    TruncAgrees(t[i].name, name, k);
    TruncAgrees(t[j].name, name, k);
    hide Trunc, AgreeTo, Has;
  }

  // ---------------------------------------------------------------- an allocation without a name

  /**
   The least address that is aligned, in range and has room inside one entry, 0 just if there is
   none; its bytes and no others leave the free list.
   */
  lemma AnonymousAnswer(s: State, k: nat, size: u64, addressMin: u64, addressMax: u64, alignment: u64)
    requires Sorted(s.free) && AllocAnonymous(size, addressMin, addressMax, alignment).Legal()
    ensures var (r, s') := Step(s, k, AllocAnonymous(size, addressMin, addressMax, alignment));
            && Granted(s.free, s'.free, size, addressMin, addressMax, alignment, r)
            && s'.named == s.named
            && s'.handed == (if r == 0 then s.handed else s.handed + [Block(r, RoundUp(size, 16))])
  {
    hide PowerOfTwo, Alloc, RoundUp, Wanted, Has;
    AllocGranted(s.free, size, addressMin, addressMax, alignment);
  }

  /** `r` answers the request: the least wanted address, or 0; `after` is `before` without its bytes. */
  ghost predicate Granted(before: seq<Block>, after: seq<Block>, size: u64, addressMin: u64, addressMax: u64, alignment: u64, r: int)
    requires size <= TWO64 - 16
  {
    && (r != 0 ==> Wanted(before, size, addressMin, addressMax, alignment, r))
    && (if size != 0 && addressMin % 16 == 0
        then forall x: nat :: Wanted(before, size, addressMin, addressMax, alignment, x) ==> 0 < r <= x
        else r == 0)
    && (forall y :: Has(after, y) <==> Has(before, y) && !(r != 0 && r <= y < r + RoundUp(size, 16)))
  }

  lemma AllocGranted(l: seq<Block>, size: u64, addressMin: u64, addressMax: u64, alignment: u64)
    requires Sorted(l) && size <= TWO64 - 16 && (alignment == 0 || PowerOfTwo(alignment))
    ensures var (r, m) := Alloc(l, size, addressMin, addressMax, alignment);
            Granted(l, m, size, addressMin, addressMax, alignment, r)
  {
    hide PowerOfTwo, Alloc, RoundUp, Wanted, Has;
    AllocLeast(l, size, addressMin, addressMax, alignment);
    var (r, m) := Alloc(l, size, addressMin, addressMax, alignment);
    forall y ensures Has(m, y) <==> Has(l, y) && !(r != 0 && r <= y < r + RoundUp(size, 16)) {
      AllocBytes(l, size, addressMin, addressMax, alignment, y);
    }
  }

  // ---------------------------------------------------------------- a reservation

  /** Nothing is reserved for a name that is taken, in a full table, or for no name. */
  lemma ReserveRefused(s: State, k: nat, size: u64, addressMin: u64, addressMax: u64, alignment: u64, name: Option<string>)
    requires Sorted(s.free) && (alignment == 0 || PowerOfTwo(alignment))
    requires name.None? || (exists i :: IsNamed(s.named, name.value, k, i)) || (forall i :: !Unused(s.named, i))
    ensures Step(s, k, AllocNamed(size, addressMin, addressMax, alignment, name)) == (0, s)
  {
    hide PowerOfTwo, Sorted, Alloc, Find, AgreeTo, MaskUp;
    FindAnswer(s.named, if name.Some? then name.value else "", k);
  }

  /**
   Otherwise the answer is that of an allocation, and a block got goes into the first unused slot with
   its rounded size and as much of the name as is compared; no other slot changes.
   */
  lemma ReserveAnswer(s: State, k: nat, size: u64, addressMin: u64, addressMax: u64, alignment: u64, name: string, slot: int)
    requires Sorted(s.free) && (alignment == 0 || PowerOfTwo(alignment)) && size <= TWO64 - 16
    requires (forall i :: !IsNamed(s.named, name, k, i)) && Unused(s.named, slot) && (forall i | i < slot :: !Unused(s.named, i))
    ensures var (r, s') := Step(s, k, AllocNamed(size, addressMin, addressMax, alignment, Some(name)));
            && Granted(s.free, s'.free, size, addressMin, addressMax, alignment, r)
            && s'.handed == s.handed && |s'.named| == |s.named|
            && (forall i | 0 <= i < |s.named| && (i != slot || r == 0) :: s'.named[i] == s.named[i])
            && (r != 0 ==>
                  && s'.named[slot].base == r && s'.named[slot].size == RoundUp(size, 16)
                  && s'.named[slot].name == if |name| <= k then name else name[..k])
  {
    FindAnswer(s.named, name, k);
    assert Find(s.named, Some(name), k) < 0 && Find(s.named, None, k) == slot;
    hide PowerOfTwo, Sorted, Alloc, Find, AgreeTo, Wanted, Has, RoundUp, MaskUp;
    RoundedWord(size);
    RoundedSmall(size);
    var rounded := MaskUp(size, 16);
    AllocGranted(s.free, rounded, addressMin, addressMax, alignment);
    SameRequest(s.free, Alloc(s.free, rounded, addressMin, addressMax, alignment).1, size, rounded, addressMin, addressMax, alignment,
                Alloc(s.free, rounded, addressMin, addressMax, alignment).0);
    if Alloc(s.free, rounded, addressMin, addressMax, alignment).0 != 0 {
      AllocatedGood(s.free, rounded, addressMin, addressMax, alignment);
    }
  }

  lemma RoundedWord(size: u64)
    requires size <= TWO64 - 16
    ensures MaskUp(size, 16) == RoundUp(size, 16) <= TWO64 - 16 && RoundUp(RoundUp(size, 16), 16) == RoundUp(size, 16)
    ensures RoundUp(size, 16) == 0 <==> size == 0
  {
    hide MaskUp, RoundUp;
    SixteenIsPower();
    MaskUpExact(size, 16);
    RoundUpLeast(size, 16);
    RoundedSmall(size);
    RoundUpFixed(RoundUp(size, 16), 16);
  }

  /** The allocator sees of the size only what it rounds to. */
  lemma SameRequest(l: seq<Block>, m: seq<Block>, size: u64, rounded: u64, addressMin: u64, addressMax: u64, alignment: u64, r: int)
    requires size <= TWO64 - 16 && rounded <= TWO64 - 16 && RoundUp(rounded, 16) == rounded == RoundUp(size, 16) && (rounded == 0 <==> size == 0)
    requires Granted(l, m, rounded, addressMin, addressMax, alignment, r)
    ensures Granted(l, m, size, addressMin, addressMax, alignment, r)
  {
    hide RoundUp, Has, Room;
    forall x ensures Wanted(l, rounded, addressMin, addressMax, alignment, x) <==> Wanted(l, size, addressMin, addressMax, alignment, x) {
    }
    hide Wanted;
  }

  /** A size that rounds to 0 is refused: no slot is taken and the list stays as it is. */
  lemma ReserveOversize(s: State, k: nat, size: u64, addressMin: u64, addressMax: u64, alignment: u64, name: Option<string>)
    requires Sorted(s.free) && (alignment == 0 || PowerOfTwo(alignment)) && size > TWO64 - 16
    ensures Step(s, k, AllocNamed(size, addressMin, addressMax, alignment, name)) == (0, s)
  {
    hide PowerOfTwo, Sorted, Alloc, Find, Wanted, RoundUp, MaskUp;
    SixteenIsPower();
    MaskUpWraps(size, 16);
    RoundedSmall(size);
    AllocLeast(s.free, MaskUp(size, 16), addressMin, addressMax, alignment);
  }

  /** Whatever the state, an address reserved answers the request. */
  lemma ReserveGranted(s: State, k: nat, size: u64, addressMin: u64, addressMax: u64, alignment: u64, name: Option<string>)
    requires Sorted(s.free) && (alignment == 0 || PowerOfTwo(alignment))
    ensures var (r, s') := Step(s, k, AllocNamed(size, addressMin, addressMax, alignment, name));
            r != 0 ==> size <= TWO64 - 16 && Granted(s.free, s'.free, size, addressMin, addressMax, alignment, r)
  {
    hide PowerOfTwo, Sorted, Step, Find, AgreeTo, Granted;
    if size > TWO64 - 16 {
      ReserveOversize(s, k, size, addressMin, addressMax, alignment, name);
    } else if name.None? || (exists i :: IsNamed(s.named, name.value, k, i)) || (forall i :: !Unused(s.named, i)) {
      ReserveRefused(s, k, size, addressMin, addressMax, alignment, name);
    } else {
      FindAnswer(s.named, name.value, k);
      ReserveAnswer(s, k, size, addressMin, addressMax, alignment, name.value, Find(s.named, None, k));
    }
  }

  // ---------------------------------------------------------------- a free

  /** Freeing by name: 0 and no change just if no live block has the name; else its bytes, and no others, are free again and its slot is unused. */
  lemma ReleaseAnswer(s: State, k: nat, l0: seq<Block>, name: string)
    requires Partition(s, k, l0)
    ensures var (r, s') := Step(s, k, FreeNamed(Some(name)));
            && (if forall i :: !IsNamed(s.named, name, k, i) then r == 0 && s' == s else r == 1)
            && s'.handed == s.handed && |s'.named| == |s.named|
            && forall i | IsNamed(s.named, name, k, i) ::
                 && (forall j | 0 <= j < |s.named| && j != i :: s'.named[j] == s.named[j])
                 && s'.named[i] == s.named[i].(size := 0)
                 && forall y :: Has(s'.free, y) <==> Has(s.free, y) || s.named[i].base <= y < s.named[i].base + s.named[i].size
  {
    LookupAnswer(s, k, l0, name);
    FindAnswer(s.named, name, k);
    var i := Find(s.named, Some(name), k);
    if i >= 0 {
      var b := s.named[i];
      StepRelease(s, k, l0, i);
      assert Sorted(s.free);
      hide Partition, Find, AgreeTo, Clear, Sorted, Insert, Has, Release;
      forall y ensures Has(Insert(s.free, b.base, b.size), y) <==> Has(s.free, y) || b.base <= y < b.base + b.size {
        InsertBytes(s.free, b.base, b.size, y);
      }
    }
  }

  /** With no name an unused slot is found, and freeing it changes nothing. */
  lemma ReleaseNothing(s: State, k: nat)
    requires Sorted(s.free)
    ensures Step(s, k, FreeNamed(None)) == (if exists i :: Unused(s.named, i) then 1 else 0, s)
  {
    hide Sorted, Insert;
    FindAnswer(s.named, "", k);
    var i := Find(s.named, None, k);
    if i >= 0 {
      assert s.named[i := s.named[i].(size := 0)] == s.named;
    }
  }
}
