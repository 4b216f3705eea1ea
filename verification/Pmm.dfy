/**
 The memory manager of pmm.c below the heap, in place: page tables reached only through
 the self-map, and a free stack whose words are read and written through those tables.
 Valid() ties both to the bookkeeping of Frames.dfy.
 */
module Pmm {
  import opened Common
  import opened Paging
  import opened Frames

  const STACK: nat := 0xFF00_0000
  const STACK_SLOT: Index := 1020
  const PAGE_WRITE: nat := 2
  const PAGE_USER: nat := 4

  // ----- the stack in memory

  /** The j-th word of the stack holds the j-th free frame. */
  ghost predicate StackWords(m: Memory, p: Pool) {
    forall j: nat {:trigger p.free[j]} :: j < |p.free| ==>
      j / 1024 < |p.storage| && m[p.storage[j / 1024]][j % 1024] == Address(p.free[j])
  }

  /** The storage frames are mapped one after the other from the stack's base. */
  ghost predicate StackMapped(m: Memory, cr3: Frame, p: Pool) {
    && (p.online ==> Present(m[cr3][STACK_SLOT]))
    && |p.storage| <= 1024
    && forall k: Index :: k < |p.storage| ==> WalkPage(m, cr3, STACK_SLOT, k) == Some(p.storage[k])
  }

  /** The directory and the tables are no frames of the stack, and none is above the mark. */
  ghost predicate TablesKnown(m: Memory, cr3: Frame, p: Pool) {
    forall o: Index {:trigger m[cr3][o]} :: Present(m[cr3][o]) ==>
      var t := FrameOf(m[cr3][o]);
      t !in p.free && t !in p.storage && Address(t) <= p.last
  }

  /** Only the identity map and the kernel's map share a table. */
  ghost predicate Unshared(m: Memory, cr3: Frame) {
    forall a: Index, b: Index {:trigger m[cr3][a], m[cr3][b]} ::
      a < b && Present(m[cr3][a]) && FrameOf(m[cr3][a]) == FrameOf(m[cr3][b]) && Present(m[cr3][b]) ==> a == 0 && b == 768
  }

  ghost predicate Sound(m: Memory, cr3: Frame, p: Pool) {
    Inv(p) && SelfMapped(m, cr3) && TablesKnown(m, cr3, p) && Unshared(m, cr3) && StackMapped(m, cr3, p) && StackWords(m, p)
  }

  function StackAddress(j: nat): (v: Word)
    requires j <= FRAMES
  {
    0xFF00_0000 + 4 * j
  }

  lemma StackIndices(j: nat)
    requires j < FRAMES
    ensures PdIndex(StackAddress(j)) == STACK_SLOT
    ensures PtIndex(StackAddress(j)) == j / 1024 && WordIndex(StackAddress(j)) == j % 1024
  {}

  /** The processor finds the j-th stack word in its storage frame. */
  lemma StackWordAt(m: Memory, cr3: Frame, p: Pool, j: nat)
    requires Sound(m, cr3, p) && j < FRAMES && j / 1024 < |p.storage|
    ensures WalkPage(m, cr3, PdIndex(StackAddress(j)), PtIndex(StackAddress(j))) == Some(p.storage[j / 1024])
    ensures WordIndex(StackAddress(j)) == j % 1024
    ensures j < |p.free| ==> m[p.storage[j / 1024]][j % 1024] == Address(p.free[j])
  {
    StackIndices(j);
    var k: Index := j / 1024;
  }

  // ----- what each step does to a sound memory

  lemma AllocSound(m: Memory, cr3: Frame, p: Pool)
    requires Sound(m, cr3, p) && p.last + 0x1000 < WORDS
    ensures var (r, f) := Alloc(p);
      Sound(m, cr3, r) && NotATable(m, cr3, f) && f !in r.storage && f !in r.free
  {
    AllocInv(p);
    var (r, f) := Alloc(p);
    assert forall g :: g in r.free ==> g in p.free;
    assert r.storage == p.storage && f !in r.free;
    assert TablesKnown(m, cr3, r);
    assert FrameOf(m[cr3][SELF]) == cr3;
    assert StackWords(m, r) by {
      forall j: nat | j < |r.free| ensures j / 1024 < |r.storage| && m[r.storage[j / 1024]][j % 1024] == Address(r.free[j]) {
        assert p.free[j] == r.free[j];
      }
    }
  }

  /** A page table entry outside the stack's window may change freely. */
  lemma SetEntrySound(m: Memory, cr3: Frame, p: Pool, pd: Index, pt: Index, w: Word)
    requires Sound(m, cr3, p) && Present(m[cr3][pd]) && pd != SELF && (pd != STACK_SLOT || p.storage == [])
    ensures Sound(SetEntry(m, cr3, pd, pt, w), cr3, p)
  {
    var m' := SetEntry(m, cr3, pd, pt, w);
    SetEntryMaps(m, cr3, pd, pt, w, 0, 0);
    assert p.storage != [] ==> !Shares(m, cr3, pd, STACK_SLOT);
    forall k: Index | k < |p.storage| ensures WalkPage(m', cr3, STACK_SLOT, k) == Some(p.storage[k]) {
      SetEntryMaps(m, cr3, pd, pt, w, STACK_SLOT, k);
    }
    TableNotStack(m, m', cr3, p, FrameOf(m[cr3][pd]));
  }

  /** Stores outside the storage frames keep the stack. */
  lemma TableNotStack(m: Memory, m': Memory, cr3: Frame, p: Pool, t: Frame)
    requires StackWords(m, p) && t !in p.storage && forall f: Frame :: f != t ==> m'[f] == m[f]
    ensures StackWords(m', p)
  {
    forall j: nat | j < |p.free|
      ensures j / 1024 < |p.storage| && m'[p.storage[j / 1024]][j % 1024] == Address(p.free[j])
    {
      var f := p.free[j];
      assert m[p.storage[j / 1024]][j % 1024] == Address(f) && p.storage[j / 1024] in p.storage;
    }
  }

  lemma AddTableSound(m: Memory, cr3: Frame, p: Pool, pd: Index, w: Word)
    requires Sound(m, cr3, p) && !Present(m[cr3][pd]) && Present(w)
    requires NotATable(m, cr3, FrameOf(w)) && FrameOf(w) !in p.free && FrameOf(w) !in p.storage && Address(FrameOf(w)) <= p.last
    ensures Sound(AddTable(m, cr3, pd, w), cr3, p)
  {
    var m' := AddTable(m, cr3, pd, w);
    AddTableMaps(m, cr3, pd, w, 0, 0);
    assert FrameOf(m[cr3][SELF]) == cr3;
    forall k: Index | k < |p.storage| ensures WalkPage(m', cr3, STACK_SLOT, k) == Some(p.storage[k]) {
      AddTableMaps(m, cr3, pd, w, STACK_SLOT, k);
    }
    var m1 := m[cr3 := m[cr3][pd := w]];
    TableNotStack(m, m1, cr3, p, cr3);
    TableNotStack(m1, m', cr3, p, FrameOf(w));
  }

  /** A full stack has a slot in its window for one more frame. */
  predicate RoomToFree(p: Pool) {
    |p.free| >= PER_FRAME * |p.storage| ==> |p.storage| < 1024
  }

  /** The memory after pm_free() took frame `f`. */
  function FreedIn(m: Memory, cr3: Frame, p: Pool, kernelEnd: nat, f: Frame): Memory
    requires RoomToFree(p)
  {
    if Refused(p.last, kernelEnd, f) then m
    else if |p.free| >= PER_FRAME * |p.storage| then
      SetEntry(m, cr3, STACK_SLOT, |p.storage|, EntryFor(Address(f), 6))
    else
      var t := p.storage[|p.free| / 1024];
      m[t := m[t][|p.free| % 1024 := Address(f)]]
  }

  lemma FreeSound(m: Memory, cr3: Frame, p: Pool, kernelEnd: nat, f: Frame)
    requires Sound(m, cr3, p) && Present(m[cr3][STACK_SLOT])
    requires Freeable(p, kernelEnd, f) && (!Refused(p.last, kernelEnd, f) ==> NotATable(m, cr3, f))
    ensures RoomToFree(p) && FreedIn(m, cr3, p, kernelEnd, f)[cr3] == m[cr3]
    ensures Sound(FreedIn(m, cr3, p, kernelEnd, f), cr3, Free(p, kernelEnd, f))
  {
    StackFitsWindow(p);
    FreeInv(p, kernelEnd, f);
    var r := Free(p, kernelEnd, f);
    if Refused(p.last, kernelEnd, f) {
      assert StackWords(m, r) by { assert r.free == p.free; }
    } else if |p.free| >= PER_FRAME * |p.storage| {
      GrowSound(m, cr3, p, r, f);
    } else {
      PushSound(m, cr3, p, r, f);
    }
  }

  lemma GrowSound(m: Memory, cr3: Frame, p: Pool, r: Pool, f: Frame)
    requires Sound(m, cr3, p) && Present(m[cr3][STACK_SLOT]) && Inv(r) && NotATable(m, cr3, f) && |p.storage| < 1024
    requires r.free == p.free && r.storage == p.storage + [f] && r.last == p.last && r.online == p.online
    ensures Sound(SetEntry(m, cr3, STACK_SLOT, |p.storage|, EntryFor(Address(f), 6)), cr3, r)
  {
    var w := EntryFor(Address(f), 6);
    var m' := SetEntry(m, cr3, STACK_SLOT, |p.storage|, w);
    SetEntryMaps(m, cr3, STACK_SLOT, |p.storage|, w, 0, 0);
    forall k: Index | k < |r.storage| ensures WalkPage(m', cr3, STACK_SLOT, k) == Some(r.storage[k]) {
      SetEntryMaps(m, cr3, STACK_SLOT, |p.storage|, w, STACK_SLOT, k);
    }
    TableNotStack(m, m', cr3, p, FrameOf(m[cr3][STACK_SLOT]));
    assert StackWords(m', r) by {
      forall j: nat | j < |r.free| ensures j / 1024 < |r.storage| && m'[r.storage[j / 1024]][j % 1024] == Address(r.free[j]) {
        assert p.free[j] == r.free[j];
      }
    }
  }

  lemma PushSound(m: Memory, cr3: Frame, p: Pool, r: Pool, f: Frame)
    requires Sound(m, cr3, p) && Inv(r) && NotATable(m, cr3, f) && |p.free| < 1024 * |p.storage|
    requires r.free == p.free + [f] && r.storage == p.storage && r.last == p.last && r.online == p.online
    requires Address(f) <= p.last
    ensures var t := p.storage[|p.free| / 1024];
      Sound(m[t := m[t][|p.free| % 1024 := Address(f)]], cr3, r)
  {
    var n := |p.free|;
    var t := p.storage[n / 1024];
    var m' := m[t := m[t][n % 1024 := Address(f)]];
    assert NotATable(m, cr3, t) by { assert FrameOf(m[cr3][SELF]) == cr3; assert t in p.storage; }
    forall k: Index | k < |r.storage| ensures WalkPage(m', cr3, STACK_SLOT, k) == Some(r.storage[k]) {}
    assert StackWords(m', r) by {
      forall j: nat | j < |r.free| ensures j / 1024 < |r.storage| && m'[r.storage[j / 1024]][j % 1024] == Address(r.free[j]) {
        if j < n {
          assert p.free[j] == r.free[j];
          if j / 1024 == n / 1024 { assert j % 1024 != n % 1024; }
          else { assert p.storage[j / 1024] != t; }
        }
      }
    }
  }

  /** The memory after mm_map(): a new table if there was none, then the entry. */
  function MappedIn(m: Memory, cr3: Frame, p: Pool, v: Word, physaddr: Word, flags: nat): Memory
    requires !Present(m[cr3][PdIndex(v)]) ==> p.last + 0x1000 < WORDS
  {
    var m1 :=
      if Present(m[cr3][PdIndex(v)]) then m
      else AddTable(m, cr3, PdIndex(v), EntryFor(Address(Alloc(p).1), flags));
    SetEntry(m1, cr3, PdIndex(v), PtIndex(v), EntryFor(physaddr, flags))
  }

  lemma FreeIs(p: Pool, kernelEnd: nat, f: Frame)
    requires Inv(p)
    ensures var r := Free(p, kernelEnd, f);
      && r.last == p.last && r.online == p.online && r.bumps == p.bumps
      && (Refused(p.last, kernelEnd, f) ==> r.free == p.free && r.storage == p.storage && r.freePages == p.freePages)
      && (!Refused(p.last, kernelEnd, f) ==>
        if |p.free| >= PER_FRAME * |p.storage| then
          r.free == p.free && |r.storage| == |p.storage| + 1 && r.freePages == p.freePages
        else
          |r.free| == |p.free| + 1 && r.storage == p.storage && r.freePages == (p.freePages + 1) % WORDS)
  {}

  lemma BaseAddress(k: nat)
    requires k < 1024
    ensures PdIndex(StackAddress(1024 * k)) == STACK_SLOT && PtIndex(StackAddress(1024 * k)) == k
  {}

  lemma SoundParts(m: Memory, cr3: Frame, p: Pool)
    requires Sound(m, cr3, p)
    ensures Inv(p) && SelfMapped(m, cr3) && (p.online ==> Present(m[cr3][STACK_SLOT]))
  {}

  lemma PushAddress(m: Memory, cr3: Frame, p: Pool)
    requires Sound(m, cr3, p) && |p.free| < PER_FRAME * |p.storage|
    ensures |p.free| < FRAMES
    ensures var v, j := StackAddress(|p.free|), |p.free|;
      WalkPage(m, cr3, PdIndex(v), PtIndex(v)) == Some(p.storage[j / 1024]) && WordIndex(v) == j % 1024
  {
    StackFitsWindow(p);
    StackWordAt(m, cr3, p, |p.free|);
  }

  // ----- what callers of the memory manager see

  /** Slots whose table no other slot shares and that hold neither the stack nor the window. */
  predicate ClientSlot(pd: Index) { pd != 0 && pd != 768 && pd != STACK_SLOT && pd != SELF }

  /** mm_map() maps its page and leaves every other page outside the window as it was. */
  lemma ClientMap(m: Memory, cr3: Frame, p: Pool, v: Word, physaddr: Word, flags: nat, d: Index, t: Index)
    requires Sound(m, cr3, p) && ClientSlot(PdIndex(v)) && p.last + 0x1000 < WORDS && d != SELF
    ensures WalkPage(MappedIn(m, cr3, p, v, physaddr, flags), cr3, d, t) ==
      if d == PdIndex(v) && t == PtIndex(v) then Some(FrameOf(physaddr)) else WalkPage(m, cr3, d, t)
  {
    var pd, pt, w := PdIndex(v), PtIndex(v), EntryFor(physaddr, flags);
    hide PdIndex, PtIndex, EntryFor, Alloc;
    AllocSound(m, cr3, p);
    if Present(m[cr3][pd]) {
      assert Shares(m, cr3, pd, d) ==> d == pd;
      SetEntryMaps(m, cr3, pd, pt, w, d, t);
    } else {
      var table := EntryFor(Address(Alloc(p).1), flags);
      MapChangesOnePage(m, cr3, pd, pt, table, w, d, t);
      NoSharing(m, cr3, pd, d);
    }
  }

  lemma NoSharing(m: Memory, cr3: Frame, pd: Index, d: Index)
    requires !Present(m[cr3][pd])
    ensures WalkPage(m, cr3, pd, d) == None
  {}

  lemma ClientUnmap(m: Memory, cr3: Frame, p: Pool, v: Word, d: Index, t: Index)
    requires Sound(m, cr3, p) && ClientSlot(PdIndex(v)) && Present(m[cr3][PdIndex(v)])
    ensures WalkPage(SetEntry(m, cr3, PdIndex(v), PtIndex(v), 0), cr3, d, t) ==
      if d == PdIndex(v) && t == PtIndex(v) then None else WalkPage(m, cr3, d, t)
  {
    assert Shares(m, cr3, PdIndex(v), d) ==> d == PdIndex(v);
    SetEntryMaps(m, cr3, PdIndex(v), PtIndex(v), 0, d, t);
  }

  /** pm_free() changes no page outside the stack. */
  lemma ClientFree(m: Memory, cr3: Frame, p: Pool, kernelEnd: nat, f: Frame, d: Index, t: Index)
    requires Sound(m, cr3, p) && Present(m[cr3][STACK_SLOT]) && RoomToFree(p) && d != STACK_SLOT
    ensures WalkPage(FreedIn(m, cr3, p, kernelEnd, f), cr3, d, t) == WalkPage(m, cr3, d, t)
  {
    if Refused(p.last, kernelEnd, f) {
    } else if |p.free| >= PER_FRAME * |p.storage| {
      SetEntryMaps(m, cr3, STACK_SLOT, |p.storage|, EntryFor(Address(f), 6), d, t);
    } else {
      var s := p.storage[|p.free| / 1024];
      assert s in p.storage && FrameOf(m[cr3][SELF]) == cr3;
    }
  }

  function LowTable(): Page {
    seq<Word>(1024, k requires 0 <= k < 1024 => k * 4096 + 7)
  }

  function FirstDirectory(cr3: Frame, low: Frame): Page {
    ZeroPage()[0 := low * 0x1000 + 7][768 := low * 0x1000 + 7][SELF := cr3 * 0x1000 + 3]
  }

  lemma FirstDirectoryEntries(cr3: Frame, low: Frame, o: Index)
    ensures var w := FirstDirectory(cr3, low)[o];
      && (Present(w) <==> o == 0 || o == 768 || o == SELF)
      && (o == 0 || o == 768 ==> FrameOf(w) == low) && (o == SELF ==> FrameOf(w) == cr3)
  {
    PlainEntry(low, 7);
    PlainEntry(cr3, 3);
    hide Present, FrameOf;
    NotPresent();
  }

  lemma PlainEntry(f: Frame, bits: nat)
    requires bits < 0x1000
    ensures FrameOf(f * 0x1000 + bits) == f && (Present(f * 0x1000 + bits) <==> bits % 2 == 1)
  {}

  lemma NotPresent()
    ensures !Present(0)
  {}

  lemma FirstTablesSound(m: Memory, cr3: Frame, low: Frame)
    requires low != cr3 && m[cr3] == FirstDirectory(cr3, low)
    ensures SelfMapped(m, cr3) && Unshared(m, cr3)
    ensures forall f: Frame :: NotATable(m, cr3, f) <==> f != cr3 && f != low
    ensures !Present(m[cr3][STACK_SLOT])
  {
    hide FirstDirectory;
    forall o: Index
      ensures Present(m[cr3][o]) <==> o == 0 || o == 768 || o == SELF
      ensures o == 0 || o == 768 ==> FrameOf(m[cr3][o]) == low
      ensures o == SELF ==> FrameOf(m[cr3][o]) == cr3
    {
      FirstDirectoryEntries(cr3, low, o);
    }
    forall f: Frame ensures NotATable(m, cr3, f) <==> f != cr3 && f != low {
      assert FrameOf(m[cr3][SELF]) == cr3 && FrameOf(m[cr3][0]) == low;
    }
  }

  lemma FirstSound(m: Memory, cr3: Frame, low: Frame, p: Pool)
    requires low != cr3 && m[cr3] == FirstDirectory(cr3, low) && p == FirstPool(p.last)
    requires MARGIN <= p.last < WORDS && p.last % 0x1000 == 0 && Address(cr3) <= p.last && Address(low) <= p.last
    ensures Sound(m, cr3, p) && !Present(m[cr3][STACK_SLOT])
    ensures forall f: Frame :: NotATable(m, cr3, f) <==> f != cr3 && f != low
  {
    hide FirstDirectory;
    FirstTablesSound(m, cr3, low);
    assert TablesKnown(m, cr3, p) by {
      forall o: Index | Present(m[cr3][o]) ensures Address(FrameOf(m[cr3][o])) <= p.last {
        FirstDirectoryEntries(cr3, low, o);
      }
    }
  }

  lemma ResetSound(m: Memory, cr3: Frame, p: Pool)
    requires Sound(m, cr3, p) && p.free == []
    ensures Sound(m, cr3, p.(freePages := 0, bumps := 0))
  {}

  lemma OnlineSound(m: Memory, cr3: Frame, p: Pool)
    requires Sound(m, cr3, p) && Present(m[cr3][STACK_SLOT])
    ensures Sound(m, cr3, p.(online := true))
  {}

  /** mm_map() turns at most the frame it allocates into a table. */
  lemma MappedTables(m: Memory, cr3: Frame, p: Pool, v: Word, physaddr: Word, flags: nat, f: Frame)
    requires Sound(m, cr3, p) && PdIndex(v) != SELF && p.last + 0x1000 < WORDS && NotATable(m, cr3, f)
    ensures Present(m[cr3][PdIndex(v)]) || f != Alloc(p).1 ==> NotATable(MappedIn(m, cr3, p, v, physaddr, flags), cr3, f)
  {
    var pd := PdIndex(v);
    hide Sound, PdIndex, PtIndex;
    SoundParts(m, cr3, p);
    AllocSound(m, cr3, p);
    if Present(m[cr3][pd]) {
      SetEntryMaps(m, cr3, pd, PtIndex(v), EntryFor(physaddr, flags), 0, 0);
    } else {
      var w := EntryFor(Address(Alloc(p).1), flags);
      AddTableMaps(m, cr3, pd, w, 0, 0);
      SetEntryMaps(AddTable(m, cr3, pd, w), cr3, pd, PtIndex(v), EntryFor(physaddr, flags), 0, 0);
    }
  }

  /** Without a frame taken above the mark, free_pages is the depth of the stack. */
  lemma CountIsDepth(m: Memory, cr3: Frame, p: Pool)
    requires Sound(m, cr3, p) && p.bumps == 0
    ensures p.freePages == |p.free|
  {}

  lemma SoundMark(m: Memory, cr3: Frame, p: Pool)
    requires Sound(m, cr3, p)
    ensures 0x1_0000 <= p.last < 0x1_0000_0000
  {}

  lemma MarkIsPage(memUpper: Word)
    ensures FirstMark(memUpper) % 0x1000 == 0
  {}

  lemma PageNumberIs(rs: seq<Region>, k: nat, f: Frame)
    requires k < |rs|
    ensures PageNumber(rs, k, f) == TotalPages(rs[..k]) + (Address(f) - rs[k].base) / 0x1000 + 1
  {}

  /** What the whole of the fill put on the stack, as a condition on addresses. */
  lemma FillEnds(p: Pool, kernelEnd: nat, rs: seq<Region>)
    requires Filling(p, kernelEnd, rs, |rs|, 0)
    ensures forall f: Frame {:trigger f in p.free} {:trigger f in p.storage} :: f in p.free || f in p.storage <==>
      && Offered(rs, f) && Counted(rs, f)
      && 0x2_0000 <= f * 0x1000 <= p.last - 0x1_0000 && (f * 0x1000 <= 0x10_0000 || kernelEnd <= f * 0x1000)
  {
    hide Offered, OfferedBefore, Counted, Refused;
    OfferedAll(rs);
    forall f: Frame ensures !Refused(p.last, kernelEnd, f) <==>
      0x2_0000 <= f * 0x1000 <= p.last - 0x1_0000 && (f * 0x1000 <= 0x10_0000 || kernelEnd <= f * 0x1000)
    {
      RefusedIff(p.last, kernelEnd, f);
    }
  }

  lemma NotATableSame(m: Memory, m': Memory, cr3: Frame, f: Frame)
    requires m'[cr3] == m[cr3] && NotATable(m, cr3, f)
    ensures NotATable(m', cr3, f)
  {}

  /** The first address space: identity below 4 MiB, the same memory at 3 GiB, the window, nothing else. */
  lemma FirstAddressSpace(m: Memory, cr3: Frame, low: Frame, v: Word)
    requires low != cr3 && m[low] == LowTable() && m[cr3] == FirstDirectory(cr3, low)
    ensures v < 0x40_0000 ==> Walk(m, cr3, v) == Some(v)
    ensures 0xC000_0000 <= v < 0xC040_0000 ==> Walk(m, cr3, v) == Some(v - 0xC000_0000)
    ensures 0x40_0000 <= v < 0xC000_0000 || 0xC040_0000 <= v < 0xFFC0_0000 ==> Walk(m, cr3, v) == None
  {
    hide FirstDirectory, PdIndex, PtIndex, LowTable;
    FirstDirectoryEntries(cr3, low, PdIndex(v));
    FirstSlots(v);
  }

  lemma FirstSlots(v: Word)
    ensures PdIndex(v) == 0 <==> v < 0x40_0000
    ensures PdIndex(v) == 768 <==> 0xC000_0000 <= v < 0xC040_0000
    ensures PdIndex(v) == SELF <==> 0xFFC0_0000 <= v
    ensures Present(LowTable()[PtIndex(v)]) && FrameOf(LowTable()[PtIndex(v)]) == PtIndex(v)
    ensures v == PdIndex(v) * 0x40_0000 + PtIndex(v) * 0x1000 + v % 0x1000
  {}

  /**
   Who may use the first address space: ring 3 may read and write both maps of the first 4 MiB,
   and nothing of the window, which the kernel may write wherever it shows something.
   */
  lemma FirstRights(m: Memory, cr3: Frame, low: Frame, v: Word)
    requires low != cr3 && m[low] == LowTable() && m[cr3] == FirstDirectory(cr3, low)
    ensures v < 0x40_0000 || 0xC000_0000 <= v < 0xC040_0000 ==> Writable(m, cr3, v) && UserMay(m, cr3, v)
    ensures 0xFFC0_0000 <= v ==> !UserMay(m, cr3, v) && (Writable(m, cr3, v) <==> Walk(m, cr3, v).Some?)
  {
    hide FirstDirectory, PdIndex, PtIndex, LowTable, WriteBit, UserBit, Present, FrameOf;
    FirstSlots(v);
    FirstBits(cr3, low, PdIndex(v));
    FirstBits(cr3, low, PtIndex(v));
    LowEntry(PtIndex(v));
  }

  /** What each address reaches in the first address space, and who may use it. */
  ghost predicate FirstView(m: Memory, cr3: Frame) {
    forall v: Word {:trigger Walk(m, cr3, v)} ::
      if v < 0x40_0000 || 0xC000_0000 <= v < 0xC040_0000 then
        Walk(m, cr3, v) == Some(v % 0x40_0000) && Writable(m, cr3, v) && UserMay(m, cr3, v)
      else if 0xFFC0_0000 <= v then !UserMay(m, cr3, v) && (Walk(m, cr3, v).Some? ==> Writable(m, cr3, v))
      else Walk(m, cr3, v) == None
  }

  lemma FirstMemory(m: Memory, cr3: Frame, low: Frame)
    requires low != cr3 && m[low] == LowTable() && m[cr3] == FirstDirectory(cr3, low)
    ensures FirstView(m, cr3)
  {
    hide FirstDirectory, LowTable, Walk, Writable, UserMay;
    forall v: Word ensures
      if v < 0x40_0000 || 0xC000_0000 <= v < 0xC040_0000 then
        Walk(m, cr3, v) == Some(v % 0x40_0000) && Writable(m, cr3, v) && UserMay(m, cr3, v)
      else if 0xFFC0_0000 <= v then !UserMay(m, cr3, v) && (Walk(m, cr3, v).Some? ==> Writable(m, cr3, v))
      else Walk(m, cr3, v) == None
    {
      FirstAddressSpace(m, cr3, low, v);
      FirstRights(m, cr3, low, v);
    }
  }

  lemma FirstBits(cr3: Frame, low: Frame, o: Index)
    ensures var w := FirstDirectory(cr3, low)[o];
      && (o == 0 || o == 768 ==> Present(w) && FrameOf(w) == low && WriteBit(w) && UserBit(w))
      && (o == SELF ==> Present(w) && FrameOf(w) == cr3 && WriteBit(w) && !UserBit(w))
      && (o != 0 && o != 768 && o != SELF ==> !Present(w))
  {
    PlainEntry(low, 7);
    PlainEntry(cr3, 3);
    PlainBits(low, 7);
    PlainBits(cr3, 3);
    hide Present, FrameOf;
    NotPresent();
  }

  lemma LowEntry(k: Index)
    ensures var w := LowTable()[k]; Present(w) && FrameOf(w) == k && WriteBit(w) && UserBit(w)
  {
    hide Present, FrameOf, WriteBit, UserBit;
    LowRights(k);
    assert LowTable()[k] == k * 0x1000 + 7;
  }

  lemma LowRights(k: Index)
    ensures var w := k * 0x1000 + 7; Present(w) && FrameOf(w) == k && WriteBit(w) && UserBit(w)
  {
    PlainEntry(k, 7);
    PlainBits(k, 7);
  }

  // ----- the rights of the stack's pages

  /** The kernel may write every page of the stack's window, and ring 3 may not touch one. */
  ghost predicate StackGuarded(m: Memory, cr3: Frame) {
    var pde := m[cr3][1020];
    && Present(pde) && WriteBit(pde) && !UserBit(pde)
    && forall t: Index {:trigger m[FrameOf(pde)][t]} :: Present(m[FrameOf(pde)][t]) ==> WriteBit(m[FrameOf(pde)][t])
  }

  lemma StackRights(m: Memory, cr3: Frame, v: Word)
    requires StackGuarded(m, cr3) && 0xFF00_0000 <= v < 0xFF40_0000 && Walk(m, cr3, v).Some?
    ensures Writable(m, cr3, v) && !UserMay(m, cr3, v)
  {
    hide WriteBit, UserBit, Present, FrameOf, PtIndex;
  }

  /** The first mapping of the stack, with PAGE_WRITE alone, sets its rights. */
  lemma GuardMapped(m: Memory, cr3: Frame, p: Pool, physaddr: Word)
    requires Sound(m, cr3, p) && !Present(m[cr3][STACK_SLOT]) && p.last + 0x1000 < WORDS && physaddr % 0x1000 == 0
    ensures StackGuarded(MappedIn(m, cr3, p, STACK, physaddr, PAGE_WRITE), cr3)
  {
    hide EntryFor, Or, WriteBit, UserBit, Sound, Alloc;
    var f := Alloc(p).1;
    AllocSound(m, cr3, p);
    StackIndices(0);
    EntryRights(physaddr);
    EntryRights(Address(f));
    NotPresent();
  }

  lemma GuardFreed(m: Memory, cr3: Frame, p: Pool, kernelEnd: nat, f: Frame)
    requires Sound(m, cr3, p) && StackGuarded(m, cr3) && RoomToFree(p)
    ensures StackGuarded(FreedIn(m, cr3, p, kernelEnd, f), cr3)
  {
    hide EntryFor, Or, WriteBit, UserBit, Refused;
    EntryRights(Address(f));
    SoundParts(m, cr3, p);
  }

  class Pmm {
    const cr3: Frame
    const kernelEnd: nat
    var mem: Memory
    var lastPage: nat
    var stackPtr: nat
    var stackMax: nat
    var freePages: Word
    var online: bool
    ghost var pool: Pool

    ghost predicate Valid()
      reads this
    {
      && Sound(mem, cr3, pool)
      && lastPage == pool.last && freePages == pool.freePages && online == pool.online
      && stackPtr == STACK + 4 * |pool.free| && stackMax == STACK + 0x1000 * |pool.storage|
    }

    /**
     mm_init() up to the heap.  `memory` is what the machine starts with, `end` the linker's
     symbol, `memUpper` what the boot loader says lies above 1 MiB, `rs` its memory map.
     */
    constructor (memory: Memory, directory: Frame, low: Frame, end: Word, memUpper: Word, rs: seq<Region>)
      requires RegionsOk(rs) && directory != low
      requires 0x10_0000 < Address(directory) < KernelEnd(end) && 0x10_0000 < Address(low) < KernelEnd(end)
      requires KernelEnd(end) <= FirstMark(memUpper) && 0x1_0000 <= FirstMark(memUpper) && FirstMark(memUpper) + 0x2000 < WORDS
      ensures Valid() && online && cr3 == directory && kernelEnd == KernelEnd(end) && lastPage == FirstMark(memUpper) + 0x2000
      ensures freePages == |pool.free|
      ensures forall f: Frame {:trigger f in pool.free} {:trigger f in pool.storage} :: f in pool.free || f in pool.storage <==>
        && Offered(rs, f) && Counted(rs, f)
        && 0x2_0000 <= f * 0x1000 <= lastPage - 0x1_0000 && (f * 0x1000 <= 0x10_0000 || kernelEnd <= f * 0x1000)
      ensures forall d: Index {:trigger mem[cr3][d]} :: ClientSlot(d) ==> !Present(mem[cr3][d])
      ensures StackGuarded(mem, cr3)
    {
      hide Sound, FirstDirectory, LowTable, StackGuarded, FirstMark, KernelEnd, Counted, Offered, RegionsOk;
      ghost var mark := FirstMark(memUpper);
      MarkIsPage(memUpper);
      cr3, kernelEnd := directory, KernelEnd(end);
      mem := memory;
      lastPage, stackPtr, stackMax, freePages, online := FirstMark(memUpper), STACK, STACK, 0, false;
      pool := FirstPool(mark);
      new;
      InitPaging(low);
      MapStack(low);
      freePages := 0;
      pool := pool.(freePages := 0, bumps := 0);
      FillStart(mark, kernelEnd, rs, if rs == [] then 0 else rs[0].base);
      ResetSound(mem, cr3, Alloc(Alloc(FirstPool(mark)).0).0);
      Fill(rs);
      OnlineSound(mem, cr3, pool);
      online := true;
      CountIsDepth(mem, cr3, pool);
      pool := pool.(online := true);
    }

    // ----- the processor's loads and stores

    method Load(v: Word) returns (w: Word)
      requires WalkPage(mem, cr3, PdIndex(v), PtIndex(v)).Some?
      ensures w == mem[WalkPage(mem, cr3, PdIndex(v), PtIndex(v)).value][WordIndex(v)]
    {
      w := mem[WalkPage(mem, cr3, PdIndex(v), PtIndex(v)).value][WordIndex(v)];
    }

    method Store(v: Word, w: Word)
      requires WalkPage(mem, cr3, PdIndex(v), PtIndex(v)).Some?
      modifies this`mem
      ensures var f := WalkPage(old(mem), cr3, PdIndex(v), PtIndex(v)).value;
        mem == old(mem)[f := old(mem)[f][WordIndex(v) := w]]
    {
      var f := WalkPage(mem, cr3, PdIndex(v), PtIndex(v)).value;
      mem := mem[f := mem[f][WordIndex(v) := w]];
    }

    /** memset() of a whole mapped page to zero. */
    method ClearPage(v: Word)
      requires WalkPage(mem, cr3, PdIndex(v), PtIndex(v)).Some? && v % 0x1000 == 0
      modifies this`mem
      ensures mem == old(mem)[WalkPage(old(mem), cr3, PdIndex(v), PtIndex(v)).value := ZeroPage()]
    {
      mem := mem[WalkPage(mem, cr3, PdIndex(v), PtIndex(v)).value := ZeroPage()];
    }

    // ----- frames

    method PmAlloc() returns (page: Word)
      requires Valid() && lastPage + 0x1000 < WORDS
      modifies this`lastPage, this`stackPtr, this`freePages, this`pool
      ensures Valid()
      ensures pool == Alloc(old(pool)).0 && page == Address(Alloc(old(pool)).1)
    {
      hide Sound, Inv, WalkPage, PdIndex, PtIndex, WordIndex;
      SoundParts(mem, cr3, pool);
      AllocSound(mem, cr3, pool);
      StackFitsWindow(pool);
      if !online || stackPtr == STACK {
        lastPage := lastPage + 0x1000;
        page := lastPage;
      } else {
        stackPtr := stackPtr - 4;
        ghost var j := |pool.free| - 1;
        StackWordAt(mem, cr3, pool, j);
        assert stackPtr == StackAddress(j);
        page := Load(stackPtr);
      }
      freePages := (freePages + WORDS - 1) % WORDS;
      pool := Alloc(pool).0;
    }

    // ----- page tables

    /** get_physaddr() finds through the self-map what the processor's walk finds; NULL for a fault. */
    method GetPhysaddr(v: Word) returns (r: Word)
      requires SelfMapped(mem, cr3)
      ensures r == match Walk(mem, cr3, v) case None => 0 case Some(p) => p
    {
      hide PdIndex, PtIndex, WordIndex, DirectoryEntryAt, TableEntryAt, SelfMapped;
      var pd, pt := PdIndex(v), PtIndex(v);
      Windows(mem, cr3, pd, pt);
      var pde := Load(DirectoryEntryAt(pd));
      if pde % 2 == 0 {
        return 0;
      }
      var pte := Load(TableEntryAt(pd, pt));
      if pte % 2 == 0 {
        return 0;
      }
      return pte / 0x1000 * 0x1000 + v % 0x1000;
    }

    /** The branch of mm_map() that adds a page table. */
    method NewTable(pd: Index, flags: nat)
      requires Valid() && !Present(mem[cr3][pd]) && lastPage + 0x1000 < WORDS
      modifies this`mem, this`lastPage, this`stackPtr, this`freePages, this`pool
      ensures Valid() && pool == Alloc(old(pool)).0 && SelfMapped(mem, cr3)
      ensures Present(mem[cr3][pd]) && mem[cr3] == old(mem)[cr3][pd := mem[cr3][pd]]
      ensures mem == AddTable(old(mem), cr3, pd, EntryFor(Address(Alloc(old(pool)).1), flags))
    {
      hide PdIndex, PtIndex, WordIndex, EntryFor, StackWords, StackMapped, Unshared;
      AllocSound(mem, cr3, pool);
      AllocInv(pool);
      ghost var m, p := mem, pool;
      Windows(mem, cr3, pd, 0);
      var page := PmAlloc();
      Store(DirectoryEntryAt(pd), EntryFor(page, flags));
      Windows(mem, cr3, pd, 0);
      ClearPage(TableEntryAt(pd, 0));
      AddTableSound(m, cr3, pool, pd, EntryFor(page, flags));
    }

    method MmMap(physaddr: Word, v: Word, flags: nat) returns (r: Word)
      requires PdIndex(v) != SELF && SelfMapped(mem, cr3)
      requires physaddr != 0 && !Present(mem[cr3][PdIndex(v)]) ==>
        Valid() && lastPage + 0x1000 < WORDS
      modifies this`mem, this`lastPage, this`stackPtr, this`freePages, this`pool
      ensures physaddr == 0 ==> r == 0 && mem == old(mem)
      ensures physaddr != 0 ==> r == v && mem == MappedIn(old(mem), cr3, old(pool), v, physaddr, flags)
      ensures pool == if physaddr != 0 && !Present(old(mem)[cr3][PdIndex(v)]) then Alloc(old(pool)).0 else old(pool)
      ensures Present(old(mem)[cr3][PdIndex(v)]) ==>
        lastPage == old(lastPage) && stackPtr == old(stackPtr) && freePages == old(freePages)
      ensures old(Valid()) && (PdIndex(v) != STACK_SLOT || old(pool).storage == []) ==> Valid()
      ensures physaddr != 0 ==> Present(mem[cr3][PdIndex(v)])
      ensures forall o: Index {:trigger mem[cr3][o]} ::
        o != PdIndex(v) || Present(old(mem)[cr3][o]) ==> mem[cr3][o] == old(mem)[cr3][o]
    {
      hide PdIndex, PtIndex, WordIndex, DirectoryEntryAt, TableEntryAt, SelfMapped, Sound, EntryFor;
      var pd, pt := PdIndex(v), PtIndex(v);
      if physaddr == 0 {
        return 0;
      }
      Windows(mem, cr3, pd, pt);
      var pde := Load(DirectoryEntryAt(pd));
      if pde % 2 == 0 {
        NewTable(pd, flags);
      }
      Windows(mem, cr3, pd, pt);
      SetEntryMaps(mem, cr3, pd, pt, EntryFor(physaddr, flags), pd, pt);
      if Sound(mem, cr3, pool) && (pd != STACK_SLOT || pool.storage == []) {
        SetEntrySound(mem, cr3, pool, pd, pt, EntryFor(physaddr, flags));
      }
      Store(TableEntryAt(pd, pt), EntryFor(physaddr, flags));
      return v;
    }

    /** mm_unmap() does not look for the table: without one its store would fault. */
    method MmUnmap(v: Word)
      requires SelfMapped(mem, cr3) && PdIndex(v) != SELF && Present(mem[cr3][PdIndex(v)])
      modifies this`mem
      ensures mem == SetEntry(old(mem), cr3, PdIndex(v), PtIndex(v), 0)
      ensures old(Valid()) && PdIndex(v) != STACK_SLOT ==> Valid()
    {
      Windows(mem, cr3, PdIndex(v), PtIndex(v));
      if PdIndex(v) != STACK_SLOT && Sound(mem, cr3, pool) { SetEntrySound(mem, cr3, pool, PdIndex(v), PtIndex(v), 0); }
      Store(TableEntryAt(PdIndex(v), PtIndex(v)), 0);
    }

    // ----- freeing and boot

    method PmFree(page: Word)
      requires Valid() && Present(mem[cr3][STACK_SLOT])
      requires page % 0x1000 == 0 && Freeable(pool, kernelEnd, FrameOf(page))
      requires !Refused(pool.last, kernelEnd, FrameOf(page)) ==> NotATable(mem, cr3, FrameOf(page))
      modifies this`mem, this`stackPtr, this`stackMax, this`freePages, this`lastPage, this`pool
      ensures Valid() && pool == Free(old(pool), kernelEnd, FrameOf(page)) && lastPage == old(lastPage)
      ensures RoomToFree(old(pool)) && mem == FreedIn(old(mem), cr3, old(pool), kernelEnd, FrameOf(page))
      ensures mem[cr3] == old(mem)[cr3] && pool.bumps == old(pool).bumps
      ensures
        if 0x2_0000 <= page <= old(lastPage) - 0x1_0000 && (page <= 0x10_0000 || kernelEnd <= page) then
          if old(stackPtr < stackMax) then pool.free == old(pool.free) + [FrameOf(page)] && pool.storage == old(pool.storage)
          else pool.free == old(pool.free) && pool.storage == old(pool.storage) + [FrameOf(page)]
        else pool.free == old(pool.free) && pool.storage == old(pool.storage) && mem == old(mem)
      ensures old(StackGuarded(mem, cr3)) ==> StackGuarded(mem, cr3)
    {
      hide StackGuarded, Sound, EntryFor, Free, Inv, Alloc, NotATable, SelfMapped, WalkPage;
      SoundMark(mem, cr3, pool);
      RefusedIff(pool.last, kernelEnd, FrameOf(page));
      FreeTakes(pool, kernelEnd, FrameOf(page));
      ghost var p, f := pool, FrameOf(page);
      SoundParts(mem, cr3, pool);
      FreeSound(mem, cr3, pool, kernelEnd, f);
      StackFitsWindow(pool);
      if StackGuarded(mem, cr3) { GuardFreed(mem, cr3, pool, kernelEnd, f); }
      FreeIs(p, kernelEnd, f);
      if page > (lastPage + WORDS - MARGIN) % WORDS || KERNEL_START < page < kernelEnd || page < LOW_END {
        pool := Free(pool, kernelEnd, f);
        return;
      }
      if stackPtr >= stackMax {
        BaseAddress(|pool.storage|);
        assert stackPtr == StackAddress(1024 * |pool.storage|);
        var _ := MmMap(page, stackPtr, PAGE_WRITE + PAGE_USER);
        stackMax := stackMax + 4096;
      } else {
        PushAddress(mem, cr3, pool);
        Store(stackPtr, page);
        stackPtr := stackPtr + 4;
        freePages := (freePages + 1) % WORDS;
      }
      pool := Free(p, kernelEnd, f);
    }

    /** init_paging(): the first 4 MiB at 0 and at 3 GiB through one table, and the self-map. */
    method InitPaging(low: Frame)
      requires low != cr3
      modifies this`mem
      ensures mem == old(mem)[low := LowTable()][cr3 := FirstDirectory(cr3, low)]
      ensures FirstView(mem, cr3)
    {
      hide FirstView;
      var k := 0;
      while k < 1024
        invariant 0 <= k <= 1024
        invariant forall f: Frame :: f != low && f != cr3 ==> mem[f] == old(mem)[f]
        invariant forall i: Index :: i < k ==> mem[low][i] == LowTable()[i] && mem[cr3][i] == 0
      {
        mem := mem[low := mem[low][k := k * 4096 + 7]];
        mem := mem[cr3 := mem[cr3][k := 0]];
        k := k + 1;
      }
      var entry: Word := low * 0x1000 + 7;
      mem := mem[cr3 := mem[cr3][0 := entry]];
      mem := mem[cr3 := mem[cr3][768 := entry]];
      mem := mem[cr3 := mem[cr3][SELF := cr3 * 0x1000 + 3]];
      assert mem[low] == LowTable();
      assert mem[cr3] == FirstDirectory(cr3, low);
      FirstMemory(mem, cr3, low);
    }

    /** The first page of the stack, with the table it needs. */
    method MapStack(low: Frame)
      requires low != cr3 && mem[low] == LowTable() && mem[cr3] == FirstDirectory(cr3, low)
      requires pool == FirstPool(lastPage) && !online && freePages == 0 && stackPtr == STACK && stackMax == STACK
      requires MARGIN <= lastPage && lastPage % 0x1000 == 0 && lastPage + 0x2000 < WORDS
      requires Address(cr3) <= lastPage && Address(low) <= lastPage
      modifies this`mem, this`lastPage, this`stackPtr, this`stackMax, this`freePages, this`pool
      ensures Valid() && pool == Alloc(Alloc(FirstPool(old(lastPage))).0).0 && stackPtr == STACK && stackMax == STACK
      ensures Present(mem[cr3][STACK_SLOT]) && lastPage == old(lastPage) + 0x2000
      ensures forall f: Frame :: f != cr3 && f != low && Address(f) <= old(lastPage) ==> NotATable(mem, cr3, f)
      ensures forall o: Index {:trigger mem[cr3][o]} :: ClientSlot(o) ==> !Present(mem[cr3][o])
      ensures StackGuarded(mem, cr3)
    {
      hide Sound, FirstDirectory, LowTable, StackGuarded;
      FirstSound(mem, cr3, low, pool);
      forall o: Index ensures Present(mem[cr3][o]) <==> o == 0 || o == 768 || o == SELF { FirstDirectoryEntries(cr3, low, o); }
      var page := PmAlloc();
      StackIndices(0);
      SoundParts(mem, cr3, pool);
      forall f: Frame | f != cr3 && f != low && Address(f) <= old(lastPage)
        ensures NotATable(MappedIn(mem, cr3, pool, STACK, page, PAGE_WRITE), cr3, f)
      {
        MappedTables(mem, cr3, pool, STACK, page, PAGE_WRITE, f);
      }
      GuardMapped(mem, cr3, pool, page);
      stackPtr := MmMap(page, STACK, PAGE_WRITE);
      stackMax := stackPtr;
    }

    /** The loops of mm_init() that free what the memory map calls usable. */
    method Fill(rs: seq<Region>)
      requires RegionsOk(rs) && Valid() && Present(mem[cr3][STACK_SLOT])
      requires Filling(pool, kernelEnd, rs, 0, if rs == [] then 0 else rs[0].base)
      requires forall f: Frame :: !Refused(pool.last, kernelEnd, f) ==> NotATable(mem, cr3, f)
      requires StackGuarded(mem, cr3)
      modifies this`mem, this`stackPtr, this`stackMax, this`freePages, this`lastPage, this`pool
      ensures Valid() && mem[cr3] == old(mem)[cr3] && lastPage == old(lastPage) && StackGuarded(mem, cr3)
      ensures pool.online == old(pool).online && pool.last == old(pool).last && pool.bumps == old(pool).bumps
      ensures Filling(pool, kernelEnd, rs, |rs|, 0)
      ensures forall f: Frame {:trigger f in pool.free} {:trigger f in pool.storage} :: f in pool.free || f in pool.storage <==>
        && Offered(rs, f) && Counted(rs, f)
        && 0x2_0000 <= f * 0x1000 <= lastPage - 0x1_0000 && (f * 0x1000 <= 0x10_0000 || kernelEnd <= f * 0x1000)
    {
      hide Sound, Filling, Refused, NotATable, Counted, Offered, PageNumber, StackGuarded;
      var ramPages: nat := 0;
      var i := 0;
      while i < |rs|
        invariant 0 <= i <= |rs| && Valid() && mem[cr3] == old(mem)[cr3] && lastPage == old(lastPage) && StackGuarded(mem, cr3)
        invariant pool.online == old(pool).online && pool.last == old(pool).last && pool.bumps == old(pool).bumps
        invariant ramPages == TotalPages(rs[..i])
        invariant Filling(pool, kernelEnd, rs, i, if i == |rs| then 0 else rs[i].base)
      {
        var j := rs[i].base;
        if rs[i].usable {
          while j < rs[i].base + rs[i].length
            invariant rs[i].base <= j <= rs[i].base + rs[i].length && j % 0x1000 == 0
            invariant Valid() && mem[cr3] == old(mem)[cr3] && lastPage == old(lastPage) && StackGuarded(mem, cr3)
            invariant pool.online == old(pool).online && pool.last == old(pool).last && pool.bumps == old(pool).bumps
            invariant ramPages == TotalPages(rs[..i]) + (j - rs[i].base) / 0x1000
            invariant Filling(pool, kernelEnd, rs, i, j)
          {
            ramPages := ramPages + 1;
            PageNumberIs(rs, i, FrameOf(j));
            if ramPages >= MAX_RAM_PAGES {
              FillSkip(pool, kernelEnd, rs, i, j, FrameOf(j));
            } else {
              if !Refused(pool.last, kernelEnd, FrameOf(j)) { NotATableSame(old(mem), mem, cr3, FrameOf(j)); }
              FillFree(pool, kernelEnd, rs, i, j, FrameOf(j));
              PmFree(j);
            }
            j := j + 0x1000;
          }
        }
        FillNext(pool, kernelEnd, rs, i, j, if i + 1 == |rs| then 0 else rs[i + 1].base);
        TotalNext(rs, i);
        i := i + 1;
      }
      FillEnds(pool, kernelEnd, rs);
    }
  }
}
