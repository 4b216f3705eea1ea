/**
 Who may use the heap's pages: every page ever mapped in the heap's window is writable and
 open to ring 3 by the processor's rule, and the pages of the free stack stay closed to it.
 */
module HeapRights {
  import opened Common
  import opened Paging
  import opened Frames
  import opened Pmm
  import opened HeapPages

  ghost predicate OpenTable(m: Memory, pde: Word) {
    && WriteBit(pde) && UserBit(pde)
    && forall t: Index {:trigger m[FrameOf(pde)][t]} ::
         Present(m[FrameOf(pde)][t]) ==> WriteBit(m[FrameOf(pde)][t]) && UserBit(m[FrameOf(pde)][t])
  }

  /** Directory slots 769 to 1015 are the heap's window. */
  ghost predicate OpenWindow(m: Memory, cr3: Frame) {
    forall d: Index {:trigger m[cr3][d]} :: 769 <= d <= 1015 && Present(m[cr3][d]) ==> OpenTable(m, m[cr3][d])
  }

  lemma OpenAtFirst(m: Memory, cr3: Frame)
    requires forall d: Index {:trigger m[cr3][d]} :: ClientSlot(d) ==> !Present(m[cr3][d])
    ensures OpenWindow(m, cr3)
    ensures forall d: Index, t: Index :: ClientSlot(d) ==> WalkPage(m, cr3, d, t) == None
  {}

  /** The rights of both windows. */
  ghost predicate Rights(m: Memory, cr3: Frame) { OpenWindow(m, cr3) && StackGuarded(m, cr3) }

  /** mm_map() of one more heap page, with PAGE_WRITE | PAGE_USER. */
  lemma RightsMapped(m: Memory, cr3: Frame, p: Pool, n: nat, f: Frame)
    requires Sound(m, cr3, p) && Rights(m, cr3) && p.last + 0x1000 < WORDS && n < WINDOW_PAGES
    ensures Rights(MappedIn(m, cr3, p, PageAddress(n), Address(f), 6), cr3)
  {
    hide EntryFor, WriteBit, UserBit, Sound, Alloc, PdIndex, PtIndex, PageAddress;
    var pd, pt, w := Slot(n), n % 1024, EntryFor(Address(f), 6);
    PageIndices(n);
    EntryRights(Address(f));
    SoundTables(m, cr3, p);
    AllocSound(m, cr3, p);
    if Present(m[cr3][pd]) {
      RightsSet(m, cr3, pd, pt, w);
    } else {
      var table := EntryFor(Address(Alloc(p).1), 6);
      EntryRights(Address(Alloc(p).1));
      var m1 := AddTable(m, cr3, pd, table);
      RightsAdded(m, cr3, pd, table);
      AddedTables(m, cr3, pd, table);
      RightsSet(m1, cr3, pd, pt, w);
    }
  }

  lemma SoundTables(m: Memory, cr3: Frame, p: Pool)
    requires Sound(m, cr3, p)
    ensures SelfMapped(m, cr3) && Unshared(m, cr3)
  {}

  /** One entry of a table in the heap's window. */
  lemma RightsSet(m: Memory, cr3: Frame, pd: Index, pt: Index, w: Word)
    requires SelfMapped(m, cr3) && Unshared(m, cr3) && Rights(m, cr3)
    requires 769 <= pd <= 1015 && Present(m[cr3][pd]) && (Present(w) ==> WriteBit(w) && UserBit(w))
    ensures Rights(SetEntry(m, cr3, pd, pt, w), cr3)
  {
    hide WriteBit, UserBit;
    var m' := SetEntry(m, cr3, pd, pt, w);
    assert m'[cr3] == m[cr3];
    forall d: Index | 769 <= d <= 1015 && Present(m'[cr3][d]) ensures OpenTable(m', m'[cr3][d]) {
      assert OpenTable(m, m[cr3][d]);
    }
    assert FrameOf(m[cr3][1020]) != FrameOf(m[cr3][pd]);
  }

  lemma RightsAdded(m: Memory, cr3: Frame, pd: Index, table: Word)
    requires SelfMapped(m, cr3) && Rights(m, cr3) && 769 <= pd <= 1015 && !Present(m[cr3][pd])
    requires Present(table) && WriteBit(table) && UserBit(table) && NotATable(m, cr3, FrameOf(table))
    ensures Rights(AddTable(m, cr3, pd, table), cr3)
  {
    hide WriteBit, UserBit;
    var m' := AddTable(m, cr3, pd, table);
    assert m'[cr3] == m[cr3][pd := table];
    NotPresent();
    forall d: Index | 769 <= d <= 1015 && Present(m'[cr3][d]) ensures OpenTable(m', m'[cr3][d]) {
      if d != pd { assert OpenTable(m, m[cr3][d]); }
    }
    assert FrameOf(m[cr3][1020]) != FrameOf(table);
  }

  lemma AddedTables(m: Memory, cr3: Frame, pd: Index, table: Word)
    requires SelfMapped(m, cr3) && Unshared(m, cr3) && pd != SELF && !Present(m[cr3][pd])
    requires Present(table) && NotATable(m, cr3, FrameOf(table))
    ensures var m' := AddTable(m, cr3, pd, table); SelfMapped(m', cr3) && Unshared(m', cr3) && Present(m'[cr3][pd])
  {
    AddTableMaps(m, cr3, pd, table, 0, 0);
  }

  /** pm_free() and then mm_unmap() of the last heap page. */
  lemma RightsShrunk(m: Memory, cr3: Frame, p: Pool, kernelEnd: nat, k: nat, f: Frame)
    requires Sound(m, cr3, p) && Rights(m, cr3) && k < WINDOW_PAGES && RoomToFree(p) && Present(m[cr3][Slot(k)])
    requires FreedIn(m, cr3, p, kernelEnd, f)[cr3] == m[cr3]
    ensures Rights(Shrunk(m, cr3, p, kernelEnd, k, f), cr3)
  {
    hide WriteBit, UserBit, FreedIn, SelfMapped, Unshared, SetEntry;
    var m1 := FreedIn(m, cr3, p, kernelEnd, f);
    SoundTables(m, cr3, p);
    SameDirectory(m, m1, cr3);
    OpenFreed(m, cr3, p, kernelEnd, f);
    GuardFreed(m, cr3, p, kernelEnd, f);
    NotPresent();
    RightsSet(m1, cr3, Slot(k), k % 1024, 0);
  }

  lemma SameDirectory(m: Memory, m': Memory, cr3: Frame)
    requires m'[cr3] == m[cr3] && SelfMapped(m, cr3) && Unshared(m, cr3)
    ensures SelfMapped(m', cr3) && Unshared(m', cr3)
  {}

  lemma OpenFreed(m: Memory, cr3: Frame, p: Pool, kernelEnd: nat, f: Frame)
    requires Sound(m, cr3, p) && OpenWindow(m, cr3) && StackGuarded(m, cr3) && RoomToFree(p)
    requires FreedIn(m, cr3, p, kernelEnd, f)[cr3] == m[cr3]
    ensures OpenWindow(FreedIn(m, cr3, p, kernelEnd, f), cr3)
  {
    hide WriteBit, UserBit, EntryFor, Refused;
    var m' := FreedIn(m, cr3, p, kernelEnd, f);
    forall d: Index | 769 <= d <= 1015 && Present(m'[cr3][d]) ensures OpenTable(m', m'[cr3][d]) {
      assert OpenTable(m, m[cr3][d]) && Present(m[cr3][d]);
      assert m'[FrameOf(m[cr3][d])] == m[FrameOf(m[cr3][d])];
    }
  }

  /** Every mapped address of the heap's window is open, and lies in the page that backs it. */
  lemma HeapAccess(m: Memory, cr3: Frame, p: Pool, backing: seq<Frame>, x: nat)
    requires OpenWindow(m, cr3) && Backed(m, cr3, p, backing)
    requires 0xC040_0000 <= x < 0xC040_0000 + 0x1000 * |backing|
    ensures x < WORDS && Walk(m, cr3, x) == Some(backing[(x - 0xC040_0000) / 0x1000] * 0x1000 + x % 0x1000)
    ensures Writable(m, cr3, x) && UserMay(m, cr3, x)
  {
    hide WriteBit, UserBit, Present, FrameOf, PdIndex, PtIndex;
    var k := (x - 0xC040_0000) / 0x1000;
    AddressIndices(x);
    BackedOwned(m, cr3, p, backing, k);
    SlotRange(k);
    var pde := m[cr3][Slot(k)];
    assert Present(pde) && OpenTable(m, pde);
  }

  lemma AddressIndices(x: nat)
    requires 0xC040_0000 <= x < 0xFE00_0000
    ensures var k := (x - 0xC040_0000) / 0x1000;
      && k < WINDOW_PAGES && PdIndex(x) == Slot(k) && PtIndex(x) == k % 1024
  {}

  lemma SlotRange(k: nat)
    requires k < WINDOW_PAGES
    ensures 769 <= Slot(k) <= 1015
  {}
}
