/**
 Two-level 32-bit page tables (Intel SDM volume 3A, section 4.3) in physical frames, as
 pmm.c edits them: through a directory whose slot 1023 refers to itself.
 */
module Paging {
  import opened Common

  const FRAMES: nat := 0x10_0000
  const SELF: Index := 1023

  type Frame = f: nat | f < 0x10_0000
  type Index = i: nat | i < 1024
  type Page = p: seq<Word> | |p| == 1024 witness seq(1024, _ => 0)
  type Memory = m: seq<Page> | |m| == 0x10_0000 witness seq<Page>(0x10_0000, _ => ZeroPage())

  function ZeroPage(): Page { seq(1024, _ => 0) }

  // ----- entries and addresses

  predicate Present(w: Word) { w % 2 == 1 }

  function FrameOf(w: Word): Frame { w / 0x1000 }

  function PdIndex(v: Word): Index { v / 0x40_0000 }

  function PtIndex(v: Word): Index { v / 0x1000 % 1024 }

  function WordIndex(v: Word): Index { v % 0x1000 / 4 }

  /** Bitwise or. */
  function Or(a: nat, b: nat): (r: nat)
    ensures r % 2 == if a % 2 == 1 || b % 2 == 1 then 1 else 0
  {
    if a == 0 then b
    else if b == 0 then a
    else
      var odd := if a % 2 == 1 || b % 2 == 1 then 1 else 0;
      LastBit(Or(a / 2, b / 2), odd);
      2 * Or(a / 2, b / 2) + odd
  }

  lemma LastBit(n: nat, odd: nat)
    requires odd <= 1
    ensures (2 * n + odd) % 2 == odd && (2 * n + odd) / 2 == n
  {}

  lemma {:induction false} OrBelow(a: nat, b: nat, bits: nat)
    requires a < Pow2(bits) && b < Pow2(bits)
    ensures Or(a, b) < Pow2(bits)
    decreases bits
  {
    if a != 0 && b != 0 { OrBelow(a / 2, b / 2, bits - 1); }
  }

  lemma LowBits(a: nat, b: nat)
    requires a < 0x1000 && b < 0x1000
    ensures Or(Or(a, b), 1) < 0x1000
  {
    assert Pow2(12) == 0x1000;
    OrBelow(a, b, 12);
    OrBelow(Or(a, b), 1, 12);
  }

  /** The low twelve bits of physaddr | (flags & 0xFFF) | 1. */
  function EntryBits(physaddr: Word, flags: nat): (r: nat)
    ensures r < 0x1000 && r % 2 == 1
  {
    LowBits(physaddr % 0x1000, flags % 0x1000);
    Or(Or(physaddr % 0x1000, flags % 0x1000), 1)
  }

  lemma FrameAndBits(f: nat, bits: nat)
    requires f < FRAMES && bits < 0x1000
    ensures f * 0x1000 + bits < WORDS && (f * 0x1000 + bits) / 0x1000 == f && (f * 0x1000 + bits) % 2 == bits % 2
  {
    FrameOfSum(f, bits);
    LastBit(f * 0x800 + bits / 2, bits % 2);
  }

  lemma FrameOfSum(f: nat, bits: nat)
    requires bits < 0x1000
    ensures (f * 0x1000 + bits) / 0x1000 == f
  {}

  /** physaddr | (flags & 0xFFF) | 1: the frame of `physaddr`, marked present. */
  function EntryFor(physaddr: Word, flags: nat): (w: Word)
    ensures FrameOf(w) == FrameOf(physaddr) && Present(w)
  {
    var bits := EntryBits(physaddr, flags);
    FrameAndBits(physaddr / 0x1000, bits);
    physaddr / 0x1000 * 0x1000 + bits
  }

  function Bit(n: nat, i: nat): bool { if i == 0 then n % 2 == 1 else Bit(n / 2, i - 1) }

  /** Or() works bit by bit. */
  lemma {:induction false} OrBit(a: nat, b: nat, i: nat)
    ensures Bit(Or(a, b), i) <==> Bit(a, i) || Bit(b, i)
    decreases i
  {
    NoBits(i);
    if i > 0 {
      OrBit(a / 2, b / 2, i - 1);
      OrHalf(a, b);
    }
  }

  lemma {:induction false} NoBits(i: nat)
    ensures !Bit(0, i) && (Bit(1, i) <==> i == 0)
  {
    if i > 0 { NoBits(i - 1); }
  }

  lemma OrHalf(a: nat, b: nat)
    ensures Or(a, b) / 2 == Or(a / 2, b / 2)
  {}

  /** Each of the low twelve bits of an entry is that of the flags, or set in an unaligned address, or bit 0. */
  lemma EntryFlags(physaddr: Word, flags: nat, i: nat)
    requires i < 12
    ensures Bit(EntryFor(physaddr, flags) % 0x1000, i) <==> Bit(physaddr % 0x1000, i) || Bit(flags % 0x1000, i) || i == 0
  {
    hide Or, Bit;
    NoBits(i);
    OrBit(Or(physaddr % 0x1000, flags % 0x1000), 1, i);
    OrBit(physaddr % 0x1000, flags % 0x1000, i);
  }

  // ----- the processor's page walk

  function WalkPage(m: Memory, cr3: Frame, pd: Index, pt: Index): Option<Frame> {
    if !Present(m[cr3][pd]) then None
    else
      var pte := m[FrameOf(m[cr3][pd])][pt];
      if Present(pte) then Some(FrameOf(pte)) else None
  }

  function Walk(m: Memory, cr3: Frame, v: Word): Option<Word> {
    match WalkPage(m, cr3, PdIndex(v), PtIndex(v))
    case None => None
    case Some(f) => Some(f * 0x1000 + v % 0x1000)
  }

  // ----- the processor's access rule (Intel SDM volume 3A, section 4.6)

  /** Bit 1 of an entry permits stores. */
  predicate WriteBit(w: Word) { w / 2 % 2 == 1 }

  /** Bit 2 of an entry permits access from ring 3. */
  predicate UserBit(w: Word) { w / 4 % 2 == 1 }

  /** An access needs the permission of both levels. */
  predicate Writable(m: Memory, cr3: Frame, v: Word) {
    var pde := m[cr3][PdIndex(v)];
    Present(pde) && WriteBit(pde) && (var pte := m[FrameOf(pde)][PtIndex(v)]; Present(pte) && WriteBit(pte))
  }

  predicate UserMay(m: Memory, cr3: Frame, v: Word) {
    var pde := m[cr3][PdIndex(v)];
    Present(pde) && UserBit(pde) && (var pte := m[FrameOf(pde)][PtIndex(v)]; Present(pte) && UserBit(pte))
  }

  /** Entries made with PAGE_WRITE alone, and with PAGE_WRITE and PAGE_USER, for an aligned address. */
  lemma EntryRights(physaddr: Word)
    requires physaddr % 0x1000 == 0
    ensures EntryFor(physaddr, 2) == physaddr + 3 && EntryFor(physaddr, 6) == physaddr + 7
    ensures WriteBit(physaddr + 3) && !UserBit(physaddr + 3) && WriteBit(physaddr + 7) && UserBit(physaddr + 7)
  {
    assert Or(0, 2) == 2 && Or(0, 6) == 6;
    assert Or(1, 0) == 1 && Or(3, 0) == 3;
    assert Or(2, 1) == 3 && Or(6, 1) == 7;
    PlainBits(physaddr / 0x1000, 3);
    PlainBits(physaddr / 0x1000, 7);
  }

  lemma PlainBits(f: nat, bits: nat)
    requires bits < 8
    ensures (f * 0x1000 + bits) / 2 % 2 == bits / 2 % 2 && (f * 0x1000 + bits) / 4 % 2 == bits / 4 % 2
  {
    Halves(f * 0x800, bits);
    Halves(f * 0x400, bits / 2);
    Quarters(f * 0x400, bits);
    Halves(f * 0x200, bits / 4);
  }

  lemma Halves(n: nat, b: nat)
    ensures (2 * n + b) / 2 == n + b / 2 && (2 * n + b) % 2 == b % 2
  {}

  lemma Quarters(n: nat, b: nat)
    ensures (4 * n + b) / 4 == n + b / 4
  {}

  // ----- the window

  /** Slot 1023 of the directory, and no other slot, refers to the directory. */
  predicate SelfMapped(m: Memory, cr3: Frame) {
    && Present(m[cr3][SELF]) && FrameOf(m[cr3][SELF]) == cr3
    && forall o: Index :: o != SELF && Present(m[cr3][o]) ==> FrameOf(m[cr3][o]) != cr3
  }

  function DirectoryEntryAt(pd: Index): (v: Word) { 0xFFFF_F000 + 4 * pd }

  function TableEntryAt(pd: Index, pt: Index): (v: Word) { 0xFFC0_0000 + 0x1000 * pd + 4 * pt }

  lemma WindowIndices(pd: Index, pt: Index)
    ensures PdIndex(DirectoryEntryAt(pd)) == SELF && PtIndex(DirectoryEntryAt(pd)) == SELF
    ensures PdIndex(TableEntryAt(pd, pt)) == SELF && PtIndex(TableEntryAt(pd, pt)) == pd
    ensures WordIndex(DirectoryEntryAt(pd)) == pd && WordIndex(TableEntryAt(pd, pt)) == pt
  {}

  /** The two windows show the directory and the table of each present directory entry. */
  lemma Windows(m: Memory, cr3: Frame, pd: Index, pt: Index)
    requires SelfMapped(m, cr3)
    ensures WalkPage(m, cr3, PdIndex(DirectoryEntryAt(pd)), PtIndex(DirectoryEntryAt(pd))) == Some(cr3)
    ensures WordIndex(DirectoryEntryAt(pd)) == pd && WordIndex(TableEntryAt(pd, pt)) == pt
    ensures WalkPage(m, cr3, PdIndex(TableEntryAt(pd, pt)), PtIndex(TableEntryAt(pd, pt))) ==
      if Present(m[cr3][pd]) then Some(FrameOf(m[cr3][pd])) else None
  {
    hide PdIndex, PtIndex, WordIndex, DirectoryEntryAt, TableEntryAt;
    WindowIndices(pd, pt);
  }

  // ----- the three edits

  /** One entry of the table that directory entry `pd` refers to. */
  function SetEntry(m: Memory, cr3: Frame, pd: Index, pt: Index, w: Word): Memory
  {
    var t := FrameOf(m[cr3][pd]);
    m[t := m[t][pt := w]]
  }

  /** An empty table behind directory entry `pd`. */
  function AddTable(m: Memory, cr3: Frame, pd: Index, w: Word): Memory
  {
    var m1 := m[cr3 := m[cr3][pd := w]];
    m1[FrameOf(w) := ZeroPage()]
  }

  function Entry(w: Word): Option<Frame> {
    if Present(w) then Some(FrameOf(w)) else None
  }

  /** Directory entries `pd` and `other` refer to the same table. */
  predicate Shares(m: Memory, cr3: Frame, pd: Index, other: Index) {
    Present(m[cr3][other]) && FrameOf(m[cr3][other]) == FrameOf(m[cr3][pd])
  }

  /** Frame `f` is neither the directory nor a page table. */
  predicate NotATable(m: Memory, cr3: Frame, f: Frame) {
    f != cr3 && forall o: Index :: Present(m[cr3][o]) ==> FrameOf(m[cr3][o]) != f
  }

  /** A store to a table changes that one page, once for each directory entry sharing the table. */
  lemma SetEntryMaps(m: Memory, cr3: Frame, pd: Index, pt: Index, w: Word, d: Index, t: Index)
    requires SelfMapped(m, cr3) && Present(m[cr3][pd]) && pd != SELF
    ensures var m' := SetEntry(m, cr3, pd, pt, w);
      && SelfMapped(m', cr3) && m'[cr3] == m[cr3]
      && WalkPage(m', cr3, d, t) == if Shares(m, cr3, pd, d) && t == pt then Entry(w) else WalkPage(m, cr3, d, t)
  {
  }

  /** A new table is empty, shows in the table window, and changes no other page. */
  lemma AddTableMaps(m: Memory, cr3: Frame, pd: Index, w: Word, d: Index, t: Index)
    requires SelfMapped(m, cr3) && !Present(m[cr3][pd]) && Present(w)
    requires NotATable(m, cr3, FrameOf(w))
    ensures var m' := AddTable(m, cr3, pd, w);
      && SelfMapped(m', cr3) && m'[cr3] == m[cr3][pd := w]
      && WalkPage(m', cr3, d, t) ==
         if d == pd then None
         else if d == SELF && t == pd then Some(FrameOf(w))
         else WalkPage(m, cr3, d, t)
  {
  }

  /**
   All of mm_map(): afterwards exactly the given page, in every directory slot sharing its
   table, maps to the frame of `physaddr`; apart from the window slot of a new table
   nothing else changed.
   */
  lemma MapChangesOnePage(m: Memory, cr3: Frame, pd: Index, pt: Index, table: Word, w: Word, d: Index, t: Index)
    requires SelfMapped(m, cr3) && pd != SELF && Present(w)
    requires !Present(m[cr3][pd]) ==> Present(table) && NotATable(m, cr3, FrameOf(table))
    ensures var added := !Present(m[cr3][pd]);
      var m' := SetEntry(if added then AddTable(m, cr3, pd, table) else m, cr3, pd, pt, w);
      && WalkPage(m', cr3, pd, pt) == Some(FrameOf(w))
      && (d == pd && t != pt && added ==> WalkPage(m', cr3, d, t) == None)
      && (!(t == pt && (d == pd || Shares(m, cr3, pd, d))) && !(added && (d == SELF && t == pd)) ==>
            WalkPage(m', cr3, d, t) == WalkPage(m, cr3, d, t))
      && (!added && Shares(m, cr3, pd, d) ==> WalkPage(m', cr3, d, pt) == Some(FrameOf(w)))
  {
    if Present(m[cr3][pd]) {
      SetEntryMaps(m, cr3, pd, pt, w, pd, pt);
      SetEntryMaps(m, cr3, pd, pt, w, d, t);
      SetEntryMaps(m, cr3, pd, pt, w, d, pt);
    } else {
      var m1 := AddTable(m, cr3, pd, table);
      AddTableMaps(m, cr3, pd, table, d, t);
      SetEntryMaps(m1, cr3, pd, pt, w, pd, pt);
      SetEntryMaps(m1, cr3, pd, pt, w, d, t);
    }
  }

  /** mm_unmap() with the table present removes that page and nothing else. */
  lemma UnmapRemovesOnePage(m: Memory, cr3: Frame, pd: Index, pt: Index, d: Index, t: Index)
    requires SelfMapped(m, cr3) && Present(m[cr3][pd]) && pd != SELF
    ensures var m' := SetEntry(m, cr3, pd, pt, 0);
      WalkPage(m', cr3, d, t) == if t == pt && Shares(m, cr3, pd, d) then None else WalkPage(m, cr3, d, t)
  {
    SetEntryMaps(m, cr3, pd, pt, 0, d, t);
  }

  /** After mm_map(p, v) the processor translates every address of v's page into p's frame. */
  lemma MapThenTranslate(m: Memory, cr3: Frame, v: Word, physaddr: Word, flags: nat, u: Word)
    requires SelfMapped(m, cr3) && Present(m[cr3][PdIndex(v)]) && PdIndex(v) != SELF
    requires physaddr % 0x1000 == 0 && u / 0x1000 == v / 0x1000
    ensures var m' := SetEntry(m, cr3, PdIndex(v), PtIndex(v), EntryFor(physaddr, flags));
      Walk(m', cr3, u) == Some(physaddr + u % 0x1000)
  {
    assert PdIndex(u) == PdIndex(v) by { assert v / 0x40_0000 == v / 0x1000 / 1024; assert u / 0x40_0000 == u / 0x1000 / 1024; }
    SetEntryMaps(m, cr3, PdIndex(v), PtIndex(v), EntryFor(physaddr, flags), PdIndex(u), PtIndex(u));
  }
}
