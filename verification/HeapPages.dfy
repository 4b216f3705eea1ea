/**
 The pages behind the kernel heap: one frame of its own for each page from the heap's
 start up to sh_heap_max, and nothing mapped from there to the end of the heap's window.
 */
module HeapPages {
  import opened Common
  import opened Paging
  import opened Frames
  import opened Pmm
  import Chunks

  /** The heap's window is directory slots 769 to 1015. */
  const WINDOW_PAGES: nat := 247 * 1024

  function Slot(k: nat): Index
    requires k < WINDOW_PAGES
  {
    769 + k / 1024
  }

  function PageAddress(k: nat): (v: Word)
    requires k <= WINDOW_PAGES
  {
    0xC040_0000 + 0x1000 * k
  }

  lemma PageIndices(k: nat)
    requires k < WINDOW_PAGES
    ensures PdIndex(PageAddress(k)) == Slot(k) && PtIndex(PageAddress(k)) == k % 1024
    ensures PageAddress(k) % 0x1000 == 0 && ClientSlot(Slot(k))
    ensures PageAddress(0) == Chunks.HEAP_START
  {}

  function PageFrame(m: Memory, cr3: Frame, k: nat): Option<Frame>
    requires k < WINDOW_PAGES
  {
    WalkPage(m, cr3, Slot(k), k % 1024)
  }

  ghost predicate Owned(m: Memory, cr3: Frame, p: Pool, f: Frame) {
    f in p.held && NotATable(m, cr3, f)
  }

  ghost predicate Backed(m: Memory, cr3: Frame, p: Pool, backing: seq<Frame>) {
    && |backing| <= WINDOW_PAGES && Distinct(backing)
    && (forall k {:trigger backing[k]} :: 0 <= k < |backing| ==> PageFrame(m, cr3, k) == Some(backing[k]) && Owned(m, cr3, p, backing[k]))
    && (forall k {:trigger PageFrame(m, cr3, k)} :: |backing| <= k < WINDOW_PAGES ==> PageFrame(m, cr3, k) == None)
  }

  /** Right after boot the heap's window is empty. */
  lemma NothingBacked(m: Memory, cr3: Frame, p: Pool)
    requires forall d: Index, t: Index :: ClientSlot(d) ==> WalkPage(m, cr3, d, t) == None
    ensures Backed(m, cr3, p, [])
  {
    forall k | 0 <= k < WINDOW_PAGES ensures PageFrame(m, cr3, k) == None { PageIndices(k); }
  }

  lemma SlotsDiffer(i: nat, k: nat)
    requires i < WINDOW_PAGES && k < WINDOW_PAGES && i != k
    ensures Slot(i) != Slot(k) || i % 1024 != k % 1024
  {}

  /** The pool after pm_alloc() and then mm_map() of page k. */
  function Grown(m: Memory, cr3: Frame, p: Pool, k: nat): Pool
    requires k < WINDOW_PAGES && p.last + 0x2000 < WORDS
  {
    if Present(m[cr3][Slot(k)]) then Alloc(p).0 else Alloc(Alloc(p).0).0
  }

  /** One page more: alloc_chunk()'s loop. */
  lemma GrowBacked(m: Memory, cr3: Frame, p: Pool, backing: seq<Frame>)
    requires Sound(m, cr3, p) && Backed(m, cr3, p, backing) && p.last + 0x2000 < WORDS && |backing| < WINDOW_PAGES
    ensures var n := |backing|;
      var (p1, f) := Alloc(p);
      && Sound(m, cr3, p1) && Address(f) > 0 && p1.last + 0x1000 < WORDS
      && Backed(MappedIn(m, cr3, p1, PageAddress(n), Address(f), 6), cr3, Grown(m, cr3, p, n), backing + [f])
  {
    var n := |backing|;
    var (p1, f) := Alloc(p);
    hide Sound, MappedIn, Owned, PageFrame, Alloc;
    SoundInv(m, cr3, p);
    AllocSound(m, cr3, p);
    AllocInv(p);
    AllocMark(p);
    GrowPages(m, cr3, p1, n, f);
    var b' := backing + [f];
    forall i | 0 <= i < n ensures b'[i] in p.held && NotATable(m, cr3, b'[i]) { BackedOwned(m, cr3, p, backing, i); }
    GrowOwned(m, cr3, p, p1, n, f, b');
    var m' := MappedIn(m, cr3, p1, PageAddress(n), Address(f), 6);
    forall k | 0 <= k < |b'| ensures PageFrame(m', cr3, k) == Some(b'[k]) {
      if k < n { BackedOwned(m, cr3, p, backing, k); }
    }
  }

  lemma SoundInv(m: Memory, cr3: Frame, p: Pool)
    requires Sound(m, cr3, p)
    ensures Inv(p)
  {}

  lemma GrowPages(m: Memory, cr3: Frame, p: Pool, n: nat, f: Frame)
    requires Sound(m, cr3, p) && p.last + 0x1000 < WORDS && n < WINDOW_PAGES
    ensures var m' := MappedIn(m, cr3, p, PageAddress(n), Address(f), 6);
      forall k {:trigger PageFrame(m', cr3, k)} :: 0 <= k < WINDOW_PAGES ==>
        PageFrame(m', cr3, k) == if k == n then Some(f) else PageFrame(m, cr3, k)
  {
    hide Sound, MappedIn;
    PageIndices(n);
    forall k | 0 <= k < WINDOW_PAGES
      ensures PageFrame(MappedIn(m, cr3, p, PageAddress(n), Address(f), 6), cr3, k) == if k == n then Some(f) else PageFrame(m, cr3, k)
    {
      PageIndices(k);
      ClientMap(m, cr3, p, PageAddress(n), Address(f), 6, Slot(k), k % 1024);
      if k != n { SlotsDiffer(k, n); }
    }
  }

  /** The table a mapping may add is none of the frames held before. */
  lemma GrowOwned(m: Memory, cr3: Frame, p: Pool, p1: Pool, n: nat, f: Frame, b: seq<Frame>)
    requires Sound(m, cr3, p) && p.last + 0x2000 < WORDS && n < WINDOW_PAGES && (p1, f) == Alloc(p)
    requires forall g :: g in b ==> g == f || (g in p.held && NotATable(m, cr3, g))
    ensures p1.last + 0x1000 < WORDS
    ensures var m' := MappedIn(m, cr3, p1, PageAddress(n), Address(f), 6);
      forall g {:trigger Owned(m', cr3, Grown(m, cr3, p, n), g)} :: g in b ==> Owned(m', cr3, Grown(m, cr3, p, n), g)
  {
    hide Sound, MappedIn;
    SoundInv(m, cr3, p);
    AllocSound(m, cr3, p);
    AllocInv(p);
    AllocInv(p1);
    PageIndices(n);
    forall g | g in b ensures Owned(MappedIn(m, cr3, p1, PageAddress(n), Address(f), 6), cr3, Grown(m, cr3, p, n), g) {
      MappedTables(m, cr3, p1, PageAddress(n), Address(f), 6, g);
    }
  }

  lemma BackedOwned(m: Memory, cr3: Frame, p: Pool, backing: seq<Frame>, k: nat)
    requires Backed(m, cr3, p, backing) && k < |backing|
    ensures backing[k] in p.held && NotATable(m, cr3, backing[k]) && PageFrame(m, cr3, k) == Some(backing[k])
  {}

  /** The memory after pm_free() and then mm_unmap() of page k, which frame f backs. */
  function Shrunk(m: Memory, cr3: Frame, p: Pool, kernelEnd: nat, k: nat, f: Frame): Memory
    requires k < WINDOW_PAGES && RoomToFree(p)
  {
    SetEntry(FreedIn(m, cr3, p, kernelEnd, f), cr3, Slot(k), k % 1024, 0)
  }

  /** The pool after pm_free() of the frames `fs`, the last one first. */
  function Returned(p: Pool, kernelEnd: nat, fs: seq<Frame>): Pool
    decreases |fs|
  {
    if fs == [] then p else Returned(Free(p, kernelEnd, fs[|fs| - 1]), kernelEnd, fs[..|fs| - 1])
  }

  /** Returning one more frame at the other end comes last. */
  lemma {:induction false} ReturnedFirst(p: Pool, kernelEnd: nat, f: Frame, fs: seq<Frame>)
    ensures Returned(p, kernelEnd, [f] + fs) == Free(Returned(p, kernelEnd, fs), kernelEnd, f)
    decreases |fs|
  {
    var all := [f] + fs;
    if fs == [] {
      assert all[..0] == [];
    } else {
      assert all[..|all| - 1] == [f] + fs[..|fs| - 1] && all[|all| - 1] == fs[|fs| - 1];
      ReturnedFirst(Free(p, kernelEnd, fs[|fs| - 1]), kernelEnd, f, fs[..|fs| - 1]);
    }
  }

  /** One page less: free_chunk()'s loop. */
  lemma ShrinkBacked(m: Memory, cr3: Frame, p: Pool, kernelEnd: nat, backing: seq<Frame>)
    requires Sound(m, cr3, p) && p.online && Backed(m, cr3, p, backing) && backing != []
    ensures var n, f := |backing| - 1, backing[|backing| - 1];
      && Freeable(p, kernelEnd, f) && NotATable(m, cr3, f) && RoomToFree(p)
      && FreedIn(m, cr3, p, kernelEnd, f)[cr3] == m[cr3] && Present(m[cr3][Slot(n)])
      && PageFrame(FreedIn(m, cr3, p, kernelEnd, f), cr3, n) == PageFrame(m, cr3, n) == Some(f)
      && Backed(Shrunk(m, cr3, p, kernelEnd, n, f), cr3, Free(p, kernelEnd, f), backing[..n])
  {
    var n, f := |backing| - 1, backing[|backing| - 1];
    BackedOwned(m, cr3, p, backing, n);
    FreeSound(m, cr3, p, kernelEnd, f);
    FreeInv(p, kernelEnd, f);
    PageIndices(n);
    var m1, r := FreedIn(m, cr3, p, kernelEnd, f), Free(p, kernelEnd, f);
    var m2 := Shrunk(m, cr3, p, kernelEnd, n, f);
    forall k | 0 <= k < WINDOW_PAGES
      ensures PageFrame(m1, cr3, k) == PageFrame(m, cr3, k)
      ensures PageFrame(m2, cr3, k) == if k == n then None else PageFrame(m, cr3, k)
    {
      hide Sound, FreedIn, SetEntry, Free;
      PageIndices(k);
      ClientFree(m, cr3, p, kernelEnd, f, Slot(k), k % 1024);
      ClientUnmap(m1, cr3, r, PageAddress(n), Slot(k), k % 1024);
      if k != n { SlotsDiffer(k, n); }
    }
    forall k | 0 <= k < n ensures Owned(m2, cr3, r, backing[k]) {
      hide Sound, FreedIn, PageFrame;
      BackedOwned(m, cr3, p, backing, k);
      assert backing[k] != f;
      SetEntryKeepsTables(m1, cr3, r, Slot(n), n % 1024);
      NotATableSame(m, m2, cr3, backing[k]);
    }
  }

  lemma SetEntryKeepsTables(m: Memory, cr3: Frame, p: Pool, pd: Index, pt: Index)
    requires Sound(m, cr3, p) && Present(m[cr3][pd]) && pd != SELF
    ensures SetEntry(m, cr3, pd, pt, 0)[cr3] == m[cr3]
  {
    SetEntryMaps(m, cr3, pd, pt, 0, 0, 0);
  }
}
