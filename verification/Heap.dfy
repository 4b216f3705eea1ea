/**
 kmalloc() and kfree() of pmm.c in place: the headers of HeapLinks.dfy, grown and shrunk
 page by page through the memory manager of Pmm.dfy, proved against the row of chunks of
 Chunks.dfy.
 */
module Heap {
  import opened Chunks
  import opened HeapLinks
  import opened HeapPages
  import opened HeapRights
  import P = Pmm
  import F = Frames
  import opened Common
  import Paging

  const MAX_LENGTH: nat := 0x8000_0000

  /** Pages still to be mapped before the heap can end at `end`. */
  function Missing(end: nat, max: nat): nat {
    if end <= max then 0 else (PageUp(end) - max) / 0x1000
  }

  lemma MissingStep(end: nat, max: nat)
    requires end > max && max % 0x1000 == 0
    ensures max + 0x1000 <= PageUp(end) && Missing(end, max) >= 1 && Missing(end, max + 0x1000) <= Missing(end, max) - 1
  {}

  lemma AtLow(cs: seq<Chunk>, k: nat)
    requires k <= |cs|
    ensures At(cs, k) >= HEAP_START
  {}

  /** A chunk, the next one and the one behind that are three addresses. */
  lemma NeighboursApart(hs: Headers, heap: nat, cs: seq<Chunk>, k: nat)
    requires HeapAt(hs, heap, cs) && k + 1 < |cs|
    ensures At(cs, k) != At(cs, k + 1) && At(cs, k) > NULL && At(cs, k + 1) > NULL
    ensures k + 2 < |cs| ==> At(cs, k) != At(cs, k + 2) && At(cs, k + 1) != At(cs, k + 2)
  {
    AtApart(cs, k, k + 1);
    if k + 2 < |cs| { AtApart(cs, k, k + 2); AtApart(cs, k + 1, k + 2); }
  }

  /** What the headers say about the neighbours of chunk k. */
  lemma Neighbours(hs: Headers, heap: nat, cs: seq<Chunk>, k: nat)
    requires HeapAt(hs, heap, cs) && k < |cs|
    ensures At(cs, k) in hs && hs[At(cs, k)].used == cs[k].used
    ensures var next := hs[At(cs, k)].next;
      next in hs && (next == NULL <==> k + 1 == |cs|) && (k + 1 < |cs| ==> next == At(cs, k + 1) && hs[next].used == cs[k + 1].used)
    ensures var prev := hs[At(cs, k)].prev;
      prev in hs && (prev == NULL <==> k == 0) && (k > 0 ==> prev == At(cs, k - 1) && hs[prev].used == cs[k - 1].used)
  {
    HeaderAt(hs, heap, cs, k);
    if k > 0 { HeaderAt(hs, heap, cs, k - 1); }
    if k + 1 < |cs| { HeaderAt(hs, heap, cs, k + 1); }
  }

  /** The row after the first, and after both halves of glue_chunk(). */
  function GluedNext(cs: seq<Chunk>, k: nat): seq<Chunk>
    requires k < |cs|
  {
    if k + 1 < |cs| && !cs[k + 1].used then Merge(cs, k) else cs
  }

  function GluedBoth(cs: seq<Chunk>, k: nat): seq<Chunk>
    requires k < |cs|
  {
    var r := GluedNext(cs, k);
    if k > 0 && !r[k - 1].used then Merge(r, k - 1) else r
  }

  /** Merging forwards, then backwards, then dropping a last chunk is Release(). */
  lemma ReleaseByGlue(cs: seq<Chunk>, k: nat)
    requires k < |cs| && !cs[k].used && Tidy(cs[k := Chunk(true, cs[k].length)])
    ensures k + 1 < |cs| && !cs[k + 1].used ==> k + 2 < |cs|
    ensures var r, i := GluedBoth(cs, k), Low(cs, k);
      && |GluedNext(cs, k)| > k && i < |r| && At(GluedNext(cs, k), k) == At(cs, k) && At(r, i) == At(cs, i)
      && (k > 0 ==> GluedNext(cs, k)[k - 1] == cs[k - 1] && At(GluedNext(cs, k), k - 1) == At(cs, k - 1))
      && Release(cs, k) == (if i + 1 == |r| then r[..i] else r)
      && Tidy(Release(cs, k))
      && PageUp(End(Release(cs, k))) ==
         if i + 1 == |r| && PageUp(End(cs)) - 0x1000 >= At(cs, i) then PageUp(At(cs, i)) else PageUp(End(cs))
  {
    hide Release, Tidy, At, PageUp, End, GluedNext, GluedBoth;
    FreedTidy(cs, k);
    GluedAt(cs, k);
    GluedRow(cs, k);
    ReleaseEnd(cs, k);
    PageUpBetween(At(cs, Low(cs, k)), End(cs));
  }

  /** Freeing the one chunk that may be free beside others leaves a tidy row. */
  lemma FreedTidy(cs: seq<Chunk>, k: nat)
    requires k < |cs| && !cs[k].used && Tidy(cs[k := Chunk(true, cs[k].length)])
    ensures k + 1 < |cs| && !cs[k + 1].used ==> k + 2 < |cs|
    ensures Tidy(Release(cs, k))
  {
    hide Release, Tidy;
    var used := cs[k := Chunk(true, cs[k].length)];
    LastUsed(used, k);
    Marked(used, k);
    assert used[k := Chunk(false, used[k].length)] == cs;
    ReleaseTidy(used, k);
  }

  /** Merging moves none of the chunks that stay. */
  lemma GluedAt(cs: seq<Chunk>, k: nat)
    requires k < |cs| && (k + 1 < |cs| && !cs[k + 1].used ==> k + 2 < |cs|)
    ensures var g, r, i := GluedNext(cs, k), GluedBoth(cs, k), Low(cs, k);
      && |g| > k && i < |r| && At(g, k) == At(cs, k) && At(r, i) == At(cs, i)
      && (k > 0 ==> g[k - 1] == cs[k - 1] && At(g, k - 1) == At(cs, k - 1))
  {
    hide At;
    if k + 1 < |cs| && !cs[k + 1].used {
      AtMerge(cs, k, k);
      if k > 0 { AtMerge(cs, k, k - 1); }
    }
    var g := GluedNext(cs, k);
    if k > 0 && !g[k - 1].used { AtMerge(g, k - 1, k - 1); }
  }

  lemma LastUsed(cs: seq<Chunk>, k: nat)
    requires Tidy(cs) && k < |cs|
    ensures k + 1 < |cs| && !cs[k + 1].used ==> k + 2 < |cs|
  {}

  /** The merged row, chunk by chunk. */
  lemma GluedRow(cs: seq<Chunk>, k: nat)
    requires k < |cs| && !cs[k].used && (k + 1 < |cs| && !cs[k + 1].used ==> k + 2 < |cs|)
    ensures var r, i := GluedBoth(cs, k), Low(cs, k);
      && i < |r| && (i + 1 == |r| <==> High(cs, k) == |cs|)
      && Release(cs, k) == if i + 1 == |r| then r[..i] else r
  {
    hide Size, GluedNext, GluedBoth;
    var r, lo, hi := GluedBoth(cs, k), Low(cs, k), High(cs, k);
    GluedShape(cs, k);
    SegmentSum(cs, lo, hi);
    RowAround(cs, lo, hi, r[lo]);
  }

  lemma RowAround(cs: seq<Chunk>, lo: nat, hi: nat, c: Chunk)
    requires lo < hi <= |cs|
    ensures var r := cs[..lo] + [c] + cs[hi..];
      && |r| == |cs| - (hi - lo) + 1 && r[lo] == c && r[..lo] == cs[..lo] && (lo + 1 == |r| <==> hi == |cs|)
      && (hi == |cs| ==> r[..lo] == cs[..lo] + [] + cs[hi..])
  {}

  /** One chunk stands for chunk k and its free neighbours. */
  lemma GluedShape(cs: seq<Chunk>, k: nat)
    requires k < |cs| && !cs[k].used && (k + 1 < |cs| && !cs[k + 1].used ==> k + 2 < |cs|)
    ensures var r, lo, hi := GluedBoth(cs, k), Low(cs, k), High(cs, k);
      && lo < |r| && r == cs[..lo] + [r[lo]] + cs[hi..] && !r[lo].used
      && (hi == lo + 1 ==> r[lo].length == cs[lo].length)
      && (hi == lo + 2 ==> r[lo].length == cs[lo].length + cs[lo + 1].length)
      && (hi == lo + 3 ==> r[lo].length == cs[lo].length + cs[lo + 1].length + cs[lo + 2].length)
  {
    var g := GluedNext(cs, k);
    MergedShape(cs, k);
    if k > 0 && !g[k - 1].used {
      var r := Merge(g, k - 1);
      assert r == g[..k - 1] + [r[k - 1]] + g[k + 1..];
      assert g[..k - 1] == cs[..k - 1] && g[k + 1..] == cs[High(cs, k)..];
    }
  }

  lemma MergedShape(cs: seq<Chunk>, k: nat)
    requires k < |cs| && (k + 1 < |cs| && !cs[k + 1].used ==> k + 2 < |cs|)
    ensures var g, hi := GluedNext(cs, k), High(cs, k);
      && |g| > k && g == cs[..k] + [g[k]] + cs[hi..] && g[k].used == cs[k].used
      && g[k].length == if hi == k + 1 then cs[k].length else cs[k].length + cs[k + 1].length
  {}

  lemma SegmentSum(cs: seq<Chunk>, lo: nat, hi: nat)
    requires lo < hi <= |cs|
    ensures hi == lo + 1 ==> Size(cs[lo..hi]) == cs[lo].length
    ensures hi == lo + 2 ==> Size(cs[lo..hi]) == cs[lo].length + cs[lo + 1].length
    ensures hi == lo + 3 ==> Size(cs[lo..hi]) == cs[lo].length + cs[lo + 1].length + cs[lo + 2].length
  {
    FirstLength(cs, lo, hi);
    if hi > lo + 1 { FirstLength(cs, lo + 1, hi); }
    if hi > lo + 2 { FirstLength(cs, lo + 2, hi); }
  }

  lemma ReleaseEnd(cs: seq<Chunk>, k: nat)
    requires k < |cs|
    ensures var lo, hi := Low(cs, k), High(cs, k);
      && End(Release(cs, k)) == (if hi == |cs| then At(cs, lo) else End(cs))
      && At(cs, lo) <= End(cs)
  {
    hide Size;
    var lo, hi := Low(cs, k), High(cs, k);
    var s' := if hi == |cs| then [] else [Chunk(false, Size(cs[lo..hi]))];
    ThreeSizes(cs[..lo], cs[lo..hi], cs[hi..]);
    ThreeSizes(cs[..lo], s', cs[hi..]);
    assert cs[..lo] + cs[lo..hi] + cs[hi..] == cs;
    OneChunk(Chunk(false, Size(cs[lo..hi])));
    NoChunks();
  }

  lemma ThreeSizes(a: seq<Chunk>, b: seq<Chunk>, c: seq<Chunk>)
    ensures Size(a + b + c) == Size(a) + Size(b) + Size(c)
  {
    SizeAppend(a + b, c);
    SizeAppend(a, b);
  }

  lemma NoChunks()
    ensures Size([]) == 0
  {}

  lemma PageUpBetween(a: nat, b: nat)
    requires a <= b
    ensures PageUp(b) - 0x1000 < a ==> PageUp(a) == PageUp(b)
  {
    if PageUp(b) - 0x1000 < a { PageUpIs(a, PageUp(b)); }
  }

  lemma Marked(cs: seq<Chunk>, k: nat)
    requires Tidy(cs) && k < |cs| && cs[k].used
    ensures var r := cs[k := Chunk(false, cs[k].length)];
      && r[k := Chunk(true, r[k].length)] == cs && At(r, k) == At(cs, k)
      && Release(r, k) == Release(cs, k) && End(r) == End(cs)
  {
    var r := cs[k := Chunk(false, cs[k].length)];
    AtSame(cs, k, false, k);
    SizeSame(r, cs);
    var lo, hi := Low(cs, k), High(cs, k);
    SizeSame(r[lo..hi], cs[lo..hi]);
    assert r[..lo] == cs[..lo] && r[hi..] == cs[hi..];
  }

  lemma HeapEnds(hs: Headers, heap: nat, cs: seq<Chunk>)
    requires HeapAt(hs, heap, cs)
    ensures heap == if cs == [] then NULL else At(cs, 0)
    ensures At(cs, |cs|) == End(cs)
  {
    AtEnd(cs);
    assert cs[..0] == [];
  }

  /** kmalloc() finds the end of the heap behind the last chunk. */
  lemma EndIs(hs: Headers, heap: nat, cs: seq<Chunk>)
    requires HeapAt(hs, heap, cs)
    ensures cs == [] ==> End(cs) == HEAP_START && heap == NULL
    ensures cs != [] ==> At(cs, |cs| - 1) in hs && heap == HEAP_START && At(cs, |cs| - 1) > NULL
    ensures cs != [] ==> End(cs) == At(cs, |cs| - 1) + hs[At(cs, |cs| - 1)].length
  {
    if cs != [] {
      HeaderAt(hs, heap, cs, |cs| - 1);
      AtNext(cs, |cs| - 1);
      AtEnd(cs);
    }
  }

  lemma NoStores(hs: Headers, cs: seq<Chunk>)
    ensures Confined(hs, hs, cs)
  {}

  /** A split stores at the chunk and at the one behind it. */
  lemma SplitStores(hs: Headers, cs: seq<Chunk>, i: nat, n: nat)
    requires i < |cs| && At(cs, i) in hs && hs[At(cs, i)].length == cs[i].length && n <= cs[i].length
    ensures Boundary(cs, At(cs, i)) && Boundary(cs, At(cs, i + 1))
    ensures forall x :: x in Split(hs, At(cs, i), n) && x != At(cs, i) && x != At(cs, i + 1) ==>
      x in hs && Split(hs, At(cs, i), n)[x] == hs[x]
  {
    AtNext(cs, i);
    AtBoundary(cs, i);
    AtBoundary(cs, i + 1);
  }

  lemma MallocEnd(cs: seq<Chunk>, n: nat)
    requires FirstFit(cs, n) == |cs|
    ensures Malloc(cs, n) == cs + [Chunk(true, n)] && End(Malloc(cs, n)) == End(cs) + n
  {
    SizeAppend(cs, [Chunk(true, n)]);
    OneChunk(Chunk(true, n));
  }

  lemma GrownEnd(end: nat, n: nat)
    ensures end + n <= PageUp(end) ==> PageUp(end + n) == PageUp(end)
  {
    if end + n <= PageUp(end) { PageUpIs(end + n, PageUp(end)); }
  }

  lemma NothingReturned(p: F.Pool, kernelEnd: nat, fs: seq<Paging.Frame>)
    ensures Returned(p, kernelEnd, fs[|fs|..]) == p
  {}

  /** kmalloc(l) meets split_chunk()'s guard exactly if the chunk it takes is more than two headers longer than the request. */
  lemma SplitsIff(cs: seq<Chunk>, l: nat)
    ensures Splits(cs, l + 12) <==> FirstFit(cs, l + 12) < |cs| && cs[FirstFit(cs, l + 12)].length > l + 24
  {}

  /** The block kmalloc(l) adds: a taken chunk keeps its length, a new one has exactly what was asked for. */
  lemma MallocSize(cs: seq<Chunk>, l: nat)
    requires Tidy(cs)
    ensures var n, k := l + 12, FirstFit(cs, l + 12);
      && At(cs, k) !in Blocks(cs) && At(cs, k) in Blocks(Malloc(cs, n))
      && Blocks(Malloc(cs, n)) == Blocks(cs)[At(cs, k) := if k < |cs| then cs[k].length else l + 12]
      && l + 12 <= Blocks(Malloc(cs, n))[At(cs, k)]
      && (!Splits(cs, n) ==> Blocks(Malloc(cs, n))[At(cs, k)] <= l + 24)
  {
    hide Blocks, Tidy, At;
    MallocBlocks(cs, l + 12);
  }

  /**
   What a taken split has stored: a free header behind the chunk at `a`, where the next
   chunk's is, and the chunk cut to `n` bytes, linked to it and in use.
   */
  ghost predicate CutAt(hs: Headers, hs': Headers, a: nat, length: nat, n: nat) {
    && a in hs && n <= length
    && hs' == hs[a + length := Header(0, a, false, length - n)][a := Header(a + length, hs[a].prev, true, n)]
  }

  lemma SplitCuts(hs: Headers, a: nat, n: nat)
    requires a in hs && n <= hs[a].length && hs[a].length > 0
    ensures a in Split(hs, a, n)
    ensures CutAt(hs, Split(hs, a, n)[a := Split(hs, a, n)[a].(used := true)], a, hs[a].length, n)
  {}

  lemma NotSplit(cs: seq<Chunk>, n: nat)
    ensures FirstFit(cs, n) == |cs| ==> !Splits(cs, n)
  {}

  lemma FirstAddress(cs: seq<Chunk>, n: nat)
    requires cs == []
    ensures At(cs, FirstFit(cs, n)) == 0xC040_0000
  {}

  /** The processor lets ring 3 read and write the `l` bytes from `p` on. */
  ghost predicate Usable(m: Paging.Memory, cr3: Paging.Frame, p: nat, l: nat) {
    p + l <= WORDS && forall x: Word {:trigger Paging.Walk(m, cr3, x)} :: p <= x < p + l ==>
      Paging.Walk(m, cr3, x).Some? && Paging.Writable(m, cr3, x) && Paging.UserMay(m, cr3, x)
  }

  /** Every byte of a block in use is mapped, writable and open to ring 3. */
  lemma BlockOpen(m: Paging.Memory, cr3: Paging.Frame, p: F.Pool, backing: seq<Paging.Frame>, cs: seq<Chunk>, a: nat, x: nat)
    requires |backing| <= WINDOW_PAGES && OpenWindow(m, cr3) && Backed(m, cr3, p, backing)
    requires PageUp(End(cs)) == PageAddress(|backing|)
    requires Tidy(cs) && a in Blocks(cs) && a <= x < a + Blocks(cs)[a]
    ensures x < WORDS && Paging.Walk(m, cr3, x).Some? && Paging.Writable(m, cr3, x) && Paging.UserMay(m, cr3, x)
  {
    hide OpenWindow, Backed, Paging.Walk, Paging.Writable, Paging.UserMay;
    BlocksIn(HEAP_START, cs);
    HeapAccess(m, cr3, p, backing, x);
  }

  lemma BlockBelow(cs: seq<Chunk>, a: nat)
    requires Tidy(cs) && a in Blocks(cs)
    ensures a + Blocks(cs)[a] <= PageUp(End(cs))
  {
    BlocksIn(HEAP_START, cs);
  }

  /** No chunk: the heap ends where it starts, on a page boundary. */
  lemma EmptyHeap(hs: Headers)
    requires NULL in hs
    ensures HeapAt(hs, NULL, []) && Tidy([]) && PageUp(End([])) == HEAP_START == PageAddress(0)
  {
    PageUpIs(HEAP_START, HEAP_START);
  }

  class Heap {
    const pmm: P.Pmm
    var headers: Headers
    var shHeap: nat
    var shHeapMax: nat
    ghost var chunks: seq<Chunk>
    ghost var backing: seq<Paging.Frame>

    /** The pages: sh_heap_max is the first address of the window without a frame. */
    ghost predicate Paged()
      reads this, pmm
    {
      && pmm.Valid() && pmm.online && Rights(pmm.mem, pmm.cr3)
      && |backing| <= WINDOW_PAGES && Backed(pmm.mem, pmm.cr3, pmm.pool, backing)
      && shHeapMax == PageAddress(|backing|)
    }

    ghost predicate Valid()
      reads this, pmm
    {
      && Paged() && shHeapMax == PageUp(End(chunks))
      && HeapAt(headers, shHeap, chunks) && Tidy(chunks)
    }

    /** The heap as mm_init() leaves it. */
    constructor (memory: P.Pmm, page0: Headers)
      requires memory.Valid() && memory.online && NULL in page0
      requires forall d: Paging.Index {:trigger memory.mem[memory.cr3][d]} ::
        P.ClientSlot(d) ==> !Paging.Present(memory.mem[memory.cr3][d])
      requires P.StackGuarded(memory.mem, memory.cr3)
      ensures Valid() && pmm == memory && chunks == [] && backing == []
    {
      hide OpenWindow, Backed, P.Sound, P.StackGuarded, HeapAt, Tidy, PageUp, End, Paging.WalkPage, Paging.Present;
      OpenAtFirst(memory.mem, memory.cr3);
      EmptyHeap(page0);
      pmm, headers := memory, page0;
      shHeap, shHeapMax := NULL, HEAP_START;
      chunks, backing := [], [];
      NothingBacked(memory.mem, memory.cr3, memory.pool);
    }

    /** What a block's holder may do with it. */
    lemma BlockUsable(p: nat, l: nat)
      requires Valid() && p >= 12 && p - 12 in Blocks(chunks) && l + 12 <= Blocks(chunks)[p - 12]
      ensures Usable(pmm.mem, pmm.cr3, p, l)
    {
      hide OpenWindow, Backed, P.Sound, P.StackGuarded, HeapAt, Tidy, Blocks, PageUp, End,
        Paging.Walk, Paging.Writable, Paging.UserMay;
      BlockBelow(chunks, p - 12);
      forall x: Word | p <= x < p + l
        ensures Paging.Walk(pmm.mem, pmm.cr3, x).Some? && Paging.Writable(pmm.mem, pmm.cr3, x) && Paging.UserMay(pmm.mem, pmm.cr3, x)
      {
        BlockOpen(pmm.mem, pmm.cr3, pmm.pool, backing, chunks, p - 12, x);
      }
    }

    // ----- growing and shrinking

    /** One turn of alloc_chunk()'s loop. */
    method GrowPage()
      requires Paged() && |backing| < WINDOW_PAGES && pmm.lastPage + 0x2000 < WORDS
      modifies this`shHeapMax, this`backing, pmm
      ensures Paged() && shHeapMax == old(shHeapMax) + 0x1000 && pmm.lastPage <= old(pmm.lastPage) + 0x2000
      ensures backing == old(backing) + [F.Alloc(old(pmm.pool)).1]
    {
      hide Backed, Rights, F.Alloc, P.Sound, P.MappedIn;
      ghost var n := |backing|;
      ghost var f := F.Alloc(pmm.pool).1;
      GrowBacked(pmm.mem, pmm.cr3, pmm.pool, backing);
      F.AllocMark(pmm.pool);
      F.AllocMark(F.Alloc(pmm.pool).0);
      PageIndices(n);
      P.SoundParts(pmm.mem, pmm.cr3, pmm.pool);
      RightsMapped(pmm.mem, pmm.cr3, F.Alloc(pmm.pool).0, n, f);
      var page := pmm.PmAlloc();
      var _ := pmm.MmMap(page, shHeapMax, P.PAGE_WRITE + P.PAGE_USER);
      shHeapMax := shHeapMax + 0x1000;
      backing := backing + [f];
    }

    method AllocChunk(start: nat, len: nat)
      requires Paged() && start + len <= PageAddress(WINDOW_PAGES)
      requires pmm.lastPage + 0x2000 * Missing(start + len, shHeapMax) < WORDS
      modifies this`shHeapMax, this`backing, pmm
      ensures Paged() && old(backing) <= backing
      ensures shHeapMax == if start + len <= old(shHeapMax) then old(shHeapMax) else PageUp(start + len)
    {
      hide Backed, Rights, PageUp, Missing, P.Sound;
      while start + len > shHeapMax
        invariant Paged() && old(backing) <= backing
        invariant shHeapMax == old(shHeapMax) || shHeapMax <= PageUp(start + len)
        invariant pmm.lastPage + 0x2000 * Missing(start + len, shHeapMax) < WORDS
        decreases start + len - shHeapMax
      {
        MissingStep(start + len, shHeapMax);
        GrowPage();
      }
    }

    /** One turn of free_chunk()'s loop: the last page's frame goes to pm_free(). */
    method ShrinkPage()
      requires Paged() && backing != []
      modifies this`shHeapMax, this`backing, pmm
      ensures Paged() && shHeapMax == old(shHeapMax) - 0x1000 && backing == old(backing[..|backing| - 1])
      ensures pmm.pool == F.Free(old(pmm.pool), pmm.kernelEnd, old(backing[|backing| - 1]))
    {
      hide Backed, Rights, F.Free, P.Sound, P.FreedIn, Paging.SetEntry, Paging.SelfMapped, F.Freeable, Paging.NotATable;
      ghost var n, f := |backing| - 1, backing[|backing| - 1];
      ShrinkBacked(pmm.mem, pmm.cr3, pmm.pool, pmm.kernelEnd, backing);
      PageIndices(n);
      P.SoundParts(pmm.mem, pmm.cr3, pmm.pool);
      RightsShrunk(pmm.mem, pmm.cr3, pmm.pool, pmm.kernelEnd, n, f);
      shHeapMax := shHeapMax - 0x1000;
      var page := pmm.GetPhysaddr(shHeapMax);
      pmm.PmFree(page);
      P.SoundParts(pmm.mem, pmm.cr3, pmm.pool);
      pmm.MmUnmap(shHeapMax);
      backing := backing[..n];
    }

    method FreePages(chunk: nat)
      requires Paged() && HEAP_START <= chunk
      modifies this`shHeapMax, this`backing, pmm
      ensures Paged() && backing <= old(backing)
      ensures pmm.pool == Returned(old(pmm.pool), pmm.kernelEnd, old(backing)[|backing|..])
      ensures shHeapMax == if old(shHeapMax) - 0x1000 < chunk then old(shHeapMax) else PageUp(chunk)
    {
      hide Backed, Rights, P.Sound, F.Free, Returned, PageUp;
      NothingReturned(pmm.pool, pmm.kernelEnd, backing);
      while shHeapMax - 0x1000 >= chunk
        invariant Paged() && backing <= old(backing)
        invariant pmm.pool == Returned(old(pmm.pool), pmm.kernelEnd, old(backing)[|backing|..])
        invariant shHeapMax == old(shHeapMax) || shHeapMax >= PageUp(chunk)
        decreases shHeapMax
      {
        ghost var n := |backing| - 1;
        PageUpLeast(chunk, PageAddress(n));
        assert old(backing)[n..] == [backing[n]] + old(backing)[n + 1..];
        ReturnedFirst(old(pmm.pool), pmm.kernelEnd, backing[n], old(backing)[n + 1..]);
        ShrinkPage();
      }
      if shHeapMax >= PageUp(chunk) { PageUpIs(chunk, shHeapMax); }
    }

    // ----- the heap's own code

    /** split_chunk(): the new header lands on the header of the next chunk. */
    method SplitChunk(chunk: nat, len: nat)
      requires chunk in headers && headers[chunk].length >= len
      modifies this`headers
      ensures headers ==
        if old(headers[chunk]).length - len > HEADER_SIZE then Split(old(headers), chunk, len) else old(headers)
    {
      if headers[chunk].length - len > HEADER_SIZE {
        var newchunk := chunk + headers[chunk].length;
        headers := headers[newchunk := Header(NULL, chunk, false, headers[chunk].length - len)];
        headers := headers[chunk := headers[chunk].(next := newchunk)];
        headers := headers[chunk := headers[chunk].(length := len)];
        assert headers == Split(old(headers), chunk, len);
      }
    }

    /** free_chunk(): the last chunk leaves the heap, and the pages behind it the memory. */
    method FreeChunk(chunk: nat)
      requires Paged() && HeapAt(headers, shHeap, chunks) && chunks != [] && chunk == At(chunks, |chunks| - 1)
      modifies this`headers, this`shHeap, this`chunks, this`shHeapMax, this`backing, pmm
      ensures Paged() && backing <= old(backing) && HeapAt(headers, shHeap, chunks)
      ensures pmm.pool == Returned(old(pmm.pool), pmm.kernelEnd, old(backing)[|backing|..])
      ensures chunks == old(chunks[..|chunks| - 1]) && Confined(old(headers), headers, old(chunks))
      ensures shHeapMax == if old(shHeapMax) - 0x1000 < chunk then old(shHeapMax) else PageUp(chunk)
    {
      hide HeapAt, At, Backed, Rights, P.Sound, Confined, Boundary, Returned;
      if |chunks| > 1 { AtBoundary(chunks, |chunks| - 2); }
      HeaderAt(headers, shHeap, chunks, |chunks| - 1);
      TruncateLinks(headers, shHeap, chunks);
      AtLow(chunks, |chunks| - 1);
      if |chunks| > 1 { AtLow(chunks, |chunks| - 2); }
      var prev := headers[chunk].prev;
      headers := headers[prev := headers[prev].(next := NULL)];
      StoresConfined(old(headers), headers, chunks, prev, prev);
      if prev == NULL {
        shHeap := NULL;
      }
      chunks := chunks[..|chunks| - 1];
      FreePages(chunk);
    }

    /** The first half of glue_chunk(): the chunk takes in a free chunk behind it. */
    method GlueNext(chunk: nat, ghost k: nat)
      requires HeapAt(headers, shHeap, chunks) && k + 2 < |chunks| && chunk == At(chunks, k)
      modifies this`headers, this`chunks
      ensures HeapAt(headers, shHeap, chunks) && chunks == Merge(old(chunks), k)
      ensures Confined(old(headers), headers, old(chunks))
    {
      hide HeapAt, At, Confined, Boundary;
      AtBoundary(chunks, k);
      AtBoundary(chunks, k + 2);
      HeaderAt(headers, shHeap, chunks, k);
      HeaderAt(headers, shHeap, chunks, k + 1);
      NeighboursApart(headers, shHeap, chunks, k);
      MergeLinks(headers, shHeap, chunks, k);
      ghost var hs := headers;
      var next := headers[chunk].next;
      headers := headers[chunk := headers[chunk].(length := headers[chunk].length + headers[next].length)];
      var after := headers[next].next;
      headers := headers[after := headers[after].(prev := chunk)];
      headers := headers[chunk := headers[chunk].(next := headers[next].next)];
      assert headers == hs[chunk := hs[chunk].(next := after, length := hs[chunk].length + hs[next].length)]
                          [after := hs[after].(prev := chunk)];
      StoresConfined(hs, headers, chunks, chunk, after);
      chunks := Merge(chunks, k);
    }

    /** The second half: a free chunk in front takes it in; behind the last chunk lies NULL. */
    method GluePrev(chunk: nat, ghost k: nat) returns (prev: nat)
      requires HeapAt(headers, shHeap, chunks) && 0 < k < |chunks| && chunk == At(chunks, k)
      modifies this`headers, this`chunks
      ensures HeapAt(headers, shHeap, chunks) && chunks == Merge(old(chunks), k - 1)
      ensures prev == old(At(chunks, k - 1)) && Confined(old(headers), headers, old(chunks))
    {
      hide HeapAt, At, Confined, Boundary;
      AtBoundary(chunks, k - 1);
      AtBoundary(chunks, k + 1);
      HeaderAt(headers, shHeap, chunks, k);
      HeaderAt(headers, shHeap, chunks, k - 1);
      NeighboursApart(headers, shHeap, chunks, k - 1);
      MergeLinks(headers, shHeap, chunks, k - 1);
      ghost var hs := headers;
      prev := headers[chunk].prev;
      headers := headers[prev := headers[prev].(length := headers[prev].length + headers[chunk].length)];
      headers := headers[prev := headers[prev].(next := headers[chunk].next)];
      var next := headers[chunk].next;
      headers := headers[next := headers[next].(prev := headers[chunk].prev)];
      assert headers == hs[prev := hs[prev].(next := next, length := hs[prev].length + hs[chunk].length)]
                          [next := hs[next].(prev := prev)];
      StoresConfined(hs, headers, chunks, prev, next);
      chunks := Merge(chunks, k - 1);
    }

    /** glue_chunk() on the k-th chunk, just marked free. */
    method GlueChunk(chunk: nat, ghost k: nat)
      requires Paged() && HeapAt(headers, shHeap, chunks) && k < |chunks| && chunk == At(chunks, k)
      requires !chunks[k].used && Tidy(chunks[k := Chunk(true, chunks[k].length)])
      requires shHeapMax == PageUp(End(chunks))
      modifies this`headers, this`shHeap, this`chunks, this`shHeapMax, this`backing, pmm
      ensures Valid() && chunks == Release(old(chunks), k) && backing <= old(backing)
      ensures pmm.pool == Returned(old(pmm.pool), pmm.kernelEnd, old(backing)[|backing|..])
      ensures Confined(old(headers), headers, old(chunks))
    {
      hide HeapAt, At, Backed, Rights, P.Sound, Merge, Release, Tidy, PageUp, End, Confined, Boundary, Returned;
      NothingReturned(pmm.pool, pmm.kernelEnd, backing);
      ghost var cs, hs := chunks, headers;
      NoStores(hs, cs);
      ReleaseByGlue(cs, k);
      Neighbours(headers, shHeap, chunks, k);
      var c := chunk;
      ghost var i := k;
      if headers[c].next != NULL && !headers[headers[c].next].used {
        GlueNext(c, k);
        MergeBoundaries(cs, k);
        Neighbours(headers, shHeap, chunks, k);
      }
      ghost var ds, hs1 := chunks, headers;
      if headers[c].prev != NULL && !headers[headers[c].prev].used {
        c := GluePrev(c, k);
        i := k - 1;
        ConfinedThen(hs, hs1, headers, cs, ds);
        MergeBoundaries(ds, k - 1);
        Neighbours(headers, shHeap, chunks, i);
      }
      ghost var es, hs2 := chunks, headers;
      if headers[c].next == NULL {
        FreeChunk(c);
        ConfinedThen(hs, hs2, headers, cs, es);
      }
    }

    /** kfree() of a block in use: exactly this block goes, and the heap is well formed again. */
    method Kfree(p: nat)
      requires Valid() && p >= 12 && p - 12 in Blocks(chunks)
      modifies this`headers, this`shHeap, this`chunks, this`shHeapMax, this`backing, pmm
      ensures Valid() && Blocks(chunks) == Blocks(old(chunks)) - {p - 12}
      ensures chunks == Apply(old(chunks), FreeOp(p - 12))
      ensures backing <= old(backing) && Confined(old(headers), headers, old(chunks))
      ensures pmm.pool == Returned(old(pmm.pool), pmm.kernelEnd, old(backing)[|backing|..])
    {
      hide HeapAt, At, Backed, Rights, P.Sound, Release, Tidy, PageUp, End, Blocks, Confined, Boundary, Returned;
      var header := p - HEADER_SIZE;
      ghost var k := IndexOf(chunks, header);
      ReleaseBlocks(chunks, k);
      MarkLinks(headers, shHeap, chunks, k, false);
      Marked(chunks, k);
      headers := headers[header := headers[header].(used := false)];
      AtBoundary(chunks, k);
      StoresConfined(old(headers), headers, chunks, header, header);
      MarkBoundaries(chunks, k, false);
      ghost var hs := headers;
      chunks := chunks[k := Chunk(false, chunks[k].length)];
      GlueChunk(header, k);
      ConfinedThen(old(headers), hs, headers, old(chunks), old(chunks)[k := Chunk(false, old(chunks)[k].length)]);
    }

    /**
     kmalloc(): the first free chunk that fits, else a new chunk at the end.  The heap stays
     well formed if and only if split_chunk()'s guard is false, that is, unless the chunk taken
     is longer than the request by more than two headers; when it is true the headers
     describe no row of chunks at all.
     */
    method Kmalloc(l: nat) returns (p: nat)
      requires Valid() && l + 12 < MAX_LENGTH
      requires End(chunks) + l + 12 <= PageAddress(WINDOW_PAGES)
      requires pmm.lastPage + 0x2000 * Missing(End(chunks) + l + 12, shHeapMax) < WORDS
      modifies this`headers, this`shHeap, this`chunks, this`shHeapMax, this`backing, pmm
      ensures p == old(At(chunks, FirstFit(chunks, l + 12))) + 12
      ensures old(chunks) == [] ==> p == 0xC040_000C
      ensures var cs, k := old(chunks), FirstFit(old(chunks), l + 12);
        if k < |cs| && cs[k].length > l + 24 then
          (forall ds :: !HeapAt(headers, shHeap, ds)) && CutAt(old(headers), headers, p - 12, cs[k].length, l + 12)
        else
          && Valid() && chunks == Malloc(cs, l + 12) && old(backing) <= backing
          && p - 12 !in Blocks(cs) && p - 12 in Blocks(chunks)
          && Blocks(chunks) == Blocks(cs)[p - 12 := if k < |cs| then cs[k].length else l + 12]
          && l + 12 <= Blocks(chunks)[p - 12] <= l + 24
          && Usable(pmm.mem, pmm.cr3, p, l)
      ensures Confined(old(headers), headers, old(chunks))
    {
      hide HeapAt, At, Backed, Rights, P.Sound, Tidy, PageUp, Blocks, FirstFit, Malloc, Splits, CutAt, Confined, Usable;
      var n := l + HEADER_SIZE;
      HeapEnds(headers, shHeap, chunks);
      SplitsIff(chunks, l);
      MallocSize(chunks, l);
      if chunks == [] { FirstAddress(chunks, n); }
      var cur, prev := shHeap, NULL;
      ghost var i := 0;
      if chunks != [] { HeaderAt(headers, shHeap, chunks, 0); }
      while cur != NULL
        invariant unchanged(this) && unchanged(pmm)
        invariant i <= |chunks| && cur == (if i == |chunks| then NULL else At(chunks, i))
        invariant prev == (if i == 0 then NULL else At(chunks, i - 1))
        invariant forall j :: 0 <= j < i ==> chunks[j].used || chunks[j].length < n
        invariant i < |chunks| ==> cur in headers && headers[cur] == HeaderOf(chunks, i) && NULL < cur
        decreases |chunks| - i
      {
        if i + 1 < |chunks| { HeaderAt(headers, shHeap, chunks, i + 1); }
        if !headers[cur].used && headers[cur].length >= n {
          FirstFitIs(chunks, n, i);
          p := TakeChunk(cur, n, i);
          if !Splits(old(chunks), n) { BlockUsable(p, l); }
          return;
        }
        prev, cur := cur, headers[cur].next;
        i := i + 1;
      }
      FirstFitIs(chunks, n, |chunks|);
      NotSplit(chunks, n);
      p := NewChunk(prev, n);
      BlockUsable(p, l);
    }

    /** The first exit of kmalloc(): chunk `i` fits. */
    method TakeChunk(cur: nat, n: nat, ghost i: nat) returns (p: nat)
      requires Valid() && i < |chunks| && cur == At(chunks, i) && i == FirstFit(chunks, n) && n >= HEADER_SIZE
      modifies this`headers, this`chunks
      ensures p == cur + HEADER_SIZE
      ensures !Splits(old(chunks), n) ==> Valid() && chunks == Malloc(old(chunks), n)
      ensures Splits(old(chunks), n) ==> forall ds :: !HeapAt(headers, shHeap, ds)
      ensures Splits(old(chunks), n) ==> CutAt(old(headers), headers, cur, old(chunks[i].length), n)
      ensures Confined(old(headers), headers, old(chunks))
    {
      hide HeapAt, At, Backed, Rights, P.Sound, Tidy, PageUp, FirstFit, Split, CutAt, Confined, Boundary;
      HeaderAt(headers, shHeap, chunks, i);
      ghost var cs := chunks;
      if Splits(cs, n) {
        SplitCuts(headers, cur, n);
        ghost var hs := Split(headers, cur, n)[cur := Split(headers, cur, n)[cur].(used := true)];
        forall ds ensures !HeapAt(hs, shHeap, ds) {
          SplitBreaksHeap(headers, shHeap, cs, i, n, ds);
        }
      } else {
        MarkLinks(headers, shHeap, cs, i, true);
        MallocTidy(cs, n);
        SizeSame(cs, cs[i := Chunk(true, cs[i].length)]);
        chunks := cs[i := Chunk(true, cs[i].length)];
      }
      SplitChunk(cur, n);
      headers := headers[cur := headers[cur].(used := true)];
      SplitStores(old(headers), cs, i, n);
      StoresConfined(old(headers), headers, cs, At(cs, i), At(cs, i + 1));
      p := cur + HEADER_SIZE;
    }

    /** The second exit: a new chunk behind the last one. */
    method NewChunk(prev: nat, n: nat) returns (p: nat)
      requires Valid() && n >= HEADER_SIZE && FirstFit(chunks, n) == |chunks|
      requires prev == if chunks == [] then NULL else At(chunks, |chunks| - 1)
      requires End(chunks) + n <= PageAddress(WINDOW_PAGES)
      requires pmm.lastPage + 0x2000 * Missing(End(chunks) + n, shHeapMax) < WORDS
      modifies this`headers, this`shHeap, this`chunks, this`shHeapMax, this`backing, pmm
      ensures Valid() && chunks == Malloc(old(chunks), n) && old(backing) <= backing
      ensures p == End(old(chunks)) + HEADER_SIZE && Confined(old(headers), headers, old(chunks))
    {
      hide HeapAt, At, Backed, Rights, P.Sound, Tidy, PageUp, FirstFit, Confined, Boundary;
      var start;
      EndIs(headers, shHeap, chunks);
      if prev != NULL {
        start := prev + headers[prev].length;
      } else {
        start := HEAP_START;
        shHeap := start;
      }
      MallocTidy(chunks, n);
      MallocEnd(chunks, n);
      GrownEnd(End(chunks), n);
      AllocChunk(start, n);
      LinkChunk(start, prev, n, old(shHeap));
      p := start + HEADER_SIZE;
    }

    /** The stores with which kmalloc() puts a header behind the last chunk. */
    method LinkChunk(start: nat, prev: nat, n: nat, ghost heap: nat)
      requires HeapAt(headers, heap, chunks) && start == End(chunks) && n >= HEADER_SIZE
      requires prev == if chunks == [] then NULL else At(chunks, |chunks| - 1)
      modifies this`headers, this`chunks
      ensures HeapAt(headers, HEAP_START, chunks) && chunks == old(chunks) + [Chunk(true, n)]
      ensures Confined(old(headers), headers, old(chunks))
    {
      hide HeapAt, At, Confined, Boundary;
      AtEnd(chunks);
      AtBoundary(chunks, |chunks|);
      if chunks != [] { AtBoundary(chunks, |chunks| - 1); }
      AppendLinks(headers, heap, chunks, Chunk(true, n));
      headers := headers[start := Header(NULL, prev, true, n)];
      headers := headers[prev := headers[prev].(next := start)];
      StoresConfined(old(headers), headers, chunks, start, prev);
      chunks := chunks + [Chunk(true, n)];
    }
  }
}
