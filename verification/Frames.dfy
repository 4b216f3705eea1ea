/**
 The frame allocator of pmm.c as bookkeeping: a stack of free frames whose storage is
 itself made of freed frames, and a mark above which frames were never handed out.
 Pmm.dfy runs the same steps through the page tables.
 */
module Frames {
  import opened Common
  import opened Paging

  const MARGIN: nat := 0x1_0000
  const KERNEL_START: nat := 0x10_0000
  const LOW_END: nat := 0x2_0000
  const PER_FRAME: nat := 1024

  /**
   `last` is pm_last_page.  `free` is the stack, its top last; `storage` the frames the
   stack lies in; `held` what callers own; `dropped` what pm_free() refused to take.
   `bumps` counts the allocations above `last`, `peak` is the greatest depth so far.
   */
  datatype Pool = Pool(
    last: nat, free: seq<Frame>, storage: seq<Frame>, held: set<Frame>, dropped: set<Frame>,
    online: bool, freePages: Word, bumps: nat, peak: nat)

  function Address(f: Frame): Word { f * 0x1000 }

  // ----- the steps

  function TakesNew(p: Pool): bool { !p.online || p.free == [] }

  function Alloc(p: Pool): (r: (Pool, Frame))
    requires p.last + 0x1000 < WORDS
  {
    var pages := (p.freePages + WORDS - 1) % WORDS;
    if TakesNew(p) then
      var f: Frame := (p.last + 0x1000) / 0x1000;
      (p.(last := p.last + 0x1000, held := p.held + {f}, freePages := pages, bumps := p.bumps + 1), f)
    else
      var f := p.free[|p.free| - 1];
      (p.(free := p.free[..|p.free| - 1], held := p.held + {f}, freePages := pages), f)
  }

  /** The frames pm_free() turns away. */
  predicate Refused(last: nat, kernelEnd: nat, f: Frame) {
    || Address(f) > (last + WORDS - MARGIN) % WORDS
    || KERNEL_START < Address(f) < kernelEnd
    || Address(f) < LOW_END
  }

  function Free(p: Pool, kernelEnd: nat, f: Frame): Pool {
    var rest := p.held - {f};
    if Refused(p.last, kernelEnd, f) then
      p.(held := rest, dropped := p.dropped + (p.held * {f}))
    else if |p.free| >= PER_FRAME * |p.storage| then
      p.(held := rest, storage := p.storage + [f])
    else
      p.(held := rest, free := p.free + [f], freePages := (p.freePages + 1) % WORDS,
         peak := if |p.free| + 1 > p.peak then |p.free| + 1 else p.peak)
  }

  // ----- the invariant

  /** How many of the four owners frame `f` has. */
  function Owners(p: Pool, f: Frame): nat {
    (if f in p.held then 1 else 0) + (if f in p.free then 1 else 0)
    + (if f in p.storage then 1 else 0) + (if f in p.dropped then 1 else 0)
  }

  predicate Seen(p: Pool, f: Frame) {
    f in p.held || f in p.free || f in p.storage || f in p.dropped
  }

  ghost predicate Ownership(p: Pool) {
    && Distinct(p.free) && Distinct(p.storage)
    && (forall f :: f in p.free ==> f !in p.storage && f !in p.held && f !in p.dropped)
    && (forall f :: f in p.storage ==> f !in p.held && f !in p.dropped)
    && (forall f :: f in p.held ==> f !in p.dropped)
  }

  /** Everything seen lies at or below the mark, so the next frame above it is new. */
  ghost predicate Below(p: Pool) {
    && (forall f: Frame :: Seen(p, f) ==> Address(f) <= p.last)
    && (forall f :: f in p.free ==> Address(f) >= LOW_END)
  }

  ghost predicate Geometry(p: Pool) {
    && |p.free| <= p.peak <= PER_FRAME * |p.storage| <= FRAMES
    && (|p.storage| >= 1 ==> PER_FRAME * (|p.storage| - 1) <= p.peak)
    && p.freePages == (|p.free| - p.bumps) % WORDS
  }

  ghost predicate Inv(p: Pool) {
    Ownership(p) && Below(p) && Geometry(p) && p.last % 0x1000 == 0 && MARGIN <= p.last < WORDS
  }

  /** What a caller may free: a frame it holds, one never seen before, or one that is refused anyway. */
  predicate Freeable(p: Pool, kernelEnd: nat, f: Frame) {
    Refused(p.last, kernelEnd, f) || f in p.held || !Seen(p, f)
  }

  // ----- the stack stays in one 4 MiB window

  /** Distinct frames are at most as many as there are frames. */
  lemma {:induction false} Pigeonhole(q: seq<Frame>, bound: nat)
    requires Distinct(q) && forall f :: f in q ==> f < bound
    ensures |q| <= bound
    decreases bound
  {
    if q == [] { return; }
    assert q[0] in q;
    if k :| 0 <= k < |q| && q[k] == bound - 1 {
      var rest := q[..k] + q[k + 1..];
      assert forall i :: 0 <= i < |rest| ==> rest[i] == q[if i < k then i else i + 1];
      assert forall f :: f in rest ==> f in q && f != bound - 1;
      Pigeonhole(rest, bound - 1);
    } else {
      assert forall f :: f in q ==> f != bound - 1;
      Pigeonhole(q, bound - 1);
    }
  }

  /** Whenever the stack is full it has room in the window for one more frame of storage. */
  lemma StackFitsWindow(p: Pool)
    requires Inv(p)
    ensures |p.free| + |p.storage| <= FRAMES && |p.free| < FRAMES && |p.free| <= PER_FRAME * |p.storage|
    ensures |p.free| >= PER_FRAME * |p.storage| ==> |p.storage| < 1024
  {
    var q := p.free + p.storage;
    assert Distinct(q) by {
      forall i, j | 0 <= i < j < |q| ensures q[i] != q[j] {
        if i < |p.free| <= j { assert q[i] in p.free && q[j] in p.storage; }
      }
    }
    Pigeonhole(q, FRAMES);
  }

  // ----- what every step keeps

  /** A handed-out frame had no owner but the free stack, and now has exactly one. */
  lemma AllocInv(p: Pool)
    requires Inv(p) && p.last + 0x1000 < WORDS
    ensures var (r, f) := Alloc(p);
      && Inv(r) && f in r.held && f !in p.held && f !in p.storage && f !in p.dropped
      && (TakesNew(p) ==> !Seen(p, f) && Address(f) == p.last + 0x1000)
      && (!TakesNew(p) ==> f in p.free)
      && (forall g: Frame :: Seen(r, g) <==> Seen(p, g) || g == f)
      && Address(f) > 0
  {
    hide Ownership, Below, Geometry;
    AllocOwnership(p);
    AllocGeometry(p);
  }

  lemma AllocOwnership(p: Pool)
    requires Ownership(p) && Below(p) && p.last % 0x1000 == 0 && p.last + 0x1000 < WORDS
    ensures var (r, f) := Alloc(p);
      && Ownership(r) && Below(r) && f in r.held && f !in p.held && f !in p.storage && f !in p.dropped
      && (TakesNew(p) ==> !Seen(p, f) && Address(f) == p.last + 0x1000)
      && (!TakesNew(p) ==> f in p.free)
      && (forall g: Frame :: Seen(r, g) <==> Seen(p, g) || g == f)
      && Address(f) > 0
  {
    if TakesNew(p) {
      assert Address(Alloc(p).1) == p.last + 0x1000;
    } else {
      PopOwnership(p);
    }
  }

  lemma PopOwnership(p: Pool)
    requires Ownership(p) && Below(p) && p.last + 0x1000 < WORDS && !TakesNew(p)
    ensures var (r, f) := Alloc(p);
      && Ownership(r) && Below(r) && f in p.free
      && (forall g: Frame :: Seen(r, g) <==> Seen(p, g))
  {
    var (r, f) := Alloc(p);
    assert p.free == r.free + [f];
    forall g ensures g in p.free <==> g in r.free || g == f {}
  }

  lemma AllocGeometry(p: Pool)
    requires Geometry(p) && p.last + 0x1000 < WORDS
    ensures Geometry(Alloc(p).0)
  {
    CountDown(|p.free| - p.bumps);
  }

  /** Counting modulo 2^32, down and up. */
  lemma CountDown(n: int)
    ensures (n % WORDS + WORDS - 1) % WORDS == (n - 1) % WORDS
  {}

  lemma CountUp(n: int)
    ensures (n % WORDS + 1) % WORDS == (n + 1) % WORDS
  {}

  lemma AllocMark(p: Pool)
    requires p.last + 0x1000 < WORDS
    ensures Alloc(p).0.last <= p.last + 0x1000 && Alloc(p).0.online == p.online
  {}

  lemma FreeOwnership(p: Pool, kernelEnd: nat, f: Frame)
    requires Ownership(p) && Freeable(p, kernelEnd, f)
    ensures var r := Free(p, kernelEnd, f);
      && Ownership(r) && f !in r.held
      && (forall g: Frame :: g != f ==> (Seen(r, g) <==> Seen(p, g)))
      && (!Refused(p.last, kernelEnd, f) ==> f in r.free || f in r.storage)
  {
    var r := Free(p, kernelEnd, f);
    assert forall g :: g in p.free + [f] <==> g in p.free || g == f;
    assert forall g :: g in p.storage + [f] <==> g in p.storage || g == f;
  }

  lemma FreeInv(p: Pool, kernelEnd: nat, f: Frame)
    requires Inv(p) && Freeable(p, kernelEnd, f)
    ensures var r := Free(p, kernelEnd, f);
      && Inv(r) && f !in r.held
      && (forall g: Frame :: g != f ==> (Seen(r, g) <==> Seen(p, g)))
      && (!Refused(p.last, kernelEnd, f) ==> f in r.free || f in r.storage)
  {
    hide Ownership, Geometry;
    FreeOwnership(p, kernelEnd, f);
    FreeGeometry(p, kernelEnd, f);
  }

  lemma FreeGeometry(p: Pool, kernelEnd: nat, f: Frame)
    requires Inv(p)
    ensures Geometry(Free(p, kernelEnd, f))
  {
    hide Ownership, Below, Refused;
    StackFitsWindow(p);
    CountUp(|p.free| - p.bumps);
  }

  // ----- runs

  datatype Op = AllocOp | FreeOp(frame: Frame)

  predicate Allowed(p: Pool, kernelEnd: nat, op: Op) {
    match op
    case AllocOp => p.last + 0x1000 < WORDS
    case FreeOp(f) => Freeable(p, kernelEnd, f)
  }

  function Apply(p: Pool, kernelEnd: nat, op: Op): Pool
    requires Allowed(p, kernelEnd, op)
  {
    match op
    case AllocOp => Alloc(p).0
    case FreeOp(f) => Free(p, kernelEnd, f)
  }

  ghost predicate Runs(p: Pool, kernelEnd: nat, ops: seq<Op>, r: Pool)
    decreases |ops|
  {
    if ops == [] then r == p else Allowed(p, kernelEnd, ops[0]) && Runs(Apply(p, kernelEnd, ops[0]), kernelEnd, ops[1..], r)
  }

  lemma {:induction false} RunInv(p: Pool, kernelEnd: nat, ops: seq<Op>, r: Pool)
    requires Inv(p) && Runs(p, kernelEnd, ops, r)
    ensures Inv(r)
    ensures forall f: Frame :: Seen(p, f) ==> Seen(r, f)
    ensures p.storage <= r.storage && p.dropped <= r.dropped && p.last <= r.last
    decreases |ops|
  {
    if ops != [] {
      var q := Apply(p, kernelEnd, ops[0]);
      match ops[0] {
        case AllocOp => AllocInv(p);
        case FreeOp(f) => FreeInv(p, kernelEnd, f);
      }
      RunInv(q, kernelEnd, ops[1..], r);
    }
  }

  /** In every run no frame has two owners, and no frame ever seen is lost. */
  lemma EveryRunOneOwner(p: Pool, kernelEnd: nat, ops: seq<Op>, r: Pool, f: Frame)
    requires Inv(p) && Runs(p, kernelEnd, ops, r)
    ensures Owners(r, f) == if Seen(r, f) then 1 else 0
    ensures Seen(p, f) ==> Seen(r, f)
  {
    RunInv(p, kernelEnd, ops, r);
  }

  /** A frame that became stack storage, or was refused, is never handed out again. */
  lemma EveryRunKeepsStorage(p: Pool, kernelEnd: nat, ops: seq<Op>, r: Pool, f: Frame)
    requires Inv(p) && Runs(p, kernelEnd, ops, r) && (f in p.storage || f in p.dropped)
    ensures f !in r.held && f !in r.free
  {
    RunInv(p, kernelEnd, ops, r);
  }

  /** Freeing onto the stack and allocating again gives the same frame back, and the same pool. */
  lemma FreeThenAlloc(p: Pool, kernelEnd: nat, f: Frame)
    requires Inv(p) && p.online && f in p.held && p.last + 0x1000 < WORDS
    requires !Refused(p.last, kernelEnd, f) && |p.free| < PER_FRAME * |p.storage|
    ensures Alloc(Free(p, kernelEnd, f)) == (p.(peak := Free(p, kernelEnd, f).peak), f)
  {
    var r := Free(p, kernelEnd, f);
    assert r.free[..|p.free|] == p.free;
    assert r.held + {f} == p.held;
  }

  /**
   pm_free() in numbers: from 0x20000 up to 64 KiB below the mark, but for what lies strictly
   above 1 MiB and below the kernel's end, a frame goes to the stack or becomes its storage;
   any other is dropped.
   */
  lemma FreeTakes(p: Pool, kernelEnd: nat, f: Frame)
    requires 0x1_0000 <= p.last < 0x1_0000_0000
    ensures var a, r, rest := f * 0x1000, Free(p, kernelEnd, f), p.held - {f};
      if 0x2_0000 <= a <= p.last - 0x1_0000 && (a <= 0x10_0000 || kernelEnd <= a) then
        if |p.free| < 1024 * |p.storage| then
          r == p.(held := rest, free := p.free + [f], freePages := (p.freePages + 1) % 0x1_0000_0000,
                  peak := if p.peak <= |p.free| then |p.free| + 1 else p.peak)
        else r == p.(held := rest, storage := p.storage + [f])
      else r == p.(held := rest, dropped := p.dropped + p.held * {f})
  {
    WithinMargin(p.last);
  }

  lemma WithinMargin(last: nat)
    requires 0x1_0000 <= last < 0x1_0000_0000
    ensures (last + WORDS - MARGIN) % WORDS == last - 0x1_0000
  {}

  /** The same as a condition on the address. */
  lemma RefusedIff(last: nat, kernelEnd: nat, f: Frame)
    requires 0x1_0000 <= last < 0x1_0000_0000
    ensures !Refused(last, kernelEnd, f) <==>
      0x2_0000 <= f * 0x1000 <= last - 0x1_0000 && (f * 0x1000 <= 0x10_0000 || kernelEnd <= f * 0x1000)
  {
    WithinMargin(last);
  }

  /**
   The lower bound on kernel frames is strict, so of the frames the kernel occupies
   exactly its first one, at 1 MiB, gets past the test.
   */
  lemma FirstKernelFrameNotRefused(last: nat, kernelEnd: nat, f: Frame)
    requires 0x11_0000 <= last < WORDS && KERNEL_START < kernelEnd && KERNEL_START <= Address(f) < kernelEnd
    requires Address(f) + MARGIN <= last
    ensures !Refused(last, kernelEnd, f) <==> f == 0x100
  {}

  // ----- filling the stack at boot

  const MAX_RAM_PAGES: nat := 0xA_0000

  /** pm_last_page as mm_init() sets it from the boot loader's mem_upper, in KiB. */
  function FirstMark(memUpper: Word): (r: Word)
  {
    (memUpper * 1024 % WORDS + 0x1000) % WORDS / 0x1000 * 0x1000
  }

  /** kernel_seg_end_page from the address the linker gives `end`. */
  function KernelEnd(end: Word): (r: Word)
  {
    ((end + 0x4000_0000) % WORDS + 0x10_0000) % WORDS / 0x1000 * 0x1000
  }

  /** Below 4 GiB the mark is the page behind memory's last whole one; the kernel's end lies 1 MiB behind its last page. */
  lemma BootMarks(memUpper: nat, end: nat)
    requires memUpper < 0x3F_FFFC && 0xC000_0000 <= end < 0xFFF0_0000
    ensures FirstMark(memUpper) == (memUpper / 4 + 1) * 0x1000
    ensures KernelEnd(end) == ((end - 0xC000_0000) / 0x1000 + 0x100) * 0x1000
  {
    KibPages(memUpper);
  }

  lemma KibPages(k: nat)
    ensures (k * 1024 + 0x1000) / 0x1000 == k / 4 + 1
  {}

  /** An entry of the boot loader's memory map. */
  datatype Region = Region(usable: bool, base: nat, length: nat)

  predicate Covers(r: Region, f: Frame) {
    r.usable && r.base <= Address(f) < r.base + r.length
  }

  /** Usable regions are whole frames, end below the last one of the address space and do not overlap. */
  predicate RegionsOk(rs: seq<Region>) {
    && (forall k :: 0 <= k < |rs| && rs[k].usable ==>
      rs[k].base % 0x1000 == 0 && rs[k].length % 0x1000 == 0 && rs[k].base + rs[k].length <= WORDS - 0x1000)
    && (forall i, k :: 0 <= i < k < |rs| && rs[i].usable && rs[k].usable ==>
      rs[i].base + rs[i].length <= rs[k].base || rs[k].base + rs[k].length <= rs[i].base)
  }

  predicate Offered(rs: seq<Region>, f: Frame) {
    exists k :: 0 <= k < |rs| && Covers(rs[k], f)
  }

  /** Frames of regions before `e`, and those of region `e` below `j`. */
  predicate OfferedBefore(rs: seq<Region>, e: nat, j: nat, f: Frame)
    requires e <= |rs|
  {
    (exists k :: 0 <= k < e && Covers(rs[k], f)) || (e < |rs| && Covers(rs[e], f) && Address(f) < j)
  }

  lemma OfferedAll(rs: seq<Region>)
    ensures forall f: Frame :: OfferedBefore(rs, |rs|, 0, f) <==> Offered(rs, f)
  {}

  function Pages(r: Region): nat { if r.usable then r.length / 0x1000 else 0 }

  function TotalPages(rs: seq<Region>): nat {
    if rs == [] then 0 else TotalPages(rs[..|rs| - 1]) + Pages(rs[|rs| - 1])
  }

  lemma TotalNext(rs: seq<Region>, e: nat)
    requires e < |rs|
    ensures TotalPages(rs[..e + 1]) == TotalPages(rs[..e]) + Pages(rs[e])
  {
    assert rs[..e + 1][..e] == rs[..e];
  }

  /** The loops of mm_init() count every usable page and pass over it from the 0xA0000-th on. */
  predicate Counted(rs: seq<Region>, f: Frame) {
    exists k :: 0 <= k < |rs| && Covers(rs[k], f) && PageNumber(rs, k, f) < 0xA_0000
  }

  /** The number of a frame of region k among the usable pages, counted from 1. */
  function PageNumber(rs: seq<Region>, k: nat, f: Frame): int
    requires k < |rs|
  {
    TotalPages(rs[..k]) + (Address(f) - rs[k].base) / 0x1000 + 1
  }

  lemma CountedIs(rs: seq<Region>, e: nat, f: Frame)
    requires RegionsOk(rs) && e < |rs| && Covers(rs[e], f)
    ensures Counted(rs, f) <==> PageNumber(rs, e, f) < 0xA_0000
  {
    hide PageNumber;
    OneRegion(rs, e, f);
  }

  /** Regions do not overlap. */
  lemma OneRegion(rs: seq<Region>, e: nat, f: Frame)
    requires RegionsOk(rs) && e < |rs| && Covers(rs[e], f)
    ensures forall k :: 0 <= k < |rs| && Covers(rs[k], f) ==> k == e
  {}

  /** In a machine whose whole memory is one region from 0 on, exactly the first 0x9FFFF frames are offered to pm_free(). */
  lemma OneRegionLimit(length: nat, f: Frame)
    requires length % 0x1000 == 0 && length <= 0xFFFF_F000 && f * 0x1000 < length
    ensures RegionsOk([Region(true, 0, length)]) && (Counted([Region(true, 0, length)], f) <==> f + 1 < 655360)
  {
    var rs := [Region(true, 0, length)];
    assert rs[..0] == [] && Covers(rs[0], f);
    CountedIs(rs, 0, f);
  }

  ghost predicate Taken(p: Pool, f: Frame) { f in p.free || f in p.storage }

  /** Fill state: on the stack is exactly what was offered within the count and not refused. */
  ghost predicate Filling(p: Pool, kernelEnd: nat, rs: seq<Region>, e: nat, j: nat) {
    && Inv(p) && RegionsOk(rs) && e <= |rs|
    && (forall f: Frame :: Taken(p, f) <==> OfferedBefore(rs, e, j, f) && Counted(rs, f) && !Refused(p.last, kernelEnd, f))
    && (forall f: Frame :: Seen(p, f) && !Taken(p, f) ==> Refused(p.last, kernelEnd, f))
  }

  lemma OfferedStep(rs: seq<Region>, e: nat, j: nat, f: Frame, g: Frame)
    requires RegionsOk(rs) && e < |rs| && Covers(rs[e], f) && Address(f) == j
    ensures !OfferedBefore(rs, e, j, f)
    ensures OfferedBefore(rs, e, j + 0x1000, g) <==> g == f || OfferedBefore(rs, e, j, g)
  {}

  /** One frame of the fill loop. */
  lemma FillFree(p: Pool, kernelEnd: nat, rs: seq<Region>, e: nat, j: nat, f: Frame)
    requires Filling(p, kernelEnd, rs, e, j) && e < |rs| && Covers(rs[e], f) && Address(f) == j
    requires PageNumber(rs, e, f) < 0xA_0000
    ensures Freeable(p, kernelEnd, f)
    ensures Filling(Free(p, kernelEnd, f), kernelEnd, rs, e, j + 0x1000)
  {
    hide Counted, PageNumber, Refused, OfferedBefore, RegionsOk;
    CountedIs(rs, e, f);
    OfferedStep(rs, e, j, f, f);
    FreeInv(p, kernelEnd, f);
    FreeTaken(p, kernelEnd, f);
    forall g: Frame ensures OfferedBefore(rs, e, j + 0x1000, g) <==> g == f || OfferedBefore(rs, e, j, g) {
      OfferedStep(rs, e, j, f, g);
    }
  }

  lemma FreeTaken(p: Pool, kernelEnd: nat, f: Frame)
    ensures var r := Free(p, kernelEnd, f);
      && r.last == p.last
      && forall g: Frame :: Taken(r, g) <==> Taken(p, g) || (g == f && !Refused(p.last, kernelEnd, f))
    ensures forall g: Frame :: Seen(Free(p, kernelEnd, f), g) ==> Seen(p, g) || (g == f && !Refused(p.last, kernelEnd, f))
  {
    assert forall g :: g in p.free + [f] <==> g in p.free || g == f;
    assert forall g :: g in p.storage + [f] <==> g in p.storage || g == f;
  }

  /** A frame beyond the page limit is passed over. */
  lemma FillSkip(p: Pool, kernelEnd: nat, rs: seq<Region>, e: nat, j: nat, f: Frame)
    requires Filling(p, kernelEnd, rs, e, j) && e < |rs| && Covers(rs[e], f) && Address(f) == j
    requires PageNumber(rs, e, f) >= 0xA_0000
    ensures Filling(p, kernelEnd, rs, e, j + 0x1000)
  {
    hide Counted, PageNumber, Refused, OfferedBefore, RegionsOk;
    CountedIs(rs, e, f);
    forall g: Frame ensures OfferedBefore(rs, e, j + 0x1000, g) <==> g == f || OfferedBefore(rs, e, j, g) {
      OfferedStep(rs, e, j, f, g);
    }
  }

  lemma FillNext(p: Pool, kernelEnd: nat, rs: seq<Region>, e: nat, j: nat, j': nat)
    requires Filling(p, kernelEnd, rs, e, j) && e < |rs| && (rs[e].usable ==> j >= rs[e].base + rs[e].length)
    requires e + 1 < |rs| ==> j' == rs[e + 1].base
    ensures Filling(p, kernelEnd, rs, e + 1, j')
  {
    hide Counted, Refused;
    forall g: Frame ensures OfferedBefore(rs, e, j, g) <==> OfferedBefore(rs, e + 1, j', g) {}
  }

  /** The two frames mm_init() takes before the fill lie above everything pm_free() accepts. */
  lemma FillStart(mark: nat, kernelEnd: nat, rs: seq<Region>, j: nat)
    requires RegionsOk(rs) && mark % 0x1000 == 0 && MARGIN <= mark && mark + 0x2000 < WORDS
    requires rs != [] ==> j == rs[0].base
    ensures var p := Alloc(Alloc(FirstPool(mark)).0).0.(freePages := 0, bumps := 0);
      && p.last == mark + 0x2000 && Filling(p, kernelEnd, rs, 0, j)
      && p.free == [] && p.storage == [] && !p.online
  {
    var f: Frame, g: Frame := mark / 0x1000 + 1, mark / 0x1000 + 2;
    assert Alloc(Alloc(FirstPool(mark)).0).0.held == {f, g};
  }

  /** Nothing seen, nothing free. */
  function FirstPool(mark: nat): (p: Pool)
  {
    Pool(mark, [], [], {}, {}, false, 0, 0, 0)
  }
}
