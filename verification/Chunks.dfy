/**
 The kernel heap of pmm.c as a row of chunks that tile it from its start, and what
 kmalloc() and kfree() do to the row.  The blocks callers hold are the allocated chunks.
 */
module Chunks {
  const HEAP_START: nat := 0xC040_0000
  const HEADER_SIZE: nat := 12
  const PAGE: nat := 0x1000

  datatype Chunk = Chunk(used: bool, length: nat)

  function Size(cs: seq<Chunk>): nat {
    if cs == [] then 0 else cs[0].length + Size(cs[1..])
  }

  /** Address of the k-th chunk; of the end of the heap for k == |cs|. */
  function At(cs: seq<Chunk>, k: nat): nat
    requires k <= |cs|
  {
    HEAP_START + Size(cs[..k])
  }

  function End(cs: seq<Chunk>): nat { HEAP_START + Size(cs) }

  lemma {:induction false} SizeAppend(a: seq<Chunk>, b: seq<Chunk>)
    ensures Size(a + b) == Size(a) + Size(b)
  {
    if a == [] { assert a + b == b; } else {
      assert (a + b)[1..] == a[1..] + b;
      SizeAppend(a[1..], b);
    }
  }

  lemma AtNext(cs: seq<Chunk>, k: nat)
    requires k < |cs|
    ensures At(cs, k + 1) == At(cs, k) + cs[k].length
  {
    assert cs[..k + 1] == cs[..k] + [cs[k]];
    SizeAppend(cs[..k], [cs[k]]);
  }

  lemma {:induction false} AtMonotone(cs: seq<Chunk>, i: nat, k: nat)
    requires i <= k <= |cs|
    ensures At(cs, i) <= At(cs, k)
    ensures i < k ==> At(cs, i) + cs[i].length <= At(cs, k)
    decreases k
  {
    if i < k { AtNext(cs, k - 1); AtMonotone(cs, i, k - 1); }
  }

  lemma AtEnd(cs: seq<Chunk>)
    ensures At(cs, |cs|) == End(cs)
  {
    assert cs[..|cs|] == cs;
  }

  // ----- well-formed rows

  /** Every chunk has room for its header. */
  ghost predicate Roomy(cs: seq<Chunk>) {
    forall k :: 0 <= k < |cs| ==> cs[k].length >= HEADER_SIZE
  }

  /** Every chunk has room for its header, no two neighbours are free, and the last chunk is in use. */
  ghost predicate Tidy(cs: seq<Chunk>) {
    && Roomy(cs)
    && (forall k :: 0 <= k < |cs| - 1 ==> cs[k].used || cs[k + 1].used)
    && (cs != [] ==> cs[|cs| - 1].used)
  }

  /** The blocks in use: address of the chunk and its length. */
  function BlocksFrom(base: nat, cs: seq<Chunk>): map<nat, nat>
    decreases |cs|
  {
    if cs == [] then map[]
    else
      var rest := BlocksFrom(base + cs[0].length, cs[1..]);
      if cs[0].used then rest[base := cs[0].length] else rest
  }

  function Blocks(cs: seq<Chunk>): map<nat, nat> { BlocksFrom(HEAP_START, cs) }

  lemma {:induction false} BlocksIn(base: nat, cs: seq<Chunk>)
    requires Roomy(cs)
    ensures forall a :: a in BlocksFrom(base, cs) ==>
      base <= a && BlocksFrom(base, cs)[a] >= HEADER_SIZE && a + BlocksFrom(base, cs)[a] <= base + Size(cs)
    decreases |cs|
  {
    if cs != [] { BlocksIn(base + cs[0].length, cs[1..]); }
  }

  lemma {:induction false} BlocksAppend(base: nat, a: seq<Chunk>, b: seq<Chunk>)
    requires Roomy(a) && Roomy(b)
    ensures BlocksFrom(base, a + b) == BlocksFrom(base, a) + BlocksFrom(base + Size(a), b)
    decreases |a|
  {
    if a == [] { assert a + b == b; } else {
      assert (a + b)[1..] == a[1..] + b;
      BlocksAppend(base + a[0].length, a[1..], b);
      BlocksIn(base + Size(a), b);
      BlocksIn(base + a[0].length, a[1..]);
    }
  }

  /** Two blocks in use do not overlap. */
  lemma {:induction false} BlocksDisjoint(base: nat, cs: seq<Chunk>, a: nat, b: nat)
    requires Roomy(cs)
    requires a in BlocksFrom(base, cs) && b in BlocksFrom(base, cs) && a < b
    ensures a + BlocksFrom(base, cs)[a] <= b
    decreases |cs|
  {
    BlocksIn(base + cs[0].length, cs[1..]);
    if a != base || !cs[0].used { BlocksDisjoint(base + cs[0].length, cs[1..], a, b); }
  }

  // ----- kmalloc() and kfree()

  /** The first free chunk of at least `n` bytes, or |cs|. */
  function FirstFit(cs: seq<Chunk>, n: nat): (k: nat)
    ensures k <= |cs|
    ensures k < |cs| ==> !cs[k].used && cs[k].length >= n
    ensures forall i :: 0 <= i < k ==> cs[i].used || cs[i].length < n
  {
    if cs == [] || (!cs[0].used && cs[0].length >= n) then 0 else 1 + FirstFit(cs[1..], n)
  }

  lemma FirstFitIs(cs: seq<Chunk>, n: nat, k: nat)
    requires k <= |cs| && (k < |cs| ==> !cs[k].used && cs[k].length >= n)
    requires forall i :: 0 <= i < k ==> cs[i].used || cs[i].length < n
    ensures FirstFit(cs, n) == k
  {}

  /** The guard of split_chunk(): more is left over than a header takes. */
  predicate Splits(cs: seq<Chunk>, n: nat) {
    var k := FirstFit(cs, n);
    k < |cs| && cs[k].length - n > HEADER_SIZE
  }

  function Malloc(cs: seq<Chunk>, n: nat): (r: seq<Chunk>)
    ensures FirstFit(cs, n) < |r|
  {
    var k := FirstFit(cs, n);
    if k < |cs| then cs[k := Chunk(true, cs[k].length)] else cs + [Chunk(true, n)]
  }

  /** The free neighbours of chunk k, with it. */
  function Low(cs: seq<Chunk>, k: nat): nat
    requires k < |cs|
  {
    if k > 0 && !cs[k - 1].used then k - 1 else k
  }

  function High(cs: seq<Chunk>, k: nat): (h: nat)
    requires k < |cs|
    ensures k < h <= |cs|
  {
    if k + 1 < |cs| && !cs[k + 1].used then k + 2 else k + 1
  }

  /** Chunk k and its free neighbours become one free chunk, or leave the heap if they end it. */
  function Release(cs: seq<Chunk>, k: nat): seq<Chunk>
    requires k < |cs|
  {
    var lo, hi := Low(cs, k), High(cs, k);
    cs[..lo] + (if hi == |cs| then [] else [Chunk(false, Size(cs[lo..hi]))]) + cs[hi..]
  }

  lemma MallocTidy(cs: seq<Chunk>, n: nat)
    requires Tidy(cs) && n >= HEADER_SIZE
    ensures Tidy(Malloc(cs, n))
  {}

  lemma ReleaseTidy(cs: seq<Chunk>, k: nat)
    requires Tidy(cs) && k < |cs|
    ensures Tidy(Release(cs, k))
  {
    hide Size;
    var lo, hi := Low(cs, k), High(cs, k);
    assert hi < |cs| ==> cs[hi].used;
    assert lo > 0 ==> cs[lo - 1].used;
    FirstLength(cs, lo, hi);
    if hi == |cs| { PrefixTidy(cs, lo); } else { ReplacedTidy(cs, lo, hi, Chunk(false, Size(cs[lo..hi]))); }
  }

  lemma FirstLength(cs: seq<Chunk>, lo: nat, hi: nat)
    requires lo < hi <= |cs|
    ensures Size(cs[lo..hi]) == cs[lo].length + Size(cs[lo + 1..hi])
    ensures Size(cs[hi..hi]) == 0
  {
    assert cs[lo..hi][1..] == cs[lo + 1..hi];
  }

  lemma PrefixTidy(cs: seq<Chunk>, n: nat)
    requires Tidy(cs) && n <= |cs| && (n > 0 ==> cs[n - 1].used)
    ensures Tidy(cs[..n] + [] + cs[|cs|..])
  {
    assert cs[..n] + [] + cs[|cs|..] == cs[..n];
  }

  /** Chunks between used ones replaced by one free chunk. */
  lemma ReplacedTidy(cs: seq<Chunk>, lo: nat, hi: nat, c: Chunk)
    requires Tidy(cs) && lo < hi < |cs| && cs[hi].used && (lo > 0 ==> cs[lo - 1].used) && c.length >= HEADER_SIZE
    ensures Tidy(cs[..lo] + [c] + cs[hi..])
  {
    var r := cs[..lo] + [c] + cs[hi..];
    assert r[|r| - 1] == cs[|cs| - 1];
    forall i | 0 <= i < |r| ensures r[i].length >= HEADER_SIZE {
      if i > lo { assert r[i] == cs[i + hi - lo - 1]; }
    }
    forall i | 0 <= i < |r| - 1 ensures r[i].used || r[i + 1].used {
      if i + 1 < lo {
        assert r[i] == cs[i] && r[i + 1] == cs[i + 1];
      } else if i + 1 == lo {
        assert r[i] == cs[lo - 1];
      } else if i == lo {
        assert r[i + 1] == cs[hi];
      } else {
        var j := i + hi - lo - 1;
        assert r[i] == cs[j] && r[i + 1] == cs[j + 1];
      }
    }
  }

  /** kmalloc() adds one block of sufficient size where none was, and touches no other block. */
  lemma MallocBlocks(cs: seq<Chunk>, n: nat)
    requires Tidy(cs) && n >= HEADER_SIZE
    ensures var k := FirstFit(cs, n);
      var a, size := At(cs, k), Malloc(cs, n)[k].length;
      a !in Blocks(cs) && Blocks(Malloc(cs, n)) == Blocks(cs)[a := size] && size >= n
  {
    hide BlocksFrom, Size, FirstFit, Roomy, Tidy, FitPart, RestPart, Malloc;
    var k := FirstFit(cs, n);
    var c := Malloc(cs, n)[k];
    var a, s, b := cs[..k], FitPart(cs, n), RestPart(cs, n);
    MallocParts(cs, n);
    MallocRows(cs, n);
    AddSegment(a, s, b, c);
    assert Blocks(cs) == BlocksFrom(HEAP_START, a + (s + b));
    assert Blocks(Malloc(cs, n)) == BlocksFrom(HEAP_START, a + ([c] + b));
  }

  /** The chunk kmalloc() takes, if it takes one, and what lies behind it. */
  function FitPart(cs: seq<Chunk>, n: nat): seq<Chunk> {
    var k := FirstFit(cs, n);
    if k < |cs| then [cs[k]] else []
  }

  function RestPart(cs: seq<Chunk>, n: nat): seq<Chunk> {
    var k := FirstFit(cs, n);
    if k < |cs| then cs[k + 1..] else []
  }

  lemma MallocRows(cs: seq<Chunk>, n: nat)
    ensures var k := FirstFit(cs, n);
      var s, b := FitPart(cs, n), RestPart(cs, n);
      cs == cs[..k] + (s + b) && Malloc(cs, n) == cs[..k] + ([Malloc(cs, n)[k]] + b)
  {
    hide FirstFit;
    var k := FirstFit(cs, n);
    if k < |cs| {
      AroundChunk(cs, k, Chunk(true, cs[k].length));
    } else {
      assert cs == cs[..k] + ([] + []);
      assert Malloc(cs, n) == cs[..k] + ([Chunk(true, n)] + []);
    }
  }

  lemma MallocParts(cs: seq<Chunk>, n: nat)
    requires Tidy(cs) && n >= HEADER_SIZE
    ensures var k := FirstFit(cs, n);
      var c, s, b := Malloc(cs, n)[k], FitPart(cs, n), RestPart(cs, n);
      && Roomy(cs[..k]) && Roomy(s) && Roomy(b) && Roomy([c]) && c.used && c.length >= n
      && (forall i :: 0 <= i < |s| ==> !s[i].used) && (b == [] || Size(s) == c.length)
  {
    hide Size, FirstFit;
    var k := FirstFit(cs, n);
    if k < |cs| { OneChunk(cs[k]); }
  }

  lemma AroundChunk(cs: seq<Chunk>, k: nat, c: Chunk)
    requires k < |cs|
    ensures cs == cs[..k] + ([cs[k]] + cs[k + 1..])
    ensures cs[k := c] == cs[..k] + ([c] + cs[k + 1..])
  {}

  lemma SingleBlock(base: nat, c: Chunk)
    requires c.used
    ensures BlocksFrom(base, [c]) == map[base := c.length] && Size([c]) == c.length
  {}

  lemma OneChunk(c: Chunk)
    ensures Size([c]) == c.length
  {}

  /** Free chunks `s` between `a` and `b` replaced by the used chunk `c`. */
  lemma AddSegment(a: seq<Chunk>, s: seq<Chunk>, b: seq<Chunk>, c: Chunk)
    requires Roomy(a) && Roomy(s) && Roomy(b) && Roomy([c]) && c.used && c.length >= HEADER_SIZE
    requires (forall k :: 0 <= k < |s| ==> !s[k].used) && (b == [] || Size(s) == c.length)
    ensures var x := HEAP_START + Size(a);
      && x !in BlocksFrom(HEAP_START, a + (s + b))
      && BlocksFrom(HEAP_START, a + ([c] + b)) == BlocksFrom(HEAP_START, a + (s + b))[x := c.length]
  {
    hide BlocksFrom, Size, Roomy;
    var x := HEAP_START + Size(a);
    ThreeParts(a, s, b);
    ThreeParts(a, [c], b);
    FreeBlocks(x, s);
    SingleBlock(x, c);
    if b == [] { NoBlocks(x + Size(s)); NoBlocks(x + c.length); }
    BlocksIn(HEAP_START, a);
    BlocksIn(x + c.length, b);
    var used, rest := BlocksFrom(HEAP_START, a), BlocksFrom(x + c.length, b);
    assert BlocksFrom(HEAP_START, a + (s + b)) == used + (map[] + rest);
    assert BlocksFrom(HEAP_START, a + ([c] + b)) == used + (map[x := c.length] + rest);
    Overlay(used, rest, x, c.length);
  }

  lemma ThreeParts(a: seq<Chunk>, s: seq<Chunk>, b: seq<Chunk>)
    requires Roomy(a) && Roomy(s) && Roomy(b)
    ensures var x := HEAP_START + Size(a);
      BlocksFrom(HEAP_START, a + (s + b)) == BlocksFrom(HEAP_START, a) + (BlocksFrom(x, s) + BlocksFrom(x + Size(s), b))
  {
    hide BlocksFrom, Size;
    BlocksAppend(HEAP_START, a, s + b);
    BlocksAppend(HEAP_START + Size(a), s, b);
  }

  lemma HeadBlocks(base: nat, c: Chunk, rest: seq<Chunk>)
    ensures BlocksFrom(base, [c] + rest) ==
      if c.used then BlocksFrom(base + c.length, rest)[base := c.length] else BlocksFrom(base + c.length, rest)
  {
    assert ([c] + rest)[1..] == rest;
  }

  lemma NoBlocks(base: nat)
    ensures BlocksFrom(base, []) == map[]
  {}

  lemma Overlay(a: map<nat, nat>, b: map<nat, nat>, x: nat, n: nat)
    requires x !in a && x !in b
    ensures a + (map[x := n] + b) == (a + (map[] + b))[x := n] && x !in a + (map[] + b)
  {}

  lemma Removal(a: map<nat, nat>, b: map<nat, nat>, x: nat, n: nat)
    requires x !in a && x !in b
    ensures (a + (map[x := n] + b)) - {x} == a + (map[] + b) && x in a + (map[x := n] + b)
  {}

  lemma {:induction false} FreeBlocks(base: nat, cs: seq<Chunk>)
    requires forall k :: 0 <= k < |cs| ==> !cs[k].used
    ensures BlocksFrom(base, cs) == map[]
    decreases |cs|
  {
    if cs != [] { FreeBlocks(base + cs[0].length, cs[1..]); }
  }

  /** kfree() removes exactly its block. */
  lemma ReleaseBlocks(cs: seq<Chunk>, k: nat)
    requires Tidy(cs) && k < |cs| && cs[k].used
    ensures At(cs, k) in Blocks(cs) && Blocks(Release(cs, k)) == Blocks(cs) - {At(cs, k)}
  {
    hide BlocksFrom, Size, Roomy, Tidy;
    var lo, hi := Low(cs, k), High(cs, k);
    var a, s, b := cs[..lo], cs[lo..hi], cs[hi..];
    var s' := if hi == |cs| then [] else [Chunk(false, Size(s))];
    ThreeJoined(cs, lo, hi);
    ThreeGrouped(a, s', b);
    SegmentSize(cs, k);
    SegmentRoomy(cs, k);
    SegmentBlocks(cs, k);
    DropSegment(a, s, s', b, At(cs, k), cs[k].length);
  }

  lemma SegmentRoomy(cs: seq<Chunk>, k: nat)
    requires Tidy(cs) && k < |cs|
    ensures var lo, hi := Low(cs, k), High(cs, k);
      Roomy(cs[..lo]) && Roomy(cs[lo..hi]) && Roomy(cs[hi..]) && Roomy([]) && Roomy([Chunk(false, Size(cs[lo..hi]))])
  {
    hide Size;
    SegmentSize(cs, k);
  }

  lemma ThreeJoined(cs: seq<Chunk>, lo: nat, hi: nat)
    requires lo <= hi <= |cs|
    ensures cs == cs[..lo] + (cs[lo..hi] + cs[hi..]) && cs[..hi] == cs[..lo] + cs[lo..hi]
  {}

  lemma ThreeGrouped(a: seq<Chunk>, b: seq<Chunk>, c: seq<Chunk>)
    ensures a + b + c == a + (b + c)
  {}

  lemma BlocksBelow(base: nat, cs: seq<Chunk>, x: nat)
    requires Roomy(cs) && x >= base + Size(cs)
    ensures x !in BlocksFrom(base, cs)
  {
    BlocksIn(base, cs);
  }

  lemma BlocksAbove(base: nat, cs: seq<Chunk>, x: nat)
    requires Roomy(cs) && x < base
    ensures x !in BlocksFrom(base, cs)
  {
    BlocksIn(base, cs);
  }

  /** Chunks `s`, whose one block is at `x`, replaced by free chunks `s'`. */
  lemma DropSegment(a: seq<Chunk>, s: seq<Chunk>, s': seq<Chunk>, b: seq<Chunk>, x: nat, n: nat)
    requires Roomy(a) && Roomy(s) && Roomy(s') && Roomy(b)
    requires (forall k :: 0 <= k < |s'| ==> !s'[k].used) && (b == [] || Size(s') == Size(s))
    requires var base := HEAP_START + Size(a);
      BlocksFrom(base, s) == map[x := n] && base <= x < base + Size(s)
    ensures x in BlocksFrom(HEAP_START, a + (s + b))
    ensures BlocksFrom(HEAP_START, a + (s' + b)) == BlocksFrom(HEAP_START, a + (s + b)) - {x}
  {
    hide *;
    var base := HEAP_START + Size(a);
    var used, rest := BlocksFrom(HEAP_START, a), BlocksFrom(base + Size(s), b);
    ThreeParts(a, s, b);
    WithoutBlocks(a, s', b);
    SameRest(base + Size(s), base + Size(s'), b);
    BlocksBelow(HEAP_START, a, x);
    BlocksAbove(base + Size(s), b, x);
    Removal(used, rest, x, n);
  }

  lemma WithoutBlocks(a: seq<Chunk>, s: seq<Chunk>, b: seq<Chunk>)
    requires Roomy(a) && Roomy(s) && Roomy(b) && forall k :: 0 <= k < |s| ==> !s[k].used
    ensures BlocksFrom(HEAP_START, a + (s + b)) ==
      BlocksFrom(HEAP_START, a) + (map[] + BlocksFrom(HEAP_START + Size(a) + Size(s), b))
  {
    hide BlocksFrom, Size, Roomy;
    ThreeParts(a, s, b);
    FreeBlocks(HEAP_START + Size(a), s);
  }

  lemma SameRest(x: nat, y: nat, b: seq<Chunk>)
    requires b == [] || x == y
    ensures BlocksFrom(x, b) == BlocksFrom(y, b)
  {}

  lemma SegmentSize(cs: seq<Chunk>, k: nat)
    requires Tidy(cs) && k < |cs|
    ensures var lo, hi := Low(cs, k), High(cs, k);
      && Size(cs[lo..hi]) >= HEADER_SIZE && Size([Chunk(false, Size(cs[lo..hi]))]) == Size(cs[lo..hi])
      && At(cs, lo) <= At(cs, k) < At(cs, lo) + Size(cs[lo..hi]) && At(cs, hi) == At(cs, lo) + Size(cs[lo..hi])
      && (At(cs, k) == At(cs, lo) || lo < k)
      && (forall i :: 0 <= i < hi - lo ==> cs[lo..hi][i].length >= HEADER_SIZE)
  {
    hide Size;
    var lo, hi := Low(cs, k), High(cs, k);
    FirstLength(cs, lo, hi);
    OneChunk(Chunk(false, Size(cs[lo..hi])));
    AtMonotone(cs, lo, k);
    AtMonotone(cs, k, hi);
    ThreeJoined(cs, lo, hi);
    SizeAppend(cs[..lo], cs[lo..hi]);
  }

  /** Of chunk k with its free neighbours only k itself is a block. */
  lemma SegmentBlocks(cs: seq<Chunk>, k: nat)
    requires Tidy(cs) && k < |cs| && cs[k].used
    ensures var lo, hi := Low(cs, k), High(cs, k);
      BlocksFrom(At(cs, lo), cs[lo..hi]) == map[At(cs, k) := cs[k].length]
  {
    hide Size, BlocksFrom, Roomy;
    var lo, hi := Low(cs, k), High(cs, k);
    var before, after := cs[lo..k], cs[k + 1..hi];
    TidyRoomy(cs);
    AroundIn(cs, lo, k, hi);
    SizeAppend(cs[..lo], before);
    OneBlock(At(cs, lo), before, cs[k], after);
  }

  lemma TidyRoomy(cs: seq<Chunk>)
    requires Tidy(cs)
    ensures Roomy(cs)
  {}

  lemma AroundIn(cs: seq<Chunk>, lo: nat, k: nat, hi: nat)
    requires lo <= k < hi <= |cs| && Roomy(cs)
    ensures cs[lo..hi] == cs[lo..k] + ([cs[k]] + cs[k + 1..hi]) && cs[..k] == cs[..lo] + cs[lo..k]
    ensures Roomy(cs[lo..k]) && Roomy([cs[k]] + cs[k + 1..hi])
  {}

  lemma OneBlock(base: nat, before: seq<Chunk>, c: Chunk, after: seq<Chunk>)
    requires Roomy(before) && Roomy([c] + after) && c.used
    requires (forall i :: 0 <= i < |before| ==> !before[i].used) && forall i :: 0 <= i < |after| ==> !after[i].used
    ensures BlocksFrom(base, before + ([c] + after)) == map[base + Size(before) := c.length]
  {
    hide BlocksFrom, Size, Roomy;
    BlocksAppend(base, before, [c] + after);
    FreeBlocks(base, before);
    HeadBlocks(base + Size(before), c, after);
    FreeBlocks(base + Size(before) + c.length, after);
  }

  /** A block freed right after it was appended leaves the heap as it was. */
  lemma MallocThenRelease(cs: seq<Chunk>, n: nat)
    requires Tidy(cs) && n >= HEADER_SIZE && FirstFit(cs, n) == |cs|
    ensures Release(Malloc(cs, n), |cs|) == cs
  {
    var r := cs + [Chunk(true, n)];
    assert cs != [] ==> r[|cs| - 1].used;
    assert r[..|cs|] == cs;
  }

  // ----- runs

  /** kmalloc() of `n` bytes with the header, or kfree() of the block whose chunk is at `a`. */
  datatype Op = MallocOp(n: nat) | FreeOp(a: nat)

  /** The index of a block's chunk. */
  function IndexFrom(base: nat, cs: seq<Chunk>, a: nat): (k: nat)
    requires Roomy(cs) && a in BlocksFrom(base, cs)
    ensures k < |cs| && cs[k].used && base + Size(cs[..k]) == a
    decreases |cs|
  {
    if a == base && cs[0].used then 0
    else
      var k := IndexFrom(base + cs[0].length, cs[1..], a);
      assert cs[..k + 1] == [cs[0]] + cs[1..][..k];
      k + 1
  }

  function IndexOf(cs: seq<Chunk>, a: nat): (k: nat)
    requires Tidy(cs) && a in Blocks(cs)
    ensures k < |cs| && cs[k].used && At(cs, k) == a
  {
    IndexFrom(HEAP_START, cs, a)
  }

  /** Steps that split nothing and free only blocks in use. */
  ghost predicate Allowed(cs: seq<Chunk>, op: Op) {
    match op
    case MallocOp(n) => n >= HEADER_SIZE && !Splits(cs, n)
    case FreeOp(a) => a in Blocks(cs)
  }

  function Apply(cs: seq<Chunk>, op: Op): seq<Chunk>
    requires Tidy(cs) && Allowed(cs, op)
  {
    match op
    case MallocOp(n) => Malloc(cs, n)
    case FreeOp(a) => Release(cs, IndexOf(cs, a))
  }

  ghost predicate Runs(cs: seq<Chunk>, ops: seq<Op>, r: seq<Chunk>)
    decreases |ops|
  {
    if ops == [] then r == cs
    else Tidy(cs) && Allowed(cs, ops[0]) && Runs(Apply(cs, ops[0]), ops[1..], r)
  }

  /**
   Over any run the row stays tidy, and a block never freed in it is there at the end
   with the same address and length.
   */
  lemma {:induction false} RunKeepsBlocks(cs: seq<Chunk>, ops: seq<Op>, r: seq<Chunk>, a: nat)
    requires Tidy(cs) && Runs(cs, ops, r)
    ensures Tidy(r)
    ensures a in Blocks(cs) && FreeOp(a) !in ops ==> a in Blocks(r) && Blocks(r)[a] == Blocks(cs)[a]
    decreases |ops|
  {
    hide Blocks, Tidy, Malloc, Release;
    if ops != [] {
      assert ops[0] in ops;
      match ops[0] {
        case MallocOp(n) => MallocTidy(cs, n); MallocBlocks(cs, n);
        case FreeOp(b) => ReleaseTidy(cs, IndexOf(cs, b)); ReleaseBlocks(cs, IndexOf(cs, b));
      }
      RunKeepsBlocks(Apply(cs, ops[0]), ops[1..], r, a);
    }
  }

  /** At the end of any run two blocks in use do not overlap. */
  lemma RunKeepsBlocksApart(cs: seq<Chunk>, ops: seq<Op>, r: seq<Chunk>, a: nat, b: nat)
    requires Tidy(cs) && Runs(cs, ops, r) && a in Blocks(r) && b in Blocks(r) && a < b
    ensures HEAP_START <= a && a + Blocks(r)[a] <= b && b + Blocks(r)[b] <= End(r)
  {
    RunKeepsBlocks(cs, ops, r, a);
    BlocksDisjoint(HEAP_START, r, a, b);
    BlocksIn(HEAP_START, r);
  }

  /** kmalloc(100), kmalloc(1), and kfree() of the first block, one after the other. */
  lemma FirstBlock()
    ensures Allowed([], MallocOp(112)) && Apply([], MallocOp(112)) == [Chunk(true, 112)]
  {
    FirstFitIs([], 112, 0);
  }

  lemma SecondBlock()
    ensures var one := [Chunk(true, 112)];
      Tidy([]) && Tidy(one) && Allowed(one, MallocOp(13)) && Apply(one, MallocOp(13)) == [Chunk(true, 112), Chunk(true, 13)]
  {
    FirstFitIs([Chunk(true, 112)], 13, 1);
  }

  lemma FirstReleased()
    ensures var two := [Chunk(true, 112), Chunk(true, 13)];
      && Tidy(two) && Allowed(two, FreeOp(HEAP_START))
      && Apply(two, FreeOp(HEAP_START)) == [Chunk(false, 112), Chunk(true, 13)]
  {
    var two := [Chunk(true, 112), Chunk(true, 13)];
    HeadBlocks(HEAP_START, two[0], [two[1]]);
    assert [two[0]] + [two[1]] == two;
    assert IndexFrom(HEAP_START, two, HEAP_START) == 0;
    hide Size;
    OneChunk(two[0]);
    assert two[0..1] == [two[0]] && two[..0] == [];
    assert two[1..] == [two[1]];
  }

  lemma RunsThree(s0: seq<Chunk>, a: Op, s1: seq<Chunk>, b: Op, s2: seq<Chunk>, c: Op, s3: seq<Chunk>)
    requires Tidy(s0) && Allowed(s0, a) && Apply(s0, a) == s1
    requires Tidy(s1) && Allowed(s1, b) && Apply(s1, b) == s2
    requires Tidy(s2) && Allowed(s2, c) && Apply(s2, c) == s3
    ensures Runs(s0, [a, b, c], s3)
  {
    hide Tidy, Allowed, Apply;
    assert [c][1..] == [] && [b, c][1..] == [c] && [a, b, c][1..] == [b, c];
    assert Runs(s3, [], s3);
    assert Runs(s2, [c], s3);
    assert Runs(s1, [b, c], s3);
  }

  lemma GuardMet()
    ensures var row := [Chunk(false, 112), Chunk(true, 13)]; Tidy(row) && Splits(row, 13)
  {
    FirstFitIs([Chunk(false, 112), Chunk(true, 13)], 13, 0);
  }

  /** After these three calls kmalloc(1) meets split_chunk()'s guard, 112 - 13 being more than a header. */
  lemma SplitIsReached()
    ensures var row := [Chunk(false, 112), Chunk(true, 13)];
      Runs([], [MallocOp(112), MallocOp(13), FreeOp(HEAP_START)], row) && Tidy(row) && Splits(row, 13)
  {
    var one, two, row := [Chunk(true, 112)], [Chunk(true, 112), Chunk(true, 13)], [Chunk(false, 112), Chunk(true, 13)];
    hide Runs, Allowed, Apply, FirstFit, Tidy, Splits;
    GuardMet();
    FirstBlock();
    SecondBlock();
    FirstReleased();
    RunsThree([], MallocOp(112), one, MallocOp(13), two, FreeOp(HEAP_START), row);
  }

  // ----- pages

  /** The least page boundary at or above an address. */
  function PageUp(a: nat): (r: nat)
    ensures r % PAGE == 0 && a <= r < a + PAGE
  {
    (a + PAGE - 1) / PAGE * PAGE
  }

  lemma PageUpLeast(a: nat, b: nat)
    requires b % PAGE == 0 && b >= a
    ensures b >= PageUp(a)
  {}

  lemma PageUpIs(a: nat, r: nat)
    requires r % PAGE == 0 && a <= r < a + PAGE
    ensures r == PageUp(a)
  {}
}
