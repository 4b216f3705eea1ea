/**
 The chunk headers of pmm.c in memory: when they link a row of chunks, and what the stores
 of glue_chunk(), free_chunk(), split_chunk() and kmalloc() do to that row.

 Some stores go through a NULL link.  Page zero is mapped and writable, so they land in
 a header-sized cell at address 0 that belongs to no chunk.
 */
module HeapLinks {
  import opened Chunks

  const NULL: nat := 0

  datatype Header = Header(next: nat, prev: nat, used: bool, length: nat)

  type Headers = map<nat, Header>

  function HeaderOf(cs: seq<Chunk>, k: nat): Header
    requires k < |cs|
  {
    Header(if k + 1 < |cs| then At(cs, k + 1) else NULL, if k > 0 then At(cs, k - 1) else NULL, cs[k].used, cs[k].length)
  }

  /** The headers from `heap` on describe the row `cs`. */
  ghost predicate HeapAt(hs: Headers, heap: nat, cs: seq<Chunk>) {
    && NULL in hs && Roomy(cs)
    && heap == (if cs == [] then NULL else HEAP_START)
    && forall k {:trigger At(cs, k)} :: 0 <= k < |cs| ==> At(cs, k) in hs && hs[At(cs, k)] == HeaderOf(cs, k)
  }

  lemma HeaderAt(hs: Headers, heap: nat, cs: seq<Chunk>, k: nat)
    requires HeapAt(hs, heap, cs) && k < |cs|
    ensures At(cs, k) in hs && hs[At(cs, k)] == HeaderOf(cs, k) && NULL < At(cs, k)
  {}

  lemma AtApart(cs: seq<Chunk>, i: nat, k: nat)
    requires Roomy(cs) && i < |cs| && k < |cs| && i != k
    ensures At(cs, i) != At(cs, k)
  {
    if i < k { AtMonotone(cs, i, k); } else { AtMonotone(cs, k, i); }
  }

  // ----- marking a chunk

  lemma AtSame(cs: seq<Chunk>, k: nat, used: bool, i: nat)
    requires k < |cs| && i <= |cs|
    ensures At(cs[k := Chunk(used, cs[k].length)], i) == At(cs, i)
  {
    SizeSame(cs[..i], cs[k := Chunk(used, cs[k].length)][..i]);
  }

  lemma {:induction false} SizeSame(a: seq<Chunk>, b: seq<Chunk>)
    requires |a| == |b| && forall i :: 0 <= i < |a| ==> a[i].length == b[i].length
    ensures Size(a) == Size(b)
  {
    if a != [] { SizeSame(a[1..], b[1..]); }
  }

  lemma MarkLinks(hs: Headers, heap: nat, cs: seq<Chunk>, k: nat, used: bool)
    requires HeapAt(hs, heap, cs) && k < |cs|
    ensures At(cs, k) in hs
    ensures HeapAt(hs[At(cs, k) := hs[At(cs, k)].(used := used)], heap, cs[k := Chunk(used, cs[k].length)])
  {
    var r := cs[k := Chunk(used, cs[k].length)];
    HeaderAt(hs, heap, cs, k);
    var hs' := hs[At(cs, k) := hs[At(cs, k)].(used := used)];
    forall i | 0 <= i < |r| ensures At(r, i) in hs' && hs'[At(r, i)] == HeaderOf(r, i) {
      MarkedHeader(hs, heap, cs, k, used, i);
    }
  }

  lemma MarkedHeader(hs: Headers, heap: nat, cs: seq<Chunk>, k: nat, used: bool, i: nat)
    requires HeapAt(hs, heap, cs) && k < |cs| && i < |cs|
    ensures At(cs, k) in hs
    ensures var r, hs' := cs[k := Chunk(used, cs[k].length)], hs[At(cs, k) := hs[At(cs, k)].(used := used)];
      At(r, i) in hs' && hs'[At(r, i)] == HeaderOf(r, i)
  {
    hide HeapAt, At;
    HeapRoomy(hs, heap, cs);
    HeaderAt(hs, heap, cs, k);
    HeaderAt(hs, heap, cs, i);
    AtSame(cs, k, used, i);
    if i > 0 { AtSame(cs, k, used, i - 1); }
    if i + 1 < |cs| { AtSame(cs, k, used, i + 1); }
    if i != k { AtApart(cs, i, k); }
  }

  // ----- a chunk added at the end

  lemma AppendLinks(hs: Headers, heap: nat, cs: seq<Chunk>, c: Chunk)
    requires HeapAt(hs, heap, cs) && c.length >= HEADER_SIZE
    ensures var last := if cs == [] then NULL else At(cs, |cs| - 1);
      var hs1 := hs[End(cs) := Header(NULL, last, c.used, c.length)];
      last in hs1 && HeapAt(hs1[last := hs1[last].(next := End(cs))], HEAP_START, cs + [c])
  {
    var last := if cs == [] then NULL else At(cs, |cs| - 1);
    var hs1 := hs[End(cs) := Header(NULL, last, c.used, c.length)];
    if cs != [] { HeaderAt(hs, heap, cs, |cs| - 1); }
    var r, hs2 := cs + [c], hs1[last := hs1[last].(next := End(cs))];
    forall i | 0 <= i < |r| ensures At(r, i) in hs2 && hs2[At(r, i)] == HeaderOf(r, i) {
      AppendedHeader(hs, heap, cs, c, i);
    }
  }

  lemma AppendedHeader(hs: Headers, heap: nat, cs: seq<Chunk>, c: Chunk, i: nat)
    requires HeapAt(hs, heap, cs) && i <= |cs|
    ensures var last := if cs == [] then NULL else At(cs, |cs| - 1);
      var hs1, r := hs[End(cs) := Header(NULL, last, c.used, c.length)], cs + [c];
      && last in hs1
      && var hs2 := hs1[last := hs1[last].(next := End(cs))]; At(r, i) in hs2 && hs2[At(r, i)] == HeaderOf(r, i)
  {
    hide HeapAt, At;
    HeapRoomy(hs, heap, cs);
    AtEnd(cs);
    AtAppend(cs, c, i);
    if i > 0 { AtAppend(cs, c, i - 1); }
    if i < |cs| {
      AtAppend(cs, c, i + 1);
      HeaderAt(hs, heap, cs, i);
      HeaderAt(hs, heap, cs, |cs| - 1);
      AtMonotone(cs, i, |cs|);
      if i < |cs| - 1 { AtApart(cs, i, |cs| - 1); }
    } else if i > 0 {
      HeaderAt(hs, heap, cs, i - 1);
      AtMonotone(cs, i - 1, i);
    } else {
      EmptyEnd(cs);
    }
  }

  lemma EmptyEnd(cs: seq<Chunk>)
    ensures End(cs) >= HEAP_START > NULL
  {}

  lemma AtAppend(cs: seq<Chunk>, c: Chunk, i: nat)
    requires i <= |cs|
    ensures At(cs + [c], i) == At(cs, i)
  {
    assert (cs + [c])[..i] == cs[..i];
  }

  // ----- two chunks become one

  function Merge(cs: seq<Chunk>, k: nat): seq<Chunk>
    requires k + 1 < |cs|
  {
    cs[..k] + [Chunk(cs[k].used, cs[k].length + cs[k + 1].length)] + cs[k + 2..]
  }

  lemma AtMerge(cs: seq<Chunk>, k: nat, i: nat)
    requires k + 1 < |cs| && i < |cs|
    ensures At(Merge(cs, k), i) == if i <= k then At(cs, i) else At(cs, i + 1)
  {
    var r := Merge(cs, k);
    if i <= k {
      assert r[..i] == cs[..i];
    } else {
      var tail := cs[k + 2..i + 1];
      assert r[..i] == cs[..k] + ([r[k]] + tail) && cs[..i + 1] == cs[..k] + ([cs[k], cs[k + 1]] + tail);
      SizeAppend(cs[..k], [r[k]] + tail);
      SizeAppend([r[k]], tail);
      SizeAppend(cs[..k], [cs[k], cs[k + 1]] + tail);
      SizeAppend([cs[k], cs[k + 1]], tail);
      assert [cs[k], cs[k + 1]][1..] == [cs[k + 1]];
    }
  }

  /** Chunk k takes in chunk k + 1: its length, its link, and the back link behind it. */
  lemma MergeLinks(hs: Headers, heap: nat, cs: seq<Chunk>, k: nat)
    requires HeapAt(hs, heap, cs) && k + 1 < |cs|
    ensures var a := At(cs, k);
      var after := if k + 2 < |cs| then At(cs, k + 2) else NULL;
      a in hs && after in hs && a != after
      && HeapAt(hs[a := hs[a].(next := after, length := cs[k].length + cs[k + 1].length)]
                  [after := hs[after].(prev := a)], heap, Merge(cs, k))
  {
    hide HeaderOf, Size;
    var a := At(cs, k);
    var after := if k + 2 < |cs| then At(cs, k + 2) else NULL;
    HeaderAt(hs, heap, cs, k);
    if k + 2 < |cs| { HeaderAt(hs, heap, cs, k + 2); AtApart(cs, k, k + 2); }
    var hs' := hs[a := hs[a].(next := after, length := cs[k].length + cs[k + 1].length)][after := hs[after].(prev := a)];
    var r := Merge(cs, k);
    AtMerge(cs, k, 0);
    forall i | 0 <= i < |r| ensures At(r, i) in hs' && hs'[At(r, i)] == HeaderOf(r, i) {
      MergedHeader(hs, heap, cs, k, i);
    }
  }

  lemma MergedHeader(hs: Headers, heap: nat, cs: seq<Chunk>, k: nat, i: nat)
    requires HeapAt(hs, heap, cs) && k + 1 < |cs| && i < |cs| - 1
    ensures var a := At(cs, k);
      var after := if k + 2 < |cs| then At(cs, k + 2) else NULL;
      a in hs && after in hs &&
      var hs' := hs[a := hs[a].(next := after, length := cs[k].length + cs[k + 1].length)][after := hs[after].(prev := a)];
      At(Merge(cs, k), i) in hs' && hs'[At(Merge(cs, k), i)] == HeaderOf(Merge(cs, k), i)
  {
    hide HeapAt, At;
    HeaderAt(hs, heap, cs, k);
    AtMerge(cs, k, i);
    AtMerge(cs, k, i + 1);
    if i > 0 { AtMerge(cs, k, i - 1); }
    HeapRoomy(hs, heap, cs);
    if k + 2 < |cs| { HeaderAt(hs, heap, cs, k + 2); AtApart(cs, k, k + 2); }
    var j := if i <= k then i else i + 1;
    HeaderAt(hs, heap, cs, j);
    if j != k { AtApart(cs, j, k); }
    if j != k + 2 && k + 2 < |cs| { AtApart(cs, j, k + 2); }
  }

  lemma HeapRoomy(hs: Headers, heap: nat, cs: seq<Chunk>)
    requires HeapAt(hs, heap, cs)
    ensures Roomy(cs) && NULL in hs
  {}

  // ----- the last chunk leaves the heap

  lemma TruncateLinks(hs: Headers, heap: nat, cs: seq<Chunk>)
    requires HeapAt(hs, heap, cs) && cs != []
    ensures var n := |cs| - 1;
      var before := if n > 0 then At(cs, n - 1) else NULL;
      before in hs
      && HeapAt(hs[before := hs[before].(next := NULL)], if n > 0 then heap else NULL, cs[..n])
  {
    var n := |cs| - 1;
    var before := if n > 0 then At(cs, n - 1) else NULL;
    if n > 0 { HeaderAt(hs, heap, cs, n - 1); }
    var hs' := hs[before := hs[before].(next := NULL)];
    var r := cs[..n];
    forall i | 0 <= i <= n ensures At(r, i) == At(cs, i) { assert r[..i] == cs[..i]; }
    forall i | 0 <= i < |r| ensures At(r, i) in hs' && hs'[At(r, i)] == HeaderOf(r, i) {
      HeaderAt(hs, heap, cs, i);
      if i != n - 1 { AtApart(cs, i, n - 1); }
    }
  }

  // ----- what split_chunk() breaks

  /** The stores of split_chunk() when its guard holds. */
  function Split(hs: Headers, a: nat, n: nat): Headers
    requires a in hs && hs[a].length >= n
  {
    var b := a + hs[a].length;
    hs[b := Header(NULL, a, false, hs[a].length - n)][a := hs[a].(next := b, length := n)]
  }

  /** The first k chunks are the same in every row the changed headers might describe. */
  lemma {:induction false} SamePrefix(hs: Headers, hs': Headers, heap: nat, cs: seq<Chunk>, ds: seq<Chunk>, k: nat)
    requires HeapAt(hs, heap, cs) && HeapAt(hs', heap, ds) && k < |cs|
    requires forall i :: 0 <= i < k ==> At(cs, i) in hs' && hs'[At(cs, i)] == hs[At(cs, i)]
    ensures k < |ds| && At(ds, k) == At(cs, k)
  {
    if k == 0 {
      assert cs[..0] == ds[..0] == [];
    } else {
      SamePrefix(hs, hs', heap, cs, ds, k - 1);
      HeaderAt(hs, heap, cs, k - 1);
      HeaderAt(hs', heap, ds, k - 1);
      AtMonotone(cs, 0, k);
    }
  }

  /**
   A taken split links the chunk to the header behind it but shortens it: whatever row of
   chunks one looks for, the headers describe none.
   */
  lemma SplitBreaksHeap(hs: Headers, heap: nat, cs: seq<Chunk>, k: nat, n: nat, ds: seq<Chunk>)
    requires HeapAt(hs, heap, cs) && k < |cs| && cs[k].length - n > HEADER_SIZE
    ensures At(cs, k) in hs && hs[At(cs, k)].length >= n
    ensures !HeapAt(Split(hs, At(cs, k), n), heap, ds)
    ensures forall used :: var hs' := Split(hs, At(cs, k), n);
      !HeapAt(hs'[At(cs, k) := hs'[At(cs, k)].(used := used)], heap, ds)
  {
    hide HeapAt, At;
    HeaderAt(hs, heap, cs, k);
    var a := At(cs, k);
    var hs1 := Split(hs, a, n);
    AtNext(cs, k);
    ShortChunk(hs, hs1, heap, cs, k, n, ds);
    forall used ensures !HeapAt(hs1[a := hs1[a].(used := used)], heap, ds) {
      ShortChunk(hs, hs1[a := hs1[a].(used := used)], heap, cs, k, n, ds);
    }
  }

  /** Headers as before up to chunk k, whose length and link no longer match, describe no row. */
  lemma ShortChunk(hs: Headers, hs': Headers, heap: nat, cs: seq<Chunk>, k: nat, n: nat, ds: seq<Chunk>)
    requires HeapAt(hs, heap, cs) && k < |cs| && n != cs[k].length
    requires forall x :: x in hs && x != At(cs, k) && x != At(cs, k + 1) ==> x in hs' && hs'[x] == hs[x]
    requires At(cs, k) in hs' && hs'[At(cs, k)].length == n && hs'[At(cs, k)].next == At(cs, k + 1)
    ensures !HeapAt(hs', heap, ds)
  {
    hide HeapAt, At;
    AtNext(cs, k);
    HeaderAt(hs, heap, cs, k);
    if HeapAt(hs', heap, ds) {
      HeapRoomy(hs, heap, cs);
      forall i | 0 <= i < k ensures At(cs, i) in hs && At(cs, i) in hs' && hs'[At(cs, i)] == hs[At(cs, i)] {
        HeaderAt(hs, heap, cs, i);
        AtApart(cs, i, k);
        AtMonotone(cs, i, k);
      }
      SamePrefix(hs, hs', heap, cs, ds, k);
      HeaderAt(hs', heap, ds, k);
      if k + 1 < |ds| { AtNext(ds, k); }
      assert false;
    }
  }

  // ----- a split that keeps the heap

  /** The row with chunk k cut at n bytes, its rest free. */
  function SplitRow(cs: seq<Chunk>, k: nat, n: nat): seq<Chunk>
    requires k < |cs| && n <= cs[k].length
  {
    cs[..k] + [Chunk(cs[k].used, n), Chunk(false, cs[k].length - n)] + cs[k + 1..]
  }

  /**
   A variant of split_chunk() that pmm.c does not have: the new header goes to `a + n`
   and is linked to the chunk behind.
   */
  function RelinkedSplit(hs: Headers, a: nat, n: nat): Headers
    requires a in hs && hs[a].length >= n && hs[a].next in hs
  {
    var b, after := a + n, hs[a].next;
    var hs1 := hs[after := hs[after].(prev := b)];
    hs1[b := Header(after, a, false, hs[a].length - n)][a := hs[a].(next := b, length := n)]
  }

  lemma AtSplit(cs: seq<Chunk>, k: nat, n: nat, i: nat)
    requires k < |cs| && n <= cs[k].length && i <= |cs|
    ensures At(SplitRow(cs, k, n), if i <= k then i else i + 1) == At(cs, i)
    ensures At(SplitRow(cs, k, n), k + 1) == At(cs, k) + n
    ensures Merge(SplitRow(cs, k, n), k) == cs
  {
    var r := SplitRow(cs, k, n);
    assert Merge(r, k) == cs;
    if i < |cs| { AtMerge(r, k, i); } else { AtMerge(r, k, i - 1); AtNext(r, i); AtNext(cs, i - 1); }
    AtNext(r, k);
    AtMerge(r, k, k);
  }

  /** The variant describes the split row, for every chunk and every cut that leaves room for both headers. */
  lemma RelinkedSplitKeepsHeap(hs: Headers, heap: nat, cs: seq<Chunk>, k: nat, n: nat)
    requires HeapAt(hs, heap, cs) && k < |cs| && HEADER_SIZE <= n && n + HEADER_SIZE <= cs[k].length
    ensures At(cs, k) in hs && hs[At(cs, k)].length >= n && hs[At(cs, k)].next in hs
    ensures HeapAt(RelinkedSplit(hs, At(cs, k), n), heap, SplitRow(cs, k, n))
  {
    HeaderAt(hs, heap, cs, k);
    if k + 1 < |cs| { HeaderAt(hs, heap, cs, k + 1); }
    var r := SplitRow(cs, k, n);
    var hs' := RelinkedSplit(hs, At(cs, k), n);
    forall i | 0 <= i < |r| ensures At(r, i) in hs' && hs'[At(r, i)] == HeaderOf(r, i) {
      SplitHeader(hs, heap, cs, k, n, i);
    }
  }

  lemma SplitHeader(hs: Headers, heap: nat, cs: seq<Chunk>, k: nat, n: nat, i: nat)
    requires HeapAt(hs, heap, cs) && k < |cs| && HEADER_SIZE <= n && n + HEADER_SIZE <= cs[k].length && i <= |cs|
    ensures At(cs, k) in hs && hs[At(cs, k)].length >= n && hs[At(cs, k)].next in hs
    ensures var r, hs' := SplitRow(cs, k, n), RelinkedSplit(hs, At(cs, k), n);
      At(r, i) in hs' && hs'[At(r, i)] == HeaderOf(r, i)
  {
    hide HeapAt, At, Merge, Roomy;
    HeapRoomy(hs, heap, cs);
    HeaderAt(hs, heap, cs, k);
    AtNext(cs, k);
    AtSplit(cs, k, n, k);
    if k + 1 < |cs| { HeaderAt(hs, heap, cs, k + 1); AtSplit(cs, k, n, k + 1); }
    if i != k + 1 {
      var j := if i <= k then i else i - 1;
      HeaderAt(hs, heap, cs, j);
      AtSplit(cs, k, n, j);
      if j > 0 { AtSplit(cs, k, n, j - 1); }
      if j + 1 < |cs| { AtSplit(cs, k, n, j + 1); }
      if j < k { AtMonotone(cs, j, k); AtMonotone(cs, k, k + 1); }
      if j > k { AtMonotone(cs, k + 1, j); }
      if j > k + 1 { AtMonotone(cs, k + 1, j); }
    }
  }

  // ----- where the heap's code stores

  /** An address where a chunk of the row begins or the row ends. */
  ghost predicate Boundary(cs: seq<Chunk>, x: nat) {
    exists k :: 0 <= k <= |cs| && At(cs, k) == x
  }

  /** Only headers at boundaries of the row, and the cell at NULL, differ. */
  ghost predicate Confined(hs: Headers, hs': Headers, cs: seq<Chunk>) {
    forall x :: x in hs' && x != NULL && !Boundary(cs, x) ==> x in hs && hs'[x] == hs[x]
  }

  lemma StoresConfined(hs: Headers, hs': Headers, cs: seq<Chunk>, a: nat, b: nat)
    requires forall x :: x in hs' && x != a && x != b ==> x in hs && hs'[x] == hs[x]
    requires (a == NULL || Boundary(cs, a)) && (b == NULL || Boundary(cs, b))
    ensures Confined(hs, hs', cs)
  {}

  lemma AtBoundary(cs: seq<Chunk>, k: nat)
    requires k <= |cs|
    ensures Boundary(cs, At(cs, k))
  {}

  lemma ConfinedThen(h1: Headers, h2: Headers, h3: Headers, cs: seq<Chunk>, ds: seq<Chunk>)
    requires Confined(h1, h2, cs) && Confined(h2, h3, ds) && forall x :: Boundary(ds, x) ==> Boundary(cs, x)
    ensures Confined(h1, h3, cs)
  {}

  /** Merging loses a boundary and gains none. */
  lemma MergeBoundaries(cs: seq<Chunk>, k: nat)
    requires k + 1 < |cs|
    ensures forall x :: Boundary(Merge(cs, k), x) ==> Boundary(cs, x)
  {
    var r := Merge(cs, k);
    forall x | Boundary(r, x) ensures Boundary(cs, x) {
      var i :| 0 <= i <= |r| && At(r, i) == x;
      AtMerge(cs, k, if i < |r| then i else i - 1);
      if i == |r| { AtNext(r, i - 1); AtNext(cs, i); if i - 1 == k { AtNext(cs, k); } }
      AtBoundary(cs, if i <= k then i else i + 1);
    }
  }

  lemma MarkBoundaries(cs: seq<Chunk>, k: nat, used: bool)
    requires k < |cs|
    ensures forall x :: Boundary(cs[k := Chunk(used, cs[k].length)], x) ==> Boundary(cs, x)
  {
    var r := cs[k := Chunk(used, cs[k].length)];
    forall x | Boundary(r, x) ensures Boundary(cs, x) {
      var i :| 0 <= i <= |r| && At(r, i) == x;
      AtSame(cs, k, used, i);
      AtBoundary(cs, i);
    }
  }

  /** A header at a boundary does not reach into what a block's holder may write. */
  lemma {:induction false} HeadersOutsideBlocks(cs: seq<Chunk>, a: nat, x: nat)
    requires Tidy(cs) && a in Blocks(cs) && Boundary(cs, x)
    ensures x + HEADER_SIZE <= a + HEADER_SIZE || a + Blocks(cs)[a] <= x
  {
    var i := IndexOf(cs, a);
    var k :| 0 <= k <= |cs| && At(cs, k) == x;
    BlockLength(HEAP_START, cs, i);
    if k > i { AtMonotone(cs, i, k); } else { AtMonotone(cs, k, i); }
  }

  lemma {:induction false} BlockLength(base: nat, cs: seq<Chunk>, i: nat)
    requires Roomy(cs) && i < |cs| && cs[i].used
    ensures base + Size(cs[..i]) in BlocksFrom(base, cs) && BlocksFrom(base, cs)[base + Size(cs[..i])] == cs[i].length
    decreases |cs|
  {
    if i > 0 {
      assert cs[..i] == [cs[0]] + cs[1..][..i - 1];
      BlockLength(base + cs[0].length, cs[1..], i - 1);
    }
  }
}
