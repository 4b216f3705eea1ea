/**
 The chunk headers of HeapLinks.dfy byte by byte, as pmm.h lays them out: the next link in the
 four bytes from x on, the previous link in those from x + 4 on, and in those from x + 8 on a
 bit field with `allocated` in bit 0 and the length above it.  A header is a cell of its own
 in HeapLinks.dfy; here is why that loses nothing.
 */
module HeapWords {
  import opened Common
  import opened Chunks
  import opened HeapLinks

  type Byte = b: nat | b < 256
  type Bytes = m: seq<Byte> | |m| == 0x1_0000_0000 witness seq<Byte>(0x1_0000_0000, _ => 0)

  /** The 32-bit word at an address, least significant byte first. */
  function WordAt(m: Bytes, x: nat): (w: Word)
    requires x + 4 <= 0x1_0000_0000
  {
    var b0: nat, b1: nat, b2: nat, b3: nat := m[x], m[x + 1], m[x + 2], m[x + 3];
    b0 + 0x100 * b1 + 0x1_0000 * b2 + 0x100_0000 * b3
  }

  function StoreWord(m: Bytes, x: nat, w: Word): Bytes
    requires x + 4 <= 0x1_0000_0000
  {
    m[x := Low(w)][x + 1 := Low(w / 0x100)][x + 2 := Low(w / 0x1_0000)][x + 3 := Low(w / 0x100_0000)]
  }

  function Low(n: nat): Byte { n % 256 }

  function HeaderIn(m: Bytes, x: nat): Header
    requires x + 12 <= 0x1_0000_0000
  {
    Header(WordAt(m, x), WordAt(m, x + 4), WordAt(m, x + 8) % 2 == 1, WordAt(m, x + 8) / 2)
  }

  /** A header whose links and length its fields can hold. */
  predicate Fits(h: Header) { h.next < 0x1_0000_0000 && h.prev < 0x1_0000_0000 && h.length < 0x8000_0000 }

  /** The stores to all fields of a header. */
  function StoreHeader(m: Bytes, x: nat, h: Header): Bytes
    requires x + 12 <= 0x1_0000_0000 && Fits(h)
  {
    StoreWord(StoreWord(StoreWord(m, x, h.next), x + 4, h.prev), x + 8, 2 * h.length + if h.used then 1 else 0)
  }

  lemma BytesOfWord(w: Word)
    ensures Low(w) + 0x100 * Low(w / 0x100) + 0x1_0000 * Low(w / 0x1_0000) + 0x100_0000 * Low(w / 0x100_0000) == w
  {
    assert w / 0x100 / 256 == w / 0x1_0000 && w / 0x1_0000 / 256 == w / 0x100_0000;
  }

  lemma StoreReads(m: Bytes, x: nat, w: Word, y: nat)
    requires x + 4 <= 0x1_0000_0000 && y + 4 <= 0x1_0000_0000 && (y == x || y + 4 <= x || x + 4 <= y)
    ensures WordAt(StoreWord(m, x, w), y) == if y == x then w else WordAt(m, y)
  {
    if y == x { BytesOfWord(w); }
  }

  /** A stored header is read back, and one at least twelve bytes away is as before. */
  lemma HeaderReads(m: Bytes, x: nat, h: Header, y: nat)
    requires x + 12 <= 0x1_0000_0000 && y + 12 <= 0x1_0000_0000 && Fits(h) && (y == x || y + 12 <= x || x + 12 <= y)
    ensures HeaderIn(StoreHeader(m, x, h), y) == if y == x then h else HeaderIn(m, y)
  {
    hide StoreWord, WordAt;
    var w: Word := 2 * h.length + if h.used then 1 else 0;
    ThreeStores(m, x, h.next, h.prev, w, y);
    ThreeStores(m, x, h.next, h.prev, w, y + 4);
    ThreeStores(m, x, h.next, h.prev, w, y + 8);
  }

  lemma ThreeStores(m: Bytes, x: nat, next: Word, prev: Word, w: Word, z: nat)
    requires x + 12 <= 0x1_0000_0000 && z + 4 <= 0x1_0000_0000
    requires z == x || z == x + 4 || z == x + 8 || z + 4 <= x || x + 12 <= z
    ensures WordAt(StoreWord(StoreWord(StoreWord(m, x, next), x + 4, prev), x + 8, w), z) ==
      if z == x then next else if z == x + 4 then prev else if z == x + 8 then w else WordAt(m, z)
  {
    hide StoreWord, WordAt;
    var m1 := StoreWord(m, x, next);
    StoreReads(StoreWord(m1, x + 4, prev), x + 8, w, z);
    StoreReads(m1, x + 4, prev, z);
    StoreReads(m, x, next, z);
  }

  // ----- the headers of a row

  /** The bytes hold the header of every chunk of the row. */
  ghost predicate RowIn(m: Bytes, cs: seq<Chunk>) {
    forall k {:trigger At(cs, k)} :: 0 <= k < |cs| ==> At(cs, k) + 12 <= 0x1_0000_0000 && HeaderIn(m, At(cs, k)) == HeaderOf(cs, k)
  }

  /** The headers of two chunks share no byte. */
  lemma HeadersApart(cs: seq<Chunk>, i: nat, k: nat)
    requires Roomy(cs) && i < k < |cs|
    ensures At(cs, i) + 12 <= At(cs, k)
  {
    AtMonotone(cs, i, k);
  }

  /** Byte `b` belongs to the block kmalloc() returned from the chunk at `a`. */
  predicate InBlock(cs: seq<Chunk>, a: nat, b: nat) {
    a in Blocks(cs) && a + 12 <= b < a + Blocks(cs)[a]
  }

  /** None of the three words of a header, at whatever boundary of the row, has a byte in a block. */
  lemma HeaderBytesOutsideBlocks(cs: seq<Chunk>, a: nat, x: nat, b: nat)
    requires Tidy(cs) && Boundary(cs, x) && InBlock(cs, a, b)
    ensures b < x || x + 12 <= b
  {
    HeadersOutsideBlocks(cs, a, x);
  }

  /** Whatever the holders write into their blocks, every header stays as it was. */
  lemma BlockStoresKeepRow(m: Bytes, m': Bytes, cs: seq<Chunk>)
    requires Tidy(cs) && RowIn(m, cs)
    requires forall b :: 0 <= b < 0x1_0000_0000 ==> m'[b] == m[b] || exists a :: InBlock(cs, a, b)
    ensures RowIn(m', cs)
  {
    hide Tidy, Blocks, HeaderOf;
    forall k | 0 <= k < |cs| ensures At(cs, k) + 12 <= 0x1_0000_0000 && HeaderIn(m', At(cs, k)) == HeaderOf(cs, k) {
      var x := At(cs, k);
      AtBoundary(cs, k);
      forall b | x <= b < x + 12 ensures m'[b] == m[b] {
        if m'[b] != m[b] {
          var a :| InBlock(cs, a, b);
          HeaderBytesOutsideBlocks(cs, a, x, b);
        }
      }
      assert HeaderIn(m', x) == HeaderIn(m, x);
    }
  }

  /** A store to one header changes that header of the row and no other. */
  lemma HeaderStoreKeepsOthers(m: Bytes, cs: seq<Chunk>, i: nat, h: Header, k: nat)
    requires Roomy(cs) && RowIn(m, cs) && i < |cs| && k < |cs| && Fits(h)
    ensures At(cs, i) + 12 <= 0x1_0000_0000 && At(cs, k) + 12 <= 0x1_0000_0000
    ensures HeaderIn(StoreHeader(m, At(cs, i), h), At(cs, k)) == if k == i then h else HeaderOf(cs, k)
  {
    hide At, HeaderIn, StoreHeader, HeaderOf;
    assert At(cs, i) + 12 <= 0x1_0000_0000 && HeaderIn(m, At(cs, k)) == HeaderOf(cs, k);
    if i < k { HeadersApart(cs, i, k); } else if k < i { HeadersApart(cs, k, i); }
    HeaderReads(m, At(cs, i), h, At(cs, k));
  }

  /** Neither does a store to the twelve bytes at NULL, which lie below the heap. */
  lemma NullStoreKeepsRow(m: Bytes, cs: seq<Chunk>, h: Header)
    requires RowIn(m, cs) && Fits(h)
    ensures RowIn(StoreHeader(m, 0, h), cs)
  {
    hide HeaderIn, StoreHeader, HeaderOf;
    forall k | 0 <= k < |cs| ensures HeaderIn(StoreHeader(m, 0, h), At(cs, k)) == HeaderIn(m, At(cs, k)) {
      HeaderReads(m, 0, h, At(cs, k));
    }
  }
}
