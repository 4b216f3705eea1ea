/**
 The intrusive doubly linked lists of list.c over one flat word memory.

 A list header is three words (head, tail, tailPrev).  Read as a node at `h`,
 the header is a sentinel with next == head and prev == tail; read as a node at
 `h + 1` it is a sentinel with next == tail and prev == tailPrev.  The two
 sentinels overlap in the word `tail`, which is always NULL.

 Addresses are word indices; a node occupies five words (next, prev, type, pri,
 name) and word 0 is the NULL page, which is mapped and writable.
 */
module Lists {
  type Addr = nat

  const NULL: Addr := 0
  const PREV := 1
  const PRI := 3
  const NODE_WORDS := 5
  const TAIL := 1
  const TAIL_PREV := 2
  const HEADER_WORDS := 3

  /** Every address a traversal visits: head sentinel, nodes, tail sentinel. */
  function Chain(h: Addr, ns: seq<Addr>): (c: seq<Addr>)
    ensures |c| == |ns| + 2
  {
    [h] + ns + [h + TAIL]
  }

  ghost predicate NodesApart(a: Addr, b: Addr) {
    a + NODE_WORDS <= b || b + NODE_WORDS <= a
  }

  ghost predicate NodeApartHeader(a: Addr, h: Addr) {
    a + NODE_WORDS <= h || h + HEADER_WORDS <= a
  }

  ghost predicate HeadersApart(h: Addr, k: Addr) {
    h + HEADER_WORDS <= k || k + HEADER_WORDS <= h
  }

  ghost predicate InMemory(m: seq<int>, a: Addr) {
    NULL < a && a + NODE_WORDS <= |m|
  }

  ghost predicate Linked(m: seq<int>, a: Addr, b: Addr) {
    a < |m| && b + PREV < |m| && m[a] == b && m[b + PREV] == a
  }

  /** Memory `m` holds at header `h` the list of nodes `ns`. */
  ghost predicate ListAt(m: seq<int>, h: Addr, ns: seq<Addr>) {
    && NULL < h && h + HEADER_WORDS <= |m| && m[h + TAIL] == NULL
    && (forall n :: n in ns ==> InMemory(m, n) && NodeApartHeader(n, h))
    && (forall i, j :: 0 <= i < j < |ns| ==> NodesApart(ns[i], ns[j]))
    && (forall i :: 0 <= i <= |ns| ==> Linked(m, Chain(h, ns)[i], Chain(h, ns)[i + 1]))
  }

  /** `n` touches neither header nor node of the list. */
  ghost predicate Outside(n: Addr, h: Addr, ns: seq<Addr>) {
    NodeApartHeader(n, h) && forall x :: x in ns ==> NodesApart(n, x)
  }

  ghost predicate Separate(h: Addr, ns: seq<Addr>, k: Addr, ks: seq<Addr>) {
    && HeadersApart(h, k)
    && (forall n :: n in ns ==> Outside(n, k, ks))
    && (forall n :: n in ks ==> NodeApartHeader(n, h))
  }

  /** All lists of the system at once: well formed and pairwise disjoint. */
  ghost predicate World(m: seq<int>, ls: map<Addr, seq<Addr>>) {
    && (forall h :: h in ls ==> ListAt(m, h, ls[h]))
    && (forall h, k :: h in ls && k in ls && h != k ==> Separate(h, ls[h], k, ls[k]))
  }

  /** `n` is a node in no list of the world. */
  ghost predicate Unlinked(m: seq<int>, ls: map<Addr, seq<Addr>>, n: Addr) {
    InMemory(m, n) && forall h :: h in ls ==> Outside(n, h, ls[h])
  }

  /** The words of a list that linking operations may store to. */
  ghost predicate LinkWord(h: Addr, ns: seq<Addr>, a: nat) {
    h <= a < h + HEADER_WORDS || exists n :: n in ns && n <= a <= n + PREV
  }

  // ----- the two memory updates every operation amounts to

  function Splice(m: seq<int>, a: Addr, b: Addr, n: Addr): (r: seq<int>)
    requires a < |m| && b + PREV < |m| && n + PREV < |m|
    ensures |r| == |m|
  {
    m[n := b][n + PREV := a][a := n][b + PREV := n]
  }

  function Bypass(m: seq<int>, a: Addr, b: Addr): (r: seq<int>)
    requires a < |m| && b + PREV < |m|
    ensures |r| == |m|
  {
    m[a := b][b + PREV := a]
  }

  /** `m'` is `m` with `n` linked in after position `k` of the chain of the list at `h`. */
  ghost predicate Spliced(m: seq<int>, m': seq<int>, h: Addr, ns: seq<Addr>, k: nat, n: Addr) {
    var c := Chain(h, ns);
    && k <= |ns| && c[k] < |m| && c[k + 1] + PREV < |m| && n + PREV < |m|
    && m' == Splice(m, c[k], c[k + 1], n)
  }

  /** `m'` is `m` with the k-th node of the list at `h` linked out. */
  ghost predicate Bypassed(m: seq<int>, m': seq<int>, h: Addr, ns: seq<Addr>, k: nat) {
    var c := Chain(h, ns);
    && k < |ns| && c[k] < |m| && c[k + 2] + PREV < |m|
    && m' == Bypass(m, c[k], c[k + 2])
  }

  function Insert(ns: seq<Addr>, k: nat, n: Addr): seq<Addr>
    requires k <= |ns|
  {
    ns[..k] + [n] + ns[k..]
  }

  function Delete(ns: seq<Addr>, k: nat): seq<Addr>
    requires k < |ns|
  {
    ns[..k] + ns[k + 1..]
  }

  /** Agreement on the link words of a list keeps the list. */
  lemma ListFrame(m: seq<int>, m': seq<int>, h: Addr, ns: seq<Addr>)
    requires ListAt(m, h, ns) && |m'| == |m|
    requires forall a :: 0 <= a < |m| && LinkWord(h, ns, a) ==> m'[a] == m[a]
    ensures ListAt(m', h, ns)
  {
    var c := Chain(h, ns);
    forall i | 0 <= i <= |ns|
      ensures Linked(m', c[i], c[i + 1])
    {
      assert Linked(m, c[i], c[i + 1]);
      assert i > 0 ==> c[i] in ns;
      assert i < |ns| ==> c[i + 1] in ns;
      assert LinkWord(h, ns, c[i]) && LinkWord(h, ns, c[i + 1] + PREV);
    }
  }

  lemma ChainDistinct(m: seq<int>, h: Addr, ns: seq<Addr>, i: nat, j: nat)
    requires ListAt(m, h, ns) && i < j < |ns| + 2
    ensures var c := Chain(h, ns); c[i] != c[j] && c[i] + PREV != c[j] + PREV
    ensures var c := Chain(h, ns);
      (i, j) != (0, |ns| + 1) ==> c[i] + PREV != c[j] && c[j] + PREV != c[i]
  {
    var c := Chain(h, ns);
    if 0 < i { assert i <= |ns| && c[i] == ns[i - 1] && c[i] in ns; }
    if j <= |ns| { assert c[j] == ns[j - 1] && c[j] in ns; }
  }

  /** One link of a spliced chain; `c'` is the chain with `n` put in after position `k`. */
  lemma SplicedLink(m: seq<int>, h: Addr, ns: seq<Addr>, k: nat, n: Addr, i: nat)
    requires ListAt(m, h, ns) && k <= |ns| && InMemory(m, n) && Outside(n, h, ns) && i <= |ns| + 1
    ensures var c := Chain(h, ns);
      var c' := Chain(h, Insert(ns, k, n));
      Linked(Splice(m, c[k], c[k + 1], n), c'[i], c'[i + 1])
  {
    var c, c' := Chain(h, ns), Chain(h, Insert(ns, k, n));
    assert c' == c[..k + 1] + [n] + c[k + 1..];
    ApartFromChain(m, h, ns, n);
    if i < k {
      KeptLink(m, h, ns, i, k, n);
    } else if i > k + 1 {
      KeptLink(m, h, ns, i - 1, k, n);
    } else {
      ChainDistinct(m, h, ns, k, k + 1);
    }
  }

  /** Links other than the broken one survive the stores. */
  lemma KeptLink(m: seq<int>, h: Addr, ns: seq<Addr>, i: nat, k: nat, n: Addr)
    requires ListAt(m, h, ns) && k <= |ns| && i <= |ns| && i != k && InMemory(m, n) && Outside(n, h, ns)
    ensures var c := Chain(h, ns); Linked(Splice(m, c[k], c[k + 1], n), c[i], c[i + 1])
  {
    var c := Chain(h, ns);
    assert Linked(m, c[i], c[i + 1]) && Linked(m, c[k], c[k + 1]);
    ApartFromChain(m, h, ns, n);
    if i < k { ChainDistinct(m, h, ns, i, k); } else { ChainDistinct(m, h, ns, k, i); }
    if i < k + 1 { ChainDistinct(m, h, ns, i, k + 1); } else if i > k + 1 { ChainDistinct(m, h, ns, k + 1, i); }
    if i + 1 < k { ChainDistinct(m, h, ns, i + 1, k); } else if i + 1 > k { ChainDistinct(m, h, ns, k, i + 1); }
    if i < k { ChainDistinct(m, h, ns, i + 1, k + 1); } else { ChainDistinct(m, h, ns, k + 1, i + 1); }
  }

  lemma ApartFromChain(m: seq<int>, h: Addr, ns: seq<Addr>, n: Addr)
    requires ListAt(m, h, ns) && Outside(n, h, ns)
    ensures forall i :: 0 <= i < |ns| + 2 ==>
      var x := Chain(h, ns)[i];
      x != n && x != n + PREV && x + PREV != n && x + PREV != n + PREV
  {
    forall i | 0 <= i < |ns| + 2
      ensures var x := Chain(h, ns)[i]; x != n && x != n + PREV && x + PREV != n && x + PREV != n + PREV
    {
      if 1 <= i <= |ns| { assert Chain(h, ns)[i] in ns; }
    }
  }

  lemma SpliceList(m: seq<int>, h: Addr, ns: seq<Addr>, k: nat, n: Addr)
    requires ListAt(m, h, ns) && k <= |ns| && InMemory(m, n) && Outside(n, h, ns)
    ensures var c := Chain(h, ns);
      c[k] < |m| && c[k + 1] + PREV < |m| && ListAt(Splice(m, c[k], c[k + 1], n), h, Insert(ns, k, n))
  {
    var c := Chain(h, ns);
    assert Linked(m, c[k], c[k + 1]);
    var m', ns' := Splice(m, c[k], c[k + 1], n), Insert(ns, k, n);
    assert m'[h + TAIL] == NULL by {
      ApartFromChain(m, h, ns, n);
      assert c[|ns| + 1] == h + TAIL;
      if k > 0 { assert c[k] in ns; }
      if k < |ns| { assert c[k + 1] in ns; }
    }
    forall x | x in ns'
      ensures InMemory(m', x) && NodeApartHeader(x, h)
    {
      assert x == n || x in ns;
    }
    forall i, j | 0 <= i < j < |ns'|
      ensures NodesApart(ns'[i], ns'[j])
    {
      assert ns'[i] == n || ns'[i] in ns;
      assert ns'[j] == n || ns'[j] in ns;
      if i != k && j != k {
        assert ns'[i] == ns[if i < k then i else i - 1];
        assert ns'[j] == ns[if j < k then j else j - 1];
      }
    }
    forall i | 0 <= i <= |ns'|
      ensures Linked(m', Chain(h, ns')[i], Chain(h, ns')[i + 1])
    {
      SplicedLink(m, h, ns, k, n, i);
    }
  }

  /** Links other than those of the k-th node survive the stores; `c[k]` and `c[k + 2]` get linked. */
  lemma BypassKeptLink(m: seq<int>, h: Addr, ns: seq<Addr>, k: nat, i: nat)
    requires ListAt(m, h, ns) && k < |ns| && i <= |ns| && i != k && i != k + 1
    ensures var c := Chain(h, ns);
      c[k] < |m| && c[k + 2] + PREV < |m| && Linked(Bypass(m, c[k], c[k + 2]), c[i], c[i + 1])
  {
    var c := Chain(h, ns);
    assert Linked(m, c[k], c[k + 1]) && Linked(m, c[k + 1], c[k + 2]) && Linked(m, c[i], c[i + 1]);
    if i < k {
      ChainDistinct(m, h, ns, i, k);
      ChainDistinct(m, h, ns, i, k + 2);
      ChainDistinct(m, h, ns, i + 1, k + 2);
      if i + 1 < k { ChainDistinct(m, h, ns, i + 1, k); }
    } else {
      ChainDistinct(m, h, ns, k, i);
      ChainDistinct(m, h, ns, k, i + 1);
      ChainDistinct(m, h, ns, k + 2, i + 1);
      if k + 2 < i { ChainDistinct(m, h, ns, k + 2, i); }
    }
  }

  lemma BypassNewLink(m: seq<int>, h: Addr, ns: seq<Addr>, k: nat)
    requires ListAt(m, h, ns) && k < |ns|
    ensures var c := Chain(h, ns);
      c[k] < |m| && c[k + 2] + PREV < |m| && Linked(Bypass(m, c[k], c[k + 2]), c[k], c[k + 2])
  {
    var c := Chain(h, ns);
    assert Linked(m, c[k], c[k + 1]) && Linked(m, c[k + 1], c[k + 2]);
    ChainDistinct(m, h, ns, k, k + 2);
  }

  lemma BypassedLink(m: seq<int>, h: Addr, ns: seq<Addr>, k: nat, i: nat)
    requires ListAt(m, h, ns) && k < |ns| && i < |ns|
    ensures var c := Chain(h, ns);
      var c' := Chain(h, Delete(ns, k));
      c[k] < |m| && c[k + 2] + PREV < |m| && Linked(Bypass(m, c[k], c[k + 2]), c'[i], c'[i + 1])
  {
    hide ListAt, Linked, Bypass;
    var c, c' := Chain(h, ns), Chain(h, Delete(ns, k));
    assert c' == c[..k + 1] + c[k + 2..];
    if i < k {
      BypassKeptLink(m, h, ns, k, i);
    } else if i > k {
      BypassKeptLink(m, h, ns, k, i + 1);
    } else {
      BypassNewLink(m, h, ns, k);
    }
  }

  lemma BypassList(m: seq<int>, h: Addr, ns: seq<Addr>, k: nat)
    requires ListAt(m, h, ns) && k < |ns|
    ensures var c := Chain(h, ns);
      c[k] < |m| && c[k + 2] + PREV < |m| && ListAt(Bypass(m, c[k], c[k + 2]), h, Delete(ns, k))
  {
    var c := Chain(h, ns);
    BypassedLink(m, h, ns, k, 0);
    var m', ns' := Bypass(m, c[k], c[k + 2]), Delete(ns, k);
    assert c[k + 1] in ns;
    if k > 0 { assert c[k] in ns; }
    if k + 1 < |ns| { assert c[k + 2] in ns; }
    forall x | x in ns' ensures InMemory(m', x) && NodeApartHeader(x, h) { assert x in ns; }
    forall i, j | 0 <= i < j < |ns'|
      ensures NodesApart(ns'[i], ns'[j])
    {
      assert ns'[i] == ns[if i < k then i else i + 1];
      assert ns'[j] == ns[if j < k then j else j + 1];
    }
    forall i | 0 <= i <= |ns'| ensures Linked(m', Chain(h, ns')[i], Chain(h, ns')[i + 1]) {
      BypassedLink(m, h, ns, k, i);
    }
  }

  // ----- the same over the whole world: every other list is unchanged

  /** Stores to one list miss every other. */
  lemma SpliceOther(m: seq<int>, h: Addr, ns: seq<Addr>, k: nat, n: Addr, g: Addr, gs: seq<Addr>)
    requires ListAt(m, h, ns) && ListAt(m, g, gs) && Separate(h, ns, g, gs) && k <= |ns| && InMemory(m, n) && Outside(n, g, gs)
    ensures var c := Chain(h, ns);
      c[k] < |m| && c[k + 1] + PREV < |m| && ListAt(Splice(m, c[k], c[k + 1], n), g, gs)
  {
    var c := Chain(h, ns);
    assert Linked(m, c[k], c[k + 1]);
    if k > 0 { assert c[k] in ns; }
    if k < |ns| { assert c[k + 1] in ns; }
    ListFrame(m, Splice(m, c[k], c[k + 1], n), g, gs);
  }

  lemma InsertApart(ls: map<Addr, seq<Addr>>, h: Addr, k: nat, n: Addr, f: Addr, g: Addr)
    requires h in ls && f in ls && g in ls && f != g && k <= |ls[h]| && Separate(f, ls[f], g, ls[g])
    requires Outside(n, f, ls[f]) && Outside(n, g, ls[g])
    ensures var ls' := ls[h := Insert(ls[h], k, n)]; Separate(f, ls'[f], g, ls'[g])
  {
    var ns' := Insert(ls[h], k, n);
    forall x | x in ns' ensures x == n || x in ls[h] {}
  }

  lemma SpliceWorld(m: seq<int>, ls: map<Addr, seq<Addr>>, h: Addr, k: nat, n: Addr)
    requires World(m, ls) && h in ls && k <= |ls[h]| && Unlinked(m, ls, n)
    ensures var c := Chain(h, ls[h]);
      c[k] < |m| && c[k + 1] + PREV < |m|
      && World(Splice(m, c[k], c[k + 1], n), ls[h := Insert(ls[h], k, n)])
  {
    hide ListAt, Separate, Outside, Insert, Splice;
    var c, ns' := Chain(h, ls[h]), Insert(ls[h], k, n);
    SpliceList(m, h, ls[h], k, n);
    var m', ls' := Splice(m, c[k], c[k + 1], n), ls[h := ns'];
    forall g | g in ls' && g != h ensures ListAt(m', g, ls'[g]) { SpliceOther(m, h, ls[h], k, n, g, ls[g]); }
    forall f, g | f in ls' && g in ls' && f != g ensures Separate(f, ls'[f], g, ls'[g]) { InsertApart(ls, h, k, n, f, g); }
  }

  lemma BypassOther(m: seq<int>, h: Addr, ns: seq<Addr>, k: nat, g: Addr, gs: seq<Addr>)
    requires ListAt(m, h, ns) && ListAt(m, g, gs) && Separate(h, ns, g, gs) && k < |ns|
    ensures var c := Chain(h, ns);
      c[k] < |m| && c[k + 2] + PREV < |m| && ListAt(Bypass(m, c[k], c[k + 2]), g, gs)
  {
    var c := Chain(h, ns);
    assert Linked(m, c[k], c[k + 1]) && Linked(m, c[k + 1], c[k + 2]);
    if k > 0 { assert c[k] in ns; }
    if k + 1 < |ns| { assert c[k + 2] in ns; }
    ListFrame(m, Bypass(m, c[k], c[k + 2]), g, gs);
  }

  lemma DeleteApart(ls: map<Addr, seq<Addr>>, h: Addr, k: nat, f: Addr, g: Addr)
    requires h in ls && f in ls && g in ls && f != g && k < |ls[h]| && Separate(f, ls[f], g, ls[g])
    ensures var ls' := ls[h := Delete(ls[h], k)]; Separate(f, ls'[f], g, ls'[g])
  {
    forall x | x in Delete(ls[h], k) ensures x in ls[h] {}
  }

  /** A node taken out of its list is outside what is left of it. */
  lemma DeletedOutside(m: seq<int>, h: Addr, ns: seq<Addr>, k: nat)
    requires ListAt(m, h, ns) && k < |ns|
    ensures Outside(ns[k], h, Delete(ns, k)) && InMemory(m, ns[k])
  {
    var n, ns' := ns[k], Delete(ns, k);
    assert n in ns;
    forall x | x in ns' ensures NodesApart(n, x) {
      var i :| 0 <= i < |ns'| && ns'[i] == x;
      assert x == ns[if i < k then i else i + 1];
    }
  }

  lemma NodeOutside(h: Addr, ns: seq<Addr>, g: Addr, gs: seq<Addr>, n: Addr)
    requires Separate(h, ns, g, gs) && n in ns
    ensures Outside(n, g, gs)
  {}

  lemma BypassWorld(m: seq<int>, ls: map<Addr, seq<Addr>>, h: Addr, k: nat)
    requires World(m, ls) && h in ls && k < |ls[h]|
    ensures var c := Chain(h, ls[h]);
      c[k] < |m| && c[k + 2] + PREV < |m|
      && World(Bypass(m, c[k], c[k + 2]), ls[h := Delete(ls[h], k)])
      && Unlinked(Bypass(m, c[k], c[k + 2]), ls[h := Delete(ls[h], k)], ls[h][k])
  {
    hide ListAt, Separate, Outside, Delete, Bypass;
    var c, ns' := Chain(h, ls[h]), Delete(ls[h], k);
    BypassList(m, h, ls[h], k);
    var m', ls' := Bypass(m, c[k], c[k + 2]), ls[h := ns'];
    forall g | g in ls' && g != h ensures ListAt(m', g, ls'[g]) { BypassOther(m, h, ls[h], k, g, ls[g]); }
    forall f, g | f in ls' && g in ls' && f != g ensures Separate(f, ls'[f], g, ls'[g]) { DeleteApart(ls, h, k, f, g); }
    var n := ls[h][k];
    DeletedOutside(m, h, ls[h], k);
    forall g | g in ls' ensures Outside(n, g, ls'[g]) {
      if g != h { NodeOutside(h, ls[h], g, ls[g], n); }
    }
  }

  /** Linking a node that another list still holds wrecks that other list. */
  lemma SpliceStealsNode(m: seq<int>, ls: map<Addr, seq<Addr>>, h: Addr, k: nat, g: Addr, n: Addr)
    requires World(m, ls) && h in ls && g in ls && h != g && k <= |ls[h]| && n in ls[g]
    ensures var c := Chain(h, ls[h]);
      c[k] < |m| && c[k + 1] + PREV < |m| && n + PREV < |m|
      && !ListAt(Splice(m, c[k], c[k + 1], n), g, ls[g])
  {
    var c, d := Chain(h, ls[h]), Chain(g, ls[g]);
    assert Linked(m, c[k], c[k + 1]) && InMemory(m, n);
    assert Separate(h, ls[h], g, ls[g]) && Separate(g, ls[g], h, ls[h]);
    var i :| 0 <= i < |ls[g]| && ls[g][i] == n;
    assert Linked(m, d[i], d[i + 1]) && d[i + 1] == n;
    if i > 0 { assert d[i] in ls[g]; }
    if k > 0 { assert c[k] in ls[h]; }
    if k < |ls[h]| { assert c[k + 1] in ls[h]; }
    assert !Linked(Splice(m, c[k], c[k + 1], n), d[i], d[i + 1]);
  }

  // ----- priorities

  /** The position enqueue() chooses: before the first priority that is at most `p`. */
  function Slot(pris: seq<int>, p: int): (k: nat)
    ensures k <= |pris|
    ensures forall i :: 0 <= i < k ==> pris[i] > p
    ensures k < |pris| ==> pris[k] <= p
  {
    if pris == [] || p >= pris[0] then 0 else 1 + Slot(pris[1..], p)
  }

  lemma SlotUnique(pris: seq<int>, p: int, k: nat)
    requires k <= |pris| && (forall i :: 0 <= i < k ==> pris[i] > p) && (k < |pris| ==> pris[k] <= p)
    ensures k == Slot(pris, p)
  {
  }

  ghost predicate Descending(pris: seq<int>) {
    forall i, j :: 0 <= i < j < |pris| ==> pris[i] >= pris[j]
  }

  lemma SlotKeepsDescending(pris: seq<int>, p: int)
    requires Descending(pris)
    ensures var k := Slot(pris, p); Descending(pris[..k] + [p] + pris[k..])
  {
    hide Slot;
    var k := Slot(pris, p);
    forall i | k <= i < |pris| ensures pris[i] <= p { if i > k { assert pris[k] >= pris[i]; } }
    var r := pris[..k] + [p] + pris[k..];
    forall i, j | 0 <= i < j < |r| ensures r[i] >= r[j] {
      var a, b := if i < k then i else i - 1, if j < k then j else j - 1;
      if i != k && j != k { assert r[i] == pris[a] && r[j] == pris[b] && pris[a] >= pris[b]; }
    }
  }

  ghost function Pris(m: seq<int>, ns: seq<Addr>): (ps: seq<int>)
    requires forall i :: 0 <= i < |ns| ==> InMemory(m, ns[i])
    ensures |ps| == |ns| && forall i :: 0 <= i < |ns| ==> InMemory(m, ns[i]) && ps[i] == m[ns[i] + PRI]
  {
    seq(|ns|, i requires 0 <= i < |ns| => assert InMemory(m, ns[i]); m[ns[i] + PRI])
  }

  // ----- the operations of list.c

  method NewList(mem: array<int>, list: Addr, ghost ls: map<Addr, seq<Addr>>)
    requires World(mem[..], ls) && NULL < list && list + HEADER_WORDS <= mem.Length
    requires forall h :: h in ls && h != list ==>
      HeadersApart(list, h) && forall n :: n in ls[h] ==> NodeApartHeader(n, list)
    modifies mem
    ensures mem[..] == old(mem[..])[list := list + TAIL][list + TAIL := NULL][list + TAIL_PREV := list]
    ensures World(mem[..], ls[list := []])
  {
    hide ListAt;
    mem[list] := list + TAIL;
    mem[list + TAIL] := NULL;
    mem[list + TAIL_PREV] := list;
    ghost var m, m' := old(mem[..]), mem[..];
    assert m' == m[list := list + TAIL][list + TAIL := NULL][list + TAIL_PREV := list];
    NewListAt(m, list);
    forall h | h in ls && h != list ensures ListAt(m', h, ls[h]) && Separate(h, ls[h], list, []) && Separate(list, [], h, ls[h]) {
      NewListApart(m, list, h, ls[h]);
    }
  }

  lemma NewListAt(m: seq<int>, h: Addr)
    requires NULL < h && h + HEADER_WORDS <= |m|
    ensures ListAt(m[h := h + TAIL][h + TAIL := NULL][h + TAIL_PREV := h], h, [])
  {
    var m' := m[h := h + TAIL][h + TAIL := NULL][h + TAIL_PREV := h];
    forall i | 0 <= i <= 0 ensures Linked(m', Chain(h, [])[i], Chain(h, [])[i + 1]) {}
  }

  lemma NewListApart(m: seq<int>, list: Addr, h: Addr, ns: seq<Addr>)
    requires list + HEADER_WORDS <= |m| && ListAt(m, h, ns)
    requires HeadersApart(list, h) && forall n :: n in ns ==> NodeApartHeader(n, list)
    ensures ListAt(m[list := list + TAIL][list + TAIL := NULL][list + TAIL_PREV := list], h, ns)
    ensures Separate(h, ns, list, []) && Separate(list, [], h, ns)
  {
    ListFrame(m, m[list := list + TAIL][list + TAIL := NULL][list + TAIL_PREV := list], h, ns);
  }

  method AddHead(mem: array<int>, list: Addr, node: Addr, ghost ls: map<Addr, seq<Addr>>)
    requires World(mem[..], ls) && list in ls && Unlinked(mem[..], ls, node)
    modifies mem
    ensures Spliced(old(mem[..]), mem[..], list, ls[list], 0, node)
    ensures World(mem[..], ls[list := [node] + ls[list]])
  {
    ghost var m, c := mem[..], Chain(list, ls[list]);
    SpliceWorld(m, ls, list, 0, node);
    assert Insert(ls[list], 0, node) == [node] + ls[list];
    assert Linked(m, c[0], c[1]);
    ApartFromChain(m, list, ls[list], node);
    mem[node] := mem[list];
    mem[node + PREV] := list;
    mem[mem[list] + PREV] := node;
    mem[list] := node;
    assert mem[..] == Splice(m, list, c[1], node);
  }

  method AddTail(mem: array<int>, list: Addr, node: Addr, ghost ls: map<Addr, seq<Addr>>)
    requires World(mem[..], ls) && list in ls && Unlinked(mem[..], ls, node)
    modifies mem
    ensures Spliced(old(mem[..]), mem[..], list, ls[list], |ls[list]|, node)
    ensures World(mem[..], ls[list := ls[list] + [node]])
  {
    ghost var m, c, n := mem[..], Chain(list, ls[list]), |ls[list]|;
    SpliceWorld(m, ls, list, n, node);
    assert Insert(ls[list], n, node) == ls[list] + [node];
    assert Linked(m, c[n], list + TAIL);
    ApartFromChain(m, list, ls[list], node);
    if n > 0 { assert c[n] in ls[list]; }
    mem[node] := list + TAIL;
    mem[node + PREV] := mem[list + TAIL_PREV];
    mem[mem[list + TAIL_PREV]] := node;
    mem[list + TAIL_PREV] := node;
    assert mem[..] == Splice(m, c[n], list + TAIL, node);
  }

  /** Unlinks a node knowing only the node, at either end or in the middle. */
  method Remove(mem: array<int>, node: Addr, ghost ls: map<Addr, seq<Addr>>, ghost h: Addr, ghost k: nat)
    requires World(mem[..], ls) && h in ls && k < |ls[h]| && node == ls[h][k]
    modifies mem
    ensures Bypassed(old(mem[..]), mem[..], h, ls[h], k)
    ensures World(mem[..], ls[h := Delete(ls[h], k)])
    ensures Unlinked(mem[..], ls[h := Delete(ls[h], k)], node)
  {
    ghost var m, c := mem[..], Chain(h, ls[h]);
    BypassWorld(m, ls, h, k);
    NodeLinks(m, h, ls[h], k);
    ChainDistinct(m, h, ls[h], k, k + 1);
    mem[mem[node + PREV]] := mem[node];
    mem[mem[node] + PREV] := mem[node + PREV];
    assert mem[..] == Bypass(m, c[k], c[k + 2]);
  }

  method RemoveHead(mem: array<int>, list: Addr, ghost ls: map<Addr, seq<Addr>>) returns (r: Addr)
    requires World(mem[..], ls) && list in ls
    modifies mem
    ensures ls[list] == [] ==> r == NULL && mem[..] == old(mem[..])
    ensures ls[list] != [] ==> r == ls[list][0] && World(mem[..], ls[list := ls[list][1..]])
    ensures ls[list] != [] ==> Unlinked(mem[..], ls[list := ls[list][1..]], r)
    ensures ls[list] != [] ==> Bypassed(old(mem[..]), mem[..], list, ls[list], 0)
  {
    ghost var m, ns, c := mem[..], ls[list], Chain(list, ls[list]);
    assert Linked(m, c[0], c[1]);
    if ns == [] {
      assert mem[list] == list + TAIL;
    } else {
      BypassWorld(m, ls, list, 0);
      assert Delete(ns, 0) == ns[1..];
      assert Linked(m, c[1], c[2]) && c[1] in ns;
      if |ns| > 1 { assert c[2] in ns; }
    }
    var node := mem[mem[list]];
    r := NULL;
    if node != NULL {
      mem[node + PREV] := list;
      r := mem[list];
      mem[list] := mem[r];
      assert mem[..] == Bypass(m, list, c[2]);
    }
  }

  /**
   On a non-empty list the last node goes.  On an empty one the code stores through
   NULL, clears tailPrev and hands out the header itself: no list is left there.
   */
  method RemoveTail(mem: array<int>, list: Addr, ghost ls: map<Addr, seq<Addr>>) returns (r: Addr)
    requires World(mem[..], ls) && list in ls
    modifies mem
    ensures ls[list] != [] ==> var n := |ls[list]| - 1;
      && r == ls[list][n] && World(mem[..], ls[list := ls[list][..n]])
      && Unlinked(mem[..], ls[list := ls[list][..n]], r)
    ensures ls[list] == [] ==> r == list && forall ns :: !ListAt(mem[..], list, ns)
  {
    ghost var m, ns, c := mem[..], ls[list], Chain(list, ls[list]);
    ghost var n := |ns|;
    assert Linked(m, c[n], c[n + 1]);
    if ns != [] {
      BypassWorld(m, ls, list, n - 1);
      assert Delete(ns, n - 1) == ns[..n - 1];
      assert Linked(m, c[n - 1], c[n]);
      ChainDistinct(m, list, ns, n - 1, n);
    }
    r := mem[list + TAIL_PREV];
    if r != NULL {
      mem[mem[r + PREV]] := mem[r];
      mem[mem[r] + PREV] := mem[r + PREV];
    }
    if ns != [] {
      assert mem[..] == Bypass(m, c[n - 1], c[n + 1]);
    } else {
      assert mem[list + TAIL_PREV] == NULL;
      forall xs ensures !ListAt(mem[..], list, xs) {
        var d := Chain(list, xs);
        assert |xs| > 0 ==> d[|xs|] in xs;
        assert !Linked(mem[..], d[|xs|], d[|xs| + 1]) || !ListAt(mem[..], list, xs);
      }
    }
  }

  method GetHead(mem: array<int>, list: Addr, ghost ls: map<Addr, seq<Addr>>) returns (r: Addr)
    requires list != NULL ==> World(mem[..], ls) && list in ls
    ensures r == if list == NULL || ls[list] == [] then NULL else ls[list][0]
  {
    r := NULL;
    if list != NULL {
      ListEnds(mem[..], list, ls[list]);
      if mem[mem[list]] != NULL {
        r := mem[list];
      }
    }
  }

  method GetTail(mem: array<int>, list: Addr, ghost ls: map<Addr, seq<Addr>>) returns (r: Addr)
    requires list != NULL ==> World(mem[..], ls) && list in ls
    ensures r == if list == NULL || ls[list] == [] then NULL else ls[list][|ls[list]| - 1]
  {
    r := NULL;
    if list != NULL {
      ListEnds(mem[..], list, ls[list]);
      if mem[mem[list]] != NULL {
        r := mem[list + TAIL_PREV];
      }
    }
  }

  /** Emptiness is visible in the word after the first hop, from either sentinel. */
  lemma ListEnds(m: seq<int>, h: Addr, ns: seq<Addr>)
    requires ListAt(m, h, ns)
    ensures 0 <= m[h] < |m| && 0 <= m[h + TAIL_PREV] < |m|
    ensures m[m[h]] == NULL <==> ns == []
    ensures ns != [] ==> m[h] == ns[0] && m[h + TAIL_PREV] == ns[|ns| - 1]
  {
    var c := Chain(h, ns);
    assert Linked(m, c[0], c[1]) && Linked(m, c[|ns|], c[|ns| + 1]);
    if ns != [] {
      assert Linked(m, c[1], c[2]);
      if |ns| > 1 { assert c[2] in ns; }
    }
  }

  /** What a node of a list has in its two link words. */
  lemma NodeLinks(m: seq<int>, h: Addr, ns: seq<Addr>, k: nat)
    requires ListAt(m, h, ns) && k < |ns|
    ensures ns[k] in ns && ns[k] + PREV < |m|
    ensures m[ns[k]] == Chain(h, ns)[k + 2] && m[ns[k] + PREV] == Chain(h, ns)[k]
    ensures Chain(h, ns)[k + 2] + PREV < |m| && Chain(h, ns)[k] + PREV < |m|
    ensures m[Chain(h, ns)[k + 2]] == NULL <==> k + 1 == |ns|
    ensures m[Chain(h, ns)[k] + PREV] == NULL <==> k == 0
  {
    var c := Chain(h, ns);
    assert Linked(m, c[k], c[k + 1]) && Linked(m, c[k + 1], c[k + 2]);
    if k + 1 < |ns| {
      assert Linked(m, c[k + 2], c[k + 3]) && c[k + 2] in ns;
      if k + 2 < |ns| { assert c[k + 3] in ns; }
    }
    if k > 0 {
      assert Linked(m, c[k - 1], c[k]) && c[k] in ns;
      if k > 1 { assert c[k - 1] in ns; }
    }
  }

  method GetNext(mem: array<int>, node: Addr, ghost ls: map<Addr, seq<Addr>>, ghost h: Addr, ghost k: nat)
    returns (r: Addr)
    requires node != NULL ==> World(mem[..], ls) && h in ls && k < |ls[h]| && node == ls[h][k]
    ensures r == if node == NULL || k + 1 == |ls[h]| then NULL else ls[h][k + 1]
  {
    r := NULL;
    if node != NULL {
      NodeLinks(mem[..], h, ls[h], k);
      if mem[node] != NULL && mem[mem[node]] != NULL {
        r := mem[node];
      }
    }
  }

  /**
   get_prev() returns the NEXT link, so for the last of several nodes it returns the
   address of the tail sentinel.  It agrees with its name exactly on a first node,
   where it returns NULL.
   */
  method GetPrev(mem: array<int>, node: Addr, ghost ls: map<Addr, seq<Addr>>, ghost h: Addr, ghost k: nat)
    returns (r: Addr)
    requires node != NULL ==> World(mem[..], ls) && h in ls && k < |ls[h]| && node == ls[h][k]
    ensures node == NULL ==> r == NULL
    ensures node != NULL ==> r == if k == 0 then NULL else Chain(h, ls[h])[k + 2]
    ensures node != NULL ==> (r == (if k == 0 then NULL else ls[h][k - 1]) <==> k == 0)
  {
    r := NULL;
    if node != NULL {
      NodeLinks(mem[..], h, ls[h], k);
      if k > 0 {
        assert Chain(h, ls[h])[k] in ls[h];
        ChainDistinct(mem[..], h, ls[h], k, k + 2);
      }
      if mem[node + PREV] != NULL && mem[mem[node + PREV] + PREV] != NULL {
        r := mem[node];
      }
    }
  }

  /** The four stores with which enqueue() puts a node in front of another. */
  method LinkBefore(mem: array<int>, next: Addr, node: Addr, ghost ls: map<Addr, seq<Addr>>, ghost h: Addr, ghost k: nat)
    requires World(mem[..], ls) && h in ls && k < |ls[h]| && next == ls[h][k] && Unlinked(mem[..], ls, node)
    modifies mem
    ensures Spliced(old(mem[..]), mem[..], h, ls[h], k, node)
    ensures World(mem[..], ls[h := Insert(ls[h], k, node)])
  {
    ghost var m, c := mem[..], Chain(h, ls[h]);
    SpliceWorld(m, ls, h, k, node);
    NodeLinks(m, h, ls[h], k);
    ApartFromChain(m, h, ls[h], node);
    ChainDistinct(m, h, ls[h], k, k + 1);
    mem[node] := next;
    mem[node + PREV] := mem[next + PREV];
    mem[mem[next + PREV]] := node;
    mem[next + PREV] := node;
    assert mem[..] == Splice(m, c[k], c[k + 1], node);
  }

  /**
   Insertion by priority.  The new node goes before the first node whose priority is
   at most its own, that is, in front of its equals.
   */
  method Enqueue(mem: array<int>, list: Addr, node: Addr, ghost ls: map<Addr, seq<Addr>>)
    requires World(mem[..], ls) && list in ls && Unlinked(mem[..], ls, node)
    modifies mem
    ensures var k := Slot(Pris(old(mem[..]), ls[list]), old(mem[node + PRI]));
      Spliced(old(mem[..]), mem[..], list, ls[list], k, node) && World(mem[..], ls[list := Insert(ls[list], k, node)])
  {
    hide World, Unlinked, ListAt, Chain, Insert, Spliced, Slot;
    ListInMemory(mem[..], ls, list);
    UnlinkedInMemory(mem[..], ls, node);
    ghost var m, ns, i := mem[..], ls[list], 0;
    ghost var pris := Pris(m, ns);
    var next := GetHead(mem, list, ls);
    while next != NULL
      invariant mem[..] == m && 0 <= i <= |ns|
      invariant next == if i == |ns| then NULL else ns[i]
      invariant forall j :: 0 <= j < i ==> pris[j] > m[node + PRI]
      decreases |ns| - i
    {
      if mem[node + PRI] >= mem[next + PRI] {
        SlotUnique(pris, m[node + PRI], i);
        LinkBefore(mem, next, node, ls, list, i);
        return;
      }
      next := GetNext(mem, next, ls, list, i);
      i := i + 1;
    }
    SlotUnique(pris, m[node + PRI], |ns|);
    InsertLast(ns, node);
    AddTail(mem, list, node, ls);
  }

  lemma ListInMemory(m: seq<int>, ls: map<Addr, seq<Addr>>, h: Addr)
    requires World(m, ls) && h in ls
    ensures h != NULL && forall i :: 0 <= i < |ls[h]| ==> InMemory(m, ls[h][i])
  {
    forall i | 0 <= i < |ls[h]| ensures InMemory(m, ls[h][i]) { assert ls[h][i] in ls[h]; }
  }

  lemma UnlinkedInMemory(m: seq<int>, ls: map<Addr, seq<Addr>>, n: Addr)
    requires Unlinked(m, ls, n)
    ensures InMemory(m, n)
  {}

  lemma InsertLast(ns: seq<Addr>, n: Addr)
    ensures Insert(ns, |ns|, n) == ns + [n]
  {}
}
