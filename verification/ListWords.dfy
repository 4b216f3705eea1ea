/**
 The lists of Lists.dfy word by word: the three words of a header and the five of a node as
 common.h declares them, at their byte offsets divided by four.
 */
module ListWords {
  import opened Lists

  /** The two link words of the k-th node. */
  ghost predicate NodeWords(m: seq<int>, h: Addr, ns: seq<Addr>, k: nat)
    requires k < |ns|
  {
    && 0 < ns[k] && ns[k] + 5 <= |m| && (ns[k] + 5 <= h || h + 3 <= ns[k])
    && m[ns[k]] == (if k + 1 < |ns| then ns[k + 1] else h + 1)
    && m[ns[k] + 1] == (if k > 0 then ns[k - 1] else h)
  }

  /** Header and nodes of a list, no two of them overlapping. */
  ghost predicate InWords(m: seq<int>, h: Addr, ns: seq<Addr>) {
    && 0 < h && h + 3 <= |m|
    && m[h] == (if ns == [] then h + 1 else ns[0])
    && m[h + 1] == 0
    && m[h + 2] == (if ns == [] then h else ns[|ns| - 1])
    && (forall k :: 0 <= k < |ns| ==> NodeWords(m, h, ns, k))
    && (forall i, j :: 0 <= i < j < |ns| ==> ns[i] + 5 <= ns[j] || ns[j] + 5 <= ns[i])
  }

  /** These words, and no others, make a list. */
  lemma ListIffWords(m: seq<int>, h: Addr, ns: seq<Addr>)
    ensures ListAt(m, h, ns) <==> InWords(m, h, ns)
  {
    if ListAt(m, h, ns) { ListHasWords(m, h, ns); }
    if InWords(m, h, ns) { WordsLink(m, h, ns); }
  }

  lemma ListHasWords(m: seq<int>, h: Addr, ns: seq<Addr>)
    requires ListAt(m, h, ns)
    ensures InWords(m, h, ns)
  {
    var c := Chain(h, ns);
    assert Linked(m, c[0], c[1]) && Linked(m, c[|ns|], c[|ns| + 1]);
    forall k | 0 <= k < |ns| ensures NodeWords(m, h, ns, k) {
      assert ns[k] in ns && Linked(m, c[k], c[k + 1]) && Linked(m, c[k + 1], c[k + 2]);
    }
  }

  lemma WordsLink(m: seq<int>, h: Addr, ns: seq<Addr>)
    requires InWords(m, h, ns)
    ensures ListAt(m, h, ns)
  {
    var c := Chain(h, ns);
    forall n | n in ns ensures InMemory(m, n) && NodeApartHeader(n, h) {
      var k :| 0 <= k < |ns| && ns[k] == n;
      assert NodeWords(m, h, ns, k);
    }
    forall i | 0 <= i <= |ns| ensures Linked(m, c[i], c[i + 1]) {
      if i < |ns| { assert NodeWords(m, h, ns, i); }
      if i > 0 { assert NodeWords(m, h, ns, i - 1); }
    }
  }

  /** The fourth word of a node decides where enqueue() puts it. */
  lemma SlotByFourthWord(m: seq<int>, ns: seq<Addr>, node: Addr)
    requires node + 5 <= |m| && forall i :: 0 <= i < |ns| ==> 0 < ns[i] && ns[i] + 5 <= |m|
    ensures var k := Slot(Pris(m, ns), m[node + PRI]);
      && k <= |ns|
      && (forall i {:trigger ns[i]} :: 0 <= i < k ==> m[ns[i] + 3] > m[node + 3])
      && (k < |ns| ==> m[ns[k] + 3] <= m[node + 3])
  {
    var ps := Pris(m, ns);
    forall i | 0 <= i < |ns| ensures ps[i] == m[ns[i] + 3] {}
  }
}
