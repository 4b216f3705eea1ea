/**
 Where thread descriptors, their message ports, message nodes and the two scheduler
 queues lie in memory, and why linking one of them disturbs no other.
 */
module KernelLayout {
  import opened Lists

  /** Word offset of msg_port.message_list inside a thread descriptor. */
  const PORT := 20

  function PortOf(t: Addr): Addr { t + PORT }

  /** `n` keeps clear of every header and of every other node of the world. */
  ghost predicate ClearOf(ls: map<Addr, seq<Addr>>, n: Addr) {
    forall h :: h in ls ==> NodeApartHeader(n, h) && forall x :: x in ls[h] ==> x == n || NodesApart(n, x)
  }

  /** Among the lists are the two queues and a port for each thread. */
  ghost predicate Headers(ls: map<Addr, seq<Addr>>, ready: Addr, wait: Addr, tids: set<Addr>) {
    && ready in ls && wait in ls && ready != wait
    && (forall t :: t in tids ==> PortOf(t) in ls && PortOf(t) != ready && PortOf(t) != wait)
  }

  /** Queues link threads, all other lists link messages. */
  ghost predicate Members(ls: map<Addr, seq<Addr>>, ready: Addr, wait: Addr, tids: set<Addr>, msgs: set<Addr>) {
    && (forall h, n :: h in ls && n in ls[h] ==> if h == ready || h == wait then n in tids else n in msgs)
    && tids !! msgs
  }

  ghost predicate Pool(m: seq<int>, ls: map<Addr, seq<Addr>>, tids: set<Addr>, msgs: set<Addr>, pool: seq<Addr>) {
    && (forall p :: p in pool ==> Unlinked(m, ls, p) && p !in tids && p !in msgs)
    && (forall p, t :: p in pool && t in tids ==> NodesApart(p, t))
    && (forall i, j :: 0 <= i < j < |pool| ==> NodesApart(pool[i], pool[j]))
  }

  ghost predicate Threads(m: seq<int>, ls: map<Addr, seq<Addr>>, tids: set<Addr>) {
    && (forall t :: t in tids ==> InMemory(m, t) && ClearOf(ls, t))
    && (forall t, u :: t in tids && u in tids && t != u ==> NodesApart(t, u))
  }

  ghost predicate Layout(m: seq<int>, ls: map<Addr, seq<Addr>>, ready: Addr, wait: Addr, tids: set<Addr>,
                         msgs: set<Addr>, pool: seq<Addr>) {
    && World(m, ls) && Headers(ls, ready, wait, tids) && Members(ls, ready, wait, tids, msgs)
    && Threads(m, ls, tids) && Pool(m, ls, tids, msgs, pool)
  }

  /** A thread in neither queue is in no list. */
  lemma ThreadUnlinked(m: seq<int>, ls: map<Addr, seq<Addr>>, ready: Addr, wait: Addr, tids: set<Addr>,
                       msgs: set<Addr>, pool: seq<Addr>, t: Addr)
    requires Layout(m, ls, ready, wait, tids, msgs, pool) && t in tids && t !in ls[ready] && t !in ls[wait]
    ensures Unlinked(m, ls, t)
  {
    forall h | h in ls ensures Outside(t, h, ls[h]) {
      assert ClearOf(ls, t) && t !in ls[h];
    }
  }

  ghost predicate SamePriorities(m: seq<int>, m': seq<int>, tids: set<Addr>) {
    |m'| == |m| && forall t :: t in tids ==> t + PRI < |m| && m'[t + PRI] == m[t + PRI]
  }

  /** Linking touches no priority. */
  lemma SpliceKeepsPriorities(m: seq<int>, m': seq<int>, ls: map<Addr, seq<Addr>>, tids: set<Addr>, h: Addr, k: nat, n: Addr)
    requires World(m, ls) && h in ls && Spliced(m, m', h, ls[h], k, n) && Threads(m, ls, tids)
    requires n in tids || forall t :: t in tids ==> NodesApart(t, n)
    ensures SamePriorities(m, m', tids)
  {
    hide ListAt, Separate, Spliced;
    SameSize(m, m', h, ls[h], k, n);
    forall t | t in tids ensures t + PRI < |m| && m'[t + PRI] == m[t + PRI] {
      assert InMemory(m, t) && ClearOf(ls, t);
      SpliceMissesPriority(m, m', h, ls[h], k, n, t);
    }
  }

  lemma SameSize(m: seq<int>, m': seq<int>, h: Addr, ns: seq<Addr>, k: nat, n: Addr)
    requires Spliced(m, m', h, ns, k, n)
    ensures |m'| == |m|
  {}

  lemma SpliceMissesPriority(m: seq<int>, m': seq<int>, h: Addr, ns: seq<Addr>, k: nat, n: Addr, t: Addr)
    requires ListAt(m, h, ns) && Spliced(m, m', h, ns, k, n) && InMemory(m, t) && (t == n || NodesApart(t, n))
    requires NodeApartHeader(t, h) && forall x :: x in ns ==> x == t || NodesApart(t, x)
    ensures m'[t + PRI] == m[t + PRI]
  {
    var c := Chain(h, ns);
    assert Linked(m, c[k], c[k + 1]);
    if k > 0 { assert c[k] in ns; }
    if k < |ns| { assert c[k + 1] in ns; }
  }

  lemma BypassKeepsPriorities(m: seq<int>, m': seq<int>, ls: map<Addr, seq<Addr>>, tids: set<Addr>, h: Addr, k: nat)
    requires World(m, ls) && h in ls && Bypassed(m, m', h, ls[h], k) && Threads(m, ls, tids)
    ensures SamePriorities(m, m', tids)
  {
    hide ListAt, Separate;
    forall t | t in tids ensures t + PRI < |m| && m'[t + PRI] == m[t + PRI] {
      assert InMemory(m, t) && ClearOf(ls, t);
      BypassMissesPriority(m, m', h, ls[h], k, t);
    }
  }

  lemma BypassMissesPriority(m: seq<int>, m': seq<int>, h: Addr, ns: seq<Addr>, k: nat, t: Addr)
    requires ListAt(m, h, ns) && Bypassed(m, m', h, ns, k) && InMemory(m, t)
    requires NodeApartHeader(t, h) && forall x :: x in ns ==> x == t || NodesApart(t, x)
    ensures m'[t + PRI] == m[t + PRI]
  {
    var c := Chain(h, ns);
    assert Linked(m, c[k], c[k + 1]) && Linked(m, c[k + 1], c[k + 2]);
    if k > 0 { assert c[k] in ns; }
    if k + 1 < |ns| { assert c[k + 2] in ns; }
  }

  /** `ns'` is the list at `h` with one more node `n`. */
  ghost predicate Grown(ls: map<Addr, seq<Addr>>, h: Addr, ns': seq<Addr>, n: Addr) {
    h in ls && forall x :: x in ns' <==> x == n || x in ls[h]
  }

  lemma GrownMembers(ls: map<Addr, seq<Addr>>, ready: Addr, wait: Addr, tids: set<Addr>, msgs: set<Addr>,
                     h: Addr, ns': seq<Addr>, n: Addr)
    requires Members(ls, ready, wait, tids, msgs) && Grown(ls, h, ns', n)
    ensures (h == ready || h == wait) && n in tids ==> Members(ls[h := ns'], ready, wait, tids, msgs)
    ensures h != ready && h != wait && n !in tids ==> Members(ls[h := ns'], ready, wait, tids, msgs + {n})
  {}

  lemma GrownThreads(m: seq<int>, m': seq<int>, ls: map<Addr, seq<Addr>>, tids: set<Addr>, h: Addr, ns': seq<Addr>, n: Addr)
    requires Threads(m, ls, tids) && Grown(ls, h, ns', n) && |m'| == |m|
    requires forall t :: t in tids ==> t == n || NodesApart(n, t)
    ensures Threads(m', ls[h := ns'], tids)
  {
    forall u | u in tids ensures InMemory(m', u) && ClearOf(ls[h := ns'], u) { assert ClearOf(ls, u); }
  }

  lemma GrownPool(m: seq<int>, m': seq<int>, ls: map<Addr, seq<Addr>>, tids: set<Addr>, msgs: set<Addr>,
                  pool: seq<Addr>, h: Addr, ns': seq<Addr>, n: Addr)
    requires Pool(m, ls, tids, msgs, pool) && Grown(ls, h, ns', n) && |m'| == |m|
    requires forall p :: p in pool ==> NodesApart(p, n)
    ensures Pool(m', ls[h := ns'], tids, msgs, pool)
  {
    forall p | p in pool ensures Unlinked(m', ls[h := ns'], p) {
      assert Unlinked(m, ls, p);
      forall g | g in ls ensures Outside(p, g, ls[h := ns'][g]) { assert Outside(p, g, ls[g]); }
    }
  }

  /** The world with thread `t` newly linked into queue `q`. */
  lemma LinkThread(m: seq<int>, m': seq<int>, ls: map<Addr, seq<Addr>>, ready: Addr, wait: Addr, tids: set<Addr>,
                   msgs: set<Addr>, pool: seq<Addr>, q: Addr, k: nat, t: Addr)
    requires Layout(m, ls, ready, wait, tids, msgs, pool) && (q == ready || q == wait) && k <= |ls[q]|
    requires t in tids && t !in ls[ready] && t !in ls[wait] && Spliced(m, m', q, ls[q], k, t)
    ensures Layout(m', ls[q := Insert(ls[q], k, t)], ready, wait, tids, msgs, pool)
  {
    ThreadUnlinked(m, ls, ready, wait, tids, msgs, pool, t);
    SpliceWorld(m, ls, q, k, t);
    var ns' := Insert(ls[q], k, t);
    var ls' := ls[q := ns'];
    forall x ensures x in ns' <==> x == t || x in ls[q] { InsertMembers(ls[q], k, t, x); }
    assert Grown(ls, q, ns', t);
    assert World(m', ls');
    assert Members(ls', ready, wait, tids, msgs) by { GrownMembers(ls, ready, wait, tids, msgs, q, ns', t); }
    assert Threads(m', ls', tids) by { GrownThreads(m, m', ls, tids, q, ns', t); }
    assert Pool(m', ls', tids, msgs, pool) by { GrownPool(m, m', ls, tids, msgs, pool, q, ns', t); }
  }

  lemma InsertMembers(ns: seq<Addr>, k: nat, t: Addr, x: Addr)
    requires k <= |ns|
    ensures x in Insert(ns, k, t) <==> x == t || x in ns
  {
    var r := Insert(ns, k, t);
    assert r[k] == t;
    if x in ns {
      var i :| 0 <= i < |ns| && ns[i] == x;
      assert r[if i < k then i else i + 1] == x;
    }
  }

  lemma DeleteMembers(ns: seq<Addr>, k: nat, x: Addr)
    requires k < |ns|
    ensures x in Delete(ns, k) ==> x in ns
    ensures (forall i :: 0 <= i < |ns| && i != k ==> ns[i] != ns[k]) ==> (x in Delete(ns, k) <==> x in ns && x != ns[k])
  {
    var r := Delete(ns, k);
    if x in ns && x != ns[k] {
      var i :| 0 <= i < |ns| && ns[i] == x;
      assert r[if i < k then i else i - 1] == x;
    }
    if x in r {
      var i :| 0 <= i < |r| && r[i] == x;
      assert r[i] == ns[if i < k then i else i + 1];
    }
  }

  /** Unlinking the k-th node of any list. */
  lemma Unlink(m: seq<int>, m': seq<int>, ls: map<Addr, seq<Addr>>, ready: Addr, wait: Addr, tids: set<Addr>,
               msgs: set<Addr>, pool: seq<Addr>, h: Addr, k: nat)
    requires Layout(m, ls, ready, wait, tids, msgs, pool) && h in ls && k < |ls[h]| && Bypassed(m, m', h, ls[h], k)
    ensures Layout(m', ls[h := Delete(ls[h], k)], ready, wait, tids, msgs, pool)
    ensures Unlinked(m', ls[h := Delete(ls[h], k)], ls[h][k])
  {
    hide ListAt, Separate, Delete, Bypassed, World, Outside;
    var ls' := ls[h := Delete(ls[h], k)];
    BypassedWorld(m, m', ls, h, k);
    forall x ensures x in ls'[h] ==> x in ls[h] { DeleteMembers(ls[h], k, x); }
    forall g, x | g in ls' && x in ls'[g] ensures x in ls[g] {}
    assert Headers(ls', ready, wait, tids);
    assert Members(ls', ready, wait, tids, msgs);
    assert Threads(m', ls', tids) by {
      forall u | u in tids ensures InMemory(m', u) && ClearOf(ls', u) { assert ClearOf(ls, u); }
    }
    assert Pool(m', ls', tids, msgs, pool) by {
      forall p | p in pool ensures Unlinked(m', ls', p) {
        assert Unlinked(m, ls, p);
        forall g | g in ls' ensures Outside(p, g, ls'[g]) { OutsideFewer(p, g, ls[g], ls'[g]); }
      }
    }
  }

  lemma BypassedWorld(m: seq<int>, m': seq<int>, ls: map<Addr, seq<Addr>>, h: Addr, k: nat)
    requires World(m, ls) && h in ls && k < |ls[h]| && Bypassed(m, m', h, ls[h], k)
    ensures |m'| == |m| && World(m', ls[h := Delete(ls[h], k)]) && Unlinked(m', ls[h := Delete(ls[h], k)], ls[h][k])
  {
    hide World, Unlinked, Delete;
    BypassWorld(m, ls, h, k);
  }

  lemma OutsideFewer(n: Addr, h: Addr, ns: seq<Addr>, fewer: seq<Addr>)
    requires Outside(n, h, ns) && forall x :: x in fewer ==> x in ns
    ensures Outside(n, h, fewer)
  {}

  /** A block of the pool becomes the last message of a port. */
  lemma LinkMessage(m: seq<int>, m': seq<int>, ls: map<Addr, seq<Addr>>, ready: Addr, wait: Addr, tids: set<Addr>,
                    msgs: set<Addr>, pool: seq<Addr>, t: Addr)
    requires Layout(m, ls, ready, wait, tids, msgs, pool) && t in tids && pool != []
    requires PortOf(t) in ls && Spliced(m, m', PortOf(t), ls[PortOf(t)], |ls[PortOf(t)]|, pool[0])
    ensures var h, n := PortOf(t), pool[0];
      Layout(m', ls[h := ls[h] + [n]], ready, wait, tids, msgs + {n}, pool[1..])
  {
    hide ListAt, Separate, Threads;
    var h: Addr, n: Addr := PortOf(t), pool[0];
    var k := |ls[h]|;
    assert n in pool && Unlinked(m, ls, n);
    assert Insert(ls[h], k, n) == ls[h] + [n];
    SpliceWorld(m, ls, h, k, n);
    var ns', rest := ls[h] + [n], pool[1..];
    var ls' := ls[h := ns'];
    assert Grown(ls, h, ns', n);
    assert World(m', ls');
    assert Members(ls', ready, wait, tids, msgs + {n}) by { GrownMembers(ls, ready, wait, tids, msgs, h, ns', n); }
    assert Threads(m', ls', tids) by { GrownThreads(m, m', ls, tids, h, ns', n); }
    assert Pool(m', ls', tids, msgs + {n}, rest) by {
      PoolTail(m, ls, tids, msgs, pool);
      GrownPool(m, m', ls, tids, msgs + {n}, rest, h, ns', n);
    }
  }

  lemma PoolTail(m: seq<int>, ls: map<Addr, seq<Addr>>, tids: set<Addr>, msgs: set<Addr>, pool: seq<Addr>)
    requires Pool(m, ls, tids, msgs, pool) && pool != []
    ensures Pool(m, ls, tids, msgs + {pool[0]}, pool[1..])
    ensures forall p :: p in pool[1..] ==> NodesApart(p, pool[0])
  {
    forall p | p in pool[1..] ensures p in pool && NodesApart(p, pool[0]) {
      var i :| 0 < i < |pool| && pool[i] == p;
      assert NodesApart(pool[0], pool[i]);
    }
  }

  /** An unlinked message block goes back to the pool. */
  lemma FreeMessage(m: seq<int>, ls: map<Addr, seq<Addr>>, ready: Addr, wait: Addr, tids: set<Addr>,
                    msgs: set<Addr>, pool: seq<Addr>, n: Addr)
    requires Layout(m, ls, ready, wait, tids, msgs, pool) && Unlinked(m, ls, n) && n in msgs
    requires forall p :: p in pool ==> NodesApart(p, n)
    requires forall t :: t in tids ==> NodesApart(n, t)
    ensures Layout(m, ls, ready, wait, tids, msgs - {n}, pool + [n])
  {
    assert Members(ls, ready, wait, tids, msgs - {n}) by {
      forall h, x | h in ls && x in ls[h] && h != ready && h != wait ensures x in msgs - {n} {
        assert Outside(n, h, ls[h]);
      }
    }
    assert Pool(m, ls, tids, msgs - {n}, pool + [n]) by {
      forall p | p in pool + [n] ensures Unlinked(m, ls, p) && p !in tids && p !in msgs - {n} {
        assert p == n || p in pool;
      }
      forall i, j | 0 <= i < j < |pool + [n]| ensures NodesApart((pool + [n])[i], (pool + [n])[j]) {
        assert (pool + [n])[i] in pool;
      }
    }
  }

  /** Fresh memory for a thread descriptor: nothing known touches its node or its port header. */
  ghost predicate FreshThread(m: seq<int>, ls: map<Addr, seq<Addr>>, tids: set<Addr>, msgs: set<Addr>, pool: seq<Addr>, t: Addr) {
    && t !in tids && t !in msgs && Unlinked(m, ls, t) && PortOf(t) + HEADER_WORDS <= |m|
    && (forall h :: h in ls ==> HeadersApart(PortOf(t), h) && forall n :: n in ls[h] ==> NodeApartHeader(n, PortOf(t)))
    && (forall u :: u in tids || u in pool ==> NodesApart(t, u) && NodeApartHeader(u, PortOf(t)))
  }

  lemma AddThread(m: seq<int>, m': seq<int>, ls: map<Addr, seq<Addr>>, ready: Addr, wait: Addr, tids: set<Addr>,
                  msgs: set<Addr>, pool: seq<Addr>, t: Addr)
    requires Layout(m, ls, ready, wait, tids, msgs, pool) && FreshThread(m, ls, tids, msgs, pool, t) && |m'| == |m|
    requires World(m', ls[PortOf(t) := []])
    ensures Layout(m', ls[PortOf(t) := []], ready, wait, tids + {t}, msgs, pool)
    ensures PortOf(t) !in ls
  {
    hide World;
    var h: Addr := PortOf(t);
    var ls', tids' := ls[h := []], tids + {t};
    assert Headers(ls', ready, wait, tids');
    assert Members(ls', ready, wait, tids', msgs);
    assert Threads(m', ls', tids') by {
      forall u | u in tids' ensures InMemory(m', u) && ClearOf(ls', u) {
        if u != t { assert ClearOf(ls, u); }
      }
    }
    assert Pool(m', ls', tids', msgs, pool) by {
      forall p | p in pool ensures Unlinked(m', ls', p) && p !in tids' {
        assert Unlinked(m, ls, p);
        forall g | g in ls' ensures Outside(p, g, ls'[g]) {
          if g != h { assert Outside(p, g, ls[g]); }
        }
      }
    }
  }
}
