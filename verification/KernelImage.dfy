/**
 What one word memory with its linked lists, the thread descriptors and the message
 bodies say about the threads: the abstraction from the kernel's data to Scheduler.dfy,
 and what each store through the lists does to it.
 */
module KernelImage {
  import opened Common
  import opened Lists
  import opened KernelLayout
  import S = Scheduler
  import I = SchedulerInvariant

  /** A thread descriptor without its links, its priority and its message list. */
  datatype Descriptor = Descriptor(
    uid: nat,
    run: bool, wait: bool, ready: bool, signal: bool, launch: bool,
    sigWait: S.Signals, sigRecvd: S.Signals,
    kernelEsp: S.Context, numMsg: nat)

  function Bodies(ns: seq<Addr>, msgs: map<Addr, S.Message>): (r: seq<S.Message>)
    requires forall n :: n in ns ==> n in msgs
    ensures |r| == |ns| && forall i :: 0 <= i < |ns| ==> ns[i] in msgs && r[i] == msgs[ns[i]]
  {
    seq(|ns|, i requires 0 <= i < |ns| => assert ns[i] in ns; msgs[ns[i]])
  }

  function ThreadOf(d: Descriptor, pri: int, port: seq<S.Message>): S.Thread {
    S.Thread(pri, d.uid, d.run, d.wait, d.ready, d.signal, d.launch, d.sigWait, d.sigRecvd, d.kernelEsp, port, d.numMsg)
  }

  /** Every reference from the descriptors into memory and lists resolves. */
  ghost predicate Resolves(ds: map<Addr, Descriptor>, m: seq<int>, ls: map<Addr, seq<Addr>>, bodies: map<Addr, S.Message>) {
    forall t :: t in ds ==>
      t + PRI < |m| && PortOf(t) in ls && forall n :: n in ls[PortOf(t)] ==> n in bodies
  }

  ghost predicate QueueResolves(ds: map<Addr, Descriptor>, ls: map<Addr, seq<Addr>>, q: Addr) {
    q in ls && forall t :: t in ls[q] ==> t in ds
  }

  ghost function ThreadMap(ds: map<Addr, Descriptor>, m: seq<int>, ls: map<Addr, seq<Addr>>, bodies: map<Addr, S.Message>)
    : (r: map<Addr, S.Thread>)
    requires Resolves(ds, m, ls, bodies)
    ensures r.Keys == ds.Keys
  {
    map t | t in ds :: ThreadOf(ds[t], m[t + PRI], Bodies(ls[PortOf(t)], bodies))
  }

  /** Changing one descriptor, its port and message bodies outside other ports changes one thread. */
  lemma OneThreadChanges(ds: map<Addr, Descriptor>, m: seq<int>, ls: map<Addr, seq<Addr>>, bodies: map<Addr, S.Message>,
                         ds': map<Addr, Descriptor>, m': seq<int>, ls': map<Addr, seq<Addr>>, bodies': map<Addr, S.Message>,
                         t: Addr)
    requires Resolves(ds, m, ls, bodies) && Resolves(ds', m', ls', bodies') && t in ds && ds'.Keys == ds.Keys
    requires forall u :: u in ds ==> u + PRI < |m| && u + PRI < |m'| && m'[u + PRI] == m[u + PRI]
    requires forall u :: u in ds && u != t ==> ds'[u] == ds[u] && ls'[PortOf(u)] == ls[PortOf(u)]
    requires forall u, n :: u in ds && u != t && n in ls[PortOf(u)] ==> n in bodies && n in bodies' && bodies'[n] == bodies[n]
    ensures ThreadMap(ds', m', ls', bodies') ==
      ThreadMap(ds, m, ls, bodies)[t := ThreadOf(ds'[t], m[t + PRI], Bodies(ls'[PortOf(t)], bodies'))]
  {
    forall u | u in ds && u != t ensures Bodies(ls'[PortOf(u)], bodies') == Bodies(ls[PortOf(u)], bodies) {
      var ns := ls[PortOf(u)];
      forall i | 0 <= i < |ns| ensures Bodies(ns, bodies')[i] == Bodies(ns, bodies)[i] { assert ns[i] in ns; }
    }
  }

  lemma DescriptorChanges(ds: map<Addr, Descriptor>, m: seq<int>, ls: map<Addr, seq<Addr>>, bodies: map<Addr, S.Message>,
                          t: Addr, d: Descriptor)
    requires Resolves(ds, m, ls, bodies) && t in ds
    ensures Resolves(ds[t := d], m, ls, bodies) && ds[t := d].Keys == ds.Keys
    ensures ThreadMap(ds[t := d], m, ls, bodies) ==
      ThreadMap(ds, m, ls, bodies)[t := ThreadOf(d, m[t + PRI], Bodies(ls[PortOf(t)], bodies))]
  {
    OneThreadChanges(ds, m, ls, bodies, ds[t := d], m, ls, bodies, t);
  }

  lemma ListDistinct(m: seq<int>, h: Addr, ns: seq<Addr>)
    requires ListAt(m, h, ns)
    ensures Distinct(ns)
  {}

  /** Relinking a queue changes no thread. */
  lemma QueueKeepsThreads(ds: map<Addr, Descriptor>, m: seq<int>, m': seq<int>, ls: map<Addr, seq<Addr>>,
                          bodies: map<Addr, S.Message>, ready: Addr, wait: Addr, q: Addr, ns: seq<Addr>)
    requires Resolves(ds, m, ls, bodies) && Headers(ls, ready, wait, ds.Keys) && (q == ready || q == wait)
    requires |m'| == |m| && forall t :: t in ds ==> t + PRI < |m| && m'[t + PRI] == m[t + PRI]
    ensures Resolves(ds, m', ls[q := ns], bodies)
    ensures ThreadMap(ds, m', ls[q := ns], bodies) == ThreadMap(ds, m, ls, bodies)
  {}

  /** The memory of a kernel and everything read from it, as one value. */
  datatype Image = Image(
    m: seq<int>, ls: map<Addr, seq<Addr>>, ready: Addr, wait: Addr,
    ds: map<Addr, Descriptor>, bodies: map<Addr, S.Message>, pool: seq<Addr>)

  ghost predicate ImageOk(i: Image) {
    && Layout(i.m, i.ls, i.ready, i.wait, i.ds.Keys, i.bodies.Keys, i.pool)
    && Resolves(i.ds, i.m, i.ls, i.bodies)
    && QueueResolves(i.ds, i.ls, i.ready) && QueueResolves(i.ds, i.ls, i.wait)
  }

  ghost function Abstract(i: Image): (r: map<Addr, S.Thread>)
    requires ImageOk(i)
    ensures r.Keys == i.ds.Keys
  {
    ThreadMap(i.ds, i.m, i.ls, i.bodies)
  }

  /** The abstract priorities are the words enqueue() compares. */
  lemma PrioritiesInMemory(i: Image, q: seq<Addr>)
    requires ImageOk(i) && forall t :: t in q ==> t in i.ds
    ensures forall k :: 0 <= k < |q| ==> InMemory(i.m, q[k])
    ensures S.Priorities(Abstract(i), q) == Pris(i.m, q)
  {
    hide World, Headers, Members, Pool;
    forall k | 0 <= k < |q| ensures InMemory(i.m, q[k]) { assert q[k] in q && q[k] in i.ds; }
    var ps := S.Priorities(Abstract(i), q);
    forall k | 0 <= k < |q| ensures ps[k] == Pris(i.m, q)[k] { assert q[k] in q && q[k] in i.ds; }
  }

  lemma QueueStillResolves(ds: map<Addr, Descriptor>, ls: map<Addr, seq<Addr>>, ready: Addr, wait: Addr, q: Addr, ns: seq<Addr>)
    requires QueueResolves(ds, ls, ready) && QueueResolves(ds, ls, wait) && forall t :: t in ns ==> t in ds
    ensures QueueResolves(ds, ls[q := ns], ready) && QueueResolves(ds, ls[q := ns], wait)
  {}

  /** A changed image is in order if its layout is and no priority moved. */
  lemma QueueImageOk(i: Image, m': seq<int>, q: Addr, ns: seq<Addr>) returns (r: Image)
    requires ImageOk(i) && (q == i.ready || q == i.wait) && SamePriorities(i.m, m', i.ds.Keys) && forall t :: t in ns ==> t in i.ds
    requires Layout(m', i.ls[q := ns], i.ready, i.wait, i.ds.Keys, i.bodies.Keys, i.pool)
    ensures r == i.(m := m', ls := i.ls[q := ns]) && ImageOk(r) && Abstract(r) == Abstract(i)
  {
    hide Layout, QueueResolves, Resolves, ThreadMap;
    r := i.(m := m', ls := i.ls[q := ns]);
    assert Headers(i.ls, i.ready, i.wait, i.ds.Keys) by { LayoutParts(i); }
    QueueKeepsThreads(i.ds, i.m, m', i.ls, i.bodies, i.ready, i.wait, q, ns);
    QueueStillResolves(i.ds, i.ls, i.ready, i.wait, q, ns);
  }

  lemma LayoutParts(i: Image)
    requires ImageOk(i)
    ensures World(i.m, i.ls) && Headers(i.ls, i.ready, i.wait, i.ds.Keys) && Threads(i.m, i.ls, i.ds.Keys)
    ensures i.ready in i.ls && i.wait in i.ls
  {
    hide World, Headers, Threads, Members, Pool, Resolves;
  }

  /** What enqueue() needs to know of the list and the thread. */
  lemma EnqueueReady(i: Image, q: Addr, t: Addr)
    requires ImageOk(i) && (q == i.ready || q == i.wait) && t in i.ds && t !in i.ls[i.ready] && t !in i.ls[i.wait]
    ensures World(i.m, i.ls) && q in i.ls && Unlinked(i.m, i.ls, t)
    ensures forall k :: 0 <= k < |i.ls[q]| ==> InMemory(i.m, i.ls[q][k])
    ensures S.Enqueued(Abstract(i), i.ls[q], t) == Insert(i.ls[q], Slot(Pris(i.m, i.ls[q]), i.m[t + PRI]), t)
    ensures InMemory(i.m, t)
    ensures Known(i, q) && forall x :: x in S.Enqueued(Abstract(i), i.ls[q], t) ==> x in i.ds
  {
    hide ImageOk, Abstract, World, Threads, Unlinked, Insert, Slot, InMemory;
    LayoutParts(i);
    QueueKnown(i, q);
    PrioritiesInMemory(i, i.ls[q]);
    LooseThread(i, t);
  }

  lemma QueueKnown(i: Image, q: Addr)
    requires ImageOk(i) && (q == i.ready || q == i.wait)
    ensures q in i.ls && forall t :: t in i.ls[q] ==> t in i.ds
  {
    hide Layout, Resolves;
  }

  lemma LooseThread(i: Image, t: Addr)
    requires ImageOk(i) && t in i.ds && t !in i.ls[i.ready] && t !in i.ls[i.wait]
    ensures Unlinked(i.m, i.ls, t) && InMemory(i.m, t) && Abstract(i)[t].pri == i.m[t + PRI]
  {
    hide Layout, Unlinked;
    ThreadUnlinked(i.m, i.ls, i.ready, i.wait, i.ds.Keys, i.bodies.Keys, i.pool, t);
    UnlinkedInMemory(i.m, i.ls, t);
  }

  ghost predicate Known(i: Image, q: Addr)
    requires ImageOk(i)
  {
    q in i.ls && S.Known(Abstract(i), i.ls[q])
  }

  /** The image after enqueue() of a thread in neither queue. */
  lemma EnqueueImage(i: Image, m': seq<int>, q: Addr, t: Addr, k: nat) returns (r: Image)
    requires ImageOk(i) && (q == i.ready || q == i.wait) && t in i.ds && t !in i.ls[i.ready] && t !in i.ls[i.wait]
    requires k <= |i.ls[q]| && Spliced(i.m, m', q, i.ls[q], k, t)
    ensures r == i.(m := m', ls := i.ls[q := Insert(i.ls[q], k, t)])
    ensures ImageOk(r) && Abstract(r) == Abstract(i)
  {
    hide Layout, Resolves, ThreadMap, Insert, Spliced, World, Threads;
    LayoutParts(i);
    SpliceKeepsPriorities(i.m, m', i.ls, i.ds.Keys, q, k, t);
    LinkThread(i.m, m', i.ls, i.ready, i.wait, i.ds.Keys, i.bodies.Keys, i.pool, q, k, t);
    forall x ensures x in Insert(i.ls[q], k, t) ==> x == t || x in i.ls[q] {
      InsertMembers(i.ls[q], k, t, x);
    }
    r := QueueImageOk(i, m', q, Insert(i.ls[q], k, t));
  }

  lemma QueuesDistinct(i: Image)
    requires ImageOk(i)
    ensures Distinct(i.ls[i.wait]) && Distinct(i.ls[i.ready])
  {
    hide Headers, Members, Threads, Pool, Separate;
    ListDistinct(i.m, i.wait, i.ls[i.wait]);
    ListDistinct(i.m, i.ready, i.ls[i.ready]);
  }

  /** The image after remove() of the k-th thread of a queue. */
  lemma RemoveImage(i: Image, m': seq<int>, q: Addr, k: nat) returns (r: Image)
    requires ImageOk(i) && (q == i.ready || q == i.wait) && k < |i.ls[q]| && Bypassed(i.m, m', q, i.ls[q], k)
    ensures i.ls[q][k] !in Delete(i.ls[q], k)
    ensures r == i.(m := m', ls := i.ls[q := Delete(i.ls[q], k)])
    ensures ImageOk(r) && Abstract(r) == Abstract(i)
  {
    hide Layout, Resolves, ThreadMap, Delete, Bypassed, World, Threads;
    LayoutParts(i);
    BypassKeepsPriorities(i.m, m', i.ls, i.ds.Keys, q, k);
    Unlink(i.m, m', i.ls, i.ready, i.wait, i.ds.Keys, i.bodies.Keys, i.pool, q, k);
    QueuesDistinct(i);
    forall x ensures x in Delete(i.ls[q], k) ==> x in i.ls[q] { DeleteMembers(i.ls[q], k, x); }
    DeleteMembers(i.ls[q], k, i.ls[q][k]);
    r := QueueImageOk(i, m', q, Delete(i.ls[q], k));
  }

  /** Every reference of the abstract queues resolves. */
  lemma ImageKnown(i: Image)
    requires ImageOk(i)
    ensures i.ready in i.ls && i.wait in i.ls && i.ready != i.wait
    ensures S.Known(Abstract(i), i.ls[i.ready]) && S.Known(Abstract(i), i.ls[i.wait])
    ensures Abstract(i).Keys == i.ds.Keys
  {
    hide World, Members, Threads, Pool, Resolves;
  }

  /** One thread, as its descriptor, its priority word and its port have it. */
  ghost function ThreadAt(i: Image, t: Addr): (r: S.Thread)
    requires Resolves(i.ds, i.m, i.ls, i.bodies) && t in i.ds
    ensures ThreadMap(i.ds, i.m, i.ls, i.bodies)[t] == r
  {
    ThreadOf(i.ds[t], i.m[t + PRI], Bodies(i.ls[PortOf(t)], i.bodies))
  }

  lemma ThreadAtIs(i: Image, t: Addr, d: Descriptor)
    requires ImageOk(i) && t in i.ds
    ensures i.(ds := i.ds[t := d]).ds == i.ds[t := d]
    ensures ImageOk(i.(ds := i.ds[t := d]))
    ensures Abstract(i.(ds := i.ds[t := d])) == Abstract(i)[t := ThreadOf(d, Abstract(i)[t].pri, Abstract(i)[t].port)]
    ensures Abstract(i)[t] == ThreadOf(i.ds[t], Abstract(i)[t].pri, Abstract(i)[t].port)
  {
    hide World, Headers, Members, Threads, Pool;
    DescriptorChanges(i.ds, i.m, i.ls, i.bodies, t, d);
    assert i.ds[t := d].Keys == i.ds.Keys;
  }

  ghost function Woken(th: S.Thread, flags: S.Signals): S.Thread {
    th.(sigRecvd := th.sigRecvd + flags, sigWait := th.sigWait - flags, wait := false, ready := true)
  }

  /** Removing a waiting thread removes it from the wait queue alone. */
  lemma MovesToReady(s: S.State, t: Addr, flags: S.Signals, k: nat)
    requires S.Closed(s) && t in s.threads && t !in s.ready && k < |s.waiting| && s.waiting[k] == t && Distinct(s.waiting)
    ensures S.MakeReady(s, t, flags) == s.(needSchedule := true, ready := S.Enqueued(s.threads, s.ready, t),
              waiting := Delete(s.waiting, k), threads := s.threads[t := Woken(s.threads[t], flags)])
  {
    hide S.Enqueued;
    I.WithoutAbsent(s.ready, t);
    I.WithoutIsDelete(s.waiting, k);
  }

  lemma SignalKeeps(s: S.State, t: Addr, flags: S.Signals)
    requires S.Closed(s) && t in s.threads && s.threads[t].sigWait * flags == {}
    ensures S.Signal(s, t, flags) == s
  {}

  lemma SignalMakesReady(s: S.State, t: Addr, flags: S.Signals)
    requires S.Closed(s) && t in s.threads && s.threads[t].sigWait * flags != {}
    ensures S.Signal(s, t, flags) == S.MakeReady(s, t, flags)
  {
    hide S.MakeReady;
  }

  // ----- message ports

  lemma BodiesAppend(ns: seq<Addr>, msgs: map<Addr, S.Message>, n: Addr, data: S.Message)
    requires (forall x :: x in ns ==> x in msgs) && n !in ns
    ensures Bodies(ns + [n], msgs[n := data]) == Bodies(ns, msgs) + [data]
  {
    var r := Bodies(ns + [n], msgs[n := data]);
    forall i | 0 <= i < |ns| ensures r[i] == Bodies(ns, msgs)[i] { assert ns[i] in ns; }
  }

  lemma BodiesTail(ns: seq<Addr>, msgs: map<Addr, S.Message>)
    requires (forall x :: x in ns ==> x in msgs) && ns != [] && Distinct(ns)
    ensures forall x :: x in ns[1..] ==> x in msgs - {ns[0]}
    ensures Bodies(ns[1..], msgs - {ns[0]}) == Bodies(ns, msgs)[1..]
  {
    forall x | x in ns[1..] ensures x in msgs - {ns[0]} { assert x in ns; }
  }

  lemma PortsApart(i: Image, t: Addr)
    requires ImageOk(i) && t in i.ds
    ensures PortOf(t) in i.ls && PortOf(t) != i.ready && PortOf(t) != i.wait
    ensures forall u :: u in i.ds && u != t ==> PortOf(u) in i.ls && PortOf(u) != PortOf(t)
  {
    hide World, Members, Threads, Pool, Resolves;
  }

  /** A port keeps its messages when bodies of other ports come and go. */
  lemma PortsKeep(i: Image, t: Addr, ls': map<Addr, seq<Addr>>, bodies': map<Addr, S.Message>, m': seq<int>, pool': seq<Addr>)
    requires ImageOk(i) && t in i.ds && PortOf(t) in ls' && ls' == i.ls[PortOf(t) := ls'[PortOf(t)]]
    requires (forall n :: n in ls'[PortOf(t)] ==> n in bodies')
    requires forall u, n :: u in i.ds && u != t && n in i.ls[PortOf(u)] ==> n in bodies' && n in i.bodies && bodies'[n] == i.bodies[n]
    requires SamePriorities(i.m, m', i.ds.Keys)
    requires Layout(m', ls', i.ready, i.wait, i.ds.Keys, bodies'.Keys, pool')
    ensures var r := Image(m', ls', i.ready, i.wait, i.ds, bodies', pool');
      ImageOk(r) && Abstract(r) == Abstract(i)[t := Abstract(i)[t].(port := Bodies(ls'[PortOf(t)], bodies'))]
  {
    hide Layout, ThreadMap, Headers;
    PortsApart(i, t);
    assert forall u :: u in i.ds && u != t ==> ls'[PortOf(u)] == i.ls[PortOf(u)];
    assert Resolves(i.ds, m', ls', bodies');
    OneThreadChanges(i.ds, i.m, i.ls, i.bodies, i.ds, m', ls', bodies', t);
    assert Abstract(i)[t] == ThreadAt(i, t);
  }

  ghost predicate CanPost(i: Image, t: Addr) {
    ImageOk(i) && t in i.ds && i.pool != []
  }

  /** The list of messages of a thread. */
  ghost function PortList(i: Image, t: Addr): (r: seq<Addr>)
    requires ImageOk(i) && t in i.ds
    ensures PortOf(t) in i.ls && r == i.ls[PortOf(t)]
    ensures forall n :: n in r ==> n in i.bodies
    ensures Abstract(i)[t].port == Bodies(r, i.bodies)
  {
    PortsApart(i, t);
    assert Abstract(i)[t] == ThreadAt(i, t);
    i.ls[PortOf(t)]
  }

  /** `r` is the head node of a thread's port and holds its first message, or NULL for an empty port. */
  ghost predicate HeadMessage(i: Image, t: Addr, r: Addr)
    requires ImageOk(i) && t in i.ds
  {
    var ns, port := PortList(i, t), Abstract(i)[t].port;
    && (port == [] <==> ns == [])
    && (ns == [] ==> r == NULL)
    && (ns != [] ==> r == ns[0] && r in i.bodies && i.bodies[r] == port[0])
  }

  /** `r` is `i` with the head node of a thread's port back among the free blocks, or `i` if there is none. */
  ghost predicate HeadFreed(i: Image, r: Image, t: Addr)
    requires ImageOk(i) && t in i.ds
  {
    var ns := PortList(i, t);
    if ns == [] then r == i
    else r == i.(m := r.m, ls := i.ls[PortOf(t) := ns[1..]], bodies := i.bodies - {ns[0]}, pool := i.pool + [ns[0]])
  }

  lemma PostReady(i: Image, t: Addr)
    requires CanPost(i, t)
    ensures World(i.m, i.ls) && PortOf(t) in i.ls && Unlinked(i.m, i.ls, i.pool[0])
    ensures i.pool[0] !in i.bodies && i.pool[0] !in i.ds && forall u :: u in i.ds ==> NodesApart(u, i.pool[0])
    ensures InMemory(i.m, i.pool[0]) && Threads(i.m, i.ls, i.ds.Keys)
  {
    hide World, Members, Threads;
    assert i.pool[0] in i.pool;
  }

  /** Messages lie in one port only. */
  lemma PortNodesElsewhere(i: Image, t: Addr)
    requires ImageOk(i) && t in i.ds
    ensures Distinct(PortList(i, t))
    ensures forall u, n :: u in i.ds && u != t && PortOf(u) in i.ls && n in i.ls[PortOf(u)] ==> n in i.bodies && n !in PortList(i, t)
  {
    hide ImageOk, Abstract, World, Separate, Outside, ListAt, Threads;
    LayoutParts(i);
    PortsApart(i, t);
    WorldLists(i.m, i.ls, PortOf(t));
    ListDistinct(i.m, PortOf(t), PortList(i, t));
    forall u, n | u in i.ds && u != t && PortOf(u) in i.ls && n in i.ls[PortOf(u)]
      ensures n in i.bodies && n !in PortList(i, t)
    {
      PortsApart(i, u);
      assert PortOf(t) != PortOf(u);
      assert n in PortList(i, u);
      NodesElsewhere(i.m, i.ls, PortOf(u), PortOf(t), n);
    }
  }

  lemma WorldLists(m: seq<int>, ls: map<Addr, seq<Addr>>, h: Addr)
    requires World(m, ls) && h in ls
    ensures ListAt(m, h, ls[h])
  {}

  lemma NodesElsewhere(m: seq<int>, ls: map<Addr, seq<Addr>>, h: Addr, g: Addr, n: Addr)
    requires World(m, ls) && h in ls && g in ls && h != g && n in ls[h]
    ensures n !in ls[g]
  {
    hide ListAt;
    assert Separate(h, ls[h], g, ls[g]);
  }

  /** The image after a message with text `data` went to the end of the port of `t`. */
  lemma PostImage(i: Image, m': seq<int>, t: Addr, data: S.Message) returns (r: Image)
    requires CanPost(i, t) && Spliced(i.m, m', PortOf(t), PortList(i, t), |PortList(i, t)|, i.pool[0])
    ensures r == i.(m := m', ls := i.ls[PortOf(t) := PortList(i, t) + [i.pool[0]]],
                    bodies := i.bodies[i.pool[0] := data], pool := i.pool[1..])
    ensures ImageOk(r) && Abstract(r) == Abstract(i)[t := Abstract(i)[t].(port := Abstract(i)[t].port + [data])]
  {
    hide ImageOk, Layout, World, Unlinked, Threads, Spliced, Abstract;
    var n, ns := i.pool[0], PortList(i, t);
    PostReady(i, t);
    PostLayout(i, m', t);
    PortNodesElsewhere(i, t);
    PortsApart(i, t);
    BodiesAppend(ns, i.bodies, n, data);
    var bodies' := i.bodies[n := data];
    assert bodies'.Keys == i.bodies.Keys + {n};
    PortsKeep(i, t, i.ls[PortOf(t) := ns + [n]], bodies', m', i.pool[1..]);
    r := Image(m', i.ls[PortOf(t) := ns + [n]], i.ready, i.wait, i.ds, bodies', i.pool[1..]);
  }

  /** The layout after add_tail() of a fresh message. */
  lemma PostLayout(i: Image, m': seq<int>, t: Addr)
    requires CanPost(i, t) && Spliced(i.m, m', PortOf(t), PortList(i, t), |PortList(i, t)|, i.pool[0])
    ensures var n, ns := i.pool[0], PortList(i, t);
      Layout(m', i.ls[PortOf(t) := ns + [n]], i.ready, i.wait, i.ds.Keys, i.bodies.Keys + {n}, i.pool[1..])
    ensures SamePriorities(i.m, m', i.ds.Keys)
  {
    hide Layout, Spliced, Resolves, QueueResolves, SamePriorities;
    PostReady(i, t);
    LinkMessage(i.m, m', i.ls, i.ready, i.wait, i.ds.Keys, i.bodies.Keys, i.pool, t);
    SpliceKeepsPriorities(i.m, m', i.ls, i.ds.Keys, PortOf(t), |i.ls[PortOf(t)]|, i.pool[0]);
  }

  ghost predicate CanCycle(i: Image, t: Addr) {
    ImageOk(i) && t in i.ds && PortList(i, t) != []
  }

  /** The layout after remove_head() and kfree() of the first message. */
  lemma CycleLayout(i: Image, m': seq<int>, t: Addr)
    requires CanCycle(i, t) && Bypassed(i.m, m', PortOf(t), PortList(i, t), 0)
    ensures var ns := PortList(i, t);
      Layout(m', i.ls[PortOf(t) := ns[1..]], i.ready, i.wait, i.ds.Keys, i.bodies.Keys - {ns[0]}, i.pool + [ns[0]])
    ensures SamePriorities(i.m, m', i.ds.Keys)
  {
    hide Layout, Bypassed, Resolves, QueueResolves, SamePriorities;
    var h: Addr, ns := PortOf(t), PortList(i, t);
    LayoutParts(i);
    BypassKeepsPriorities(i.m, m', i.ls, i.ds.Keys, h, 0);
    Unlink(i.m, m', i.ls, i.ready, i.wait, i.ds.Keys, i.bodies.Keys, i.pool, h, 0);
    assert Delete(ns, 0) == ns[1..];
    HeadApart(i, t);
    FreeMessage(m', i.ls[h := ns[1..]], i.ready, i.wait, i.ds.Keys, i.bodies.Keys, i.pool, ns[0]);
  }

  lemma HeadApart(i: Image, t: Addr)
    requires CanCycle(i, t)
    ensures PortList(i, t)[0] in i.bodies
    ensures forall p :: p in i.pool ==> NodesApart(p, PortList(i, t)[0])
    ensures forall u :: u in i.ds ==> NodesApart(PortList(i, t)[0], u)
  {
    hide World, Abstract;
    var n, h: Addr := PortList(i, t)[0], PortOf(t);
    assert n in i.ls[h];
    forall p | p in i.pool ensures NodesApart(p, n) { assert Outside(p, h, i.ls[h]); }
    forall u | u in i.ds ensures NodesApart(n, u) { assert ClearOf(i.ls, u); }
  }

  /** The image after the first message of the port of `t` was freed. */
  lemma CycleImage(i: Image, m': seq<int>, t: Addr) returns (r: Image)
    requires CanCycle(i, t) && Bypassed(i.m, m', PortOf(t), PortList(i, t), 0)
    ensures r == i.(m := m', ls := i.ls[PortOf(t) := PortList(i, t)[1..]],
                    bodies := i.bodies - {PortList(i, t)[0]}, pool := i.pool + [PortList(i, t)[0]])
    ensures ImageOk(r) && Abstract(r) == Abstract(i)[t := Abstract(i)[t].(port := Abstract(i)[t].port[1..])]
  {
    hide ImageOk, Layout, World, Threads, Bypassed, Abstract;
    var ns := PortList(i, t);
    CycleLayout(i, m', t);
    PortNodesElsewhere(i, t);
    PortsApart(i, t);
    BodiesTail(ns, i.bodies);
    var bodies' := i.bodies - {ns[0]};
    assert bodies'.Keys == i.bodies.Keys - {ns[0]};
    assert ns[0] in ns;
    PortsKeep(i, t, i.ls[PortOf(t) := ns[1..]], bodies', m', i.pool + [ns[0]]);
    r := Image(m', i.ls[PortOf(t) := ns[1..]], i.ready, i.wait, i.ds, bodies', i.pool + [ns[0]]);
  }

  // ----- new threads

  /** Storing outside the links of every list keeps the world. */
  lemma WorldFrame(m: seq<int>, ls: map<Addr, seq<Addr>>, t: Addr, p: int)
    requires World(m, ls) && Unlinked(m, ls, t)
    ensures World(m[t + PRI := p], ls) && Unlinked(m[t + PRI := p], ls, t)
  {
    var m' := m[t + PRI := p];
    forall h | h in ls ensures ListAt(m', h, ls[h]) {
      assert Outside(t, h, ls[h]);
      ListFrame(m, m', h, ls[h]);
    }
  }

  /** The stores of create_thread() before enqueue(). */
  ghost predicate Prepared(m: seq<int>, m': seq<int>, t: Addr, pri: int) {
    && t + PORT + HEADER_WORDS <= |m|
    && m' == m[t + PRI := pri][PortOf(t) := PortOf(t) + TAIL][PortOf(t) + TAIL := NULL][PortOf(t) + TAIL_PREV := PortOf(t)]
  }

  lemma PreparedPriorities(i: Image, m': seq<int>, t: Addr, pri: int)
    requires ImageOk(i) && FreshThread(i.m, i.ls, i.ds.Keys, i.bodies.Keys, i.pool, t) && Prepared(i.m, m', t, pri)
    ensures SamePriorities(i.m, m', i.ds.Keys) && m'[t + PRI] == pri
  {
    hide World, Members, Headers, Pool, Resolves, QueueResolves;
    forall u | u in i.ds ensures u + PRI < |i.m| && m'[u + PRI] == i.m[u + PRI] {
      assert NodesApart(t, u) && NodeApartHeader(u, PortOf(t)) && InMemory(i.m, u);
    }
  }

  /** The image with one more thread, its port empty, in no queue yet. */
  lemma NewThreadImage(i: Image, m': seq<int>, t: Addr, pri: int, d: Descriptor) returns (r: Image)
    requires ImageOk(i) && FreshThread(i.m, i.ls, i.ds.Keys, i.bodies.Keys, i.pool, t) && Prepared(i.m, m', t, pri)
    requires World(m', i.ls[PortOf(t) := []])
    ensures r == i.(m := m', ls := i.ls[PortOf(t) := []], ds := i.ds[t := d])
    ensures ImageOk(r) && Abstract(r) == Abstract(i)[t := ThreadOf(d, pri, [])]
    ensures t !in i.ds && t !in r.ls[r.ready] && t !in r.ls[r.wait]
    ensures PortOf(t) != i.ready && PortOf(t) != i.wait
  {
    hide World, Layout, FreshThread, Prepared, ThreadMap;
    r := i.(m := m', ls := i.ls[PortOf(t) := []], ds := i.ds[t := d]);
    PreparedPriorities(i, m', t, pri);
    NewThreadLayout(i, m', t);
    assert r.ds.Keys == i.ds.Keys + {t};
    assert Resolves(r.ds, m', r.ls, i.bodies);
    NewThreadMap(i, r, t, pri);
  }

  lemma NewThreadLayout(i: Image, m': seq<int>, t: Addr)
    requires ImageOk(i) && FreshThread(i.m, i.ls, i.ds.Keys, i.bodies.Keys, i.pool, t) && |m'| == |i.m|
    requires World(m', i.ls[PortOf(t) := []])
    ensures Layout(m', i.ls[PortOf(t) := []], i.ready, i.wait, i.ds.Keys + {t}, i.bodies.Keys, i.pool)
    ensures PortOf(t) !in i.ls && t !in i.ds && i.ready in i.ls && i.wait in i.ls && t + PRI < |m'|
    ensures forall u :: u in i.ds ==> PortOf(u) in i.ls && PortOf(u) != PortOf(t)
  {
    AddThread(i.m, m', i.ls, i.ready, i.wait, i.ds.Keys, i.bodies.Keys, i.pool, t);
  }

  lemma NewThreadMap(i: Image, r: Image, t: Addr, pri: int)
    requires Resolves(i.ds, i.m, i.ls, i.bodies) && Resolves(r.ds, r.m, r.ls, r.bodies) && r.bodies == i.bodies
    requires t !in i.ds && t in r.ds && r.ds == i.ds[t := r.ds[t]] && SamePriorities(i.m, r.m, i.ds.Keys) && r.m[t + PRI] == pri
    requires r.ls == i.ls[PortOf(t) := []]
    requires forall u :: u in i.ds ==> PortOf(u) in i.ls && PortOf(u) != PortOf(t)
    ensures ThreadMap(r.ds, r.m, r.ls, r.bodies) == ThreadMap(i.ds, i.m, i.ls, i.bodies)[t := ThreadOf(r.ds[t], pri, [])]
  {
    hide Bodies, ThreadOf, ThreadMap, Resolves, PortOf;
    var a, b := ThreadMap(i.ds, i.m, i.ls, i.bodies), ThreadMap(r.ds, r.m, r.ls, r.bodies);
    assert Bodies([], r.bodies) == [];
    ThreadMapAt(r.ds, r.m, r.ls, r.bodies, t);
    forall u | u in i.ds ensures b[u] == a[u] {
      ThreadMapAt(i.ds, i.m, i.ls, i.bodies, u);
      ThreadMapAt(r.ds, r.m, r.ls, r.bodies, u);
    }
  }

  lemma ThreadMapAt(ds: map<Addr, Descriptor>, m: seq<int>, ls: map<Addr, seq<Addr>>, bodies: map<Addr, S.Message>, u: Addr)
    requires Resolves(ds, m, ls, bodies) && u in ds
    ensures u + PRI < |m| && PortOf(u) in ls && forall n :: n in ls[PortOf(u)] ==> n in bodies
    ensures ThreadMap(ds, m, ls, bodies)[u] == ThreadOf(ds[u], m[u + PRI], Bodies(ls[PortOf(u)], bodies))
  {}

  // ----- boot

  /** The queues' headers, the first thread with its port, and the free blocks keep apart in memory. */
  ghost predicate BootLayout(words: nat, ready: Addr, wait: Addr, t: Addr, pool: seq<Addr>) {
    && NULL < ready && ready + HEADER_WORDS <= words && NULL < wait && wait + HEADER_WORDS <= words
    && NULL < t && t + PORT + HEADER_WORDS <= words
    && HeadersApart(ready, wait) && HeadersApart(ready, PortOf(t)) && HeadersApart(wait, PortOf(t))
    && NodeApartHeader(t, ready) && NodeApartHeader(t, wait)
    && (forall p :: p in pool ==> NULL < p && p + NODE_WORDS <= words && NodesApart(p, t))
    && (forall p :: p in pool ==> NodeApartHeader(p, ready) && NodeApartHeader(p, wait) && NodeApartHeader(p, PortOf(t)))
    && (forall i, j :: 0 <= i < j < |pool| ==> NodesApart(pool[i], pool[j]))
  }

  lemma BootImage(m: seq<int>, ready: Addr, wait: Addr, t: Addr, pool: seq<Addr>, d: Descriptor) returns (i: Image)
    requires BootLayout(|m|, ready, wait, t, pool)
    requires World(m, map[ready := [], wait := [], PortOf(t) := []])
    ensures i == Image(m, map[ready := [], wait := [], PortOf(t) := []], ready, wait, map[t := d], map[], pool)
    ensures ImageOk(i) && Abstract(i) == map[t := ThreadOf(d, m[t + PRI], [])]
  {
    hide World;
    i := Image(m, map[ready := [], wait := [], PortOf(t) := []], ready, wait, map[t := d], map[], pool);
    assert Layout(m, i.ls, ready, wait, i.ds.Keys, i.bodies.Keys, pool) by {
      assert Headers(i.ls, ready, wait, i.ds.Keys);
      assert Members(i.ls, ready, wait, i.ds.Keys, i.bodies.Keys);
      assert Threads(m, i.ls, i.ds.Keys) by { assert InMemory(m, t) && ClearOf(i.ls, t); }
      assert Pool(m, i.ls, i.ds.Keys, i.bodies.Keys, pool);
    }
    assert Bodies([], i.bodies) == [];
  }
}
