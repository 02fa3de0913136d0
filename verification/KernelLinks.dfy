/** How the kernel's lists lie in memory: every list is a ring of nodes, every thread has two nodes. */
module KernelLinks {
  import opened Base
  import opened RtList
  import opened KernelState
  import opened KernelInvariant

  /** List heads, the tlist node and the timelist node of a thread, and rt_timer_list. */
  datatype Node = ListHead(l: Queue) | ListNode(t: Tid) | TimerHead | TimerNode(t: Tid)

  function ListNodes(q: seq<Tid>): (c: seq<Node>)
    ensures |c| == |q| && forall i | 0 <= i < |q| :: c[i] == ListNode(q[i])
  {
    seq(|q|, i requires 0 <= i < |q| => ListNode(q[i]))
  }

  function TimerNodes(q: seq<Tid>): (c: seq<Node>)
    ensures |c| == |q| && forall i | 0 <= i < |q| :: c[i] == TimerNode(q[i])
  {
    seq(|q|, i requires 0 <= i < |q| => TimerNode(q[i]))
  }

  /** The ring of list l, and that of the timer list. */
  function ListRing(l: Queue, q: seq<Tid>): seq<Node> {
    [ListHead(l)] + ListNodes(q)
  }

  function TimerRing(q: seq<Tid>): seq<Node> {
    [TimerHead] + TimerNodes(q)
  }

  lemma InListRing(l: Queue, q: seq<Tid>, n: Node)
    ensures n in ListRing(l, q) <==> n == ListHead(l) || (n.ListNode? && n.t in q)
  {
    if n.ListNode? && n.t in q {
      var i :| 0 <= i < |q| && q[i] == n.t;
      assert ListRing(l, q)[i + 1] == n;
    }
    assert ListRing(l, q)[0] == ListHead(l);
  }

  lemma InTimerRing(q: seq<Tid>, n: Node)
    ensures n in TimerRing(q) <==> n == TimerHead || (n.TimerNode? && n.t in q)
  {
    if n.TimerNode? && n.t in q {
      var i :| 0 <= i < |q| && q[i] == n.t;
      assert TimerRing(q)[i + 1] == n;
    }
    assert TimerRing(q)[0] == TimerHead;
  }

  // ---------------------------------------------------------------------------
  // Memory and state.

  ghost predicate ListIn(next: map<Node, Node>, prev: map<Node, Node>, s: State, l: Queue) {
    l in s.lists ==> Ring(next, prev, ListRing(l, s.lists[l]))
  }

  /** A thread in no list has a tlist node that points to itself, and likewise its timer. */
  ghost predicate Loose(next: map<Node, Node>, prev: map<Node, Node>, s: State, t: Tid) {
    t in s.threads ==>
      && (s.threads[t].at == None ==> Ring(next, prev, [ListNode(t)]))
      && (t !in s.timers ==> Ring(next, prev, [TimerNode(t)]))
  }

  /** Memory holds exactly the lists of the state. */
  ghost predicate Coupled(next: map<Node, Node>, prev: map<Node, Node>, s: State) {
    && Linked(s) && NoDup(s.timers)
    && (forall l :: ListIn(next, prev, s, l)) && (forall t :: Loose(next, prev, s, t))
    && Ring(next, prev, TimerRing(s.timers))
  }

  /** Nothing but threads, lists and the timer list matters. */
  lemma CoupledSame(next: map<Node, Node>, prev: map<Node, Node>, s: State, r: State)
    requires Coupled(next, prev, s) && r.lists == s.lists && r.timers == s.timers && r.threads == s.threads
    ensures Coupled(next, prev, r)
  {
    hide Ring, Linked, NoDup;
    LinkedSame(s, r);
    forall l
      ensures ListIn(next, prev, r, l)
    {
      assert ListIn(next, prev, s, l);
    }
    forall t
      ensures Loose(next, prev, r, t)
    {
      assert Loose(next, prev, s, t);
    }
  }

  /** Other fields of a thread do not matter. */
  lemma CoupledSet(next: map<Node, Node>, prev: map<Node, Node>, s: State, t: Tid, th: Thread)
    requires Coupled(next, prev, s) && t in s.threads && th.at == s.threads[t].at
    ensures Coupled(next, prev, Set(s, t, th))
  {
    hide Ring, Linked, NoDup;
    var r := Set(s, t, th);
    SetLinked(s, t, th);
    forall l
      ensures ListIn(next, prev, r, l)
    {
      assert ListIn(next, prev, s, l);
    }
    forall x
      ensures Loose(next, prev, r, x)
    {
      assert Loose(next, prev, s, x);
    }
  }

  /** The nodes changed are those of list l and of thread t; every other ring is intact. */
  lemma OtherListKept(next: map<Node, Node>, prev: map<Node, Node>, next': map<Node, Node>, prev': map<Node, Node>, s: State, l: Queue, t: Tid, k: Queue)
    requires Coupled(next, prev, s) && l in s.lists && k in s.lists && k != l && t !in s.lists[k]
    requires OnlyIn(next, prev, next', prev', ListRing(l, s.lists[l]) + [ListNode(t)])
    ensures Ring(next', prev', ListRing(k, s.lists[k]))
  {
    hide Ring, NoDup;
    var c, d := ListRing(l, s.lists[l]) + [ListNode(t)], ListRing(k, s.lists[k]);
    assert ListIn(next, prev, s, k);
    forall i | 0 <= i < |d|
      ensures d[i] !in c
    {
      InListRing(l, s.lists[l], d[i]);
      if i > 0 {
        var x := s.lists[k][i - 1];
        assert d[i] == ListNode(x);
        assert Agrees(s, k, x) && Agrees(s, l, x);
      }
    }
    OtherRing(next, prev, next', prev', c, d);
  }

  lemma OtherLooseKept(next: map<Node, Node>, prev: map<Node, Node>, next': map<Node, Node>, prev': map<Node, Node>, s: State, l: Queue, t: Tid, x: Tid)
    requires Coupled(next, prev, s) && l in s.lists && x != t
    requires OnlyIn(next, prev, next', prev', ListRing(l, s.lists[l]) + [ListNode(t)])
    ensures Loose(next', prev', s, x)
  {
    hide Ring, NoDup;
    var c := ListRing(l, s.lists[l]) + [ListNode(t)];
    assert Loose(next, prev, s, x) && Agrees(s, l, x);
    InListRing(l, s.lists[l], ListNode(x));
    InListRing(l, s.lists[l], TimerNode(x));
    if x in s.threads && s.threads[x].at == None {
      OtherRing(next, prev, next', prev', c, [ListNode(x)]);
    }
    if x in s.threads && x !in s.timers {
      OtherRing(next, prev, next', prev', c, [TimerNode(x)]);
    }
  }

  lemma TimersKept(next: map<Node, Node>, prev: map<Node, Node>, next': map<Node, Node>, prev': map<Node, Node>, s: State, l: Queue, t: Tid)
    requires Coupled(next, prev, s) && l in s.lists
    requires OnlyIn(next, prev, next', prev', ListRing(l, s.lists[l]) + [ListNode(t)])
    ensures Ring(next', prev', TimerRing(s.timers))
    ensures t in s.threads && t !in s.timers ==> Ring(next', prev', [TimerNode(t)])
  {
    hide Ring, NoDup, Linked;
    var c, d := ListRing(l, s.lists[l]) + [ListNode(t)], TimerRing(s.timers);
    forall i | 0 <= i < |d|
      ensures d[i] !in c
    {
      InListRing(l, s.lists[l], d[i]);
    }
    OtherRing(next, prev, next', prev', c, d);
    assert Loose(next, prev, s, t);
    InListRing(l, s.lists[l], TimerNode(t));
    if t in s.threads && t !in s.timers {
      OtherRing(next, prev, next', prev', c, [TimerNode(t)]);
    }
  }

  /** A loose thread is linked into list l. */
  lemma CoupledIn(next: map<Node, Node>, prev: map<Node, Node>, next': map<Node, Node>, prev': map<Node, Node>, s: State, t: Tid, th: Thread, l: Queue, front: bool)
    requires Coupled(next, prev, s) && t in s.threads && s.threads[t].at == None && l in s.lists && th.at == Some(l)
    requires OnlyIn(next, prev, next', prev', ListRing(l, s.lists[l]) + [ListNode(t)])
    requires Ring(next', prev', ListRing(l, if front then [t] + s.lists[l] else s.lists[l] + [t]))
    ensures Coupled(next', prev', Put(s, t, th, front))
  {
    hide Ring, NoDup, OnlyIn, ListRing, TimerRing;
    var r := Put(s, t, th, front);
    PutLinked(s, t, th, front);
    NotListed(s, t);
    forall k
      ensures ListIn(next', prev', r, k)
    {
      if k in s.lists && k != l {
        OtherListKept(next, prev, next', prev', s, l, t, k);
      }
    }
    TimersKept(next, prev, next', prev', s, l, t);
    forall x
      ensures Loose(next', prev', r, x)
    {
      if x != t {
        OtherLooseKept(next, prev, next', prev', s, l, t, x);
      }
    }
  }

  lemma NotListed(s: State, t: Tid)
    requires Linked(s) && (t in s.threads ==> s.threads[t].at == None)
    ensures forall k | k in s.lists :: t !in s.lists[k]
  {
    forall k | k in s.lists
      ensures t !in s.lists[k]
    {
      assert Agrees(s, k, t);
    }
  }

  lemma OnlyInMore(next: map<Node, Node>, prev: map<Node, Node>, next': map<Node, Node>, prev': map<Node, Node>, c: seq<Node>, n: Node)
    requires OnlyIn(next, prev, next', prev', c)
    ensures OnlyIn(next, prev, next', prev', c + [n])
  {
  }

  /** The thread leaves the list it is in. */
  lemma CoupledOut(next: map<Node, Node>, prev: map<Node, Node>, next': map<Node, Node>, prev': map<Node, Node>, s: State, t: Tid, l: Queue)
    requires Coupled(next, prev, s) && t in s.threads && s.threads[t].at == Some(l) && l in s.lists
    requires OnlyIn(next, prev, next', prev', ListRing(l, s.lists[l]))
    requires Ring(next', prev', ListRing(l, Without(s.lists[l], t))) && Ring(next', prev', [ListNode(t)])
    ensures Coupled(next', prev', RemoveThread(s, t))
  {
    hide Ring, NoDup, OnlyIn, ListRing, TimerRing, Without;
    var th := s.threads[t].(at := None);
    var r := RemoveThread(s, t);
    PutLinked(s, t, th, false);
    OnlyInMore(next, prev, next', prev', ListRing(l, s.lists[l]), ListNode(t));
    forall k
      ensures ListIn(next', prev', r, k)
    {
      if k in s.lists && k != l {
        assert Agrees(s, k, t);
        OtherListKept(next, prev, next', prev', s, l, t, k);
      }
    }
    TimersKept(next, prev, next', prev', s, l, t);
    forall x
      ensures Loose(next', prev', r, x)
    {
      if x != t {
        OtherLooseKept(next, prev, next', prev', s, l, t, x);
      }
    }
  }

  /** Removing a loose node changes no other ring. */
  lemma CoupledLoose(next: map<Node, Node>, prev: map<Node, Node>, next': map<Node, Node>, prev': map<Node, Node>, s: State, n: Node)
    requires Coupled(next, prev, s) && OnlyIn(next, prev, next', prev', [n]) && Ring(next', prev', [n])
    requires (n.ListNode? && (n.t in s.threads ==> s.threads[n.t].at == None)) || (n.TimerNode? && n.t !in s.timers)
    ensures Coupled(next', prev', s)
  {
    hide Ring, OnlyIn, NoDup;
    if n.ListNode? {
      NotListed(s, n.t);
    }
    forall k
      ensures ListIn(next', prev', s, k)
    {
      assert ListIn(next, prev, s, k);
      if k in s.lists {
        InListRing(k, s.lists[k], n);
        OtherRing(next, prev, next', prev', [n], ListRing(k, s.lists[k]));
      }
    }
    InTimerRing(s.timers, n);
    OtherRing(next, prev, next', prev', [n], TimerRing(s.timers));
    forall x
      ensures Loose(next', prev', s, x)
    {
      assert Loose(next, prev, s, x);
      if x in s.threads && s.threads[x].at == None && n != ListNode(x) {
        OtherRing(next, prev, next', prev', [n], [ListNode(x)]);
      }
      if x in s.threads && x !in s.timers && n != TimerNode(x) {
        OtherRing(next, prev, next', prev', [n], [TimerNode(x)]);
      }
    }
  }

  // ---------------------------------------------------------------------------
  // The timer list.

  lemma ListsKept(next: map<Node, Node>, prev: map<Node, Node>, next': map<Node, Node>, prev': map<Node, Node>, s: State, t: Tid, l: Queue)
    requires Coupled(next, prev, s) && OnlyIn(next, prev, next', prev', TimerRing(s.timers) + [TimerNode(t)])
    ensures ListIn(next', prev', s, l)
  {
    hide Ring, NoDup, Linked;
    assert ListIn(next, prev, s, l);
    if l in s.lists {
      var c, d := TimerRing(s.timers) + [TimerNode(t)], ListRing(l, s.lists[l]);
      forall i | 0 <= i < |d|
        ensures d[i] !in c
      {
        InTimerRing(s.timers, d[i]);
      }
      OtherRing(next, prev, next', prev', c, d);
    }
  }

  lemma LooseKept(next: map<Node, Node>, prev: map<Node, Node>, next': map<Node, Node>, prev': map<Node, Node>, s: State, t: Tid, x: Tid)
    requires Coupled(next, prev, s) && OnlyIn(next, prev, next', prev', TimerRing(s.timers) + [TimerNode(t)])
    requires x in s.threads
    ensures s.threads[x].at == None ==> Ring(next', prev', [ListNode(x)])
    ensures x !in s.timers && x != t ==> Ring(next', prev', [TimerNode(x)])
  {
    hide Ring, NoDup, Linked;
    var c := TimerRing(s.timers) + [TimerNode(t)];
    assert Loose(next, prev, s, x);
    InTimerRing(s.timers, ListNode(x));
    InTimerRing(s.timers, TimerNode(x));
    if s.threads[x].at == None {
      OtherRing(next, prev, next', prev', c, [ListNode(x)]);
    }
    if x !in s.timers && x != t {
      OtherRing(next, prev, next', prev', c, [TimerNode(x)]);
    }
  }

  lemma CoupledTimers(next: map<Node, Node>, prev: map<Node, Node>, next': map<Node, Node>, prev': map<Node, Node>, s: State, t: Tid, timers: seq<Tid>)
    requires Coupled(next, prev, s) && OnlyIn(next, prev, next', prev', TimerRing(s.timers) + [TimerNode(t)])
    requires Ring(next', prev', TimerRing(timers)) && NoDup(timers)
    requires forall x :: x != t ==> (x in timers <==> x in s.timers)
    requires t !in timers ==> Ring(next', prev', [TimerNode(t)])
    ensures Coupled(next', prev', s.(timers := timers))
  {
    hide Ring, OnlyIn, TimerRing, ListRing, Linked, NoDup;
    var r := s.(timers := timers);
    LinkedSame(s, r);
    forall l
      ensures ListIn(next', prev', r, l)
    {
      ListsKept(next, prev, next', prev', s, t, l);
      assert ListIn(next', prev', s, l);
    }
    forall x
      ensures Loose(next', prev', r, x)
    {
      if x in s.threads {
        LooseKept(next, prev, next', prev', s, t, x);
      }
    }
  }

  // ---------------------------------------------------------------------------
  // Removing from a ring is removing from its list.

  lemma WithoutAt(q: seq<Tid>, j: nat)
    requires NoDup(q) && j < |q|
    ensures Without(q, q[j]) == q[..j] + q[j + 1..]
  {
    hide NoDup, Without;
    var t, a, b := q[j], q[..j], q[j + 1..];
    Sides(q, j);
    WithoutAbsent(a, t);
    WithoutAbsent(b, t);
    WithoutOne(t);
    WithoutAppend(a + [t], b, t);
    WithoutAppend(a, [t], t);
    assert q == a + [t] + b;
    assert a + [] == a;
  }

  lemma Sides(q: seq<Tid>, j: nat)
    requires NoDup(q) && j < |q|
    ensures q[j] !in q[..j] && q[j] !in q[j + 1..]
  {
  }

  lemma WithoutOne(t: Tid)
    ensures Without([t], t) == []
  {
    assert [t][1..] == [];
  }

  lemma {:induction false} WithoutAppend(a: seq<Tid>, b: seq<Tid>, t: Tid)
    ensures Without(a + b, t) == Without(a, t) + Without(b, t)
  {
    if a == [] {
      assert a + b == b;
    } else {
      WithoutAppend(a[1..], b, t);
      WithoutStep(a, t);
      WithoutStep(a + b, t);
      hide Without;
      assert (a + b)[1..] == a[1..] + b && (a + b)[0] == a[0];
      var head := if a[0] == t then [] else [a[0]];
      assert head + (Without(a[1..], t) + Without(b, t)) == head + Without(a[1..], t) + Without(b, t);
    }
  }

  lemma WithoutStep(q: seq<Tid>, t: Tid)
    requires q != []
    ensures Without(q, t) == (if q[0] == t then [] else [q[0]]) + Without(q[1..], t)
  {
  }

  lemma ListRingCut(l: Queue, q: seq<Tid>, j: nat)
    requires j < |q|
    ensures ListRing(l, q)[..j + 1] + ListRing(l, q)[j + 2..] == ListRing(l, q[..j] + q[j + 1..])
  {
    var w := q[..j] + q[j + 1..];
    var c, d := ListRing(l, q)[..j + 1] + ListRing(l, q)[j + 2..], ListRing(l, w);
    assert |c| == |d| == |q|;
    forall i | 0 <= i < |c|
      ensures c[i] == d[i]
    {
      if 0 < i {
        assert d[i] == ListNode(w[i - 1]);
      }
    }
  }

  lemma ListRingWithout(l: Queue, q: seq<Tid>, j: nat)
    requires NoDup(q) && j < |q|
    ensures ListRing(l, q)[..j + 1] + ListRing(l, q)[j + 2..] == ListRing(l, Without(q, q[j]))
  {
    hide Without, ListRing, NoDup;
    assert |ListRing(l, q)| == |q| + 1 by { RingLength(l, q); }
    WithoutAt(q, j);
    ListRingCut(l, q, j);
  }

  lemma RingLength(l: Queue, q: seq<Tid>)
    ensures |ListRing(l, q)| == |TimerRing(q)| == |q| + 1
  {
  }

  lemma TimerRingCut(q: seq<Tid>, j: nat)
    requires j < |q|
    ensures TimerRing(q)[..j + 1] + TimerRing(q)[j + 2..] == TimerRing(q[..j] + q[j + 1..])
  {
    var w := q[..j] + q[j + 1..];
    var c, d := TimerRing(q)[..j + 1] + TimerRing(q)[j + 2..], TimerRing(w);
    assert |c| == |d| == |q|;
    forall i | 0 <= i < |c|
      ensures c[i] == d[i]
    {
      if 0 < i {
        assert d[i] == TimerNode(w[i - 1]);
      }
    }
  }

  lemma TimerRingWithout(q: seq<Tid>, j: nat)
    requires NoDup(q) && j < |q|
    ensures TimerRing(q)[..j + 1] + TimerRing(q)[j + 2..] == TimerRing(Without(q, q[j]))
  {
    hide Without, TimerRing, NoDup;
    RingLength(Dead, q);
    WithoutAt(q, j);
    TimerRingCut(q, j);
  }

  lemma ListRingEnds(l: Queue, q: seq<Tid>, t: Tid)
    ensures ListRing(l, q) + [ListNode(t)] == ListRing(l, q + [t])
    ensures [ListHead(l), ListNode(t)] + ListRing(l, q)[1..] == ListRing(l, [t] + q)
  {
  }

  lemma TimerRingFront(q: seq<Tid>, t: Tid)
    ensures [TimerHead, TimerNode(t)] + TimerRing(q)[1..] == TimerRing([t] + q)
  {
  }

  /** A list is empty when its ring is the head alone; otherwise the head points to the first thread. */
  lemma FirstNode(next: map<Node, Node>, prev: map<Node, Node>, l: Queue, q: seq<Tid>)
    requires Ring(next, prev, ListRing(l, q))
    ensures ListRing(l, q) == [ListHead(l)] <==> q == []
    ensures q != [] ==> ListHead(l) in next && next[ListHead(l)] == ListNode(q[0])
  {
    hide Ring;
    Follow(next, prev, ListRing(l, q), 0);
    assert |ListRing(l, q)| == |q| + 1;
    if q == [] {
      assert ListRing(l, q) == [ListHead(l)];
    }
  }

  // ---------------------------------------------------------------------------
  // The steps of the in-place kernel.

  /** The ring of thread t's node: its list, or the node alone. */
  lemma NodeRing(next: map<Node, Node>, prev: map<Node, Node>, s: State, t: Tid) returns (c: seq<Node>, k: nat)
    requires Coupled(next, prev, s) && t in s.threads
    ensures Ring(next, prev, c) && k < |c| && c[k] == ListNode(t) && (k > 0 || |c| == 1)
    ensures s.threads[t].at == None ==> c == [ListNode(t)] && k == 0
    ensures s.threads[t].at.Some? ==>
              var l := s.threads[t].at.value;
              l in s.lists && c == ListRing(l, s.lists[l]) && k > 0 && c[..k] + c[k + 1..] == ListRing(l, Without(s.lists[l], t))
  {
    hide Ring, Without, NoDup;
    assert Loose(next, prev, s, t);
    if s.threads[t].at.Some? {
      var l := s.threads[t].at.value;
      assert ListIn(next, prev, s, l) && Agrees(s, l, t);
      var q := s.lists[l];
      var j :| 0 <= j < |q| && q[j] == t;
      ListRingWithout(l, q, j);
      c, k := ListRing(l, q), j + 1;
    } else {
      c, k := [ListNode(t)], 0;
    }
  }

  lemma Unlinked(next: map<Node, Node>, prev: map<Node, Node>, next': map<Node, Node>, prev': map<Node, Node>, s: State, t: Tid, c: seq<Node>, k: nat)
    requires Coupled(next, prev, s) && t in s.threads && k < |c|
    requires Ring(next', prev', [ListNode(t)]) && OnlyIn(next, prev, next', prev', c)
    requires s.threads[t].at == None ==> c == [ListNode(t)]
    requires s.threads[t].at.Some? ==>
               var l := s.threads[t].at.value;
               && l in s.lists && c == ListRing(l, s.lists[l]) && Ring(next', prev', c[..k] + c[k + 1..])
               && c[..k] + c[k + 1..] == ListRing(l, Without(s.lists[l], t))
    ensures Coupled(next', prev', RemoveThread(s, t))
  {
    hide Ring, Without, OnlyIn, Coupled, ListRing;
    if s.threads[t].at.Some? {
      CoupledOut(next, prev, next', prev', s, t, s.threads[t].at.value);
    } else {
      CoupledLoose(next, prev, next', prev', s, ListNode(t));
      RemovedLoose(s, t);
    }
  }

  lemma RemovedLoose(s: State, t: Tid)
    requires t in s.threads && s.threads[t].at == None
    ensures RemoveThread(s, t) == s
  {
    assert s.threads[t := s.threads[t]] == s.threads;
  }

  lemma TimerRingAt(next: map<Node, Node>, prev: map<Node, Node>, s: State, t: Tid) returns (c: seq<Node>, k: nat)
    requires Coupled(next, prev, s) && t in s.timers
    ensures Ring(next, prev, c) && 0 < k < |c| && c[k] == TimerNode(t)
    ensures c == TimerRing(s.timers) && c[..k] + c[k + 1..] == TimerRing(Without(s.timers, t))
  {
    hide Ring, Without, NoDup, Linked;
    var j :| 0 <= j < |s.timers| && s.timers[j] == t;
    TimerRingWithout(s.timers, j);
    c, k := TimerRing(s.timers), j + 1;
  }

  lemma TimerGone(next: map<Node, Node>, prev: map<Node, Node>, next': map<Node, Node>, prev': map<Node, Node>, s: State, t: Tid)
    requires Coupled(next, prev, s) && t in s.timers && OnlyIn(next, prev, next', prev', TimerRing(s.timers))
    requires Ring(next', prev', TimerRing(Without(s.timers, t))) && Ring(next', prev', [TimerNode(t)])
    ensures Coupled(next', prev', s.(timers := Without(s.timers, t)))
  {
    hide Ring, OnlyIn, TimerRing, Linked;
    OnlyInMore(next, prev, next', prev', TimerRing(s.timers), TimerNode(t));
    WithoutNoDup(s.timers, t);
    forall x
      ensures x in Without(s.timers, t) <==> x in s.timers && x != t
    {
      WithoutMember(s.timers, t, x);
    }
    hide NoDup;
    CoupledTimers(next, prev, next', prev', s, t, Without(s.timers, t));
  }

  lemma TimerLinked(next: map<Node, Node>, prev: map<Node, Node>, next': map<Node, Node>, prev': map<Node, Node>, s: State, t: Tid)
    requires Coupled(next, prev, s) && t !in s.timers && OnlyIn(next, prev, next', prev', TimerRing(s.timers) + [TimerNode(t)])
    requires Ring(next', prev', [TimerHead, TimerNode(t)] + TimerRing(s.timers)[1..])
    ensures Coupled(next', prev', s.(timers := [t] + s.timers))
  {
    TimerRingFront(s.timers, t);
    EndsNoDup(s.timers, t);
    hide Ring, OnlyIn, TimerRing, Linked, NoDup;
    CoupledTimers(next, prev, next', prev', s, t, [t] + s.timers);
  }

  lemma NodeOutside(s: State, t: Tid, l: Queue)
    requires Linked(s) && t in s.threads && s.threads[t].at == None && l in s.lists
    ensures ListNode(t) !in ListRing(l, s.lists[l]) && ListRing(l, s.lists[l])[0] == ListHead(l)
  {
    NotListed(s, t);
    InListRing(l, s.lists[l], ListNode(t));
  }

  lemma Linking(next: map<Node, Node>, prev: map<Node, Node>, next': map<Node, Node>, prev': map<Node, Node>, s: State, t: Tid, th: Thread, l: Queue, front: bool)
    requires Coupled(next, prev, s) && t in s.threads && s.threads[t].at == None && l in s.lists && th.at == Some(l)
    requires OnlyIn(next, prev, next', prev', ListRing(l, s.lists[l]) + [ListNode(t)])
    requires Ring(next', prev', if front then [ListHead(l), ListNode(t)] + ListRing(l, s.lists[l])[1..] else ListRing(l, s.lists[l]) + [ListNode(t)])
    ensures Coupled(next', prev', Put(s, t, th, front))
  {
    ListRingEnds(l, s.lists[l], t);
    hide Ring, OnlyIn, ListRing, Coupled;
    CoupledIn(next, prev, next', prev', s, t, th, l, front);
  }

  /** A new thread, its nodes initialised. */
  lemma CoupledJoin(next: map<Node, Node>, prev: map<Node, Node>, s: State, t: Tid, th: Thread)
    requires Coupled(next, prev, s) && t !in s.threads && th.at == None
    requires Ring(next, prev, [ListNode(t)]) && Ring(next, prev, [TimerNode(t)])
    ensures Coupled(next, prev, Set(s, t, th))
  {
    hide Ring, NoDup;
    var r := Set(s, t, th);
    forall l, x
      ensures Agrees(r, l, x)
    {
      assert Agrees(s, l, x);
    }
    forall l
      ensures ListIn(next, prev, r, l)
    {
      assert ListIn(next, prev, s, l);
    }
    forall x
      ensures Loose(next, prev, r, x)
    {
      assert Loose(next, prev, s, x);
    }
  }

  /** A thread in no list is forgotten. */
  lemma CoupledForget(next: map<Node, Node>, prev: map<Node, Node>, s: State, t: Tid)
    requires Coupled(next, prev, s) && t in s.threads && s.threads[t].at == None
    ensures Coupled(next, prev, s.(threads := s.threads - {t}))
  {
    hide Ring, NoDup;
    var r := s.(threads := s.threads - {t});
    forall l, x
      ensures Agrees(r, l, x)
    {
      assert Agrees(s, l, x);
    }
    forall l
      ensures ListIn(next, prev, r, l)
    {
      assert ListIn(next, prev, s, l);
    }
    forall x
      ensures Loose(next, prev, r, x)
    {
      assert Loose(next, prev, s, x);
    }
  }

  /** The kernel before any thread: every list is its head alone. */
  lemma CoupledEmpty(next: map<Node, Node>, prev: map<Node, Node>, s: State)
    requires s.threads == map[] && s.timers == [] && forall l | l in s.lists :: s.lists[l] == []
    requires forall l | l in s.lists :: Ring(next, prev, [ListHead(l)])
    requires Ring(next, prev, [TimerHead])
    ensures Coupled(next, prev, s)
  {
    hide Ring;
    forall l, x
      ensures Agrees(s, l, x)
    {
    }
    forall l
      ensures ListIn(next, prev, s, l)
    {
      if l in s.lists {
        assert ListRing(l, []) == [ListHead(l)];
      }
    }
    assert TimerRing([]) == [TimerHead];
    assert forall x :: Loose(next, prev, s, x);
  }

  /** A head of its own stays so while another one is initialised. */
  lemma HeadKept(next: map<Node, Node>, prev: map<Node, Node>, next': map<Node, Node>, prev': map<Node, Node>, n: Node, m: Node)
    requires OnlyIn(next, prev, next', prev', [n]) && Ring(next, prev, [m]) && n != m
    ensures Ring(next', prev', [m])
  {
    OtherRing(next, prev, next', prev', [n], [m]);
  }
}
