/** What every step of the thread kernel keeps. */
module KernelInvariant {
  import opened Base
  import opened KernelState
  import Mailbox

  // ---------------------------------------------------------------------------
  // Sequences without repetition.

  ghost predicate NoDup(q: seq<Tid>) {
    forall i, j | 0 <= i < j < |q| :: q[i] != q[j]
  }

  lemma {:induction false} WithoutMember(q: seq<Tid>, t: Tid, x: Tid)
    ensures x in Without(q, t) <==> x in q && x != t
  {
    if q != [] {
      WithoutMember(q[1..], t, x);
      assert q == [q[0]] + q[1..];
    }
  }

  lemma {:induction false} WithoutNoDup(q: seq<Tid>, t: Tid)
    requires NoDup(q)
    ensures NoDup(Without(q, t))
  {
    if q != [] {
      var r := Without(q[1..], t);
      WithoutNoDup(q[1..], t);
      if q[0] != t {
        WithoutMember(q[1..], t, q[0]);
        assert q[0] !in q[1..];
        assert Without(q, t) == [q[0]] + r;
      } else {
        assert Without(q, t) == r;
      }
    }
  }

  lemma {:induction false} WithoutAbsent(q: seq<Tid>, t: Tid)
    requires t !in q
    ensures Without(q, t) == q
  {
    if q != [] {
      WithoutAbsent(q[1..], t);
      assert q[0] in q;
    }
  }

  lemma WithoutHead(q: seq<Tid>)
    requires q != [] && NoDup(q)
    ensures Without(q, q[0]) == q[1..]
  {
    assert q[0] !in q[1..];
    WithoutAbsent(q[1..], q[0]);
  }

  lemma EndsNoDup(q: seq<Tid>, t: Tid)
    requires NoDup(q) && t !in q
    ensures NoDup(q + [t]) && NoDup([t] + q)
  {
    assert forall i | 0 <= i < |q| :: q[i] in q;
  }

  // ---------------------------------------------------------------------------
  // Links.

  /** A thread is in list l exactly when its node says so. */
  predicate Agrees(s: State, l: Queue, t: Tid) {
    l in s.lists ==> (t in s.lists[l] <==> t in s.threads && s.threads[t].at == Some(l))
  }

  /** Every node is in at most one list, once, and knows which. */
  ghost predicate Linked(s: State) {
    && (forall l, t :: Agrees(s, l, t))
    && (forall l | l in s.lists :: NoDup(s.lists[l]))
    && (forall t | t in s.threads && s.threads[t].at.Some? :: s.threads[t].at.value in s.lists)
  }

  /** No thread is in two lists. */
  lemma InOneList(s: State, l: Queue, k: Queue, t: Tid)
    requires Linked(s) && l in s.lists && k in s.lists && t in s.lists[l] && t in s.lists[k]
    ensures l == k && t in s.threads
  {
    assert Agrees(s, l, t) && Agrees(s, k, t);
  }

  lemma PutAgrees(s: State, t: Tid, th: Thread, front: bool, l: Queue, x: Tid)
    requires Linked(s) && t in s.threads && (th.at.Some? ==> th.at.value in s.lists)
    ensures Agrees(Put(s, t, th, front), l, x)
  {
    assert Agrees(s, l, x) && Agrees(s, l, t);
    if l in s.lists {
      WithoutMember(s.lists[l], t, x);
    }
  }

  lemma PutNoDup(s: State, t: Tid, th: Thread, front: bool, l: Queue)
    requires Linked(s) && t in s.threads && l in s.lists
    ensures l in Put(s, t, th, front).lists && NoDup(Put(s, t, th, front).lists[l])
  {
    var q := s.lists[l];
    assert Agrees(s, l, t);
    WithoutMember(q, t, t);
    WithoutNoDup(q, t);
    EndsNoDup(Without(q, t), t);
    if t !in q {
      EndsNoDup(q, t);
    }
  }

  lemma PutLinked(s: State, t: Tid, th: Thread, front: bool)
    requires Linked(s) && t in s.threads && (th.at.Some? ==> th.at.value in s.lists)
    ensures Linked(Put(s, t, th, front)) && Put(s, t, th, front).lists.Keys == s.lists.Keys
  {
    hide Agrees, NoDup;
    var r := Put(s, t, th, front);
    assert r.lists.Keys == s.lists.Keys;
    forall l, x
      ensures Agrees(r, l, x)
    {
      PutAgrees(s, t, th, front, l, x);
    }
    forall l | l in r.lists
      ensures NoDup(r.lists[l])
    {
      PutNoDup(s, t, th, front, l);
    }
  }

  lemma SetLinked(s: State, t: Tid, th: Thread)
    requires Linked(s) && t in s.threads && th.at == s.threads[t].at
    ensures Linked(Set(s, t, th))
  {
    forall l, x
      ensures Agrees(Set(s, t, th), l, x)
    {
      assert Agrees(s, l, x);
    }
  }

  // ---------------------------------------------------------------------------
  // The invariant.

  predicate Waiting(l: Queue) {
    l.SemWait? || l.RecvWait? || l.SendWait?
  }

  /** Status, list and timer of a thread go together; isCur says whether it is the current one. */
  predicate Fits(th: Thread, isCur: bool) {
    && th.prio < LEVELS && (th.woken.Some? ==> th.status == READY || th.status == RUNNING)
    && match th.status
       case READY => th.at == Some(ReadyAt(th.prio)) && !isCur && !th.active
       case RUNNING => th.at == None && isCur && !th.active
       case SUSPEND => th.at.Some? && Waiting(th.at.value) && !th.timedOut
       case SLEEP => th.at == None && th.active
       case CLOSE => th.at == Some(Dead) && !th.active
  }

  predicate Placed(s: State, t: Tid) {
    t in s.threads ==> Fits(s.threads[t], s.cur == Some(t))
  }

  /** A timer is on the timer list exactly when it is flagged active. */
  predicate TimerAgrees(s: State, t: Tid) {
    t in s.timers <==> t in s.threads && s.threads[t].active
  }

  /** The lists that exist: ready levels, the dead list, two per mailbox and one per semaphore. */
  predicate Known(s: State, l: Queue) {
    match l
    case ReadyAt(p) => p < LEVELS
    case Dead => true
    case SemWait(i) => i < |s.sems|
    case RecvWait(i) => i < |s.boxes|
    case SendWait(i) => i < |s.boxes|
  }

  ghost predicate Domain(s: State) {
    forall l :: Known(s, l) ==> l in s.lists
  }

  ghost predicate Core(s: State) {
    && Linked(s) && Domain(s) && (forall t :: Placed(s, t))
    && NoDup(s.timers) && (forall t :: TimerAgrees(s, t))
    && (s.cur.Some? ==> s.cur.value in s.threads)
  }

  /** While the current thread is not running it is about to be replaced by a ready one. */
  ghost predicate CurOk(s: State) {
    Started(s) && Cur(s).status != RUNNING ==> AnyReady(s)
  }

  /** Waiters only at value 0; every release is a take, part of the value, or lost to a wrap. */
  predicate SemOk(s: State, i: nat) {
    i < |s.sems| ==>
      var m := s.sems[i];
      && m.value < VALUES && (Queued(s, SemWait(i)) != [] ==> m.value == 0)
      && m.value + m.takes + VALUES * m.wraps == m.initial + m.releases
  }

  ghost predicate SemsOk(s: State) {
    forall i: nat :: SemOk(s, i)
  }

  ghost predicate BoxesOk(s: State) {
    forall i | 0 <= i < |s.boxes| :: Mailbox.Valid(s.boxes[i])
  }

  ghost predicate Inv(s: State) {
    Core(s) && CurOk(s) && SemsOk(s) && BoxesOk(s)
  }

  // ---------------------------------------------------------------------------
  // One thread changes its list and its timer.

  function Retimed(timers: seq<Tid>, t: Tid, was: bool, now: bool): seq<Tid> {
    if was == now then timers else if now then [t] + timers else Without(timers, t)
  }

  /** Thread t becomes th, in its list and on the timer list. */
  function Move(s: State, t: Tid, th: Thread, front: bool): State
    requires t in s.threads
  {
    Put(s, t, th, front).(timers := Retimed(s.timers, t, s.threads[t].active, th.active))
  }

  lemma RetimedAgrees(s: State, t: Tid, th: Thread, front: bool, x: Tid)
    requires TimerAgrees(s, x) && TimerAgrees(s, t) && t in s.threads
    ensures TimerAgrees(Move(s, t, th, front), x)
  {
    WithoutMember(s.timers, t, x);
  }

  lemma RetimedNoDup(s: State, t: Tid, th: Thread)
    requires NoDup(s.timers) && TimerAgrees(s, t) && t in s.threads
    ensures NoDup(Retimed(s.timers, t, s.threads[t].active, th.active))
  {
    WithoutNoDup(s.timers, t);
    if t !in s.timers {
      EndsNoDup(s.timers, t);
    }
  }

  lemma MoveCore(s: State, t: Tid, th: Thread, front: bool)
    requires Core(s) && t in s.threads && Fits(th, s.cur == Some(t)) && (th.at.Some? ==> th.at.value in s.lists)
    ensures Core(Move(s, t, th, front))
  {
    hide Linked, NoDup, TimerAgrees, Fits;
    var r := Move(s, t, th, front);
    PutLinked(s, t, th, front);
    LinkedSame(Put(s, t, th, front), r);
    RetimedNoDup(s, t, th);
    forall x
      ensures TimerAgrees(r, x) && Placed(r, x)
    {
      RetimedAgrees(s, t, th, front, x);
      assert Placed(s, x);
    }
    forall l
      ensures Known(r, l) ==> l in r.lists
    {
      assert Known(s, l) == Known(r, l);
      assert l in r.lists.Keys <==> l in s.lists.Keys;
    }
  }

  /** Links depend on threads and lists only. */
  lemma LinkedSame(s: State, r: State)
    requires Linked(s) && r.threads == s.threads && r.lists == s.lists
    ensures Linked(r)
  {
    forall l, x
      ensures Agrees(r, l, x)
    {
      assert Agrees(s, l, x);
    }
  }

  /** Fields that neither links nor timers depend on. */
  lemma SetCore(s: State, t: Tid, th: Thread)
    requires Core(s) && t in s.threads && Fits(th, s.cur == Some(t)) && th.at == s.threads[t].at && th.active == s.threads[t].active
    ensures Core(Set(s, t, th))
  {
    hide Linked, NoDup, Fits;
    SetLinked(s, t, th);
    var r := Set(s, t, th);
    forall x
      ensures TimerAgrees(r, x) && Placed(r, x)
    {
      assert TimerAgrees(s, x) && Placed(s, x);
    }
    forall l
      ensures Known(r, l) ==> l in r.lists
    {
      assert Known(s, l) == Known(r, l);
    }
  }
}
