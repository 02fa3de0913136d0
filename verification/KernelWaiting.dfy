/** Waiting lists: who joins, who leaves and in which order; the accounts of the semaphores. */
module KernelWaiting {
  import opened Base
  import opened KernelState
  import opened KernelInvariant
  import opened KernelSteps
  import opened KernelTick
  import opened KernelRuns
  import Mailbox

  /** The current thread blocks on list l. */
  predicate Blocks(s: State, e: Event, l: Queue) {
    Started(s) &&
    match e
    case Takes(i, time) => i < |s.sems| && l == SemWait(i) && s.sems[i].value == 0 && time != 0
    case Sends(i, _, timeout) => i < |s.boxes| && l == SendWait(i) && s.boxes[i].entry == s.boxes[i].size && timeout != 0
    case Receives(i, limit) => i < |s.boxes| && l == RecvWait(i) && s.boxes[i].entry == 0 && limit != 0
    case _ => false
  }

  /** The first waiter of list l is woken. */
  predicate Wakes(s: State, e: Event, l: Queue) {
    match e
    case Releases(i) => l == SemWait(i)
    case Sends(i, _, _) => Started(s) && i < |s.boxes| && l == RecvWait(i) && s.boxes[i].entry != s.boxes[i].size
    case IrqSends(i, _) => Started(s) && i < |s.boxes| && l == RecvWait(i) && s.boxes[i].entry != s.boxes[i].size
    case Receives(i, _) => Started(s) && i < |s.boxes| && l == SendWait(i) && s.boxes[i].entry != 0
    case _ => false
  }

  predicate KillsIn(s: State, e: Event, l: Queue) {
    e.Kills? && e.t in s.threads && !s.threads[e.t].system && s.threads[e.t].at == Some(l)
  }

  /** A waiting list after any event but a tick. */
  function WaitersAfter(s: State, e: Event, l: Queue): seq<Tid> {
    var q := Queued(s, l);
    if Blocks(s, e, l) then q + [s.cur.value]
    else if Wakes(s, e, l) && q != [] then q[1..]
    else if KillsIn(s, e, l) then Without(q, e.t)
    else q
  }

  lemma MoveWaiters(s: State, t: Tid, th: Thread, front: bool, l: Queue)
    requires Core(s) && t in s.threads && Waiting(l)
    ensures l in s.lists ==> Queued(Move(s, t, th, front), l) == Given(Taken(Queued(s, l), t, s.threads[t].at == Some(l)), t, th.at == Some(l), front)
    ensures l !in s.lists ==> Queued(Move(s, t, th, front), l) == []
  {
    hide Core, Move;
    if l in s.lists {
      QueuedMove(s, t, th, front, l);
    } else {
      QueuedUnknown(s, t, th, front, l);
    }
  }

  lemma BlockWaiters(s: State, m: Queue, time: int, l: Queue)
    requires Core(s) && Started(s) && Cur(s).status == RUNNING && Waiting(l) && m in s.lists
    ensures Queued(Block(s, m, time), l) == if l == m then Queued(s, l) + [s.cur.value] else Queued(s, l)
  {
    hide Core, Move, Block;
    BlockIsMove(s, m, time);
    FitsAt(s, s.cur.value);
    MoveWaiters(s, s.cur.value, Parked(s, m, time), false, l);
  }

  lemma ResumeWaiters(s: State, m: Queue, l: Queue)
    requires Core(s) && Waiting(l) && Waiting(m) && Queued(s, m) != []
    ensures Queued(s, m)[0] in s.threads
    ensures Queued(Resume(s, Queued(s, m)[0]), l) == if l == m then Queued(s, l)[1..] else Queued(s, l)
  {
    hide Move, Resume;
    var t := Queued(s, m)[0];
    FirstWaits(s, m);
    ResumeIsMove(s, t);
    MoveWaiters(s, t, Awake(s, t), false, l);
    WithoutHead(Queued(s, m));
  }

  lemma WakeFirstWaiters(s: State, m: Queue, l: Queue)
    requires Core(s) && Waiting(l) && Waiting(m)
    ensures Queued(WakeFirst(s, m), l) == if l == m && Queued(s, m) != [] then Queued(s, l)[1..] else Queued(s, l)
  {
    hide Core, Resume;
    if Queued(s, m) != [] {
      FirstWaits(s, m);
      ResumeWaiters(s, m, l);
    }
  }

  lemma CloseWaiters(s: State, t: Tid, l: Queue)
    requires Core(s) && t in s.threads && Waiting(l)
    ensures Queued(Close(s, t), l) == Taken(Queued(s, l), t, s.threads[t].at == Some(l))
  {
    hide Core, Move, Close;
    CloseIsMove(s, t);
    MoveWaiters(s, t, Closed(s.threads[t]), true, l);
  }

  /** The same lists, different objects or retry marks. */
  lemma BoxCore(s: State, i: nat, b: Mailbox.Box)
    requires Inv(s) && Started(s) && i < |s.boxes| && Mailbox.Valid(b)
    ensures Core(Set(s, s.cur.value, Cur(s).(woken := None)).(boxes := s.boxes[i := b]))
  {
    hide Mailbox.Valid, Core, CurOk, SemsOk;
    BoxInv(s, i, b);
  }

  lemma SendWaiters(s: State, i: nat, v: nat, timeout: int, l: Queue)
    requires Inv(s) && Enabled(s, Sends(i, v, timeout)) && Waiting(l) && Shapes(s)
    ensures Queued(Send(s, i, v, timeout), l) == WaitersAfter(s, Sends(i, v, timeout), l)
  {
    hide Inv, Block, WakeFirst, Best, Queued, Without;
    InvCore(s);
    var b := s.boxes[i];
    if Started(s) {
      if b.entry == b.size {
        SemListExists(s, i);
        if timeout != 0 {
          BlockWaiters(s, SendWait(i), timeout, l);
        } else {
          SameQueued(s, Send(s, i, v, timeout), l);
        }
      } else {
        Mailbox.PutAppends(b, v);
        BoxCore(s, i, Mailbox.Put(b, v));
        var s1 := Set(s, s.cur.value, Cur(s).(woken := None)).(boxes := s.boxes[i := Mailbox.Put(b, v)]);
        WakeFirstWaiters(s1, RecvWait(i), l);
        SameQueued(s, s1, l);
        SameQueued(s, s1, RecvWait(i));
      }
    }
  }

  lemma IrqSendWaiters(s: State, i: nat, v: nat, l: Queue)
    requires Inv(s) && Waiting(l) && i < |s.boxes| && Shapes(s)
    ensures Queued(IrqSend(s, i, v), l) == WaitersAfter(s, IrqSends(i, v), l)
  {
    hide Inv, WakeFirst, Queued, Without;
    InvCore(s);
    var b := s.boxes[i];
    if Started(s) && b.entry != b.size {
      Mailbox.PutAppends(b, v);
      StoredInv(s, i, Mailbox.Put(b, v));
      var s1 := s.(boxes := s.boxes[i := Mailbox.Put(b, v)]);
      InvCore(s1);
      WakeFirstWaiters(s1, RecvWait(i), l);
      SameQueued(s, s1, l);
      SameQueued(s, s1, RecvWait(i));
    }
  }

  lemma RecvWaiters(s: State, i: nat, limit: nat, l: Queue)
    requires Inv(s) && Enabled(s, Receives(i, limit)) && Waiting(l) && Shapes(s)
    ensures Queued(Recv(s, i, limit), l) == WaitersAfter(s, Receives(i, limit), l)
  {
    hide Inv, Block, WakeFirst, Best, Queued, Without;
    InvCore(s);
    var b := s.boxes[i];
    if Started(s) {
      if b.entry == 0 {
        SemListExists(s, i);
        if limit != 0 {
          BlockWaiters(s, RecvWait(i), limit, l);
        } else {
          SameQueued(s, Recv(s, i, limit), l);
        }
      } else {
        Mailbox.GetTakesFirst(b);
        BoxCore(s, i, Mailbox.Get(b));
        var s1 := Set(s, s.cur.value, Cur(s).(woken := None)).(boxes := s.boxes[i := Mailbox.Get(b)]);
        WakeFirstWaiters(s1, SendWait(i), l);
        SameQueued(s, s1, l);
        SameQueued(s, s1, SendWait(i));
      }
    }
  }

  lemma TakeWaiters(s: State, i: nat, time: int, l: Queue)
    requires Inv(s) && Enabled(s, Takes(i, time)) && Waiting(l)
    ensures Queued(Take(s, i, time), l) == WaitersAfter(s, Takes(i, time), l)
  {
    hide Inv, Block, Best, Queued, Without;
    InvCore(s);
    if s.sems[i].value == 0 && time != 0 && Started(s) {
      SemListExists(s, i);
      BlockWaiters(s, SemWait(i), time, l);
    } else {
      SameQueued(s, Take(s, i, time), l);
    }
  }

  lemma ReleaseWaiters(s: State, i: nat, l: Queue)
    requires Inv(s) && i < |s.sems| && Waiting(l)
    ensures Queued(Release(s, i), l) == WaitersAfter(s, Releases(i), l)
  {
    hide Resume, Best, Queued, Without, Core, CurOk;
    var q, m := Queued(s, SemWait(i)), s.sems[i];
    if q != [] {
      FirstWaits(s, SemWait(i));
      var s1 := s.(sems := s.sems[i := m.(takes := m.takes + 1, releases := m.releases + 1)]);
      assert SemOk(s, i);
      OneSemOk(s, i, s1.sems[i]);
      ObjectsInv(s, s1.sems, s.boxes);
      SameQueued(s, s1, l);
      SameQueued(s, s1, SemWait(i));
      ResumeWaiters(s1, SemWait(i), l);
    } else {
      SameQueued(s, Release(s, i), l);
    }
  }

  lemma KillWaiters(s: State, t: Tid, l: Queue)
    requires Inv(s) && Enabled(s, Kills(t)) && Waiting(l)
    ensures Queued(Kill(s, t), l) == WaitersAfter(s, Kills(t), l)
  {
    hide Inv, Close, Best, Queued, Without, Schedule, CanSwitch;
    InvCore(s);
    if t in s.threads && !s.threads[t].system {
      CloseWaiters(s, t, l);
      if s.cur == Some(t) {
        CloseInv(s, t);
        InvCore(Close(s, t));
        ScheduleSameWaiters(Close(s, t), l);
      }
    }
  }

  lemma ScheduleSameWaiters(s: State, l: Queue)
    requires Core(s) && Waiting(l)
    ensures Queued(Schedule(s), l) == Queued(s, l)
  {
    hide Core, Schedule, Queued, CanSwitch;
    if CanSwitch(s) {
      ScheduleWaiting(s, l);
    } else {
      ScheduleIdle(s);
    }
  }

  lemma OtherWaiters(s: State, e: Event, l: Queue)
    requires Inv(s) && Enabled(s, e) && Waiting(l) && Shapes(s) && (e.Starts? || e.Joins? || e.Sleeps? || e.Exits? || e.Reaps?)
    ensures Queued(Next(s, e), l) == Queued(s, l)
  {
    hide Inv, Best, Without;
    InvCore(s);
    if e.Starts? {
      TopReady(s);
    } else if e.Sleeps? {
      SleepIsMove(s, e.ticks);
      FitsAt(s, s.cur.value);
      MoveWaiters(s, s.cur.value, Asleep(s, e.ticks), false, l);
    } else if e.Exits? {
      FitsAt(s, s.cur.value);
      CloseWaiters(s, s.cur.value, l);
    }
  }

  /** Exactly how every event but a tick changes a waiting list. */
  lemma WaitersStep(s: State, e: Event, l: Queue)
    requires Inv(s) && Enabled(s, e) && Waiting(l) && !e.Ticks?
    ensures Shapes(s) && Queued(Next(s, e), l) == WaitersAfter(s, e, l)
  {
    hide Inv, Best, Without, Queued, Schedule, Take, Release, Send, IrqSend, Recv, Kill;
    InvShaped(s);
    InvCore(s);
    match e
    case Schedules => ScheduleSameWaiters(s, l);
    case Kills(t) => KillWaiters(s, t, l);
    case Takes(i, time) => TakeWaiters(s, i, time, l);
    case Releases(i) => ReleaseWaiters(s, i, l);
    case Sends(i, v, timeout) => SendWaiters(s, i, v, timeout, l);
    case IrqSends(i, v) => IrqSendWaiters(s, i, v, l);
    case Receives(i, limit) => RecvWaiters(s, i, limit, l);
    case _ => OtherWaiters(s, e, l);
  }

  // ---------------------------------------------------------------------------
  // Order and departure.

  lemma HeadGone(q: seq<Tid>, a: Tid)
    requires NoDup(q) && q != [] && a in q[1..]
    ensures a != q[0]
  {
  }

  /** In every step those who go on waiting in a list keep their arrival order. */
  lemma ArrivalOrder(s: State, e: Event, l: Queue, a: Tid, b: Tid)
    requires Inv(s) && Enabled(s, e) && Waiting(l) && Before(Queued(s, l), a, b) && Shapes(s)
    requires a in Queued(Next(s, e), l) && b in Queued(Next(s, e), l)
    ensures Before(Queued(Next(s, e), l), a, b)
  {
    hide Core, CurOk, SemsOk, BoxesOk, Queued, Tick, Schedule, Without, Before, QuietAt, Advances, Shrinks;
    var q := Queued(s, l);
    if e.Ticks? {
      TickQuiet(s);
      SameQueued(s, Ticked(s), l);
      assert OrderKept(Ticked(s), Tick(s), l, a, b);
    } else {
      WaitersStep(s, e, l);
      ListNoDup(s, l);
      if Blocks(s, e, l) {
        EndsBefore(q, s.cur.value, a, b);
      } else if Wakes(s, e, l) && q != [] {
        WithoutHead(q);
        HeadGone(q, a);
        HeadGone(q, b);
        WithoutBefore(q, q[0], a, b);
      } else if KillsIn(s, e, l) {
        WithoutMember(q, e.t, a);
        WithoutMember(q, e.t, b);
        WithoutBefore(q, e.t, a, b);
      }
    }
  }

  lemma ListNoDup(s: State, l: Queue)
    requires Core(s)
    ensures NoDup(Queued(s, l))
  {
  }

  /** A thread that waits in l is in the list, and the other way round. */
  lemma WaitsHere(s: State, l: Queue, t: Tid)
    requires Core(s) && Waiting(l)
    ensures t in Queued(s, l) <==> t in s.threads && s.threads[t].at == Some(l)
    ensures t in Queued(s, l) ==> s.threads[t].status == SUSPEND && !s.threads[t].timedOut
  {
    assert Agrees(s, l, t) && Placed(s, t);
  }

  /** Woken without a time-out, ready to go on. */
  predicate Served(s: State, t: Tid) {
    t in s.threads && Runnable(s.threads[t]) && !s.threads[t].timedOut && !s.threads[t].active
  }

  lemma ResumeServes(s: State, l: Queue)
    requires Core(s) && Waiting(l) && Queued(s, l) != []
    ensures Queued(s, l)[0] in s.threads && Served(Resume(s, Queued(s, l)[0]), Queued(s, l)[0])
  {
    hide Resume;
    var t := Queued(s, l)[0];
    FirstWaits(s, l);
    ResumeIsMove(s, t);
    FitsAt(s, t);
  }

  lemma WakesServes(s: State, e: Event, l: Queue)
    requires Inv(s) && Enabled(s, e) && Waiting(l) && Shapes(s) && Wakes(s, e, l) && Queued(s, l) != []
    ensures Served(Next(s, e), Queued(s, l)[0])
  {
    hide Inv, Resume, Core, Queued;
    InvCore(s);
    var t := Queued(s, l)[0];
    FirstWaits(s, l);
    match e
    case Releases(i) =>
      var m := s.sems[i];
      var s1 := s.(sems := s.sems[i := m.(takes := m.takes + 1, releases := m.releases + 1)]);
      ReleaseCore(s, i);
      SameQueued(s, s1, l);
      ResumeServes(s1, l);
    case Sends(i, v, _) =>
      Mailbox.PutAppends(s.boxes[i], v);
      BoxCore(s, i, Mailbox.Put(s.boxes[i], v));
      var s1 := Set(s, s.cur.value, Cur(s).(woken := None)).(boxes := s.boxes[i := Mailbox.Put(s.boxes[i], v)]);
      SameQueued(s, s1, l);
      ResumeServes(s1, l);
    case IrqSends(i, v) =>
      Mailbox.PutAppends(s.boxes[i], v);
      StoredInv(s, i, Mailbox.Put(s.boxes[i], v));
      var s1 := s.(boxes := s.boxes[i := Mailbox.Put(s.boxes[i], v)]);
      InvCore(s1);
      SameQueued(s, s1, l);
      ResumeServes(s1, l);
    case Receives(i, _) =>
      Mailbox.GetTakesFirst(s.boxes[i]);
      BoxCore(s, i, Mailbox.Get(s.boxes[i]));
      var s1 := Set(s, s.cur.value, Cur(s).(woken := None)).(boxes := s.boxes[i := Mailbox.Get(s.boxes[i])]);
      SameQueued(s, s1, l);
      ResumeServes(s1, l);
  }

  lemma ReleaseCore(s: State, i: nat)
    requires Inv(s) && i < |s.sems| && Queued(s, SemWait(i)) != []
    ensures
      var m := s.sems[i];
      Core(s.(sems := s.sems[i := m.(takes := m.takes + 1, releases := m.releases + 1)]))
  {
    hide Core, CurOk, Queued, Mailbox.Valid;
    var m := s.sems[i];
    assert SemOk(s, i);
    OneSemOk(s, i, m.(takes := m.takes + 1, releases := m.releases + 1));
    ObjectsInv(s, s.sems[i := m.(takes := m.takes + 1, releases := m.releases + 1)], s.boxes);
  }

  /**
   How a wait ends: the thread is first in the list and is woken without a time-out; or its timer
   was due and it carries the time-out; or it was killed.
   */
  lemma WaitEnds(s: State, e: Event, l: Queue, t: Tid)
    requires Inv(s) && Enabled(s, e) && Waiting(l) && Shapes(s)
    requires t in Queued(s, l) && t !in Queued(Next(s, e), l)
    ensures || (Wakes(s, e, l) && t == Queued(s, l)[0] && Served(Next(s, e), t))
            || (e.Ticks? && Due(Ticked(s), t) && t in Next(s, e).threads && Runnable(Next(s, e).threads[t]) && Next(s, e).threads[t].timedOut)
            || (KillsIn(s, e, l) && e.t == t)
  {
    hide Core, CurOk, SemsOk, BoxesOk, Queued, Tick, Schedule, Without, Shrinks, OrderKept, Advances;
    if e.Ticks? {
      TickQuiet(s);
      WaitsHere(s, l, t);
      WaitsHere(Tick(s), l, t);
      assert QuietAt(Ticked(s), Tick(s), t);
    } else {
      WaitersStep(s, e, l);
      if Wakes(s, e, l) {
        WakesServes(s, e, l);
      } else if KillsIn(s, e, l) {
        WithoutMember(Queued(s, l), e.t, t);
      }
    }
  }

  // ---------------------------------------------------------------------------
  // The accounts of a semaphore over a run.

  /** A take of semaphore i succeeds: at once, or by a release that finds a waiter. */
  predicate Grants(s: State, e: Event, i: nat) {
    match e
    case Takes(j, _) => j == i && i < |s.sems| && s.sems[i].value > 0
    case Releases(j) => j == i && Queued(s, SemWait(i)) != []
    case _ => false
  }

  /** Successful takes of semaphore i in the first n steps of a run. */
  ghost function GrantsIn(ss: seq<State>, es: seq<Event>, i: nat, n: nat): nat
    requires |ss| == |es| + 1 && n <= |es|
  {
    if n == 0 then 0 else GrantsIn(ss, es, i, n - 1) + if Grants(ss[n - 1], es[n - 1], i) then 1 else 0
  }

  /** Releases of semaphore i in the first n steps. */
  ghost function ReleasesIn(es: seq<Event>, i: nat, n: nat): nat
    requires n <= |es|
  {
    if n == 0 then 0 else ReleasesIn(es, i, n - 1) + if es[n - 1] == Releases(i) then 1 else 0
  }

  lemma SemStep(s: State, e: Event, i: nat)
    requires Inv(s) && Enabled(s, e) && Shapes(s) && i < |s.sems|
    ensures
      var s' := Next(s, e);
      && |s'.sems| == |s.sems| && s'.sems[i].initial == s.sems[i].initial
      && s'.sems[i].takes == s.sems[i].takes + (if Grants(s, e, i) then 1 else 0)
      && s'.sems[i].releases == s.sems[i].releases + (if e == Releases(i) then 1 else 0)
  {
    hide Inv, Best, Without, Queued, Tick, Schedule, Block, Resume, WakeFirst, Close, CanSwitch, Core;
    InvCore(s);
    match e
    case Schedules => QuietSems(s);
    case Ticks => TickSems(s);
    case Kills(t) =>
      if t in s.threads && !s.threads[t].system {
        CloseSems(s, t);
        if s.cur == Some(t) {
          CloseInv(s, t);
          InvCore(Close(s, t));
          QuietSems(Close(s, t));
        }
      }
    case Exits => CloseSems(s, s.cur.value);
    case Takes(j, time) =>
      if Started(s) {
        BlockSems(s, SemWait(j), time);
      }
    case Releases(j) =>
      if Queued(s, SemWait(j)) != [] {
        FirstWaits(s, SemWait(j));
        var m := s.sems[j];
        ResumeSems(s.(sems := s.sems[j := m.(takes := m.takes + 1, releases := m.releases + 1)]), Queued(s, SemWait(j))[0]);
      }
    case Sends(j, v, timeout) => SendSems(s, j, v, timeout);
    case IrqSends(j, v) =>
      if Started(s) && s.boxes[j].entry != s.boxes[j].size {
        WakeFirstSems(s.(boxes := s.boxes[j := Mailbox.Put(s.boxes[j], v)]), RecvWait(j));
      }
    case Receives(j, limit) => RecvSems(s, j, limit);
    case _ =>
  }

  lemma QuietSems(s: State)
    requires Core(s)
    ensures Schedule(s).sems == s.sems
  {
    hide Schedule, CanSwitch;
    ScheduleQuiet(s);
  }

  lemma TickSems(s: State)
    requires Core(s)
    ensures Tick(s).sems == s.sems
  {
    hide Tick;
    TickQuiet(s);
  }

  lemma CloseSems(s: State, t: Tid)
    requires t in s.threads
    ensures Close(s, t).sems == s.sems && Close(s, t).boxes == s.boxes
  {
  }

  lemma BlockSems(s: State, l: Queue, time: int)
    requires Started(s)
    ensures Block(s, l, time).sems == s.sems && Block(s, l, time).boxes == s.boxes
  {
  }

  lemma ResumeSems(s: State, t: Tid)
    requires t in s.threads
    ensures Resume(s, t).sems == s.sems && Resume(s, t).boxes == s.boxes && t in Resume(s, t).threads
  {
  }

  lemma WakeFirstSems(s: State, l: Queue)
    ensures WakeFirst(s, l).sems == s.sems && WakeFirst(s, l).boxes == s.boxes
  {
  }

  lemma SendSems(s: State, i: nat, v: nat, timeout: int)
    requires i < |s.boxes| && Mailbox.Shaped(s.boxes[i])
    ensures Send(s, i, v, timeout).sems == s.sems
  {
    hide Block, WakeFirst;
    if Started(s) {
      BlockSems(s, SendWait(i), timeout);
      if s.boxes[i].entry != s.boxes[i].size {
        WakeFirstSems(Set(s, s.cur.value, Cur(s).(woken := None)).(boxes := s.boxes[i := Mailbox.Put(s.boxes[i], v)]), RecvWait(i));
      }
    }
  }

  lemma RecvSems(s: State, i: nat, limit: nat)
    requires i < |s.boxes| && Mailbox.Shaped(s.boxes[i])
    ensures Recv(s, i, limit).sems == s.sems
  {
    hide Block, WakeFirst;
    if Started(s) {
      BlockSems(s, RecvWait(i), limit);
      if s.boxes[i].entry != 0 {
        WakeFirstSems(Set(s, s.cur.value, Cur(s).(woken := None)).(boxes := s.boxes[i := Mailbox.Get(s.boxes[i])]), SendWait(i));
      }
    }
  }

  lemma {:induction false} CountsAgree(ss: seq<State>, es: seq<Event>, i: nat, n: nat)
    requires Run(ss, es) && Initial(ss[0]) && n <= |es| && i < |ss[0].sems|
    ensures Inv(ss[n]) && |ss[n].sems| == |ss[0].sems| && ss[n].sems[i].initial == ss[0].sems[i].value
    ensures ss[n].sems[i].takes == GrantsIn(ss, es, i, n) && ss[n].sems[i].releases == ReleasesIn(es, i, n)
    decreases n
  {
    hide Inv, Next, Grants;
    InitialInv(ss[0]);
    RunInv(ss, es, n);
    if n > 0 {
      CountsAgree(ss, es, i, n - 1);
      assert StepAt(ss, es, n - 1);
      SemStep(ss[n - 1], es[n - 1], i);
    }
  }

  /**
   In every run a semaphore has waiters only at value 0, and its initial value plus the releases
   equals its value plus the successful takes, up to wraps of the 16-bit value; no wrap is possible
   while initial value and releases stay below 65536.
   */
  lemma SemaphoreAccounts(ss: seq<State>, es: seq<Event>, i: nat, n: nat)
    requires Run(ss, es) && Initial(ss[0]) && n <= |es| && i < |ss[0].sems|
    ensures
      var given, granted := ss[0].sems[i].value + ReleasesIn(es, i, n), GrantsIn(ss, es, i, n);
      && i < |ss[n].sems|
      && (Queued(ss[n], SemWait(i)) != [] ==> ss[n].sems[i].value == 0)
      && (given - granted - ss[n].sems[i].value) % VALUES == 0
      && granted <= given
      && (given < VALUES ==> given == ss[n].sems[i].value + granted)
  {
    hide Core, CurOk, Queued, GrantsIn, ReleasesIn;
    CountsAgree(ss, es, i, n);
    assert SemOk(ss[n], i);
    var m := ss[n].sems[i];
    assert m.initial + m.releases - m.takes - m.value == VALUES * m.wraps;
  }
}
