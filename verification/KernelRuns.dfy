/** Every step, and so every run, of the thread kernel keeps the invariant. */
module KernelRuns {
  import opened Base
  import opened KernelState
  import opened KernelInvariant
  import opened KernelSteps
  import opened KernelTick
  import Mailbox

  // ---------------------------------------------------------------------------
  // Semaphores and mailboxes under moves and quiet actions.

  lemma QuietInv(s: State, s': State)
    requires Inv(s) && Core(s') && CurOk(s') && Quiet(s, s')
    ensures Inv(s')
  {
    hide Core, CurOk, Queued, Mailbox.Valid, QuietAt, OrderKept, Advances;
    forall i: nat
      ensures SemOk(s', i)
    {
      assert SemOk(s, i);
      if Queued(s', SemWait(i)) != [] {
        assert Queued(s', SemWait(i))[0] in Queued(s', SemWait(i));
        assert Shrinks(s, s', SemWait(i), Queued(s', SemWait(i))[0]);
      }
    }
  }

  /** After thread t moves, a list has waiters only if it had some or t joined it. */
  lemma MoveNonEmpty(s: State, t: Tid, th: Thread, front: bool, l: Queue)
    requires t in s.threads && Queued(Move(s, t, th, front), l) != []
    ensures Queued(s, l) != [] || th.at == Some(l)
  {
    hide Move;
    if l in s.lists {
      QueuedMove(s, t, th, front, l);
    } else {
      QueuedUnknown(s, t, th, front, l);
    }
  }

  lemma MoveInv(s: State, t: Tid, th: Thread, front: bool)
    requires Inv(s) && t in s.threads && Fits(th, s.cur == Some(t)) && (th.at.Some? ==> th.at.value in s.lists)
    requires th.at.Some? && th.at.value.SemWait? && th.at.value.i < |s.sems| ==> s.sems[th.at.value.i].value == 0
    requires CurOk(Move(s, t, th, front))
    ensures Inv(Move(s, t, th, front))
  {
    hide Core, CurOk, Queued, Mailbox.Valid, Fits;
    var r := Move(s, t, th, front);
    MoveCore(s, t, th, front);
    forall i: nat
      ensures SemOk(r, i)
    {
      assert SemOk(s, i);
      if Queued(r, SemWait(i)) != [] {
        MoveNonEmpty(s, t, th, front, SemWait(i));
      }
    }
  }

  /** The current thread stays fit to go on: it runs, or somebody is ready. */
  lemma MoveCurOk(s: State, t: Tid, th: Thread, front: bool)
    requires Core(s) && t in s.threads
    requires !Started(s) || (if s.cur == Some(t) then th.status == RUNNING else Cur(s).status == RUNNING)
          || (AnyReady(s) && (s.threads[t].at.Some? ==> !s.threads[t].at.value.ReadyAt?))
    ensures CurOk(Move(s, t, th, front))
  {
    hide Core, Without, Best;
    var r := Move(s, t, th, front);
    if Started(r) && Cur(r).status != RUNNING {
      BestIsFirst(s.lists, 0);
      var p := Best(s.lists, 0);
      QueuedMove(s, t, th, front, ReadyAt(p));
      ReadyHere(r, p);
    }
  }

  /** A change to semaphores and mailboxes only. */
  lemma ObjectsInv(s: State, sems: seq<Sem>, boxes: seq<Mailbox.Box>)
    requires Inv(s) && |sems| == |s.sems| && |boxes| == |s.boxes|
    requires SemsOk(s.(sems := sems, boxes := boxes))
    requires forall i | 0 <= i < |boxes| :: Mailbox.Valid(boxes[i])
    ensures Inv(s.(sems := sems, boxes := boxes))
  {
    hide Linked, NoDup, SemOk, Mailbox.Valid;
    var r := s.(sems := sems, boxes := boxes);
    LinkedSame(s, r);
    DomainSame(s, r);
    forall t
      ensures Placed(r, t) && TimerAgrees(r, t)
    {
      assert Placed(s, t) && TimerAgrees(s, t);
    }
  }

  // ---------------------------------------------------------------------------
  // Step by step.

  lemma ScheduleInv(s: State)
    requires Inv(s)
    ensures Inv(Schedule(s))
  {
    hide Core, CurOk, Quiet, SemOk, Schedule;
    ScheduleCore(s);
    ScheduleQuiet(s);
    ScheduleCurOk(s);
    QuietInv(s, Schedule(s));
  }

  lemma TickInv(s: State)
    requires Inv(s)
    ensures Inv(Tick(s))
  {
    hide Core, CurOk, Quiet, Tick, Queued;
    TickedCore(s);
    forall i: nat
      ensures SemOk(Ticked(s), i)
    {
      assert SemOk(s, i);
      SameQueued(s, Ticked(s), SemWait(i));
    }
    TickQuiet(s);
    QuietInv(Ticked(s), Tick(s));
  }

  lemma SameQueued(s: State, r: State, l: Queue)
    requires r.lists == s.lists
    ensures Queued(r, l) == Queued(s, l)
  {
  }

  lemma StartInv(s: State)
    requires Inv(s) && Enabled(s, Starts)
    ensures Inv(Start(s))
  {
    hide Linked, NoDup, Mailbox.Valid;
    TopReady(s);
    var to, r := Top(s), Start(s);
    assert Placed(s, to);
    var s0 := s.(cur := Some(to));
    LinkedSame(s, s0);
    PutLinked(s0, to, s0.threads[to].(at := None), false);
    var s1 := RemoveThread(s0, to);
    SetLinked(s1, to, s1.threads[to].(status := RUNNING, runs := s1.threads[to].runs + 1));
    DomainSame(s, r);
    forall t
      ensures Placed(r, t) && TimerAgrees(r, t)
    {
      assert Placed(s, t) && TimerAgrees(s, t);
    }
    forall i: nat
      ensures SemOk(r, i)
    {
      assert SemOk(s, i);
    }
  }

  lemma JoinInv(s: State, t: Tid, prio: nat, slice: nat, system: bool)
    requires Inv(s) && t !in s.threads
    ensures Inv(Join(s, t, prio, slice, system))
  {
    if prio < LEVELS {
      var th := Thread(READY, prio, None, false, slice, slice, 0, false, 0, system, None, 0);
      var s1, r := Set(s, t, th), Join(s, t, prio, slice, system);
      JoinLinked(s, t, th);
      assert Known(s, ReadyAt(prio));
      PutLinked(s1, t, th.(at := Some(ReadyAt(prio))), false);
      JoinRest(s, t, prio, slice, system);
    }
  }

  lemma JoinLinked(s: State, t: Tid, th: Thread)
    requires Linked(s) && t !in s.threads && th.at == None
    ensures Linked(Set(s, t, th))
  {
    forall l, x
      ensures Agrees(Set(s, t, th), l, x)
    {
      assert Agrees(s, l, x);
    }
  }

  lemma JoinRest(s: State, t: Tid, prio: nat, slice: nat, system: bool)
    requires Inv(s) && t !in s.threads && prio < LEVELS
    requires Linked(Join(s, t, prio, slice, system)) && Join(s, t, prio, slice, system).lists.Keys == s.lists.Keys
    ensures Inv(Join(s, t, prio, slice, system))
  {
    hide Linked, NoDup, Mailbox.Valid, Best;
    var r := Join(s, t, prio, slice, system);
    DomainSame(s, r);
    assert Known(s, ReadyAt(prio));
    forall x
      ensures Placed(r, x) && TimerAgrees(r, x)
    {
      assert Placed(s, x) && TimerAgrees(s, x) && TimerAgrees(s, t);
    }
    forall i: nat
      ensures SemOk(r, i)
    {
      assert SemOk(s, i);
    }
    ReadyHere(r, prio);
  }

  lemma SleepInv(s: State, ticks: nat)
    requires Inv(s) && Enabled(s, Sleeps(ticks))
    ensures Inv(Sleep(s, ticks))
  {
    hide Core, Sleep, Move, SemOk, Best;
    SleepIsMove(s, ticks);
    FitsAt(s, s.cur.value);
    MoveCurOk(s, s.cur.value, Asleep(s, ticks), false);
    MoveInv(s, s.cur.value, Asleep(s, ticks), false);
  }

  lemma CloseInv(s: State, t: Tid)
    requires Inv(s) && Free(s) && t in s.threads && (s.cur == Some(t) ==> AnyReady(s))
    ensures Inv(Close(s, t))
  {
    hide Close, Move, SemOk, Best, Linked;
    CloseIsMove(s, t);
    FitsAt(s, t);
    assert Known(s, Dead);
    MoveCurOk(s, t, Closed(s.threads[t]), true);
    MoveInv(s, t, Closed(s.threads[t]), true);
  }

  lemma KillInv(s: State, t: Tid)
    requires Inv(s) && Enabled(s, Kills(t))
    ensures Inv(Kill(s, t))
  {
    hide Close, Inv, Schedule;
    if t in s.threads && !s.threads[t].system {
      CloseInv(s, t);
      if s.cur == Some(t) {
        ScheduleInv(Close(s, t));
      }
    }
  }

  lemma BlockInv(s: State, l: Queue, time: int)
    requires Inv(s) && Started(s) && Cur(s).status == RUNNING && AnyReady(s) && Waiting(l) && l in s.lists
    requires l.SemWait? && l.i < |s.sems| ==> s.sems[l.i].value == 0
    ensures Inv(Block(s, l, time))
  {
    hide Core, Block, Move, SemOk, Best;
    BlockIsMove(s, l, time);
    FitsAt(s, s.cur.value);
    MoveCurOk(s, s.cur.value, Parked(s, l, time), false);
    MoveInv(s, s.cur.value, Parked(s, l, time), false);
  }

  /** Waking the first waiter of a list. */
  lemma ResumeInv(s: State, l: Queue)
    requires Inv(s) && Waiting(l) && Queued(s, l) != []
    ensures Queued(s, l)[0] in s.threads && s.threads[Queued(s, l)[0]].status == SUSPEND
    ensures Inv(Resume(s, Queued(s, l)[0]))
  {
    hide Resume, Move, SemOk, Best, Linked;
    var t := Queued(s, l)[0];
    FirstWaits(s, l);
    ResumeIsMove(s, t);
    FitsAt(s, t);
    assert Known(s, ReadyAt(s.threads[t].prio));
    MoveCurOk(s, t, Awake(s, t), false);
    MoveInv(s, t, Awake(s, t), false);
  }

  lemma FirstWaits(s: State, l: Queue)
    requires Core(s) && Waiting(l) && Queued(s, l) != []
    ensures Queued(s, l)[0] in s.threads && s.threads[Queued(s, l)[0]].status == SUSPEND && s.threads[Queued(s, l)[0]].at == Some(l)
  {
    var t := Queued(s, l)[0];
    assert t in s.lists[l];
    assert Agrees(s, l, t) && Placed(s, t);
  }

  lemma WakeFirstInv(s: State, l: Queue)
    requires Inv(s) && Waiting(l)
    ensures Inv(WakeFirst(s, l))
  {
    hide Inv, Resume;
    if Queued(s, l) != [] {
      var t := Queued(s, l)[0];
      InvCore(s);
      FirstWaits(s, l);
      ResumeInv(s, l);
      ResumeIsMove(s, t);
      SetWoken(Resume(s, t), t, Some(l));
    }
  }

  lemma InvCore(s: State)
    requires Inv(s)
    ensures Core(s) && CurOk(s) && BoxesOk(s) && SemsOk(s)
  {
  }

  /** The retry mark of a runnable thread. */
  lemma SetWoken(s: State, t: Tid, w: Option<Queue>)
    requires Inv(s) && t in s.threads && (w.Some? ==> Runnable(s.threads[t]))
    ensures Inv(Set(s, t, s.threads[t].(woken := w)))
  {
    hide Core, Best, Mailbox.Valid;
    var r := Set(s, t, s.threads[t].(woken := w));
    FitsAt(s, t);
    SetCore(s, t, s.threads[t].(woken := w));
    forall i: nat
      ensures SemOk(r, i)
    {
      assert SemOk(s, i);
    }
  }

  lemma TakeInv(s: State, i: nat, time: int)
    requires Inv(s) && Enabled(s, Takes(i, time))
    ensures Inv(Take(s, i, time))
  {
    hide Core, Block, Queued, Best, Mailbox.Valid;
    var m := s.sems[i];
    assert SemOk(s, i);
    if m.value > 0 {
      var sems := s.sems[i := m.(value := m.value - 1, takes := m.takes + 1)];
      OneSemOk(s, i, sems[i]);
      ObjectsInv(s, sems, s.boxes);
    } else if time != 0 && Started(s) {
      SemListExists(s, i);
      BlockInv(s, SemWait(i), time);
    }
  }

  lemma SemListExists(s: State, i: nat)
    requires Core(s)
    ensures i < |s.sems| ==> SemWait(i) in s.lists
    ensures i < |s.boxes| ==> RecvWait(i) in s.lists && SendWait(i) in s.lists
  {
    assert Known(s, SemWait(i)) ==> SemWait(i) in s.lists;
    assert Known(s, RecvWait(i)) ==> RecvWait(i) in s.lists;
    assert Known(s, SendWait(i)) ==> SendWait(i) in s.lists;
  }

  /** Replacing one semaphore by one that balances and respects its waiters. */
  lemma OneSemOk(s: State, i: nat, m: Sem)
    requires SemsOk(s) && i < |s.sems|
    requires m.value < VALUES && (Queued(s, SemWait(i)) != [] ==> m.value == 0)
    requires m.value + m.takes + VALUES * m.wraps == m.initial + m.releases
    ensures SemsOk(s.(sems := s.sems[i := m]))
  {
    var r := s.(sems := s.sems[i := m]);
    forall j: nat
      ensures SemOk(r, j)
    {
      assert SemOk(s, j);
    }
  }

  lemma ReleaseInv(s: State, i: nat)
    requires Inv(s) && i < |s.sems|
    ensures Inv(Release(s, i))
  {
    hide Resume, Mailbox.Valid, Core;
    var m, q := s.sems[i], Queued(s, SemWait(i));
    assert SemOk(s, i);
    if q != [] {
      FirstWaits(s, SemWait(i));
      var m' := m.(takes := m.takes + 1, releases := m.releases + 1);
      OneSemOk(s, i, m');
      ObjectsInv(s, s.sems[i := m'], s.boxes);
      ResumeInv(s.(sems := s.sems[i := m']), SemWait(i));
    } else {
      var m' := m.(value := (m.value + 1) % VALUES, releases := m.releases + 1, wraps := m.wraps + (m.value + 1) / VALUES);
      OneSemOk(s, i, m');
      ObjectsInv(s, s.sems[i := m'], s.boxes);
    }
  }

  /** A mailbox is replaced by a valid one. */
  lemma StoredInv(s: State, i: nat, b: Mailbox.Box)
    requires Inv(s) && i < |s.boxes| && Mailbox.Valid(b)
    ensures Inv(s.(boxes := s.boxes[i := b]))
  {
    hide Core, CurOk, Mailbox.Valid, SemOk;
    var r := s.(sems := s.sems, boxes := s.boxes[i := b]);
    forall j: nat
      ensures SemOk(r, j)
    {
      assert SemOk(s, j);
      SameSem(s, r, j);
    }
    ObjectsInv(s, s.sems, s.boxes[i := b]);
    assert r == s.(boxes := s.boxes[i := b]);
  }

  /** The mailbox part of a send or receive that goes through. */
  lemma BoxInv(s: State, i: nat, b: Mailbox.Box)
    requires Inv(s) && Started(s) && i < |s.boxes| && Mailbox.Valid(b)
    ensures Inv(Set(s, s.cur.value, Cur(s).(woken := None)).(boxes := s.boxes[i := b]))
  {
    hide Core, CurOk, Mailbox.Valid, SemOk;
    SetWoken(s, s.cur.value, None);
    var s1 := Set(s, s.cur.value, Cur(s).(woken := None));
    var r := s1.(sems := s1.sems, boxes := s.boxes[i := b]);
    forall j: nat
      ensures SemOk(r, j)
    {
      assert SemOk(s1, j);
      SameSem(s1, r, j);
    }
    ObjectsInv(s1, s1.sems, s.boxes[i := b]);
  }

  lemma SameSem(s: State, r: State, i: nat)
    requires SemOk(s, i) && r.sems == s.sems && r.lists == s.lists
    ensures SemOk(r, i)
  {
  }

  /** The outcome of a retry that gives up. */
  lemma GivesUp(s: State, timedOut: bool)
    requires Inv(s) && Started(s) && Cur(s).status == RUNNING
    ensures Inv(Set(s, s.cur.value, Cur(s).(timedOut := timedOut, woken := None)))
  {
    hide Core, Best, Mailbox.Valid;
    var th := Cur(s).(timedOut := timedOut, woken := None);
    FitsAt(s, s.cur.value);
    SetCore(s, s.cur.value, th);
    forall i: nat
      ensures SemOk(Set(s, s.cur.value, th), i)
    {
      assert SemOk(s, i);
    }
  }

  lemma SendInv(s: State, i: nat, v: nat, timeout: int)
    requires Inv(s) && Enabled(s, Sends(i, v, timeout))
    ensures Inv(Send(s, i, v, timeout))
  {
    hide Inv, Block, WakeFirst, Best;
    InvCore(s);
    var b := s.boxes[i];
    if Started(s) {
      if b.entry == b.size {
        if timeout != 0 {
          SemListExists(s, i);
          BlockInv(s, SendWait(i), timeout);
        } else {
          GivesUp(s, false);
        }
      } else {
        Mailbox.PutAppends(b, v);
        BoxInv(s, i, Mailbox.Put(b, v));
        WakeFirstInv(Set(s, s.cur.value, Cur(s).(woken := None)).(boxes := s.boxes[i := Mailbox.Put(b, v)]), RecvWait(i));
      }
    }
  }

  lemma IrqSendInv(s: State, i: nat, v: nat)
    requires Inv(s) && i < |s.boxes|
    ensures Mailbox.Shaped(s.boxes[i]) && Inv(IrqSend(s, i, v))
  {
    hide Inv, WakeFirst;
    InvCore(s);
    var b := s.boxes[i];
    if Started(s) && b.entry != b.size {
      Mailbox.PutAppends(b, v);
      StoredInv(s, i, Mailbox.Put(b, v));
      WakeFirstInv(s.(boxes := s.boxes[i := Mailbox.Put(b, v)]), RecvWait(i));
    }
  }

  lemma RecvInv(s: State, i: nat, timeout: nat)
    requires Inv(s) && Enabled(s, Receives(i, timeout))
    ensures Inv(Recv(s, i, timeout))
  {
    hide Inv, Block, WakeFirst, Best;
    InvCore(s);
    var b := s.boxes[i];
    if Started(s) {
      if b.entry == 0 {
        if timeout != 0 {
          SemListExists(s, i);
          BlockInv(s, RecvWait(i), timeout);
        } else {
          GivesUp(s, true);
        }
      } else {
        Mailbox.GetTakesFirst(b);
        BoxInv(s, i, Mailbox.Get(b));
        WakeFirstInv(Set(s, s.cur.value, Cur(s).(woken := None)).(boxes := s.boxes[i := Mailbox.Get(b)]), SendWait(i));
      }
    }
  }

  /** Only closed threads are forgotten. */
  lemma ReapInv(s: State)
    requires Inv(s) && Enabled(s, Reaps)
    ensures Inv(Reap(s))
    ensures forall t | t in s.threads && t !in Reap(s).threads :: s.threads[t].status == CLOSE
  {
    hide Best, Mailbox.Valid, NoDup;
    var r := Reap(s);
    assert Known(s, Dead);
    forall l, t
      ensures Agrees(r, l, t)
    {
      assert Agrees(s, l, t) && Agrees(s, Dead, t);
    }
    NoDupEmpty();
    forall t
      ensures Placed(r, t) && TimerAgrees(r, t)
      ensures t in s.threads && t !in r.threads ==> s.threads[t].status == CLOSE
    {
      assert Placed(s, t) && TimerAgrees(s, t) && Agrees(s, Dead, t);
    }
    assert Agrees(s, Dead, s.cur.value) && Placed(s, s.cur.value);
    DomainSame(s, r);
    forall i: nat
      ensures SemOk(r, i)
    {
      assert SemOk(s, i);
    }
  }

  lemma NoDupEmpty()
    ensures NoDup([])
  {
  }

  // ---------------------------------------------------------------------------
  // All steps, all runs.

  lemma InvShaped(s: State)
    requires Inv(s)
    ensures Shapes(s)
  {
    forall i | 0 <= i < |s.boxes|
      ensures Mailbox.Shaped(s.boxes[i])
    {
      assert Mailbox.Valid(s.boxes[i]);
    }
  }

  /** Whatever happens next, the invariant holds. */
  lemma StepInv(s: State, e: Event)
    requires Inv(s) && Enabled(s, e)
    ensures Shapes(s) && Inv(Next(s, e))
  {
    hide Inv, Start, Join, Schedule, Tick, Sleep, Close, Kill, Reap, Take, Release, Send, IrqSend, Recv;
    InvShaped(s);
    match e
    case Starts => StartInv(s);
    case Joins(t, prio, slice, system) => JoinInv(s, t, prio, slice, system);
    case Schedules => ScheduleInv(s);
    case Ticks => TickInv(s);
    case Sleeps(ticks) => SleepInv(s, ticks);
    case Exits => CloseInv(s, s.cur.value);
    case Kills(t) => KillInv(s, t);
    case Reaps => ReapInv(s);
    case Takes(i, time) => TakeInv(s, i, time);
    case Releases(i) => ReleaseInv(s, i);
    case Sends(i, v, timeout) => SendInv(s, i, v, timeout);
    case IrqSends(i, v) => IrqSendInv(s, i, v);
    case Receives(i, timeout) => RecvInv(s, i, timeout);
  }

  /** The kernel after thread_init, with its semaphores and mailboxes set up. */
  ghost predicate Initial(s: State) {
    && s.cur == None && s.threads == map[] && s.timers == [] && s.tick < WRAP
    && (forall l | l in s.lists :: s.lists[l] == [])
    && Domain(s)
    && (forall i | 0 <= i < |s.sems| :: s.sems[i].initial < VALUES && s.sems[i] == Sem(s.sems[i].initial, s.sems[i].initial, 0, 0, 0))
    && (forall i | 0 <= i < |s.boxes| :: |s.boxes[i].pool| < 0x1_0000 && s.boxes[i] == Mailbox.Fresh(s.boxes[i].pool))
  }

  lemma InitialInv(s: State)
    requires Initial(s)
    ensures Inv(s)
  {
    forall l, t
      ensures Agrees(s, l, t)
    {
    }
    forall t
      ensures Placed(s, t) && TimerAgrees(s, t)
    {
    }
    forall i: nat
      ensures SemOk(s, i)
    {
    }
    forall i | 0 <= i < |s.boxes|
      ensures Mailbox.Valid(s.boxes[i])
    {
      Mailbox.FreshIsEmpty(s.boxes[i].pool);
    }
  }

  /** Each state follows from the one before by an event that could happen there. */
  ghost predicate Step(s: State, e: Event, s': State) {
    Enabled(s, e) && Shapes(s) && s' == Next(s, e)
  }

  ghost predicate StepAt(ss: seq<State>, es: seq<Event>, i: nat)
    requires |ss| == |es| + 1
  {
    i < |es| ==> Step(ss[i], es[i], ss[i + 1])
  }

  ghost predicate Run(ss: seq<State>, es: seq<Event>) {
    |ss| == |es| + 1 && forall i: nat :: StepAt(ss, es, i)
  }

  /** Every state of every run that starts in the invariant has it. */
  lemma {:induction false} RunInv(ss: seq<State>, es: seq<Event>, i: nat)
    requires Run(ss, es) && Inv(ss[0]) && i < |ss|
    ensures Inv(ss[i])
    decreases i
  {
    if i > 0 {
      RunInv(ss, es, i - 1);
      assert StepAt(ss, es, i - 1);
      StepInv(ss[i - 1], es[i - 1]);
    }
  }
}
