/** Mailboxes over whole runs: a bounded FIFO queue that loses no wake-up. */
module KernelMail {
  import opened Base
  import opened KernelState
  import opened KernelInvariant
  import opened KernelSteps
  import opened KernelTick
  import opened KernelRuns
  import opened KernelWaiting
  import Mailbox

  // ---------------------------------------------------------------------------
  // What events do to mailboxes and to retry marks.

  predicate Stores(s: State, e: Event, i: nat) {
    (e.Sends? || e.IrqSends?) && e.i == i && i < |s.boxes| && Started(s) && s.boxes[i].entry != s.boxes[i].size
  }

  predicate Fetches(s: State, e: Event, i: nat) {
    e.Receives? && e.i == i && i < |s.boxes| && Started(s) && s.boxes[i].entry != 0
  }

  lemma BoxStep(s: State, e: Event, i: nat)
    requires Inv(s) && Enabled(s, e) && Shapes(s)
    ensures |Next(s, e).boxes| == |s.boxes|
    ensures i < |s.boxes| ==>
              Next(s, e).boxes[i] ==
              if Stores(s, e, i) then Mailbox.Put(s.boxes[i], e.v)
              else if Fetches(s, e, i) then Mailbox.Get(s.boxes[i])
              else s.boxes[i]
  {
    hide Inv, Best, Without, Queued, Tick, Schedule, Block, Resume, WakeFirst, Close, CanSwitch, Core, Mailbox.Put, Mailbox.Get;
    InvCore(s);
    match e
    case Schedules => QuietBoxes(s);
    case Ticks => TickBoxes(s);
    case Kills(t) =>
      if t in s.threads && !s.threads[t].system {
        CloseSems(s, t);
        if s.cur == Some(t) {
          CloseInv(s, t);
          InvCore(Close(s, t));
          QuietBoxes(Close(s, t));
        }
      }
    case Exits => CloseSems(s, s.cur.value);
    case Takes(j, time) =>
      if Started(s) {
        BlockSems(s, SemWait(j), time);
      }
    case Releases(j) =>
      if Queued(s, SemWait(j)) != [] {
        FirstWaits(s, SemWait(j));
        var m := s.sems[j];
        ResumeSems(s.(sems := s.sems[j := m.(takes := m.takes + 1, releases := m.releases + 1)]), Queued(s, SemWait(j))[0]);
      }
    case Sends(j, v, timeout) =>
      if Started(s) {
        BlockSems(s, SendWait(j), timeout);
        if s.boxes[j].entry != s.boxes[j].size {
          WakeFirstSems(Set(s, s.cur.value, Cur(s).(woken := None)).(boxes := s.boxes[j := Mailbox.Put(s.boxes[j], v)]), RecvWait(j));
        }
      }
    case IrqSends(j, v) =>
      if Started(s) && s.boxes[j].entry != s.boxes[j].size {
        WakeFirstSems(s.(boxes := s.boxes[j := Mailbox.Put(s.boxes[j], v)]), RecvWait(j));
      }
    case Receives(j, limit) =>
      if Started(s) {
        BlockSems(s, RecvWait(j), limit);
        if s.boxes[j].entry != 0 {
          WakeFirstSems(Set(s, s.cur.value, Cur(s).(woken := None)).(boxes := s.boxes[j := Mailbox.Get(s.boxes[j])]), SendWait(j));
        }
      }
    case _ =>
  }

  lemma QuietBoxes(s: State)
    requires Core(s)
    ensures Schedule(s).boxes == s.boxes
  {
    hide Schedule, CanSwitch;
    ScheduleQuiet(s);
  }

  lemma TickBoxes(s: State)
    requires Core(s)
    ensures Tick(s).boxes == s.boxes
  {
    hide Tick;
    TickQuiet(s);
  }

  function WokenOf(s: State, t: Tid): Option<Queue> {
    if t in s.threads then s.threads[t].woken else None
  }

  /** Thread t is the first in the mailbox list l, which this event wakes. */
  predicate Marks(s: State, e: Event, l: Queue, t: Tid) {
    !l.SemWait? && Waiting(l) && Wakes(s, e, l) && Queued(s, l) != [] && Queued(s, l)[0] == t
  }

  /** Thread t makes its attempt on a mailbox. */
  predicate Attempts(s: State, e: Event, t: Tid) {
    (e.Sends? || e.Receives?) && s.cur == Some(t)
  }

  predicate KillsThread(s: State, e: Event, t: Tid) {
    e == Kills(t) && t in s.threads && !s.threads[t].system
  }

  lemma ResumeWoken(s: State, t: Tid, x: Tid)
    requires t in s.threads
    ensures t in Resume(s, t).threads && WokenOf(Resume(s, t), x) == WokenOf(s, x)
  {
  }

  lemma BlockWoken(s: State, l: Queue, time: int, x: Tid)
    requires Started(s)
    ensures WokenOf(Block(s, l, time), x) == if s.cur == Some(x) then None else WokenOf(s, x)
  {
  }

  lemma WakeFirstWoken(s: State, l: Queue, x: Tid)
    requires Core(s) && Waiting(l)
    ensures WokenOf(WakeFirst(s, l), x) == if Queued(s, l) != [] && Queued(s, l)[0] == x then Some(l) else WokenOf(s, x)
  {
    hide Resume, Core, Queued;
    if Queued(s, l) != [] {
      FirstWaits(s, l);
      ResumeWoken(s, Queued(s, l)[0], x);
    }
  }

  lemma ScheduleWoken(s: State, x: Tid)
    requires Core(s)
    ensures WokenOf(Schedule(s), x) == WokenOf(s, x)
  {
    hide Core, Schedule, CanSwitch, Advances;
    ScheduleQuiet(s);
    assert QuietAt(s, Schedule(s), x);
    assert x in s.threads.Keys <==> x in Schedule(s).threads.Keys;
  }

  lemma TickWoken(s: State, x: Tid)
    requires Core(s)
    ensures WokenOf(Tick(s), x) == WokenOf(s, x)
  {
    hide Core, Tick, Advances;
    TickQuiet(s);
    assert QuietAt(Ticked(s), Tick(s), x);
    assert x in s.threads.Keys <==> x in Tick(s).threads.Keys;
  }

  lemma KillWoken(s: State, t: Tid, x: Tid)
    requires Inv(s) && Enabled(s, Kills(t))
    ensures WokenOf(Kill(s, t), x) == if KillsThread(s, Kills(t), x) then None else WokenOf(s, x)
  {
    hide Inv, Schedule, CanSwitch, Best;
    if t in s.threads && !s.threads[t].system {
      CloseWoken(s, t, x);
      if s.cur == Some(t) {
        CloseInv(s, t);
        InvCore(Close(s, t));
        ScheduleWoken(Close(s, t), x);
      }
    }
  }

  lemma CloseWoken(s: State, t: Tid, x: Tid)
    requires t in s.threads
    ensures WokenOf(Close(s, t), x) == if x == t then None else WokenOf(s, x)
  {
  }

  lemma SendWoken(s: State, i: nat, v: nat, timeout: int, x: Tid)
    requires Inv(s) && Enabled(s, Sends(i, v, timeout)) && Shapes(s)
    ensures
      var e := Sends(i, v, timeout);
      WokenOf(Send(s, i, v, timeout), x) ==
      if Marks(s, e, RecvWait(i), x) then Some(RecvWait(i)) else if Attempts(s, e, x) then None else WokenOf(s, x)
  {
    hide Inv, Block, WakeFirst, Best, Queued;
    InvCore(s);
    var b := s.boxes[i];
    if Started(s) {
      if b.entry == b.size {
        BlockWoken(s, SendWait(i), timeout, x);
      } else {
        Mailbox.PutAppends(b, v);
        BoxCore(s, i, Mailbox.Put(b, v));
        var s1 := Set(s, s.cur.value, Cur(s).(woken := None)).(boxes := s.boxes[i := Mailbox.Put(b, v)]);
        WakeFirstWoken(s1, RecvWait(i), x);
        SameQueued(s, s1, RecvWait(i));
      }
    }
  }

  lemma IrqSendWoken(s: State, i: nat, v: nat, x: Tid)
    requires Inv(s) && i < |s.boxes| && Shapes(s)
    ensures WokenOf(IrqSend(s, i, v), x) == if Marks(s, IrqSends(i, v), RecvWait(i), x) then Some(RecvWait(i)) else WokenOf(s, x)
  {
    hide Inv, WakeFirst, Queued;
    InvCore(s);
    var b := s.boxes[i];
    if Started(s) && b.entry != b.size {
      Mailbox.PutAppends(b, v);
      StoredInv(s, i, Mailbox.Put(b, v));
      var s1 := s.(boxes := s.boxes[i := Mailbox.Put(b, v)]);
      InvCore(s1);
      WakeFirstWoken(s1, RecvWait(i), x);
      SameQueued(s, s1, RecvWait(i));
    }
  }

  lemma RecvWoken(s: State, i: nat, limit: nat, x: Tid)
    requires Inv(s) && Enabled(s, Receives(i, limit)) && Shapes(s)
    ensures
      var e := Receives(i, limit);
      WokenOf(Recv(s, i, limit), x) ==
      if Marks(s, e, SendWait(i), x) then Some(SendWait(i)) else if Attempts(s, e, x) then None else WokenOf(s, x)
  {
    hide Inv, Block, WakeFirst, Best, Queued;
    InvCore(s);
    var b := s.boxes[i];
    if Started(s) {
      if b.entry == 0 {
        BlockWoken(s, RecvWait(i), limit, x);
      } else {
        Mailbox.GetTakesFirst(b);
        BoxCore(s, i, Mailbox.Get(b));
        var s1 := Set(s, s.cur.value, Cur(s).(woken := None)).(boxes := s.boxes[i := Mailbox.Get(b)]);
        WakeFirstWoken(s1, SendWait(i), x);
        SameQueued(s, s1, SendWait(i));
      }
    }
  }

  lemma OtherWoken(s: State, e: Event, x: Tid)
    requires Inv(s) && Enabled(s, e) && Shapes(s) && !e.Sends? && !e.IrqSends? && !e.Receives? && !e.Kills? && !e.Schedules? && !e.Ticks?
    ensures WokenOf(Next(s, e), x) == WokenOf(s, x)
  {
    hide Best, Without, Queued, Block, Resume, CurOk, SemsOk, Linked;
    match e
    case Takes(i, time) =>
      if Started(s) {
        BlockWoken(s, SemWait(i), time, x);
      }
    case Releases(i) =>
      if Queued(s, SemWait(i)) != [] {
        FirstWaits(s, SemWait(i));
        var m := s.sems[i];
        ResumeWoken(s.(sems := s.sems[i := m.(takes := m.takes + 1, releases := m.releases + 1)]), Queued(s, SemWait(i))[0], x);
      }
    case Reaps => ReapWoken(s, x);
    case _ =>
  }

  lemma ReapWoken(s: State, x: Tid)
    requires Core(s)
    ensures WokenOf(Reap(s), x) == WokenOf(s, x)
  {
    assert Known(s, Dead);
    assert Agrees(s, Dead, x) && Placed(s, x);
  }

  /** Exactly who carries a retry mark after an event. */
  lemma WokenStep(s: State, e: Event, l: Queue, x: Tid)
    requires Inv(s) && Enabled(s, e) && Shapes(s) && (l.RecvWait? || l.SendWait?)
    ensures WokenOf(Next(s, e), x) == Some(l) <==>
            Marks(s, e, l, x) || (WokenOf(s, x) == Some(l) && !Attempts(s, e, x) && !KillsThread(s, e, x))
  {
    hide Inv, Best, Without, Tick, Schedule, Send, IrqSend, Recv, Kill, Core;
    InvCore(s);
    match e
    case Schedules => ScheduleWoken(s, x);
    case Ticks => TickWoken(s, x);
    case Kills(t) => KillWoken(s, t, x);
    case Sends(i, v, timeout) =>
      SendWoken(s, i, v, timeout, x);
      MarkedWaits(s, RecvWait(i), x);
    case IrqSends(i, v) =>
      IrqSendWoken(s, i, v, x);
      MarkedWaits(s, RecvWait(i), x);
    case Receives(i, limit) =>
      RecvWoken(s, i, limit, x);
      MarkedWaits(s, SendWait(i), x);
    case _ => OtherWoken(s, e, x);
  }

  /** The first of a list waits, so it carries no mark yet. */
  lemma MarkedWaits(s: State, l: Queue, x: Tid)
    requires Core(s) && Waiting(l)
    ensures Queued(s, l) != [] && Queued(s, l)[0] == x ==> x in s.threads && WokenOf(s, x) == None && s.threads[x].status == SUSPEND
  {
    if Queued(s, l) != [] {
      FirstWaits(s, l);
      FitsAt(s, Queued(s, l)[0]);
    }
  }

  // ---------------------------------------------------------------------------
  // No lost wake-up.

  /** The threads woken from l that have not yet made their next attempt. */
  ghost function Woken(s: State, l: Queue): set<Tid> {
    set t | t in s.threads && s.threads[t].woken == Some(l)
  }

  lemma WokenIn(s: State, l: Queue, x: Tid)
    ensures x in Woken(s, l) <==> WokenOf(s, x) == Some(l)
  {
  }

  /** The current thread, when it makes an attempt that uses up a mark for l. */
  ghost function Spent(s: State, e: Event): set<Tid> {
    if (e.Sends? || e.Receives?) && s.cur.Some? then {s.cur.value} else {}
  }

  ghost function Marked(s: State, e: Event, l: Queue): set<Tid> {
    if Wakes(s, e, l) && Queued(s, l) != [] then {Queued(s, l)[0]} else {}
  }

  /** A thread is killed between being woken and retrying. */
  predicate KillsWoken(s: State, e: Event) {
    e.Kills? && e.t in s.threads && !s.threads[e.t].system && s.threads[e.t].woken.Some?
  }

  /**
   The kill of a thread on its way to mailbox i while others are parked there, and no thread on its
   way can be spared: as many messages, or free slots, as threads on their way.
   */
  ghost predicate LosesWakeUp(s: State, e: Event, i: nat) {
    KillsWoken(s, e) && i < |s.boxes| &&
    var b, w := s.boxes[i], s.threads[e.t].woken;
    || (w == Some(RecvWait(i)) && Queued(s, RecvWait(i)) != [] && b.entry >= |Woken(s, RecvWait(i))|)
    || (w == Some(SendWait(i)) && Queued(s, SendWait(i)) != [] && b.size - b.entry >= |Woken(s, SendWait(i))|)
  }

  lemma WokenAfter(s: State, e: Event, l: Queue)
    requires Inv(s) && Enabled(s, e) && Shapes(s) && (l.RecvWait? || l.SendWait?) && !KillsWoken(s, e)
    ensures Woken(Next(s, e), l) == Woken(s, l) - Spent(s, e) + Marked(s, e, l)
  {
    hide Inv, Next, Woken, Queued;
    forall x
      ensures x in Woken(Next(s, e), l) <==> x in Woken(s, l) - Spent(s, e) + Marked(s, e, l)
    {
      WokenStep(s, e, l, x);
      WokenIn(s, l, x);
      WokenIn(Next(s, e), l, x);
    }
  }

  lemma Fewer(w: set<Tid>, x: Tid)
    ensures |w - {x}| >= |w| - 1 && (x !in w ==> w - {x} == w)
  {
    if x in w {
      assert w == (w - {x}) + {x};
    } else {
      assert w - {x} == w;
    }
  }

  /**
   While a receiver is parked there are no more messages than receivers on their way, and while a
   sender is parked there are no more free slots than senders on their way.
   */
  ghost predicate NoLostWakeUp(s: State, i: nat) {
    i < |s.boxes| ==>
      && (Queued(s, RecvWait(i)) != [] ==> s.boxes[i].entry <= |Woken(s, RecvWait(i))|)
      && (Queued(s, SendWait(i)) != [] ==> s.boxes[i].size - s.boxes[i].entry <= |Woken(s, SendWait(i))|)
  }

  /** Other lists keep their marks: the current thread carries at most a mark of the list it tries. */
  lemma WokenKept(s: State, e: Event, l: Queue)
    requires Inv(s) && Enabled(s, e) && Shapes(s) && (l.RecvWait? || l.SendWait?) && !KillsWoken(s, e)
    requires e.Sends? ==> l != SendWait(e.i)
    requires e.Receives? ==> l != RecvWait(e.i)
    ensures Woken(Next(s, e), l) == Woken(s, l) + Marked(s, e, l)
  {
    hide Inv, Next, Queued;
    WokenAfter(s, e, l);
    if (e.Sends? || e.Receives?) && s.cur.Some? {
      WokenIn(s, l, s.cur.value);
      Fewer(Woken(s, l), s.cur.value);
    }
  }

  lemma OneMore(s: State, e: Event, l: Queue)
    requires Inv(s) && Enabled(s, e) && Shapes(s) && (l.RecvWait? || l.SendWait?) && !KillsWoken(s, e)
    requires e.Sends? ==> l != SendWait(e.i)
    requires e.Receives? ==> l != RecvWait(e.i)
    requires Wakes(s, e, l) && Queued(s, l) != []
    ensures |Woken(Next(s, e), l)| == |Woken(s, l)| + 1
  {
    hide Inv, Next, Queued, Woken;
    InvCore(s);
    WokenKept(s, e, l);
    var t := Queued(s, l)[0];
    MarkedWaits(s, l, t);
    WokenIn(s, l, t);
    assert Woken(s, l) + {t} - {t} == Woken(s, l);
  }

  /** A list with waiters had waiters before, unless the current thread just blocked on it. */
  lemma HadWaiters(s: State, e: Event, l: Queue)
    requires Inv(s) && Enabled(s, e) && Shapes(s) && Waiting(l) && Queued(Next(s, e), l) != []
    ensures Queued(s, l) != [] || Blocks(s, e, l)
  {
    hide Core, CurOk, SemsOk, BoxesOk, Queued, Tick, Schedule, Without, QuietAt, Advances, OrderKept;
    var q' := Queued(Next(s, e), l);
    if e.Ticks? {
      TickQuiet(s);
      SameQueued(s, Ticked(s), l);
      assert q'[0] in q';
      assert Shrinks(Ticked(s), Tick(s), l, q'[0]);
    } else {
      WaitersStep(s, e, l);
      if KillsIn(s, e, l) {
        WithoutMember(Queued(s, l), e.t, q'[0]);
      }
    }
  }

  lemma ReceiversStep(s: State, e: Event, i: nat)
    requires Inv(s) && Enabled(s, e) && Shapes(s) && !KillsWoken(s, e) && i < |s.boxes| && NoLostWakeUp(s, i)
    requires Queued(Next(s, e), RecvWait(i)) != []
    ensures |Next(s, e).boxes| == |s.boxes| && Next(s, e).boxes[i].entry <= |Woken(Next(s, e), RecvWait(i))|
  {
    hide Inv, Next, Queued, Woken;
    var l := RecvWait(i);
    BoxStep(s, e, i);
    HadWaiters(s, e, l);
    if s.boxes[i].entry == 0 && !Stores(s, e, i) {
    } else if e.Receives? && e.i == i {
      WokenAfter(s, e, l);
      assert Marked(s, e, l) == {};
      if s.cur.Some? {
        Fewer(Woken(s, l), s.cur.value);
      }
      assert Woken(s, l) - Spent(s, e) + {} == Woken(s, l) - Spent(s, e);
    } else if Stores(s, e, i) {
      OneMore(s, e, l);
    } else {
      WokenKept(s, e, l);
      SubsetSize(Woken(s, l), Woken(Next(s, e), l));
    }
  }

  lemma SendersStep(s: State, e: Event, i: nat)
    requires Inv(s) && Enabled(s, e) && Shapes(s) && !KillsWoken(s, e) && i < |s.boxes| && NoLostWakeUp(s, i)
    requires Queued(Next(s, e), SendWait(i)) != []
    ensures |Next(s, e).boxes| == |s.boxes|
    ensures Next(s, e).boxes[i].size - Next(s, e).boxes[i].entry <= |Woken(Next(s, e), SendWait(i))|
  {
    hide Inv, Next, Queued, Woken;
    var l := SendWait(i);
    BoxStep(s, e, i);
    HadWaiters(s, e, l);
    if s.boxes[i].entry == s.boxes[i].size && !Fetches(s, e, i) {
    } else if e.Sends? && e.i == i {
      WokenAfter(s, e, l);
      assert Marked(s, e, l) == {};
      if s.cur.Some? {
        Fewer(Woken(s, l), s.cur.value);
      }
      assert Woken(s, l) - Spent(s, e) + {} == Woken(s, l) - Spent(s, e);
    } else if Fetches(s, e, i) {
      OneMore(s, e, l);
    } else {
      WokenKept(s, e, l);
      SubsetSize(Woken(s, l), Woken(Next(s, e), l));
    }
  }

  lemma {:induction false} SubsetSize(a: set<Tid>, b: set<Tid>)
    requires a <= b
    ensures |a| <= |b|
  {
    if a != {} {
      var x :| x in a;
      SubsetSize(a - {x}, b - {x});
    }
  }

  lemma OtherStepsKeep(s: State, e: Event, i: nat)
    requires Inv(s) && Enabled(s, e) && Shapes(s) && !KillsWoken(s, e) && NoLostWakeUp(s, i)
    ensures NoLostWakeUp(Next(s, e), i)
  {
    hide Inv, Next, Queued, Woken;
    BoxStep(s, e, i);
    if i < |s.boxes| {
      if Queued(Next(s, e), RecvWait(i)) != [] {
        ReceiversStep(s, e, i);
      }
      if Queued(Next(s, e), SendWait(i)) != [] {
        SendersStep(s, e, i);
      }
    }
  }

  /** A killed thread is off the way to its mailbox, and no parked thread moves. */
  lemma KilledOnItsWay(s: State, e: Event, l: Queue)
    requires Inv(s) && Enabled(s, e) && Shapes(s) && KillsWoken(s, e) && (l.RecvWait? || l.SendWait?)
    ensures Queued(Next(s, e), l) == Queued(s, l)
    ensures |Woken(Next(s, e), l)| == |Woken(s, l)| - if s.threads[e.t].woken == Some(l) then 1 else 0
  {
    hide Inv, Next, Queued, Woken, Core;
    InvCore(s);
    FitsAt(s, e.t);
    WaitersStep(s, e, l);
    forall x
      ensures x in Woken(Next(s, e), l) <==> x in Woken(s, l) - {e.t}
    {
      WokenStep(s, e, l, x);
      WokenIn(s, l, x);
      WokenIn(Next(s, e), l, x);
    }
    assert Woken(Next(s, e), l) == Woken(s, l) - {e.t};
    WokenIn(s, l, e.t);
    Fewer(Woken(s, l), e.t);
    if e.t in Woken(s, l) {
      assert Woken(s, l) == (Woken(s, l) - {e.t}) + {e.t};
    }
  }

  /** Exactly the kills described lose a wake-up; no other step does. */
  lemma NoLostWakeUpStep(s: State, e: Event, i: nat)
    requires Inv(s) && Enabled(s, e) && Shapes(s) && NoLostWakeUp(s, i)
    ensures NoLostWakeUp(Next(s, e), i) <==> !LosesWakeUp(s, e, i)
  {
    hide Inv, Next, Queued, Woken;
    if KillsWoken(s, e) {
      BoxStep(s, e, i);
      KilledOnItsWay(s, e, RecvWait(i));
      KilledOnItsWay(s, e, SendWait(i));
    } else {
      OtherStepsKeep(s, e, i);
    }
  }

  /** Over every run without such a kill. */
  lemma {:induction false} NoLostWakeUpRun(ss: seq<State>, es: seq<Event>, n: nat, i: nat)
    requires Run(ss, es) && Initial(ss[0]) && n < |ss|
    requires forall k | 0 <= k < n :: !LosesWakeUp(ss[k], es[k], i)
    ensures NoLostWakeUp(ss[n], i)
    decreases n
  {
    hide Inv, Next, LosesWakeUp;
    InitialInv(ss[0]);
    if n > 0 {
      NoLostWakeUpRun(ss, es, n - 1, i);
      RunInv(ss, es, n - 1);
      assert StepAt(ss, es, n - 1);
      NoLostWakeUpStep(ss[n - 1], es[n - 1], i);
    }
  }

  // ---------------------------------------------------------------------------
  // The queue over a run.

  /** The messages accepted by mailbox i in the first n steps, in order. */
  ghost function SentIn(ss: seq<State>, es: seq<Event>, i: nat, n: nat): seq<nat>
    requires |ss| == |es| + 1 && n <= |es|
  {
    if n == 0 then [] else SentIn(ss, es, i, n - 1) + if Stores(ss[n - 1], es[n - 1], i) then [es[n - 1].v] else []
  }

  /** The messages handed out. */
  ghost function ReceivedIn(ss: seq<State>, es: seq<Event>, i: nat, n: nat): seq<nat>
    requires |ss| == |es| + 1 && n <= |es|
  {
    if n == 0 then [] else ReceivedIn(ss, es, i, n - 1) + HandedOut(ss[n - 1], es[n - 1], i)
  }

  /** The message an event takes out of mailbox i. */
  function HandedOut(s: State, e: Event, i: nat): seq<nat> {
    if Fetches(s, e, i) && Mailbox.Shaped(s.boxes[i]) then [Mailbox.First(s.boxes[i])] else []
  }

  lemma RunShapes(ss: seq<State>, es: seq<Event>, n: nat)
    requires Run(ss, es) && Initial(ss[0]) && n < |ss|
    ensures forall k | 0 <= k <= n :: Inv(ss[k]) && Shapes(ss[k])
  {
    hide Inv, Next;
    InitialInv(ss[0]);
    forall k | 0 <= k <= n
      ensures Inv(ss[k]) && Shapes(ss[k])
    {
      RunInv(ss, es, k);
      InvShaped(ss[k]);
    }
  }

  lemma {:induction false} HistoryAgrees(ss: seq<State>, es: seq<Event>, i: nat, n: nat)
    requires Run(ss, es) && Initial(ss[0]) && n <= |es| && i < |ss[0].boxes|
    requires forall k | 0 <= k <= n :: Inv(ss[k]) && Shapes(ss[k])
    ensures |ss[n].boxes| == |ss[0].boxes| && ss[n].boxes[i].size == ss[0].boxes[i].size
    ensures ss[n].boxes[i].sent == SentIn(ss, es, i, n) && ss[n].boxes[i].received == ReceivedIn(ss, es, i, n)
    decreases n
  {
    hide Inv, Next;
    if n > 0 {
      HistoryAgrees(ss, es, i, n - 1);
      assert StepAt(ss, es, n - 1);
      BoxStep(ss[n - 1], es[n - 1], i);
    }
  }

  /**
   In every run a mailbox is a bounded first-in first-out queue: the messages accepted are the
   messages handed out followed by those queued, and never more than its size are queued.
   */
  lemma MailboxIsFifo(ss: seq<State>, es: seq<Event>, i: nat, n: nat)
    requires Run(ss, es) && Initial(ss[0]) && n <= |es| && i < |ss[0].boxes|
    ensures i < |ss[n].boxes| && Mailbox.Shaped(ss[n].boxes[i])
    ensures SentIn(ss, es, i, n) == ReceivedIn(ss, es, i, n) + Mailbox.Contents(ss[n].boxes[i])
    ensures |Mailbox.Contents(ss[n].boxes[i])| <= ss[n].boxes[i].size == |ss[0].boxes[i].pool|
  {
    hide Core, CurOk, SemsOk, Next;
    RunShapes(ss, es, n);
    HistoryAgrees(ss, es, i, n);
    assert Inv(ss[n]);
    assert Mailbox.Valid(ss[n].boxes[i]);
  }

  // ---------------------------------------------------------------------------
  // Waiting forever.

  lemma BlockedFor(s: State, l: Queue, time: int)
    requires Core(s) && Started(s) && Cur(s).status == RUNNING
    ensures s.cur.value in Block(s, l, time).threads && Block(s, l, time).threads[s.cur.value] == Parked(s, l, time)
    ensures Block(s, l, time).tick == s.tick && Block(s, l, time).cur == s.cur
  {
    hide Core, Block;
    BlockIsMove(s, l, time);
  }

  /** The first tick after a thread parked decides by the deadline alone. */
  lemma ParkedTicks(s: State, t: Tid)
    requires Core(s) && s.cur.Some? && t in s.threads && s.threads[t].status == SUSPEND
    ensures t in Tick(s).threads
    ensures s.threads[t].active && Ticked(s).tick > s.threads[t].deadline ==> Runnable(Tick(s).threads[t]) && Tick(s).threads[t].timedOut
    ensures !s.threads[t].active || Ticked(s).tick <= s.threads[t].deadline ==> Tick(s).threads[t].status == SUSPEND
  {
    hide Core, Tick;
    TickQuiet(s);
    QuietParts(Ticked(s), Tick(s), t);
    assert !Due(Tick(s), t);
  }

  /**
   rt_mb_recv with RT_WAITING_FOREVER (0xffffffff once converted to its unsigned parameter) sets a
   deadline one tick in the past, so the thread times out at the very next tick; only at tick 0 and
   at the last tick before the counter wraps does it not. rt_mb_send_wait and rt_sem_take, whose
   timeout is signed, start no timer for it.
   */
  lemma ReceiveForeverTimesOut(s: State, i: nat)
    requires Inv(s) && Enabled(s, Receives(i, 0xffff_ffff)) && Shapes(s) && Started(s) && s.boxes[i].entry == 0
    requires s.tick < WRAP
    ensures
      var s2 := Tick(Next(s, Receives(i, 0xffff_ffff)));
      && s.cur.value in s2.threads
      && (Runnable(s2.threads[s.cur.value]) <==> 1 <= s.tick < WRAP - 1)
      && (s2.threads[s.cur.value].timedOut <==> 1 <= s.tick < WRAP - 1)
  {
    hide Inv, Tick, Block, Best;
    InvCore(s);
    BlockedFor(s, RecvWait(i), 0xffff_ffff);
    RecvInv(s, i, 0xffff_ffff);
    InvCore(Recv(s, i, 0xffff_ffff));
    TickInv(Recv(s, i, 0xffff_ffff));
    ParkedTicks(Recv(s, i, 0xffff_ffff), s.cur.value);
    InvCore(Tick(Recv(s, i, 0xffff_ffff)));
    WaiterCarriesNoTimeOut(Tick(Recv(s, i, 0xffff_ffff)), s.cur.value);
  }

  lemma WaiterCarriesNoTimeOut(s: State, t: Tid)
    requires Core(s) && t in s.threads
    ensures s.threads[t].status == SUSPEND ==> !s.threads[t].timedOut
  {
    FitsAt(s, t);
  }
}
