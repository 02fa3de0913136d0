/** How waits with a time limit end, and that threads which have ended stay so, over whole runs. */
module KernelEnds {
  import opened Base
  import opened KernelState
  import opened KernelInvariant
  import opened KernelSteps
  import opened KernelTick
  import opened KernelRuns
  import opened KernelWaiting
  import opened KernelMail
  import opened KernelProgress
  import opened KernelEffects
  import Mailbox

  // ---------------------------------------------------------------------------
  // Waits with a time limit.

  /** Thread t waits in l, without a time-out so far, and its timer runs until after the deadline. */
  predicate WaitsUntil(s: State, l: Queue, t: Tid, deadline: nat) {
    && t in s.threads && s.threads[t].status == SUSPEND && s.threads[t].at == Some(l) && !s.threads[t].timedOut
    && s.threads[t].active && s.threads[t].deadline == deadline
  }

  /** The time limit of a call that may wait. */
  function Limit(e: Event): int {
    match e
    case Takes(_, time) => time
    case Sends(_, _, timeout) => timeout
    case Receives(_, limit) => limit
    case _ => 0
  }

  lemma BeginsWaiting(s: State, e: Event, l: Queue)
    requires Inv(s) && Shapes(s) && Enabled(s, e) && Blocks(s, e, l) && Limit(e) > 0
    ensures WaitsUntil(Next(s, e), l, s.cur.value, (s.tick + Limit(e)) % WRAP) && Next(s, e).cur == s.cur
  {
    hide Inv, Next, Best;
    match e
    case Takes(i, time) =>
      ValueNotNegative(s, i);
      TakeEffect(s, i, time);
    case Sends(i, v, timeout) => SendEffect(s, i, v, timeout);
    case Receives(i, limit) => ReceiveEffect(s, i, limit);
  }

  lemma ValueNotNegative(s: State, i: nat)
    requires i < |s.sems|
    ensures s.sems[i].value > 0 || s.sems[i].value == 0
  {
  }

  /** A tick ends the wait exactly when its deadline has passed, and then with a time-out. */
  lemma WaiterTicks(s: State, l: Queue, t: Tid, deadline: nat)
    requires Inv(s) && s.cur.Some? && WaitsUntil(s, l, t, deadline)
    ensures Ticked(s).tick <= deadline ==> WaitsUntil(Tick(s), l, t, deadline)
    ensures Ticked(s).tick > deadline ==> t in Tick(s).threads && Runnable(Tick(s).threads[t]) && Tick(s).threads[t].timedOut
  {
    hide SemsOk, BoxesOk, CurOk, Tick, Core;
    TickQuiet(s);
    QuietParts(Ticked(s), Tick(s), t);
    assert !Due(Tick(s), t);
  }

  /** In the steps from the second to the n-th the thread is neither served nor killed. */
  ghost predicate LeftWaiting(ss: seq<State>, es: seq<Event>, l: Queue, t: Tid, n: nat)
    requires |ss| == |es| + 1 && n <= |es|
  {
    forall k | 1 <= k < n :: !Serves(ss[k], es[k], l, t) && !KillsThread(ss[k], es[k], t)
  }

  lemma {:induction false} StillWaiting(ss: seq<State>, es: seq<Event>, l: Queue, t: Tid, n: nat)
    requires Run(ss, es) && Inv(ss[0]) && 1 <= n <= |es| && Waiting(l) && LeftWaiting(ss, es, l, t, n)
    requires Blocks(ss[0], es[0], l) && 0 < Limit(es[0]) < WRAP && ss[0].cur == Some(t) && ss[0].tick < WRAP
    requires SleepsThrough(ss[0].tick, Limit(es[0]), TicksIn(es, n))
    ensures ss[n].cur.Some? && WaitsUntil(ss[n], l, t, (ss[0].tick + Limit(es[0])) % WRAP)
    ensures ss[n].tick == (ss[0].tick + TicksIn(es, n)) % WRAP
    decreases n
  {
    hide Inv, Next, Best, Duration, Serves, KillsThread, WaitsUntil;
    var time := Limit(es[0]);
    assert StepAt(ss, es, n - 1) && StepAt(ss, es, 0);
    RunInv(ss, es, n - 1);
    HistoryStep(ss[n - 1], es[n - 1], t);
    if n == 1 {
      BeginsWaiting(ss[0], es[0], l);
    } else {
      var s, deadline := ss[n - 1], (ss[0].tick + time) % WRAP;
      StillWaiting(ss, es, l, t, n - 1);
      if es[n - 1].Ticks? {
        WaiterTicks(s, l, t, deadline);
        NextTicks(s);
        OneTickMore(ss[0].tick + TicksIn(es, n - 1));
        DurationFirst(ss[0].tick, time, TicksIn(es, n));
      } else {
        InvCore(s);
        OnlyOwnList(s, es[n - 1], l, t, deadline);
        WaitKept(s, es[n - 1], l, t, deadline);
      }
    }
  }

  lemma OnlyOwnList(s: State, e: Event, l: Queue, t: Tid, deadline: nat)
    requires Core(s) && Waiting(l) && WaitsUntil(s, l, t, deadline) && !Serves(s, e, l, t)
    ensures Overlooked(s, e, t)
  {
    hide Core;
    forall k
      ensures !Serves(s, e, k, t)
    {
      if Wakes(s, e, k) && Queued(s, k) != [] {
        FirstWaits(s, k);
      }
    }
  }

  lemma WaitKept(s: State, e: Event, l: Queue, t: Tid, deadline: nat)
    requires Inv(s) && Enabled(s, e) && Shapes(s) && Overlooked(s, e, t) && WaitsUntil(s, l, t, deadline)
    requires !KillsThread(s, e, t) && !e.Ticks?
    ensures WaitsUntil(Next(s, e), l, t, deadline)
  {
    hide Inv, Next, Overlooked, Best;
    IdleKept(s, e, t);
  }

  /**
   A blocking take, send or receive with a time limit, at any tick. A thread that is neither served nor
   killed stays suspended in the list it waits in until the handler of the tick that ends the duration
   of the limit, and is runnable with a time-out when that handler ends.
   */
  lemma WaitLasts(ss: seq<State>, es: seq<Event>, l: Queue, t: Tid, n: nat)
    requires Run(ss, es) && Inv(ss[0]) && 1 <= n <= |es| && Waiting(l) && LeftWaiting(ss, es, l, t, n)
    requires Blocks(ss[0], es[0], l) && 0 < Limit(es[0]) < WRAP && ss[0].cur == Some(t) && ss[0].tick < WRAP
    ensures SleepsThrough(ss[0].tick, Limit(es[0]), TicksIn(es, n)) ==>
              t in ss[n].threads && ss[n].threads[t].status == SUSPEND && !ss[n].threads[t].timedOut && t in Queued(ss[n], l)
    ensures Duration(ss[0].tick, Limit(es[0])) == Some(TicksIn(es, n)) && es[n - 1].Ticks? ==>
              t in ss[n].threads && Runnable(ss[n].threads[t]) && ss[n].threads[t].timedOut && t !in Queued(ss[n], l)
  {
    hide Inv, Next, Best, Duration, LeftWaiting, Queued;
    var time := Limit(es[0]);
    RunInv(ss, es, n);
    InvCore(ss[n]);
    WaitsHere(ss[n], l, t);
    if SleepsThrough(ss[0].tick, time, TicksIn(es, n)) {
      StillWaiting(ss, es, l, t, n);
    } else if Duration(ss[0].tick, time) == Some(TicksIn(es, n)) && es[n - 1].Ticks? {
      var s, deadline := ss[n - 1], (ss[0].tick + time) % WRAP;
      NotATick(ss[0], es[0], l);
      LeftShorter(ss, es, l, t, n);
      StillWaiting(ss, es, l, t, n - 1);
      assert StepAt(ss, es, n - 1);
      RunInv(ss, es, n - 1);
      WaiterTicks(s, l, t, deadline);
      NextTicks(s);
      OneTickMore(ss[0].tick + TicksIn(es, n - 1));
      DurationFirst(ss[0].tick, time, TicksIn(es, n));
    }
  }

  lemma NotATick(s: State, e: Event, l: Queue)
    requires Blocks(s, e, l)
    ensures !e.Ticks?
  {
  }

  lemma LeftShorter(ss: seq<State>, es: seq<Event>, l: Queue, t: Tid, n: nat)
    requires |ss| == |es| + 1 && 1 <= n <= |es| && LeftWaiting(ss, es, l, t, n)
    ensures LeftWaiting(ss, es, l, t, n - 1)
  {
  }

  // ---------------------------------------------------------------------------
  // Threads that have ended.

  /** No step of the n creates a new thread under this number. */
  ghost predicate NotReused(es: seq<Event>, t: Tid, n: nat)
    requires n <= |es|
  {
    forall k | 0 <= k < n :: !(es[k].Joins? && es[k].t == t)
  }

  /** Thread t is as it was in what the processor is given for: closed, and run as often; or it is forgotten. */
  predicate StillClosed(s: State, r: State, t: Tid)
    requires t in s.threads
  {
    t in r.threads ==> r.threads[t].status == CLOSE && r.threads[t].runs == s.threads[t].runs
  }

  lemma WokenOther(s: State, l: Queue, w: Option<Queue>, r: State, t: Tid)
    requires FirstWoken(s, l, w, r) && t in s.threads && t != s.lists[l][0]
    ensures t in r.threads && r.threads[t] == s.threads[t]
  {
    hide Relinked, Without;
  }

  /** The first waiter of a list is not closed. */
  lemma WaiterNotClosed(s: State, l: Queue, t: Tid)
    requires Core(s) && Waiting(l) && t in s.threads && s.threads[t].status == CLOSE
    ensures l in s.lists && s.lists[l] != [] ==> s.lists[l][0] != t
  {
    hide Core;
    if l in s.lists && s.lists[l] != [] {
      FirstWaits(s, l);
    }
  }

  lemma CurNotClosed(s: State, t: Tid)
    requires Core(s) && t in s.threads && s.threads[t].status == CLOSE && Free(s)
    ensures s.cur != Some(t)
  {
  }

  lemma BoxClosed(s: State, i: nat, b: Mailbox.Box, l: Queue, r: State, t: Tid)
    requires Core(s) && Waiting(l) && t in s.threads && s.threads[t].status == CLOSE
    requires Started(s) && Cur(s).status == RUNNING && i < |s.boxes| && BoxChanged(s, i, b, l, r)
    ensures StillClosed(s, r, t)
  {
    hide Core, FirstWoken;
    WaiterNotClosed(s, l, t);
    var s1 := s.(boxes := s.boxes[i := b], threads := s.threads[s.cur.value := Cur(s).(woken := None)]);
    if s.lists[l] != [] {
      WokenOther(s1, l, Some(l), r, t);
    }
  }

  lemma WaitClosed(s: State, l: Queue, time: int, r: State, t: Tid)
    requires t in s.threads && s.threads[t].status == CLOSE && Started(s) && Cur(s).status == RUNNING && StartsWaiting(s, l, time, r)
    ensures StillClosed(s, r, t)
  {
  }

  lemma ScheduleClosed(s: State, t: Tid)
    requires Core(s) && t in s.threads && s.threads[t].status == CLOSE
    ensures StillClosed(s, Schedule(s), t)
  {
    hide Core, Schedule, Best;
    if CanSwitch(s) {
      TopReady(s);
      ScheduleThreads(s);
    } else {
      ScheduleIdle(s);
    }
  }

  lemma KillClosed(s: State, x: Tid, t: Tid)
    requires Inv(s) && Enabled(s, Kills(x)) && Shapes(s) && t in s.threads && s.threads[t].status == CLOSE
    ensures StillClosed(s, Kill(s, x), t)
  {
    hide Inv, Close, Schedule, Best;
    if x in s.threads && !s.threads[x].system {
      CloseIsMove(s, x);
      MoveRest(s, x, Closed(s.threads[x]), true);
      if s.cur == Some(x) {
        CloseInv(s, x);
        InvCore(Close(s, x));
        ScheduleClosed(Close(s, x), t);
      }
    }
  }

  lemma ReleaseClosed(s: State, i: nat, t: Tid)
    requires Inv(s) && Shapes(s) && i < |s.sems| && t in s.threads && s.threads[t].status == CLOSE
    ensures StillClosed(s, Next(s, Releases(i)), t)
  {
    hide Inv, Next, FirstWoken;
    InvCore(s);
    ReleaseEffect(s, i);
    WaiterNotClosed(s, SemWait(i), t);
    var m := s.sems[i];
    if s.lists[SemWait(i)] != [] {
      WokenOther(s.(sems := s.sems[i := m.(takes := m.takes + 1, releases := m.releases + 1)]), SemWait(i), None, Next(s, Releases(i)), t);
    }
  }

  lemma SendClosed(s: State, i: nat, v: nat, timeout: int, t: Tid)
    requires Inv(s) && Shapes(s) && Enabled(s, Sends(i, v, timeout)) && t in s.threads && s.threads[t].status == CLOSE
    ensures StillClosed(s, Next(s, Sends(i, v, timeout)), t)
  {
    hide Inv, Next, BoxChanged, StartsWaiting, Stored, Best;
    InvCore(s);
    var r := Next(s, Sends(i, v, timeout));
    SendEffect(s, i, v, timeout);
    if s.cur.Some? {
      if s.boxes[i].entry < s.boxes[i].size {
        BoxClosed(s, i, r.boxes[i], RecvWait(i), r, t);
      } else if timeout != 0 {
        WaitClosed(s, SendWait(i), timeout, r, t);
      }
    }
  }

  lemma IrqSendClosed(s: State, i: nat, v: nat, t: Tid)
    requires Inv(s) && Shapes(s) && i < |s.boxes| && t in s.threads && s.threads[t].status == CLOSE
    ensures StillClosed(s, Next(s, IrqSends(i, v)), t)
  {
    hide Inv, Next, FirstWoken, Stored;
    InvCore(s);
    var r := Next(s, IrqSends(i, v));
    IrqSendEffect(s, i, v);
    WaiterNotClosed(s, RecvWait(i), t);
    if s.cur.Some? && s.boxes[i].entry < s.boxes[i].size && s.lists[RecvWait(i)] != [] {
      WokenOther(s.(boxes := s.boxes[i := r.boxes[i]]), RecvWait(i), Some(RecvWait(i)), r, t);
    }
  }

  lemma ReceiveClosed(s: State, i: nat, limit: nat, t: Tid)
    requires Inv(s) && Shapes(s) && Enabled(s, Receives(i, limit)) && t in s.threads && s.threads[t].status == CLOSE
    ensures StillClosed(s, Next(s, Receives(i, limit)), t)
  {
    hide Inv, Next, BoxChanged, StartsWaiting, Fetched, Best;
    InvCore(s);
    var r := Next(s, Receives(i, limit));
    ReceiveEffect(s, i, limit);
    if s.cur.Some? {
      if s.boxes[i].entry > 0 {
        BoxClosed(s, i, r.boxes[i], SendWait(i), r, t);
      } else if limit != 0 {
        WaitClosed(s, RecvWait(i), limit, r, t);
      }
    }
  }

  lemma TakeClosed(s: State, i: nat, time: int, t: Tid)
    requires Inv(s) && Shapes(s) && Enabled(s, Takes(i, time)) && t in s.threads && s.threads[t].status == CLOSE
    ensures StillClosed(s, Next(s, Takes(i, time)), t)
  {
    hide Inv, Next, StartsWaiting, Best;
    TakeEffect(s, i, time);
    if s.cur.Some? && s.sems[i].value == 0 && time != 0 {
      WaitClosed(s, SemWait(i), time, Next(s, Takes(i, time)), t);
    }
  }

  lemma StartClosed(s: State, t: Tid)
    requires Inv(s) && Enabled(s, Starts) && t in s.threads && s.threads[t].status == CLOSE
    ensures StillClosed(s, Start(s), t)
  {
    hide Inv, Best, Attach, Detach;
    InvCore(s);
    TopReady(s);
  }

  /** In every step a closed thread stays closed and is not handed the processor, or it is forgotten. */
  lemma ClosedStep(s: State, e: Event, t: Tid)
    requires Inv(s) && Enabled(s, e) && Shapes(s) && t in s.threads && s.threads[t].status == CLOSE
    requires !(e.Joins? && e.t == t)
    ensures StillClosed(s, Next(s, e), t)
  {
    hide Inv, Core, Best, Schedule, Tick, Start, Join, Sleep, Close, Kill, Reap, Take, Release, Send, IrqSend, Recv;
    InvCore(s);
    FitsAt(s, t);
    match e
    case Starts => StartClosed(s, t);
    case Joins(x, prio, slice, system) => JoinEffect(s, x, prio, slice, system);
    case Schedules => ScheduleClosed(s, t);
    case Ticks =>
      TickQuiet(s);
      QuietParts(Ticked(s), Tick(s), t);
    case Sleeps(ticks) => SleepEffect(s, ticks);
    case Exits => ExitEffect(s);
    case Kills(x) => KillClosed(s, x, t);
    case Reaps => ReapEffect(s);
    case Takes(i, time) => TakeClosed(s, i, time, t);
    case Releases(i) => ReleaseClosed(s, i, t);
    case Sends(i, v, timeout) => SendClosed(s, i, v, timeout, t);
    case IrqSends(i, v) => IrqSendClosed(s, i, v, t);
    case Receives(i, limit) => ReceiveClosed(s, i, limit, t);
  }

  lemma NotCreatedByKill(s: State, x: Tid, t: Tid)
    requires Inv(s) && Enabled(s, Kills(x)) && t !in s.threads
    ensures t !in Kill(s, x).threads
  {
    hide Inv, Close, Schedule, Best, CanSwitch;
    if x in s.threads && !s.threads[x].system {
      CloseIsMove(s, x);
      MoveRest(s, x, Closed(s.threads[x]), true);
      if s.cur == Some(x) {
        CloseInv(s, x);
        InvCore(Close(s, x));
        NotCreatedBySchedule(Close(s, x), t);
      }
    }
  }

  lemma NotCreatedBySchedule(s: State, t: Tid)
    requires Core(s) && t !in s.threads
    ensures t !in Schedule(s).threads
  {
    hide Schedule, Core;
    ScheduleQuiet(s);
    assert t !in s.threads.Keys;
  }

  lemma NotCreatedByObjects(s: State, e: Event, t: Tid)
    requires Inv(s) && Enabled(s, e) && Shapes(s) && t !in s.threads
    requires e.Takes? || e.Releases? || e.Sends? || e.IrqSends? || e.Receives?
    ensures t !in Next(s, e).threads
  {
    hide Inv, Next, Best, Stored, Fetched, Relinked;
    match e
    case Takes(i, time) =>
      ValueNotNegative(s, i);
      TakeEffect(s, i, time);
    case Releases(i) => ReleaseEffect(s, i);
    case Sends(i, v, timeout) => SendEffect(s, i, v, timeout);
    case IrqSends(i, v) => IrqSendEffect(s, i, v);
    case Receives(i, limit) => ReceiveEffect(s, i, limit);
  }

  lemma OnlyJoinsCreate(s: State, e: Event, t: Tid)
    requires Inv(s) && Enabled(s, e) && Shapes(s) && t !in s.threads && !(e.Joins? && e.t == t)
    ensures t !in Next(s, e).threads
  {
    hide Inv, Core, Best, Schedule, Tick, Join, Sleep, Close, Kill, Reap, Take, Release, Send, IrqSend, Recv;
    InvCore(s);
    match e
    case Starts => TopReady(s);
    case Joins(x, prio, slice, system) => JoinEffect(s, x, prio, slice, system);
    case Schedules => NotCreatedBySchedule(s, t);
    case Ticks =>
      TickQuiet(s);
      assert t !in s.threads.Keys;
    case Sleeps(ticks) => SleepEffect(s, ticks);
    case Exits => ExitEffect(s);
    case Kills(x) => NotCreatedByKill(s, x, t);
    case Reaps => ReapEffect(s);
    case _ => NotCreatedByObjects(s, e, t);
  }

  /** A closed thread never gets the processor again, in any run that does not reuse its number. */
  lemma {:induction false} ClosedForEver(ss: seq<State>, es: seq<Event>, t: Tid, m: nat, n: nat)
    requires Run(ss, es) && Inv(ss[0]) && m <= n <= |es| && t in ss[m].threads && ss[m].threads[t].status == CLOSE
    requires NotReused(es, t, n)
    ensures StillClosed(ss[m], ss[n], t)
    decreases n
  {
    hide Inv, Next, Best;
    if n > m {
      ClosedForEver(ss, es, t, m, n - 1);
      RunInv(ss, es, n - 1);
      assert StepAt(ss, es, n - 1);
      if t in ss[n - 1].threads {
        ClosedStep(ss[n - 1], es[n - 1], t);
      } else {
        OnlyJoinsCreate(ss[n - 1], es[n - 1], t);
      }
    }
  }

  /**
   rt_thread_exit: from then on the thread is closed or forgotten, and is never handed the processor again.
   The same for killThreadFun on a thread that may be killed.
   */
  lemma EndsForEver(ss: seq<State>, es: seq<Event>, t: Tid, n: nat)
    requires Run(ss, es) && Inv(ss[0]) && 1 <= n <= |es| && t in ss[0].threads && NotReused(es, t, n)
    requires (es[0] == Exits && ss[0].cur == Some(t)) || (es[0] == Kills(t) && !ss[0].threads[t].system)
    ensures StillClosed(ss[0], ss[n], t)
  {
    hide Inv, Next, Best;
    assert StepAt(ss, es, 0);
    EndsNow(ss[0], es[0], t);
    ClosedForEver(ss, es, t, 1, n);
  }

  lemma EndsNow(s: State, e: Event, t: Tid)
    requires Inv(s) && Shapes(s) && Enabled(s, e) && t in s.threads
    requires (e == Exits && s.cur == Some(t)) || (e == Kills(t) && !s.threads[t].system)
    ensures t in Next(s, e).threads && StillClosed(s, Next(s, e), t)
  {
    hide Inv, Next, Best;
    if e == Exits {
      ExitEffect(s);
    } else if s.cur != Some(t) {
      KillEffect(s, t);
    } else {
      InvCore(s);
      BestFirst(s);
      KillCurrentEffect(s, t, Best(s.lists, 0));
    }
  }

  lemma BestFirst(s: State)
    requires AnyReady(s)
    ensures FirstLevel(s, Best(s.lists, 0))
  {
    BestIsFirst(s.lists, 0);
  }
}
