/** What each event does to the state, field by field; everything not named stays as it was. */
module KernelEffects {
  import opened Base
  import opened KernelState
  import opened KernelInvariant
  import opened KernelSteps
  import opened KernelTick
  import opened KernelRuns
  import opened KernelWaiting
  import Mailbox

  // ---------------------------------------------------------------------------
  // Threads that stop running.

  /** The current thread is in no list and has no timer. */
  lemma RunningFree(s: State)
    requires Core(s) && Started(s) && Cur(s).status == RUNNING
    ensures s.cur.value !in s.timers && (forall l | l in s.lists :: s.cur.value !in s.lists[l])
    ensures Cur(s).at == None && !Cur(s).active && Cur(s).prio < LEVELS
  {
    FitsAt(s, s.cur.value);
    assert TimerAgrees(s, s.cur.value);
    forall l | l in s.lists
      ensures s.cur.value !in s.lists[l]
    {
      assert Agrees(s, l, s.cur.value);
    }
  }

  /** A thread that is in no list goes to one end of list l. */
  lemma MoveIn(s: State, t: Tid, th: Thread, front: bool)
    requires t in s.threads && s.threads[t].at == None && th.at.Some? && th.at.value in s.lists
    ensures
      var q := s.lists[th.at.value];
      Move(s, t, th, front).lists == s.lists[th.at.value := if front then [t] + q else q + [t]]
  {
  }

  /** rt_thread_sleep: asleep with a timer at the front of the timer list, in no other list. */
  lemma SleepEffect(s: State, ticks: nat)
    requires Inv(s) && Shapes(s) && Enabled(s, Sleeps(ticks))
    ensures
      var t := s.cur.value;
      Next(s, Sleeps(ticks)) == s.(
        threads := s.threads[t := Cur(s).(status := SLEEP, timed := ticks, active := true, deadline := (s.tick + ticks) % WRAP)],
        timers := [t] + s.timers)
  {
    hide Core, Sleep;
    InvCore(s);
    RunningFree(s);
    SleepIsMove(s, ticks);
  }

  /** rt_thread_exit: closed, at the front of the dead list and in no other, without timer. */
  lemma ExitEffect(s: State)
    requires Inv(s) && Shapes(s) && Enabled(s, Exits)
    ensures s.cur.value !in s.timers && forall l | l in s.lists :: s.cur.value !in s.lists[l]
    ensures Dead in s.lists
    ensures
      var t := s.cur.value;
      Next(s, Exits) == s.(
        threads := s.threads[t := Cur(s).(status := CLOSE, at := Some(Dead))],
        lists := s.lists[Dead := [t] + s.lists[Dead]])
  {
    hide Core, Close;
    InvCore(s);
    RunningFree(s);
    ClosesRunning(s);
  }

  lemma ClosesRunning(s: State)
    requires Inv(s) && Free(s)
    ensures Dead in s.lists
    ensures
      var t := s.cur.value;
      Close(s, t) == s.(
        threads := s.threads[t := Cur(s).(status := CLOSE, at := Some(Dead))],
        lists := s.lists[Dead := [t] + s.lists[Dead]])
  {
    hide Core, Close, Move;
    InvCore(s);
    DeadExists(s);
    RunningFree(s);
    CloseIsMove(s, s.cur.value);
    MoveIn(s, s.cur.value, Closed(Cur(s)), true);
    MoveRest(s, s.cur.value, Closed(Cur(s)), true);
  }

  lemma MoveRest(s: State, t: Tid, th: Thread, front: bool)
    requires t in s.threads
    ensures
      var r := Move(s, t, th, front);
      r == s.(threads := s.threads[t := th], lists := r.lists, timers := Retimed(s.timers, t, s.threads[t].active, th.active))
  {
    hide Attach, Detach, Without;
  }

  lemma DeadExists(s: State)
    requires Core(s)
    ensures Dead in s.lists
  {
    assert Known(s, Dead);
  }

  /** Thread t leaves every list and is linked at one end of list `to`, if any. */
  ghost predicate Relinked(lists: map<Queue, seq<Tid>>, t: Tid, to: Option<Queue>, front: bool, r: map<Queue, seq<Tid>>) {
    && r.Keys == lists.Keys
    && forall l | l in lists ::
         r[l] == if to != Some(l) then Without(lists[l], t) else if front then [t] + Without(lists[l], t) else Without(lists[l], t) + [t]
  }

  lemma MoveRelinks(s: State, t: Tid, th: Thread, front: bool)
    requires Core(s) && t in s.threads && (th.at.Some? ==> th.at.value in s.lists)
    ensures Relinked(s.lists, t, th.at, front, Move(s, t, th, front).lists)
    ensures Retimed(s.timers, t, s.threads[t].active, th.active) == if th.active && !s.threads[t].active then [t] + s.timers
                                                                    else if th.active then s.timers else Without(s.timers, t)
  {
    hide Move, Without;
    PutLinked(s, t, th, front);
    MoveRest(s, t, th, front);
    SameLists(s, t, th, front);
    forall l | l in s.lists
      ensures Move(s, t, th, front).lists[l] == Given(Without(s.lists[l], t), t, th.at == Some(l), front)
    {
      QueuedMove(s, t, th, front, l);
      assert Agrees(s, l, t);
      if t !in s.lists[l] {
        WithoutAbsent(s.lists[l], t);
      }
    }
    assert TimerAgrees(s, t);
    if t !in s.timers {
      WithoutAbsent(s.timers, t);
    }
  }

  lemma SameLists(s: State, t: Tid, th: Thread, front: bool)
    requires t in s.threads
    ensures Move(s, t, th, front).lists == Put(s, t, th, front).lists
  {
  }

  /**
   killThreadFun on a thread that is not current: closed, without timer, out of every other list and at
   the front of the dead list.
   */
  lemma KillEffect(s: State, t: Tid)
    requires Inv(s) && Shapes(s) && Enabled(s, Kills(t)) && t in s.threads && !s.threads[t].system && s.cur != Some(t)
    ensures
      var r := Next(s, Kills(t));
      && r == s.(
           threads := s.threads[t := s.threads[t].(status := CLOSE, woken := None, active := false, at := Some(Dead))],
           timers := Without(s.timers, t), lists := r.lists)
      && Relinked(s.lists, t, Some(Dead), true, r.lists)
  {
    hide Inv, Core, Close, Move, Without, Relinked;
    InvCore(s);
    DeadExists(s);
    CloseIsMove(s, t);
    MoveRelinks(s, t, Closed(s.threads[t]), true);
    MoveRest(s, t, Closed(s.threads[t]), true);
  }

  /** On the current thread: closed as by rt_thread_exit, and the processor is handed over. */
  lemma KillCurrentEffect(s: State, t: Tid, p: nat)
    requires Inv(s) && Shapes(s) && Enabled(s, Kills(t)) && s.cur == Some(t) && !s.threads[t].system && FirstLevel(s, p)
    ensures Dead in s.lists
    ensures
      var closed := s.(threads := s.threads[t := Cur(s).(status := CLOSE, at := Some(Dead))], lists := s.lists[Dead := [t] + s.lists[Dead]]);
      FirstLevel(closed, p) && HandsOver(closed, p, Next(s, Kills(t)))
  {
    hide Inv, Core, Close, Schedule, HandsOver;
    ClosesRunning(s);
    CloseInv(s, t);
    InvCore(Close(s, t));
    ScheduleEffect(Close(s, t), p);
  }

  // ---------------------------------------------------------------------------
  // The scheduler.

  /** p is the smallest level with a ready thread. */
  ghost predicate FirstLevel(s: State, p: nat) {
    && p < LEVELS && ReadyAt(p) in s.lists && s.lists[ReadyAt(p)] != []
    && forall q | 0 <= q < p && ReadyAt(q) in s.lists :: s.lists[ReadyAt(q)] == []
  }

  lemma FirstIsBest(s: State, p: nat)
    requires FirstLevel(s, p)
    ensures Best(s.lists, 0) == p && AnyReady(s)
  {
    BestIsFirst(s.lists, 0);
  }

  /**
   The first thread of level p takes over and runs; the current one goes to the end of its own level if
   it was running, and stays as it is otherwise.
   */
  ghost predicate HandsOver(s: State, p: nat, r: State)
    requires FirstLevel(s, p) && Started(s)
  {
    var to, from := s.lists[ReadyAt(p)][0], s.cur.value;
    var level := ReadyAt(Cur(s).prio);
    && to in s.threads && to != from
    && r.cur == Some(to) && r.switches == s.switches + 1
    && r == s.(cur := r.cur, switches := r.switches, threads := r.threads, lists := r.lists)
    && var ran := s.threads[to].(status := RUNNING, at := None, runs := s.threads[to].runs + 1);
    if Cur(s).status == RUNNING then
      && level in s.lists
      && r.threads == s.threads[to := ran][from := Cur(s).(status := READY, at := Some(level))]
      && r.lists == (if level == ReadyAt(p) then s.lists[level := s.lists[level][1..] + [from]]
                     else s.lists[level := s.lists[level] + [from]][ReadyAt(p) := s.lists[ReadyAt(p)][1..]])
    else
      r.threads == s.threads[to := ran] && r.lists == s.lists[ReadyAt(p) := s.lists[ReadyAt(p)][1..]]
  }

  /** rt_schedule hands over to the first thread of the smallest non-empty level. */
  lemma ScheduleEffect(s: State, p: nat)
    requires Core(s) && Started(s) && FirstLevel(s, p)
    ensures HandsOver(s, p, Schedule(s))
  {
    hide Core, Schedule, Without, Best, FirstLevel;
    FirstIsBest(s, p);
    SwitchesIfReady(s);
    TopReady(s);
    HeadOfLevel(s);
    ScheduleThreads(s);
    ScheduleLists(s);
    FitsAt(s, s.cur.value);
    LevelExists(s, Cur(s).prio);
    SwitchedAre(s, p);
  }

  lemma LevelExists(s: State, p: nat)
    requires Core(s) && p < LEVELS
    ensures ReadyAt(p) in s.lists
  {
    assert Known(s, ReadyAt(p));
  }

  lemma SwitchedAre(s: State, p: nat)
    requires Core(s) && CanSwitch(s) && p == Best(s.lists, 0) && ReadyAt(p) in s.lists && ReadyAt(Cur(s).prio) in s.lists
    ensures
      var from, level, q := s.cur.value, ReadyAt(Cur(s).prio), s.lists[ReadyAt(p)];
      && q != []
      && Schedule(s).lists ==
           if Cur(s).status != RUNNING then s.lists[ReadyAt(p) := q[1..]]
           else if level == ReadyAt(p) then s.lists[level := q[1..] + [from]]
           else s.lists[level := s.lists[level] + [from]][ReadyAt(p) := q[1..]]
  {
    hide Core, Schedule, Without, Best;
    HeadOfLevel(s);
    ScheduleLinked(s);
    FitsAt(s, s.cur.value);
    var r := Schedule(s);
    var q := s.lists[ReadyAt(p)];
    assert q != [] && (q + [s.cur.value])[1..] == q[1..] + [s.cur.value];
    forall l | l in s.lists
      ensures l in r.lists && r.lists[l] == Rotated(s.lists[l], s.cur.value, GoesBack(Cur(s).status) && l == ReadyAt(Cur(s).prio), l == ReadyAt(p))
    {
      QueuedSchedule(s, l);
    }
  }

  /** With nobody ready rt_schedule returns. */
  lemma ScheduleNobody(s: State)
    requires forall p | 0 <= p < LEVELS && ReadyAt(p) in s.lists :: s.lists[ReadyAt(p)] == []
    ensures Schedule(s) == s
  {
    BestIsFirst(s.lists, 0);
  }

  /** thread_start: the first thread of the smallest non-empty level becomes current and runs. */
  lemma StartEffect(s: State, p: nat)
    requires Inv(s) && Shapes(s) && Enabled(s, Starts) && FirstLevel(s, p)
    ensures
      var to := s.lists[ReadyAt(p)][0];
      && to in s.threads
      && Next(s, Starts) == s.(
           cur := Some(to),
           threads := s.threads[to := s.threads[to].(status := RUNNING, at := None, runs := s.threads[to].runs + 1)],
           lists := s.lists[ReadyAt(p) := s.lists[ReadyAt(p)][1..]])
  {
    hide Without, Best, Inv, Core;
    InvCore(s);
    FirstIsBest(s, p);
    TopReady(s);
    HeadOfLevel(s);
    ListNoDup(s, ReadyAt(p));
    WithoutHead(s.lists[ReadyAt(p)]);
  }

  /** thread_join_init: a thread with the level and slice asked for, last of its level; levels above 31 are refused. */
  lemma JoinEffect(s: State, t: Tid, prio: nat, slice: nat, system: bool)
    requires Inv(s) && Shapes(s) && Enabled(s, Joins(t, prio, slice, system))
    ensures prio >= LEVELS ==> Next(s, Joins(t, prio, slice, system)) == s
    ensures prio < LEVELS ==>
      && ReadyAt(prio) in s.lists
      && Next(s, Joins(t, prio, slice, system)) == s.(
           threads := s.threads[t := Thread(READY, prio, Some(ReadyAt(prio)), false, slice, slice, 0, false, 0, system, None, 0)],
           lists := s.lists[ReadyAt(prio) := s.lists[ReadyAt(prio)] + [t]])
  {
    assert Known(s, ReadyAt(prio)) ==> ReadyAt(prio) in s.lists;
  }

  /** idle_thread_entry: exactly the closed threads are forgotten, and their list is empty. */
  lemma ReapEffect(s: State)
    requires Inv(s) && Shapes(s) && Enabled(s, Reaps)
    ensures
      var r := Next(s, Reaps);
      && Dead in s.lists && r == s.(threads := r.threads, lists := s.lists[Dead := []])
      && forall t :: (t in r.threads <==> t in s.threads && s.threads[t].status != CLOSE) && (t in r.threads ==> r.threads[t] == s.threads[t])
  {
    DeadExists(s);
    forall t
      ensures t in s.threads ==> (s.threads[t].status == CLOSE <==> t in Queued(s, Dead))
    {
      assert Agrees(s, Dead, t) && Placed(s, t);
    }
  }

  // ---------------------------------------------------------------------------
  // Waiting and waking.

  /**
   The current thread is suspended at the end of list l, without a time-out yet; a time above 0 starts
   its timer.
   */
  ghost predicate StartsWaiting(s: State, l: Queue, time: int, r: State)
    requires Started(s)
  {
    var t := s.cur.value;
    var th := Cur(s).(status := SUSPEND, at := Some(l), timedOut := false, woken := None);
    && l in s.lists
    && r == s.(
         threads := s.threads[t := if time > 0 then th.(timed := time, active := true, deadline := (s.tick + time) % WRAP) else th],
         lists := s.lists[l := s.lists[l] + [t]],
         timers := if time > 0 then [t] + s.timers else s.timers)
  }

  lemma BlockEffect(s: State, l: Queue, time: int)
    requires Core(s) && Started(s) && Cur(s).status == RUNNING && l in s.lists
    ensures StartsWaiting(s, l, time, Block(s, l, time))
  {
    hide Core, Block, Move;
    RunningFree(s);
    BlockIsMove(s, l, time);
    MoveIn(s, s.cur.value, Parked(s, l, time), false);
    MoveRest(s, s.cur.value, Parked(s, l, time), false);
  }

  /**
   The first waiter of list l is runnable: last of its level, or RUNNING if it has not left the
   processor yet; its timer is off, and w is its retry mark.
   */
  ghost predicate FirstWoken(s: State, l: Queue, w: Option<Queue>, r: State) {
    && l in s.lists && s.lists[l] != []
    && var t := s.lists[l][0];
    && t in s.threads
    && var th := s.threads[t].(active := false, woken := w);
    && var to := if s.cur == Some(t) then None else Some(ReadyAt(th.prio));
    && r == s.(
         threads := s.threads[t := th.(status := if to == None then RUNNING else READY, at := to)],
         timers := Without(s.timers, t), lists := r.lists)
    && Relinked(s.lists, t, to, false, r.lists)
  }

  /** rt_thread_suspend: a ready or running thread leaves its list with the new status; any other is left alone. */
  lemma SuspendEffect(s: State, t: Tid, status: Status)
    requires Core(s) && t in s.threads
    ensures
      var th, r := s.threads[t], Suspend(s, t, status);
      if th.status == READY || th.status == RUNNING then
        && r == s.(threads := s.threads[t := th.(status := status, at := None)], lists := r.lists)
        && Relinked(s.lists, t, None, false, r.lists)
      else r == s
  {
    hide Core, Without, Relinked;
    FitsAt(s, t);
    if Runnable(s.threads[t]) {
      var th := s.threads[t].(at := None);
      MoveRelinks(s, t, th, false);
      SameLists(s, t, th, false);
    }
  }

  /** rt_thread_resume: a waiting or sleeping thread is runnable and has no timer; any other is left alone. */
  lemma ResumeThreadEffect(s: State, t: Tid)
    requires Core(s) && t in s.threads
    ensures
      var th, r := s.threads[t], Resume(s, t);
      var to := if s.cur == Some(t) then None else Some(ReadyAt(th.prio));
      if th.status == SUSPEND || th.status == SLEEP then
        && r == s.(
             threads := s.threads[t := th.(active := false, status := if to == None then RUNNING else READY, at := to)],
             timers := Without(s.timers, t), lists := r.lists)
        && Relinked(s.lists, t, to, false, r.lists)
      else r == s
  {
    hide Core, Move, Without, Relinked, Awake;
    if s.threads[t].status == SUSPEND || s.threads[t].status == SLEEP {
      FitsAt(s, t);
      ResumeIsMove(s, t);
      AwakeIs(s, t);
      LevelExists(s, s.threads[t].prio);
      MoveRelinks(s, t, Awake(s, t), false);
      MoveRest(s, t, Awake(s, t), false);
    }
  }

  lemma ResumeEffect(s: State, l: Queue)
    requires Core(s) && Waiting(l) && Queued(s, l) != []
    ensures l in s.lists && Queued(s, l)[0] in s.threads
    ensures FirstWoken(s, l, None, Resume(s, Queued(s, l)[0]))
  {
    hide Core, Resume, Without, Relinked;
    var t := Queued(s, l)[0];
    FirstWaits(s, l);
    FitsAt(s, t);
    ResumeThreadEffect(s, t);
  }

  lemma AwakeIs(s: State, t: Tid)
    requires t in s.threads
    ensures
      var to := if s.cur == Some(t) then None else Some(ReadyAt(s.threads[t].prio));
      Awake(s, t) == s.threads[t].(active := false, status := if to == None then RUNNING else READY, at := to)
  {
  }

  lemma WakeFirstEffect(s: State, l: Queue)
    requires Core(s) && Waiting(l)
    ensures if Queued(s, l) == [] then WakeFirst(s, l) == s else FirstWoken(s, l, Some(l), WakeFirst(s, l))
  {
    hide Core, Resume, Without, Relinked;
    if Queued(s, l) != [] {
      ResumeEffect(s, l);
    }
  }

  /**
   rt_sem_take: a positive value goes down by one; with value 0 and time 0 nothing happens; otherwise
   the caller waits.
   */
  lemma TakeEffect(s: State, i: nat, time: int)
    requires Inv(s) && Shapes(s) && Enabled(s, Takes(i, time))
    ensures
      var m, r := s.sems[i], Next(s, Takes(i, time));
      if m.value > 0 then r == s.(sems := s.sems[i := m.(value := m.value - 1, takes := m.takes + 1)])
      else if time == 0 || s.cur == None then r == s
      else Started(s) && StartsWaiting(s, SemWait(i), time, r)
  {
    hide Inv, Block, StartsWaiting, Best;
    InvCore(s);
    SemListExists(s, i);
    if Started(s) {
      BlockEffect(s, SemWait(i), time);
    }
  }

  /** rt_sem_release: the first waiter is woken and the value stays; without one the value goes up, in 16 bits. */
  lemma ReleaseEffect(s: State, i: nat)
    requires Inv(s) && Shapes(s) && i < |s.sems|
    ensures
      var m, r := s.sems[i], Next(s, Releases(i));
      && SemWait(i) in s.lists
      && if s.lists[SemWait(i)] != [] then
           FirstWoken(s.(sems := s.sems[i := m.(takes := m.takes + 1, releases := m.releases + 1)]), SemWait(i), None, r)
         else if m.value < VALUES - 1 then
           r == s.(sems := s.sems[i := m.(value := m.value + 1, releases := m.releases + 1)])
         else
           r == s.(sems := s.sems[i := m.(value := 0, releases := m.releases + 1, wraps := m.wraps + 1)])
  {
    hide Core, Resume, FirstWoken, BoxesOk;
    InvCore(s);
    SemListExists(s, i);
    assert SemOk(s, i);
    if s.lists[SemWait(i)] != [] {
      FirstWaits(s, SemWait(i));
      ReleaseCore(s, i);
      ResumeEffect(s.(sems := s.sems[i := s.sems[i].(takes := s.sems[i].takes + 1, releases := s.sems[i].releases + 1)]), SemWait(i));
    }
  }

  /** Box b' holds one message more than b, behind the others. */
  ghost predicate Stored(b: Mailbox.Box, v: nat, b': Mailbox.Box) {
    Mailbox.Valid(b) && Mailbox.Valid(b') && b'.size == b.size && Mailbox.Contents(b') == Mailbox.Contents(b) + [v]
  }

  /** Box b' has lost its oldest message. */
  ghost predicate Fetched(b: Mailbox.Box, b': Mailbox.Box) {
    && Mailbox.Valid(b) && Mailbox.Valid(b') && b'.size == b.size
    && Mailbox.Contents(b) != [] && Mailbox.Contents(b') == Mailbox.Contents(b)[1..]
  }

  /** The box is replaced, the caller is no longer retrying, and the first waiter of l will retry. */
  ghost predicate BoxChanged(s: State, i: nat, b: Mailbox.Box, l: Queue, r: State)
    requires Started(s) && i < |s.boxes|
  {
    var s1 := s.(boxes := s.boxes[i := b], threads := s.threads[s.cur.value := Cur(s).(woken := None)]);
    && l in s.lists && if s.lists[l] == [] then r == s1 else FirstWoken(s1, l, Some(l), r)
  }

  lemma BoxEffect(s: State, i: nat, b: Mailbox.Box, l: Queue)
    requires Inv(s) && Started(s) && i < |s.boxes| && Mailbox.Valid(b) && Waiting(l) && l in s.lists
    ensures BoxChanged(s, i, b, l, WakeFirst(Set(s, s.cur.value, Cur(s).(woken := None)).(boxes := s.boxes[i := b]), l))
    ensures WakeFirst(Set(s, s.cur.value, Cur(s).(woken := None)).(boxes := s.boxes[i := b]), l).boxes == s.boxes[i := b]
  {
    hide Inv, Core, WakeFirst, FirstWoken, Mailbox.Valid;
    BoxCore(s, i, b);
    var s1 := Set(s, s.cur.value, Cur(s).(woken := None)).(boxes := s.boxes[i := b]);
    WakeFirstEffect(s1, l);
    assert Queued(s1, l) == s.lists[l];
    if s.lists[l] != [] {
      WokenBoxes(s1, l, Some(l), WakeFirst(s1, l));
    }
  }

  lemma WokenBoxes(s: State, l: Queue, w: Option<Queue>, r: State)
    requires FirstWoken(s, l, w, r)
    ensures r.boxes == s.boxes
  {
  }

  /**
   One pass of rt_mb_send_wait: with room the message is stored and the first parked receiver woken;
   without room the caller waits, or gives up when it may not.
   */
  lemma SendEffect(s: State, i: nat, v: nat, timeout: int)
    requires Inv(s) && Shapes(s) && Enabled(s, Sends(i, v, timeout))
    ensures
      var b, r := s.boxes[i], Next(s, Sends(i, v, timeout));
      && (s.cur == None ==> r == s)
      && (s.cur.Some? ==>
            && Started(s) && |r.boxes| == |s.boxes|
            && (b.entry < b.size ==> Stored(b, v, r.boxes[i]) && BoxChanged(s, i, r.boxes[i], RecvWait(i), r))
            && (b.entry == b.size && timeout != 0 ==> StartsWaiting(s, SendWait(i), timeout, r))
            && (b.entry == b.size && timeout == 0 && Cur(s).woken == None ==> r == s)
            && (b.entry == b.size && timeout == 0 && Cur(s).woken.Some? ==>
                  r == s.(threads := s.threads[s.cur.value := Cur(s).(timedOut := false, woken := None)])))
  {
    hide Inv, Block, WakeFirst, StartsWaiting, BoxChanged, Best, Mailbox.Contents;
    InvCore(s);
    SemListExists(s, i);
    var b := s.boxes[i];
    if Started(s) {
      if b.entry == b.size {
        BlockEffect(s, SendWait(i), timeout);
        WaitingBoxes(s, SendWait(i), timeout);
      } else {
        Mailbox.PutAppends(b, v);
        BoxEffect(s, i, Mailbox.Put(b, v), RecvWait(i));
      }
    }
  }

  lemma WaitingBoxes(s: State, l: Queue, time: int)
    requires Started(s)
    ensures Block(s, l, time).boxes == s.boxes
  {
  }

  /** rt_mb_send from an interrupt handler: with room the message is stored and the first parked receiver woken. */
  lemma IrqSendEffect(s: State, i: nat, v: nat)
    requires Inv(s) && Shapes(s) && i < |s.boxes|
    ensures
      var b, r := s.boxes[i], Next(s, IrqSends(i, v));
      && (s.cur == None || b.entry == b.size ==> r == s)
      && (s.cur.Some? && b.entry < b.size ==>
            && |r.boxes| == |s.boxes| && Stored(b, v, r.boxes[i]) && RecvWait(i) in s.lists
            && var s1 := s.(boxes := s.boxes[i := r.boxes[i]]);
            if s.lists[RecvWait(i)] == [] then r == s1 else FirstWoken(s1, RecvWait(i), Some(RecvWait(i)), r))
  {
    hide Inv, WakeFirst, FirstWoken, Mailbox.Contents;
    InvCore(s);
    SemListExists(s, i);
    var b := s.boxes[i];
    if Started(s) && b.entry != b.size {
      Mailbox.PutAppends(b, v);
      StoredInv(s, i, Mailbox.Put(b, v));
      var s1 := s.(boxes := s.boxes[i := Mailbox.Put(b, v)]);
      InvCore(s1);
      WakeFirstEffect(s1, RecvWait(i));
      if s.lists[RecvWait(i)] != [] {
        WokenBoxes(s1, RecvWait(i), Some(RecvWait(i)), WakeFirst(s1, RecvWait(i)));
      }
    }
  }

  /** One pass of rt_mb_recv: the oldest message is taken and the first parked sender woken, or the caller waits or gives up. */
  lemma ReceiveEffect(s: State, i: nat, limit: nat)
    requires Inv(s) && Shapes(s) && Enabled(s, Receives(i, limit))
    ensures
      var b, r := s.boxes[i], Next(s, Receives(i, limit));
      && (s.cur == None ==> r == s)
      && (s.cur.Some? ==>
            && Started(s) && |r.boxes| == |s.boxes|
            && (b.entry > 0 ==> Fetched(b, r.boxes[i]) && BoxChanged(s, i, r.boxes[i], SendWait(i), r))
            && (b.entry == 0 && limit != 0 ==> StartsWaiting(s, RecvWait(i), limit, r))
            && (b.entry == 0 && limit == 0 && Cur(s).woken == None ==> r == s)
            && (b.entry == 0 && limit == 0 && Cur(s).woken.Some? ==>
                  r == s.(threads := s.threads[s.cur.value := Cur(s).(timedOut := true, woken := None)])))
  {
    hide Inv, Block, WakeFirst, StartsWaiting, BoxChanged, Best, Mailbox.Contents;
    InvCore(s);
    SemListExists(s, i);
    var b := s.boxes[i];
    if Started(s) {
      if b.entry == 0 {
        BlockEffect(s, RecvWait(i), limit);
        WaitingBoxes(s, RecvWait(i), limit);
      } else {
        Mailbox.GetTakesFirst(b);
        BoxEffect(s, i, Mailbox.Get(b), SendWait(i));
      }
    }
  }

  // ---------------------------------------------------------------------------
  // The tick.

  /** The ticks left of a slice after one more; the counter has 32 bits. */
  function OneTickLess(left: nat): nat {
    if left == 0 then WRAP - 1 else left - 1
  }

  /** The clock is one on, and the running thread's slice one shorter, or new when it was used up. */
  function ClockedOn(s: State): State
    requires Started(s)
  {
    var left := OneTickLess(Cur(s).remaining);
    s.(tick := if s.tick + 1 == WRAP then 0 else s.tick + 1,
       threads := s.threads[s.cur.value := Cur(s).(remaining := if left == 0 then Cur(s).slice else left)])
  }

  /** Slices, deadlines and lengths of timers are the same. */
  ghost predicate SameTimes(s: State, r: State) {
    forall t | t in s.threads :: t in r.threads && SameTime(s.threads[t], r.threads[t])
  }

  predicate SameTime(a: Thread, b: Thread) {
    b.remaining == a.remaining && b.slice == a.slice && b.timed == a.timed && b.deadline == a.deadline
  }

  lemma ScheduleTimes(s: State)
    requires Core(s)
    ensures SameTimes(s, Schedule(s))
  {
    hide Core, Schedule, Best;
    if CanSwitch(s) {
      ScheduleThreads(s);
    } else {
      ScheduleIdle(s);
    }
  }

  lemma {:induction false} TimerCheckTimes(s: State, ts: seq<Tid>)
    requires Core(s)
    ensures SameTimes(s, TimerCheck(s, ts))
    decreases |ts|
  {
    hide Core, Schedule, Fire, Best;
    if ts != [] {
      var t := ts[0];
      if Due(s, t) {
        FireIsMove(s, t);
        TimedOutCore(s, t);
        ScheduleTimes(TimedOut(s, t));
        FireQuiet(s, t);
        TimerCheckTimes(Fire(s, t), ts[1..]);
      } else {
        TimerCheckTimes(s, ts[1..]);
      }
    }
  }

  /** At any tick only the running thread's slice changes: one tick less, and a new one when it is used up. */
  lemma TickTimes(s: State)
    requires Inv(s) && Shapes(s) && Started(s) && s.tick < WRAP && Cur(s).remaining < WRAP
    ensures SameTimes(ClockedOn(s), Next(s, Ticks)) && Next(s, Ticks).tick == ClockedOn(s).tick
  {
    hide Core, Schedule, TimerCheck, SemsOk, BoxesOk, CurOk, Quiet;
    TickedCore(s);
    SliceIs(s);
    var s1 := Ticked(s);
    SliceQuiet(s1);
    SetRemaining(s1, ClockedOn(s).threads[s.cur.value].remaining);
    ScheduleTimes(ClockedOn(s));
    TimerCheckTimes(Slice(s1), Slice(s1).timers);
    TickClock(s);
  }

  lemma TickClock(s: State)
    requires Core(s) && s.tick < WRAP
    ensures Tick(s).tick == if s.tick + 1 == WRAP then 0 else s.tick + 1
  {
    hide Core, Tick;
    TickQuiet(s);
  }

  lemma SliceIs(s: State)
    requires Started(s) && s.tick < WRAP && Cur(s).remaining < WRAP
    ensures
      var c := ClockedOn(s);
      Slice(Ticked(s)) == if OneTickLess(Cur(s).remaining) == 0 then Schedule(c) else c
  {
    hide Schedule;
    var s1 := Ticked(s);
    assert s1.tick == ClockedOn(s).tick;
    assert (Cur(s1).remaining + WRAP - 1) % WRAP == OneTickLess(Cur(s).remaining);
    assert Set(s1, s1.cur.value, Cur(s1).(remaining := Cur(s1).slice)) == s1.(threads := s.threads[s.cur.value := Cur(s).(remaining := Cur(s).slice)]);
  }

  /** With no timer due the handler does nothing else, but for the hand-over at the end of a slice. */
  lemma TickEffect(s: State, p: nat)
    requires Inv(s) && Shapes(s) && Started(s) && s.tick < WRAP && Cur(s).remaining < WRAP
    requires forall t | t in s.threads && s.threads[t].active :: ClockedOn(s).tick <= s.threads[t].deadline
    ensures OneTickLess(Cur(s).remaining) > 0 ==> Next(s, Ticks) == ClockedOn(s)
    ensures OneTickLess(Cur(s).remaining) == 0 && FirstLevel(s, p) ==>
              Started(ClockedOn(s)) && FirstLevel(ClockedOn(s), p) && HandsOver(ClockedOn(s), p, Next(s, Ticks))
  {
    hide Core, Schedule, SemsOk, BoxesOk, CurOk, Quiet, TimerCheck, HandsOver, FirstLevel;
    TickedCore(s);
    SliceIs(s);
    var s1 := Ticked(s);
    SliceQuiet(s1);
    SetRemaining(s1, ClockedOn(s).threads[s.cur.value].remaining);
    forall t
      ensures !Due(Slice(s1), t)
    {
      NotDueQuiet(s1, Slice(s1), t);
    }
    NoneFires(Slice(s1), Slice(s1).timers);
    if FirstLevel(s, p) {
      SameFirst(s, ClockedOn(s), p);
      ScheduleEffect(ClockedOn(s), p);
    }
  }

  lemma SameFirst(s: State, r: State, p: nat)
    requires FirstLevel(s, p) && r.lists == s.lists
    ensures FirstLevel(r, p)
  {
  }

  lemma {:induction false} NoneFires(s: State, ts: seq<Tid>)
    requires forall t :: !Due(s, t)
    ensures TimerCheck(s, ts) == s
    decreases |ts|
  {
    if ts != [] {
      NoneFires(s, ts[1..]);
    }
  }
}
