/** The steps of the thread kernel keep its invariant. */
module KernelSteps {
  import opened Base
  import opened KernelState
  import opened KernelInvariant

  // ---------------------------------------------------------------------------
  // The operations on one thread, each as a single move.

  /** Thread t made runnable: READY in its level, or RUNNING when it is the current one. */
  function Awake(s: State, t: Tid): Thread
    requires t in s.threads
  {
    var th := s.threads[t];
    if s.cur == Some(t) then th.(status := RUNNING, at := None, active := false)
    else th.(status := READY, at := Some(ReadyAt(th.prio)), active := false)
  }

  lemma FitsAt(s: State, t: Tid)
    requires Core(s) && t in s.threads
    ensures Fits(s.threads[t], s.cur == Some(t)) && (s.threads[t].at.Some? ==> s.threads[t].at.value in s.lists)
  {
    assert Placed(s, t);
  }

  /** Linking nowhere, and unlinking a node that is in no list, change nothing. */
  lemma DetachTwice(lists: map<Queue, seq<Tid>>, at: Option<Queue>, t: Tid)
    ensures Attach(lists, None, t, false) == lists && Detach(lists, None, t) == lists
    ensures var l := Detach(lists, at, t); Attach(l, None, t, false) == l && Detach(l, None, t) == l
  {
  }

  lemma ResumeIsMove(s: State, t: Tid)
    requires Core(s) && t in s.threads && (s.threads[t].status == SUSPEND || s.threads[t].status == SLEEP)
    ensures Resume(s, t) == Move(s, t, Awake(s, t), false)
  {
    hide Core, Without, Attach, Detach;
    DetachTwice(s.lists, s.threads[t].at, t);
    var a, b := Resume(s, t), Move(s, t, Awake(s, t), false);
    assert a.threads == b.threads;
    assert a.lists == b.lists;
  }

  /** The current thread falls asleep. */
  function Asleep(s: State, ticks: nat): Thread
    requires Started(s)
  {
    Cur(s).(timed := ticks, status := SLEEP, active := true, deadline := (s.tick + ticks) % WRAP, at := None)
  }

  lemma SleepIsMove(s: State, ticks: nat)
    requires Core(s) && Started(s) && Cur(s).status == RUNNING
    ensures Sleep(s, ticks) == Move(s, s.cur.value, Asleep(s, ticks), false)
  {
    hide Without, Core, Attach, Detach;
    FitsAt(s, s.cur.value);
    DetachTwice(s.lists, s.threads[s.cur.value].at, s.cur.value);
    var a, b := Sleep(s, ticks), Move(s, s.cur.value, Asleep(s, ticks), false);
    assert a.threads == b.threads;
    assert a.lists == b.lists;
  }

  /** The current thread waits in l. */
  function Parked(s: State, l: Queue, time: int): Thread
    requires Started(s)
  {
    var th := Cur(s).(timedOut := false, woken := None, status := SUSPEND, at := Some(l));
    if time > 0 then th.(timed := time, active := true, deadline := (s.tick + time) % WRAP) else th
  }

  lemma BlockIsMove(s: State, l: Queue, time: int)
    requires Core(s) && Started(s) && Cur(s).status == RUNNING
    ensures Block(s, l, time) == Move(s, s.cur.value, Parked(s, l, time), false)
  {
    hide Without, Core, Attach, Detach;
    FitsAt(s, s.cur.value);
    DetachTwice(s.lists, s.threads[s.cur.value].at, s.cur.value);
    var a, b := Block(s, l, time), Move(s, s.cur.value, Parked(s, l, time), false);
    assert a.threads == b.threads;
    assert a.lists == b.lists;
  }

  function Closed(th: Thread): Thread {
    th.(status := CLOSE, woken := None, active := false, at := Some(Dead))
  }

  lemma CloseIsMove(s: State, t: Tid)
    requires t in s.threads
    ensures Close(s, t) == Move(s, t, Closed(s.threads[t]), true)
  {
    hide Without, Attach, Detach;
    DetachTwice(s.lists, s.threads[t].at, t);
    var a, b := Close(s, t), Move(s, t, Closed(s.threads[t]), true);
    assert a.threads == b.threads;
    assert a.lists == b.lists;
  }

  // ---------------------------------------------------------------------------
  // The scheduler.

  /** The thread rt_schedule picks is READY, at its own level, and not the current one. */
  lemma TopReady(s: State)
    requires Core(s) && AnyReady(s)
    ensures Top(s) in s.threads && s.threads[Top(s)].status == READY && s.cur != Some(Top(s))
    ensures s.threads[Top(s)].prio == Best(s.lists, 0) && s.threads[Top(s)].at == Some(ReadyAt(Best(s.lists, 0)))
  {
    BestIsFirst(s.lists, 0);
    var l := ReadyAt(Best(s.lists, 0));
    assert s.lists[l][0] in s.lists[l];
    assert Agrees(s, l, Top(s)) && Placed(s, Top(s));
  }

  /** A hand-over happens exactly when some thread is ready. */
  lemma SwitchesIfReady(s: State)
    requires Core(s) && Started(s)
    ensures CanSwitch(s) <==> AnyReady(s)
  {
    if AnyReady(s) {
      TopReady(s);
    }
  }

  function Chosen(th: Thread): Thread {
    th.(status := RUNNING, runs := th.runs + 1, at := None)
  }

  function Preempted(th: Thread): Thread {
    th.(status := READY, at := Some(ReadyAt(th.prio)))
  }

  /** What rt_schedule does to the threads. */
  lemma ScheduleThreads(s: State)
    requires CanSwitch(s)
    ensures
      var to, from, th := Top(s), s.cur.value, s.threads[Top(s)];
      var s1 := s.threads[to := Chosen(th)];
      Schedule(s).threads == if GoesBack(Cur(s).status) then s1[from := Preempted(Cur(s))] else s1
  {
  }

  /** What rt_schedule does to the lists: the old thread goes to the end of its level, the new one leaves its own. */
  function SwitchedLists(lists: map<Queue, seq<Tid>>, to: Tid, th: Thread, from: Tid, was: Thread): map<Queue, seq<Tid>> {
    var l1 := if GoesBack(was.status) then Attach(Detach(lists, was.at, from), Some(ReadyAt(was.prio)), from, false) else lists;
    Detach(l1, th.at, to)
  }

  lemma ScheduleLists(s: State)
    requires CanSwitch(s)
    ensures Schedule(s).lists == SwitchedLists(s.lists, Top(s), s.threads[Top(s)], s.cur.value, Cur(s))
    ensures Schedule(s) == s.(threads := Schedule(s).threads, lists := Schedule(s).lists, cur := Some(Top(s)), switches := s.switches + 1)
  {
    hide Attach, Detach;
    var to, from, th := Top(s), s.cur.value, s.threads[Top(s)];
    var s1 := Set(s, to, th.(status := RUNNING, runs := th.runs + 1)).(cur := Some(to), switches := s.switches + 1);
    var s2 := if GoesBack(s.threads[from].status) then InsertThread(s1, from) else s1;
    assert Schedule(s) == RemoveThread(s2, to);
    assert s2.threads[to].at == th.at;
    NoAttach(Detach(s2.lists, th.at, to), to);
  }

  lemma NoAttach(lists: map<Queue, seq<Tid>>, t: Tid)
    ensures Attach(lists, None, t, false) == lists && Detach(lists, None, t) == lists
  {
  }

  lemma ScheduleLinked(s: State)
    requires Core(s)
    ensures Linked(Schedule(s)) && Schedule(s).lists.Keys == s.lists.Keys
  {
    hide Linked, NoDup, TimerAgrees;
    if CanSwitch(s) {
      TopReady(s);
      var to, from := Top(s), s.cur.value;
      assert Placed(s, from);
      var th := s.threads[to];
      var s0 := Set(s, to, th.(status := RUNNING, runs := th.runs + 1));
      SetLinked(s, to, th.(status := RUNNING, runs := th.runs + 1));
      var s1 := s0.(cur := Some(to), switches := s.switches + 1);
      LinkedSame(s0, s1);
      assert Known(s, ReadyAt(s.threads[from].prio));
      var back := s1.threads[from].(status := READY, at := Some(ReadyAt(s1.threads[from].prio)));
      var s2 := if GoesBack(s.threads[from].status) then InsertThread(s1, from) else s1;
      if GoesBack(s.threads[from].status) {
        assert s2 == Put(s1, from, back, false);
        PutLinked(s1, from, back, false);
      }
      PutLinked(s2, to, s2.threads[to].(at := None), false);
    }
  }

  lemma ScheduleCore(s: State)
    requires Core(s)
    ensures Core(Schedule(s))
  {
    hide Linked, NoDup;
    ScheduleLinked(s);
    if CanSwitch(s) {
      TopReady(s);
      ScheduleThreads(s);
      var r := Schedule(s);
      assert Placed(s, Top(s)) && Placed(s, s.cur.value);
      forall x
        ensures Placed(r, x) && TimerAgrees(r, x)
      {
        assert Placed(s, x) && TimerAgrees(s, x);
      }
      DomainSame(s, r);
    }
  }

  lemma DomainSame(s: State, r: State)
    requires Domain(s) && r.lists.Keys == s.lists.Keys && |r.sems| == |s.sems| && |r.boxes| == |s.boxes|
    ensures Domain(r)
  {
    forall l
      ensures Known(r, l) ==> l in r.lists
    {
      assert Known(s, l) == Known(r, l);
      assert l in r.lists.Keys <==> l in s.lists.Keys;
    }
  }

  /** After rt_schedule the current thread runs. */
  lemma ScheduleRuns(s: State)
    requires Core(s) && CurOk(s) && Started(s)
    ensures Started(Schedule(s)) && Cur(Schedule(s)).status == RUNNING
  {
    SwitchesIfReady(s);
    if CanSwitch(s) {
      ScheduleThreads(s);
    }
  }

  // ---------------------------------------------------------------------------
  // Time-outs and the tick.

  lemma ScheduleIgnoresTimer(s: State, t: Tid)
    requires t in s.threads
    ensures
      var s' := Set(s, t, s.threads[t].(active := false));
      t in Schedule(s).threads && Set(Schedule(s), t, Schedule(s).threads[t].(active := false)) == Schedule(s')
  {
    hide Attach, Detach, Best, Schedule, SwitchedLists, CanSwitch, Top;
    var s' := Set(s, t, s.threads[t].(active := false));
    SameChoice(s, t);
    if CanSwitch(s) {
      ScheduleLists(s);
      ScheduleLists(s');
      SameSwitch(s, t);
      SameThreads(s, t);
    } else {
      ScheduleIdle(s);
      ScheduleIdle(s');
    }
  }

  lemma ScheduleIdle(s: State)
    requires !CanSwitch(s)
    ensures Schedule(s) == s
  {
  }

  lemma SameChoice(s: State, t: Tid)
    requires t in s.threads
    ensures
      var s' := Set(s, t, s.threads[t].(active := false));
      CanSwitch(s') == CanSwitch(s)
      && (CanSwitch(s) ==> AnyReady(s) && AnyReady(s') && Top(s') == Top(s) && Top(s) in s.threads && Started(s) && Started(s'))
  {
    hide Best;
  }

  lemma SameThreads(s: State, t: Tid)
    requires t in s.threads && CanSwitch(s)
    ensures
      var s' := Set(s, t, s.threads[t].(active := false));
      t in Schedule(s).threads && Schedule(s').threads == Schedule(s).threads[t := Schedule(s).threads[t].(active := false)]
  {
    hide Attach, Detach, Best, Schedule, CanSwitch;
    var s' := Set(s, t, s.threads[t].(active := false));
    SameChoice(s, t);
    ScheduleThreads(s);
    ScheduleThreads(s');
  }

  lemma SameSwitch(s: State, t: Tid)
    requires t in s.threads && Started(s) && AnyReady(s) && Top(s) in s.threads
    ensures
      var s', to := Set(s, t, s.threads[t].(active := false)), Top(s);
      SwitchedLists(s'.lists, to, s'.threads[to], s.cur.value, Cur(s')) == SwitchedLists(s.lists, to, s.threads[to], s.cur.value, Cur(s))
  {
    hide Best, Attach, Detach;
  }

  /** Fire up to the reschedule, and with the timer flag already cleared. */
  lemma TimedOutIsMove(s: State, t: Tid)
    requires Core(s) && t in s.threads && s.threads[t].active
    ensures
      var s0 := s.(timers := Without(s.timers, t));
      var s2 := InsertThread(RemoveThread(Set(s0, t, s0.threads[t].(timedOut := true)), t), t);
      Set(s2, t, s2.threads[t].(active := false)) == Move(s, t, Awake(s, t).(timedOut := true), false)
  {
    hide Without, Core, Attach, Detach;
    FitsAt(s, t);
    DetachTwice(s.lists, s.threads[t].at, t);
    var s0 := s.(timers := Without(s.timers, t));
    var s2 := InsertThread(RemoveThread(Set(s0, t, s0.threads[t].(timedOut := true)), t), t);
    var s2' := Set(s2, t, s2.threads[t].(active := false));
    var m := Move(s, t, Awake(s, t).(timedOut := true), false);
    assert s2'.threads == m.threads;
    assert s2'.lists == m.lists;
  }

  /** A due timer makes its thread runnable, marks the time-out, and reschedules. */
  lemma FireIsMove(s: State, t: Tid)
    requires Core(s) && t in s.threads && s.threads[t].active
    ensures Fire(s, t) == Schedule(Move(s, t, Awake(s, t).(timedOut := true), false))
  {
    hide Without, Core, Schedule, Move, InsertThread, RemoveThread;
    var s0 := s.(timers := Without(s.timers, t));
    var s1 := RemoveThread(Set(s0, t, s0.threads[t].(timedOut := true)), t);
    StillThere(Set(s0, t, s0.threads[t].(timedOut := true)), t);
    var s2 := InsertThread(s1, t);
    TimedOutIsMove(s, t);
    ScheduleIgnoresTimer(s2, t);
  }

  lemma StillThere(s: State, t: Tid)
    requires t in s.threads
    ensures t in RemoveThread(s, t).threads && t in InsertThread(RemoveThread(s, t), t).threads
  {
  }
}
