/**
 The thread kernel of os/thread.c working in place: the ready-group bitmap beside the lists, and one
 method for each section the code runs with interrupts disabled. Every method is proved to take the
 state where the transition system says.
 */
module Kernel {
  import opened Base
  import opened Words
  import opened Ffs
  import opened KernelState
  import opened KernelInvariant
  import opened KernelSteps
  import opened KernelTick
  import opened KernelRuns
  import opened KernelLinks
  import opened RtList
  import Mailbox

  /** Bit p of the ready group is set exactly when level p has a ready thread. */
  ghost predicate Indexed(group: nat, lists: map<Queue, seq<Tid>>) {
    group < TWO32 && forall p: nat | p < LEVELS :: Bit(group, p) == LevelUsed(lists, p)
  }

  predicate LevelUsed(lists: map<Queue, seq<Tid>>, p: nat) {
    ReadyAt(p) in lists && lists[ReadyAt(p)] != []
  }

  lemma IndexedEmpty(lists: map<Queue, seq<Tid>>)
    requires forall p: nat | p < LEVELS :: !LevelUsed(lists, p)
    ensures Indexed(0, lists)
  {
    forall p: nat | p < LEVELS
      ensures Bit(0, p) == LevelUsed(lists, p)
    {
      NoBit(p);
    }
  }

  lemma BestUsed(lists: map<Queue, seq<Tid>>)
    ensures Best(lists, 0) <= LEVELS && (Best(lists, 0) < LEVELS ==> LevelUsed(lists, Best(lists, 0)))
    ensures forall p: nat | p < LEVELS && LevelUsed(lists, p) :: Best(lists, 0) <= p
  {
    BestIsFirst(lists, 0);
  }

  /** The lowest bit of the group is the smallest level in use. */
  lemma GroupFindsBest(group: nat, lists: map<Queue, seq<Tid>>)
    requires Indexed(group, lists)
    ensures group == 0 <==> Best(lists, 0) == LEVELS
    ensures group != 0 ==> TableFfs(AsInt(group)) == Best(lists, 0) + 1
  {
    hide TableFfs, LowestSet, AsInt, Best, Bit, LevelUsed;
    BestUsed(lists);
    var b := Best(lists, 0);
    Pow2Values();
    if group != 0 {
      SignIrrelevant(group);
      LowestSetIsLowest(group);
      var p := SomeBit(group, LEVELS);
      assert LevelUsed(lists, p);
      assert LevelUsed(lists, LowestSet(group));
    } else {
      NoBit(b);
    }
  }

  /** A thread joins level p. */
  lemma IndexedSet(group: nat, lists: map<Queue, seq<Tid>>, p: nat, lists': map<Queue, seq<Tid>>)
    requires Indexed(group, lists) && p < LEVELS && LevelUsed(lists', p)
    requires forall q: nat | q < LEVELS && q != p :: LevelUsed(lists', q) == LevelUsed(lists, q)
    ensures SetBit(group, p) >= 0 && Indexed(SetBit(group, p), lists')
  {
    hide SetBit, Bit;
    Pow2Values();
    BitsInWord(group, p, LEVELS);
    forall q: nat | q < LEVELS
      ensures Bit(SetBit(group, p), q) == LevelUsed(lists', q)
    {
      BitAfterSet(group, p, q);
    }
  }

  /** Level p is empty now. */
  lemma IndexedClear(group: nat, lists: map<Queue, seq<Tid>>, p: nat, lists': map<Queue, seq<Tid>>)
    requires Indexed(group, lists) && p < LEVELS && !LevelUsed(lists', p)
    requires forall q: nat | q < LEVELS && q != p :: LevelUsed(lists', q) == LevelUsed(lists, q)
    ensures ClearBit(group, p) >= 0 && Indexed(ClearBit(group, p), lists')
  {
    hide ClearBit, Bit;
    Pow2Values();
    BitsInWord(group, p, LEVELS);
    forall q: nat | q < LEVELS
      ensures Bit(ClearBit(group, p), q) == LevelUsed(lists', q)
    {
      BitAfterClear(group, p, q);
    }
  }

  lemma IndexedSame(group: nat, lists: map<Queue, seq<Tid>>, lists': map<Queue, seq<Tid>>)
    requires Indexed(group, lists) && forall q: nat | q < LEVELS :: LevelUsed(lists', q) == LevelUsed(lists, q)
    ensures Indexed(group, lists')
  {
    hide Bit, LevelUsed;
  }

  class ThreadKernel {
    var cur: Option<Tid>
    var threads: map<Tid, Thread>
    var group: nat
    var tick: nat
    var sems: seq<Sem>
    var boxes: seq<Mailbox.Box>
    const links: Links<Node>
    ghost var lists: map<Queue, seq<Tid>>
    ghost var timers: seq<Tid>
    ghost var switches: nat

    ghost function State(): State
      reads this
    {
      KernelState.State(cur, threads, lists, timers, tick, switches, sems, boxes)
    }

    /** The rings in memory and the group bitmap say what the lists are. */
    ghost predicate Sound()
      reads this, links
    {
      Indexed(group, lists) && Coupled(links.next, links.prev, State())
    }

    ghost predicate Valid()
      reads this, links
    {
      Inv(State()) && Sound()
    }

    /** The node of t is in no ready list but that of its own level. */
    ghost predicate OwnLevel(t: Tid)
      reads this
    {
      && t in threads && threads[t].prio < LEVELS && ReadyAt(threads[t].prio) in lists
      && (threads[t].at.Some? ==> threads[t].at.value in lists)
      && (threads[t].at.Some? && threads[t].at.value.ReadyAt? ==> threads[t].at == Some(ReadyAt(threads[t].prio)))
    }

    /** Fields of a thread other than its nodes. */
    method SetThread(t: Tid, th: Thread)
      requires Sound() && t in threads && th.at == threads[t].at
      modifies `threads
      ensures Sound() && State() == Set(old(State()), t, th)
    {
      hide Indexed, Coupled;
      CoupledSet(links.next, links.prev, State(), t, th);
      threads := threads[t := th];
    }

    /** rt_list_remove on the tlist node of t. */
    method RemoveNode(t: Tid)
      requires Coupled(links.next, links.prev, State()) && t in threads
      modifies `threads, `lists, links
      ensures State() == RemoveThread(old(State()), t) && Coupled(links.next, links.prev, State())
    {
      hide Coupled, Ring, OnlyIn, ListRing, Without;
      ghost var s, next, prev := State(), links.next, links.prev;
      ghost var c, k := NodeRing(links.next, links.prev, State(), t);
      links.Remove(ListNode(t), c, k);
      Unlinked(next, prev, links.next, links.prev, s, t, c, k);
      lists := Detach(lists, threads[t].at, t);
      threads := threads[t := threads[t].(at := None)];
    }

    /** rt_list_insert_before or rt_list_insert_after on the tlist node of t, which becomes th. */
    method LinkNode(t: Tid, th: Thread, l: Queue, front: bool)
      requires Coupled(links.next, links.prev, State()) && t in threads && threads[t].at == None && l in lists && th.at == Some(l)
      modifies `threads, `lists, links
      ensures State() == Put(old(State()), t, th, front) && Coupled(links.next, links.prev, State())
    {
      ghost var s, next, prev := State(), links.next, links.prev;
      NodeOutside(s, t, l);
      assert ListIn(next, prev, s, l);
      ghost var c := ListRing(l, lists[l]);
      hide Coupled, Ring, OnlyIn, ListRing;
      if front {
        links.InsertAfter(ListHead(l), ListNode(t), c);
      } else {
        links.InsertBefore(ListHead(l), ListNode(t), c);
      }
      Linking(next, prev, links.next, links.prev, s, t, th, l, front);
      lists := Attach(lists, th.at, t, front);
      threads := threads[t := th];
    }

    /** rt_list_remove on a node that is not in a ready list. */
    method Unlink(t: Tid)
      requires Sound() && t in threads && (threads[t].at.Some? ==> !threads[t].at.value.ReadyAt?)
      modifies `threads, `lists, links
      ensures State() == RemoveThread(old(State()), t) && Sound()
    {
      hide Without, Indexed, Coupled;
      RemoveNode(t);
      IndexedSame(group, old(lists), lists);
    }

    /** rt_schedule_insert_thread, lines 345-367. */
    method Insert(t: Tid)
      requires Sound() && OwnLevel(t) && threads[t].at == None
      modifies `threads, `lists, `group, links
      ensures State() == InsertThread(old(State()), t) && Sound()
    {
      hide Without, Indexed, SetBit, Coupled;
      var th := threads[t];
      if cur == Some(t) {
        SetThread(t, th.(status := RUNNING));
      } else {
        LinkNode(t, th.(status := READY, at := Some(ReadyAt(th.prio))), ReadyAt(th.prio), false);
        IndexedSet(group, old(lists), th.prio, lists);
        group := SetBit(group, th.prio);
      }
    }

    /** rt_schedule_remove_thread, lines 369-381. */
    method Remove(t: Tid)
      requires Sound() && OwnLevel(t)
      modifies `threads, `lists, `group, links
      ensures State() == RemoveThread(old(State()), t) && Sound()
    {
      hide Without, Indexed, ClearBit, Coupled, Ring, ListRing;
      ghost var s := State();
      var prio := threads[t].prio;
      RemoveNode(t);
      var l := ReadyAt(prio);
      LevelKept(s, t, prio);
      RingOf(links.next, links.prev, State(), l);
      var empty := links.IsEmpty(ListHead(l), ListRing(l, lists[l]));
      if empty {
        IndexedClear(group, s.lists, prio, lists);
        group := ClearBit(group, prio);
      } else {
        StillUsed(s.lists, s.threads[t].at, t, prio);
        IndexedSame(group, s.lists, lists);
      }
    }

    /** rt_timer_stop, lines 280-305. */
    method StopTimer(t: Tid)
      requires Sound() && t in threads && (threads[t].active ==> t in timers)
      modifies `threads, `timers, links
      ensures State() == TimerStop(old(State()), t) && Sound()
    {
      hide Indexed, Coupled;
      if threads[t].active {
        RemoveTimer(t);
        SetThread(t, threads[t].(active := false));
      }
    }

    /** rt_list_remove on the timelist node of t. */
    method RemoveTimer(t: Tid)
      requires Sound() && t in timers
      modifies `timers, links
      ensures State() == old(State()).(timers := Without(old(timers), t)) && Sound()
    {
      hide Indexed, Coupled, Ring, OnlyIn, TimerRing, Without;
      ghost var s, next, prev := State(), links.next, links.prev;
      ghost var c, k := TimerRingAt(links.next, links.prev, State(), t);
      links.Remove(TimerNode(t), c, k);
      TimerGone(next, prev, links.next, links.prev, s, t);
      timers := Without(timers, t);
    }

    /** rt_timer_start, lines 412-422. */
    method StartTimer(t: Tid)
      requires Sound() && t in threads && t !in timers
      modifies `threads, `timers, links
      ensures State() == TimerStart(old(State()), t) && Sound()
    {
      ghost var s, next, prev := State(), links.next, links.prev;
      InTimerRing(timers, TimerNode(t));
      assert TimerRing(timers)[0] == TimerHead;
      assert Ring(next, prev, TimerRing(timers));
      hide Indexed, Coupled, Ring, OnlyIn, TimerRing;
      links.InsertAfter(TimerHead, TimerNode(t), TimerRing(timers));
      TimerLinked(next, prev, links.next, links.prev, s, t);
      timers := [t] + timers;
      SetThread(t, threads[t].(active := true, deadline := (tick + threads[t].timed) % WRAP));
    }

    /** The first thread of a list that is not empty. */
    method First(l: Queue) returns (t: Tid)
      requires Sound() && l in lists && lists[l] != []
      ensures t == lists[l][0]
    {
      hide Indexed, Coupled, Ring, ListRing;
      RingOf(links.next, links.prev, State(), l);
      FirstNode(links.next, links.prev, l, lists[l]);
      t := links.next[ListHead(l)].t;
    }

    method NoneIn(l: Queue) returns (empty: bool)
      requires Sound() && l in lists
      ensures empty <==> lists[l] == []
    {
      hide Indexed, Coupled, Ring, ListRing;
      RingOf(links.next, links.prev, State(), l);
      FirstNode(links.next, links.prev, l, lists[l]);
      empty := links.IsEmpty(ListHead(l), ListRing(l, lists[l]));
    }

    /**
     _get_highest_priority_thread, lines 240-256. While the timer of x fires its flag is still set;
     the state is in order apart from that.
     */
    method Highest(ghost x: Option<Tid>) returns (t: Tid, prio: nat)
      requires Core(Quenched(State(), x)) && Sound() && group != 0
      ensures AnyReady(State()) && t == Top(State()) && prio == Best(lists, 0) && prio < LEVELS
      ensures t in threads && threads[t].status == READY && threads[t].prio == prio && cur != Some(t)
    {
      hide Core, Indexed, Best, TableFfs, Coupled;
      GroupFindsBest(group, lists);
      BestIsFirst(lists, 0);
      TopReady(Quenched(State(), x));
      prio := TableFfs(AsInt(group)) - 1;
      t := First(ReadyAt(prio));
    }

    /** Lines 508-516: the thread `to` becomes current, the old one goes back to its level if it still runs. */
    method HandOver(to: Tid)
      requires Sound() && cur.Some? && cur.value != to && OwnLevel(to) && OwnLevel(cur.value)
      requires GoesBack(threads[cur.value].status) ==> threads[cur.value].at == None
      modifies `cur, `threads, `lists, `group, `switches, links
      ensures State() == HandedOver(old(State()), to) && Sound()
    {
      hide Indexed, Coupled, InsertThread, RemoveThread;
      var from := cur.value;
      ghost var s := State();
      SetThread(to, threads[to].(status := RUNNING, runs := threads[to].runs + 1));
      ghost var s1 := State();
      cur := Some(to);
      switches := switches + 1;
      CoupledSame(links.next, links.prev, s1, State());
      InsertKeeps(State(), from, to);
      if GoesBack(threads[from].status) {
        Insert(from);
      }
      Remove(to);
    }

    /**
     rt_schedule, lines 481-553. `wow` and `stuck` say whether the branches that print "wow bug" and
     "still in read list" were reached: they never are.
     */
    method Reschedule(ghost x: Option<Tid>) returns (wow: bool, stuck: bool)
      requires Core(Quenched(State(), x)) && Sound() && cur.Some?
      modifies `cur, `threads, `lists, `group, `switches, links
      ensures State() == Schedule(old(State())) && Sound() && !wow && !stuck
    {
      hide Core, Indexed, Best, HandedOver, Coupled;
      wow, stuck := false, false;
      ghost var s := State();
      var from := cur.value;
      CurOwnLevel(s, x, from);
      GroupFindsBest(group, lists);
      BestIsFirst(lists, 0);
      if group != 0 {
        var to, prio := Highest(x);
        CurOwnLevel(s, x, to);
        wow, stuck := threads[to].status == CLOSE, cur == Some(to);
        if !stuck {
          HandOver(to);
        }
      }
    }

    /** rt_thread_timeout, lines 426-448, called from the timer loop (lines 466-468). */
    method FireTimer(t: Tid)
      requires Core(State()) && Sound() && cur.Some? && Due(State(), t)
      modifies `cur, `threads, `lists, `group, `switches, `timers, links
      ensures State() == Fire(old(State()), t) && Sound() && Core(State()) && cur.Some?
      ensures timers == Without(old(timers), t)
    {
      hide Core, Indexed, Schedule, RemoveThread, InsertThread, Quiet, Coupled;
      ghost var s := State();
      FireQuiet(s, t);
      QuietCur(s, Fire(s, t));
      FitsAt(s, t);
      LevelsExist(s);
      Listed(s, t);
      RemoveTimer(t);
      SetThread(t, threads[t].(timedOut := true));
      Removed(State(), t);
      Unlink(t);
      Insert(t);
      TimedOutReady(s, t);
      var _, _ := Reschedule(Some(t));
      StillThere(Set(s.(timers := Without(s.timers, t)), t, s.threads[t].(timedOut := true)), t);
      ScheduleKeeps(InsertThread(RemoveThread(Set(s.(timers := Without(s.timers, t)), t, s.threads[t].(timedOut := true)), t), t), t);
      SetThread(t, threads[t].(active := false));
    }

    /** rt_timer_check, lines 450-474. The next entry is read before the current one is handled. */
    method CheckTimers()
      requires Core(State()) && Sound() && cur.Some?
      modifies `cur, `threads, `lists, `group, `switches, `timers, links
      ensures State() == TimerCheck(old(State()), old(timers)) && Sound() && Core(State())
    {
      hide Core, Indexed, Fire, Coupled, Ring, TimerRing, Without, NoDup;
      ghost var ts, s, before: seq<Tid> := timers, State(), [];
      ghost var k: nat := 0;
      TimerFirst(links.next, links.prev, s);
      assert before + ts[0..] == timers && ts[0..] == ts;
      var pos := links.next[TimerHead];
      while pos != TimerHead
        invariant k <= |ts| && Core(State()) && Sound() && cur.Some?
        invariant timers == before + ts[k..] && pos == if k == |ts| then TimerHead else TimerNode(ts[k])
        invariant TimerCheck(State(), ts[k..]) == TimerCheck(s, ts)
        invariant tick == old(tick) && sems == old(sems) && boxes == old(boxes)
        decreases |ts| - k
      {
        var t := pos.t;
        TimerFollow(links.next, links.prev, State(), |before|);
        ListedThread(State(), t);
        var following := links.next[pos];
        TimersSplit(State(), before, ts[k..]);
        assert ts[k..][0] == t && ts[k..][1..] == ts[k + 1..];
        if threads[t].active && tick > threads[t].deadline {
          FireTimer(t);
        } else {
          before := before + [t];
        }
        pos := following;
        k := k + 1;
      }
      assert ts[k..] == [];
    }

    /** sys_tick_handler, lib/ls1c_sys_tick.c lines 64-87. */
    method TickHandler()
      requires Valid()
      modifies this, links
      ensures Valid() && State() == Tick(old(State())) == Next(old(State()), Ticks)
    {
      hide Inv, Indexed, Coupled, Schedule, TimerCheck, Core, Quiet, CurOk;
      ghost var s := State();
      TickInv(s);
      InvShaped(s);
      InvCore(s);
      TickedCore(s);
      tick := (tick + 1) % WRAP;
      CoupledSame(links.next, links.prev, s, State());
      if cur.Some? {
        CurExists(State());
        var t := cur.value;
        SliceQuiet(State());
        QuietCur(State(), Slice(State()));
        var left := (threads[t].remaining + WRAP - 1) % WRAP;
        SetRemaining(State(), if left == 0 then threads[t].slice else left);
        if left == 0 {
          SetThread(t, threads[t].(remaining := threads[t].slice));
          var _, _ := Reschedule(None);
        } else {
          SetThread(t, threads[t].(remaining := left));
        }
        CheckTimers();
      }
    }

    /** rt_thread_suspend, lines 588-609. */
    method SuspendThread(t: Tid, status: Status) returns (r: int)
      requires Sound() && OwnLevel(t) && (threads[t].active ==> t in timers)
      modifies `threads, `lists, `group, `timers, links
      ensures State() == Suspend(old(State()), t, status) && Sound()
      ensures r == if Runnable(old(threads)[t]) then 0 else -1
    {
      hide Indexed, Coupled, RemoveThread, TimerStop, Set, Suspend;
      SuspendSteps(State(), t, status);
      r := -1;
      if threads[t].status == READY || threads[t].status == RUNNING {
        Remove(t);
        SetThread(t, threads[t].(status := status));
        StopTimer(t);
        r := 0;
      }
    }

    /** rt_thread_sleep, lines 642-658, up to its rt_schedule. */
    method SleepCurrent(ticks: nat)
      requires Valid() && Enabled(State(), Sleeps(ticks))
      modifies this, links
      ensures Valid() && State() == Next(old(State()), Sleeps(ticks))
    {
      hide Inv, Indexed, Coupled, Suspend, Best, Core;
      ghost var s := State();
      InvShaped(s);
      InvCore(s);
      SleepInv(s, ticks);
      CurOwnLevel(s, None, cur.value);
      var t := cur.value;
      Listed(s, t);
      FitsAt(s, t);
      SetThread(t, threads[t].(timed := ticks));
      SuspendKeeps(State(), t, SLEEP);
      var _ := SuspendThread(t, SLEEP);
      StartTimer(t);
    }

    /** The common part of rt_thread_exit, rt_thread_dead_exit and killThreadFun. */
    method CloseThread(t: Tid)
      requires Sound() && OwnLevel(t) && Dead in lists && (threads[t].active ==> t in timers)
      modifies `threads, `lists, `group, `timers, links
      ensures State() == Close(old(State()), t) && Sound()
    {
      hide Indexed, Coupled, Without;
      SetThread(t, threads[t].(status := CLOSE, woken := None));
      StopTimer(t);
      Removed(State(), t);
      Remove(t);
      ghost var was := lists;
      LinkNode(t, threads[t].(at := Some(Dead)), Dead, true);
      IndexedSame(group, was, lists);
    }

    /** rt_thread_exit, lines 307-326, and rt_thread_dead_exit, lines 662-680, up to rt_schedule. */
    method ExitCurrent()
      requires Valid() && Enabled(State(), Exits)
      modifies this, links
      ensures Valid() && State() == Next(old(State()), Exits)
    {
      hide Inv, Indexed, Coupled, Close, Best, Core;
      ghost var s := State();
      InvShaped(s);
      InvCore(s);
      CloseInv(s, cur.value);
      CurOwnLevel(s, None, cur.value);
      LevelsExist(s);
      Listed(s, cur.value);
      CloseThread(cur.value);
    }

    /** killThreadFun, lines 1554-1587. */
    method KillThread(t: Tid)
      requires Valid() && Enabled(State(), Kills(t))
      modifies this, links
      ensures Valid() && State() == Next(old(State()), Kills(t))
    {
      hide Inv, Indexed, Coupled, Close, Best, Core, Schedule;
      ghost var s := State();
      InvShaped(s);
      InvCore(s);
      KillInv(s, t);
      if t in threads && !threads[t].system {
        CloseInv(s, t);
        CurOwnLevel(s, None, t);
        LevelsExist(s);
        Listed(s, t);
        CloseThread(t);
        InvCore(Close(s, t));
        if cur == Some(t) {
          var _, _ := Reschedule(None);
        }
      }
    }

    /** rt_schedule as a step of its own. */
    method Yield() returns (wow: bool, stuck: bool)
      requires Valid() && Enabled(State(), Schedules)
      modifies this, links
      ensures Valid() && State() == Next(old(State()), Schedules) && !wow && !stuck
    {
      hide Inv, Indexed, Coupled, Core, Schedule;
      InvShaped(State());
      InvCore(State());
      ScheduleInv(State());
      wow, stuck := Reschedule(None);
    }

    /** rt_thread_resume, lines 611-640; rt_mb_recv has the same lines (1411-1416). */
    method ResumeThread(t: Tid) returns (r: int)
      requires Sound() && OwnLevel(t) && (threads[t].active ==> t in timers)
      requires !Runnable(threads[t]) && threads[t].at.Some? ==> !threads[t].at.value.ReadyAt?
      modifies `threads, `lists, `group, `timers, links
      ensures State() == Resume(old(State()), t) && Sound()
      ensures r == if old(threads)[t].status == SUSPEND || old(threads)[t].status == SLEEP then 0 else -1
    {
      hide Indexed, InsertThread, RemoveThread, TimerStop, Coupled;
      if threads[t].status != SUSPEND && threads[t].status != SLEEP {
        return -1;
      }
      Removed(State(), t);
      Unlink(t);
      StopKeeps(State(), t);
      StopTimer(t);
      Insert(t);
      return 0;
    }

    /** The running thread parks in l: lines 958-970, 1199-1225 and 1340-1366. */
    method Park(l: Queue, time: int)
      requires Core(State()) && Sound() && cur.Some? && cur.value in threads && threads[cur.value].status == RUNNING
      requires l in lists && Waiting(l)
      modifies `threads, `lists, `group, `timers, links
      ensures State() == Block(old(State()), l, time) && Sound()
    {
      hide Indexed, Coupled, Core, Suspend;
      CurOwnLevel(State(), None, cur.value);
      var t := cur.value;
      Listed(State(), t);
      FitsAt(State(), t);
      SetThread(t, threads[t].(timedOut := false, woken := None));
      SuspendKeeps(State(), t, SUSPEND);
      var _ := SuspendThread(t, SUSPEND);
      ghost var was := lists;
      LinkNode(t, threads[t].(at := Some(l)), l, false);
      IndexedSame(group, was, lists);
      if time > 0 {
        SetThread(t, threads[t].(timed := time));
        StartTimer(t);
      }
    }

    /** rt_sem_take, lines 924-986, up to rt_schedule. A thread that blocks gets its answer later. */
    method SemTake(i: nat, time: int) returns (taken: bool, blocked: bool)
      requires Valid() && Enabled(State(), Takes(i, time))
      modifies this, links
      ensures Valid() && State() == Next(old(State()), Takes(i, time))
      ensures taken == (old(sems)[i].value > 0) && blocked == (!taken && time != 0 && cur.Some?)
    {
      hide Inv, Indexed, Coupled, Core, Block, Best;
      ghost var s := State();
      InvShaped(s);
      InvCore(s);
      TakeInv(s, i, time);
      CurExists(s);
      SemListExists(s, i);
      taken, blocked := false, false;
      if sems[i].value > 0 {
        taken := true;
        sems := sems[i := sems[i].(value := sems[i].value - 1, takes := sems[i].takes + 1)];
        CoupledSame(links.next, links.prev, s, State());
      } else if time != 0 && cur.Some? {
        blocked := true;
        Park(SemWait(i), time);
      }
    }

    /** rt_sem_release, lines 988-1018, up to rt_schedule, which follows when a thread was woken. */
    method SemRelease(i: nat) returns (woke: bool)
      requires Valid() && Enabled(State(), Releases(i))
      modifies this, links
      ensures Valid() && State() == Next(old(State()), Releases(i)) && woke == (old(lists)[SemWait(i)] != [])
    {
      hide Inv, Indexed, Coupled, Core, Resume;
      ghost var s := State();
      InvShaped(s);
      InvCore(s);
      ReleaseInv(s, i);
      SemListExists(s, i);
      var empty := NoneIn(SemWait(i));
      woke := !empty;
      var m := sems[i];
      if woke {
        FirstWaits(s, SemWait(i));
        var t := First(SemWait(i));
        FitsAt(s, t);
        LevelsExist(s);
        Listed(s, t);
        sems := sems[i := m.(takes := m.takes + 1, releases := m.releases + 1)];
        CoupledSame(links.next, links.prev, s, State());
        var _ := ResumeThread(t);
      } else {
        sems := sems[i := m.(value := (m.value + 1) % VALUES, releases := m.releases + 1, wraps := m.wraps + (m.value + 1) / VALUES)];
        CoupledSame(links.next, links.prev, s, State());
      }
    }

    /** The first waiter of a mailbox list is woken (lines 1258-1271 and 1402-1425). */
    method WakeWaiter(l: Queue) returns (woke: bool)
      requires Core(State()) && Sound() && l in lists && Waiting(l)
      modifies `threads, `lists, `group, `timers, links
      ensures State() == WakeFirst(old(State()), l) && Sound() && woke == (old(lists)[l] != [])
    {
      hide Indexed, Coupled, Core, Resume;
      ghost var s := State();
      var empty := NoneIn(l);
      woke := !empty;
      if woke {
        FirstWaits(s, l);
        var t := First(l);
        FitsAt(s, t);
        Listed(s, t);
        LevelsExist(s);
        ResumeKeeps(s, t);
        var _ := ResumeThread(t);
        SetThread(t, threads[t].(woken := Some(l)));
      }
    }

    /** One pass of rt_mb_send_wait, lines 1142-1280, up to rt_schedule. */
    method MbSend(i: nat, v: nat, timeout: int) returns (stored: bool, blocked: bool)
      requires Valid() && Enabled(State(), Sends(i, v, timeout))
      modifies this, links
      ensures Valid() && State() == Next(old(State()), Sends(i, v, timeout))
      ensures stored == (cur.Some? && old(boxes)[i].entry < old(boxes)[i].size) && blocked == (cur.Some? && !stored && timeout != 0)
    {
      hide Inv, Indexed, Coupled, Core, Block, Best, WakeFirst;
      ghost var s := State();
      InvShaped(s);
      InvCore(s);
      SendInv(s, i, v, timeout);
      CurExists(s);
      SemListExists(s, i);
      stored, blocked := false, false;
      if cur.Some? {
        var t, b := cur.value, boxes[i];
        if b.entry == b.size {
          if timeout != 0 {
            blocked := true;
            Park(SendWait(i), timeout);
          } else if threads[t].woken == Some(SendWait(i)) {
            SetThread(t, threads[t].(timedOut := false, woken := None));
          }
        } else {
          stored := true;
          Mailbox.PutAppends(b, v);
          BoxInv(s, i, Mailbox.Put(b, v));
          SetThread(t, threads[t].(woken := None));
          ghost var s1 := State();
          boxes := boxes[i := Mailbox.Put(b, v)];
          CoupledSame(links.next, links.prev, s1, State());
          InvCore(State());
          var _ := WakeWaiter(RecvWait(i));
        }
      }
    }

    /** rt_mb_send, lines 1282-1285, from an interrupt handler; rt_schedule follows when a thread was woken. */
    method MbSendFromIrq(i: nat, v: nat) returns (stored: bool)
      requires Valid() && Enabled(State(), IrqSends(i, v))
      modifies this, links
      ensures Valid() && State() == Next(old(State()), IrqSends(i, v))
      ensures stored == (cur.Some? && old(boxes)[i].entry < old(boxes)[i].size)
    {
      hide Inv, Indexed, Coupled, Core, WakeFirst;
      ghost var s := State();
      InvShaped(s);
      InvCore(s);
      IrqSendInv(s, i, v);
      CurExists(s);
      SemListExists(s, i);
      var b := boxes[i];
      stored := cur.Some? && b.entry != b.size;
      if stored {
        Mailbox.PutAppends(b, v);
        StoredInv(s, i, Mailbox.Put(b, v));
        boxes := boxes[i := Mailbox.Put(b, v)];
        CoupledSame(links.next, links.prev, s, State());
        InvCore(State());
        var _ := WakeWaiter(RecvWait(i));
      }
    }

    /** One pass of rt_mb_recv, lines 1287-1431, up to rt_schedule. */
    method MbReceive(i: nat, limit: nat) returns (value: Option<nat>, blocked: bool)
      requires Valid() && Enabled(State(), Receives(i, limit))
      modifies this, links
      ensures Valid() && State() == Next(old(State()), Receives(i, limit))
      ensures value.Some? == (cur.Some? && old(boxes)[i].entry > 0) && blocked == (cur.Some? && value.None? && limit != 0)
      ensures value.Some? ==> Mailbox.Valid(old(boxes)[i]) && Mailbox.Contents(old(boxes)[i]) == [value.value] + Mailbox.Contents(Mailbox.Get(old(boxes)[i]))
    {
      hide Inv, Indexed, Coupled, Core, Block, Best, WakeFirst, Mailbox.Contents;
      ghost var s := State();
      InvShaped(s);
      InvCore(s);
      RecvInv(s, i, limit);
      CurExists(s);
      SemListExists(s, i);
      value, blocked := None, false;
      if cur.Some? {
        var t, b := cur.value, boxes[i];
        if b.entry == 0 {
          if limit != 0 {
            blocked := true;
            Park(RecvWait(i), limit);
          } else if threads[t].woken == Some(RecvWait(i)) {
            SetThread(t, threads[t].(timedOut := true, woken := None));
          }
        } else {
          value := Some(Mailbox.First(b));
          Mailbox.GetTakesFirst(b);
          BoxInv(s, i, Mailbox.Get(b));
          SetThread(t, threads[t].(woken := None));
          ghost var s1 := State();
          boxes := boxes[i := Mailbox.Get(b)];
          CoupledSame(links.next, links.prev, s1, State());
          InvCore(State());
          var _ := WakeWaiter(SendWait(i));
        }
      }
    }

    /** Lines 733-734: the nodes of a new thread are initialised. */
    method NewThread(t: Tid, th: Thread)
      requires Sound() && t !in threads && t !in timers && th.at == None
      modifies `threads, links
      ensures State() == Set(old(State()), t, th) && Sound()
    {
      hide Indexed, Coupled, Ring, OnlyIn;
      ghost var s, next, prev := State(), links.next, links.prev;
      links.Init(ListNode(t));
      CoupledLoose(next, prev, links.next, links.prev, s, ListNode(t));
      next, prev := links.next, links.prev;
      links.Init(TimerNode(t));
      CoupledLoose(next, prev, links.next, links.prev, s, TimerNode(t));
      HeadKept(next, prev, links.next, links.prev, TimerNode(t), ListNode(t));
      CoupledJoin(links.next, links.prev, s, t, th);
      threads := threads[t := th];
    }

    /** thread_join_init, lines 688-760, when its allocations succeed; t is the new thread. */
    method JoinInit(t: Tid, prio: nat, slice: nat, system: bool) returns (ok: bool)
      requires Valid() && Enabled(State(), Joins(t, prio, slice, system))
      modifies this, links
      ensures Valid() && State() == Next(old(State()), Joins(t, prio, slice, system)) && ok == (prio < LEVELS)
    {
      hide Inv, Indexed, Coupled, Core, SetBit;
      ghost var s := State();
      InvShaped(s);
      InvCore(s);
      JoinInv(s, t, prio, slice, system);
      Listed(s, t);
      ok := prio <= LEVELS - 1;
      if ok {
        LevelsExist(s);
        var l := ReadyAt(prio);
        NewThread(t, Thread(READY, prio, None, false, slice, slice, 0, false, 0, system, None, 0));
        ghost var was := lists;
        LinkNode(t, threads[t].(at := Some(l)), l, false);
        IndexedSet(group, was, prio, lists);
        group := SetBit(group, prio);
      }
    }

    /** thread_start, lines 813-825. */
    method StartThreads()
      requires Valid() && Enabled(State(), Starts)
      modifies this, links
      ensures Valid() && State() == Next(old(State()), Starts)
    {
      hide Inv, Indexed, Coupled, Core, Best;
      ghost var s := State();
      InvShaped(s);
      InvCore(s);
      StartInv(s);
      GroupFindsBest(group, lists);
      var to, _ := Highest(None);
      TopReady(s);
      FitsAt(s, to);
      LevelsExist(s);
      cur := Some(to);
      CoupledSame(links.next, links.prev, s, State());
      Removed(State(), to);
      Remove(to);
      SetThread(to, threads[to].(status := RUNNING, runs := threads[to].runs + 1));
    }

    /** idle_thread_entry, lines 774-787: every thread on the dead list is unlinked and freed. */
    method ReapDead()
      requires Valid() && Enabled(State(), Reaps)
      modifies this, links
      ensures Valid() && State() == Next(old(State()), Reaps)
    {
      hide Inv, Indexed, Coupled, Core, NoDup, Without;
      ghost var s := State();
      InvShaped(s);
      InvCore(s);
      ReapInv(s);
      LevelsExist(s);
      ghost var ds := lists[Dead];
      ReapedEnds(s, ds);
      ghost var k: nat := 0;
      ListFirst(links.next, links.prev, s, Dead);
      var pos := links.next[ListHead(Dead)];
      while pos != ListHead(Dead)
        invariant k <= |ds| && Sound() && State() == Reaped(s, ds, k)
        invariant pos == if k == |ds| then ListHead(Dead) else ListNode(ds[k])
        decreases |ds| - k
      {
        var t := pos.t;
        ReapedStep(s, ds, k);
        assert lists[Dead] == ds[k..];
        ListFollow(links.next, links.prev, State(), Dead);
        var following := links.next[pos];
        Unlink(t);
        if threads[t].status == CLOSE {
          Removed(Reaped(s, ds, k), t);
          CoupledForget(links.next, links.prev, State(), t);
          threads := threads - {t};
        }
        pos := following;
        k := k + 1;
      }
    }

    /** thread_init, lines 795-811, with the semaphores and mailboxes the system creates. */
    constructor (values: seq<nat>, pools: seq<seq<nat>>)
      requires forall i | 0 <= i < |values| :: values[i] < VALUES
      requires forall i | 0 <= i < |pools| :: |pools[i]| < 0x1_0000
      ensures Valid() && Initial(State()) && |sems| == |values| && |boxes| == |pools|
    {
      hide Inv, Initial, Coupled, Indexed, EmptyLists, Mailbox.Fresh;
      cur, threads, timers, tick, switches := None, map[], [], 0, 0;
      group := 0;
      sems := FreshSems(values);
      boxes := FreshBoxes(pools);
      lists := EmptyLists(|values|, |pools|);
      links := new Links();
      new;
      StartsEmpty(State(), values, pools);
      IndexedEmpty(lists);
      InitialInv(State());
      InitHeads(links, |values|, |pools|);
      CoupledEmpty(links.next, links.prev, State());
    }
  }

  function FreshSems(values: seq<nat>): (r: seq<Sem>)
    ensures |r| == |values|
  {
    seq(|values|, i requires 0 <= i < |values| => Sem(values[i], values[i], 0, 0, 0))
  }

  function FreshBoxes(pools: seq<seq<nat>>): (r: seq<Mailbox.Box>)
    ensures |r| == |pools|
  {
    seq(|pools|, i requires 0 <= i < |pools| => Mailbox.Fresh(pools[i]))
  }

  lemma StartsEmpty(s: State, values: seq<nat>, pools: seq<seq<nat>>)
    requires forall i | 0 <= i < |values| :: values[i] < VALUES
    requires forall i | 0 <= i < |pools| :: |pools[i]| < 0x1_0000
    requires s == KernelState.State(None, map[], EmptyLists(|values|, |pools|), [], 0, 0, FreshSems(values), FreshBoxes(pools))
    ensures Initial(s) && (forall l | l in s.lists :: s.lists[l] == []) && forall p: nat :: !LevelUsed(s.lists, p)
  {
    forall l
      ensures Known(s, l) ==> l in s.lists
    {
    }
  }

  /** rt_list_init of every list head: lines 797-806, and those of the semaphores and mailboxes. */
  method InitHeads(links: Links<Node>, nsems: nat, nboxes: nat)
    modifies links
    ensures Ring(links.next, links.prev, [TimerHead])
    ensures forall l | l in EmptyLists(nsems, nboxes) :: Ring(links.next, links.prev, [ListHead(l)])
  {
    hide Ring, OnlyIn;
    links.Init(TimerHead);
    InitHead(links, Dead, {});
    ghost var done: set<Queue> := {Dead};
    for i := 0 to LEVELS
      invariant Ring(links.next, links.prev, [TimerHead]) && AllAlone(links.next, links.prev, done)
      invariant Dead in done && forall j | 0 <= j < i :: ReadyAt(j) in done
    {
      InitHead(links, ReadyAt(i), done);
      done := done + {ReadyAt(i)};
    }
    for i := 0 to nsems
      invariant Ring(links.next, links.prev, [TimerHead]) && AllAlone(links.next, links.prev, done)
      invariant Dead in done && (forall j | 0 <= j < LEVELS :: ReadyAt(j) in done) && forall j | 0 <= j < i :: SemWait(j) in done
    {
      InitHead(links, SemWait(i), done);
      done := done + {SemWait(i)};
    }
    for i := 0 to nboxes
      invariant Ring(links.next, links.prev, [TimerHead]) && AllAlone(links.next, links.prev, done)
      invariant Dead in done && (forall j | 0 <= j < LEVELS :: ReadyAt(j) in done) && forall j | 0 <= j < nsems :: SemWait(j) in done
      invariant forall j | 0 <= j < i :: RecvWait(j) in done && SendWait(j) in done
    {
      InitHead(links, RecvWait(i), done);
      InitHead(links, SendWait(i), done + {RecvWait(i)});
      done := done + {RecvWait(i)} + {SendWait(i)};
    }
    forall l | l in EmptyLists(nsems, nboxes)
      ensures l in done
    {
    }
  }

  /** These lists are heads of their own. */
  ghost predicate AllAlone(next: map<Node, Node>, prev: map<Node, Node>, ls: set<Queue>) {
    forall l | l in ls :: Ring(next, prev, [ListHead(l)])
  }

  method InitHead(links: Links<Node>, l: Queue, ghost done: set<Queue>)
    requires Ring(links.next, links.prev, [TimerHead]) && AllAlone(links.next, links.prev, done)
    modifies links
    ensures Ring(links.next, links.prev, [TimerHead]) && AllAlone(links.next, links.prev, done + {l})
  {
    hide Ring, OnlyIn;
    ghost var next, prev := links.next, links.prev;
    links.Init(ListHead(l));
    HeadKept(next, prev, links.next, links.prev, ListHead(l), TimerHead);
    forall k | k in done && k != l
      ensures Ring(links.next, links.prev, [ListHead(k)])
    {
      HeadKept(next, prev, links.next, links.prev, ListHead(l), ListHead(k));
    }
  }

  /** The state with x's timer flag cleared. */
  ghost function Quenched(s: State, x: Option<Tid>): State {
    if x.Some? && x.value in s.threads then Set(s, x.value, s.threads[x.value].(active := false)) else s
  }

  lemma Removed(s: State, t: Tid)
    requires t in s.threads
    ensures
      var r := RemoveThread(s, t);
      t in r.threads && r.threads[t] == s.threads[t].(at := None) && r.lists.Keys == s.lists.Keys && r.timers == s.timers && r.cur == s.cur
  {
    hide Without;
  }

  /** rt_thread_suspend step by step. */
  lemma SuspendSteps(s: State, t: Tid, status: Status)
    requires t in s.threads
    ensures
      var s1 := RemoveThread(s, t);
      && t in s1.threads && s1.threads[t] == s.threads[t].(at := None)
      && var s2 := Set(s1, t, s1.threads[t].(status := status));
         && t in s2.threads && s2.threads[t] == s1.threads[t].(status := status) && s2.timers == s.timers
         && Suspend(s, t, status) == if Runnable(s.threads[t]) then TimerStop(s2, t) else s
  {
    hide Attach, Detach;
  }

  lemma StopKeeps(s: State, t: Tid)
    requires t in s.threads
    ensures
      var r := TimerStop(s, t);
      t in r.threads && r.threads[t] == s.threads[t].(active := false) && r.lists == s.lists
  {
  }

  lemma SuspendKeeps(s: State, t: Tid, status: Status)
    requires t in s.threads && (s.threads[t].status == READY || s.threads[t].status == RUNNING)
    ensures
      var r := Suspend(s, t, status);
      && t in r.threads && r.threads[t] == s.threads[t].(at := None, status := status, active := false) && r.lists.Keys == s.lists.Keys
      && ((s.threads[t].active <==> t in s.timers) ==> t !in r.timers)
  {
    WithoutMember(s.timers, t, t);
    hide Without;
  }

  lemma ResumeKeeps(s: State, t: Tid)
    requires t in s.threads
    ensures t in Resume(s, t).threads
  {
  }

  /** The state after the first k threads of the dead list have been freed. */
  ghost function Reaped(s: State, ds: seq<Tid>, k: nat): State
    requires k <= |ds|
  {
    s.(lists := s.lists[Dead := ds[k..]], threads := map t | t in s.threads && t !in ds[..k] :: s.threads[t])
  }

  lemma ReapedEnds(s: State, ds: seq<Tid>)
    requires Dead in s.lists && ds == s.lists[Dead]
    ensures Reaped(s, ds, 0) == s && Reaped(s, ds, |ds|) == Reap(s)
  {
    assert ds[0..] == ds && ds[..0] == [] && ds[|ds|..] == [] && ds[..|ds|] == ds;
    assert Reaped(s, ds, 0).lists == s.lists;
    assert Reaped(s, ds, 0).threads == s.threads;
    assert Reaped(s, ds, |ds|).threads == Reap(s).threads;
  }

  lemma ReapedStep(s: State, ds: seq<Tid>, k: nat)
    requires Core(s) && Dead in s.lists && ds == s.lists[Dead] && k < |ds|
    ensures
      var r, t := Reaped(s, ds, k), ds[k];
      && t in r.threads && r.threads[t].at == Some(Dead) && r.threads[t].status == CLOSE
      && var u := RemoveThread(r, t);
         t in u.threads && u.threads[t].status == CLOSE && u.(threads := u.threads - {t}) == Reaped(s, ds, k + 1)
  {
    hide Core, Without;
    DeadOnce(s, ds, k);
    var r, t := Reaped(s, ds, k), ds[k];
    var u, n := RemoveThread(r, t), Reaped(s, ds, k + 1);
    assert ds[..k + 1] == ds[..k] + [t];
    assert u.lists == n.lists;
    assert u.threads - {t} == n.threads;
  }

  /** The k-th dead thread is closed, still there when its turn comes, and leaves the head of the list. */
  lemma DeadOnce(s: State, ds: seq<Tid>, k: nat)
    requires Core(s) && Dead in s.lists && ds == s.lists[Dead] && k < |ds|
    ensures ds[k] in s.threads && s.threads[ds[k]].at == Some(Dead) && s.threads[ds[k]].status == CLOSE
    ensures ds[k] !in ds[..k] && Without(ds[k..], ds[k]) == ds[k + 1..]
  {
    var t := ds[k];
    assert Agrees(s, Dead, t) && Placed(s, t);
    assert NoDup(ds[k..]);
    WithoutHead(ds[k..]);
  }

  lemma QuietCur(s: State, s': State)
    requires Quiet(s, s')
    ensures s'.cur.Some? == s.cur.Some?
  {
  }

  lemma CurOwnLevel(s: State, x: Option<Tid>, t: Tid)
    requires Core(Quenched(s, x)) && s.cur.Some?
    ensures s.cur.value in s.threads
    ensures t in s.threads ==>
              && s.threads[t].prio < LEVELS && ReadyAt(s.threads[t].prio) in s.lists
              && (s.threads[t].at.Some? ==> s.threads[t].at.value in s.lists)
              && (s.threads[t].at.Some? && s.threads[t].at.value.ReadyAt? ==> s.threads[t].at == Some(ReadyAt(s.threads[t].prio)))
              && (s.threads[t].status == RUNNING ==> s.threads[t].at == None)
    ensures GoesBack(s.threads[s.cur.value].status) ==> s.threads[s.cur.value].status == RUNNING
  {
    hide Linked;
    var q := Quenched(s, x);
    if t in s.threads {
      FitsAt(q, t);
      assert Known(q, ReadyAt(s.threads[t].prio));
    }
    FitsAt(q, s.cur.value);
  }

  /** Inserting one thread leaves the other where it is. */
  lemma InsertKeeps(s: State, t: Tid, x: Tid)
    requires t in s.threads && x in s.threads && t != x
    ensures
      var r := InsertThread(s, t);
      x in r.threads && r.threads[x] == s.threads[x] && r.lists.Keys == s.lists.Keys
  {
    hide Without;
  }

  /** After a time-out the state is in order but for the timer flag. */
  lemma TimedOutReady(s: State, t: Tid)
    requires Core(s) && Due(s, t)
    ensures
      var s0 := s.(timers := Without(s.timers, t));
      Core(Quenched(InsertThread(RemoveThread(Set(s0, t, s0.threads[t].(timedOut := true)), t), t), Some(t)))
  {
    hide Core, Move, InsertThread, RemoveThread;
    TimedOutIsMove(s, t);
    TimedOutCore(s, t);
    StillThere(Set(s.(timers := Without(s.timers, t)), t, s.threads[t].(timedOut := true)), t);
  }

  lemma ScheduleKeeps(s: State, t: Tid)
    requires t in s.threads
    ensures t in Schedule(s).threads
  {
    ScheduleIgnoresTimer(s, t);
  }

  lemma StillUsed(lists: map<Queue, seq<Tid>>, at: Option<Queue>, t: Tid, p: nat)
    requires ReadyAt(p) in lists && ReadyAt(p) in Detach(lists, at, t) && Detach(lists, at, t)[ReadyAt(p)] != []
    ensures lists[ReadyAt(p)] != []
  {
  }

  lemma CurExists(s: State)
    requires Core(s)
    ensures s.cur.Some? ==> Started(s)
  {
  }

  lemma LevelsExist(s: State)
    requires Core(s)
    ensures Dead in s.lists && forall p | 0 <= p < LEVELS :: ReadyAt(p) in s.lists
  {
    assert Known(s, Dead);
    forall p | 0 <= p < LEVELS
      ensures ReadyAt(p) in s.lists
    {
      assert Known(s, ReadyAt(p));
    }
  }

  /** A timer is listed when its flag is set. */
  lemma Listed(s: State, t: Tid)
    requires Core(s)
    ensures t in s.timers <==> t in s.threads && s.threads[t].active
  {
    assert TimerAgrees(s, t);
  }

  lemma ListedThread(s: State, t: Tid)
    requires Core(s) && t in s.timers
    ensures t in s.threads && s.threads[t].active
  {
    Listed(s, t);
  }

  lemma RingOf(next: map<Node, Node>, prev: map<Node, Node>, s: State, l: Queue)
    requires Coupled(next, prev, s) && l in s.lists
    ensures Ring(next, prev, ListRing(l, s.lists[l])) && ListRing(l, s.lists[l])[0] == ListHead(l)
    ensures ListRing(l, s.lists[l]) == [ListHead(l)] <==> s.lists[l] == []
  {
    hide Ring;
    assert ListIn(next, prev, s, l);
    assert |ListRing(l, s.lists[l])| == |s.lists[l]| + 1;
  }

  /** After t left its list its own level is empty or not, and no other level changed. */
  lemma LevelKept(s: State, t: Tid, prio: nat)
    requires t in s.threads && ReadyAt(prio) in s.lists
    requires s.threads[t].at.Some? && s.threads[t].at.value.ReadyAt? ==> s.threads[t].at == Some(ReadyAt(prio))
    ensures
      var r := RemoveThread(s, t);
      && ReadyAt(prio) in r.lists
      && forall q: nat | q != prio :: LevelUsed(r.lists, q) == LevelUsed(s.lists, q)
  {
    hide Without;
  }

  lemma TimerFirst(next: map<Node, Node>, prev: map<Node, Node>, s: State)
    requires Coupled(next, prev, s)
    ensures TimerHead in next && next[TimerHead] == if s.timers == [] then TimerHead else TimerNode(s.timers[0])
  {
    hide Ring, Linked, NoDup;
    Follow(next, prev, TimerRing(s.timers), 0);
  }

  /** The timer entry behind the i-th one. */
  lemma TimerFollow(next: map<Node, Node>, prev: map<Node, Node>, s: State, i: nat)
    requires Coupled(next, prev, s) && i < |s.timers|
    ensures
      var n := TimerNode(s.timers[i]);
      n in next && next[n] == if i + 1 == |s.timers| then TimerHead else TimerNode(s.timers[i + 1])
  {
    hide Ring, Linked, NoDup;
    Follow(next, prev, TimerRing(s.timers), i + 1);
  }

  lemma TimersSplit(s: State, a: seq<Tid>, b: seq<Tid>)
    requires Core(s) && s.timers == a + b && b != []
    ensures Without(s.timers, b[0]) == a + b[1..] && s.timers == a + [b[0]] + b[1..]
  {
    assert s.timers[|a|] == b[0];
    WithoutAt(s.timers, |a|);
    assert s.timers[..|a|] == a && s.timers[|a| + 1..] == b[1..];
  }

  lemma ListFirst(next: map<Node, Node>, prev: map<Node, Node>, s: State, l: Queue)
    requires Coupled(next, prev, s) && l in s.lists
    ensures ListHead(l) in next && next[ListHead(l)] == if s.lists[l] == [] then ListHead(l) else ListNode(s.lists[l][0])
  {
    hide Ring, Linked, NoDup;
    assert ListIn(next, prev, s, l);
    Follow(next, prev, ListRing(l, s.lists[l]), 0);
  }

  /** The entry behind the first one. */
  lemma ListFollow(next: map<Node, Node>, prev: map<Node, Node>, s: State, l: Queue)
    requires Coupled(next, prev, s) && l in s.lists && s.lists[l] != []
    ensures
      var q := s.lists[l];
      ListNode(q[0]) in next && next[ListNode(q[0])] == if |q| == 1 then ListHead(l) else ListNode(q[1])
  {
    hide Ring, Linked, NoDup;
    assert ListIn(next, prev, s, l);
    Follow(next, prev, ListRing(l, s.lists[l]), 1);
  }
}
