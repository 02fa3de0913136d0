/** A run from the initial state in which killing a thread between wake-up and retry loses a wake-up. */
module KernelWitness {
  import opened Base
  import opened KernelState
  import opened KernelInvariant
  import opened KernelSteps
  import opened KernelTick
  import opened KernelRuns
  import opened KernelMail
  import Mailbox

  // ---------------------------------------------------------------------------
  // One mailbox with one slot; threads of levels 0 and 1.

  /** The lists, with these threads in the two best levels and waiting to receive. */
  function Lists(q0: seq<Tid>, q1: seq<Tid>, r: seq<Tid>): map<Queue, seq<Tid>> {
    EmptyLists(0, 1)[ReadyAt(0) := q0][ReadyAt(1) := q1][RecvWait(0) := r]
  }

  lemma ListsAt(q0: seq<Tid>, q1: seq<Tid>, r: seq<Tid>, x: seq<Tid>)
    ensures
      var m := Lists(q0, q1, r);
      && ReadyAt(0) in m && ReadyAt(1) in m && RecvWait(0) in m && SendWait(0) in m && Dead in m
      && m[ReadyAt(0)] == q0 && m[ReadyAt(1)] == q1 && m[RecvWait(0)] == r && m[SendWait(0)] == []
      && m[ReadyAt(0) := x] == Lists(x, q1, r) && m[ReadyAt(1) := x] == Lists(q0, x, r) && m[RecvWait(0) := x] == Lists(q0, q1, x)
  {
    var m := Lists(q0, q1, r);
    assert m[ReadyAt(0) := x] == Lists(x, q1, r);
    assert m[ReadyAt(1) := x] == Lists(q0, x, r);
    assert m[RecvWait(0) := x] == Lists(q0, q1, x);
  }

  lemma ListsBest(q0: seq<Tid>, q1: seq<Tid>, r: seq<Tid>)
    requires q0 != [] || q1 != []
    ensures Best(Lists(q0, q1, r), 0) == if q0 != [] then 0 else 1
  {
    hide Lists;
    ListsAt(q0, q1, r, []);
    assert Best(Lists(q0, q1, r), 1) == 1 || q1 == [];
  }

  /** The shell, of level 1 and not to be killed. */
  function Shell(status: Status, runs: nat): Thread {
    Thread(status, 1, if status == READY then Some(ReadyAt(1)) else None, false, 5, 5, 0, false, 0, true, None, runs)
  }

  /** A receiver of level 0 with a slice of one tick. */
  function Receiver(status: Status, runs: nat): Thread {
    Thread(status, 0, if status == READY then Some(ReadyAt(0)) else None, false, 1, 1, 0, false, 0, false, None, runs)
  }

  function ParkedReceiver(): Thread {
    Receiver(SUSPEND, 1).(at := Some(RecvWait(0)), timed := 100, active := true, deadline := 100)
  }

  /** Receiver 1 after it was woken, in a level or running. */
  function WokenReceiver(status: Status, runs: nat): Thread {
    Receiver(status, runs).(timed := 100, deadline := 100, woken := Some(RecvWait(0)))
  }

  function EmptyBox(): Mailbox.Box {
    Mailbox.Fresh([0])
  }

  function FullBox(): Mailbox.Box {
    Mailbox.Box(1, [7], 1, 0, 0, [7], [])
  }

  /** The states of the run. */
  function At(k: nat): State {
    if k == 0 then State(None, map[], Lists([], [], []), [], 0, 0, [], [EmptyBox()])
    else if k == 1 then State(None, map[0 := Shell(READY, 0)], Lists([], [0], []), [], 0, 0, [], [EmptyBox()])
    else if k == 2 then State(None, map[0 := Shell(READY, 0), 1 := Receiver(READY, 0)], Lists([1], [0], []), [], 0, 0, [], [EmptyBox()])
    else if k == 3 then
      State(None, map[0 := Shell(READY, 0), 1 := Receiver(READY, 0), 2 := Receiver(READY, 0)], Lists([1, 2], [0], []), [], 0, 0, [], [EmptyBox()])
    else if k == 4 then
      State(Some(1), map[0 := Shell(READY, 0), 1 := Receiver(RUNNING, 1), 2 := Receiver(READY, 0)], Lists([2], [0], []), [], 0, 0, [], [EmptyBox()])
    else if k == 5 then
      State(Some(1), map[0 := Shell(READY, 0), 1 := ParkedReceiver(), 2 := Receiver(READY, 0)], Lists([2], [0], [1]), [1], 0, 0, [], [EmptyBox()])
    else if k == 6 then
      State(Some(2), map[0 := Shell(READY, 0), 1 := ParkedReceiver(), 2 := Receiver(RUNNING, 1)], Lists([], [0], [1]), [1], 0, 1, [], [EmptyBox()])
    else if k == 7 then
      State(Some(2), map[0 := Shell(READY, 0), 1 := ParkedReceiver(), 2 := ParkedReceiver()], Lists([], [0], [1, 2]), [2, 1], 0, 1, [], [EmptyBox()])
    else if k == 8 then
      State(Some(0), map[0 := Shell(RUNNING, 1), 1 := ParkedReceiver(), 2 := ParkedReceiver()], Lists([], [], [1, 2]), [2, 1], 0, 2, [], [EmptyBox()])
    else if k == 9 then
      State(Some(0), map[0 := Shell(RUNNING, 1), 1 := WokenReceiver(READY, 1), 2 := ParkedReceiver()], Lists([1], [], [2]), [2], 0, 2, [], [FullBox()])
    else if k == 10 then
      State(Some(1), map[0 := Shell(READY, 1), 1 := WokenReceiver(RUNNING, 2), 2 := ParkedReceiver()], Lists([], [0], [2]), [2], 0, 3, [], [FullBox()])
    else
      State(Some(0), map[0 := Shell(RUNNING, 2), 1 := WokenReceiver(READY, 2), 2 := ParkedReceiver()], Lists([1], [], [2]), [2], 1, 4, [], [FullBox()])
  }

  /**
   Shell and receivers start; both receivers park; the shell sends a message, which wakes receiver 1;
   receiver 1 is preempted before it retries; the shell kills it.
   */
  const EVENTS: seq<Event> := [
    Joins(0, 1, 5, true), Joins(1, 0, 1, false), Joins(2, 0, 1, false), Starts,
    Receives(0, 100), Schedules, Receives(0, 100), Schedules, Sends(0, 7, 0), Schedules, Ticks, Kills(1)
  ]

  /** State k, event k, state k + 1. */
  predicate Leads(k: nat)
    requires k < 11
  {
    Enabled(At(k), EVENTS[k]) && Shapes(At(k)) && Next(At(k), EVENTS[k]) == At(k + 1)
  }

  lemma BoxesShaped(k: nat)
    ensures Shapes(At(k))
  {
  }

  lemma JoinLists(q0: seq<Tid>, q1: seq<Tid>, r: seq<Tid>, t: Tid)
    ensures
      var m := Lists(q0, q1, r);
      && Attach(m, Some(ReadyAt(0)), t, false) == Lists(q0 + [t], q1, r)
      && Attach(m, Some(ReadyAt(1)), t, false) == Lists(q0, q1 + [t], r)
      && Attach(m, Some(RecvWait(0)), t, false) == Lists(q0, q1, r + [t])
  {
    hide Lists;
    ListsAt(q0, q1, r, q0 + [t]);
    ListsAt(q0, q1, r, q1 + [t]);
    ListsAt(q0, q1, r, r + [t]);
  }

  lemma LeaveLists(q0: seq<Tid>, q1: seq<Tid>, r: seq<Tid>, t: Tid)
    ensures
      var m := Lists(q0, q1, r);
      && Detach(m, Some(ReadyAt(0)), t) == Lists(Without(q0, t), q1, r)
      && Detach(m, Some(ReadyAt(1)), t) == Lists(q0, Without(q1, t), r)
      && Detach(m, Some(RecvWait(0)), t) == Lists(q0, q1, Without(r, t))
      && Detach(m, None, t) == m && Attach(m, None, t, false) == m
  {
    hide Lists;
    ListsAt(q0, q1, r, Without(q0, t));
    ListsAt(q0, q1, r, Without(q1, t));
    ListsAt(q0, q1, r, Without(r, t));
  }

  lemma Joining0()
    ensures Leads(0)
  {
    hide Lists, Best, Attach, Detach;
    BoxesShaped(0);
    JoinLists([], [], [], 0);
    LeaveLists([], [], [], 0);
    assert [] + [0] == [0];
    assert Next(At(0), EVENTS[0]).threads == At(1).threads;
  }

  lemma Joining1()
    ensures Leads(1)
  {
    hide Lists, Best, Attach, Detach;
    BoxesShaped(1);
    JoinLists([], [0], [], 1);
    LeaveLists([], [0], [], 1);
    assert [] + [1] == [1];
    assert Next(At(1), EVENTS[1]).threads == At(2).threads;
  }

  lemma Joining2()
    ensures Leads(2)
  {
    hide Lists, Best, Attach, Detach;
    BoxesShaped(2);
    JoinLists([1], [0], [], 2);
    LeaveLists([1], [0], [], 2);
    assert [1] + [2] == [1, 2];
    assert Next(At(2), EVENTS[2]).threads == At(3).threads;
  }

  lemma TopIs(s: State, q0: seq<Tid>, q1: seq<Tid>, r: seq<Tid>)
    requires s.lists == Lists(q0, q1, r) && (q0 != [] || q1 != [])
    ensures AnyReady(s) && Top(s) == if q0 != [] then q0[0] else q1[0]
  {
    hide Lists;
    ListsBest(q0, q1, r);
    ListsAt(q0, q1, r, []);
  }

  lemma Starting()
    ensures Leads(3)
  {
    hide Lists, Best, Attach, Detach, Top;
    BoxesShaped(3);
    TopIs(At(3), [1, 2], [0], []);
    LeaveLists([1, 2], [0], [], 1);
    LeaveLists([2], [0], [], 1);
    assert Without([1, 2], 1) == [2];
    assert Next(At(3), EVENTS[3]).threads == At(4).threads;
  }

  lemma Parking1()
    ensures Leads(4)
  {
    hide Lists, Best, Attach, Detach, Top;
    BoxesShaped(4);
    TopIs(At(4), [2], [0], []);
    LeaveLists([2], [0], [], 1);
    JoinLists([2], [0], [], 1);
    assert [] + [1] == [1];
    assert Next(At(4), EVENTS[4]).threads == At(5).threads;
  }

  lemma Switching5()
    ensures Leads(5)
  {
    hide Lists, Best, Attach, Detach, Top, Schedule;
    BoxesShaped(5);
    TopIs(At(5), [2], [0], [1]);
    LeaveLists([2], [0], [1], 2);
    LeaveLists([], [0], [1], 2);
    assert Without([2], 2) == [];
    ScheduleThreads(At(5));
    ScheduleLists(At(5));
    assert Next(At(5), EVENTS[5]).threads == At(6).threads;
  }

  lemma Parking2()
    ensures Leads(6)
  {
    hide Lists, Best, Attach, Detach, Top;
    BoxesShaped(6);
    TopIs(At(6), [], [0], [1]);
    LeaveLists([], [0], [1], 2);
    JoinLists([], [0], [1], 2);
    assert [1] + [2] == [1, 2] && [2] + [1] == [2, 1];
    assert Next(At(6), EVENTS[6]).threads == At(7).threads;
  }

  lemma Switching7()
    ensures Leads(7)
  {
    hide Lists, Best, Attach, Detach, Top, Schedule;
    BoxesShaped(7);
    TopIs(At(7), [], [0], [1, 2]);
    LeaveLists([], [0], [1, 2], 0);
    LeaveLists([], [], [1, 2], 0);
    assert Without([0], 0) == [];
    ScheduleThreads(At(7));
    ScheduleLists(At(7));
    assert Next(At(7), EVENTS[7]).threads == At(8).threads;
  }

  /** The message is in and the shell carries no mark. */
  function Stored(): State {
    At(8).(boxes := [FullBox()])
  }

  lemma SendWakes()
    ensures WakeFirst(Stored(), RecvWait(0)) == At(9)
  {
    hide Lists, Best, Attach, Detach;
    ListsAt([], [], [1, 2], []);
    LeaveLists([], [], [1, 2], 1);
    LeaveLists([], [], [2], 1);
    JoinLists([], [], [2], 1);
    assert [] + [1] == [1] && Without([1, 2], 1) == [2] && Without([2, 1], 1) == [2];
    assert WakeFirst(Stored(), RecvWait(0)).threads == At(9).threads;
  }

  lemma Sending()
    ensures Leads(8)
  {
    hide Lists, Best, WakeFirst;
    BoxesShaped(8);
    SendWakes();
    assert [0][0 := 7] == [7] && [] + [7] == [7];
    assert Mailbox.Put(EmptyBox(), 7) == FullBox();
    assert Set(At(8), 0, Cur(At(8)).(woken := None)).threads == At(8).threads;
    assert At(8).boxes[0 := FullBox()] == [FullBox()];
  }

  lemma Switching9()
    ensures Leads(9)
  {
    hide Lists, Best, Attach, Detach, Top, Schedule;
    BoxesShaped(9);
    TopIs(At(9), [1], [], [2]);
    LeaveLists([1], [], [2], 0);
    JoinLists([1], [], [2], 0);
    LeaveLists([1], [0], [2], 1);
    LeaveLists([], [0], [2], 1);
    assert Without([1], 1) == [] && [] + [0] == [0];
    ScheduleThreads(At(9));
    ScheduleLists(At(9));
    assert Next(At(9), EVENTS[9]).threads == At(10).threads;
  }

  lemma TickSwitches()
    ensures Schedule(Ticked(At(10))) == At(11)
  {
    hide Lists, Best, Attach, Detach, Top, Schedule;
    var m := Ticked(At(10));
    TopIs(m, [], [0], [2]);
    LeaveLists([], [0], [2], 1);
    JoinLists([], [0], [2], 1);
    LeaveLists([1], [0], [2], 0);
    assert Without([0], 0) == [] && [] + [1] == [1];
    ScheduleThreads(m);
    ScheduleLists(m);
    assert Schedule(m).threads == At(11).threads;
  }

  lemma TickSlice()
    ensures Slice(Ticked(At(10))) == Schedule(Ticked(At(10)))
  {
    hide Lists, Schedule;
    var m := Ticked(At(10));
    assert Set(m, 1, m.threads[1].(remaining := 1)).threads == m.threads;
  }

  lemma Ticking()
    ensures Leads(10)
  {
    hide Lists, Best, Slice, TimerCheck;
    BoxesShaped(10);
    TickSlice();
    TickSwitches();
    NothingDue();
    assert Next(At(10), EVENTS[10]) == Tick(At(10));
  }

  lemma NothingDue()
    ensures TimerCheck(At(11), At(11).timers) == At(11)
  {
    assert !Due(At(11), 2) && At(11).timers[1..] == [];
  }

  lemma EachLeads(k: nat)
    requires k < 11
    ensures Leads(k)
  {
    hide Leads;
    if k == 0 {
      Joining0();
    } else if k == 1 {
      Joining1();
    } else if k == 2 {
      Joining2();
    } else if k == 3 {
      Starting();
    } else if k == 4 {
      Parking1();
    } else if k == 5 {
      Switching5();
    } else if k == 6 {
      Parking2();
    } else if k == 7 {
      Switching7();
    } else if k == 8 {
      Sending();
    } else if k == 9 {
      Switching9();
    } else {
      Ticking();
    }
  }

  /** Killing receiver 1 in the last state is possible, and receiver 1 is the only one on its way. */
  lemma LastKill()
    ensures Enabled(At(11), EVENTS[11]) && Shapes(At(11)) && Woken(At(11), RecvWait(0)) == {1}
    ensures LosesWakeUp(At(11), EVENTS[11], 0)
  {
    hide Lists;
    BoxesShaped(11);
    ListsAt([1], [], [2], []);
    var w := Woken(At(11), RecvWait(0));
    forall x
      ensures x in w <==> x in {1}
    {
    }
    assert w == {1};
  }

  lemma StartsInitial()
    ensures Initial(At(0))
  {
    forall l | Known(At(0), l)
      ensures l in At(0).lists
    {
    }
  }

  /** The eleven steps and the kill. */
  function States(): seq<State>
    requires Shapes(At(11))
  {
    seq(12, k requires 0 <= k => At(k)) + [Next(At(11), EVENTS[11])]
  }

  /**
   A run from the initial state, with nothing but the kill in it that could lose a wake-up, after
   which a receiver is parked although a message is there and nobody is on its way to fetch it.
   */
  lemma KillLosesWakeUp()
    ensures Shapes(At(11)) && Run(States(), EVENTS) && Initial(States()[0])
    ensures forall k | 0 <= k < 12 :: NoLostWakeUp(States()[k], 0)
    ensures !NoLostWakeUp(States()[12], 0)
  {
    hide Initial, Next, Enabled, Shapes, At, NoLostWakeUp, LosesWakeUp, Inv;
    LastKill();
    StartsInitial();
    var ss := States();
    forall i: nat
      ensures StepAt(ss, EVENTS, i)
    {
      if i < 11 {
        EachLeads(i);
      }
    }
    InitialInv(ss[0]);
    forall k | 0 <= k < 12
      ensures NoLostWakeUp(ss[k], 0)
    {
      forall j | 0 <= j < k
        ensures !LosesWakeUp(ss[j], EVENTS[j], 0)
      {
        OnlyKills(ss[j], EVENTS[j], 0);
      }
      NoLostWakeUpRun(ss, EVENTS, k, 0);
    }
    RunInv(ss, EVENTS, 11);
    NoLostWakeUpStep(ss[11], EVENTS[11], 0);
  }

  lemma OnlyKills(s: State, e: Event, i: nat)
    ensures !e.Kills? ==> !LosesWakeUp(s, e, i)
  {
  }
}
