/**
 The thread kernel of os/thread.c as a transition system. Its steps are the sections the code runs
 with interrupts disabled, and the tick interrupt of lib/ls1c_sys_tick.c. A call that blocks is one
 step up to its rt_schedule(), which is a step of its own; so is each pass of a retry loop.
 */
module KernelState {
  import opened Base
  import Mailbox
  import Words

  const LEVELS := 32             // RT_THREAD_PRIORITY_MAX
  const WRAP := Words.TWO32      // ticks are 32-bit
  const VALUES := Words.TWO16    // semaphore values are 16-bit

  type Tid = nat

  /** The lists a thread's tlist node can be linked in. */
  datatype Queue = ReadyAt(prio: nat) | Dead | SemWait(i: nat) | RecvWait(i: nat) | SendWait(i: nat)

  datatype Status = READY | RUNNING | SUSPEND | SLEEP | CLOSE

  /**
   struct rt_thread. `at` is the list its tlist node is linked in, None when the node points to
   itself. `woken` and `runs` are records the code does not keep: the mailbox list it was woken from
   and has not yet retried on, and how often it was handed the processor.
   */
  datatype Thread = Thread(status: Status, prio: nat, at: Option<Queue>, timedOut: bool,
                           remaining: nat, slice: nat, timed: nat, active: bool, deadline: nat,
                           system: bool, woken: Option<Queue>, runs: nat)

  /** A semaphore, with counts of its successful takes, its releases, and how often value wrapped. */
  datatype Sem = Sem(value: nat, initial: nat, takes: nat, releases: nat, wraps: nat)

  /** `switches` counts the hand-overs of rt_schedule. */
  datatype State = State(cur: Option<Tid>, threads: map<Tid, Thread>, lists: map<Queue, seq<Tid>>,
                         timers: seq<Tid>, tick: nat, switches: nat, sems: seq<Sem>, boxes: seq<Mailbox.Box>)

  // ---------------------------------------------------------------------------
  // Lists.

  /** q with t taken out. */
  function Without(q: seq<Tid>, t: Tid): seq<Tid> {
    if q == [] then [] else (if q[0] == t then [] else [q[0]]) + Without(q[1..], t)
  }

  function Detach(lists: map<Queue, seq<Tid>>, at: Option<Queue>, t: Tid): map<Queue, seq<Tid>> {
    if at.Some? && at.value in lists then lists[at.value := Without(lists[at.value], t)] else lists
  }

  function Attach(lists: map<Queue, seq<Tid>>, at: Option<Queue>, t: Tid, front: bool): map<Queue, seq<Tid>> {
    if at.Some? && at.value in lists
    then lists[at.value := if front then [t] + lists[at.value] else lists[at.value] + [t]]
    else lists
  }

  /** One empty list for each level, the dead list, and those of the semaphores and mailboxes. */
  function EmptyLists(nsems: nat, nboxes: nat): map<Queue, seq<Tid>> {
    (map p | 0 <= p < LEVELS :: ReadyAt(p) := [])
    + map[Dead := []]
    + (map i | 0 <= i < nsems :: SemWait(i) := [])
    + (map i | 0 <= i < nboxes :: RecvWait(i) := [])
    + (map i | 0 <= i < nboxes :: SendWait(i) := [])
  }

  function Queued(s: State, l: Queue): seq<Tid> {
    if l in s.lists then s.lists[l] else []
  }

  /** Thread t becomes th: its node leaves the list it was in and is linked where th says. */
  function Put(s: State, t: Tid, th: Thread, front: bool): State
    requires t in s.threads
  {
    s.(lists := Attach(Detach(s.lists, s.threads[t].at, t), th.at, t, front), threads := s.threads[t := th])
  }

  /** Fields of thread t other than its node change. */
  function Set(s: State, t: Tid, th: Thread): State {
    s.(threads := s.threads[t := th])
  }

  // ---------------------------------------------------------------------------
  // Ready lists and the scheduler.

  /** rt_schedule_insert_thread, lines 345-367. */
  function InsertThread(s: State, t: Tid): State
    requires t in s.threads
  {
    if s.cur == Some(t) then Set(s, t, s.threads[t].(status := RUNNING))
    else Put(s, t, s.threads[t].(status := READY, at := Some(ReadyAt(s.threads[t].prio))), false)
  }

  /** rt_schedule_remove_thread, lines 369-381, and rt_list_remove of the node. */
  function RemoveThread(s: State, t: Tid): State
    requires t in s.threads
  {
    Put(s, t, s.threads[t].(at := None), false)
  }

  /** The smallest level from p on with a ready thread, LEVELS when there is none. */
  function Best(lists: map<Queue, seq<Tid>>, p: nat): nat
    requires p <= LEVELS
    decreases LEVELS - p
  {
    if p == LEVELS then LEVELS
    else if ReadyAt(p) in lists && lists[ReadyAt(p)] != [] then p
    else Best(lists, p + 1)
  }

  predicate AnyReady(s: State) {
    Best(s.lists, 0) < LEVELS
  }

  lemma {:induction false} BestIsFirst(lists: map<Queue, seq<Tid>>, p: nat)
    requires p <= LEVELS
    ensures p <= Best(lists, p) <= LEVELS
    ensures Best(lists, p) < LEVELS ==> ReadyAt(Best(lists, p)) in lists && lists[ReadyAt(Best(lists, p))] != []
    ensures forall q | p <= q < Best(lists, p) && ReadyAt(q) in lists :: lists[ReadyAt(q)] == []
    decreases LEVELS - p
  {
    if p < LEVELS && !(ReadyAt(p) in lists && lists[ReadyAt(p)] != []) {
      BestIsFirst(lists, p + 1);
    }
  }

  /** The thread rt_schedule picks: the head of the smallest non-empty level. */
  function Top(s: State): Tid
    requires AnyReady(s)
  {
    BestIsFirst(s.lists, 0);
    s.lists[ReadyAt(Best(s.lists, 0))][0]
  }

  /** The current thread exists. */
  predicate Started(s: State) {
    s.cur.Some? && s.cur.value in s.threads
  }

  function Cur(s: State): Thread
    requires Started(s)
  {
    s.threads[s.cur.value]
  }

  /** There is a ready thread other than the current one. */
  predicate CanSwitch(s: State) {
    Started(s) && AnyReady(s) && Top(s) in s.threads && Top(s) != s.cur.value
  }

  /** The current thread goes back to its ready list unless it sleeps, waits or is closed. */
  predicate GoesBack(st: Status) {
    st != CLOSE && st != SLEEP && st != SUSPEND
  }

  /** Lines 508-516: thread `to` takes over from the current one. */
  function HandedOver(s: State, to: Tid): State
    requires Started(s) && to in s.threads
  {
    var th, from := s.threads[to], s.cur.value;
    var s1 := Set(s, to, th.(status := RUNNING, runs := th.runs + 1)).(cur := Some(to), switches := s.switches + 1);
    var s2 := if GoesBack(s.threads[from].status) then InsertThread(s1, from) else s1;
    RemoveThread(s2, to)
  }

  /** rt_schedule, lines 481-553. */
  function Schedule(s: State): State {
    if !CanSwitch(s) then s else HandedOver(s, Top(s))
  }

  /** thread_start, lines 813-825. */
  function Start(s: State): State {
    if s.cur.Some? || !AnyReady(s) || Top(s) !in s.threads then s
    else
      var to := Top(s);
      var s1 := RemoveThread(s.(cur := Some(to)), to);
      Set(s1, to, s1.threads[to].(status := RUNNING, runs := s1.threads[to].runs + 1))
  }

  /** thread_join_init, lines 688-760, when its allocations succeed. */
  function Join(s: State, t: Tid, prio: nat, slice: nat, system: bool): State
    requires t !in s.threads
  {
    if prio > LEVELS - 1 then s
    else
      var th := Thread(READY, prio, None, false, slice, slice, 0, false, 0, system, None, 0);
      var s1 := Set(s, t, th);
      Put(s1, t, th.(at := Some(ReadyAt(prio))), false)
  }

  // ---------------------------------------------------------------------------
  // Timers.

  /** rt_timer_stop, lines 280-305. */
  function TimerStop(s: State, t: Tid): State
    requires t in s.threads
  {
    if !s.threads[t].active then s
    else Set(s, t, s.threads[t].(active := false)).(timers := Without(s.timers, t))
  }

  /** rt_timer_start, lines 412-422. */
  function TimerStart(s: State, t: Tid): State
    requires t in s.threads
  {
    Set(s, t, s.threads[t].(active := true, deadline := (s.tick + s.threads[t].timed) % WRAP)).(timers := [t] + s.timers)
  }

  /** rt_thread_timeout, lines 426-448. */
  function Timeout(s: State, t: Tid): State
    requires t in s.threads
  {
    var s1 := RemoveThread(Set(s, t, s.threads[t].(timedOut := true)), t);
    Schedule(InsertThread(s1, t))
  }

  /** The timer of t is due (line 464). */
  predicate Due(s: State, t: Tid) {
    t in s.threads && s.threads[t].active && s.tick > s.threads[t].deadline
  }

  /** Lines 464-469, for a timer that is due. */
  function Fire(s: State, t: Tid): State
    requires t in s.threads
  {
    var s1 := Timeout(s.(timers := Without(s.timers, t)), t);
    if t in s1.threads then Set(s1, t, s1.threads[t].(active := false)) else s1
  }

  /** The loop of rt_timer_check, lines 461-470, over the timers ts. */
  function TimerCheck(s: State, ts: seq<Tid>): State
    decreases |ts|
  {
    if ts == [] then s else TimerCheck(if Due(s, ts[0]) then Fire(s, ts[0]) else s, ts[1..])
  }

  /** Lines 75-80: the running thread's slice shrinks by one tick. */
  function Slice(s: State): State {
    if !Started(s) then s
    else
      var left := (Cur(s).remaining + WRAP - 1) % WRAP;
      if left == 0 then Schedule(Set(s, s.cur.value, Cur(s).(remaining := Cur(s).slice)))
      else Set(s, s.cur.value, Cur(s).(remaining := left))
  }

  /** sys_tick_handler, lib/ls1c_sys_tick.c lines 64-87. */
  function Tick(s: State): State {
    var s1 := s.(tick := (s.tick + 1) % WRAP);
    if s.cur.None? then s1 else
      var s2 := Slice(s1);
      TimerCheck(s2, s2.timers)
  }

  // ---------------------------------------------------------------------------
  // Thread operations.

  /** rt_thread_suspend, lines 588-609. */
  function Suspend(s: State, t: Tid, status: Status): State
    requires t in s.threads
  {
    if s.threads[t].status != READY && s.threads[t].status != RUNNING then s
    else
      var s1 := RemoveThread(s, t);
      TimerStop(Set(s1, t, s1.threads[t].(status := status)), t)
  }

  /** rt_thread_resume, lines 611-640. */
  function Resume(s: State, t: Tid): State
    requires t in s.threads
  {
    if s.threads[t].status != SUSPEND && s.threads[t].status != SLEEP then s
    else InsertThread(TimerStop(RemoveThread(s, t), t), t)
  }

  /** rt_thread_sleep, lines 642-658, up to rt_schedule. */
  function Sleep(s: State, ticks: nat): State
    requires Started(s)
  {
    var t := s.cur.value;
    TimerStart(Suspend(Set(s, t, Cur(s).(timed := ticks)), t, SLEEP), t)
  }

  /** rt_thread_exit, rt_thread_dead_exit and killThreadFun: the thread moves to the dead list. */
  function Close(s: State, t: Tid): State
    requires t in s.threads
  {
    var s1 := RemoveThread(TimerStop(Set(s, t, s.threads[t].(status := CLOSE, woken := None)), t), t);
    Put(s1, t, s1.threads[t].(at := Some(Dead)), true)
  }

  /** killThreadFun, lines 1554-1587; the idle and shell threads cannot be killed. */
  function Kill(s: State, t: Tid): State {
    if t !in s.threads || s.threads[t].system then s
    else if s.cur == Some(t) then Schedule(Close(s, t))
    else Close(s, t)
  }

  /** idle_thread_entry, lines 762-793: the dead threads are forgotten. */
  function Reap(s: State): State {
    var dead := Queued(s, Dead);
    s.(threads := map t | t in s.threads && t !in dead :: s.threads[t],
       lists := if Dead in s.lists then s.lists[Dead := []] else s.lists)
  }

  // ---------------------------------------------------------------------------
  // Semaphores and mailboxes.

  /** The current thread waits at the end of list l, with a timer when time > 0. */
  function Block(s: State, l: Queue, time: int): State
    requires Started(s)
  {
    var t := s.cur.value;
    var s1 := Suspend(Set(s, t, Cur(s).(timedOut := false, woken := None)), t, SUSPEND);
    var s2 := Put(s1, t, s1.threads[t].(at := Some(l)), false);
    if time > 0 then TimerStart(Set(s2, t, s2.threads[t].(timed := time)), t) else s2
  }

  /** rt_sem_take, lines 924-986, up to rt_schedule. */
  function Take(s: State, i: nat, time: int): State
    requires i < |s.sems|
  {
    var m := s.sems[i];
    if m.value > 0 then s.(sems := s.sems[i := m.(value := m.value - 1, takes := m.takes + 1)])
    else if time == 0 || !Started(s) then s
    else Block(s, SemWait(i), time)
  }

  /** rt_sem_release, lines 988-1018, up to rt_schedule. */
  function Release(s: State, i: nat): State
    requires i < |s.sems|
  {
    var m, q := s.sems[i], Queued(s, SemWait(i));
    if q != [] && q[0] in s.threads then
      Resume(s.(sems := s.sems[i := m.(takes := m.takes + 1, releases := m.releases + 1)]), q[0])
    else
      s.(sems := s.sems[i := m.(value := (m.value + 1) % VALUES, releases := m.releases + 1,
                                wraps := m.wraps + (m.value + 1) / VALUES)])
  }

  /** The first thread of a mailbox list is made ready and will retry. */
  function WakeFirst(s: State, l: Queue): State {
    var q := Queued(s, l);
    if q == [] || q[0] !in s.threads then s
    else
      var s1 := Resume(s, q[0]);
      Set(s1, q[0], s1.threads[q[0]].(woken := Some(l)))
  }

  /** One pass of rt_mb_send_wait, lines 1168-1275, up to rt_schedule. */
  function Send(s: State, i: nat, v: nat, timeout: int): State
    requires i < |s.boxes| && Mailbox.Shaped(s.boxes[i])
  {
    var b := s.boxes[i];
    if !Started(s) then s
    else if b.entry == b.size then
      if timeout != 0 then Block(s, SendWait(i), timeout)
      else if Cur(s).woken == Some(SendWait(i)) then Set(s, s.cur.value, Cur(s).(timedOut := false, woken := None))
      else s
    else
      var s1 := Set(s, s.cur.value, Cur(s).(woken := None)).(boxes := s.boxes[i := Mailbox.Put(b, v)]);
      WakeFirst(s1, RecvWait(i))
  }

  /** rt_mb_send, lines 1282-1285, from an interrupt handler: whatever the current thread is doing, nothing waits. */
  function IrqSend(s: State, i: nat, v: nat): State
    requires i < |s.boxes| && Mailbox.Shaped(s.boxes[i])
  {
    var b := s.boxes[i];
    if !Started(s) || b.entry == b.size then s
    else WakeFirst(s.(boxes := s.boxes[i := Mailbox.Put(b, v)]), RecvWait(i))
  }

  /** One pass of rt_mb_recv, lines 1314-1430, up to rt_schedule. The timeout is unsigned. */
  function Recv(s: State, i: nat, timeout: nat): State
    requires i < |s.boxes| && Mailbox.Shaped(s.boxes[i])
  {
    var b := s.boxes[i];
    if !Started(s) then s
    else if b.entry == 0 then
      if timeout != 0 then Block(s, RecvWait(i), timeout)
      else if Cur(s).woken == Some(RecvWait(i)) then Set(s, s.cur.value, Cur(s).(timedOut := true, woken := None))
      else s
    else
      var s1 := Set(s, s.cur.value, Cur(s).(woken := None)).(boxes := s.boxes[i := Mailbox.Get(b)]);
      WakeFirst(s1, SendWait(i))
  }

  // ---------------------------------------------------------------------------
  // Steps.

  datatype Event =
    | Starts
    | Joins(t: Tid, prio: nat, slice: nat, system: bool)
    | Schedules
    | Ticks
    | Sleeps(ticks: nat)
    | Exits
    | Kills(t: Tid)
    | Reaps
    | Takes(i: nat, time: int)
    | Releases(i: nat)
    | Sends(i: nat, v: nat, timeout: int)
    | IrqSends(i: nat, v: nat)
    | Receives(i: nat, limit: nat)

  /** The current thread executes its own code, and is not inside a mailbox call it must retry. */
  predicate Free(s: State) {
    Started(s) && Cur(s).status == RUNNING && Cur(s).woken == None
  }

  /** The current thread executes its own code, possibly retrying on list l. */
  predicate FreeOr(s: State, l: Queue) {
    Started(s) && Cur(s).status == RUNNING && (Cur(s).woken == None || Cur(s).woken == Some(l))
  }

  /**
   What may happen in a state. A thread blocks, exits or is killed while running only when another
   is ready. A release may come from an interrupt handler, and so may a send, which does not wait there.
   */
  predicate Enabled(s: State, e: Event) {
    match e
    case Starts => s.cur.None? && AnyReady(s)
    case Joins(t, _, _, _) => t !in s.threads
    case Schedules => s.cur.Some?
    case Ticks => true
    case Sleeps(ticks) => Free(s) && AnyReady(s)
    case Exits => Free(s) && AnyReady(s)
    case Kills(t) => Free(s) && (s.cur == Some(t) ==> AnyReady(s))
    case Reaps => Free(s)
    case Takes(i, time) => i < |s.sems| && (s.cur.None? || Free(s)) && (s.sems[i].value == 0 && time != 0 ==> AnyReady(s))
    case Releases(i) => i < |s.sems|
    case Sends(i, _, timeout) => i < |s.boxes| && (s.cur.None? || FreeOr(s, SendWait(i))) && (s.boxes[i].entry == s.boxes[i].size && timeout != 0 ==> AnyReady(s))
    case IrqSends(i, _) => i < |s.boxes|
    case Receives(i, timeout) => i < |s.boxes| && (s.cur.None? || FreeOr(s, RecvWait(i))) && (s.boxes[i].entry == 0 && timeout != 0 ==> AnyReady(s))
  }

  predicate Shapes(s: State) {
    forall i | 0 <= i < |s.boxes| :: Mailbox.Shaped(s.boxes[i])
  }

  /** The next state; unchanged for an event that names no object. */
  function Next(s: State, e: Event): State
    requires Shapes(s)
  {
    match e
    case Starts => Start(s)
    case Joins(t, prio, slice, system) => if t in s.threads then s else Join(s, t, prio, slice, system)
    case Schedules => Schedule(s)
    case Ticks => Tick(s)
    case Sleeps(ticks) => if Started(s) then Sleep(s, ticks) else s
    case Exits => if Started(s) then Close(s, s.cur.value) else s
    case Kills(t) => Kill(s, t)
    case Reaps => Reap(s)
    case Takes(i, time) => if i < |s.sems| then Take(s, i, time) else s
    case Releases(i) => if i < |s.sems| then Release(s, i) else s
    case Sends(i, v, timeout) => if i < |s.boxes| then Send(s, i, v, timeout) else s
    case IrqSends(i, v) => if i < |s.boxes| then IrqSend(s, i, v) else s
    case Receives(i, timeout) => if i < |s.boxes| then Recv(s, i, timeout) else s
  }
}
