/** Scheduling and timing over whole runs. */
module KernelProgress {
  import opened Base
  import opened KernelState
  import opened KernelInvariant
  import opened KernelSteps
  import opened KernelTick
  import opened KernelRuns
  import opened KernelWaiting
  import opened KernelMail
  import Mailbox

  // ---------------------------------------------------------------------------
  // A thread that the event is not about.

  /** Thread t, ready or asleep, is the same afterwards, and in a ready list no further back. */
  predicate Undisturbed(s: State, s': State, t: Tid) {
    && t in s.threads && t in s'.threads && s'.threads[t] == s.threads[t] && s'.switches == s.switches
    && (s.threads[t].status == READY ==>
          Pos(Queued(s', ReadyAt(s.threads[t].prio)), t) <= Pos(Queued(s, ReadyAt(s.threads[t].prio)), t))
  }

  lemma {:induction false} PosWithout(q: seq<Tid>, x: Tid, t: Tid)
    requires x != t
    ensures Pos(Without(q, x), t) <= Pos(q, t)
  {
    if q != [] && q[0] != t {
      PosWithout(q[1..], x, t);
      var r := Without(q[1..], x);
      if q[0] != x {
        assert Without(q, x) == [q[0]] + r;
        assert Without(q, x)[1..] == r;
      } else {
        assert Without(q, x) == r;
      }
    }
  }

  lemma MoveUndisturbed(s: State, x: Tid, th: Thread, front: bool, t: Tid)
    requires Core(s) && x in s.threads && t in s.threads && x != t && (front ==> th.at == Some(Dead))
    ensures Undisturbed(s, Move(s, x, th, front), t)
  {
    hide Core, Pos, Without, Queued;
    FitsAt(s, t);
    if s.threads[t].status == READY {
      InLevel(s, t);
      var l := ReadyAt(s.threads[t].prio);
      QueuedIs(s, l);
      var q := Queued(s, l);
      QueuedMove(s, x, th, front, l);
      PosWithout(q, x, t);
      WithoutMember(q, x, t);
      PosAppend(q, t, x);
      PosAppend(Taken(q, x, s.threads[x].at == Some(l)), t, x);
    }
  }

  lemma UndisturbedAdvances(s: State, s': State, t: Tid)
    requires Undisturbed(s, s', t)
    ensures Advances(s, s', t)
  {
    hide Pos, Queued, NoBetter;
  }

  lemma SetUndisturbed(s: State, x: Tid, th: Thread, t: Tid)
    requires t in s.threads && x != t
    ensures Undisturbed(s, Set(s, x, th), t)
  {
    hide Pos;
  }

  lemma UndisturbedTransitive(s: State, m: State, r: State, t: Tid)
    requires Undisturbed(s, m, t) && Undisturbed(m, r, t)
    ensures Undisturbed(s, r, t)
  {
    hide Pos, Queued;
  }

  /** Objects and the clock do not matter to a thread. */
  lemma ObjectsUndisturbed(s: State, s': State, t: Tid)
    requires t in s.threads && s'.threads == s.threads && s'.lists == s.lists && s'.switches == s.switches
    ensures Undisturbed(s, s', t)
  {
    hide Pos;
    SameQueued(s, s', ReadyAt(s.threads[t].prio));
  }

  predicate NotFirst(s: State, l: Queue, t: Tid) {
    Queued(s, l) != [] ==> Queued(s, l)[0] != t
  }

  lemma ResumeUndisturbed(s: State, l: Queue, t: Tid)
    requires Core(s) && Waiting(l) && Queued(s, l) != [] && Queued(s, l)[0] != t && t in s.threads
    ensures Queued(s, l)[0] in s.threads && Undisturbed(s, Resume(s, Queued(s, l)[0]), t)
  {
    hide Core, Resume, Move, Pos, Queued;
    FirstWaits(s, l);
    var x := Queued(s, l)[0];
    ResumeIsMove(s, x);
    MoveUndisturbed(s, x, Awake(s, x), false, t);
  }

  lemma WakeFirstUndisturbed(s: State, l: Queue, t: Tid)
    requires Core(s) && Waiting(l) && t in s.threads && NotFirst(s, l, t)
    ensures Undisturbed(s, WakeFirst(s, l), t)
  {
    hide Core, Resume, Pos, Queued;
    if Queued(s, l) != [] {
      var x := Queued(s, l)[0];
      FirstWaits(s, l);
      ResumeUndisturbed(s, l, t);
      ResumeWoken(s, x, t);
      var s1 := Resume(s, x);
      SetUndisturbed(s1, x, s1.threads[x].(woken := Some(l)), t);
      UndisturbedTransitive(s, s1, WakeFirst(s, l), t);
    } else {
      ObjectsUndisturbed(s, s, t);
    }
  }

  lemma BlockUndisturbed(s: State, l: Queue, time: int, t: Tid)
    requires Core(s) && Started(s) && Cur(s).status == RUNNING && t in s.threads && s.cur != Some(t)
    ensures Undisturbed(s, Block(s, l, time), t)
  {
    hide Core, Block, Move, Pos, Queued;
    BlockIsMove(s, l, time);
    MoveUndisturbed(s, s.cur.value, Parked(s, l, time), false, t);
  }

  lemma CloseUndisturbed(s: State, x: Tid, t: Tid)
    requires Core(s) && x in s.threads && t in s.threads && x != t
    ensures Undisturbed(s, Close(s, x), t)
  {
    hide Core, Close, Move, Pos, Queued;
    CloseIsMove(s, x);
    MoveUndisturbed(s, x, Closed(s.threads[x]), true, t);
  }

  /** Thread t does not run code of its own: it is ready, asleep or waiting. */
  predicate Idle(s: State, t: Tid) {
    t in s.threads && (s.threads[t].status == READY || s.threads[t].status == SLEEP || s.threads[t].status == SUSPEND)
  }

  /** The event serves thread t, the first of list l. */
  predicate Serves(s: State, e: Event, l: Queue, t: Tid) {
    Wakes(s, e, l) && Queued(s, l) != [] && Queued(s, l)[0] == t
  }

  /** Thread t is left idle by the event: it is not served. */
  ghost predicate Overlooked(s: State, e: Event, t: Tid) {
    Idle(s, t) && forall l :: !Serves(s, e, l, t)
  }

  /** Only waiting threads are served. */
  lemma NotServed(s: State, e: Event, t: Tid)
    requires Core(s) && t in s.threads && (s.threads[t].status == READY || s.threads[t].status == SLEEP)
    ensures Overlooked(s, e, t)
  {
    hide Core;
    forall l
      ensures !Serves(s, e, l, t)
    {
      if Wakes(s, e, l) && Queued(s, l) != [] {
        FirstWaits(s, l);
      }
    }
  }

  lemma SendUndisturbed(s: State, i: nat, v: nat, timeout: int, t: Tid)
    requires Inv(s) && Enabled(s, Sends(i, v, timeout)) && Shapes(s) && Overlooked(s, Sends(i, v, timeout), t)
    ensures Undisturbed(s, Send(s, i, v, timeout), t)
  {
    hide Inv, Block, WakeFirst, Best, Queued, Undisturbed;
    InvCore(s);
    ObjectsUndisturbed(s, s, t);
    var b := s.boxes[i];
    if Started(s) {
      BlockUndisturbed(s, SendWait(i), timeout, t);
      SetUndisturbed(s, s.cur.value, Cur(s).(timedOut := false, woken := None), t);
      if b.entry != b.size {
        Mailbox.PutAppends(b, v);
        BoxCore(s, i, Mailbox.Put(b, v));
        assert !Serves(s, Sends(i, v, timeout), RecvWait(i), t);
        BoxUndisturbed(s, i, Mailbox.Put(b, v), RecvWait(i), t);
      }
    }
  }

  lemma IrqSendUndisturbed(s: State, i: nat, v: nat, t: Tid)
    requires Inv(s) && i < |s.boxes| && Shapes(s) && Overlooked(s, IrqSends(i, v), t)
    ensures Undisturbed(s, IrqSend(s, i, v), t)
  {
    hide Inv, WakeFirst, Queued, Undisturbed;
    InvCore(s);
    ObjectsUndisturbed(s, s, t);
    var b := s.boxes[i];
    if Started(s) && b.entry != b.size {
      Mailbox.PutAppends(b, v);
      StoredInv(s, i, Mailbox.Put(b, v));
      var s1 := s.(boxes := s.boxes[i := Mailbox.Put(b, v)]);
      InvCore(s1);
      assert !Serves(s, IrqSends(i, v), RecvWait(i), t);
      SameQueued(s, s1, RecvWait(i));
      ObjectsUndisturbed(s, s1, t);
      WakeFirstUndisturbed(s1, RecvWait(i), t);
      UndisturbedTransitive(s, s1, WakeFirst(s1, RecvWait(i)), t);
    }
  }

  lemma RecvUndisturbed(s: State, i: nat, limit: nat, t: Tid)
    requires Inv(s) && Enabled(s, Receives(i, limit)) && Shapes(s) && Overlooked(s, Receives(i, limit), t)
    ensures Undisturbed(s, Recv(s, i, limit), t)
  {
    hide Inv, Block, WakeFirst, Best, Queued, Undisturbed;
    InvCore(s);
    ObjectsUndisturbed(s, s, t);
    var b := s.boxes[i];
    if Started(s) {
      BlockUndisturbed(s, RecvWait(i), limit, t);
      SetUndisturbed(s, s.cur.value, Cur(s).(timedOut := true, woken := None), t);
      if b.entry != 0 {
        Mailbox.GetTakesFirst(b);
        BoxCore(s, i, Mailbox.Get(b));
        assert !Serves(s, Receives(i, limit), SendWait(i), t);
        BoxUndisturbed(s, i, Mailbox.Get(b), SendWait(i), t);
      }
    }
  }

  lemma BoxUndisturbed(s: State, i: nat, b: Mailbox.Box, l: Queue, t: Tid)
    requires Core(s) && Started(s) && s.cur != Some(t) && i < |s.boxes| && t in s.threads && NotFirst(s, l, t) && Waiting(l)
    requires Core(Set(s, s.cur.value, Cur(s).(woken := None)).(boxes := s.boxes[i := b]))
    ensures Undisturbed(s, WakeFirst(Set(s, s.cur.value, Cur(s).(woken := None)).(boxes := s.boxes[i := b]), l), t)
  {
    hide Core, WakeFirst, Pos, Queued;
    var s0 := Set(s, s.cur.value, Cur(s).(woken := None));
    var s1 := s0.(boxes := s.boxes[i := b]);
    SetUndisturbed(s, s.cur.value, Cur(s).(woken := None), t);
    ObjectsUndisturbed(s0, s1, t);
    UndisturbedTransitive(s, s0, s1, t);
    SameQueued(s, s1, l);
    WakeFirstUndisturbed(s1, l, t);
    UndisturbedTransitive(s, s1, WakeFirst(s1, l), t);
  }

  lemma ReleaseUndisturbed(s: State, i: nat, t: Tid)
    requires Inv(s) && i < |s.sems| && t in s.threads && NotFirst(s, SemWait(i), t)
    ensures Undisturbed(s, Release(s, i), t)
  {
    hide Inv, Resume, Pos, Queued, Undisturbed, Core;
    InvCore(s);
    var q, m := Queued(s, SemWait(i)), s.sems[i];
    if q != [] {
      var s1 := s.(sems := s.sems[i := m.(takes := m.takes + 1, releases := m.releases + 1)]);
      FirstWaits(s, SemWait(i));
      ReleaseCore(s, i);
      SameQueued(s, s1, SemWait(i));
      ObjectsUndisturbed(s, s1, t);
      ResumeUndisturbed(s1, SemWait(i), t);
      UndisturbedTransitive(s, s1, Release(s, i), t);
    } else {
      ObjectsUndisturbed(s, Release(s, i), t);
    }
  }

  lemma JoinUndisturbed(s: State, x: Tid, prio: nat, slice: nat, system: bool, t: Tid)
    requires Core(s) && x !in s.threads && Idle(s, t)
    ensures Undisturbed(s, Join(s, x, prio, slice, system), t)
  {
    hide Pos;
    if prio < LEVELS && s.threads[t].status == READY {
      FitsAt(s, t);
      InLevel(s, t);
      PosAppend(s.lists[ReadyAt(s.threads[t].prio)], t, x);
    }
  }

  lemma StartAdvances(s: State, t: Tid)
    requires Core(s) && Enabled(s, Starts) && Idle(s, t)
    ensures Advances(s, Start(s), t)
    ensures s.threads[t].status != READY ==> t in Start(s).threads && Start(s).threads[t] == s.threads[t]
  {
    hide Core, Pos, Without, NoBetter, Best;
    TopReady(s);
    FitsAt(s, t);
    var l, to := ReadyAt(s.threads[t].prio), Top(s);
    if s.threads[t].status == READY && t != to {
      InLevel(s, t);
      PosWithout(s.lists[l], to, t);
    }
  }

  lemma ReapUndisturbed(s: State, t: Tid)
    requires Core(s) && Idle(s, t)
    ensures Undisturbed(s, Reap(s), t)
  {
    hide Pos;
    assert Known(s, Dead);
    assert Agrees(s, Dead, t) && Placed(s, t);
  }

  /** Events that are no hand-over leave ready and sleeping threads alone. */
  lemma UndisturbedStep(s: State, e: Event, t: Tid)
    requires Inv(s) && Enabled(s, e) && Shapes(s) && Overlooked(s, e, t) && !KillsThread(s, e, t)
    requires !e.Schedules? && !e.Ticks? && !e.Starts? && !e.Kills?
    ensures Undisturbed(s, Next(s, e), t)
  {
    hide Core, Pos, Queued, Undisturbed, Block, Release, Send, IrqSend, Recv, Join, Reap, Sleep, Close, SemsOk, CurOk, BoxesOk, Best;
    ObjectsUndisturbed(s, s, t);
    FitsAt(s, t);
    match e
    case Joins(x, prio, slice, system) => JoinUndisturbed(s, x, prio, slice, system, t);
    case Sleeps(ticks) =>
      SleepIsMove(s, ticks);
      MoveUndisturbed(s, s.cur.value, Asleep(s, ticks), false, t);
    case Exits => CloseUndisturbed(s, s.cur.value, t);
    case Reaps => ReapUndisturbed(s, t);
    case Takes(i, time) =>
      ObjectsUndisturbed(s, s.(sems := Take(s, i, time).sems), t);
      if Started(s) {
        BlockUndisturbed(s, SemWait(i), time, t);
      }
    case Releases(i) =>
      assert !Serves(s, e, SemWait(i), t);
      ReleaseUndisturbed(s, i, t);
    case Sends(i, v, timeout) => SendUndisturbed(s, i, v, timeout, t);
    case IrqSends(i, v) => IrqSendUndisturbed(s, i, v, t);
    case Receives(i, limit) => RecvUndisturbed(s, i, limit, t);
  }

  // ---------------------------------------------------------------------------
  // How soon a ready thread runs.

  lemma KillAdvances(s: State, x: Tid, t: Tid)
    requires Inv(s) && Enabled(s, Kills(x)) && Idle(s, t) && !KillsThread(s, Kills(x), t)
    ensures Advances(s, Kill(s, x), t)
    ensures s.threads[t].status != READY ==> t in Kill(s, x).threads && Kill(s, x).threads[t] == s.threads[t]
  {
    hide Core, SemsOk, BoxesOk, Pos, Queued, Close, Schedule, NoBetter, Best;
    ObjectsUndisturbed(s, s, t);
    UndisturbedAdvances(s, s, t);
    if x in s.threads && !s.threads[x].system {
      CloseUndisturbed(s, x, t);
      UndisturbedAdvances(s, Close(s, x), t);
      if s.cur == Some(x) {
        var m := Close(s, x);
        CloseInv(s, x);
        ScheduleQuiet(m);
        QuietParts(m, Schedule(m), t);
        if s.threads[t].status != READY {
          SleeperSchedules(m, t);
        }
      }
    }
  }

  lemma SleeperSchedules(s: State, t: Tid)
    requires Core(s) && t in s.threads && (s.threads[t].status == SLEEP || s.threads[t].status == SUSPEND)
    ensures t in Schedule(s).threads && Schedule(s).threads[t] == s.threads[t]
  {
    hide Core, Schedule;
    if CanSwitch(s) {
      TopReady(s);
      ScheduleThreads(s);
    } else {
      ScheduleIdle(s);
    }
  }

  /** In every step a ready thread runs or moves up by the number of hand-overs. */
  lemma StepAdvances(s: State, e: Event, t: Tid)
    requires Inv(s) && Enabled(s, e) && Shapes(s) && t in s.threads && s.threads[t].status == READY && !KillsThread(s, e, t)
    ensures Advances(s, Next(s, e), t)
  {
    hide Core, SemsOk, BoxesOk, CurOk, Pos, Queued, Schedule, Tick, Kill, Start, NoBetter, Undisturbed, Advances, Best;
    match e
    case Schedules =>
      ScheduleQuiet(s);
      QuietParts(s, Schedule(s), t);
    case Ticks =>
      TickQuiet(s);
      QuietParts(Ticked(s), Tick(s), t);
      AdvancesFrom(s, Ticked(s), Tick(s), t);
    case Starts => StartAdvances(s, t);
    case Kills(x) => KillAdvances(s, x, t);
    case _ =>
      NotServed(s, e, t);
      UndisturbedStep(s, e, t);
      UndisturbedAdvances(s, Next(s, e), t);
  }

  lemma AdvancesFrom(s: State, m: State, r: State, t: Tid)
    requires Advances(m, r, t) && m.threads == s.threads && m.lists == s.lists && m.switches == s.switches
    ensures Advances(s, r, t)
  {
    hide Pos, NoBetter;
    if t in s.threads {
      SameQueued(s, m, ReadyAt(s.threads[t].prio));
    }
  }

  /** The threads ahead of t in its ready list. */
  function AheadOf(s: State, t: Tid): nat
    requires t in s.threads
  {
    Pos(Queued(s, ReadyAt(s.threads[t].prio)), t)
  }

  /** The clock, the current thread, and the priority and history of t are the same. */
  predicate Plain(s: State, s': State, t: Tid) {
    && s'.tick == s.tick && s'.cur == s.cur
    && (t in s.threads ==>
          && t in s'.threads && s'.threads[t].runs == s.threads[t].runs && s'.threads[t].prio == s.threads[t].prio
          && s'.threads[t].remaining == s.threads[t].remaining)
    && s'.switches == s.switches
  }

  lemma BlockPlain(s: State, l: Queue, time: int, t: Tid)
    requires Started(s)
    ensures Plain(s, Block(s, l, time), t)
  {
    hide Attach, Detach, Without;
  }

  lemma ResumePlain(s: State, x: Tid, t: Tid)
    requires x in s.threads
    ensures Plain(s, Resume(s, x), t) && x in Resume(s, x).threads
  {
    hide Attach, Detach, Without;
  }

  lemma WakeFirstPlain(s: State, l: Queue, t: Tid)
    ensures Plain(s, WakeFirst(s, l), t)
  {
    hide Resume, Queued;
    var q := Queued(s, l);
    if q != [] && q[0] in s.threads {
      ResumePlain(s, q[0], t);
      ResumePlain(s, q[0], q[0]);
    }
  }

  lemma ClosePlain(s: State, x: Tid, t: Tid)
    requires x in s.threads
    ensures Plain(s, Close(s, x), t)
  {
    hide Attach, Detach, Without;
  }

  lemma SleepPlain(s: State, ticks: nat, t: Tid)
    requires Started(s)
    ensures Plain(s, Sleep(s, ticks), t)
  {
    hide Attach, Detach, Without;
  }

  lemma SendPlain(s: State, i: nat, v: nat, timeout: int, t: Tid)
    requires i < |s.boxes| && Mailbox.Shaped(s.boxes[i])
    ensures Plain(s, Send(s, i, v, timeout), t)
  {
    hide Block, WakeFirst;
    if Started(s) {
      BlockPlain(s, SendWait(i), timeout, t);
      if s.boxes[i].entry != s.boxes[i].size {
        WakeFirstPlain(Set(s, s.cur.value, Cur(s).(woken := None)).(boxes := s.boxes[i := Mailbox.Put(s.boxes[i], v)]), RecvWait(i), t);
      }
    }
  }

  lemma RecvPlain(s: State, i: nat, limit: nat, t: Tid)
    requires i < |s.boxes| && Mailbox.Shaped(s.boxes[i])
    ensures Plain(s, Recv(s, i, limit), t)
  {
    hide Block, WakeFirst;
    if Started(s) {
      BlockPlain(s, RecvWait(i), limit, t);
      if s.boxes[i].entry != 0 {
        WakeFirstPlain(Set(s, s.cur.value, Cur(s).(woken := None)).(boxes := s.boxes[i := Mailbox.Get(s.boxes[i])]), SendWait(i), t);
      }
    }
  }

  lemma ReleasePlain(s: State, i: nat, t: Tid)
    requires i < |s.sems|
    ensures Plain(s, Release(s, i), t)
  {
    hide Resume, Queued;
    var m, q := s.sems[i], Queued(s, SemWait(i));
    if q != [] && q[0] in s.threads {
      ResumePlain(s.(sems := s.sems[i := m.(takes := m.takes + 1, releases := m.releases + 1)]), q[0], t);
    }
  }

  /** The current thread changes only at a hand-over. */
  lemma PlainStep(s: State, e: Event, t: Tid)
    requires Enabled(s, e) && Shapes(s) && (e.Sleeps? || e.Exits? || e.Takes? || e.Releases? || e.Sends? || e.IrqSends? || e.Receives?)
    ensures Plain(s, Next(s, e), t)
  {
    hide Sleep, Block, Close, Release, Send, Recv, Best;
    match e
    case Sleeps(ticks) => SleepPlain(s, ticks, t);
    case Exits => ClosePlain(s, s.cur.value, t);
    case Takes(i, time) =>
      if Started(s) {
        BlockPlain(s, SemWait(i), time, t);
      }
    case Releases(i) => ReleasePlain(s, i, t);
    case Sends(i, v, timeout) => SendPlain(s, i, v, timeout, t);
    case IrqSends(i, v) =>
      if Started(s) && s.boxes[i].entry != s.boxes[i].size {
        WakeFirstPlain(s.(boxes := s.boxes[i := Mailbox.Put(s.boxes[i], v)]), RecvWait(i), t);
      }
    case Receives(i, limit) => RecvPlain(s, i, limit, t);
  }

  /** The clock moves at ticks only, and no event loses count of how often a thread ran. */
  lemma HistoryStep(s: State, e: Event, t: Tid)
    requires Inv(s) && Enabled(s, e) && Shapes(s)
    ensures Next(s, e).tick == if e.Ticks? then Ticked(s).tick else s.tick
    ensures s.cur.Some? ==> Next(s, e).cur.Some?
    ensures t in s.threads && t in Next(s, e).threads ==>
              s.threads[t].runs <= Next(s, e).threads[t].runs && Next(s, e).threads[t].prio == s.threads[t].prio
  {
    hide Core, SemsOk, BoxesOk, CurOk, Queued, Schedule, Tick, Best, Without, Attach, Detach, CanSwitch;
    hide Sleep, Block, Close, Release, Send, Recv, Take;
    match e
    case Schedules =>
      ScheduleQuiet(s);
      QuietParts(s, Schedule(s), t);
    case Ticks =>
      TickQuiet(s);
      QuietParts(Ticked(s), Tick(s), t);
    case Kills(x) =>
      if x in s.threads && !s.threads[x].system {
        ClosePlain(s, x, t);
        if s.cur == Some(x) {
          CloseInv(s, x);
          ScheduleQuiet(Close(s, x));
          QuietParts(Close(s, x), Schedule(Close(s, x)), t);
        }
      }
    case Starts =>
    case Joins(_, _, _, _) =>
    case Reaps =>
    case _ => PlainStep(s, e, t);
  }

  /** In the states of a run from a to b: t exists, is not killed, and nothing better is ready or running. */
  ghost predicate Undisputed(ss: seq<State>, es: seq<Event>, t: Tid, p: nat, n: nat)
    requires |ss| == |es| + 1 && n <= |es|
  {
    && (forall k | 0 <= k < n :: !KillsThread(ss[k], es[k], t))
    && (forall k | 0 <= k <= n :: t in ss[k].threads && NoBetter(ss[k], p))
  }

  lemma {:induction false} MovesUpOverRun(ss: seq<State>, es: seq<Event>, t: Tid, n: nat)
    requires Run(ss, es) && Inv(ss[0]) && n <= |es| && t in ss[0].threads && ss[0].threads[t].status == READY
    requires Undisputed(ss, es, t, ss[0].threads[t].prio, n)
    ensures ss[n].threads[t].prio == ss[0].threads[t].prio
    ensures ss[n].threads[t].runs >= ss[0].threads[t].runs
    ensures || ss[n].threads[t].runs > ss[0].threads[t].runs
            || (ss[n].threads[t].status == READY && AheadOf(ss[n], t) + ss[n].switches <= AheadOf(ss[0], t) + ss[0].switches)
    decreases n
  {
    hide Inv, Next, Pos, Queued, NoBetter;
    if n > 0 {
      var p := ss[0].threads[t].prio;
      MovesUpOverRun(ss, es, t, n - 1);
      RunInv(ss, es, n - 1);
      assert StepAt(ss, es, n - 1);
      assert !KillsThread(ss[n - 1], es[n - 1], t) && NoBetter(ss[n], p);
      HistoryStep(ss[n - 1], es[n - 1], t);
      if ss[n - 1].threads[t].status == READY {
        StepAdvances(ss[n - 1], es[n - 1], t);
      }
    }
  }

  /**
   A ready thread with k threads ahead of it runs within k + 1 hand-overs, as long as nothing with a
   smaller priority number is ready or running.
   */
  lemma RunsSoon(ss: seq<State>, es: seq<Event>, t: Tid, n: nat)
    requires Run(ss, es) && Inv(ss[0]) && n <= |es| && t in ss[0].threads && ss[0].threads[t].status == READY
    requires Undisputed(ss, es, t, ss[0].threads[t].prio, n)
    requires ss[n].switches >= ss[0].switches + AheadOf(ss[0], t) + 1
    ensures ss[n].threads[t].runs > ss[0].threads[t].runs
  {
    hide Inv, Next, Pos, Queued, NoBetter;
    MovesUpOverRun(ss, es, t, n);
  }

  // ---------------------------------------------------------------------------
  // How long a sleeper sleeps.

  /** Between ticks a thread that sleeps or waits, and is not served or killed, stays exactly as it is. */
  lemma IdleKept(s: State, e: Event, t: Tid)
    requires Inv(s) && Enabled(s, e) && Shapes(s) && Overlooked(s, e, t) && s.threads[t].status != READY
    requires !KillsThread(s, e, t) && !e.Ticks?
    ensures t in Next(s, e).threads && Next(s, e).threads[t] == s.threads[t]
  {
    hide Core, SemsOk, BoxesOk, CurOk, Pos, Queued, Schedule, Kill, Start, NoBetter, Advances, Best;
    match e
    case Schedules => SleeperSchedules(s, t);
    case Starts => StartAdvances(s, t);
    case Kills(x) => KillAdvances(s, x, t);
    case _ => UndisturbedStep(s, e, t);
  }

  /** A tick wakes a sleeper exactly when its deadline has passed. */
  lemma SleeperTicks(s: State, t: Tid)
    requires Inv(s) && s.cur.Some? && t in s.threads && s.threads[t].status == SLEEP
    ensures t in Tick(s).threads
    ensures Ticked(s).tick <= s.threads[t].deadline ==>
              Tick(s).threads[t].status == SLEEP && Tick(s).threads[t].deadline == s.threads[t].deadline
    ensures Ticked(s).tick > s.threads[t].deadline ==> Runnable(Tick(s).threads[t])
  {
    hide SemsOk, BoxesOk, CurOk, Tick, Core;
    FitsAt(s, t);
    TickQuiet(s);
    QuietParts(Ticked(s), Tick(s), t);
    assert !Due(Tick(s), t);
  }

  ghost function TicksIn(es: seq<Event>, n: nat): nat
    requires n <= |es|
  {
    if n == 0 then 0 else TicksIn(es, n - 1) + if es[n - 1].Ticks? then 1 else 0
  }

  lemma NextTicks(s: State)
    requires Shapes(s)
    ensures Next(s, Ticks) == Tick(s)
  {
  }

  /**
   How many ticks after rt_thread_sleep(ticks), called at tick `tick`, the thread wakes: with deadline
   (tick + ticks) mod 2^32 the first tick above it. None when the deadline is the last tick there is.
   */
  function Duration(tick: nat, ticks: nat): Option<nat>
    requires tick < WRAP && ticks < WRAP
  {
    if (tick + ticks) % WRAP == WRAP - 1 then None
    else if tick + ticks < WRAP || tick == WRAP - 1 then Some(ticks + 1)
    else Some(1)
  }

  /** The sleep is as long as it was asked for exactly in these cases. */
  lemma DurationExact(tick: nat, ticks: nat)
    requires tick < WRAP && ticks < WRAP
    ensures Duration(tick, ticks) == Some(ticks + 1) <==> tick + ticks + 1 < WRAP || (tick == WRAP - 1 && ticks >= 1)
    ensures Duration(tick, ticks) == None <==> (tick + ticks) % WRAP == WRAP - 1
  {
  }

  /** The ticks before the thread wakes are not above the deadline, and the one at which it wakes is. */
  lemma DurationFirst(tick: nat, ticks: nat, c: nat)
    requires tick < WRAP && ticks < WRAP && c >= 1
    ensures Duration(tick, ticks) == None || c < Duration(tick, ticks).value ==> (tick + c) % WRAP <= (tick + ticks) % WRAP
    ensures Duration(tick, ticks) == Some(c) ==> (tick + c) % WRAP > (tick + ticks) % WRAP
  {
    ModuloOnce(tick + ticks);
    if Duration(tick, ticks).Some? && c <= Duration(tick, ticks).value {
      ModuloOnce(tick + c);
    }
  }

  lemma ModuloOnce(x: nat)
    ensures x < WRAP ==> x % WRAP == x
    ensures WRAP <= x < 2 * WRAP ==> x % WRAP == x - WRAP
  {
  }

  /** The thread has not been woken after c ticks. */
  predicate SleepsThrough(tick: nat, ticks: nat, c: nat)
    requires tick < WRAP && ticks < WRAP
  {
    Duration(tick, ticks).Some? ==> c < Duration(tick, ticks).value
  }

  /** From its call of rt_thread_sleep on, a thread that is not killed sleeps until its duration is over. */
  lemma {:induction false} StillAsleep(ss: seq<State>, es: seq<Event>, t: Tid, ticks: nat, n: nat)
    requires Run(ss, es) && Inv(ss[0]) && 1 <= n <= |es| && es[0] == Sleeps(ticks) && ss[0].cur == Some(t)
    requires ss[0].tick < WRAP && ticks < WRAP && SleepsThrough(ss[0].tick, ticks, TicksIn(es, n))
    requires forall k | 0 <= k < n :: es[k] != Kills(t)
    ensures t in ss[n].threads && ss[n].cur.Some?
    ensures ss[n].threads[t].status == SLEEP && ss[n].threads[t].deadline == (ss[0].tick + ticks) % WRAP
    ensures ss[n].tick == (ss[0].tick + TicksIn(es, n)) % WRAP
    decreases n
  {
    hide Inv, Next, Best, Duration;
    assert StepAt(ss, es, n - 1) && StepAt(ss, es, 0);
    RunInv(ss, es, n - 1);
    HistoryStep(ss[n - 1], es[n - 1], t);
    assert es[n - 1] != Kills(t);
    if n == 1 {
      FellAsleep(ss[0], ticks);
    } else {
      StillAsleep(ss, es, t, ticks, n - 1);
      if es[n - 1].Ticks? {
        SleeperTicks(ss[n - 1], t);
        NextTicks(ss[n - 1]);
        OneTickMore(ss[0].tick + TicksIn(es, n - 1));
        DurationFirst(ss[0].tick, ticks, TicksIn(es, n));
      } else {
        InvCore(ss[n - 1]);
        NotServed(ss[n - 1], es[n - 1], t);
        IdleKept(ss[n - 1], es[n - 1], t);
      }
    }
  }

  lemma OneTickMore(x: nat)
    ensures (x % WRAP + 1) % WRAP == (x + 1) % WRAP
  {
  }

  lemma FellAsleep(s: State, ticks: nat)
    requires Inv(s) && Enabled(s, Sleeps(ticks)) && Shapes(s)
    ensures
      var r := Next(s, Sleeps(ticks));
      s.cur.value in r.threads && r.threads[s.cur.value].status == SLEEP && r.threads[s.cur.value].deadline == (s.tick + ticks) % WRAP
  {
    hide Inv, Sleep;
    InvCore(s);
    SleepIsMove(s, ticks);
  }

  /**
   rt_thread_sleep(ticks) at any tick: the thread is asleep until the handler of the tick that ends its
   duration, and runnable when that handler ends.
   */
  lemma SleepLasts(ss: seq<State>, es: seq<Event>, t: Tid, ticks: nat, n: nat)
    requires Run(ss, es) && Inv(ss[0]) && 1 <= n <= |es| && es[0] == Sleeps(ticks) && ss[0].cur == Some(t)
    requires ss[0].tick < WRAP && ticks < WRAP
    requires forall k | 0 <= k < n :: es[k] != Kills(t)
    ensures SleepsThrough(ss[0].tick, ticks, TicksIn(es, n)) ==> t in ss[n].threads && ss[n].threads[t].status == SLEEP
    ensures Duration(ss[0].tick, ticks) == Some(TicksIn(es, n)) && es[n - 1].Ticks? ==>
              t in ss[n].threads && Runnable(ss[n].threads[t])
  {
    hide Inv, Next, Best, Duration;
    if SleepsThrough(ss[0].tick, ticks, TicksIn(es, n)) {
      StillAsleep(ss, es, t, ticks, n);
    } else if Duration(ss[0].tick, ticks) == Some(TicksIn(es, n)) && es[n - 1].Ticks? {
      StillAsleep(ss, es, t, ticks, n - 1);
      assert StepAt(ss, es, n - 1);
      RunInv(ss, es, n - 1);
      SleeperTicks(ss[n - 1], t);
      NextTicks(ss[n - 1]);
      OneTickMore(ss[0].tick + TicksIn(es, n - 1));
      DurationFirst(ss[0].tick, ticks, TicksIn(es, n));
    }
  }

  /** The sleep is exact: asleep through `ticks` ticks, runnable after the handler of the one behind. */
  ghost predicate ExactUpTo(ss: seq<State>, es: seq<Event>, t: Tid, ticks: nat, n: nat)
    requires n < |ss| && n <= |es|
  {
    && (TicksIn(es, n) <= ticks ==> t in ss[n].threads && ss[n].threads[t].status == SLEEP)
    && (n > 0 && TicksIn(es, n) == ticks + 1 && es[n - 1].Ticks? ==> t in ss[n].threads && Runnable(ss[n].threads[t]))
  }

  /**
   In a run with at least ticks + 1 ticks the sleep is exact at every state if and only if the counter
   does not reach its wrap in it, or the sleep of at least one tick begins at the very last tick.
   */
  lemma SleepsExactly(ss: seq<State>, es: seq<Event>, t: Tid, ticks: nat)
    requires Run(ss, es) && Inv(ss[0]) && es != [] && es[0] == Sleeps(ticks) && ss[0].cur == Some(t)
    requires ss[0].tick < WRAP && ticks < WRAP && TicksIn(es, |es|) >= ticks + 1
    requires forall k | 0 <= k < |es| :: es[k] != Kills(t)
    ensures (forall n | 1 <= n <= |es| :: ExactUpTo(ss, es, t, ticks, n))
       <==> ss[0].tick + ticks + 1 < WRAP || (ss[0].tick == WRAP - 1 && ticks >= 1)
  {
    hide Inv, Next, Best, Duration, Runnable;
    var tick := ss[0].tick;
    DurationExact(tick, ticks);
    if Duration(tick, ticks) == Some(ticks + 1) {
      forall n | 1 <= n <= |es|
        ensures ExactUpTo(ss, es, t, ticks, n)
      {
        SleepLasts(ss, es, t, ticks, n);
      }
    } else {
      var c := if Duration(tick, ticks) == None then ticks + 1 else 1;
      DurationValue(tick, ticks);
      var n := TickNumber(es, |es|, c);
      SleepLasts(ss, es, t, ticks, n);
      AsleepNotRunnable(ss[n], t);
      assert !ExactUpTo(ss, es, t, ticks, n);
    }
  }

  lemma DurationValue(tick: nat, ticks: nat)
    requires tick < WRAP && ticks < WRAP && Duration(tick, ticks) != Some(ticks + 1)
    ensures Duration(tick, ticks) == None || (Duration(tick, ticks) == Some(1) && ticks >= 1)
  {
  }

  lemma AsleepNotRunnable(s: State, t: Tid)
    ensures t in s.threads && s.threads[t].status == SLEEP ==> !Runnable(s.threads[t])
    ensures t in s.threads && Runnable(s.threads[t]) ==> s.threads[t].status != SLEEP
  {
  }

  /** The step of the c-th tick. */
  lemma {:induction false} TickNumber(es: seq<Event>, m: nat, c: nat) returns (n: nat)
    requires m <= |es| && 1 <= c <= TicksIn(es, m)
    ensures 1 <= n <= m && TicksIn(es, n) == c && es[n - 1].Ticks?
  {
    if TicksIn(es, m - 1) >= c {
      n := TickNumber(es, m - 1, c);
    } else {
      n := m;
    }
  }

  /** A sleep whose deadline is the last tick there is never ends, in any run that does not kill the thread. */
  lemma SleepsForEver(ss: seq<State>, es: seq<Event>, t: Tid, ticks: nat, n: nat)
    requires Run(ss, es) && Inv(ss[0]) && 1 <= n <= |es| && es[0] == Sleeps(ticks) && ss[0].cur == Some(t)
    requires ss[0].tick < WRAP && ticks < WRAP && (ss[0].tick + ticks) % WRAP == WRAP - 1
    requires forall k | 0 <= k < n :: es[k] != Kills(t)
    ensures t in ss[n].threads && ss[n].threads[t].status == SLEEP
  {
    hide Inv, Next, Best;
    StillAsleep(ss, es, t, ticks, n);
  }

  // ---------------------------------------------------------------------------
  // Waiting without a timer.

  /** Thread t waits in l and no timer runs for it. */
  predicate WaitsUntimed(s: State, l: Queue, t: Tid) {
    t in s.threads && s.threads[t].status == SUSPEND && s.threads[t].at == Some(l) && !s.threads[t].active
  }

  lemma ServedInOwnList(s: State, e: Event, l: Queue, t: Tid)
    requires Core(s) && Waiting(l) && WaitsUntimed(s, l, t) && !Serves(s, e, l, t)
    ensures Overlooked(s, e, t)
  {
    hide Core;
    forall k
      ensures !Serves(s, e, k, t)
    {
      if Wakes(s, e, k) && Queued(s, k) != [] {
        FirstWaits(s, k);
      }
    }
  }

  lemma UntimedTicks(s: State, l: Queue, t: Tid)
    requires Core(s) && WaitsUntimed(s, l, t)
    ensures WaitsUntimed(Tick(s), l, t)
  {
    hide Core, Tick;
    TickQuiet(s);
    QuietParts(Ticked(s), Tick(s), t);
  }

  /** Without a timer a wait lasts, through any number of ticks, until the thread is served or killed. */
  lemma {:induction false} WaitsForever(ss: seq<State>, es: seq<Event>, l: Queue, t: Tid, n: nat)
    requires Run(ss, es) && Inv(ss[0]) && n <= |es| && Waiting(l) && WaitsUntimed(ss[0], l, t)
    requires forall k | 0 <= k < n :: !Serves(ss[k], es[k], l, t) && !KillsThread(ss[k], es[k], t)
    ensures WaitsUntimed(ss[n], l, t)
    decreases n
  {
    hide Inv, Next, Serves, KillsThread;
    if n > 0 {
      WaitsForever(ss, es, l, t, n - 1);
      RunInv(ss, es, n - 1);
      assert StepAt(ss, es, n - 1);
      InvCore(ss[n - 1]);
      if es[n - 1].Ticks? {
        NextTicks(ss[n - 1]);
        UntimedTicks(ss[n - 1], l, t);
      } else {
        ServedInOwnList(ss[n - 1], es[n - 1], l, t);
        IdleKept(ss[n - 1], es[n - 1], t);
      }
    }
  }

  /** rt_sem_take with a negative time starts such a wait. */
  lemma TakeForeverWaits(s: State, i: nat, time: int)
    requires Inv(s) && Enabled(s, Takes(i, time)) && Shapes(s) && Started(s) && s.sems[i].value == 0 && time < 0
    ensures WaitsUntimed(Next(s, Takes(i, time)), SemWait(i), s.cur.value)
  {
    hide Inv, Block, Best;
    InvCore(s);
    FitsAt(s, s.cur.value);
    BlockedFor(s, SemWait(i), time);
  }

  /** And so does rt_mb_send_wait to a full mailbox. */
  lemma SendForeverWaits(s: State, i: nat, v: nat, timeout: int)
    requires Inv(s) && Enabled(s, Sends(i, v, timeout)) && Shapes(s) && Started(s) && s.boxes[i].entry == s.boxes[i].size && timeout < 0
    ensures WaitsUntimed(Next(s, Sends(i, v, timeout)), SendWait(i), s.cur.value)
  {
    hide Inv, Block, Best;
    InvCore(s);
    FitsAt(s, s.cur.value);
    BlockedFor(s, SendWait(i), timeout);
  }

  // ---------------------------------------------------------------------------
  // How long a thread keeps the processor.

  /** The ticks left of a slice; the counter goes down before it is compared with 0, so 0 is a whole turn of it. */
  function SliceLeft(h: Thread): (n: nat)
    ensures n >= 1
  {
    if h.remaining == 0 then WRAP else h.remaining
  }

  /** The same thread is current, with `left` ticks of its slice left; or there was a hand-over. */
  predicate KeepsOrHandsOver(s: State, s': State, left: int) {
    || s'.switches > s.switches
    || (s'.switches == s.switches && s'.cur == s.cur && Started(s') && Cur(s').remaining < WRAP && SliceLeft(Cur(s')) == left)
  }

  lemma ScheduleCounts(s: State)
    requires Core(s)
    ensures Schedule(s).switches >= s.switches
    ensures s.cur.Some? && AnyReady(s) ==> Schedule(s).switches == s.switches + 1
  {
    hide Core, Best;
    if s.cur.Some? {
      CurStarted(s);
      SwitchesIfReady(s);
    }
    if CanSwitch(s) {
      ScheduleLists(s);
    } else {
      ScheduleIdle(s);
    }
  }

  lemma CurStarted(s: State)
    requires Core(s) && s.cur.Some?
    ensures Started(s)
  {
  }

  lemma FireCounts(s: State, t: Tid)
    requires Core(s) && Due(s, t)
    ensures Fire(s, t).switches >= s.switches && (s.cur.Some? && AnyReady(s) ==> Fire(s, t).switches > s.switches)
  {
    hide Core, Schedule, Fire, Best, Without;
    FireIsMove(s, t);
    var m := TimedOut(s, t);
    TimedOutCore(s, t);
    ScheduleCounts(m);
    if AnyReady(s) {
      BestIsFirst(s.lists, 0);
      var p := Best(s.lists, 0);
      TimedOutQueued(s, t, ReadyAt(p));
      ReadyHere(m, p);
    }
  }

  lemma {:induction false} TimerCheckCounts(s: State, ts: seq<Tid>)
    requires Core(s)
    ensures TimerCheck(s, ts).switches >= s.switches
    ensures s.cur.Some? && AnyReady(s) ==> TimerCheck(s, ts) == s || TimerCheck(s, ts).switches > s.switches
    decreases |ts|
  {
    hide Core, Fire, Best;
    if ts != [] {
      if Due(s, ts[0]) {
        FireCounts(s, ts[0]);
        FireQuiet(s, ts[0]);
        TimerCheckCounts(Fire(s, ts[0]), ts[1..]);
      } else {
        TimerCheckCounts(s, ts[1..]);
      }
    }
  }

  /** A tick uses up one tick of the slice, and the last one hands over. */
  lemma TickSlices(s: State)
    requires Inv(s) && Started(s) && AnyReady(s) && Cur(s).remaining < WRAP
    ensures KeepsOrHandsOver(s, Tick(s), SliceLeft(Cur(s)) - 1)
    ensures SliceLeft(Cur(s)) == 1 ==> Tick(s).switches > s.switches
  {
    hide Inv, Core, Schedule, TimerCheck, Best;
    InvCore(s);
    TickedCore(s);
    var s1 := Ticked(s);
    var left := SliceLeft(Cur(s)) - 1;
    assert (Cur(s).remaining + WRAP - 1) % WRAP == left;
    SetRemaining(s1, if left == 0 then Cur(s).slice else left);
    SliceQuiet(s1);
    TimerCheckCounts(Slice(s1), Slice(s1).timers);
    if left == 0 {
      ScheduleCounts(Set(s1, s.cur.value, Cur(s).(remaining := Cur(s).slice)));
    }
  }

  /** No other event touches the slice of the current thread. */
  lemma StepSlices(s: State, e: Event)
    requires Inv(s) && Enabled(s, e) && Shapes(s) && Started(s) && AnyReady(s) && !e.Ticks?
    requires Cur(s).remaining < WRAP
    ensures KeepsOrHandsOver(s, Next(s, e), SliceLeft(Cur(s)))
  {
    hide Core, SemsOk, BoxesOk, CurOk, Queued, Schedule, Best, Without, Attach, Detach, Sleep, Block, Close, Release, Send, Recv, Take;
    match e
    case Schedules => ScheduleCounts(s);
    case Kills(x) =>
      if x in s.threads && !s.threads[x].system {
        ClosePlain(s, x, s.cur.value);
        if s.cur == Some(x) {
          CloseInv(s, x);
          CloseKeepsReady(s, x);
          ScheduleCounts(Close(s, x));
        }
      }
    case Joins(_, _, _, _) =>
    case Reaps => CurNotDead(s);
    case Starts =>
    case Ticks =>
    case _ => PlainStep(s, e, s.cur.value);
  }

  lemma CurNotDead(s: State)
    requires Core(s) && Started(s) && Cur(s).status == RUNNING
    ensures s.cur.value !in Queued(s, Dead)
  {
    assert Agrees(s, Dead, s.cur.value) && Placed(s, s.cur.value);
  }

  lemma CloseKeepsReady(s: State, t: Tid)
    requires Core(s) && s.cur == Some(t) && Started(s) && AnyReady(s) && Cur(s).status == RUNNING
    ensures AnyReady(Close(s, t))
  {
    hide Core, Close, Best;
    CloseIsMove(s, t);
    FitsAt(s, t);
    BestIsFirst(s.lists, 0);
    var p := Best(s.lists, 0);
    QueuedMove(s, t, Closed(s.threads[t]), true, ReadyAt(p));
    ReadyHere(Close(s, t), p);
  }

  lemma {:induction false} SliceShrinks(ss: seq<State>, es: seq<Event>, n: nat)
    requires Run(ss, es) && Inv(ss[0]) && n <= |es| && Started(ss[0]) && Cur(ss[0]).remaining < WRAP
    requires forall k | 0 <= k <= n :: AnyReady(ss[k])
    ensures KeepsOrHandsOver(ss[0], ss[n], SliceLeft(Cur(ss[0])) - TicksIn(es, n))
    ensures TicksIn(es, n) >= SliceLeft(Cur(ss[0])) ==> ss[n].switches > ss[0].switches
    decreases n
  {
    hide Inv, Next, Best;
    if n > 0 {
      SliceShrinks(ss, es, n - 1);
      RunInv(ss, es, n - 1);
      assert StepAt(ss, es, n - 1) && AnyReady(ss[n - 1]);
      SwitchesGrow(ss[n - 1], es[n - 1]);
      if ss[n - 1].switches == ss[0].switches {
        if es[n - 1].Ticks? {
          NextTicks(ss[n - 1]);
          TickSlices(ss[n - 1]);
        } else {
          StepSlices(ss[n - 1], es[n - 1]);
        }
      }
    }
  }

  lemma SwitchesGrow(s: State, e: Event)
    requires Inv(s) && Enabled(s, e) && Shapes(s)
    ensures Next(s, e).switches >= s.switches
  {
    hide Core, SemsOk, BoxesOk, CurOk, Queued, Schedule, Best, Without, Attach, Detach, Sleep, Block, Close, Release, Send, Recv, Take, TimerCheck;
    match e
    case Schedules => ScheduleCounts(s);
    case Ticks => TickCounts(s);
    case Kills(x) =>
      if x in s.threads && !s.threads[x].system {
        ClosePlain(s, x, x);
        if s.cur == Some(x) {
          CloseInv(s, x);
          ScheduleCounts(Close(s, x));
        }
      }
    case Joins(_, _, _, _) =>
    case Reaps =>
    case Starts =>
    case _ => PlainStep(s, e, 0);
  }

  lemma TickCounts(s: State)
    requires Core(s)
    ensures Tick(s).switches >= s.switches
  {
    hide Core, Schedule, TimerCheck;
    TickedCore(s);
    var s1 := Ticked(s);
    if s.cur.Some? {
      CurStarted(s1);
      SliceQuiet(s1);
      TimerCheckCounts(Slice(s1), Slice(s1).timers);
      SetRemaining(s1, Cur(s1).slice);
      ScheduleCounts(Set(s1, s1.cur.value, Cur(s1).(remaining := Cur(s1).slice)));
    }
  }

  /**
   Time slicing: while another thread is ready, the current thread keeps the processor for at most
   the ticks left of its slice. With RunsSoon this bounds the wait of a ready thread in ticks.
   */
  lemma SliceExpires(ss: seq<State>, es: seq<Event>, n: nat)
    requires Run(ss, es) && Inv(ss[0]) && n <= |es| && Started(ss[0]) && Cur(ss[0]).remaining < WRAP
    requires forall k | 0 <= k <= n :: AnyReady(ss[k])
    requires TicksIn(es, n) >= SliceLeft(Cur(ss[0]))
    ensures ss[n].switches > ss[0].switches
  {
    hide Inv, Next, Best;
    SliceShrinks(ss, es, n);
  }

  // ---------------------------------------------------------------------------
  // Blocking when nobody is ready, which the steps above exclude.

  lemma SleepKeepsLists(s: State, ticks: nat)
    requires Core(s) && Started(s) && Cur(s).status == RUNNING
    ensures Sleep(s, ticks).lists == s.lists && Sleep(s, ticks).cur == s.cur && Started(Sleep(s, ticks))
    ensures Cur(Sleep(s, ticks)).status == SLEEP && s.cur.value in Sleep(s, ticks).timers
  {
    hide Core, Sleep, Attach, Detach;
    SleepIsMove(s, ticks);
    FitsAt(s, s.cur.value);
    DetachTwice(s.lists, None, s.cur.value);
  }

  /**
   rt_thread_sleep hands over exactly when some thread is ready. Otherwise rt_schedule returns and the
   sleeper runs on, and its next rt_thread_sleep links its timer a second time: rt_thread_suspend
   returns early, rt_timer_start does not.
   */
  lemma SleepAlone(s: State, ticks: nat, again: nat)
    requires Core(s) && Free(s)
    ensures
      var s1 := Sleep(s, ticks);
      && Core(s1) && Started(s1)
      && (Schedule(s1).cur == s.cur <==> !AnyReady(s))
      && (!AnyReady(s) ==> Schedule(s1) == s1 && Cur(s1).status == SLEEP && !NoDup(Sleep(s1, again).timers))
  {
    hide Core, Schedule, Best, Linked;
    var s1, t := Sleep(s, ticks), s.cur.value;
    SleepKeepsLists(s, ticks);
    FitsAt(s, t);
    SleepIsMove(s, ticks);
    MoveCore(s, t, Asleep(s, ticks), false);
    SwitchesIfReady(s1);
    if CanSwitch(s1) {
      ScheduleLists(s1);
      TopReady(s1);
    } else {
      ScheduleIdle(s1);
    }
    SecondSleep(s1, again);
  }

  lemma SecondSleep(s: State, ticks: nat)
    requires Started(s) && Cur(s).status == SLEEP && s.cur.value in s.timers
    ensures !NoDup(Sleep(s, ticks).timers)
  {
    var t, ts := s.cur.value, [s.cur.value] + s.timers;
    assert Sleep(s, ticks).timers == ts;
    var i :| 0 <= i < |s.timers| && s.timers[i] == t;
    assert ts[0] == t && ts[i + 1] == t;
  }

  /**
   A wait that nobody is ready for: rt_schedule returns, and the call that blocked returns success
   without a token or message, its thread still in the list.
   */
  lemma BlockAlone(s: State, l: Queue, time: int)
    requires Core(s) && Started(s) && Cur(s).status == RUNNING && Waiting(l) && l in s.lists && !AnyReady(s)
    ensures
      var s1 := Block(s, l, time);
      && Schedule(s1) == s1 && s1.cur == s.cur && s.cur.value in Queued(s1, l)
      && s.cur.value in s1.threads && s1.threads[s.cur.value].status == SUSPEND && !s1.threads[s.cur.value].timedOut
  {
    hide Core, Schedule, Block, Move;
    BlockedFor(s, l, time);
    BlockWaiters(s, l, time, l);
    var s1 := Block(s, l, time);
    forall p: nat | p < LEVELS
      ensures Queued(s1, ReadyAt(p)) == Queued(s, ReadyAt(p))
    {
      BlockLevels(s, l, time, p);
    }
    if AnyReady(s1) {
      SomebodyReady(s, s1);
    }
    ScheduleIdle(s1);
  }

  lemma BlockLevels(s: State, l: Queue, time: int, p: nat)
    requires Core(s) && Started(s) && Cur(s).status == RUNNING && Waiting(l)
    ensures Queued(Block(s, l, time), ReadyAt(p)) == Queued(s, ReadyAt(p))
  {
    hide Core, Block, Move;
    BlockIsMove(s, l, time);
    FitsAt(s, s.cur.value);
    if ReadyAt(p) in s.lists {
      QueuedMove(s, s.cur.value, Parked(s, l, time), false, ReadyAt(p));
    } else {
      QueuedUnknown(s, s.cur.value, Parked(s, l, time), false, ReadyAt(p));
    }
  }

  lemma SomebodyReady(s: State, s': State)
    requires AnyReady(s') && forall p: nat | p < LEVELS :: Queued(s', ReadyAt(p)) == Queued(s, ReadyAt(p))
    ensures AnyReady(s)
  {
    BestIsFirst(s'.lists, 0);
    var p := Best(s'.lists, 0);
    assert Queued(s', ReadyAt(p)) != [];
    ReadyHere(s, p);
  }
}
