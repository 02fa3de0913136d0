/** What the scheduler and the tick interrupt do to the lists and threads, and what they leave alone. */
module KernelTick {
  import opened Base
  import opened KernelState
  import opened KernelInvariant
  import opened KernelSteps

  // ---------------------------------------------------------------------------
  // Order in a list.

  /** a is ahead of b. */
  ghost predicate Before(q: seq<Tid>, a: Tid, b: Tid) {
    exists i, j :: 0 <= i < j < |q| && q[i] == a && q[j] == b
  }

  lemma {:induction false} WithoutBefore(q: seq<Tid>, t: Tid, a: Tid, b: Tid)
    requires Before(q, a, b) && a != t && b != t
    ensures Before(Without(q, t), a, b)
  {
    var i, j :| 0 <= i < j < |q| && q[i] == a && q[j] == b;
    var r := Without(q[1..], t);
    if i == 0 {
      assert q[1..][j - 1] == b;
      WithoutMember(q[1..], t, b);
      var k :| 0 <= k < |r| && r[k] == b;
      assert Without(q, t) == [a] + r;
      assert Without(q, t)[0] == a && Without(q, t)[k + 1] == b;
    } else {
      assert q[1..][i - 1] == a && q[1..][j - 1] == b;
      WithoutBefore(q[1..], t, a, b);
      var k, l :| 0 <= k < l < |r| && r[k] == a && r[l] == b;
      var d := if q[0] == t then 0 else 1;
      assert Without(q, t)[k + d] == a && Without(q, t)[l + d] == b;
    }
  }

  lemma EndsBefore(q: seq<Tid>, t: Tid, a: Tid, b: Tid)
    requires Before(q, a, b)
    ensures Before(q + [t], a, b)
  {
    var i, j :| 0 <= i < j < |q| && q[i] == a && q[j] == b;
    assert (q + [t])[i] == a && (q + [t])[j] == b;
  }

  // ---------------------------------------------------------------------------
  // One list under a move and under the scheduler.

  function Taken(q: seq<Tid>, t: Tid, out: bool): seq<Tid> {
    if out then Without(q, t) else q
  }

  function Given(q: seq<Tid>, t: Tid, into: bool, front: bool): seq<Tid> {
    if !into then q else if front then [t] + q else q + [t]
  }

  lemma QueuedMove(s: State, t: Tid, th: Thread, front: bool, l: Queue)
    requires t in s.threads && l in s.lists
    ensures
      var q := Taken(Queued(s, l), t, s.threads[t].at == Some(l));
      l in Move(s, t, th, front).lists && Queued(Move(s, t, th, front), l) == Given(q, t, th.at == Some(l), front)
  {
    hide Without;
  }

  lemma QueuedUnknown(s: State, t: Tid, th: Thread, front: bool, l: Queue)
    requires t in s.threads && l !in s.lists
    ensures l !in Move(s, t, th, front).lists
  {
    hide Without;
  }

  /** A list after a hand-over: the old thread at its end, the chosen one gone from its head. */
  function Rotated(q: seq<Tid>, from: Tid, back: bool, head: bool): seq<Tid> {
    var g := Given(q, from, back, false);
    if head && g != [] then g[1..] else g
  }

  lemma QueuedSchedule(s: State, l: Queue)
    requires Core(s) && CanSwitch(s) && l in s.lists
    ensures l in Schedule(s).lists
    ensures Queued(Schedule(s), l)
         == Rotated(Queued(s, l), s.cur.value, GoesBack(Cur(s).status) && l == ReadyAt(Cur(s).prio), l == ReadyAt(Best(s.lists, 0)))
  {
    hide Without, Schedule, NoDup, Best;
    TopReady(s);
    ScheduleLists(s);
    FitsAt(s, s.cur.value);
    var from, to := s.cur.value, Top(s);
    var q := Given(Queued(s, l), from, GoesBack(Cur(s).status) && l == ReadyAt(Cur(s).prio), false);
    if l == ReadyAt(Best(s.lists, 0)) {
      HeadOfLevel(s);
      assert Agrees(s, l, from);
      GivenNoDup(Queued(s, l), from);
      WithoutHead(q);
    }
  }

  lemma GivenNoDup(q: seq<Tid>, t: Tid)
    requires NoDup(q)
    ensures t !in q ==> NoDup(q + [t])
  {
    if t !in q {
      EndsNoDup(q, t);
    }
  }

  lemma HeadOfLevel(s: State)
    requires AnyReady(s)
    ensures ReadyAt(Best(s.lists, 0)) in s.lists && s.lists[ReadyAt(Best(s.lists, 0))] != []
    ensures s.lists[ReadyAt(Best(s.lists, 0))][0] == Top(s)
  {
    BestIsFirst(s.lists, 0);
  }

  // ---------------------------------------------------------------------------
  // What a scheduler or timer action may do.

  predicate Runnable(th: Thread) {
    th.status == READY || th.status == RUNNING
  }

  /** How many are ahead of t. */
  function Pos(q: seq<Tid>, t: Tid): nat {
    if q == [] || q[0] == t then 0 else 1 + Pos(q[1..], t)
  }

  lemma {:induction false} PosAppend(q: seq<Tid>, t: Tid, x: Tid)
    requires t in q
    ensures Pos(q + [x], t) == Pos(q, t)
  {
    assert (q + [x])[0] == q[0];
    if q[0] != t {
      assert (q + [x])[1..] == q[1..] + [x];
      PosAppend(q[1..], t, x);
    }
  }

  /** Thread x runs or is ready, with a smaller priority number than p. */
  predicate Better(s: State, p: nat, x: Tid) {
    x in s.threads && Runnable(s.threads[x]) && s.threads[x].prio < p
  }

  ghost predicate NoBetter(s: State, p: nat) {
    forall x :: !Better(s, p, x)
  }

  /** The thread's timer was due and it has been made runnable. */
  predicate Woke(tick: nat, a: Thread, b: Thread) {
    && a.active && tick > a.deadline && !Runnable(a)
    && Runnable(b) && b.timedOut && !b.active
  }

  /** The thread is as it was, except that a runnable thread may change between READY and RUNNING. */
  predicate Stays(a: Thread, b: Thread) {
    && b.timedOut == a.timedOut && b.active == a.active && b.deadline == a.deadline
    && (if Runnable(a) then Runnable(b) else b.status == a.status && b.at == a.at)
  }

  predicate ThreadQuiet(tick: nat, a: Thread, b: Thread) {
    b.prio == a.prio && b.woken == a.woken && b.system == a.system && a.runs <= b.runs && (Runnable(b) || b.runs == a.runs) && (Woke(tick, a, b) || Stays(a, b))
  }

  predicate QuietAt(s: State, s': State, t: Tid) {
    t in s.threads ==> t in s'.threads && ThreadQuiet(s.tick, s.threads[t], s'.threads[t])
  }

  /** Waiting lists only lose members. */
  predicate Shrinks(s: State, s': State, l: Queue, x: Tid) {
    Waiting(l) && x in Queued(s', l) ==> x in Queued(s, l)
  }

  /** Those who stay in a waiting list keep their order. */
  ghost predicate OrderKept(s: State, s': State, l: Queue, a: Tid, b: Tid) {
    Waiting(l) && a in Queued(s', l) && b in Queued(s', l) && Before(Queued(s, l), a, b) ==> Before(Queued(s', l), a, b)
  }

  /** While nothing better is runnable, a ready thread runs or moves up one place per hand-over. */
  ghost predicate Advances(s: State, s': State, t: Tid) {
    t in s.threads && t in s'.threads && s.threads[t].status == READY && NoBetter(s', s.threads[t].prio) ==>
      || s'.threads[t].runs > s.threads[t].runs
      || (s'.threads[t].status == READY
          && Pos(Queued(s', ReadyAt(s.threads[t].prio)), t) + s'.switches <= Pos(Queued(s, ReadyAt(s.threads[t].prio)), t) + s.switches)
  }

  ghost predicate Quiet(s: State, s': State) {
    && s'.sems == s.sems && s'.boxes == s.boxes && s'.tick == s.tick
    && s'.threads.Keys == s.threads.Keys && s'.lists.Keys == s.lists.Keys && s'.cur.Some? == s.cur.Some?
    && (forall t :: QuietAt(s, s', t))
    && (forall l, x :: Shrinks(s, s', l, x))
    && (forall l, a, b :: OrderKept(s, s', l, a, b))
    && (forall t :: Advances(s, s', t))
  }

  lemma QuietSelf(s: State)
    ensures Quiet(s, s)
  {
    hide Pos, NoBetter, Before;
    assert forall t :: QuietAt(s, s, t) && Advances(s, s, t);
    assert forall l, x :: Shrinks(s, s, l, x);
    assert forall l, a, b :: OrderKept(s, s, l, a, b);
  }

  lemma NoBetterBack(s: State, s': State, p: nat)
    requires (forall t :: QuietAt(s, s', t)) && NoBetter(s', p)
    ensures NoBetter(s, p)
  {
    forall x
      ensures !Better(s, p, x)
    {
      assert QuietAt(s, s', x) && !Better(s', p, x);
    }
  }

  lemma QuietTransitive(s: State, m: State, r: State)
    requires Quiet(s, m) && Quiet(m, r)
    ensures Quiet(s, r)
  {
    hide Pos, NoBetter, Before, Queued;
    forall t
      ensures QuietAt(s, r, t) && Advances(s, r, t)
    {
      QuietTransitiveAt(s, m, r, t);
    }
    forall l, x
      ensures Shrinks(s, r, l, x)
    {
      assert Shrinks(s, m, l, x) && Shrinks(m, r, l, x);
    }
    forall l, a, b
      ensures OrderKept(s, r, l, a, b)
    {
      assert Shrinks(m, r, l, a) && Shrinks(m, r, l, b);
      assert OrderKept(s, m, l, a, b) && OrderKept(m, r, l, a, b);
    }
  }

  lemma QuietTransitiveAt(s: State, m: State, r: State, t: Tid)
    requires Quiet(s, m) && Quiet(m, r)
    ensures QuietAt(s, r, t) && Advances(s, r, t)
  {
    hide Pos, NoBetter, Before, Queued, Quiet;
    QuietParts(s, m, t);
    QuietParts(m, r, t);
    if t in s.threads && t in r.threads && s.threads[t].status == READY && NoBetter(r, s.threads[t].prio) {
      NoBetterQuiet(m, r, s.threads[t].prio);
    }
  }

  lemma QuietParts(s: State, s': State, t: Tid)
    requires Quiet(s, s')
    ensures QuietAt(s, s', t) && Advances(s, s', t) && s'.tick == s.tick && s'.threads.Keys == s.threads.Keys
  {
    hide Advances, ThreadQuiet;
  }

  lemma NoBetterQuiet(s: State, s': State, p: nat)
    requires Quiet(s, s') && NoBetter(s', p)
    ensures NoBetter(s, p)
  {
    NoBetterBack(s, s', p);
  }

  // ---------------------------------------------------------------------------
  // The scheduler is quiet.

  lemma ReadyHere(s: State, p: nat)
    requires p < LEVELS && ReadyAt(p) in s.lists && s.lists[ReadyAt(p)] != []
    ensures AnyReady(s) && Best(s.lists, 0) <= p
  {
    BestIsFirst(s.lists, 0);
  }

  lemma ScheduleThreadsQuiet(s: State, t: Tid)
    requires Core(s) && CanSwitch(s)
    ensures QuietAt(s, Schedule(s), t)
  {
    hide Schedule, Best, Core;
    TopReady(s);
    ScheduleThreads(s);
    if Started(s) {
      FitsAt(s, s.cur.value);
    }
  }

  lemma ScheduleWaiting(s: State, l: Queue)
    requires Core(s) && CanSwitch(s) && Waiting(l)
    ensures Queued(Schedule(s), l) == Queued(s, l)
  {
    hide Schedule, Best, Core;
    ScheduleKeys(s);
    if l in s.lists {
      QueuedSchedule(s, l);
    } else {
      assert l !in Schedule(s).lists.Keys;
    }
  }

  lemma ScheduleKeys(s: State)
    requires Core(s)
    ensures Schedule(s).lists.Keys == s.lists.Keys
  {
    ScheduleLinked(s);
  }

  lemma ScheduleAdvances(s: State, t: Tid)
    requires Core(s) && CanSwitch(s)
    ensures Advances(s, Schedule(s), t)
  {
    hide Schedule, Best, Core, Pos, NoBetter;
    if t in s.threads && s.threads[t].status == READY && NoBetter(Schedule(s), s.threads[t].prio) {
      var p, to, from, r := s.threads[t].prio, Top(s), s.cur.value, Schedule(s);
      FitsAt(s, t);
      FitsAt(s, from);
      InLevel(s, t);
      ReadyHere(s, p);
      TopReady(s);
      ScheduleThreads(s);
      ScheduleLists(s);
      TopNotBetter(s, p);
      QueuedSchedule(s, ReadyAt(p));
      HeadOfLevel(s);
      if t != to {
        MovesUp(Queued(s, ReadyAt(p)), t, from, GoesBack(Cur(s).status) && p == Cur(s).prio);
      }
    }
  }

  lemma InLevel(s: State, t: Tid)
    requires Core(s) && t in s.threads && s.threads[t].at.Some?
    ensures s.threads[t].at.value in s.lists && t in s.lists[s.threads[t].at.value]
  {
    assert Agrees(s, s.threads[t].at.value, t);
  }

  /** The chosen thread runs afterwards, so it is not better than p when nothing is. */
  lemma TopNotBetter(s: State, p: nat)
    requires Core(s) && CanSwitch(s) && NoBetter(Schedule(s), p)
    ensures Best(s.lists, 0) >= p
  {
    hide Schedule, Best, Core;
    TopReady(s);
    ScheduleThreads(s);
    assert !Better(Schedule(s), p, Top(s));
  }

  lemma MovesUp(q: seq<Tid>, t: Tid, from: Tid, back: bool)
    requires t in q && q[0] != t
    ensures Pos(Rotated(q, from, back, true), t) == Pos(q, t) - 1
  {
    assert t in q[1..];
    if back {
      assert (q + [from])[1..] == q[1..] + [from];
      PosAppend(q[1..], t, from);
    }
  }

  lemma ScheduleQuiet(s: State)
    requires Core(s)
    ensures Quiet(s, Schedule(s))
  {
    hide Schedule, Core, Queued, Before, QuietAt, Advances, CanSwitch;
    if !CanSwitch(s) {
      ScheduleIdle(s);
      QuietSelf(s);
    } else {
      var r := Schedule(s);
      ScheduleKeys(s);
      ScheduleRest(s);
      forall t
        ensures QuietAt(s, r, t) && Advances(s, r, t)
      {
        ScheduleThreadsQuiet(s, t);
        ScheduleAdvances(s, t);
      }
      forall l | Waiting(l)
        ensures Queued(r, l) == Queued(s, l)
      {
        ScheduleWaiting(s, l);
      }
      assert forall l, x :: Shrinks(s, r, l, x);
      assert forall l, a, b :: OrderKept(s, r, l, a, b);
    }
  }

  lemma ScheduleRest(s: State)
    requires CanSwitch(s)
    ensures
      var r := Schedule(s);
      && r.sems == s.sems && r.boxes == s.boxes && r.tick == s.tick && r.timers == s.timers && r.cur.Some? && s.cur.Some?
      && r.threads.Keys == s.threads.Keys
  {
    ScheduleThreads(s);
  }

  // ---------------------------------------------------------------------------
  // Timers are quiet.

  /** A due timer's thread, moved to its ready list. */
  function TimedOut(s: State, t: Tid): State
    requires t in s.threads
  {
    Move(s, t, Awake(s, t).(timedOut := true), false)
  }

  lemma TimedOutCore(s: State, t: Tid)
    requires Core(s) && Due(s, t)
    ensures Core(TimedOut(s, t)) && TimedOut(s, t).lists.Keys == s.lists.Keys
  {
    hide Linked;
    FitsAt(s, t);
    assert Known(s, ReadyAt(s.threads[t].prio));
    MoveCore(s, t, Awake(s, t).(timedOut := true), false);
    PutLinked(s, t, Awake(s, t).(timedOut := true), false);
  }

  lemma TimedOutQueued(s: State, t: Tid, l: Queue)
    requires Core(s) && Due(s, t)
    ensures Waiting(l) ==> Queued(TimedOut(s, t), l) == Queued(s, l) || Queued(TimedOut(s, t), l) == Without(Queued(s, l), t)
    ensures l.ReadyAt? ==> Queued(TimedOut(s, t), l) == Queued(s, l) || Queued(TimedOut(s, t), l) == Queued(s, l) + [t]
  {
    hide Core;
    FitsAt(s, t);
    if l in s.lists {
      QueuedMove(s, t, Awake(s, t).(timedOut := true), false, l);
    } else {
      QueuedUnknown(s, t, Awake(s, t).(timedOut := true), false, l);
    }
  }

  lemma TimedOutQuiet(s: State, t: Tid)
    requires Core(s) && Due(s, t)
    ensures Quiet(s, TimedOut(s, t))
  {
    hide Core, Queued, Before, Pos;
    var r := TimedOut(s, t);
    TimedOutCore(s, t);
    FitsAt(s, t);
    forall x
      ensures QuietAt(s, r, x) && Advances(s, r, x)
    {
      TimedOutAdvances(s, t, x);
    }
    forall l, x
      ensures Shrinks(s, r, l, x)
    {
      TimedOutQueued(s, t, l);
      WithoutMember(Queued(s, l), t, x);
    }
    forall l, a, b
      ensures OrderKept(s, r, l, a, b)
    {
      TimedOutQueued(s, t, l);
      WithoutMember(Queued(s, l), t, a);
      WithoutMember(Queued(s, l), t, b);
      if Queued(r, l) == Without(Queued(s, l), t) && Before(Queued(s, l), a, b) && a != t && b != t {
        WithoutBefore(Queued(s, l), t, a, b);
      }
    }
  }

  lemma TimedOutAdvances(s: State, t: Tid, x: Tid)
    requires Core(s) && Due(s, t)
    ensures Advances(s, TimedOut(s, t), x)
  {
    hide Core, Queued, Pos, NoBetter, Without;
    FitsAt(s, t);
    if x in s.threads && s.threads[x].status == READY {
      FitsAt(s, x);
      InLevel(s, x);
      var l := ReadyAt(s.threads[x].prio);
      TimedOutQueued(s, t, l);
      QueuedIs(s, l);
      PosAppend(Queued(s, l), x, t);
    }
  }

  lemma QueuedIs(s: State, l: Queue)
    ensures l in s.lists ==> Queued(s, l) == s.lists[l]
  {
  }

  lemma FireQuiet(s: State, t: Tid)
    requires Core(s) && Due(s, t)
    ensures Core(Fire(s, t)) && Quiet(s, Fire(s, t))
    ensures t in Fire(s, t).threads && !Due(Fire(s, t), t)
  {
    hide Core, Quiet, Schedule, TimedOut, Fire, Move;
    FireIsMove(s, t);
    var m := TimedOut(s, t);
    TimedOutCore(s, t);
    TimedOutQuiet(s, t);
    ScheduleCore(m);
    ScheduleQuiet(m);
    QuietTransitive(s, m, Schedule(m));
    QuietParts(s, m, t);
    QuietParts(m, Schedule(m), t);
    NoLongerActive(s, t);
    assert Fire(s, t) == Schedule(m) by {
      TimedOutDef(s, t);
    }
  }

  lemma TimedOutDef(s: State, t: Tid)
    requires t in s.threads
    ensures TimedOut(s, t) == Move(s, t, Awake(s, t).(timedOut := true), false)
  {
  }

  lemma NoLongerActive(s: State, t: Tid)
    requires t in s.threads
    ensures t in TimedOut(s, t).threads && !TimedOut(s, t).threads[t].active
  {
  }

  /** A timer that is not due stays so through quiet actions. */
  lemma NotDueQuiet(s: State, s': State, t: Tid)
    requires Quiet(s, s') && !Due(s, t)
    ensures !Due(s', t)
  {
    hide Quiet;
    QuietParts(s, s', t);
    assert t in s.threads.Keys <==> t in s'.threads.Keys;
  }

  /** rt_timer_check fires every timer that is due and does nothing else. */
  lemma {:induction false} TimerCheckQuiet(s: State, ts: seq<Tid>)
    requires Core(s)
    ensures Core(TimerCheck(s, ts)) && Quiet(s, TimerCheck(s, ts))
    ensures forall t | t in ts :: !Due(TimerCheck(s, ts), t)
    decreases |ts|
  {
    hide Core, Quiet, Fire;
    if ts == [] {
      QuietSelf(s);
    } else {
      var m := if Due(s, ts[0]) then Fire(s, ts[0]) else s;
      if Due(s, ts[0]) {
        FireQuiet(s, ts[0]);
      } else {
        QuietSelf(s);
      }
      TimerCheckQuiet(m, ts[1..]);
      QuietTransitive(s, m, TimerCheck(m, ts[1..]));
      NotDueQuiet(m, TimerCheck(m, ts[1..]), ts[0]);
      assert ts == [ts[0]] + ts[1..];
    }
  }

  // ---------------------------------------------------------------------------
  // The tick.

  lemma SetRemaining(s: State, left: nat)
    requires Core(s) && Started(s)
    ensures
      var r := Set(s, s.cur.value, Cur(s).(remaining := left));
      Core(r) && Quiet(s, r) && (CurOk(s) ==> CurOk(r))
  {
    hide Core, Before, Pos, NoBetter;
    var r := Set(s, s.cur.value, Cur(s).(remaining := left));
    FitsAt(s, s.cur.value);
    SetCore(s, s.cur.value, Cur(s).(remaining := left));
    assert forall t :: QuietAt(s, r, t) && Advances(s, r, t);
    assert forall l, x :: Shrinks(s, r, l, x);
    assert forall l, a, b :: OrderKept(s, r, l, a, b);
  }

  lemma SliceQuiet(s: State)
    requires Core(s)
    ensures Core(Slice(s)) && Quiet(s, Slice(s)) && (CurOk(s) ==> CurOk(Slice(s)))
  {
    hide Core, Quiet, CurOk, Schedule;
    if !Started(s) {
      QuietSelf(s);
    } else {
      var left := (Cur(s).remaining + WRAP - 1) % WRAP;
      SetRemaining(s, if left == 0 then Cur(s).slice else left);
      if left == 0 {
        var m := Set(s, s.cur.value, Cur(s).(remaining := Cur(s).slice));
        ScheduleCore(m);
        ScheduleQuiet(m);
        QuietTransitive(s, m, Schedule(m));
        if CurOk(s) {
          ScheduleCurOk(m);
        }
      }
    }
  }

  lemma ScheduleCurOk(s: State)
    requires Core(s) && CurOk(s)
    ensures CurOk(Schedule(s))
  {
    if Started(s) {
      ScheduleRuns(s);
    }
  }

  lemma TimedOutCurOk(s: State, t: Tid)
    requires Core(s) && CurOk(s) && Due(s, t)
    ensures CurOk(TimedOut(s, t))
  {
    hide Core, Without, Best;
    var r := TimedOut(s, t);
    if Started(r) && Cur(r).status != RUNNING {
      BestIsFirst(s.lists, 0);
      var p := Best(s.lists, 0);
      TimedOutQueued(s, t, ReadyAt(p));
      ReadyHere(r, p);
    }
  }

  lemma {:induction false} TimerCheckCurOk(s: State, ts: seq<Tid>)
    requires Core(s) && CurOk(s)
    ensures CurOk(TimerCheck(s, ts))
    decreases |ts|
  {
    hide Core, CurOk, Schedule, Fire, Move, TimedOut;
    if ts != [] {
      var m := if Due(s, ts[0]) then Fire(s, ts[0]) else s;
      if Due(s, ts[0]) {
        FireIsMove(s, ts[0]);
        TimedOutDef(s, ts[0]);
        TimedOutCore(s, ts[0]);
        TimedOutCurOk(s, ts[0]);
        ScheduleCurOk(TimedOut(s, ts[0]));
        FireQuiet(s, ts[0]);
      }
      TimerCheckCurOk(m, ts[1..]);
    }
  }

  function Ticked(s: State): State {
    s.(tick := (s.tick + 1) % WRAP)
  }

  lemma TickedCore(s: State)
    requires Core(s)
    ensures Core(Ticked(s)) && (CurOk(s) ==> CurOk(Ticked(s)))
  {
    hide Linked, NoDup;
    var r := Ticked(s);
    LinkedSame(s, r);
    DomainSame(s, r);
    forall t
      ensures Placed(r, t) && TimerAgrees(r, t)
    {
      assert Placed(s, t) && TimerAgrees(s, t);
    }
  }

  /** The handler: one tick on, and then only quiet actions, after which no timer is due. */
  lemma TickQuiet(s: State)
    requires Core(s)
    ensures Core(Tick(s)) && Quiet(Ticked(s), Tick(s)) && (CurOk(s) ==> CurOk(Tick(s)))
    ensures s.cur.Some? ==> forall t :: !Due(Tick(s), t)
  {
    hide Core, Quiet, CurOk, TimerCheck, Slice;
    TickedCore(s);
    if s.cur.None? {
      QuietSelf(Ticked(s));
    } else {
      var s2 := Slice(Ticked(s));
      SliceQuiet(Ticked(s));
      TimerCheckQuiet(s2, s2.timers);
      QuietTransitive(Ticked(s), s2, Tick(s));
      if CurOk(s) {
        TimerCheckCurOk(s2, s2.timers);
      }
      forall t
        ensures !Due(Tick(s), t)
      {
        if t !in s2.timers {
          NotListedNotDue(s2, t);
          NotDueQuiet(s2, Tick(s), t);
        }
      }
    }
  }

  lemma NotListedNotDue(s: State, t: Tid)
    requires Core(s) && t !in s.timers
    ensures !Due(s, t)
  {
    assert TimerAgrees(s, t);
  }
}
