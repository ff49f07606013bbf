// gyros__dyntick_update (src/timeout.c): the next timer interrupt is programmed for the first
// pending deadline, and switched off when there is none.

module DynTickSpec {
  import opened Seqs
  import opened Sched
  import opened Bystander
  import T = TimerSpec
  import A = AlarmSpec

  // The time that gyros__dyntick_update programs; None is gyros__dyntick_suspend.
  function Update(v: View, q: T.Timers): Option<int>
    requires Wf(v) && T.Wf(q)
  {
    Heads(v, q);
    if v.timeouts == [] then
      if q.list == [] then None else Some(q.deadline[q.list[0]])
    else if q.list == [] || v.deadline[v.timeouts[0]] - q.deadline[q.list[0]] < 0 then
      Some(v.deadline[v.timeouts[0]])
    else
      Some(q.deadline[q.list[0]])
  }

  lemma Heads(v: View, q: T.Timers)
    requires Wf(v) && T.Wf(q)
    ensures v.timeouts != [] ==> v.timeouts[0] in v.timeouts && v.timeouts[0] in v.deadline
    ensures q.list != [] ==> q.list[0] in q.list && q.list[0] in q.deadline
  {
  }

  // The programmed time is at or before every pending deadline.
  ghost predicate Covers(hw: Option<int>, v: View, q: T.Timers) {
    && (forall t {:trigger t in v.timeouts} :: t in v.timeouts ==>
      t in v.deadline && hw.Some? && hw.value <= v.deadline[t])
    && (forall x {:trigger x in q.list} :: x in q.list ==> x in q.deadline && hw.Some? && hw.value <= q.deadline[x])
  }

  lemma FirstIsLeast(v: View, t: Tid)
    requires Wf(v) && t in v.timeouts
    ensures v.timeouts[0] in v.deadline && t in v.deadline && v.deadline[v.timeouts[0]] <= v.deadline[t]
  {
    var j :| 0 <= j < |v.timeouts| && v.timeouts[j] == t;
    assert v.timeouts[0] in v.deadline && v.timeouts[j] in v.deadline;
    assert j > 0 ==> v.deadline[v.timeouts[0]] <= v.deadline[v.timeouts[j]];
  }

  // An update programs the first pending deadline, and suspends exactly when none is pending.
  lemma UpdateExact(v: View, q: T.Timers)
    requires Wf(v) && T.Wf(q)
    ensures var hw := Update(v, q);
      && Covers(hw, v, q)
      && (hw == None <==> v.timeouts == [] && q.list == [])
      && (hw.Some? ==> (exists t :: t in v.timeouts && t in v.deadline && v.deadline[t] == hw.value)
                       || (exists x :: x in q.list && x in q.deadline && q.deadline[x] == hw.value))
  {
    hide Wf, T.Wf;
    Heads(v, q);
    var hw := Update(v, q);
    forall t | t in v.timeouts ensures t in v.deadline && hw.Some? && hw.value <= v.deadline[t] {
      FirstIsLeast(v, t);
    }
    forall x | x in q.list ensures x in q.deadline && hw.Some? && hw.value <= q.deadline[x] {
      T.FirstIsEarliest(q, x);
    }
  }

  datatype State = State(v: View, q: T.Timers, hw: Option<int>)

  datatype Op =
    | KernelOp(op: Bystander.KernelOp)              // but not the tick, nor an alarm clock
    | TickOp(now: int)
    | TimerStartOp(t: T.Id, d: int, period: nat)
    | TimerStopOp(t: T.Id)
    | AlarmWaitOp(l: Lid, clock: A.Clock, c: int)
    | AlarmSetOp(l: Lid, d: int, c: int)
    | AlarmResetOp(l: Lid, clock: A.Clock)

  ghost predicate Enabled(s: State, op: Op) {
    match op
    case KernelOp(k) => KernelEnabled(s.v, {}, k) && !k.TickAt? && !k.SetAlarm? && !k.ResetAlarm?
    case TickOp(now) => true
    case TimerStartOp(t, d, period) => true
    case TimerStopOp(t) => true
    case AlarmWaitOp(l, clock, c) => l in s.v.lists && l != RUNNING && s.v.current != IDLE
    case AlarmSetOp(l, d, c) => l in s.v.lists && l != RUNNING
    case AlarmResetOp(l, clock) => l in s.v.lists && l != RUNNING
  }

  ghost predicate Inv(s: State) {
    Scheduling(s.v) && T.Wf(s.q) && Covers(s.hw, s.v, s.q)
  }

  // Does the source call gyros__dyntick_update?  It does where a deadline is set, in the
  // tick, and when alarm clocks move or drop the deadlines of waiters; not where a
  // deadline goes away because a task is woken or a timer is stopped.
  predicate Updates(v: View, op: Op) {
    match op
    case KernelOp(k) => k.BlockUntil? || k.SleepUntil?
    case TickOp(now) => true
    case TimerStartOp(t, d, period) => true
    case TimerStopOp(t) => false
    case AlarmWaitOp(l, clock, c) => clock.armed && clock.wakeup > c
    case AlarmSetOp(l, d, c) => l in v.lists && v.lists[l] != [] && d > c
    case AlarmResetOp(l, clock) => clock.armed && l in v.lists && v.lists[l] != []
  }

  ghost function StepView(s: State, op: Op): View
    requires Inv(s) && Enabled(s, op)
  {
    hide Wf, Scheduling, Covers, A.Wait, A.Set, A.Reset, KernelStep, Tick;
    RunsNow(s.v);
    match op
    case KernelOp(k) => KernelStep(s.v, {}, k)
    case TickOp(now) => Tick(s.v, now)
    case TimerStartOp(t, d, period) => s.v
    case TimerStopOp(t) => s.v
    case AlarmWaitOp(l, clock, c) => A.Wait(s.v, l, clock, c).v
    case AlarmSetOp(l, d, c) => A.Set(s.v, l, d, c).v
    case AlarmResetOp(l, clock) => A.Reset(s.v, l, clock).v
  }

  ghost function StepTimers(s: State, op: Op): T.Timers
    requires Inv(s) && Enabled(s, op)
  {
    match op
    case TickOp(now) => T.FireDue(s.q, now).v
    case TimerStartOp(t, d, period) => T.Start(s.q, t, d, period)
    case TimerStopOp(t) => T.Stop(s.q, t)
    case _ => s.q
  }

  // No deadline is new.
  ghost predicate Fewer(v: View, r: View) {
    forall t {:trigger t in r.timeouts} :: t in r.timeouts ==>
      t in v.timeouts && (t in v.deadline ==> t in r.deadline && r.deadline[t] == v.deadline[t])
  }

  // Where the source does not update, no deadline is new.
  lemma QuietKernel(v: View, k: Bystander.KernelOp)
    requires Scheduling(v) && KernelEnabled(v, {}, k) && !k.TickAt? && !k.SetAlarm? && !k.ResetAlarm?
    requires !k.BlockUntil? && !k.SleepUntil?
    ensures Fewer(v, KernelStep(v, {}, k))
  {
    hide Wf, Settled, Move, Resched, Wake, SetPrio, Create, Detach, Untime;
    RunsNow(v);
    FieldsKnown(v);
    TimeoutsKnown(v);
    match k
    case YieldOp => ReschedTimes(Move(v, v.current, RUNNING));
    case BlockOn(l) => ReschedTimes(Move(v, v.current, l));
    case WakeUp(x) => ReschedTimes(Wake(v, x));
    case SetPriority(x, p) =>
      BaseWf(v, x, p);
      ReschedTimes(SetPrio(v.(base := v.base[x := p]), x, p));
    case NewWaitList(l) =>
    case CreateTask(x, p, d, expired) =>
    case SuspendTask(x) => ReschedTimes(Untime(Detach(v, x), x));
  }

  lemma QuietAlarm(s: State, op: Op)
    requires Inv(s) && Enabled(s, op) && (op.AlarmWaitOp? || op.AlarmSetOp? || op.AlarmResetOp?) && !Updates(s.v, op)
    ensures Fewer(s.v, StepView(s, op))
  {
    hide Wf, Settled, Move, Arm, Resched, A.WakeEach, A.Retime, Covers, T.Wf, A.UntimeAll;
    RunsNow(s.v);
    match op
    case AlarmWaitOp(l, clock, c) => ReschedTimes(Move(s.v, s.v.current, l));
    case AlarmSetOp(l, d, c) =>
      ReschedTimes(A.WakeEach(s.v, l));
      A.WakeEachEffect(s.v, l);
    case AlarmResetOp(l, clock) =>
      A.UntimeNone(s.v);
  }

  // Every step leaves the scheduler in order.
  lemma ViewKept(s: State, op: Op)
    requires Inv(s) && Enabled(s, op)
    ensures Scheduling(StepView(s, op)) && Wf(StepView(s, op)) && T.Wf(StepTimers(s, op))
  {
    hide Wf, Settled, Move, Arm, Resched, A.WakeEach, A.Retime, A.UntimeAll, Covers, T.Wf, KernelStep, Tick, T.FireDue,
      T.Start, T.Stop;
    RunsNow(s.v);
    var v := s.v;
    match op
    case KernelOp(k) => KernelKeeps(v, {}, k);
    case TickOp(now) => TickKernel(v, now);
    case TimerStartOp(t, d, period) =>
    case TimerStopOp(t) =>
    case AlarmWaitOp(l, clock, c) =>
      if !clock.armed {
        Settles(Move(v, v.current, l));
      } else if clock.wakeup > c {
        Settles(Move(Arm(v, v.current, clock.wakeup), v.current, l));
      }
    case AlarmSetOp(l, d, c) => AlarmKernel(v, l, d, c);
    case AlarmResetOp(l, clock) =>
      A.ListedKnown(v, l);
      SchedulingKept(v, A.UntimeAll(v, v.lists[l]));
  }

  ghost function Step(s: State, op: Op): State
    requires Inv(s) && Enabled(s, op)
  {
    hide Inv, Enabled, StepView, StepTimers, Wf, T.Wf, Updates, Update;
    ViewKept(s, op);
    var v, q := StepView(s, op), StepTimers(s, op);
    State(v, q, if Updates(s.v, op) then Update(v, q) else s.hw)
  }

  lemma CoversFewer(hw: Option<int>, v: View, q: T.Timers, r: View, p: T.Timers)
    requires Covers(hw, v, q) && Fewer(v, r)
    requires forall x :: x in p.list ==>
      x in q.list && (x in q.deadline ==> x in p.deadline && p.deadline[x] == q.deadline[x])
    ensures Covers(hw, r, p)
  {
  }

  lemma QuietCovers(s: State, op: Op)
    requires Inv(s) && Enabled(s, op) && !Updates(s.v, op)
    ensures Covers(s.hw, StepView(s, op), StepTimers(s, op))
  {
    hide Wf, T.Wf, Settled, T.Stop, A.Wait, A.Set, A.Reset, KernelStep, Covers;
    RunsNow(s.v);
    match op {
      case KernelOp(k) => QuietKernel(s.v, k);
      case TimerStopOp(t) =>
      case AlarmWaitOp(l, clock, c) => QuietAlarm(s, op);
      case AlarmSetOp(l, d, c) => QuietAlarm(s, op);
      case AlarmResetOp(l, clock) => QuietAlarm(s, op);
    }
    CoversFewer(s.hw, s.v, s.q, StepView(s, op), StepTimers(s, op));
  }

  lemma StepKeeps(s: State, op: Op)
    requires Inv(s) && Enabled(s, op)
    ensures Inv(Step(s, op))
  {
    hide Enabled, StepView, StepTimers, Wf, T.Wf, Updates, Update, Covers, Scheduling;
    ViewKept(s, op);
    if Updates(s.v, op) {
      UpdateExact(StepView(s, op), StepTimers(s, op));
    } else {
      QuietCovers(s, op);
    }
  }

  // ----- all runs

  ghost function Run(s: State, ops: seq<Op>): State
    requires Inv(s)
    decreases |ops|
  {
    hide Inv, Enabled, Step;
    if ops == [] then s
    else if Enabled(s, ops[0]) then StepKeeps(s, ops[0]); Run(Step(s, ops[0]), ops[1..])
    else Run(s, ops[1..])
  }

  lemma {:induction false} RunKeeps(s: State, ops: seq<Op>)
    requires Inv(s)
    ensures Inv(Run(s, ops))
    decreases |ops|
  {
    hide Inv, Enabled, Step;
    if ops != [] {
      if Enabled(s, ops[0]) {
        StepKeeps(s, ops[0]);
        RunKeeps(Step(s, ops[0]), ops[1..]);
      } else {
        RunKeeps(s, ops[1..]);
      }
    }
  }

  // Nothing is pending, and the tick is suspended.
  ghost predicate Initial(s: State) {
    Scheduling(s.v) && s.v.timeouts == [] && s.q == T.Timers([], map[], map[]) && s.hw == None
  }

  lemma InitialInv(s: State)
    requires Initial(s)
    ensures Inv(s)
  {
    hide Wf;
  }

  // After any run, nothing that is pending is due before the programmed time; and if the
  // tick is suspended, nothing is pending.
  lemma NeverMissed(s: State, ops: seq<Op>, now: int)
    requires Initial(s)
    ensures var r := (InitialInv(s); Run(s, ops));
      && (r.hw == None ==> r.v.timeouts == [] && r.q.list == [])
      && (r.hw.Some? && now < r.hw.value ==>
            && (forall t :: t in r.v.timeouts ==> t in r.v.deadline && now < r.v.deadline[t])
            && (forall x :: x in r.q.list ==> x in r.q.deadline && now < r.q.deadline[x]))
  {
    hide Initial, Wf, T.Wf, Scheduling, Run;
    InitialInv(s);
    RunKeeps(s, ops);
    var r := Run(s, ops);
    assert r.v.timeouts != [] ==> r.v.timeouts[0] in r.v.timeouts;
    assert r.q.list != [] ==> r.q.list[0] in r.q.list;
  }

  // After a step that updates, the programmed time is the first pending deadline.
  lemma UpdatedExactly(s: State, op: Op)
    requires Inv(s) && Enabled(s, op) && Updates(s.v, op)
    ensures var r := Step(s, op);
      && Covers(r.hw, r.v, r.q)
      && (r.hw == None <==> r.v.timeouts == [] && r.q.list == [])
      && (r.hw.Some? ==> (exists t :: t in r.v.timeouts && t in r.v.deadline && r.v.deadline[t] == r.hw.value)
                         || (exists x :: x in r.q.list && x in r.q.deadline && r.q.deadline[x] == r.hw.value))
  {
    hide Enabled, StepView, StepTimers, Wf, T.Wf, Update, Covers, Scheduling;
    ViewKept(s, op);
    UpdateExact(StepView(s, op), StepTimers(s, op));
  }
}

// gyros__dyntick_update on the linked lists.
module DynTickObjects {
  import opened Seqs
  import opened Time
  import opened Kernels
  import opened TimerObjects
  import opened DynTickSpec
  import Sched
  import TimerSpec
  import Lists
  import A = AlarmSpec
  import AlarmObjects

  class DynTick {
    const k: Kernel
    const q: TimerQueue
    var programmed: Option<AbsTime>   // the time of gyros__dyntick_set; None after gyros__dyntick_suspend

    constructor (k: Kernel, q: TimerQueue)
      ensures this.k == k && this.q == q && programmed == None
    {
      this.k, this.q, programmed := k, q, None;
    }

    // The two first deadlines, if there are two, differ by less than half the range of the clock.
    ghost predicate Near()
      reads k, q
    {
      k.view.timeouts != [] && q.view.list != [] ==>
        k.view.timeouts[0] in k.view.deadline && q.view.list[0] in q.view.deadline
        && -HALF <= k.view.deadline[k.view.timeouts[0]] - q.view.deadline[q.view.list[0]] < HALF
    }

    // The deadline of the first timer, if there is one.
    method FirstTimer() returns (timer: Timer?)
      requires q.Valid()
      ensures TimerSpec.Wf(q.view) && (timer == null <==> q.view.list == [])
      ensures timer != null ==>
        q.view.list[0] in q.view.deadline && timer.timeout == Wrap(q.view.deadline[q.view.list[0]])
    {
      hide Wrap, Lists.Partition, Lists.Links.Valid, Linked, TimerObjects.Embedded;
      ghost var ring := ListRing(q.links.m.rings, q.timers, q.head, q.view.list);
      TimerSpec.ListKnown(q.view);
      var empty := q.links.Empty(q.head);
      if empty {
        return null;
      }
      var n := q.links.Next(q.head, q.head, 0);
      assert n == ring[0 + 1] && q.view.list[0] in q.timers;
      timer := q.timers[n.container];
    }

    // gyros__dyntick_update
    method Update()
      requires k.Valid() && q.Valid() && Near()
      modifies this`programmed
      ensures Sched.Wf(k.view) && TimerSpec.Wf(q.view)
      ensures programmed == match DynTickSpec.Update(k.view, q.view) case None => None case Some(d) => Some(Wrap(d))
    {
      hide Sched.Wf, TimerSpec.Wf, Kernel.Valid, Kernel.Shape, TimerQueue.Valid, Wrap, Compare;
      k.ValidFacts();
      k.ValidShape();
      var task := k.FirstTimeout();
      var timer := FirstTimer();
      if task == null {
        if timer == null {
          programmed := None;
        } else {
          programmed := Some(timer.timeout);
        }
      } else {
        k.DeadlineOf(task);
        if timer != null {
          CompareExact(k.view.deadline[k.view.timeouts[0]], q.view.deadline[q.view.list[0]]);
        }
        if timer == null || Compare(task.timeout, timer.timeout) < 0 {
          programmed := Some(task.timeout);
        } else {
          programmed := Some(timer.timeout);
        }
      }
    }

    // Every pending deadline is within half a range from lo on.
    ghost predicate Within(lo: int)
      reads k, q
    {
      && (forall t {:trigger t in k.view.timeouts} :: t in k.view.timeouts ==>
            t in k.view.deadline && lo <= k.view.deadline[t] < lo + HALF)
      && (forall x {:trigger x in q.view.list} :: x in q.view.list ==>
            x in q.view.deadline && lo <= q.view.deadline[x] < lo + HALF)
    }

    lemma WithinNear(lo: int)
      requires Within(lo)
      ensures Near()
      ensures forall d :: lo <= d < lo + HALF ==> k.Near(d) && q.Near(d)
    {
      assert k.view.timeouts != [] ==> k.view.timeouts[0] in k.view.timeouts;
      assert q.view.list != [] ==> q.view.list[0] in q.view.list;
    }

    // gyros__task_set_timeout, for the unwrapped deadline d and clock c.
    method SetTimeout(timeout: AbsTime, now: AbsTime, ghost v: Sched.View, ghost d: int, ghost c: int, ghost lo: int)
        returns (pending: bool)
      requires Sched.Wf(v) && v.current in v.home && v.current !in v.timeouts
      requires k.Valid() && q.Valid() && Apart() && k.view == v
      requires timeout == Wrap(d) && now == Wrap(c) && lo <= d < lo + HALF && lo <= c < lo + HALF && Within(lo)
      modifies this`programmed, k`view, k.links.repr, k.current`timeout, k.current`timedOut
      ensures pending <==> d > c
      ensures k.view == if pending then Sched.Arm(v, v.current, d) else v
      ensures Sched.Wf(k.view) && TimerSpec.Wf(q.view)
      ensures if pending then Programs(k.view, q.view) else programmed == old(programmed)
      ensures k.Valid() && q.Valid() && Within(lo)
    {
      hide Sched.Wf, TimerSpec.Wf, Kernel.Valid, TimerQueue.Valid, Sched.Arm, Wrap, Near, DynTickSpec.Update;
      WithinNear(lo);
      k.ValidFacts();
      k.CurrentIs();
      q.ValidWf();
      pending := k.TaskSetTimeout(timeout, now, d, c);
      if pending {
        k.ValidFacts();
        WithinNear(lo);
        Update();
      }
    }

    // What the last update has programmed.
    ghost predicate Programs(v: Sched.View, p: TimerSpec.Timers)
      requires Sched.Wf(v) && TimerSpec.Wf(p)
      reads this
    {
      programmed == match DynTickSpec.Update(v, p) case None => None case Some(d) => Some(Wrap(d))
    }

    method UpdateIf(update: bool, ghost lo: int)
      requires k.Valid() && q.Valid() && Within(lo)
      modifies this`programmed
      ensures Sched.Wf(k.view) && TimerSpec.Wf(q.view)
      ensures if update then Programs(k.view, q.view) else programmed == old(programmed)
    {
      hide Sched.Wf, TimerSpec.Wf, Kernel.Valid, TimerQueue.Valid, Wrap, Near, DynTickSpec.Update;
      k.ValidFacts();
      q.ValidWf();
      if update {
        WithinNear(lo);
        Update();
      }
    }

    // gyros_timer_start, for the unwrapped deadline d.
    method StartTimer(t: Timer, time: AbsTime, period: RelTime, ghost d: int, ghost lo: int)
      requires k.Valid() && q.Valid() && Apart() && q.IsTimer(t) && time == Wrap(d) && period >= 0
      requires lo <= d < lo + HALF && Within(lo)
      modifies this`programmed, q`view, q.links.repr, t
      ensures TimerSpec.Wf(old(q.view)) && q.view == TimerSpec.Start(old(q.view), t.id, d, period)
      ensures Sched.Wf(k.view) && TimerSpec.Wf(q.view) && Programs(k.view, q.view)
      ensures k.Valid() && q.Valid() && Within(lo)
    {
      hide Sched.Wf, TimerSpec.Wf, Kernel.Valid, TimerQueue.Valid, TimerSpec.Start, Wrap, Near, DynTickSpec.Update;
      WithinNear(lo);
      k.ValidFacts();
      q.ValidWf();
      q.TimerKnown(t);
      TimerSpec.StartEffect(q.view, t.id, d, period);
      TimerSpec.StartListed(q.view, t.id, d, period);
      q.StartTimer(t, time, period, d);
      WithinNear(lo);
      Update();
    }

    // Alarm clock a belongs to this kernel and shares nothing with the timers.
    ghost predicate Owns(a: AlarmObjects.AlarmClock)
      reads this, a, k, k.links, k.Repr, q, q.links
    {
      && a.k == k && a.Valid() && Apart()
      && a !in q.links.repr && a !in q.timerSet
    }

    // After the clock is set, the deadlines are the old ones and the new wakeup time.
    lemma SetWithin(v: Sched.View, l: Sched.Lid, d: int, c: int, lo: int)
      requires Sched.Wf(v) && l in v.lists && l != Sched.RUNNING && k.view == A.Set(v, l, d, c).v && lo <= d < lo + HALF
      requires forall t :: t in v.timeouts ==> t in v.deadline && lo <= v.deadline[t] < lo + HALF
      requires forall x {:trigger x in q.view.list} :: x in q.view.list ==>
        x in q.view.deadline && lo <= q.view.deadline[x] < lo + HALF
      ensures Within(lo)
    {
      hide Sched.Wf, A.WakeEach, A.Retime, Sched.Resched;
      if v.lists[l] != [] {
        if d <= c {
          A.WakeEachEffect(v, l);
          Sched.ReschedTimes(A.WakeEach(v, l));
        } else {
          A.RetimeEffect(v, l, d);
        }
      }
    }

    // gyros_alarm_clock_set, for the unwrapped wakeup time d, at the unwrapped time c.
    method AlarmSet(a: AlarmObjects.AlarmClock, wakeupTime: AbsTime, now: AbsTime, ghost d: int, ghost c: int,
        ghost lo: int)
      requires Owns(a) && q.Valid() && wakeupTime == Wrap(d) && now == Wrap(c)
      requires lo <= d < lo + HALF && lo <= c < lo + HALF && Within(lo)
      modifies this`programmed, a, k`view, k`current, k.links.repr, k.taskSet
      ensures Sched.Wf(old(k.view)) && a.taskList.container in old(k.view).lists
      ensures k.view == A.Set(old(k.view), a.taskList.container, d, c).v && a.State() == A.Clock(true, d)
      ensures Sched.Wf(k.view) && TimerSpec.Wf(q.view) && Within(lo)
      ensures if old(k.view).lists[a.taskList.container] != [] && d > c then Programs(k.view, q.view)
              else programmed == old(programmed)
      ensures a.Valid() && q.Valid()
    {
      hide Sched.Wf, TimerSpec.Wf, Kernel.Valid, Kernel.Shape, TimerQueue.Valid, A.Set, Wrap, Near, DynTickSpec.Update,
        Compare;
      WithinNear(lo);
      k.ValidFacts();
      k.ValidShape();
      q.ValidWf();
      ghost var v := k.view;
      var empty := k.ListEmpty(a.taskList);
      CompareExact(d, c);
      a.Set(wakeupTime, now, d, c);
      k.ValidFacts();
      A.SetClock(v, a.taskList.container, d, c);
      SetWithin(v, a.taskList.container, d, c, lo);
      UpdateIf(!empty && Compare(wakeupTime, now) > 0, lo);
    }

    // gyros_alarm_clock_reset
    method AlarmReset(a: AlarmObjects.AlarmClock, ghost lo: int)
      requires Owns(a) && q.Valid() && Within(lo)
      modifies this`programmed, a`armed, k`view, k.links.repr
      ensures Sched.Wf(old(k.view)) && a.taskList.container in old(k.view).lists
      ensures A.Region(k.view, a.State(), false) == A.Reset(old(k.view), a.taskList.container, old(a.State()))
      ensures Sched.Wf(k.view) && TimerSpec.Wf(q.view) && Within(lo)
      ensures if old(a.armed) && old(k.view).lists[a.taskList.container] != [] then Programs(k.view, q.view)
              else programmed == old(programmed)
      ensures a.Valid() && q.Valid()
    {
      hide Sched.Wf, TimerSpec.Wf, Kernel.Valid, Kernel.Shape, TimerQueue.Valid, A.Reset, Near, DynTickSpec.Update;
      k.ValidFacts();
      k.ValidShape();
      var empty := k.ListEmpty(a.taskList);
      var update := a.armed && !empty;
      ResetClock(a, k.view, a.State(), lo);
      UpdateIf(update, lo);
    }

    // The same without the update.
    method ResetClock(a: AlarmObjects.AlarmClock, ghost v: Sched.View, ghost clock: A.Clock, ghost lo: int)
      requires Owns(a) && q.Valid() && Within(lo) && k.view == v && a.State() == clock
      requires Sched.Wf(v) && a.taskList.container in v.lists
      modifies a`armed, k`view, k.links.repr
      ensures A.Region(k.view, a.State(), false) == A.Reset(v, a.taskList.container, clock)
      ensures a.Valid() && q.Valid() && Within(lo)
    {
      hide Sched.Wf, TimerSpec.Wf, Kernel.Valid, Kernel.Shape, TimerQueue.Valid, A.UntimeAll, Wrap, Near;
      a.Reset();
    }

    // The scheduler, the timers and this object share nothing.
    ghost predicate Apart()
      reads this, k, k.links, q, q.links
    {
      && k.Owned() && q.Owned() && this !in k.Repr && this !in q.links.repr && this !in q.timerSet && q !in k.Repr
      && q.links in q.links.repr && k.Repr !! q.links.repr && k.Repr !! q.timerSet
    }

    // After the tick at time c, what is pending lies less than half a range ahead.
    lemma NearAfter(v: Sched.View, c: int, lo: int)
      requires Sched.Wf(v) && k.view == Sched.Tick(v, c) && TimerSpec.Wf(q.view) && !TimerSpec.Due(q.view, c)
      requires forall t :: t in v.timeouts ==> t in v.deadline && -HALF <= c - v.deadline[t] < HALF
      requires q.Window(lo, c)
      ensures Near()
    {
      hide Sched.Wf, TimerSpec.Wf, Sched.ExpireDue, TimerSpec.Due, Sched.Due;
      if k.view.timeouts != [] && q.view.list != [] {
        var t, x := k.view.timeouts[0], q.view.list[0];
        assert t in k.view.timeouts && x in q.view.list;
        StillPending(v, c, t);
        TimerSpec.NoneDue(q.view, c, x);
      }
    }

    // gyros__tick: the tasks that are due, the timers that are due, and the next interrupt.
    method Tick(now: AbsTime, ghost c: int, ghost lo: int)
      requires k.Valid() && q.Valid() && Apart() && now == Wrap(c) && k.Near(c) && q.Window(lo, c)
      modifies this`programmed, k`view, k`current, k.links.repr, k.taskSet, q`view, q`calls, q.links.repr, q.timerSet
      ensures Sched.Wf(old(k.view)) && k.view == Sched.Tick(old(k.view), c)
      ensures TimerSpec.Wf(old(q.view)) && q.view == TimerSpec.FireDue(old(q.view), c).v
      ensures q.calls == old(q.calls) + TimerSpec.FireDue(old(q.view), c).calls
      ensures Sched.Wf(k.view) && TimerSpec.Wf(q.view)
      ensures programmed == match DynTickSpec.Update(k.view, q.view) case None => None case Some(d) => Some(Wrap(d))
      ensures k.Valid() && q.Valid()
    {
      hide Sched.Wf, TimerSpec.Wf, Kernel.Valid, TimerQueue.Valid, TimerQueue.Window, Sched.Tick, TimerSpec.FireDue,
        Wrap, Near;
      k.ValidFacts();
      ghost var v := k.view;
      k.TickTasks(now, c);
      q.TickTimers(now, c, lo);
      k.ValidFacts();
      q.ValidWf();
      NothingDue(old(q.view), c);
      NearAfter(v, c, lo);
      Update();
    }
  }

  // A timeout that the tick leaves is later than the tick.
  lemma StillPending(v: Sched.View, c: int, t: Sched.Tid)
    requires Sched.Wf(v) && t in Sched.Tick(v, c).timeouts
    ensures t in v.timeouts && t in v.deadline && t in Sched.Tick(v, c).deadline
    ensures c < v.deadline[t] == Sched.Tick(v, c).deadline[t]
  {
    hide Sched.Wf, Sched.ExpireDue;
    Sched.FieldsKnown(v);
    Sched.TimeoutsKnown(v);
    Sched.ExpireStep(v, c);
    Sched.ExpireEffect(v, c);
    if Sched.Due(v, c) {
      Sched.StillListed(v, c, t);
      assert Sched.TickEffect(v, Sched.ExpireDue(v, c), c, t);
    } else {
      Sched.NoneExpires(v, c);
    }
  }

  // Nor is a timer due any more.
  lemma {:induction false} NothingDue(v: TimerSpec.Timers, c: int)
    requires TimerSpec.Wf(v)
    ensures !TimerSpec.Due(TimerSpec.FireDue(v, c).v, c)
    decreases TimerSpec.PendingOf(v, c)
  {
    hide TimerSpec.Wf, TimerSpec.Due, TimerSpec.FireFirst, TimerSpec.FireDue;
    TimerSpec.FireDueStep(v, c);
    if TimerSpec.Due(v, c) {
      NothingDue(TimerSpec.FireFirst(v), c);
    }
  }
}
