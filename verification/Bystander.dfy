// What the rest of the system does to the scheduler while a synchronization object is in
// use: the operations of other objects, of src/task.c, suspend.c, sleep.c, yield.c and
// priority.c, and the tick.  `mine` are the wait lists of the object under study.

module Bystander {
  import opened Seqs
  import opened Sched
  import opened Order
  import opened Effects
  import A = AlarmSpec

  datatype KernelOp =
    | YieldOp
    | BlockOn(l: Lid)                // another object's wait
    | BlockUntil(l: Lid, d: int)
    | SleepUntil(d: int)             // gyros_sleep_until
    | WakeUp(t: Tid)                 // another object's wakeup, or gyros_task_resume without a pending timeout
    | SetPriority(t: Tid, p: nat)
    | TickAt(now: int)
    | NewWaitList(l: Lid)            // the list of a new object
    | CreateTask(t: Tid, p: nat, d: int, expired: bool)
    | SuspendTask(t: Tid)
    | SetAlarm(l: Lid, d: int, c: int)   // another alarm clock
    | ResetAlarm(l: Lid)

  // A list of another object.
  predicate Elsewhere(v: View, mine: set<Lid>, l: Lid) {
    l in v.lists && l != RUNNING && l !in mine
  }

  ghost predicate KernelEnabled(v: View, mine: set<Lid>, op: KernelOp) {
    match op
    case YieldOp => true
    case BlockOn(l) => Elsewhere(v, mine, l) && v.current != IDLE
    case BlockUntil(l, d) => Elsewhere(v, mine, l) && v.current != IDLE
    case SleepUntil(d) => v.current != IDLE
    case WakeUp(t) => t in v.home && (v.home[t].None? || (v.home[t].value != RUNNING && v.home[t].value !in mine))
    case SetPriority(t, p) => t in v.home
    case TickAt(now) => true
    case NewWaitList(l) => l !in v.lists
    case CreateTask(t, p, d, expired) => t !in v.home
    case SuspendTask(t) => t in v.home && t != IDLE && (v.home[t].None? || v.home[t].value !in mine)
    case SetAlarm(l, d, c) => Elsewhere(v, mine, l)
    case ResetAlarm(l) => Elsewhere(v, mine, l)
  }

  ghost function KernelStep(v: View, mine: set<Lid>, op: KernelOp): View
    requires Scheduling(v) && KernelEnabled(v, mine, op)
  {
    hide Wf, Scheduling, Arm, Move, Wake, Resched, Detach, Tick, Yield, TaskSetPriority, NewList, Create, Suspend,
      A.Set, A.UntimeAll;
    RunsNow(v);
    var c := v.current;
    match op
    case YieldOp => Yield(v)
    case BlockOn(l) => Resched(Move(v, c, l))
    case BlockUntil(l, d) => Resched(Move(Arm(v, c, d), c, l))
    case SleepUntil(d) => Resched(Detach(Arm(v, c, d), c))
    case WakeUp(t) => Resched(Wake(v, t))
    case SetPriority(t, p) => TaskSetPriority(v, t, p)
    case TickAt(now) => Tick(v, now)
    case NewWaitList(l) => NewList(v, l)
    case CreateTask(t, p, d, expired) => Create(v, t, p, d, expired, true)
    case SuspendTask(t) => Suspend(v, t)
    case SetAlarm(l, d, t) => A.Set(v, l, d, t).v
    case ResetAlarm(l) => A.UntimeAll(v, v.lists[l])
  }

  // Where a task is in its own call, if it is in one, does not concern the rest of the
  // system; a new task starts outside.
  function PcAfter<P>(pc: map<Tid, P>, op: KernelOp, outside: P): map<Tid, P> {
    if op.CreateTask? then pc[op.t := outside] else pc
  }

  lemma RunsNow(v: View)
    requires Scheduling(v)
    ensures Wf(v) && v.current in v.home && v.home[v.current] == Some(RUNNING) && v.current !in v.timeouts
    ensures RUNNING in v.lists && v.current in v.timedOut
  {
    HeadIsTop(v, RUNNING);
  }

  // Task t is where it was.
  ghost predicate Stays(v: View, r: View, t: Tid) {
    && t in v.home && t in r.home && t in v.timedOut && t in r.timedOut
    && r.home[t] == v.home[t] && r.timedOut[t] == v.timedOut[t] && (t in r.timeouts <==> t in v.timeouts)
  }

  // Task t has been moved: by the expiry of its timeout, by an operation that concerns another
  // object, by a suspension, or by its own call to block elsewhere.
  ghost predicate Moved(v: View, r: View, op: KernelOp, t: Tid) {
    && t in v.home && t in r.home && t in v.timedOut && t in r.timedOut
    && match op
       case TickAt(now) => t in v.timeouts && r.home[t] == Some(RUNNING) && r.timedOut[t] && t !in r.timeouts
       case WakeUp(x) => t == x && r.home[t] == Some(RUNNING) && r.timedOut[t] == v.timedOut[t] && t !in r.timeouts
       case BlockOn(l) => t == v.current && r.home[t] == Some(l)
       case BlockUntil(l, d) => t == v.current && r.home[t] == Some(l)
       case SleepUntil(d) => t == v.current && r.home[t] == None
       case SuspendTask(x) => t == x && r.home[t] == None && t !in r.timeouts
       case SetAlarm(l, d, c) => v.home[t] == Some(l) && (r.home[t] == Some(l) || r.home[t] == Some(RUNNING))
       case ResetAlarm(l) => v.home[t] == Some(l) && r.home[t] == Some(l) && t !in r.timeouts
       case _ => false
  }

  // A task that was not there before.
  ghost predicate Appears(r: View, op: KernelOp, t: Tid) {
    op.CreateTask? && op.t == t && t in r.home && t in r.timedOut && r.home[t] == Some(RUNNING)
  }

  ghost predicate KernelEffect(v: View, r: View, op: KernelOp) {
    && r.lists.Keys >= v.lists.Keys && r.home.Keys >= v.home.Keys
    && (forall t :: t in v.home ==> Stays(v, r, t) || Moved(v, r, op, t))
    && (forall t :: t in r.home && t !in v.home ==> Appears(r, op, t))
  }

  lemma TickKernel(v: View, now: int)
    requires Scheduling(v)
    ensures Scheduling(Tick(v, now)) && KernelEffect(v, Tick(v, now), TickAt(now))
  {
    hide Wf, ExpireDue, Settled, Due;
    FieldsKnown(v);
    ExpireEffect(v, now);
    var w, r := ExpireDue(v, now), Tick(v, now);
    forall t | t in v.home ensures Stays(v, r, t) || Moved(v, r, TickAt(now), t) {
      assert TickEffect(v, w, now, t);
    }
    forall t | t in w.timeouts ensures t in v.home && w.home[t] != Some(RUNNING) {
      StillListed(v, now, t);
      assert TickEffect(v, w, now, t);
    }
    Settles(w);
  }

  lemma PriorityKernel(v: View, t: Tid, p: nat)
    requires Scheduling(v) && t in v.home
    ensures Scheduling(TaskSetPriority(v, t, p)) && KernelEffect(v, TaskSetPriority(v, t, p), SetPriority(t, p))
  {
    hide Wf, SetPrio, Resched, Settled, Runnable;
    FieldsKnown(v);
    var b := v.(base := v.base[t := p]);
    BaseWf(v, t, p);
    if v.prio[t] != p {
      Settles(SetPrio(b, t, p));
    } else {
      SettledBase(v, b);
    }
  }

  lemma SettledBase(v: View, b: View)
    requires Settled(v) && b == v.(base := b.base)
    ensures Settled(b)
  {
  }

  lemma ListKernel(v: View, l: Lid)
    requires Scheduling(v) && l !in v.lists
    ensures Scheduling(NewList(v, l)) && KernelEffect(v, NewList(v, l), NewWaitList(l))
  {
    FieldsKnown(v);
    RunningListed(v);
    hide Wf;
  }

  lemma CreateKernel(v: View, t: Tid, p: nat, d: int, expired: bool)
    requires Scheduling(v) && t !in v.home
    ensures Scheduling(Create(v, t, p, d, expired, true))
    ensures KernelEffect(v, Create(v, t, p, d, expired, true), CreateTask(t, p, d, expired))
  {
    hide Wf, Create, Settled;
    FieldsKnown(v);
    TimeoutsKnown(v);
    IdleRuns(Create(v, t, p, d, expired, true));
  }

  // Taking a task other than the first one off the running list leaves the first one there.
  lemma StillFirst(v: View, t: Tid)
    requires Wf(v) && Settled(v) && t in v.home && t != v.current
    ensures Settled(Untime(Detach(v, t), t))
  {
    var s := v.lists[RUNNING];
    if t in s {
      assert IndexOf(s, t) > 0;
    }
  }

  lemma SuspendKernel(v: View, t: Tid)
    requires Scheduling(v) && t in v.home && t != IDLE
    ensures Scheduling(Suspend(v, t)) && KernelEffect(v, Suspend(v, t), SuspendTask(t))
  {
    hide Wf, Detach, Untime, Settled, Resched;
    FieldsKnown(v);
    TimeoutsKnown(v);
    var w := Untime(Detach(v, t), t);
    if t == v.current {
      Settles(w);
    } else {
      StillFirst(v, t);
    }
    ReschedRunnable(w);
  }

  lemma AlarmKernel(v: View, l: Lid, d: int, c: int)
    requires Scheduling(v) && l in v.lists && l != RUNNING
    ensures Wf(v) && Scheduling(A.Set(v, l, d, c).v) && KernelEffect(v, A.Set(v, l, d, c).v, SetAlarm(l, d, c))
  {
    hide Wf, Settled, Resched, A.WakeEach, A.Retime;
    RunsNow(v);
    FieldsKnown(v);
    A.ListedKnown(v, l);
    if v.lists[l] != [] {
      if d <= c {
        A.WakeEachEffect(v, l);
        Settles(A.WakeEach(v, l));
        ReschedRunnable(A.WakeEach(v, l));
      } else {
        SchedulingKept(v, A.Retime(v, l, d));
        A.RetimeOthers(v, l, d);
      }
    }
  }

  lemma ResetKernel(v: View, l: Lid)
    requires Scheduling(v) && l in v.lists && l != RUNNING
    ensures Wf(v) && Scheduling(A.UntimeAll(v, v.lists[l]))
      && KernelEffect(v, A.UntimeAll(v, v.lists[l]), ResetAlarm(l))
  {
    hide Wf, Settled, A.UntimeAll;
    RunsNow(v);
    FieldsKnown(v);
    A.ListedKnown(v, l);
    SchedulingKept(v, A.UntimeAll(v, v.lists[l]));
  }

  // The operations that move one task.
  predicate MovesOne(op: KernelOp) {
    op.YieldOp? || op.BlockOn? || op.BlockUntil? || op.SleepUntil? || op.WakeUp?
  }

  // The processor is given up until a deadline.
  lemma TimedKernel(v: View, mine: set<Lid>, op: KernelOp)
    requires Scheduling(v) && KernelEnabled(v, mine, op) && (op.BlockUntil? || op.SleepUntil?)
    ensures Scheduling(KernelStep(v, mine, op)) && KernelEffect(v, KernelStep(v, mine, op), op)
  {
    hide Wf, Arm, Move, Resched, Detach, Settled;
    RunsNow(v);
    FieldsKnown(v);
    var c := v.current;
    match op
    case BlockUntil(l, d) => Settles(Move(Arm(v, c, d), c, l));
    case SleepUntil(d) => Settles(Detach(Arm(v, c, d), c));
  }

  lemma MoveKernel(v: View, mine: set<Lid>, op: KernelOp)
    requires Scheduling(v) && KernelEnabled(v, mine, op) && (op.YieldOp? || op.BlockOn? || op.WakeUp?)
    ensures Scheduling(KernelStep(v, mine, op)) && KernelEffect(v, KernelStep(v, mine, op), op)
  {
    hide Wf, Move, Wake, Resched, Settled;
    RunsNow(v);
    FieldsKnown(v);
    match op
    case YieldOp => Settles(Move(v, v.current, RUNNING));
    case BlockOn(l) => Settles(Move(v, v.current, l));
    case WakeUp(t) => Settles(Wake(v, t));
  }

  lemma EffectKept(v: View, mine: set<Lid>, op: KernelOp)
    requires Scheduling(v) && KernelEnabled(v, mine, op)
    ensures Scheduling(KernelStep(v, mine, op)) && KernelEffect(v, KernelStep(v, mine, op), op)
  {
    hide Wf, Scheduling, KernelEffect, Tick, TaskSetPriority, NewList, Create, Suspend, A.Set, A.UntimeAll, Arm, Move,
      Wake, Resched, Detach;
    if op.BlockUntil? || op.SleepUntil? {
      TimedKernel(v, mine, op);
    } else if MovesOne(op) {
      MoveKernel(v, mine, op);
    } else {
      match op
      case SetPriority(t, p) => PriorityKernel(v, t, p);
      case TickAt(now) => TickKernel(v, now);
      case NewWaitList(l) => ListKernel(v, l);
      case CreateTask(t, p, d, expired) => CreateKernel(v, t, p, d, expired);
      case SuspendTask(t) => SuspendKernel(v, t);
      case SetAlarm(l, d, t) => AlarmKernel(v, l, d, t);
      case ResetAlarm(l) => ResetKernel(v, l);
    }
  }

  // Whatever the rest of the system does, the scheduler stays in order, and the tasks that
  // wait for the object under study are moved by a timeout at most.
  lemma KernelKeeps(v: View, mine: set<Lid>, op: KernelOp)
    requires Scheduling(v) && KernelEnabled(v, mine, op)
    ensures Scheduling(KernelStep(v, mine, op)) && KernelEffect(v, KernelStep(v, mine, op), op)
    ensures forall t :: t in v.home && v.home[t].Some? && v.home[t].value in mine && v.home[t].value != RUNNING ==>
      Stays(v, KernelStep(v, mine, op), t) || (op.TickAt? && Moved(v, KernelStep(v, mine, op), op, t))
  {
    hide Scheduling, KernelStep, Stays;
    EffectKept(v, mine, op);
    RunsNow(v);
    var r := KernelStep(v, mine, op);
    forall t | t in v.home && v.home[t].Some? && v.home[t].value in mine && v.home[t].value != RUNNING
      ensures Stays(v, r, t) || (op.TickAt? && Moved(v, r, op, t))
    {
      assert Stays(v, r, t) || Moved(v, r, op, t);
    }
  }

  // Moves and wakeups of other tasks leave the deadline of a waiting task alone.
  lemma DeadlinesMove(v: View, mine: set<Lid>, op: KernelOp, t: Tid)
    requires Scheduling(v) && KernelEnabled(v, mine, op) && t in v.home && MovesOne(op)
    requires v.home[t].Some? && v.home[t].value in mine && v.home[t].value != RUNNING
    ensures t in v.deadline && t in KernelStep(v, mine, op).deadline
    ensures KernelStep(v, mine, op).deadline[t] == v.deadline[t]
  {
    hide Wf, Settled, Move, Arm, Resched, Detach, Wake;
    RunsNow(v);
    FieldsKnown(v);
    match op
    case YieldOp => ReschedTimes(Move(v, v.current, RUNNING));
    case BlockOn(l) => ReschedTimes(Move(v, v.current, l));
    case BlockUntil(l, d) => ReschedTimes(Move(Arm(v, v.current, d), v.current, l));
    case SleepUntil(d) => ReschedTimes(Detach(Arm(v, v.current, d), v.current));
    case WakeUp(x) => ReschedTimes(Wake(v, x));
  }

  // So does the rest of the system.
  lemma DeadlinesKept(v: View, mine: set<Lid>, op: KernelOp, t: Tid)
    requires Scheduling(v) && KernelEnabled(v, mine, op) && t in v.home
    requires v.home[t].Some? && v.home[t].value in mine && v.home[t].value != RUNNING
    ensures t in v.deadline && t in KernelStep(v, mine, op).deadline
    ensures KernelStep(v, mine, op).deadline[t] == v.deadline[t]
  {
    hide Wf, Settled, Move, Arm, Resched, Detach, Wake, SetPrio, ExpireDue, Due, Create, Untime, A.UntimeAll, A.Set;
    RunsNow(v);
    FieldsKnown(v);
    if MovesOne(op) {
      DeadlinesMove(v, mine, op, t);
    } else {
      match op
      case SetPriority(x, p) =>
        BaseWf(v, x, p);
        ReschedTimes(SetPrio(v.(base := v.base[x := p]), x, p));
      case TickAt(now) =>
        ExpireEffect(v, now);
        ReschedTimes(ExpireDue(v, now));
      case NewWaitList(l) =>
      case CreateTask(x, p, d, expired) =>
      case SuspendTask(x) => ReschedTimes(Untime(Detach(v, x), x));
      case SetAlarm(l, d, c) => DeadlinesSet(v, l, d, c, t);
      case ResetAlarm(l) =>
    }
  }

  lemma DeadlinesSet(v: View, l: Lid, d: int, c: int, t: Tid)
    requires Wf(v) && l in v.lists && l != RUNNING && t in v.home && v.home[t] != Some(l) && t in v.deadline
    ensures t in A.Set(v, l, d, c).v.deadline && A.Set(v, l, d, c).v.deadline[t] == v.deadline[t]
  {
    hide Wf, Resched, A.Retime, A.WakeEach;
    A.ListedKnown(v, l);
    ReschedTimes(A.WakeEach(v, l));
    A.RetimeEffect(v, l, d);
  }

  // Only gyros_task_set_priority and gyros_task_create set priorities, and they set both.
  lemma PrioritiesAfter(v: View, mine: set<Lid>, op: KernelOp)
    requires Scheduling(v) && KernelEnabled(v, mine, op)
    ensures var r := KernelStep(v, mine, op);
      if op.SetPriority? || op.CreateTask? then r.prio == v.prio[op.t := op.p] && r.base == v.base[op.t := op.p]
      else r.prio == v.prio && r.base == v.base
  {
    hide Wf, Arm, Move, Wake, Resched, Detach, Untime, SetPrio, Create, ExpireDue, A.WakeEach, A.Retime, A.UntimeAll;
    RunsNow(v);
    match op
    case TickAt(now) => ExpireEffect(v, now);
    case SetPriority(t, p) => BaseWf(v, t, p);
    case NewWaitList(l) => NewListIs(v, l);
    case SetAlarm(l, d, c) => A.ListedKnown(v, l);
    case _ =>
  }

  // What each of these operations does.
  ghost predicate Gives(v: View, r: View, op: KernelOp) {
    match op
    case YieldOp => Goes(v, r, v.current, RUNNING) && SameTimes(v, r)
    case BlockOn(l) => Blocks(v, r, l)
    case BlockUntil(l, d) => BlocksUntil(v, r, l, d)
    case SleepUntil(d) => Sleeps(v, r, d)
    case WakeUp(t) => Wakes(v, r, t)
    case SetPriority(t, p) =>
      && r.prio == v.prio[t := p] && r.base == v.base[t := p] && r.home == v.home && OthersInOrder(v, r, t)
      && t in v.prio && (v.prio[t] == p ==> r.lists == v.lists)
      && (t in v.home && v.home[t].Some? && v.prio[t] != p ==> BehindEquals(r, t, v.home[t].value))
    case TickAt(now) => r.prio == v.prio && r.base == v.base && forall t :: t in v.home ==> TickEffect(v, r, now, t)
    case NewWaitList(l) => r == v.(lists := v.lists[l := []])
    case CreateTask(t, p, d, expired) =>
      && r.home == v.home[t := Some(RUNNING)] && r.prio == v.prio[t := p] && r.base == v.base[t := p]
      && r.timeouts == v.timeouts && OthersInOrder(v, r, t) && BehindEquals(r, t, RUNNING)
    case SuspendTask(t) =>
      && r.home == v.home[t := None] && r.timeouts == Drop(v.timeouts, t) && OthersInOrder(v, r, t)
      && r.prio == v.prio && r.base == v.base && (t != v.current ==> r.current == v.current)
    case SetAlarm(l, d, c) => forall t :: t in v.home && v.home[t] == Some(l) ==> Rung(r, t, l, d, c)
    case ResetAlarm(l) =>
      && r == v.(timeouts := r.timeouts)
      && forall t :: t in r.timeouts <==> t in v.timeouts && t in v.home && v.home[t] != Some(l)
  }

  // Task t, which waits for an alarm clock on list l that has been set to d at time c.
  ghost predicate Rung(r: View, t: Tid, l: Lid, d: int, c: int) {
    && t in r.home
    && if d <= c then r.home[t] == Some(RUNNING) && t !in r.timeouts
       else r.home[t] == Some(l) && t in r.timeouts && t in r.deadline && r.deadline[t] == d
  }

  lemma KernelGives(v: View, mine: set<Lid>, op: KernelOp)
    requires Scheduling(v) && KernelEnabled(v, mine, op)
    ensures Gives(v, KernelStep(v, mine, op), op)
  {
    hide Wf, Settled, Arm, Move, Wake, Resched, Detach, Tick, Yield, TaskSetPriority, NewList, Create, Suspend, A.Set,
      A.UntimeAll, Goes, Blocks, BlocksUntil, Sleeps, Wakes, OthersInOrder, BehindEquals, TickEffect, Rung;
    RunsNow(v);
    match op
    case YieldOp => YieldEffect(v);
    case BlockOn(l) => MoveBlocks(v, l);
    case BlockUntil(l, d) => ArmBlocks(v, l, d);
    case SleepUntil(d) => ArmSleeps(v, d);
    case WakeUp(t) => WakeWakes(v, t);
    case SetPriority(t, p) => ChangeOrder(v, t, p);
    case TickAt(now) => TickGives(v, now);
    case NewWaitList(l) => NewListIs(v, l);
    case CreateTask(t, p, d, expired) => CreateEffect(v, t, p, d, expired, true);
    case SuspendTask(t) => SuspendEffect(v, t);
    case SetAlarm(l, d, c) => AlarmGives(v, l, d, c);
    case ResetAlarm(l) =>
      A.ListedKnown(v, l);
      TimeoutsKnown(v);
  }

  lemma TickGives(v: View, now: int)
    requires Scheduling(v)
    ensures Wf(v) && Tick(v, now).prio == v.prio && Tick(v, now).base == v.base
    ensures forall t :: t in v.home ==> TickEffect(v, Tick(v, now), now, t)
  {
    hide Wf, Settled, Tick, TickEffect;
    RunsNow(v);
    TickExact(v, now, v.current);
    forall t | t in v.home ensures TickEffect(v, Tick(v, now), now, t) {
      TickExact(v, now, t);
    }
  }

  lemma AlarmGives(v: View, l: Lid, d: int, c: int)
    requires Scheduling(v) && l in v.lists && l != RUNNING
    ensures Wf(v) && forall t :: t in v.home && v.home[t] == Some(l) ==> Rung(A.Set(v, l, d, c).v, t, l, d, c)
  {
    hide Wf, Settled, Resched, A.WakeEach, A.Retime;
    RunsNow(v);
    A.ListedKnown(v, l);
    EmptyList(v, l);
    if v.lists[l] != [] {
      if d <= c {
        A.WakeEachEffect(v, l);
        ReschedRunnable(A.WakeEach(v, l));
      } else {
        A.RetimeEffect(v, l, d);
      }
    }
  }

  // gyros_task_resume is a wakeup, for a task without a pending timeout.
  lemma ResumeIsWake(v: View, t: Tid)
    requires Wf(v) && t in v.home && t !in v.timeouts
    ensures Resume(v, t) == Resched(Wake(v, t))
  {
    hide Wf, Move;
    RunningListed(v);
    assert Untime(v, t) == v;
  }

  // It keeps the scheduler in order exactly for such a task: a pending timeout stays linked.
  lemma ResumeExactly(v: View, t: Tid)
    requires Scheduling(v) && t in v.home
    ensures Scheduling(Resume(v, t)) <==> t !in v.timeouts
  {
    hide Wf, Settled, Move, Resched;
    RunningListed(v);
    ReschedTimes(Move(v, t, RUNNING));
    ReschedRunnable(Move(v, t, RUNNING));
    if t !in v.timeouts {
      Settles(Move(v, t, RUNNING));
    }
  }

  // ----- all runs of the kernel

  // Tasks created before gyros_start.
  datatype Early = Early(t: Tid, p: nat, d: int, expired: bool)

  ghost function CreateAll(v: View, early: seq<Early>): (r: View)
    requires Wf(v)
    ensures Wf(r)
    decreases |early|
  {
    hide Wf, Create;
    if early == [] then v
    else
      var e := early[0];
      CreateAll(if e.t in v.home then v else Create(v, e.t, e.p, e.d, e.expired, false), early[1..])
  }

  lemma {:induction false} EarlyKeeps(v: View, early: seq<Early>)
    requires Wf(v) && v.timeouts == [] && IDLE in v.home && v.home[IDLE].None?
    ensures var r := CreateAll(v, early); r.timeouts == [] && IDLE in r.home && r.home[IDLE].None?
    decreases |early|
  {
    hide Wf, Create;
    if early != [] {
      var e := early[0];
      EarlyKeeps(if e.t in v.home then v else Create(v, e.t, e.p, e.d, e.expired, false), early[1..]);
    }
  }

  // The kernel at the end of gyros_start.
  ghost function Started(early: seq<Early>): (v: View)
    ensures Scheduling(v)
  {
    hide Wf, Settled, StartUp, Boot, CreateAll;
    EarlyKeeps(Boot(), early);
    var v := StartUp(CreateAll(Boot(), early));
    IdleRuns(v);
    v
  }

  ghost function KernelRun(v: View, ops: seq<KernelOp>): View
    requires Scheduling(v)
    decreases |ops|
  {
    hide Scheduling, KernelEnabled, KernelStep, KernelEffect;
    if ops == [] then v
    else if KernelEnabled(v, {}, ops[0]) then KernelKeeps(v, {}, ops[0]); KernelRun(KernelStep(v, {}, ops[0]), ops[1..])
    else KernelRun(v, ops[1..])
  }

  // After the start and any run of operations, current is the first running task, the idle
  // task can run, and no running task is on the timeout list.
  lemma {:induction false} RunScheduled(v: View, ops: seq<KernelOp>)
    requires Scheduling(v)
    ensures Scheduling(KernelRun(v, ops))
    decreases |ops|
  {
    hide Scheduling, KernelEnabled, KernelStep, KernelEffect;
    if ops != [] {
      if KernelEnabled(v, {}, ops[0]) {
        KernelKeeps(v, {}, ops[0]);
        RunScheduled(KernelStep(v, {}, ops[0]), ops[1..]);
      } else {
        RunScheduled(v, ops[1..]);
      }
    }
  }

  // ----- a run to a pending timeout

  const SLEEPER: Tid := 1

  // A task of priority 1 is created, the kernel is started, and the task goes to sleep.
  ghost function Asleep(): View {
    hide Scheduling;
    KernelRun(Started([Early(SLEEPER, 1, 0, false)]), [SleepUntil(5)])
  }

  lemma SleeperStarted()
    ensures var v := Started([Early(SLEEPER, 1, 0, false)]);
      && v.current == SLEEPER && v.home == map[IDLE := Some(RUNNING), SLEEPER := Some(RUNNING)]
      && v.prio == map[IDLE := 0, SLEEPER := 1]
  {
    hide Wf, Settled, StartUp, Boot, Create;
    var e := Early(SLEEPER, 1, 0, false);
    var w := Create(Boot(), SLEEPER, 1, 0, false, false);
    assert CreateAll(w, [e][1..]) == w;
    TopIsCurrent(Started([e]), SLEEPER);
  }

  lemma AsleepIs()
    ensures var v := Asleep();
      && Scheduling(v) && v.home == map[IDLE := Some(RUNNING), SLEEPER := None]
      && v.prio == map[IDLE := 0, SLEEPER := 1] && SLEEPER in v.timeouts
  {
    hide Scheduling, Started, KernelStep, KernelRun, InTime, OthersInOrder;
    SleeperStarted();
    var v := Started([Early(SLEEPER, 1, 0, false)]);
    KernelKeeps(v, {}, SleepUntil(5));
    KernelGives(v, {}, SleepUntil(5));
    RunOne(v, SleepUntil(5));
  }

  lemma RunOne(v: View, op: KernelOp)
    requires Scheduling(v) && KernelEnabled(v, {}, op)
    ensures KernelRun(v, [op]) == KernelStep(v, {}, op)
  {
    hide Scheduling, KernelEnabled, KernelStep, KernelEffect;
    KernelKeeps(v, {}, op);
    assert [op][1..] == [];
  }

  // It is resumed: it runs again, and is on the timeout list.
  lemma ResumeStrands()
    ensures var v := Asleep();
      && Scheduling(v) && SLEEPER in v.home
      && var r := Resume(v, SLEEPER);
         && r.current == SLEEPER && SLEEPER in r.home && r.home[SLEEPER] == Some(RUNNING)
         && SLEEPER in r.timeouts && !Scheduling(r)
  {
    hide Wf, Asleep, Settled, Move, Resched;
    AsleepIs();
    var v := Asleep();
    ResumeExactly(v, SLEEPER);
    RunningListed(v);
    var w := Move(v, SLEEPER, RUNNING);
    TopIsFirst(w, RUNNING, SLEEPER);
    ReschedTimes(w);
    FirstTakes(w);
  }

  lemma FirstTakes(v: View)
    requires Wf(v) && RUNNING in v.lists && v.lists[RUNNING] != []
    ensures Resched(v).current == v.lists[RUNNING][0]
  {
  }
}

// The same at the level of pointers.
module KernelRuns {
  import opened Lists
  import opened Sched
  import opened Kernels
  import opened Bystander

  // However the kernel got where it is, the timeout node of a task that runs points to
  // itself, so gyros__task_set_timeout never inserts a node that is on a list already.
  lemma NeverSplicedTwice(k: Kernel, t: Task, early: seq<Early>, ops: seq<Bystander.KernelOp>)
    requires k.Valid() && k.view == KernelRun(Started(early), ops) && k.IsTask(t)
    ensures t.mainList == k.running ==>
      t.id !in k.view.timeouts && t.timeoutNode.next == t.timeoutNode && t.timeoutNode.prev == t.timeoutNode
  {
    hide Kernel.Valid, Scheduling, KernelRun, Started;
    RunScheduled(Started(early), ops);
    if t.mainList == k.running {
      k.RunningNotTimed(t);
    }
  }

  // gyros__task_set_timeout puts the timeout node of current in front of some node: that
  // keeps the lists well-formed exactly if the task has no pending timeout.
  lemma TimeoutSplice(k: Kernel, t: Task, i: Node)
    requires k.Valid() && k.IsTask(t) && i in k.links.m.ringOf
    ensures Partition(k.links.m) && t.timeoutNode in k.links.m.ringOf
    ensures (exists r :: Inserted(k.links.m, r, t.timeoutNode, i) && Partition(r)) <==> t.id !in k.view.timeouts
  {
    hide Partition, Inserted;
    k.TimeoutNodeLinked(t);
    InsertExactly(k.links.m, t.timeoutNode, i);
  }
}
