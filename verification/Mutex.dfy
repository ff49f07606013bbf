// src/mutex.c and the blocking part of src/cond.c: mutual exclusion with priority
// inheritance, over all runs.
//
// Each interrupt-disabled region is one step.  A task that blocks inside
// gyros_mutex_lock re-runs the same region when it is current again, so one region
// function serves the first attempt and every retry.

module MutexSpec {
  import opened Seqs
  import opened Sched

  datatype Region = Region(v: View, owner: Option<Tid>)

  // One pass through gyros__mutex_lock_slow by the current task: take the mutex if it
  // is free, else queue up on list l and hand the owner one's priority.
  function LockRegion(v: View, l: Lid, owner: Option<Tid>): (r: Region)
    requires Wf(v) && l in v.lists && v.current in v.home && (owner.Some? ==> owner.value in v.home)
    ensures Wf(r.v)
  {
    hide Wf, Move, SetPrio, Resched;
    FieldsKnown(v);
    if owner.None? then Region(v, Some(v.current))
    else
      var w := Move(v, v.current, l);
      var p := w.prio[v.current];
      Region(Resched(if w.prio[owner.value] < p then SetPrio(w, owner.value, p) else w), owner)
  }

  // gyros__mutex_try_lock_slow
  function TryLockRegion(v: View, owner: Option<Tid>): Region {
    if owner.Some? then Region(v, owner) else Region(v, Some(v.current))
  }

  // gyros__mutex_unlock_slow by the current task.
  function UnlockRegion(v: View, l: Lid, reschedule: bool): (r: Region)
    requires Wf(v) && l in v.lists && v.current in v.home
    ensures Wf(r.v) && r.v.lists.Keys == v.lists.Keys && r.v.home.Keys == v.home.Keys
  {
    hide Wf, SetPrio, Wake, Resched;
    FieldsKnown(v);
    var w := if v.prio[v.current] != v.base[v.current] then SetPrio(v, v.current, v.base[v.current]) else v;
    if w.lists[l] == [] then Region(w, None)
    else
      FirstKnown(w, l);
      var x := Wake(w, w.lists[l][0]);
      Region(if reschedule then Resched(x) else x, None)
  }
}

module MutexProtocol {
  import opened Seqs
  import opened Sched
  import opened MutexSpec
  import opened Bystander
  import opened Order
  import opened Effects

  // Where a task is with respect to the mutexes.
  datatype Pc =
    | Free                  // holds none and is in no call
    | Contend(m: Lid)       // inside gyros_mutex_lock(m): queued, or woken and about to retry
    | Hold(m: Lid)
    | InCond(m: Lid)        // inside gyros_cond_wait: will lock m again when it resumes

  // Mutexes are named by their wait lists.
  datatype State = State(v: View, owner: map<Lid, Option<Tid>>, pc: map<Tid, Pc>)

  datatype Op =
    | Lock(m: Lid)                       // by current: first attempt, or retry after a wake
    | TryLock(m: Lid)
    | Unlock
    | CondWait(c: Lid)
    | CondWaitUntil(c: Lid, d: int)
    | SignalOne(c: Lid)
    | SignalAll(c: Lid)
    | OtherOp(op: KernelOp)              // whatever else goes on

  // A list that is not the running list and not a mutex.
  predicate Other(s: State, l: Lid) {
    l in s.v.lists && l != RUNNING && l !in s.owner
  }

  // Task t may be at mutex m's lock call: it holds nothing, or it is already in the call.
  predicate MayLock(s: State, m: Lid) {
    && m in s.owner && s.v.current in s.pc && s.v.current != IDLE
    && match s.pc[s.v.current]
       case Free => true
       case Contend(x) => x == m
       case InCond(x) => x == m
       case Hold(_) => false
  }

  predicate Holding(s: State) {
    s.v.current in s.pc && s.pc[s.v.current].Hold?
  }

  // A current task outside every mutex call, which may do something else.
  predicate Outside(s: State) {
    s.v.current in s.pc && (s.pc[s.v.current].Free? || s.pc[s.v.current].Hold?)
  }

  ghost predicate Enabled(s: State, op: Op) {
    match op
    case Lock(m) => MayLock(s, m)
    case TryLock(m) => m in s.owner && s.v.current in s.pc && s.pc[s.v.current].Free?
    case Unlock => Holding(s)
    case CondWait(c) => Holding(s) && Other(s, c) && s.v.current != IDLE
    case CondWaitUntil(c, d) => Holding(s) && Other(s, c) && s.v.current != IDLE
    case SignalOne(c) => Other(s, c)
    case SignalAll(c) => Other(s, c)
    case OtherOp(k) =>
      && KernelEnabled(s.v, s.owner.Keys, k)
      && (k.BlockOn? || k.BlockUntil? || k.SleepUntil? ==> Outside(s))
      && (k.SuspendTask? ==> k.t in s.pc && !s.pc[k.t].Contend?)
      && (k.SetPriority? ==> MaySet(s, k.t, k.p))
  }

  // Priority p may be given to task t from outside: t has nothing to do with a mutex, or it
  // holds one and p is not below the priority of a waiter.
  ghost predicate MaySet(s: State, t: Tid, p: nat) {
    && t in s.pc && !s.pc[t].Contend?
    && (s.pc[t].Hold? ==> Covers(s, s.pc[t].m, p))
  }

  ghost predicate Covers(s: State, m: Lid, p: nat) {
    forall w {:trigger Waits(s, w, m)} :: Waits(s, w, m) ==> w in s.v.prio && s.v.prio[w] <= p
  }

  // ----- the invariant

  // Task t waits for mutex m.
  ghost predicate Waits(s: State, t: Tid, m: Lid) {
    t in s.v.home && s.v.home[t] == Some(m)
  }

  // Only tasks inside the lock call are queued on a mutex; they are on no timeout list.
  // A task that holds no mutex runs at its base priority.
  ghost predicate TaskOk(s: State, t: Tid) {
    && t in s.v.home && t in s.pc && t in s.v.prio && t in s.v.base
    && (s.v.home[t].Some? && s.v.home[t].value in s.owner ==> s.pc[t] == Contend(s.v.home[t].value))
    && (!s.pc[t].Hold? ==> s.v.prio[t] == s.v.base[t])
    && match s.pc[t]
       case Free => true
       case Contend(m) => m in s.owner && t !in s.v.timeouts && (s.v.home[t] == Some(m) || s.v.home[t] == Some(RUNNING))
       case Hold(m) => m in s.owner && s.owner[m] == Some(t)
       case InCond(m) => m in s.owner
  }

  // Task t has priority at least that of every waiter of m.
  ghost predicate Outranks(s: State, t: Tid, m: Lid) {
    t in s.v.prio
      && forall w {:trigger Waits(s, w, m)} :: Waits(s, w, m) ==> w in s.v.prio && s.v.prio[w] <= s.v.prio[t]
  }

  // The priority of an owner is its base priority or that of one of its waiters.
  ghost predicate Deserved(s: State, o: Tid, m: Lid) {
    && o in s.v.prio && o in s.v.base && s.v.base[o] <= s.v.prio[o]
    && (s.v.base[o] == s.v.prio[o] || exists w :: Waits(s, w, m) && w in s.v.prio && s.v.prio[w] == s.v.prio[o])
  }

  // A woken task that is about to retry m and outranks every waiter.
  ghost predicate Contender(s: State, c: Tid, m: Lid) {
    && c in s.v.home && c in s.pc && s.pc[c] == Contend(m) && s.v.home[c] == Some(RUNNING)
    && Outranks(s, c, m)
  }

  // The owner holds the mutex and has inherited exactly the priority that its waiters
  // call for; a mutex that is free but waited for has been offered to a contender.
  ghost predicate MutexOk(s: State, m: Lid) {
    && m in s.v.lists && m != RUNNING && m in s.owner
    && match s.owner[m]
       case Some(o) => o in s.v.home && o in s.pc && s.pc[o] == Hold(m) && Outranks(s, o, m) && Deserved(s, o, m)
       case None => (exists w :: Waits(s, w, m)) ==> exists c :: Contender(s, c, m)
  }

  // What holds of the tasks and mutexes even inside a region.
  ghost predicate Core(s: State) {
    && Wf(s.v)
    && (forall t :: t in s.v.home ==> TaskOk(s, t))
    && (forall m :: m in s.owner ==> MutexOk(s, m))
  }

  ghost predicate Inv(s: State) {
    Scheduling(s.v) && Core(s)
  }

  // ----- the steps

  // gyros__mutex_lock_slow, one region.
  ghost function LockStep(s: State, m: Lid): State
    requires Inv(s) && Enabled(s, Lock(m))
  {
    hide Inv, Wf, LockRegion;
    CurrentKnown(s);
    var r := LockRegion(s.v, m, s.owner[m]);
    State(r.v, s.owner[m := r.owner], s.pc[s.v.current := if s.owner[m].None? then Hold(m) else Contend(m)])
  }

  ghost function TryLockStep(s: State, m: Lid): State
    requires Inv(s) && Enabled(s, TryLock(m))
  {
    var r := TryLockRegion(s.v, s.owner[m]);
    State(r.v, s.owner[m := r.owner], if s.owner[m].None? then s.pc[s.v.current := Hold(m)] else s.pc)
  }

  // The mutex that current holds, released; current is free, or on its way into cond_wait.
  ghost function Released(s: State, v: View, reschedule: bool): State
    requires Inv(s) && Holding(s) && Wf(v) && v.current == s.v.current
    requires v.lists.Keys == s.v.lists.Keys && v.home.Keys == s.v.home.Keys
  {
    hide Inv, Wf, UnlockRegion;
    CurrentKnown(s);
    var m := s.pc[s.v.current].m;
    var r := UnlockRegion(v, m, reschedule);
    State(r.v, s.owner[m := r.owner], s.pc[s.v.current := Free])
  }

  ghost function UnlockStep(s: State): State
    requires Inv(s) && Enabled(s, Unlock)
  {
    Released(s, s.v, true)
  }

  // gyros_cond_wait up to its reschedule: release the mutex and join list l, in one region.
  ghost function WaitStep(s: State, v: View, l: Lid): State
    requires Inv(s) && Holding(s) && Other(s, l) && Wf(v) && v.current == s.v.current
    requires v.lists.Keys == s.v.lists.Keys && v.home.Keys == s.v.home.Keys
  {
    hide Inv, Wf, UnlockRegion, Move, Resched;
    CurrentKnown(s);
    var r := Released(s, v, false);
    State(Resched(Move(r.v, s.v.current, l)), r.owner, r.pc[s.v.current := InCond(s.pc[s.v.current].m)])
  }

  // gyros_cond_signal_one and gyros_cond_signal_all
  ghost function Signalled(s: State, op: Op): View
    requires Inv(s) && Enabled(s, op) && (op.SignalOne? || op.SignalAll?)
  {
    hide Inv, Wf, Wake, Resched, WakeAll;
    CurrentKnown(s);
    match op
    case SignalOne(l) => if s.v.lists[l] == [] then s.v else FirstKnown(s.v, l); Resched(Wake(s.v, s.v.lists[l][0]))
    case SignalAll(l) => if s.v.lists[l] == [] then s.v else Resched(WakeAll(s.v, l))
  }

  ghost function OtherStep(s: State, k: KernelOp): State
    requires Inv(s) && Enabled(s, OtherOp(k))
  {
    hide Core, Scheduling, KernelStep;
    s.(v := KernelStep(s.v, s.owner.Keys, k), pc := PcAfter(s.pc, k, Free))
  }

  ghost function Step(s: State, op: Op): State
    requires Inv(s) && Enabled(s, op)
  {
    hide Inv, Wf, Arm, LockStep, TryLockStep, UnlockStep, WaitStep, Signalled, OtherStep;
    CurrentKnown(s);
    match op
    case Lock(m) => LockStep(s, m)
    case TryLock(m) => TryLockStep(s, m)
    case Unlock => UnlockStep(s)
    case CondWait(l) => WaitStep(s, s.v, l)
    case CondWaitUntil(l, d) => WaitStep(s, Arm(s.v, s.v.current, d), l)
    case OtherOp(k) => OtherStep(s, k)
    case _ => s.(v := Signalled(s, op))
  }

  lemma CurrentKnown(s: State)
    requires Inv(s)
    ensures Wf(s.v)
    ensures var c := s.v.current;
      && c in s.v.home && c in s.pc && s.v.home[c] == Some(RUNNING) && c !in s.v.timeouts
      && c in s.v.prio && c in s.v.base
      && (s.pc[c].Hold? ==> s.pc[c].m in s.owner && s.pc[c].m in s.v.lists && s.owner[s.pc[c].m] == Some(c))
    ensures forall m :: m in s.owner ==> m in s.v.lists && (s.owner[m].Some? ==> s.owner[m].value in s.v.home)
    ensures forall t :: t in s.v.home && t in s.v.prio && s.v.home[t] == Some(RUNNING) ==>
      s.v.prio[t] <= s.v.prio[s.v.current]
  {
    HeadIsTop(s.v, RUNNING);
    assert TaskOk(s, s.v.current);
    forall m | m in s.owner ensures m in s.v.lists && (s.owner[m].Some? ==> s.owner[m].value in s.v.home) {
      assert MutexOk(s, m);
    }
  }

  // ----- every step keeps the invariant

  // Nothing happens to task t that matters to a mutex.  If it is at no mutex it may go
  // anywhere else, and may be given another priority.
  ghost predicate Aside(s: State, r: State, t: Tid) {
    && t in s.v.home && t in r.v.home && t in s.pc && t in r.pc && r.pc[t] == s.pc[t]
    && (if s.pc[t].Contend? then r.v.home[t] == s.v.home[t] && t !in r.v.timeouts
        else r.v.home[t].None? || r.v.home[t].value !in s.owner)
    && SameRank(s, r, t)
  }

  ghost predicate SameRank(s: State, r: State, t: Tid) {
    && t in s.pc && t in s.v.prio && t in r.v.prio && t in s.v.base && t in r.v.base
    && (if s.pc[t].Contend? || s.pc[t].Hold? then r.v.prio[t] == s.v.prio[t] && r.v.base[t] == s.v.base[t]
        else r.v.prio[t] == r.v.base[t])
  }

  // A task that was not there before is at no mutex.
  ghost predicate Newcomer(r: State, t: Tid) {
    && t in r.v.home && t in r.pc && r.pc[t] == Free && t in r.v.prio && t in r.v.base && r.v.prio[t] == r.v.base[t]
    && (r.v.home[t].None? || r.v.home[t].value !in r.owner)
  }

  ghost predicate SameTasks(v: View, r: View) {
    r.lists.Keys == v.lists.Keys && r.home.Keys == v.home.Keys && r.prio == v.prio && r.base == v.base
  }

  // Nothing that mutex m depends on changes.
  ghost predicate MutexKept(s: State, r: State, m: Lid) {
    && m in s.owner && m in r.owner && r.owner[m] == s.owner[m] && m in r.v.lists
    && (forall t {:trigger Waits(r, t, m)} :: Waits(r, t, m) ==> Waits(s, t, m))
    && (forall t {:trigger s.pc[t]} :: t in s.v.home && t in s.pc && s.pc[t] == Contend(m) ==>
          TaskKept(s, r, t) && r.v.home[t] == s.v.home[t])
    && (s.owner[m].Some? ==> TaskKept(s, r, s.owner[m].value))
  }

  ghost predicate TaskKept(s: State, r: State, t: Tid) {
    && t in s.v.home && t in r.v.home && t in s.pc && t in r.pc && t in s.v.prio && t in r.v.prio && t in s.v.base
      && t in r.v.base
    && r.pc[t] == s.pc[t] && r.v.prio[t] == s.v.prio[t] && r.v.base[t] == s.v.base[t]
  }

  lemma WaiterKept(s: State, r: State, m: Lid, w: Tid)
    requires Core(s) && MutexKept(s, r, m) && Waits(s, w, m)
    ensures Waits(r, w, m) && w in s.v.prio && w in r.v.prio && r.v.prio[w] == s.v.prio[w]
  {
    assert TaskOk(s, w);
  }

  lemma OutranksKept(s: State, r: State, m: Lid, t: Tid)
    requires Core(s) && MutexKept(s, r, m) && Outranks(s, t, m) && t in r.v.prio && r.v.prio[t] >= s.v.prio[t]
    ensures Outranks(r, t, m)
  {
    forall w | Waits(r, w, m) ensures w in r.v.prio && r.v.prio[w] <= r.v.prio[t] {
      WaiterKept(s, r, m, w);
    }
  }

  lemma MutexStays(s: State, r: State, m: Lid)
    requires Core(s) && MutexKept(s, r, m)
    ensures MutexOk(r, m)
  {
    hide Wf, Outranks;
    assert MutexOk(s, m);
    match s.owner[m]
    case Some(o) =>
      OutranksKept(s, r, m, o);
      if s.v.base[o] != s.v.prio[o] {
        var w :| Waits(s, w, m) && w in s.v.prio && s.v.prio[w] == s.v.prio[o];
        WaiterKept(s, r, m, w);
      }
    case None =>
      if w :| Waits(r, w, m) {
        assert Waits(s, w, m);
        var c :| Contender(s, c, m);
        OutranksKept(s, r, m, c);
        assert Contender(r, c, m);
      }
  }

  lemma Unaffected(s: State, r: State)
    requires Core(s) && Wf(r.v) && r.owner == s.owner && s.v.lists.Keys <= r.v.lists.Keys
    requires forall t :: t in s.v.home ==> Aside(s, r, t)
    requires forall t :: t in r.v.home && t !in s.v.home ==> Newcomer(r, t)
    ensures Core(r)
  {
    hide Wf, MutexOk;
    forall t | t in r.v.home ensures TaskOk(r, t) {
      assert t in s.v.home ==> Aside(s, r, t) && TaskOk(s, t);
      assert t !in s.v.home ==> Newcomer(r, t);
    }
    forall m | m in s.owner ensures MutexOk(r, m) {
      ListKnown(s, m);
      forall t | Waits(r, t, m) ensures Waits(s, t, m) {
        assert t in s.v.home ==> Aside(s, r, t) && TaskOk(s, t);
        assert t !in s.v.home ==> Newcomer(r, t);
      }
      forall t | t in s.v.home && t in s.pc && s.pc[t] == Contend(m)
        ensures TaskKept(s, r, t) && r.v.home[t] == s.v.home[t] {
        assert Aside(s, r, t) && TaskOk(s, t);
      }
      MutexStays(s, r, m);
    }
  }

  lemma ListKnown(s: State, m: Lid)
    requires Core(s) && m in s.owner
    ensures m in s.v.lists && m != RUNNING
    ensures s.owner[m].Some? ==> var o := s.owner[m].value;
      o in s.v.home && o in s.pc && s.pc[o] == Hold(m) && o in s.v.prio && o in s.v.base
  {
    assert MutexOk(s, m);
    if s.owner[m].Some? {
      assert TaskOk(s, s.owner[m].value);
    }
  }

  // ----- gyros__mutex_lock_slow

  // The lock goes to current, which is the first of the running tasks and so outranks
  // whoever it may be taking the mutex from.
  lemma AcquireKeeps(s: State, m: Lid)
    requires Inv(s) && m in s.owner && s.owner[m].None? && s.v.current in s.pc && !s.pc[s.v.current].Hold?
    requires s.pc[s.v.current].Contend? || s.pc[s.v.current].InCond? ==> s.pc[s.v.current].m == m
    ensures Inv(State(s.v, s.owner[m := Some(s.v.current)], s.pc[s.v.current := Hold(m)]))
  {
    hide Wf, Outranks, Scheduling;
    var c := s.v.current;
    var r := State(s.v, s.owner[m := Some(c)], s.pc[c := Hold(m)]);
    CurrentKnown(s);
    forall t | t in s.v.home ensures TaskOk(r, t) {
      assert TaskOk(s, t);
    }
    forall x | x in r.owner ensures MutexOk(r, x) {
      ListKnown(s, x);
      if x != m {
        AcquireOther(s, m, x);
      } else {
        CurrentOutranks(s, m);
        OutranksSame(s, r, m, c);
      }
    }
  }

  lemma AcquireOther(s: State, m: Lid, x: Lid)
    requires Inv(s) && m in s.owner && x in s.owner && x != m && s.v.current in s.pc && !s.pc[s.v.current].Hold?
    requires s.pc[s.v.current].Contend? || s.pc[s.v.current].InCond? ==> s.pc[s.v.current].m == m
    ensures MutexOk(State(s.v, s.owner[m := Some(s.v.current)], s.pc[s.v.current := Hold(m)]), x)
  {
    hide Wf, MutexOk, Scheduling;
    var r := State(s.v, s.owner[m := Some(s.v.current)], s.pc[s.v.current := Hold(m)]);
    ListKnown(s, x);
    forall t | t in s.v.home && t in s.pc && s.pc[t] == Contend(x) ensures TaskKept(s, r, t) {
      assert TaskOk(s, t);
    }
    MutexStays(s, r, x);
  }

  lemma OutranksSame(s: State, r: State, m: Lid, t: Tid)
    requires Outranks(s, t, m) && r.v.home == s.v.home && r.v.prio == s.v.prio
    ensures Outranks(r, t, m)
  {
    forall w | Waits(r, w, m) ensures w in r.v.prio && r.v.prio[w] <= r.v.prio[t] {
      assert Waits(s, w, m);
    }
  }

  lemma CurrentOutranks(s: State, m: Lid)
    requires Inv(s) && m in s.owner && s.owner[m].None?
    ensures Outranks(s, s.v.current, m)
  {
    hide Wf;
    CurrentKnown(s);
    assert MutexOk(s, m);
    if w :| Waits(s, w, m) {
      var c :| Contender(s, c, m);
      assert s.v.prio[c] <= s.v.prio[s.v.current];
    }
  }

  // What the blocking branch does.
  lemma BlockEffect(v: View, l: Lid, o: Tid)
    requires Wf(v) && l in v.lists && v.current in v.home && o in v.home && o != v.current
    ensures LockRegion(v, l, Some(o)).owner == Some(o)
    ensures var r := LockRegion(v, l, Some(o)).v;
      && v.current in v.prio && o in v.prio
      && Wf(r) && r.lists.Keys == v.lists.Keys && r.home == v.home[v.current := Some(l)] && r.base == v.base
        && SameTimes(v, r)
      && r.prio == v.prio[o := if v.prio[o] < v.prio[v.current] then v.prio[v.current] else v.prio[o]]
      && (Runnable(r) ==> Settled(r))
  {
    hide Wf, Move, SetPrio, Resched;
    FieldsKnown(v);
    var c := v.current;
    var w := Move(v, c, l);
    var x := if w.prio[o] < w.prio[c] then SetPrio(w, o, w.prio[c]) else w;
    assert LockRegion(v, l, Some(o)) == Region(Resched(x), Some(o));
    ReschedRunnable(x);
  }

  lemma BlockKeeps(s: State, m: Lid)
    requires Inv(s) && MayLock(s, m) && s.owner[m].Some?
    ensures Inv(LockStep(s, m))
  {
    hide Wf, Outranks, Deserved, LockRegion, Waits;
    var c, o := s.v.current, s.owner[m].value;
    CurrentKnown(s);
    ListKnown(s, m);
    BlockEffect(s.v, m, o);
    var r := LockStep(s, m);
    IdleRuns(r.v);
    forall t | t in r.v.home ensures TaskOk(r, t) {
      assert TaskOk(s, t);
    }
    forall x | x in r.owner ensures MutexOk(r, x) {
      ListKnown(s, x);
      if x != m {
        BlockOthers(s, m, x);
      } else {
        BlockOwner(s, m);
      }
    }
  }

  lemma BlockOthers(s: State, m: Lid, x: Lid)
    requires Inv(s) && MayLock(s, m) && s.owner[m].Some? && x in s.owner && x != m
    ensures MutexOk(LockStep(s, m), x)
  {
    hide Wf, Outranks, Deserved, LockRegion, MutexOk, Scheduling;
    CurrentKnown(s);
    ListKnown(s, m);
    ListKnown(s, x);
    BlockEffect(s.v, m, s.owner[m].value);
    var r := LockStep(s, m);
    forall t | Waits(r, t, x) ensures Waits(s, t, x) {
    }
    forall t | t in s.v.home && t in s.pc && s.pc[t] == Contend(x)
      ensures TaskKept(s, r, t) && r.v.home[t] == s.v.home[t] {
      assert TaskOk(s, t);
    }
    MutexStays(s, r, x);
  }

  lemma BlockOwner(s: State, m: Lid)
    requires Inv(s) && MayLock(s, m) && s.owner[m].Some?
    ensures MutexOk(LockStep(s, m), m)
  {
    hide Wf, LockRegion, Outranks, Deserved, Scheduling;
    CurrentKnown(s);
    ListKnown(s, m);
    BlockEffect(s.v, m, s.owner[m].value);
    BlockOutranks(s, m);
    BlockDeserved(s, m);
  }

  lemma BlockOutranks(s: State, m: Lid)
    requires Inv(s) && MayLock(s, m) && s.owner[m].Some?
    ensures Outranks(LockStep(s, m), s.owner[m].value, m)
  {
    hide Wf, LockRegion, Deserved, Scheduling;
    var c, o := s.v.current, s.owner[m].value;
    CurrentKnown(s);
    ListKnown(s, m);
    BlockEffect(s.v, m, o);
    var r := LockStep(s, m);
    assert MutexOk(s, m);
    forall w | Waits(r, w, m) ensures w in r.v.prio && r.v.prio[w] <= r.v.prio[o] {
      if w != c {
        assert Waits(s, w, m) && TaskOk(s, w);
      }
    }
  }

  // The priority that the owner has after it is its own or that of current.
  lemma BlockDeserved(s: State, m: Lid)
    requires Inv(s) && MayLock(s, m) && s.owner[m].Some?
    ensures Deserved(LockStep(s, m), s.owner[m].value, m)
  {
    hide Wf, LockRegion, Outranks, Scheduling;
    var c, o := s.v.current, s.owner[m].value;
    CurrentKnown(s);
    ListKnown(s, m);
    BlockEffect(s.v, m, o);
    var r := LockStep(s, m);
    assert MutexOk(s, m);
    assert Waits(r, c, m);
    if s.v.prio[o] >= s.v.prio[c] && s.v.base[o] != s.v.prio[o] {
      var w :| Waits(s, w, m) && w in s.v.prio && s.v.prio[w] == s.v.prio[o];
      assert TaskOk(s, w) && Waits(r, w, m);
    }
  }

  // ----- gyros__mutex_unlock_slow

  // What the unlock does: current drops to its base priority and the first waiter, one
  // of highest priority, is woken.
  lemma UnlockEffect(v: View, l: Lid, reschedule: bool) returns (h: Option<Tid>)
    requires Wf(v) && l in v.lists && l != RUNNING && v.current in v.home && v.home[v.current] == Some(RUNNING)
    ensures v.current in v.prio && v.current in v.base
    ensures var r := UnlockRegion(v, l, reschedule).v;
      && Wf(r) && r.lists.Keys == v.lists.Keys && r.base == v.base && r.prio == v.prio[v.current := v.base[v.current]]
      && (forall t :: t in r.timeouts ==> t in v.timeouts)
      && (h.None? ==> r.home == v.home && (v.prio[v.current] == v.base[v.current] ==> r == v))
      && (h.Some? ==> r.home == v.home[h.value := Some(RUNNING)] && h.value !in r.timeouts)
      && (h.Some? && reschedule && Runnable(r) ==> Settled(r))
      && (!reschedule ==> r.current == v.current)
    ensures UnlockRegion(v, l, reschedule).owner == None
    ensures h.None? ==> forall t :: t in v.home ==> v.home[t] != Some(l)
    ensures h.Some? ==> h.value in v.home && v.home[h.value] == Some(l) && h.value in v.prio
    ensures h.Some? ==> forall t :: t in v.home && v.home[t] == Some(l) ==> t in v.prio && v.prio[t] <= v.prio[h.value]
  {
    hide Wf, SetPrio, Wake, Resched;
    FieldsKnown(v);
    var c := v.current;
    var w := if v.prio[c] != v.base[c] then SetPrio(v, c, v.base[c]) else v;
    EmptyList(w, l);
    if w.lists[l] == [] {
      h := None;
    } else {
      HeadIsTop(w, l);
      h := Some(w.lists[l][0]);
      ReschedRunnable(Wake(w, w.lists[l][0]));
    }
  }

  // Releasing the mutex, on a state of which only the scheduling part may be unsettled.
  ghost function ReleasedState(s: State, m: Lid, reschedule: bool): State
    requires Core(s) && m in s.v.lists && s.v.current in s.v.home
  {
    hide Wf, UnlockRegion;
    var r := UnlockRegion(s.v, m, reschedule);
    State(r.v, s.owner[m := r.owner], s.pc[s.v.current := Free])
  }

  // Current runs and holds m.
  ghost predicate Holds(s: State, m: Lid) {
    && s.v.current in s.v.home && s.v.home[s.v.current] == Some(RUNNING)
    && s.v.current in s.pc && s.pc[s.v.current] == Hold(m) && m in s.v.lists && m != RUNNING && m in s.owner
  }

  lemma ReleaseTask(s: State, m: Lid, reschedule: bool, t: Tid)
    requires Core(s) && Holds(s, m) && t in s.v.home
    ensures TaskOk(ReleasedState(s, m, reschedule), t)
  {
    hide Wf, UnlockRegion, MutexOk;
    assert TaskOk(s, t);
    assert TaskOk(s, s.v.current);
    RunningNoMutex(s);
    var h := UnlockEffect(s.v, m, reschedule);
    if h.Some? {
      assert TaskOk(s, h.value);
    }
  }

  lemma RunningNoMutex(s: State)
    requires Core(s)
    ensures RUNNING !in s.owner
  {
    if RUNNING in s.owner {
      ListKnown(s, RUNNING);
    }
  }

  lemma ReleaseOther(s: State, m: Lid, reschedule: bool, x: Lid)
    requires Core(s) && Holds(s, m) && x in s.owner && x != m
    ensures MutexOk(ReleasedState(s, m, reschedule), x)
  {
    hide Wf, UnlockRegion, MutexOk, Outranks;
    var h := UnlockEffect(s.v, m, reschedule);
    if h.Some? {
      assert TaskOk(s, h.value);
    }
    ListKnown(s, x);
    var r := ReleasedState(s, m, reschedule);
    forall t | t in s.v.home && t in s.pc && s.pc[t] == Contend(x)
      ensures TaskKept(s, r, t) && r.v.home[t] == s.v.home[t] {
      assert TaskOk(s, t);
    }
    MutexStays(s, r, x);
  }

  lemma ReleaseThis(s: State, m: Lid, reschedule: bool)
    requires Core(s) && Holds(s, m)
    ensures MutexOk(ReleasedState(s, m, reschedule), m)
  {
    hide Wf, UnlockRegion;
    var h := UnlockEffect(s.v, m, reschedule);
    var r := ReleasedState(s, m, reschedule);
    if h.Some? {
      assert TaskOk(s, h.value);
      forall w | Waits(r, w, m) ensures w in r.v.prio && r.v.prio[w] <= r.v.prio[h.value] {
        assert TaskOk(s, w);
      }
      assert Contender(r, h.value, m);
    }
  }

  lemma ReleaseKeeps(s: State, m: Lid, reschedule: bool)
    requires Core(s) && Holds(s, m)
    ensures Core(ReleasedState(s, m, reschedule))
    ensures var r := ReleasedState(s, m, reschedule).v;
      SameLists(s.v, r) && (!reschedule ==> r.current == s.v.current)
      && forall t :: t in s.v.home && s.v.home[t] == Some(RUNNING) ==> r.home[t] == Some(RUNNING)
    ensures forall t :: t in ReleasedState(s, m, reschedule).v.timeouts ==> t in s.v.timeouts
  {
    hide Wf, UnlockRegion, MutexOk, TaskOk;
    var r := ReleasedState(s, m, reschedule);
    var h := UnlockEffect(s.v, m, reschedule);
    forall t | t in r.v.home ensures TaskOk(r, t) {
      ReleaseTask(s, m, reschedule, t);
    }
    forall x | x in r.owner ensures MutexOk(r, x) {
      if x == m {
        ReleaseThis(s, m, reschedule);
      } else {
        ReleaseOther(s, m, reschedule, x);
      }
    }
  }

  ghost predicate SameLists(v: View, r: View) {
    r.lists.Keys == v.lists.Keys && r.home.Keys == v.home.Keys
  }

  lemma UnlockKeeps(s: State)
    requires Inv(s) && Enabled(s, Unlock)
    ensures Inv(UnlockStep(s))
  {
    hide Wf, UnlockRegion, MutexOk, Settled, Core;
    var c := s.v.current;
    CurrentKnown(s);
    var m := s.pc[c].m;
    HoldsKnown(s);
    ReleaseKeeps(s, m, true);
    var h := UnlockEffect(s.v, m, true);
    IdleRuns(UnlockStep(s).v);
    if h.None? {
      AtBase(s, m);
    }
  }

  lemma HoldsKnown(s: State)
    requires Inv(s) && Holding(s)
    ensures s.pc[s.v.current].m in s.owner && Holds(s, s.pc[s.v.current].m)
  {
    hide Wf;
    CurrentKnown(s);
    ListKnown(s, s.pc[s.v.current].m);
  }

  // Without waiters the owner has nothing to give back.
  lemma AtBase(s: State, m: Lid)
    requires Core(s) && m in s.owner && s.owner[m].Some? && forall t :: t in s.v.home ==> s.v.home[t] != Some(m)
    ensures s.owner[m].value in s.v.prio && s.owner[m].value in s.v.base
    ensures s.v.prio[s.owner[m].value] == s.v.base[s.owner[m].value]
  {
    assert MutexOk(s, m);
  }

  // ----- gyros_cond_wait and gyros_cond_wait_until

  // A free task that resumes inside cond_wait is still free as far as mutexes go.
  lemma EnterCond(s: State, c: Tid, m: Lid)
    requires Core(s) && c in s.v.home && c in s.pc && s.pc[c] == Free && m in s.owner
    ensures Core(s.(pc := s.pc[c := InCond(m)]))
  {
    hide Wf, MutexOk;
    var r := s.(pc := s.pc[c := InCond(m)]);
    forall t | t in r.v.home ensures TaskOk(r, t) {
      assert TaskOk(s, t);
    }
    forall x | x in r.owner ensures MutexOk(r, x) {
      ListKnown(s, x);
      forall t | t in s.v.home && t in s.pc && s.pc[t] == Contend(x) ensures TaskKept(s, r, t) {
        assert TaskOk(s, t);
      }
      MutexStays(s, r, x);
    }
  }

  // Arming the timeout of the current task changes nothing for the mutexes.
  lemma ArmKeeps(s: State, d: int)
    requires Inv(s) && Outside(s)
    ensures s.v.current in s.v.home && s.v.current !in s.v.timeouts
    ensures
      var v := Arm(s.v, s.v.current, d);
      Core(s.(v := v)) && SameTasks(s.v, v) && v.home == s.v.home && v.current == s.v.current
  {
    hide Wf, Arm, MutexOk;
    CurrentKnown(s);
    RunningNoMutex(s);
    var v := Arm(s.v, s.v.current, d);
    forall t | t in s.v.home ensures Aside(s, s.(v := v), t) {
      assert TaskOk(s, t);
    }
    Unaffected(s, s.(v := v));
  }

  // After the release, current goes to the condition variable's list.
  lemma WaitKeepsCore(s: State, m: Lid, l: Lid)
    requires Core(s) && Holds(s, m) && Other(s, l)
    ensures var r := ReleasedState(s, m, false);
      && Wf(r.v) && s.v.current in r.v.home && l in r.v.lists
      && Core(State(Resched(Move(r.v, s.v.current, l)), r.owner, r.pc[s.v.current := InCond(m)]))
  {
    hide Wf, MutexOk, Move, Resched, UnlockRegion;
    var c := s.v.current;
    ReleaseKeeps(s, m, false);
    var r := ReleasedState(s, m, false);
    var v := Resched(Move(r.v, c, l));
    forall t | t in r.v.home ensures Aside(r, r.(v := v), t) {
      assert TaskOk(r, t);
    }
    Unaffected(r, r.(v := v));
    EnterCond(r.(v := v), c, m);
  }

  // The scheduling part: only current may have been on the timeout list while running.
  lemma WaitSettles(v: View, m: Lid, l: Lid)
    requires Wf(v) && m in v.lists && m != RUNNING && l in v.lists && l != RUNNING
    requires IDLE in v.home && v.home[IDLE] == Some(RUNNING) && v.current != IDLE
    requires v.current in v.home && v.home[v.current] == Some(RUNNING)
    requires forall t :: t in v.timeouts ==> t in v.home && (t != v.current ==> v.home[t] != Some(RUNNING))
    ensures var r := UnlockRegion(v, m, false).v;
      v.current in r.home && l in r.lists && Scheduling(Resched(Move(r, v.current, l)))
  {
    hide Wf, Move, Resched, UnlockRegion, Settled, Runnable;
    var h := UnlockEffect(v, m, false);
    var r := UnlockRegion(v, m, false).v;
    var w := Move(r, v.current, l);
    IdleRuns(w);
    ReschedRunnable(w);
  }

  lemma WaitKeeps(s: State, v: View, l: Lid)
    requires Inv(s) && Holding(s) && Other(s, l) && s.v.current != IDLE
    requires Core(s.(v := v)) && SameTasks(s.v, v) && v.home == s.v.home && v.current == s.v.current
    requires forall t :: t in v.timeouts ==> t in s.v.timeouts || t == s.v.current
    ensures Inv(WaitStep(s, v, l))
  {
    hide Wf, MutexOk, TaskOk, Move, Resched, UnlockRegion, Settled;
    var c := s.v.current;
    CurrentKnown(s);
    HoldsKnown(s);
    var m := s.pc[c].m;
    WaitKeepsCore(s.(v := v), m, l);
    WaitSettles(v, m, l);
  }

  // ----- everything else

  // A task on the list of a condition variable is at no mutex.
  lemma NotContending(s: State, t: Tid)
    requires Inv(s) && t in s.v.home && s.v.home[t].Some? && Other(s, s.v.home[t].value)
    ensures t in s.pc && !s.pc[t].Contend?
  {
    hide Wf, MutexOk, Scheduling;
    assert TaskOk(s, t);
  }

  lemma SignalRank(s: State, op: Op, t: Tid)
    requires Inv(s) && Enabled(s, op) && (op.SignalOne? || op.SignalAll?) && t in s.v.home
    ensures SameRank(s, s.(v := Signalled(s, op)), t)
  {
    hide Wf, Wake, Resched, WakeAll, MutexOk, Scheduling;
    CurrentKnown(s);
    assert TaskOk(s, t);
  }

  lemma SignalAside(s: State, op: Op, t: Tid)
    requires Inv(s) && Enabled(s, op) && (op.SignalOne? || op.SignalAll?) && t in s.v.home
    ensures var v := Signalled(s, op);
      Wf(v) && v.lists.Keys == s.v.lists.Keys && v.home.Keys == s.v.home.Keys && Aside(s, s.(v := v), t)
  {
    hide Wf, Wake, Resched, WakeAll, MutexOk, Scheduling, SameRank;
    CurrentKnown(s);
    RunningNoMutex(s);
    assert TaskOk(s, t);
    SignalRank(s, op, t);
    match op
    case SignalOne(l) =>
      if s.v.lists[l] != [] {
        FirstKnown(s.v, l);
        NotContending(s, s.v.lists[l][0]);
      }
    case SignalAll(l) => WakeAllEffect(s.v, l);
  }

  lemma SignalSettles(s: State, op: Op)
    requires Inv(s) && Enabled(s, op) && (op.SignalOne? || op.SignalAll?)
    ensures Scheduling(Signalled(s, op))
  {
    hide Wf, Wake, Resched, WakeAll, Core, Settled;
    CurrentKnown(s);
    match op
    case SignalOne(l) =>
      if s.v.lists[l] != [] {
        FirstKnown(s.v, l);
        Settles(Wake(s.v, s.v.lists[l][0]));
      }
    case SignalAll(l) =>
      WakeAllEffect(s.v, l);
      Settles(WakeAll(s.v, l));
  }

  lemma SignalKeeps(s: State, op: Op)
    requires Inv(s) && Enabled(s, op) && (op.SignalOne? || op.SignalAll?)
    ensures Inv(Step(s, op))
  {
    hide Wf, Core, Scheduling, Aside, Signalled;
    CurrentKnown(s);
    SignalAside(s, op, s.v.current);
    forall t | t in s.v.home ensures Aside(s, Step(s, op), t) {
      SignalAside(s, op, t);
    }
    Unaffected(s, Step(s, op));
    SignalSettles(s, op);
  }

  // What the rest of the system does to a task: a contender stays where it is, any other
  // task does not get onto the list of a mutex.
  lemma OtherTask(s: State, k: KernelOp, t: Tid)
    requires Inv(s) && Enabled(s, OtherOp(k)) && t in s.v.home
    requires k.SetPriority? && k.t == t ==> t in s.pc && !s.pc[t].Hold?
    ensures Aside(s, OtherStep(s, k), t)
  {
    hide Wf, MutexOk, Settled, KernelStep, SameRank;
    RunsNow(s.v);
    RunningNoMutex(s);
    KernelKeeps(s.v, s.owner.Keys, k);
    OtherRank(s, k, t);
    assert TaskOk(s, t);
    var r := OtherStep(s, k);
    assert Stays(s.v, r.v, t) || Moved(s.v, r.v, k, t);
  }

  lemma OtherRank(s: State, k: KernelOp, t: Tid)
    requires Inv(s) && Enabled(s, OtherOp(k)) && t in s.v.home
    requires k.SetPriority? && k.t == t ==> t in s.pc && !s.pc[t].Hold?
    ensures SameRank(s, OtherStep(s, k), t)
  {
    hide Wf, MutexOk, Scheduling, KernelStep;
    PrioritiesAfter(s.v, s.owner.Keys, k);
    assert TaskOk(s, t);
  }

  lemma OtherNew(s: State, k: KernelOp, t: Tid)
    requires Inv(s) && Enabled(s, OtherOp(k)) && t in OtherStep(s, k).v.home && t !in s.v.home
    ensures Newcomer(OtherStep(s, k), t)
  {
    hide Wf, MutexOk, Scheduling, KernelStep;
    RunningNoMutex(s);
    KernelKeeps(s.v, s.owner.Keys, k);
    PrioritiesAfter(s.v, s.owner.Keys, k);
    assert Appears(OtherStep(s, k).v, k, t);
  }

  lemma OtherKeeps(s: State, k: KernelOp)
    requires Inv(s) && Enabled(s, OtherOp(k))
    ensures Inv(OtherStep(s, k))
  {
    hide Wf, Core, Scheduling, KernelStep, Aside, Newcomer, AfterSet;
    if k.SetPriority? && s.pc[k.t].Hold? {
      HolderSet(s, k.t, k.p);
      SetStep(s, k.t, k.p);
    } else {
      OtherSettles(s, k);
      var r := OtherStep(s, k);
      forall t | t in s.v.home ensures Aside(s, r, t) {
        OtherTask(s, k, t);
      }
      forall t | t in r.v.home && t !in s.v.home ensures Newcomer(r, t) {
        OtherNew(s, k, t);
      }
      Unaffected(s, r);
    }
  }

  // gyros_task_set_priority on a task that holds a mutex.
  lemma SetEffect(s: State, t: Tid, p: nat)
    requires Inv(s) && t in s.v.home
    ensures var r := KernelStep(s.v, s.owner.Keys, SetPriority(t, p));
      && Scheduling(r) && Wf(r) && r.home == s.v.home && s.v.lists.Keys <= r.lists.Keys
      && r.prio == s.v.prio[t := p] && r.base == s.v.base[t := p]
      && (forall x :: x in s.v.home ==> (x in r.timeouts <==> x in s.v.timeouts))
  {
    hide Wf, Core, Settled, KernelStep, SetPrio, Resched;
    var k := SetPriority(t, p);
    KernelKeeps(s.v, s.owner.Keys, k);
    PrioritiesAfter(s.v, s.owner.Keys, k);
    var r := KernelStep(s.v, s.owner.Keys, k);
    forall x | x in s.v.home ensures r.home[x] == s.v.home[x] && (x in r.timeouts <==> x in s.v.timeouts) {
      assert Stays(s.v, r, x) || Moved(s.v, r, k, x);
    }
    SetHomes(s.v, t, p);
  }

  lemma SetHomes(v: View, t: Tid, p: nat)
    requires Scheduling(v) && t in v.home
    ensures KernelStep(v, {}, SetPriority(t, p)).home == v.home
  {
    hide Wf, Settled, TaskSetPriority;
  }

  lemma SetStep(s: State, t: Tid, p: nat)
    requires Inv(s) && Enabled(s, OtherOp(SetPriority(t, p)))
    ensures t in s.v.home && OtherStep(s, SetPriority(t, p)) == AfterSet(s, t, p)
  {
    hide Wf, Core, Settled, KernelStep;
  }

  // The state after it, whatever priority it is.
  ghost function AfterSet(s: State, t: Tid, p: nat): State
    requires Inv(s) && t in s.v.home
  {
    hide Core, Scheduling, KernelStep;
    s.(v := KernelStep(s.v, s.owner.Keys, SetPriority(t, p)))
  }

  lemma HolderTask(s: State, t: Tid, p: nat, x: Tid)
    requires Inv(s) && t in s.v.home && t in s.pc && s.pc[t].Hold? && x in s.v.home
    ensures TaskOk(AfterSet(s, t, p), x)
  {
    hide Wf, MutexOk, Scheduling, KernelStep;
    SetEffect(s, t, p);
    assert TaskOk(s, x) && TaskOk(s, t);
  }

  lemma HolderOther(s: State, t: Tid, p: nat, m: Lid)
    requires Inv(s) && t in s.v.home && t in s.pc && s.pc[t].Hold? && m in s.owner && m != s.pc[t].m
    ensures MutexOk(AfterSet(s, t, p), m)
  {
    hide Wf, MutexOk, Scheduling, KernelStep;
    SetEffect(s, t, p);
    ListKnown(s, m);
    var r := AfterSet(s, t, p);
    forall x | x in s.v.home && x in s.pc && s.pc[x] == Contend(m)
      ensures TaskKept(s, r, x) && r.v.home[x] == s.v.home[x] {
      assert TaskOk(s, x);
    }
    MutexStays(s, r, m);
  }

  lemma HolderThis(s: State, t: Tid, p: nat)
    requires Inv(s) && t in s.v.home && t in s.pc && s.pc[t].Hold?
    ensures s.pc[t].m in s.owner && (MutexOk(AfterSet(s, t, p), s.pc[t].m) <==> Covers(s, s.pc[t].m, p))
  {
    hide Wf, Scheduling, KernelStep;
    SetEffect(s, t, p);
    assert TaskOk(s, t);
    var m, r := s.pc[t].m, AfterSet(s, t, p);
    ListKnown(s, m);
    forall w ensures Waits(r, w, m) <==> Waits(s, w, m) {
    }
    forall w | Waits(s, w, m) ensures w != t && w in s.v.prio && w in r.v.prio && r.v.prio[w] == s.v.prio[w] {
      assert TaskOk(s, w);
    }
  }

  // Setting the priority of a task that holds a mutex, inherited or not, keeps the invariant
  // exactly if the new one is not below the priority of a waiter.
  lemma HolderSet(s: State, t: Tid, p: nat)
    requires Inv(s) && t in s.v.home && t in s.pc && s.pc[t].Hold?
    ensures Inv(AfterSet(s, t, p)) <==> Covers(s, s.pc[t].m, p)
  {
    hide Wf, Scheduling, KernelStep, MutexOk, TaskOk, Covers;
    SetEffect(s, t, p);
    HolderThis(s, t, p);
    var r := AfterSet(s, t, p);
    forall x | x in r.v.home ensures TaskOk(r, x) {
      HolderTask(s, t, p, x);
    }
    forall m | m in r.owner && m != s.pc[t].m ensures MutexOk(r, m) {
      HolderOther(s, t, p, m);
    }
  }

  lemma OtherSettles(s: State, k: KernelOp)
    requires Inv(s) && Enabled(s, OtherOp(k))
    ensures var r := OtherStep(s, k);
      Scheduling(r.v) && Wf(r.v) && r.owner == s.owner && s.v.lists.Keys <= r.v.lists.Keys
  {
    hide Wf, Core, Settled, KernelStep, KernelEnabled;
    KernelKeeps(s.v, s.owner.Keys, k);
  }

  // Every step keeps the invariant.
  lemma StepKeeps(s: State, op: Op)
    requires Inv(s) && Enabled(s, op)
    ensures Inv(Step(s, op))
  {
    hide Wf, Arm, Core, Scheduling, Signalled, OtherStep, LockRegion, UnlockRegion;
    CurrentKnown(s);
    match op
    case Lock(m) =>
      if s.owner[m].None? {
        AcquireKeeps(s, m);
        Acquired(s, m);
      } else {
        BlockKeeps(s, m);
      }
    case TryLock(m) =>
      if s.owner[m].None? {
        AcquireKeeps(s, m);
      } else {
        SameState(s, m);
      }
    case Unlock => UnlockKeeps(s);
    case CondWait(l) =>
      CoreKnown(s);
      WaitKeeps(s, s.v, l);
    case CondWaitUntil(l, d) =>
      ArmKeeps(s, d);
      WaitKeeps(s, Arm(s.v, s.v.current, d), l);
    case OtherOp(k) => OtherKeeps(s, k);
    case _ => SignalKeeps(s, op);
  }

  lemma CoreKnown(s: State)
    requires Inv(s)
    ensures Core(s) && s.(v := s.v) == s
  {
  }

  lemma Acquired(s: State, m: Lid)
    requires Inv(s) && MayLock(s, m) && s.owner[m].None?
    ensures LockStep(s, m) == State(s.v, s.owner[m := Some(s.v.current)], s.pc[s.v.current := Hold(m)])
  {
  }

  lemma SameState(s: State, m: Lid)
    requires Inv(s) && m in s.owner && s.owner[m].Some?
    ensures State(s.v, s.owner[m := s.owner[m]], s.pc) == s
  {
    assert s.owner[m := s.owner[m]] == s.owner;
  }

  // ----- all runs

  // A run: operations that are not enabled when their turn comes do nothing.
  ghost function Run(s: State, ops: seq<Op>): State
    requires Inv(s)
    decreases |ops|
  {
    hide Inv, Enabled, Step;
    if ops == [] then s
    else if Enabled(s, ops[0]) then StepKeeps(s, ops[0]); Run(Step(s, ops[0]), ops[1..])
    else Run(s, ops[1..])
  }

  lemma {:induction false} RunKeeps(s: State, ops: seq<Op>)
    requires Inv(s)
    ensures Inv(Run(s, ops))
    decreases |ops|
  {
    hide Inv, Enabled, Step;
    if ops != [] {
      if Enabled(s, ops[0]) {
        StepKeeps(s, ops[0]);
        RunKeeps(Step(s, ops[0]), ops[1..]);
      } else {
        RunKeeps(s, ops[1..]);
      }
    }
  }

  // Nobody holds or waits for a mutex yet.
  ghost predicate Initial(s: State) {
    && Scheduling(s.v)
    && (forall t :: t in s.v.home ==>
      t in s.pc && s.pc[t] == Free && t in s.v.prio && t in s.v.base && s.v.prio[t] == s.v.base[t])
    && (forall m :: m in s.owner ==> s.owner[m] == None && m in s.v.lists && m != RUNNING)
    && (forall t :: t in s.v.home && s.v.home[t].Some? ==> s.v.home[t].value !in s.owner)
  }

  lemma InitialInv(s: State)
    requires Initial(s)
    ensures Inv(s)
  {
    hide Wf;
  }

  // After any run: a mutex has at most the one holder that its owner field names; the
  // holder has exactly the highest of its base priority and its waiters' priorities; and
  // while it can run, the processor is never given to a task of lower priority than
  // a waiter.
  lemma NoPriorityInversion(s: State, ops: seq<Op>, m: Lid, o: Tid)
    requires Initial(s) && m in s.owner
    ensures var r := (InitialInv(s); Run(s, ops));
      m in r.owner && r.owner[m] == Some(o) ==>
        && o in r.v.home && r.v.current in r.v.prio && o in r.v.prio && o in r.v.base
        && (forall t :: t in r.v.home && t in r.pc && r.pc[t] == Hold(m) ==> t == o)
        && (forall w :: Waits(r, w, m) ==> w in r.v.prio && r.v.prio[w] <= r.v.prio[o])
        && r.v.base[o] <= r.v.prio[o]
        && (r.v.prio[o] == r.v.base[o] || exists w :: Waits(r, w, m) && w in r.v.prio && r.v.prio[w] == r.v.prio[o])
        && (r.v.home[o] == Some(RUNNING) ==> forall w :: Waits(r, w, m) ==> r.v.prio[w] <= r.v.prio[r.v.current])
  {
    hide Wf, Initial;
    InitialInv(s);
    RunKeeps(s, ops);
    var r := Run(s, ops);
    if m in r.owner && r.owner[m] == Some(o) {
      CurrentKnown(r);
      ListKnown(r, m);
      assert MutexOk(r, m);
      forall t | t in r.v.home && t in r.pc && r.pc[t] == Hold(m) ensures t == o {
        assert TaskOk(r, t);
      }
    }
  }

  // After any run: a mutex that is free although somebody waits for it has a ready
  // contender that outranks every waiter, so the wakeup is not lost.
  lemma NoLostUnlock(s: State, ops: seq<Op>, m: Lid, w: Tid)
    requires Initial(s) && m in s.owner
    ensures var r := (InitialInv(s); Run(s, ops));
      m in r.owner && r.owner[m] == None && Waits(r, w, m) ==> exists c :: Contender(r, c, m)
  {
    hide Wf, Initial;
    InitialInv(s);
    RunKeeps(s, ops);
    var r := Run(s, ops);
    if m in r.owner && r.owner[m] == None && Waits(r, w, m) {
      assert MutexOk(r, m);
    }
  }

  // After any run: a task that holds no mutex runs at its base priority.
  lemma BoostEnds(s: State, ops: seq<Op>, t: Tid)
    requires Initial(s)
    ensures var r := (InitialInv(s); Run(s, ops));
      t in r.v.home ==> t in r.pc && t in r.v.prio && t in r.v.base && (!r.pc[t].Hold? ==> r.v.prio[t] == r.v.base[t])
  {
    hide Wf, Initial;
    InitialInv(s);
    RunKeeps(s, ops);
    var r := Run(s, ops);
    assert t in r.v.home ==> TaskOk(r, t);
  }

  // Why a task is taken to hold one mutex at a time.  Current holds mutex l and another one,
  // and unlocks l: it drops to its base priority and keeps the other one, whose waiters it
  // goes on outranking exactly if they do not exceed its base priority.
  lemma NestedUnlock(v: View, owner: map<Lid, Option<Tid>>, l: Lid, other: Lid, w: Tid)
    requires Wf(v) && l in v.lists && l != RUNNING && other != l && other != RUNNING
    requires l in owner && owner[l] == Some(v.current) && other in owner && owner[other] == Some(v.current)
    requires v.current in v.home && v.home[v.current] == Some(RUNNING) && v.current in v.base
    requires w in v.home && v.home[w] == Some(other) && w in v.prio
    ensures var r := UnlockRegion(v, l, true);
      && owner[l := r.owner][l] == None && owner[l := r.owner][other] == Some(v.current)
      && w in r.v.home && r.v.home[w] == Some(other) && w in r.v.prio && v.current in r.v.prio
      && (r.v.prio[w] <= r.v.prio[v.current] <==> v.prio[w] <= v.base[v.current])
  {
    hide Wf;
    var h := UnlockEffect(v, l, true);
  }

  // ----- what each operation does

  function Higher(a: nat, b: nat): nat {
    if a < b then b else a
  }

  // Current waits for mutex m behind its equals, another task runs, and owner o has got
  // current's priority if its own was lower; it is then behind its new equals.
  ghost predicate Inherits(v: View, r: View, m: Lid, o: Tid) {
    && v.current in v.prio && o in v.prio && o in v.home
    && r.home == v.home[v.current := Some(m)] && r.base == v.base && SameTimes(v, r)
    && r.prio == v.prio[o := Higher(v.prio[o], v.prio[v.current])]
    && Behind(r, v.current, m) && Scheduling(r) && r.current != v.current
    && (if v.prio[o] < v.prio[v.current] then
          RestInOrder(v, r, {v.current, o}) && (v.home[o].Some? ==> Behind(r, o, v.home[o].value))
        else RestInOrder(v, r, {v.current}))
  }

  // A lock takes a mutex that nobody holds; otherwise current waits for it, and the owner
  // inherits its priority.
  lemma LockGives(s: State, m: Lid)
    requires Inv(s) && Enabled(s, Lock(m))
    ensures var r, c := Step(s, Lock(m)), s.v.current;
      match s.owner[m]
      case None => r == s.(owner := s.owner[m := Some(c)], pc := s.pc[c := Hold(m)])
      case Some(o) => Inherits(s.v, r.v, m, o) && r == s.(v := r.v, pc := s.pc[c := Contend(m)])
  {
    hide Wf, Scheduling, LockRegion, TaskOk, MutexOk, Inherits;
    CurrentKnown(s);
    match s.owner[m]
    case None => Acquired(s, m);
    case Some(o) =>
      BlockKeeps(s, m);
      OwnerAway(s, m);
      BlockInherits(s.v, m, o);
      SameOwner(s, m);
  }

  lemma SameOwner(s: State, m: Lid)
    requires Inv(s) && Enabled(s, Lock(m)) && s.owner[m].Some?
    ensures Step(s, Lock(m)) == s.(v := Step(s, Lock(m)).v, pc := s.pc[s.v.current := Contend(m)])
    ensures s.v.current in s.v.home && s.owner[m].value in s.v.home && m in s.v.lists && Wf(s.v)
    ensures Step(s, Lock(m)).v == LockRegion(s.v, m, s.owner[m]).v
  {
    hide Wf, Scheduling, TaskOk, MutexOk, Move, SetPrio, Resched;
    CurrentKnown(s);
    assert s.owner[m := s.owner[m]] == s.owner;
  }

  lemma OwnerAway(s: State, m: Lid)
    requires Inv(s) && Enabled(s, Lock(m)) && s.owner[m].Some?
    ensures var o := s.owner[m].value;
      && o in s.v.home && o != s.v.current && s.v.home[o] != Some(m) && m in s.v.lists && m != RUNNING
      && s.v.current != IDLE && IDLE in s.v.home && s.v.home[IDLE] == Some(RUNNING)
  {
    hide Wf;
    CurrentKnown(s);
    ListKnown(s, m);
    assert TaskOk(s, s.owner[m].value);
  }

  lemma BlockInherits(v: View, m: Lid, o: Tid)
    requires Scheduling(v) && m in v.lists && m != RUNNING && v.current in v.home && o in v.home && o != v.current
    requires v.home[o] != Some(m) && v.current != IDLE
    ensures Wf(v) && Inherits(v, LockRegion(v, m, Some(o)).v, m, o)
  {
    hide Wf, Move, SetPrio, Resched, Settled, RestInOrder, Behind;
    RunsNow(v);
    FieldsKnown(v);
    BlockEffect(v, m, o);
    var c := v.current;
    var w := Move(v, c, m);
    var r := LockRegion(v, m, Some(o)).v;
    MoveRest(v, c, m);
    var x := if w.prio[o] < w.prio[c] then SetPrio(w, o, w.prio[c]) else w;
    assert r == Resched(x);
    ReschedRunnable(x);
    if w.prio[o] < w.prio[c] {
      SetPrioRest(w, o, w.prio[c]);
      RestTrans(v, w, x, {c}, {o});
      assert {c} + {o} == {c, o};
      NotListed(x, o, m);
      BehindKept(w, x, c, m, o);
    }
    SameRest(v, x, r, if w.prio[o] < w.prio[c] then {c, o} else {c}, c, m);
    if v.prio[o] < v.prio[c] && v.home[o].Some? {
      SameRest(v, x, r, {c, o}, o, v.home[o].value);
    }
    IdleRuns(r);
    Settles(x);
    RunsNow(r);
  }

  lemma NotListed(v: View, t: Tid, l: Lid)
    requires Wf(v) && l in v.lists && t in v.home && v.home[t] != Some(l)
    ensures t !in v.lists[l]
  {
  }

  lemma SameRest(v: View, x: View, r: View, movers: set<Tid>, t: Tid, l: Lid)
    requires RestInOrder(v, x, movers) && r.lists == x.lists && r.prio == x.prio
    ensures RestInOrder(v, r, movers) && (Behind(x, t, l) ==> Behind(r, t, l))
  {
    hide Ahead, ListKept;
    if Behind(x, t, l) {
      var s := r.lists[l];
      assert s == x.lists[l];
      forall y | y in s && y != t ensures y in r.prio && (Ahead(s, y, t) <==> r.prio[y] >= r.prio[t]) {
        assert y in x.prio && (Ahead(s, y, t) <==> x.prio[y] >= x.prio[t]);
      }
    }
  }

  // A try takes a mutex that nobody holds, and otherwise does nothing.
  lemma TryLockGives(s: State, m: Lid)
    requires Inv(s) && Enabled(s, TryLock(m))
    ensures var r, c := Step(s, TryLock(m)), s.v.current;
      r == if s.owner[m].None? then s.(owner := s.owner[m := Some(c)], pc := s.pc[c := Hold(m)]) else s
  {
    hide Wf, Scheduling, TaskOk, MutexOk;
    assert s.owner[m := s.owner[m]] == s.owner;
  }

  // The waiter of mutex m with the highest priority, and of several the one in front, if any.
  ghost predicate FirstWaiter(v: View, m: Lid, h: Tid) {
    && m in v.lists && v.lists[m] != [] && v.lists[m][0] == h && h in v.home && v.home[h] == Some(m) && h in v.prio
    && forall t :: t in v.home && v.home[t] == Some(m) ==> t in v.prio && v.prio[t] <= v.prio[h]
  }

  // Current is at its base priority, behind the running tasks of at least that, and waiter h
  // has been woken.
  ghost predicate HandsOn(v: View, r: View, h: Tid) {
    && v.current in v.base && v.current in v.prio && h in v.home
    && r.home == v.home[h := Some(RUNNING)] && r.base == v.base && SameTimes(v, r)
    && r.prio == v.prio[v.current := v.base[v.current]]
    && Behind(r, h, RUNNING) && Scheduling(r)
    && (if v.prio[v.current] == v.base[v.current] then RestInOrder(v, r, {h}) else RestInOrder(v, r, {v.current, h}))
  }

  // An unlock leaves the mutex without an owner.  If somebody waits for it, the first waiter is
  // woken, and current returns to its base priority; otherwise it has that already.
  lemma UnlockGives(s: State)
    requires Inv(s) && Enabled(s, Unlock)
    ensures var r, c := Step(s, Unlock), s.v.current;
      && r == s.(v := r.v, owner := r.owner, pc := s.pc[c := Free]) && r.owner == s.owner[s.pc[c].m := None]
      && (Nobody(s.v, s.pc[c].m) ==> r.v == s.v)
      && (!Nobody(s.v, s.pc[c].m) ==> exists h :: FirstWaiter(s.v, s.pc[c].m, h) && HandsOn(s.v, r.v, h))
  {
    hide Wf, Settled, UnlockRegion, TaskOk, MutexOk, HandsOn, FirstWaiter;
    var m := s.pc[s.v.current].m;
    CurrentKnown(s);
    ListKnown(s, m);
    EmptyList(s.v, m);
    UnlockKeeps(s);
    var h := UnlockEffect(s.v, m, true);
    if s.v.lists[m] == [] {
      AtBase(s, m);
    } else {
      FirstWaits(s, m);
      UnlockOrder(s.v, m, true);
      UnlockHands(s.v, m);
    }
  }

  lemma FirstWaits(s: State, m: Lid)
    requires Inv(s) && m in s.owner && m in s.v.lists && s.v.lists[m] != []
    ensures FirstWaiter(s.v, m, s.v.lists[m][0]) && s.v.lists[m][0] !in s.v.timeouts
  {
    hide Wf, Settled, MutexOk;
    SchedulingWf(s.v);
    HeadIsTop(s.v, m);
    assert TaskOk(s, s.v.lists[m][0]);
  }

  // What the unlock does to the order of the lists.
  lemma UnlockOrder(v: View, m: Lid, reschedule: bool)
    requires Wf(v) && m in v.lists && m != RUNNING && v.current in v.home && v.home[v.current] == Some(RUNNING)
    ensures v.current in v.prio && v.current in v.base
    ensures var c, u := v.current, UnlockRegion(v, m, reschedule).v;
      && u.deadline == v.deadline && u.timedOut == v.timedOut
      && (v.lists[m] == [] ==> u.timeouts == v.timeouts && RestInOrder(v, u, {c}))
      && (v.lists[m] != [] ==>
            var h := v.lists[m][0];
            && h in v.home && u.home == v.home[h := Some(RUNNING)] && u.timeouts == Drop(v.timeouts, h)
            && RestInOrder(v, u, if v.prio[c] == v.base[c] then {h} else {c, h}) && Behind(u, h, RUNNING))
  {
    hide Wf, SetPrio, Wake, Resched, RestInOrder, Behind, Drop;
    FieldsKnown(v);
    var c := v.current;
    var w := if v.prio[c] != v.base[c] then SetPrio(v, c, v.base[c]) else v;
    RestSame(v, v);
    if v.prio[c] != v.base[c] {
      SetPrioRest(v, c, v.base[c]);
      SetPrioOrder(v, c, v.base[c]);
      SameList(v, w, c, m);
    }
    if v.lists[m] == [] {
      Wider(v, w, {c});
    } else {
      var h := v.lists[m][0];
      HeadIsTop(w, m);
      var x := Wake(w, h);
      WakeRest(w, h);
      WakeOrder(w, h);
      ReschedRunnable(x);
      if v.prio[c] != v.base[c] {
        RestTrans(v, w, x, {c}, {h});
        assert {c} + {h} == {c, h};
      }
      SameRest(v, x, if reschedule then Resched(x) else x, if v.prio[c] == v.base[c] then {h} else {c, h}, h, RUNNING);
    }
  }

  lemma Wider(v: View, w: View, movers: set<Tid>)
    requires RestInOrder(v, w, {}) || RestInOrder(v, w, movers)
    ensures RestInOrder(v, w, movers)
  {
    hide Ahead;
  }

  // A list that task t is not on stays as it is.
  lemma SameList(v: View, w: View, t: Tid, l: Lid)
    requires Wf(v) && Wf(w) && OthersInOrder(v, w, t) && l in v.lists && t in v.home && v.home[t] != Some(l)
    requires t in w.home && w.home[t] != Some(l)
    ensures w.lists[l] == v.lists[l]
  {
    assert t !in v.lists[l] && t !in w.lists[l];
  }

  lemma UnlockHands(v: View, m: Lid)
    requires Scheduling(v) && m in v.lists && m != RUNNING && v.lists[m] != []
    requires v.current in v.home && v.home[v.current] == Some(RUNNING) && v.lists[m][0] !in v.timeouts
    requires Wf(v) && Scheduling(UnlockRegion(v, m, true).v)
    ensures HandsOn(v, UnlockRegion(v, m, true).v, v.lists[m][0])
  {
    hide Wf, Settled, UnlockRegion, RestInOrder, Behind;
    var h := UnlockEffect(v, m, true);
    UnlockOrder(v, m, true);
    DropNone(v.timeouts, v.lists[m][0]);
  }

  lemma DropNone(s: seq<Tid>, t: Tid)
    requires t !in s
    ensures Drop(s, t) == s
  {
  }

  // Current is at its base priority and waits on list l behind its equals; the first waiter of
  // mutex m, if there is one, has been woken.
  ghost predicate Leaves(v: View, r: View, m: Lid, l: Lid) {
    && v.current in v.base && v.current in v.prio
    && r.base == v.base && r.prio == v.prio[v.current := v.base[v.current]]
    && Behind(r, v.current, l) && Scheduling(r) && r.current != v.current
    && (Nobody(v, m) ==> r.home == v.home[v.current := Some(l)] && RestInOrder(v, r, {v.current}))
    && (!Nobody(v, m) ==> exists h :: FirstWaiter(v, m, h) && Passes(v, r, l, h))
  }

  ghost predicate Passes(v: View, r: View, l: Lid, h: Tid) {
    && h in v.home && r.home == v.home[h := Some(RUNNING)][v.current := Some(l)]
    && RestInOrder(v, r, {v.current, h}) && Behind(r, h, RUNNING)
  }

  // Waiting for a condition leaves the mutex without an owner, wakes its first waiter, and puts
  // current on the condition's list, in one step; with a deadline, that is armed too.
  lemma CondWaitGives(s: State, op: Op)
    requires Inv(s) && Enabled(s, op) && (op.CondWait? || op.CondWaitUntil?)
    ensures var r, c := Step(s, op), s.v.current;
      && r == s.(v := r.v, owner := r.owner, pc := s.pc[c := InCond(s.pc[c].m)])
      && r.owner == s.owner[s.pc[c].m := None] && Leaves(s.v, r.v, s.pc[c].m, op.c)
      && (if op.CondWait? then SameTimes(s.v, r.v) else Timed(s.v, r.v, c, op.d))
  {
    hide Wf, Scheduling, UnlockRegion, TaskOk, MutexOk, Leaves, Resched, Move, Arm, InTime;
    var c, l := s.v.current, op.c;
    CurrentKnown(s);
    HoldsKnown(s);
    StepKeeps(s, op);
    RunsNow(Step(s, op).v);
    var m := s.pc[c].m;
    if s.v.lists[m] != [] {
      FirstWaits(s, m);
    }
    if op.CondWait? {
      LeaveOrder(s.v, s.v, m, l);
      CondWaitIs(s, op, s.v);
    } else {
      var v := Arm(s.v, c, op.d);
      ArmOrder(s.v, c, op.d);
      LeaveOrder(s.v, v, m, l);
      CondWaitIs(s, op, v);
      SameInTime(s.v, v, Step(s, op).v, c, op.d);
    }
  }

  lemma CondWaitIs(s: State, op: Op, v: View)
    requires Inv(s) && Enabled(s, op) && (op.CondWait? || op.CondWaitUntil?)
    requires s.v.current in s.v.home && s.v.current !in s.v.timeouts && Wf(s.v)
    requires v == if op.CondWait? then s.v else Arm(s.v, s.v.current, op.d)
    requires Wf(v) && v.current in v.home && s.pc[s.v.current].m in v.lists
    ensures var u := UnlockRegion(v, s.pc[s.v.current].m, false).v;
      && v.current in u.home && op.c in u.lists && Wf(u)
      && Step(s, op) == State(Resched(Move(u, v.current, op.c)), s.owner[s.pc[s.v.current].m := None],
                              s.pc[s.v.current := InCond(s.pc[s.v.current].m)])
  {
    hide Wf, Scheduling, TaskOk, MutexOk, Resched, Move, Arm, UnlockRegion;
    CurrentKnown(s);
    HoldsKnown(s);
    var h := UnlockEffect(v, s.pc[s.v.current].m, false);
  }

  // What the whole region does to the lists; a is v, or v with a timeout armed.
  lemma LeaveOrder(v: View, a: View, m: Lid, l: Lid)
    requires Wf(v) && Wf(a) && a.lists == v.lists && a.home == v.home && a.prio == v.prio && a.base == v.base
    requires a.current == v.current && m in v.lists && m != RUNNING && l in v.lists && l != RUNNING && l != m
    requires v.current in v.home && v.home[v.current] == Some(RUNNING)
    requires v.lists[m] != [] ==> FirstWaiter(v, m, v.lists[m][0]) && v.lists[m][0] !in a.timeouts
    ensures var u := UnlockRegion(a, m, false).v;
      && v.current in u.home && l in u.lists && Wf(u)
      && var r := Resched(Move(u, v.current, l));
         && SameTimes(a, r) && r.home.Keys == v.home.Keys && r.home[v.current] == Some(l)
         && (Scheduling(r) && r.current != v.current ==> Leaves(v, r, m, l))
  {
    hide Wf, Scheduling, UnlockRegion, Resched, Move, RestInOrder, Behind, Drop, FirstWaiter;
    var c := v.current;
    var e := UnlockEffect(a, m, false);
    UnlockOrder(a, m, false);
    var u := UnlockRegion(a, m, false).v;
    var w := Move(u, c, l);
    MoveRest(u, c, l);
    ReschedRunnable(w);
    SameRest(u, w, Resched(w), {c}, c, l);
    NobodyIs(v, m);
    if v.lists[m] == [] {
      LeaveRest(v, a, u, Resched(w), {c}, {c});
    } else {
      var h := v.lists[m][0];
      FirstIs(v, m, h);
      DropNone(a.timeouts, h);
      LeaveRest(v, a, u, Resched(w), if v.prio[c] == v.base[c] then {h} else {c, h}, {c, h});
      RunningListed(w);
      NotListed(w, c, RUNNING);
      BehindKept(u, w, h, RUNNING, c);
      SameRest(u, w, Resched(w), {c}, h, RUNNING);
    }
  }

  lemma FirstIs(v: View, m: Lid, h: Tid)
    requires FirstWaiter(v, m, h)
    ensures h in v.home && v.home[h] == Some(m)
  {
  }

  lemma NobodyIs(v: View, l: Lid)
    requires Wf(v) && l in v.lists
    ensures Nobody(v, l) <==> v.lists[l] == []
  {
    EmptyList(v, l);
  }

  lemma LeaveRest(v: View, a: View, u: View, r: View, movers: set<Tid>, all: set<Tid>)
    requires a.lists == v.lists && RestInOrder(a, u, movers) && RestInOrder(u, r, {v.current})
    requires movers + {v.current} == all
    ensures RestInOrder(v, r, all)
  {
    hide RestInOrder;
    RestTrans(a, u, r, movers, {v.current});
    RestFrom(v, a, r, all);
  }

  lemma RestFrom(v: View, a: View, r: View, all: set<Tid>)
    requires a.lists == v.lists && RestInOrder(a, r, all)
    ensures RestInOrder(v, r, all)
  {
    hide ListKept;
  }

  // A signal wakes the waiter of highest priority, or all waiters, if anybody waits; the
  // mutexes are not concerned.
  lemma SignalGives(s: State, op: Op)
    requires Inv(s) && Enabled(s, op) && (op.SignalOne? || op.SignalAll?)
    ensures var r := Step(s, op);
      && r == s.(v := r.v)
      && (Nobody(s.v, op.c) ==> r == s)
      && (!Nobody(s.v, op.c) && op.SignalOne? ==> WakesFirst(s.v, r.v, op.c))
      && (!Nobody(s.v, op.c) && op.SignalAll? ==> WakesAll(s.v, r.v, op.c) && Mixed(s.v, r.v, op.c))
  {
    hide Wf, Scheduling, TaskOk, MutexOk, Wake, WakeAll, Resched, WakesFirst, WakesAll, Mixed, Nobody;
    CurrentKnown(s);
    NobodyIs(s.v, op.c);
    if s.v.lists[op.c] != [] {
      if op.SignalOne? {
        FirstWakes(s.v, op.c);
      } else {
        AllWake(s.v, op.c);
      }
    }
  }

  // ----- a run in which that matters

  const OUTER: Lid := 1
  const INNER: Lid := 2
  const LOW: Tid := 1
  const MIDDLE: Tid := 2
  const HIGH: Tid := 3

  // The kernel with two mutexes and a task of priority 1, which is current.
  function OneTask(): View {
    hide Wf, Boot, NewList, Create, StartUp;
    NewListIs(Boot(), OUTER);
    NewListIs(NewList(Boot(), OUTER), INNER);
    StartUp(Create(NewList(NewList(Boot(), OUTER), INNER), LOW, 1, 0, false, false))
  }

  lemma OneTaskIs()
    ensures var v := OneTask();
      && Scheduling(v) && v.lists.Keys == {RUNNING, OUTER, INNER} && v.timeouts == [] && v.current == LOW
      && v.home == map[IDLE := Some(RUNNING), LOW := Some(RUNNING)]
      && v.prio == map[IDLE := 0, LOW := 1] && v.base == map[IDLE := 0, LOW := 1]
  {
    hide Wf, Boot, NewList, Create, StartUp, Settled, Runnable;
    NewListIs(Boot(), OUTER);
    NewListIs(NewList(Boot(), OUTER), INNER);
    IdleRuns(OneTask());
    TopIsCurrent(OneTask(), LOW);
  }

  // A task of priority 2 and one of priority 3 are created.
  function ThreeTasks(): View {
    hide Wf, Scheduling, OneTask, Create;
    OneTaskIs();
    SchedulingWf(OneTask());
    Create(Create(OneTask(), MIDDLE, 2, 0, false, true), HIGH, 3, 0, false, true)
  }

  lemma ThreeTasksIs()
    ensures var v := ThreeTasks();
      && Scheduling(v) && v.lists.Keys == {RUNNING, OUTER, INNER} && v.timeouts == [] && v.current == HIGH
      && v.home == map[IDLE := Some(RUNNING), LOW := Some(RUNNING), MIDDLE := Some(RUNNING), HIGH := Some(RUNNING)]
      && v.prio == map[IDLE := 0, LOW := 1, MIDDLE := 2, HIGH := 3]
      && v.base == map[IDLE := 0, LOW := 1, MIDDLE := 2, HIGH := 3]
  {
    hide Wf, OneTask, Create, Settled, Runnable;
    OneTaskIs();
    SchedulingWf(OneTask());
    IdleRuns(ThreeTasks());
    TopIsCurrent(ThreeTasks(), HIGH);
  }

  // The task of high priority waits for the outer mutex, and its owner inherits the priority
  // and is current again.
  lemma OwnerBoosted()
    ensures var v := ThreeTasks();
      && Wf(v) && OUTER in v.lists && v.current == HIGH && HIGH in v.home && LOW in v.home
      && var r := LockRegion(v, OUTER, Some(LOW));
         && r.owner == Some(LOW) && Wf(r.v) && r.v.current == LOW && r.v.lists.Keys == {RUNNING, OUTER, INNER}
         && r.v.home == ThreeTasks().home[HIGH := Some(OUTER)]
         && r.v.prio == ThreeTasks().prio[LOW := 3] && r.v.base == ThreeTasks().base
  {
    hide Wf, ThreeTasks, Settled, LockRegion, Runnable;
    ThreeTasksIs();
    SchedulingWf(ThreeTasks());
    BlockEffect(ThreeTasks(), OUTER, LOW);
    var r := LockRegion(ThreeTasks(), OUTER, Some(LOW)).v;
    IdleRuns(r);
    TopIsCurrent(r, LOW);
  }

  // The owner of both mutexes unlocks the inner one and then yields.
  lemma InnerUnlocked(v: View)
    requires Wf(v) && INNER in v.lists && v.current == LOW
    requires v.home == map[IDLE := Some(RUNNING), LOW := Some(RUNNING), MIDDLE := Some(RUNNING), HIGH := Some(OUTER)]
    requires v.prio == map[IDLE := 0, LOW := 3, MIDDLE := 2, HIGH := 3]
    requires v.base == map[IDLE := 0, LOW := 1, MIDDLE := 2, HIGH := 3]
    ensures var u := UnlockRegion(v, INNER, true).v;
      && Wf(u) && u.current == LOW && LOW in u.home && LOW in u.prio && u.prio[LOW] == 1
      && Inverted(Yield(u))
  {
    hide Wf, UnlockRegion, Inverted, Yield;
    UnlockAlone(v, INNER);
    YieldsTo(UnlockRegion(v, INNER, true).v);
  }

  // Both mutexes are free for the first task.
  lemma BothLocked()
    ensures var v := OneTask();
      && Wf(v) && OUTER in v.lists && INNER in v.lists && v.current in v.home
      && LockRegion(v, OUTER, None) == Region(v, Some(LOW)) == LockRegion(v, INNER, None)
  {
    hide Wf, OneTask, Settled, LockRegion, Runnable;
    OneTaskIs();
    LockFree(OneTask(), OUTER);
    LockFree(OneTask(), INNER);
  }

  // The task of low priority locks both mutexes.  The other two tasks come, and the one of
  // high priority waits for the outer mutex, so that its owner inherits the priority and is
  // current again.  It unlocks the inner mutex and is at its base priority, behind the task
  // of middle priority; when it yields, that one is current, although one of high priority
  // waits for a mutex whose owner is ready.
  lemma NestedInversion()
    ensures var v := OneTask();
      && Wf(v) && OUTER in v.lists && INNER in v.lists && v.current in v.home
      && LockRegion(v, OUTER, None) == Region(v, Some(LOW)) == LockRegion(v, INNER, None)
    ensures var v := ThreeTasks();
      && Wf(v) && OUTER in v.lists && v.current == HIGH && HIGH in v.home && LOW in v.home
      && var r := LockRegion(v, OUTER, Some(LOW));
         && r.owner == Some(LOW) && r.v.current == LOW && LOW in r.v.home && INNER in r.v.lists
         && HIGH in r.v.home && r.v.home[HIGH] == Some(OUTER) && LOW in r.v.prio && r.v.prio[LOW] == 3
         && var u := UnlockRegion(r.v, INNER, true).v;
            && Wf(u) && u.current == LOW && LOW in u.home && LOW in u.prio && u.prio[LOW] == 1
            && Inverted(Yield(u))
  {
    hide Wf, OneTask, ThreeTasks, Scheduling, UnlockRegion, LockRegion, Inverted, Yield;
    BothLocked();
    ThreeTasksIs();
    OwnerBoosted();
    InnerUnlocked(LockRegion(ThreeTasks(), OUTER, Some(LOW)).v);
  }

  // The task of middle priority is current, one of high priority waits for the outer mutex,
  // and the owner of that, of low priority, is ready.
  ghost predicate Inverted(v: View) {
    && v.current == MIDDLE && MIDDLE in v.prio && HIGH in v.prio && v.prio[MIDDLE] < v.prio[HIGH]
    && HIGH in v.home && v.home[HIGH] == Some(OUTER) && LOW in v.home && v.home[LOW] == Some(RUNNING)
  }

  // An unlock that nobody waits for leaves current where it is.
  lemma UnlockAlone(v: View, l: Lid)
    requires Wf(v) && l in v.lists && l != RUNNING && v.current in v.home && v.home[v.current] == Some(RUNNING)
    requires forall t :: t in v.home ==> v.home[t] != Some(l)
    ensures var r := UnlockRegion(v, l, true).v;
      Wf(r) && r.current == v.current && r.home == v.home && v.current in v.base
        && r.prio == v.prio[v.current := v.base[v.current]]
  {
    hide Wf, SetPrio, Wake, Resched;
    FieldsKnown(v);
    var c := v.current;
    var w := if v.prio[c] != v.base[c] then SetPrio(v, c, v.base[c]) else v;
    EmptyList(w, l);
  }

  // The boosted owner of the outer mutex is given its old base priority: the task of middle
  // priority takes over, although one of high priority waits for the mutex.
  lemma SetInversion()
    ensures var v := ThreeTasks();
      && Wf(v) && OUTER in v.lists && v.current == HIGH && HIGH in v.home && LOW in v.home
      && var r := LockRegion(v, OUTER, Some(LOW)).v;
         && r.current == LOW && LOW in r.home && LOW in r.prio && r.prio[LOW] == 3
         && LOW in r.base && r.base[LOW] == 1 && Inverted(TaskSetPriority(r, LOW, 1))
  {
    hide Wf, ThreeTasks, Scheduling, LockRegion, Inverted, TaskSetPriority;
    ThreeTasksIs();
    OwnerBoosted();
    SetsBack(LockRegion(ThreeTasks(), OUTER, Some(LOW)).v);
  }

  lemma SetsBack(v: View)
    requires Wf(v) && v.current == LOW
    requires v.home == map[IDLE := Some(RUNNING), LOW := Some(RUNNING), MIDDLE := Some(RUNNING), HIGH := Some(OUTER)]
    requires v.prio == map[IDLE := 0, LOW := 3, MIDDLE := 2, HIGH := 3]
    ensures Inverted(TaskSetPriority(v, LOW, 1))
  {
    hide Wf, SetPrio;
    RunningListed(v);
    BaseWf(v, LOW, 1);
    var w := SetPrio(v.(base := v.base[LOW := 1]), LOW, 1);
    TopIsFirst(w, RUNNING, MIDDLE);
    ReschedRunnable(w);
  }

  lemma YieldsTo(v: View)
    requires Wf(v) && v.current == LOW
    requires v.home == map[IDLE := Some(RUNNING), LOW := Some(RUNNING), MIDDLE := Some(RUNNING), HIGH := Some(OUTER)]
    requires v.prio == map[IDLE := 0, LOW := 1, MIDDLE := 2, HIGH := 3]
    ensures Inverted(Yield(v))
  {
    hide Wf, Move;
    RunningListed(v);
    var w := Move(v, LOW, RUNNING);
    TopIsFirst(w, RUNNING, MIDDLE);
    ReschedRunnable(w);
  }

  lemma LockFree(v: View, l: Lid)
    requires Scheduling(v) && l in v.lists
    ensures Wf(v) && v.current in v.home && LockRegion(v, l, None) == Region(v, Some(v.current))
  {
    HeadIsTop(v, RUNNING);
  }
}
