// What a region does to the scheduler, said of the states before and after it: who is on
// which list, in which order, with which deadline, and who runs.  The laws of the
// synchronization objects are stated with these predicates.

module Effects {
  import opened Seqs
  import opened Sched
  import opened Order

  // Task t has gone to list l, behind its equals; nobody else has moved, and priorities are
  // what they were.
  ghost predicate Goes(v: View, r: View, t: Tid, l: Lid) {
    && t in v.home && r.home == v.home[t := Some(l)] && r.prio == v.prio && r.base == v.base
    && OthersInOrder(v, r, t) && BehindEquals(r, t, l)
  }

  // A timeout of task t is pending at d, behind those that are not later; the others are
  // what they were.
  ghost predicate Timed(v: View, r: View, t: Tid, d: int) {
    && t in r.timeouts && r.deadline == v.deadline[t := d] && r.timedOut == v.timedOut[t := false]
    && InTime(v, r, t, d)
  }

  // Current waits on list l, and another task runs.
  ghost predicate Blocks(v: View, r: View, l: Lid) {
    && Goes(v, r, v.current, l) && SameTimes(v, r)
    && Scheduling(r) && r.current != v.current
  }

  // The same until deadline d.
  ghost predicate BlocksUntil(v: View, r: View, l: Lid, d: int) {
    && Goes(v, r, v.current, l) && Timed(v, r, v.current, d)
    && Scheduling(r) && r.current != v.current
  }

  // Current is on no list until deadline d, and another task runs.
  ghost predicate Sleeps(v: View, r: View, d: int) {
    && r.home == v.home[v.current := None] && r.prio == v.prio && r.base == v.base
    && OthersInOrder(v, r, v.current) && Timed(v, r, v.current, d)
    && Scheduling(r) && r.current != v.current
  }

  // Task t has been woken: it runs, and no timeout of it is pending.
  ghost predicate Wakes(v: View, r: View, t: Tid) {
    && Goes(v, r, t, RUNNING) && r.timeouts == Drop(v.timeouts, t)
    && r.deadline == v.deadline && r.timedOut == v.timedOut && Scheduling(r)
  }

  // The task woken is the one that waits on list l with the highest priority, and of
  // several the one in front.
  ghost predicate WakesFirst(v: View, r: View, l: Lid) {
    && l in v.lists && v.lists[l] != [] && Wakes(v, r, v.lists[l][0])
    && v.lists[l][0] in v.home && v.home[v.lists[l][0]] == Some(l) && v.lists[l][0] in v.prio
    && (forall t :: t in v.home && v.home[t] == Some(l) ==> t in v.prio && v.prio[t] <= v.prio[v.lists[l][0]])
  }

  // Nobody waits on list l.
  ghost predicate Nobody(v: View, l: Lid) {
    forall t :: t in v.home ==> v.home[t] != Some(l)
  }

  // Everybody on list l has been woken, and nobody else has moved.
  ghost predicate WakesAll(v: View, r: View, l: Lid) {
    && r.home.Keys == v.home.Keys && r.lists.Keys == v.lists.Keys
    && (forall t :: t in v.home ==> r.home[t] == if v.home[t] == Some(l) then Some(RUNNING) else v.home[t])
    && (forall t :: t in r.timeouts <==> t in v.timeouts && t in v.home && v.home[t] != Some(l))
    && r.prio == v.prio && r.base == v.base && r.deadline == v.deadline && r.timedOut == v.timedOut
    && Scheduling(r)
  }

  // Tasks that ran before keep their order in s.
  ghost predicate RunnersKept(v: View, s: seq<Tid>) {
    && RUNNING in v.lists
    && forall a, b {:trigger Ahead(s, a, b)} :: a in v.lists[RUNNING] && b in v.lists[RUNNING] ==>
         (Ahead(s, a, b) <==> Ahead(v.lists[RUNNING], a, b))
  }

  // The tasks that were on list l are behind those of at least their priority.
  ghost predicate WaitersBehind(v: View, s: seq<Tid>, l: Lid) {
    && RUNNING in v.lists && l in v.lists
    && forall a, b {:trigger Ahead(s, a, b)} :: a in v.lists[RUNNING] && b in v.lists[l] ==>
         a in v.prio && b in v.prio && (Ahead(s, a, b) <==> v.prio[a] >= v.prio[b])
  }

  // Of these, those of higher priority come first, and of equals the one that was behind.
  ghost predicate WaitersTurned(v: View, s: seq<Tid>, l: Lid) {
    l in v.lists && forall i, j :: 0 <= i < j < |v.lists[l]| ==> Turned(v, s, v.lists[l][i], v.lists[l][j])
  }

  // Of two tasks, a that was in front is in front in s exactly if its priority is higher.
  ghost predicate Turned(v: View, s: seq<Tid>, a: Tid, b: Tid) {
    a in v.prio && b in v.prio && (Ahead(s, a, b) <==> v.prio[a] > v.prio[b])
  }

  ghost predicate Mixed(v: View, r: View, l: Lid) {
    && RUNNING in r.lists && RunnersKept(v, r.lists[RUNNING])
    && WaitersBehind(v, r.lists[RUNNING], l) && WaitersTurned(v, r.lists[RUNNING], l)
  }

  lemma Away(v: View, w: View, l: Lid)
    requires Scheduling(v) && Wf(w) && l != RUNNING && v.current != IDLE && v.current in v.home
    requires w.home == v.home[v.current := Some(l)]
    requires forall t :: t in w.timeouts ==> t in v.timeouts || t == v.current
    ensures Scheduling(Resched(w)) && Resched(w).current != v.current && Resched(w) == w.(current := Resched(w).current)
  {
    hide Wf, Resched, Settled;
    RunsFirst(v);
    Settles(w);
    ReschedRunnable(w);
    RunsFirst(Resched(w));
  }

  lemma RunsFirst(v: View)
    requires Scheduling(v)
    ensures Wf(v) && RUNNING in v.lists
    ensures v.current in v.home && v.home[v.current] == Some(RUNNING) && v.current !in v.timeouts
  {
    HeadIsTop(v, RUNNING);
  }

  lemma SameOrder(v: View, w: View, r: View, t: Tid, l: Lid)
    requires OthersInOrder(v, w, t) && BehindEquals(w, t, l) && r.lists == w.lists && r.prio == w.prio
    ensures OthersInOrder(v, r, t) && BehindEquals(r, t, l)
  {
  }

  lemma MoveBlocks(v: View, l: Lid)
    requires Scheduling(v) && l in v.lists && l != RUNNING && v.current != IDLE
    ensures Wf(v) && v.current in v.home && Blocks(v, Resched(Move(v, v.current, l)), l)
  {
    hide Wf, Move, Resched, Scheduling, OthersInOrder, BehindEquals;
    RunsFirst(v);
    var w := Move(v, v.current, l);
    MoveOrder(v, v.current, l);
    Away(v, w, l);
    SameOrder(v, w, Resched(w), v.current, l);
  }

  lemma ArmBlocks(v: View, l: Lid, d: int)
    requires Scheduling(v) && l in v.lists && l != RUNNING && v.current != IDLE
    ensures Wf(v) && v.current in v.home && v.current !in v.timeouts
    ensures BlocksUntil(v, Resched(Move(Arm(v, v.current, d), v.current, l)), l, d)
  {
    hide Wf, Arm, Move, Resched, Scheduling, OthersInOrder, BehindEquals, InTime;
    RunsFirst(v);
    var a := Arm(v, v.current, d);
    var w := Move(a, v.current, l);
    ArmOrder(v, v.current, d);
    MoveOrder(a, v.current, l);
    SameBefore(v, a, w, v.current);
    Away(v, w, l);
    SameOrder(v, w, Resched(w), v.current, l);
    SameInTime(v, a, Resched(w), v.current, d);
  }

  // gyros_sleep_until
  lemma ArmSleeps(v: View, d: int)
    requires Scheduling(v) && v.current != IDLE
    ensures Wf(v) && v.current in v.home && v.current !in v.timeouts
    ensures Sleeps(v, Resched(Detach(Arm(v, v.current, d), v.current)), d)
  {
    hide Wf, Arm, Detach, Resched, Settled, OthersInOrder, InTime;
    RunsFirst(v);
    var a := Arm(v, v.current, d);
    var w := Detach(a, v.current);
    ArmOrder(v, v.current, d);
    DetachOrder(a, v.current);
    SameBefore(v, a, w, v.current);
    Settles(w);
    ReschedRunnable(w);
    RunsFirst(Resched(w));
    SameLists(v, w, Resched(w), v.current);
    SameInTime(v, a, Resched(w), v.current, d);
  }

  lemma SameLists(v: View, w: View, r: View, t: Tid)
    requires OthersInOrder(v, w, t) && r.lists == w.lists
    ensures OthersInOrder(v, r, t)
  {
  }

  // gyros_yield
  lemma YieldEffect(v: View)
    requires Scheduling(v)
    ensures Wf(v) && v.current in v.home
    ensures var r := Yield(v); Goes(v, r, v.current, RUNNING) && SameTimes(v, r) && Scheduling(r)
  {
    hide Wf, Move, Resched, Settled, OthersInOrder, BehindEquals;
    RunsFirst(v);
    var w := Move(v, v.current, RUNNING);
    MoveOrder(v, v.current, RUNNING);
    Settles(w);
    ReschedRunnable(w);
    SameOrder(v, w, Resched(w), v.current, RUNNING);
  }

  lemma SameBefore(v: View, a: View, w: View, t: Tid)
    requires OthersInOrder(a, w, t) && a.lists == v.lists
    ensures OthersInOrder(v, w, t)
  {
  }

  lemma SameInTime(v: View, a: View, r: View, t: Tid, d: int)
    requires InTime(v, a, t, d) && r.timeouts == a.timeouts && r.deadline == a.deadline
    ensures InTime(v, r, t, d)
  {
  }

  lemma WakeWakes(v: View, t: Tid)
    requires Scheduling(v) && t in v.home
    ensures Wf(v) && Wakes(v, Resched(Wake(v, t)), t)
  {
    hide Wf, Wake, Resched, Settled, OthersInOrder, BehindEquals;
    RunsFirst(v);
    var w := Wake(v, t);
    WakeOrder(v, t);
    Settles(w);
    ReschedRunnable(w);
    SameOrder(v, w, Resched(w), t, RUNNING);
  }

  lemma FirstWakes(v: View, l: Lid)
    requires Scheduling(v) && l in v.lists && v.lists[l] != []
    ensures Wf(v) && v.lists[l][0] in v.home && WakesFirst(v, Resched(Wake(v, v.lists[l][0])), l)
  {
    hide Wf, Wake, Resched, Scheduling, Wakes;
    SchedulingWf(v);
    HeadIsTop(v, l);
    WakeWakes(v, v.lists[l][0]);
  }

  lemma AllWake(v: View, l: Lid)
    requires Scheduling(v) && l in v.lists && l != RUNNING
    ensures Wf(v) && WakesAll(v, Resched(WakeAll(v, l)), l) && Mixed(v, Resched(WakeAll(v, l)), l)
  {
    hide Wf, WakeAll, Resched, Scheduling, WakesAll, RunnersKept, WaitersBehind, WaitersTurned;
    AllRun(v, l);
    RunningListed(v);
    RunningListed(WakeAll(v, l));
    ReschedRunnable(WakeAll(v, l));
    KeptAll(v, l);
    BehindAll(v, l);
    TurnedAll(v, l);
  }

  lemma AllRun(v: View, l: Lid)
    requires Scheduling(v) && l in v.lists && l != RUNNING
    ensures Wf(v) && WakesAll(v, Resched(WakeAll(v, l)), l)
  {
    hide Wf, WakeAll, Resched, Settled;
    RunsFirst(v);
    WakeAllEffect(v, l);
    TimeoutsKnown(v);
    Settles(WakeAll(v, l));
    ReschedRunnable(WakeAll(v, l));
  }

  lemma KeptAll(v: View, l: Lid)
    requires Wf(v) && l in v.lists && l != RUNNING && RUNNING in WakeAll(v, l).lists
    ensures RunnersKept(v, WakeAll(v, l).lists[RUNNING])
  {
    hide Wf, WakeAll, Ahead;
    RunningListed(v);
    var s := WakeAll(v, l).lists[RUNNING];
    forall a, b | a in v.lists[RUNNING] && b in v.lists[RUNNING]
      ensures Ahead(s, a, b) <==> Ahead(v.lists[RUNNING], a, b) {
      RunningKept(v, l, a, b);
    }
  }

  lemma BehindAll(v: View, l: Lid)
    requires Wf(v) && l in v.lists && l != RUNNING && RUNNING in WakeAll(v, l).lists
    ensures WaitersBehind(v, WakeAll(v, l).lists[RUNNING], l)
  {
    hide Wf, WakeAll, Ahead;
    RunningListed(v);
    var s := WakeAll(v, l).lists[RUNNING];
    forall a, b | a in v.lists[RUNNING] && b in v.lists[l]
      ensures a in v.prio && b in v.prio && (Ahead(s, a, b) <==> v.prio[a] >= v.prio[b]) {
      WaiterBehind(v, l, b, a);
    }
  }

  lemma TurnedAll(v: View, l: Lid)
    requires Wf(v) && l in v.lists && l != RUNNING && RUNNING in WakeAll(v, l).lists
    ensures WaitersTurned(v, WakeAll(v, l).lists[RUNNING], l)
  {
    hide Wf, WakeAll, Ahead;
    var s := WakeAll(v, l).lists[RUNNING];
    forall i, j | 0 <= i < j < |v.lists[l]| ensures Turned(v, s, v.lists[l][i], v.lists[l][j]) {
      WakeAllOrder(v, l, i, j);
    }
  }

  // ----- regions in which two tasks move

  // All tasks but the movers are on the lists where they were, in the same order.
  ghost predicate RestInOrder(v: View, r: View, movers: set<Tid>) {
    && r.lists.Keys == v.lists.Keys
    && (forall k :: k in v.lists ==> ListKept(v.lists[k], r.lists[k], movers))
  }

  ghost predicate ListKept(s: seq<Tid>, r: seq<Tid>, movers: set<Tid>) {
    && (forall a {:trigger a in r} {:trigger a in s} :: a !in movers ==> (a in r <==> a in s))
    && (forall a, b {:trigger Ahead(r, a, b)} {:trigger Ahead(s, a, b)} ::
          a in s && b in s && a !in movers && b !in movers ==> (Ahead(r, a, b) <==> Ahead(s, a, b)))
  }

  // Task t is on list l, behind exactly those of at least its priority.
  ghost predicate Behind(v: View, t: Tid, l: Lid) {
    && l in v.lists && t in v.lists[l] && t in v.prio
    && forall x {:trigger Ahead(v.lists[l], x, t)} :: x in v.lists[l] && x != t ==>
         x in v.prio && (Ahead(v.lists[l], x, t) <==> v.prio[x] >= v.prio[t])
  }

  lemma DropAhead(s: seq<Tid>, t: Tid, a: Tid, b: Tid)
    requires Distinct(s) && a != t && b != t && a in s && b in s
    ensures a in Drop(s, t) && b in Drop(s, t) && (Ahead(Drop(s, t), a, b) <==> Ahead(s, a, b))
  {
    hide IndexOf, InsertAt, Drop, Distinct;
    DropMembers(s, t);
    if t in s {
      BackAgain(s, t);
      IndexShift(Drop(s, t), IndexOf(s, t), t, a);
      IndexShift(Drop(s, t), IndexOf(s, t), t, b);
    } else {
      NotThere(s, t);
    }
  }

  lemma BackAgain(s: seq<Tid>, t: Tid)
    requires t in s
    ensures IndexOf(s, t) <= |Drop(s, t)| && InsertAt(Drop(s, t), IndexOf(s, t), t) == s
  {
    var k := IndexOf(s, t);
    hide IndexOf;
    assert s == s[..k] + [s[k]] + s[k + 1..];
  }

  lemma NotThere(s: seq<Tid>, t: Tid)
    requires t !in s
    ensures Drop(s, t) == s
  {
  }

  lemma DropKept(s: seq<Tid>, r: seq<Tid>, t: Tid)
    requires Distinct(s) && Distinct(r) && Drop(s, t) == Drop(r, t)
    ensures ListKept(s, r, {t})
  {
    hide Drop, Ahead, Distinct;
    DropMembers(s, t);
    DropMembers(r, t);
    forall a | a != t ensures a in r <==> a in s {
      assert a in Drop(s, t) <==> a in Drop(r, t);
    }
    forall a, b | a in s && b in s && a != t && b != t ensures Ahead(r, a, b) <==> Ahead(s, a, b) {
      DropAhead(s, t, a, b);
      DropAhead(r, t, a, b);
    }
  }

  lemma OthersRest(v: View, r: View, t: Tid)
    requires Wf(v) && Wf(r) && OthersInOrder(v, r, t)
    ensures RestInOrder(v, r, {t})
  {
    hide Drop, ListKept;
    forall k | k in v.lists ensures ListKept(v.lists[k], r.lists[k], {t}) {
      DropKept(v.lists[k], r.lists[k], t);
    }
  }

  lemma KeptTrans(s: seq<Tid>, w: seq<Tid>, r: seq<Tid>, a: set<Tid>, b: set<Tid>)
    requires ListKept(s, w, a) && ListKept(w, r, b)
    ensures ListKept(s, r, a + b)
  {
    hide Ahead;
  }

  lemma RestTrans(v: View, w: View, r: View, a: set<Tid>, b: set<Tid>)
    requires RestInOrder(v, w, a) && RestInOrder(w, r, b)
    ensures RestInOrder(v, r, a + b)
  {
    hide ListKept;
    forall k | k in v.lists ensures ListKept(v.lists[k], r.lists[k], a + b) {
      KeptTrans(v.lists[k], w.lists[k], r.lists[k], a, b);
    }
  }

  lemma RestSame(v: View, r: View)
    requires r.lists == v.lists
    ensures RestInOrder(v, r, {})
  {
  }

  lemma BehindIs(v: View, t: Tid, l: Lid)
    requires Wf(v) && BehindEquals(v, t, l)
    ensures Behind(v, t, l)
  {
    var s := v.lists[l];
    var i := IndexOf(s, t);
    hide IndexOf;
    forall x | x in s && x != t ensures x in v.prio && (Ahead(s, x, t) <==> v.prio[x] >= v.prio[t]) {
      var j := IndexOf(s, x);
      assert s[j] == x;
    }
  }

  // Task t stays behind its equals while another task leaves or comes to other lists.
  lemma BehindKept(v: View, r: View, t: Tid, l: Lid, u: Tid)
    requires Behind(v, t, l) && RestInOrder(v, r, {u}) && t != u && u !in r.lists[l]
    requires forall x :: x != u && x in v.prio ==> x in r.prio && r.prio[x] == v.prio[x]
    ensures Behind(r, t, l)
  {
    hide Ahead;
    var s, s' := v.lists[l], r.lists[l];
    assert ListKept(s, s', {u});
    assert t in s';
    forall x | x in s' && x != t ensures x in r.prio && (Ahead(s', x, t) <==> r.prio[x] >= r.prio[t]) {
      assert x in s;
      assert Ahead(s', x, t) <==> Ahead(s, x, t);
    }
  }

  // What gyros__set_priority does to the order of the lists.
  lemma SetPrioRest(v: View, t: Tid, p: nat)
    requires Wf(v) && t in v.home
    ensures RestInOrder(v, SetPrio(v, t, p), {t})
    ensures v.home[t].Some? ==> Behind(SetPrio(v, t, p), t, v.home[t].value)
  {
    hide Wf, SetPrio, BehindEquals, OthersInOrder, RestInOrder, Behind;
    SetPrioOrder(v, t, p);
    OthersRest(v, SetPrio(v, t, p), t);
    if v.home[t].Some? {
      BehindIs(SetPrio(v, t, p), t, v.home[t].value);
    }
  }

  lemma MoveRest(v: View, t: Tid, l: Lid)
    requires Wf(v) && t in v.home && l in v.lists
    ensures RestInOrder(v, Move(v, t, l), {t}) && Behind(Move(v, t, l), t, l)
  {
    hide Wf, Move, BehindEquals, OthersInOrder, RestInOrder, Behind;
    MoveOrder(v, t, l);
    OthersRest(v, Move(v, t, l), t);
    BehindIs(Move(v, t, l), t, l);
  }

  lemma WakeRest(v: View, t: Tid)
    requires Wf(v) && t in v.home
    ensures RestInOrder(v, Wake(v, t), {t}) && Behind(Wake(v, t), t, RUNNING)
  {
    hide Wf, Wake, BehindEquals, OthersInOrder, RestInOrder, Behind;
    WakeOrder(v, t);
    OthersRest(v, Wake(v, t), t);
    BehindIs(Wake(v, t), t, RUNNING);
  }

  // ----- tasks that come and go

  // gyros_task_create: the new task goes behind its equals; once the kernel has been started,
  // the first running task is current.
  lemma CreateEffect(v: View, t: Tid, p: nat, d: int, expired: bool, started: bool)
    requires Wf(v) && t !in v.home
    ensures var r := Create(v, t, p, d, expired, started);
      && r.home == v.home[t := Some(RUNNING)] && r.prio == v.prio[t := p] && r.base == v.base[t := p]
      && r.timeouts == v.timeouts && OthersInOrder(v, r, t) && BehindEquals(r, t, RUNNING)
      && (if started then Settled(r) else r.current == v.current)
  {
    hide Wf, Attach, Adopt, Resched, OthersInOrder, BehindEquals, Settled;
    RunningListed(v);
    AdoptIs(v, t, p, d, expired);
    var a := Adopt(v, t, p, d, expired);
    AttachOrder(a, t, RUNNING);
    var w := Attach(a, t, RUNNING);
    ReschedRunnable(w);
    var r := Create(v, t, p, d, expired, started);
    SameBefore(v, a, w, t);
    SameOrder(v, w, r, t, RUNNING);
    InRunning(r, t);
  }

  // gyros_start: the idle task joins the others, and the first running task is current.
  lemma StartEffect(v: View)
    requires Wf(v) && IDLE in v.home && v.home[IDLE].None?
    ensures var r := StartUp(v); Goes(v, r, IDLE, RUNNING) && SameTimes(v, r) && Settled(r)
  {
    hide Wf, Attach, Resched, OthersInOrder, BehindEquals, Settled;
    RunningListed(v);
    var w := Attach(v, IDLE, RUNNING);
    AttachOrder(v, IDLE, RUNNING);
    ReschedRunnable(w);
    SameOrder(v, w, StartUp(v), IDLE, RUNNING);
    InRunning(StartUp(v), IDLE);
  }

  // gyros_task_suspend: the task is on no list, and its timeout is not pending; another task
  // runs only if it was current.
  lemma SuspendEffect(v: View, t: Tid)
    requires Wf(v) && t in v.home
    ensures var r := Suspend(v, t);
      && r.home == v.home[t := None] && r.timeouts == Drop(v.timeouts, t) && OthersInOrder(v, r, t)
      && r.prio == v.prio && r.base == v.base && r.deadline == v.deadline && r.timedOut == v.timedOut
      && (t != v.current ==> r.current == v.current) && (t == v.current && Runnable(r) ==> Settled(r))
  {
    hide Wf, Detach, Resched, Settled, Drop;
    DetachOrder(v, t);
    ReschedRunnable(Untime(Detach(v, t), t));
  }

  // gyros_task_resume: the task runs, and the first running task is current.
  lemma ResumeEffect(v: View, t: Tid)
    requires Wf(v) && t in v.home
    ensures var r := Resume(v, t); Goes(v, r, t, RUNNING) && SameTimes(v, r) && Settled(r)
  {
    hide Wf, Move, Resched, OthersInOrder, BehindEquals, Settled;
    RunningListed(v);
    var w := Move(v, t, RUNNING);
    MoveOrder(v, t, RUNNING);
    ReschedRunnable(w);
    SameOrder(v, w, Resume(v, t), t, RUNNING);
    InRunning(Resume(v, t), t);
  }
}
