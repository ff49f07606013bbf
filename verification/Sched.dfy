// The scheduler state that src/task.c and src/timeout.c maintain, as values: which
// task is on which list, in which order.  Kernel.dfy proves that the linked
// structure and its loops compute exactly these functions.

module Sched {
  import opened Seqs

  type Tid = nat   // a task
  type Lid = nat   // a task list: the running list or the wait list of some object

  const RUNNING: Lid := 0
  const IDLE: Tid := 0

  datatype View = View(
    current: Tid,
    lists: map<Lid, seq<Tid>>,
    home: map<Tid, Option<Lid>>,    // main_list; None for NULL
    prio: map<Tid, nat>,
    base: map<Tid, nat>,
    timeouts: seq<Tid>,
    deadline: map<Tid, int>,        // in unwrapped time
    timedOut: map<Tid, bool>)

  // Non-increasing priority.
  ghost predicate Sorted(s: seq<Tid>, prio: map<Tid, nat>) {
    && (forall i {:trigger s[i] in prio} :: 0 <= i < |s| ==> s[i] in prio)
    && (forall i, j {:trigger prio[s[i]], prio[s[j]]} :: 0 <= i < j < |s| ==> prio[s[i]] >= prio[s[j]])
  }

  // Non-decreasing deadline.
  ghost predicate Timely(s: seq<Tid>, deadline: map<Tid, int>) {
    && (forall i {:trigger s[i] in deadline} :: 0 <= i < |s| ==> s[i] in deadline)
    && (forall i, j {:trigger deadline[s[i]], deadline[s[j]]} :: 0 <= i < j < |s| ==> deadline[s[i]] <= deadline[s[j]])
  }

  // A task is on the list that its main_list names, exactly once, and on no other.
  ghost predicate Placed(v: View) {
    && (forall t {:trigger v.home[t]} :: t in v.home && v.home[t].Some? ==> v.home[t].value in v.lists)
    && (forall l, t {:trigger t in v.lists[l]} :: l in v.lists ==>
          (t in v.lists[l] <==> t in v.home && v.home[t] == Some(l)))
    && (forall l :: l in v.lists ==> Distinct(v.lists[l]))
  }

  ghost predicate Fields(v: View) {
    forall t :: t in v.home ==> t in v.prio && t in v.base && t in v.deadline && t in v.timedOut
  }

  ghost predicate Queued(v: View) {
    && Distinct(v.timeouts)
    && (forall t :: t in v.timeouts ==> t in v.home)
    && Timely(v.timeouts, v.deadline)
  }

  ghost predicate Wf(v: View) {
    && RUNNING in v.lists
    && Fields(v)
    && Placed(v)
    && (forall l :: l in v.lists ==> Sorted(v.lists[l], v.prio))
    && Queued(v)
  }

  // The static initialisers: no list has anybody on it.  Before gyros_start the source's
  // current is NULL; here it is the idle task, which is on no list yet.
  function Boot(): (v: View)
    ensures Wf(v)
    ensures v.home == map[IDLE := None] && v.lists == map[RUNNING := []] && v.current == IDLE && v.timeouts == []
    ensures v.prio == v.base == map[IDLE := 0] && v.deadline == map[IDLE := 0] && v.timedOut == map[IDLE := false]
  {
    View(IDLE, map[RUNNING := []], map[IDLE := None], map[IDLE := 0], map[IDLE := 0], [],
         map[IDLE := 0], map[IDLE := false])
  }

  // Some task can run.
  predicate Runnable(v: View) {
    RUNNING in v.lists && v.lists[RUNNING] != []
  }

  // The head of the running list is current.
  ghost predicate Settled(v: View) {
    Runnable(v) && v.current == v.lists[RUNNING][0]
  }

  // ----- insertion by priority: add_task_to_list

  // The scan of add_task_to_list: the first position from i on with a lower priority.
  function Pos(s: seq<Tid>, prio: map<Tid, nat>, p: nat, i: nat): (k: nat)
    requires i <= |s| && forall j :: 0 <= j < |s| ==> s[j] in prio
    ensures i <= k <= |s|
    ensures forall j :: i <= j < k ==> p <= prio[s[j]]
    ensures k < |s| ==> p > prio[s[k]]
    decreases |s| - i
  {
    if i == |s| || p > prio[s[i]] then i else Pos(s, prio, p, i + 1)
  }

  function Enqueue(s: seq<Tid>, prio: map<Tid, nat>, t: Tid): seq<Tid>
    requires t in prio && forall j :: 0 <= j < |s| ==> s[j] in prio
  {
    InsertAt(s, Pos(s, prio, prio[t], 0), t)
  }

  lemma EnqueuePair(s: seq<Tid>, prio: map<Tid, nat>, t: Tid, i: nat, j: nat)
    requires Sorted(s, prio) && t in prio && i <= j <= |s|
    ensures var r := Enqueue(s, prio, t);
      r[i] in prio && r[j] in prio && prio[r[i]] >= prio[r[j]]
  {
    var k := Pos(s, prio, prio[t], 0);
    if i == j {
      assert i != k ==> s[if i < k then i else i - 1] in prio;
    } else if i == k {
      assert s[k] in prio && s[j - 1] in prio && prio[s[k]] >= prio[s[j - 1]];
    } else if j == k {
      assert s[i] in prio;
    } else {
      var i', j' := if i < k then i else i - 1, if j < k then j else j - 1;
      assert s[i'] in prio && s[j'] in prio && prio[s[i']] >= prio[s[j']];
    }
  }

  lemma EnqueueOrder(s: seq<Tid>, prio: map<Tid, nat>, t: Tid)
    requires Sorted(s, prio) && t in prio
    ensures Sorted(Enqueue(s, prio, t), prio)
  {
    var r := Enqueue(s, prio, t);
    forall i | 0 <= i < |r| ensures r[i] in prio {
      EnqueuePair(s, prio, t, i, i);
    }
    forall i, j | 0 <= i < j < |r| ensures prio[r[i]] >= prio[r[j]] {
      EnqueuePair(s, prio, t, i, j);
    }
  }

  // Inserting into a sorted list keeps it sorted, behind the tasks of equal priority
  // and ahead of those of lower priority; taking t out again gives the list back.
  lemma EnqueueSorted(s: seq<Tid>, prio: map<Tid, nat>, t: Tid)
    requires Sorted(s, prio) && Distinct(s) && t in prio && t !in s
    ensures Sorted(Enqueue(s, prio, t), prio) && Distinct(Enqueue(s, prio, t))
    ensures forall x :: x in Enqueue(s, prio, t) <==> x == t || x in s
    ensures Drop(Enqueue(s, prio, t), t) == s
  {
    EnqueueOrder(s, prio, t);
    InsertMembers(s, Pos(s, prio, prio[t], 0), t);
    DropInsert(s, Pos(s, prio, prio[t], 0), t);
  }

  lemma DropAt(s: seq<Tid>, t: Tid, i: nat) returns (i': nat)
    requires i < |Drop(s, t)|
    ensures i' < |s| && Drop(s, t)[i] == s[i'] && i' == if t in s && i >= IndexOf(s, t) then i + 1 else i
  {
    hide IndexOf;
    i' := if t in s && i >= IndexOf(s, t) then i + 1 else i;
  }

  lemma DropSorted(s: seq<Tid>, prio: map<Tid, nat>, t: Tid)
    requires Sorted(s, prio)
    ensures Sorted(Drop(s, t), prio)
  {
    hide Drop, IndexOf;
    var r := Drop(s, t);
    forall i | 0 <= i < |r| ensures r[i] in prio {
      var i' := DropAt(s, t, i);
      assert s[i'] in prio;
    }
    forall i, j | 0 <= i < j < |r| ensures prio[r[i]] >= prio[r[j]] {
      var i' := DropAt(s, t, i);
      var j' := DropAt(s, t, j);
      assert prio[s[i']] >= prio[s[j']];
    }
  }

  // ----- the operations of src/task.c on the scheduler state

  // Nothing but the task lists differs.
  ghost predicate SameFields(v: View, r: View) {
    && r.current == v.current && r.prio == v.prio && r.base == v.base
    && r.timeouts == v.timeouts && r.deadline == v.deadline && r.timedOut == v.timedOut
  }

  // Neither the timeout list nor what a task remembers of it differs.
  ghost predicate SameTimes(v: View, r: View) {
    r.timeouts == v.timeouts && r.deadline == v.deadline && r.timedOut == v.timedOut
  }

  // gyros__list_remove on the main node.
  function Detach(v: View, t: Tid): (r: View)
    requires Wf(v) && t in v.home
    ensures Wf(r) && r.home == v.home[t := None]
    ensures SameFields(v, r) && r.lists.Keys == v.lists.Keys
  {
    var r := if v.home[t].None? then v
             else var l := v.home[t].value; v.(lists := v.lists[l := Drop(v.lists[l], t)], home := v.home[t := None]);
    DetachWf(v, t, r);
    r
  }

  lemma DetachWf(v: View, t: Tid, r: View)
    requires Wf(v) && t in v.home
    requires v.home[t].None? ==> r == v
    requires v.home[t].Some? ==>
      r == v.(lists := v.lists[v.home[t].value := Drop(v.lists[v.home[t].value], t)], home := v.home[t := None])
    ensures Wf(r) && r.home == v.home[t := None]
  {
    if v.home[t].Some? {
      var l := v.home[t].value;
      DropMembers(v.lists[l], t);
      DropSorted(v.lists[l], v.prio, t);
    }
  }

  // add_task_to_list
  function Attach(v: View, t: Tid, l: Lid): (r: View)
    requires Wf(v) && t in v.home && v.home[t].None? && l in v.lists
    ensures Wf(r) && r.home == v.home[t := Some(l)]
    ensures SameFields(v, r) && r.lists.Keys == v.lists.Keys
  {
    InList(v, l);
    var r := v.(lists := v.lists[l := Enqueue(v.lists[l], v.prio, t)], home := v.home[t := Some(l)]);
    AttachWf(v, t, l, r);
    r
  }

  lemma InList(v: View, l: Lid)
    requires Wf(v) && l in v.lists
    ensures forall j :: 0 <= j < |v.lists[l]| ==> v.lists[l][j] in v.prio
  {
  }

  lemma AttachWf(v: View, t: Tid, l: Lid, r: View)
    requires Wf(v) && t in v.home && v.home[t].None? && l in v.lists
    requires forall j :: 0 <= j < |v.lists[l]| ==> v.lists[l][j] in v.prio
    requires r == v.(lists := v.lists[l := Enqueue(v.lists[l], v.prio, t)], home := v.home[t := Some(l)])
    ensures Wf(r)
  {
    assert t !in v.lists[l];
    EnqueueSorted(v.lists[l], v.prio, t);
  }

  // gyros__task_move
  function Move(v: View, t: Tid, l: Lid): (r: View)
    requires Wf(v) && t in v.home && l in v.lists
    ensures Wf(r) && r.home == v.home[t := Some(l)]
    ensures SameFields(v, r) && r.lists.Keys == v.lists.Keys
  {
    hide Wf, Detach, Attach;
    Attach(Detach(v, t), t, l)
  }

  // gyros__list_remove on the timeout node.
  function Untime(v: View, t: Tid): (r: View)
    requires Wf(v)
    ensures Wf(r) && r == v.(timeouts := r.timeouts)
    ensures forall x :: x in r.timeouts <==> x in v.timeouts && x != t
  {
    DropMembers(v.timeouts, t);
    DropTimely(v.timeouts, v.deadline, t);
    v.(timeouts := Drop(v.timeouts, t))
  }

  lemma DropTimely(s: seq<Tid>, deadline: map<Tid, int>, t: Tid)
    requires Timely(s, deadline)
    ensures Timely(Drop(s, t), deadline)
  {
    hide Drop, IndexOf;
    var r := Drop(s, t);
    forall i | 0 <= i < |r| ensures r[i] in deadline {
      var i' := DropAt(s, t, i);
      assert s[i'] in deadline;
    }
    forall i, j | 0 <= i < j < |r| ensures deadline[r[i]] <= deadline[r[j]] {
      var i' := DropAt(s, t, i);
      var j' := DropAt(s, t, j);
      assert deadline[s[i']] <= deadline[s[j']];
    }
  }

  lemma RunningListed(v: View)
    requires Wf(v)
    ensures RUNNING in v.lists
  {
  }

  // gyros__task_wake
  function Wake(v: View, t: Tid): (r: View)
    requires Wf(v) && t in v.home
    ensures Wf(r) && r.home == v.home[t := Some(RUNNING)] && r.lists.Keys == v.lists.Keys
    ensures forall x :: x in r.timeouts <==> x in v.timeouts && x != t
    ensures r.current == v.current && r.prio == v.prio && r.base == v.base
    ensures r.deadline == v.deadline && r.timedOut == v.timedOut
  {
    hide Wf, Move, Untime;
    RunningListed(v);
    Move(Untime(v, t), t, RUNNING)
  }

  // The priority of a task that is on no list.
  function Reprio(v: View, t: Tid, p: nat): (r: View)
    requires Wf(v) && t in v.home && v.home[t].None?
    ensures Wf(r) && r.home == v.home && r.prio == v.prio[t := p] && r.lists.Keys == v.lists.Keys
    ensures r.current == v.current && r.base == v.base && SameTimes(v, r)
  {
    var r := v.(prio := v.prio[t := p]);
    ReprioWf(v, t, p, r);
    r
  }

  lemma ReprioWf(v: View, t: Tid, p: nat, r: View)
    requires Wf(v) && t in v.home && v.home[t].None? && r == v.(prio := v.prio[t := p])
    ensures Wf(r)
  {
    forall l | l in r.lists ensures Sorted(r.lists[l], r.prio) {
      assert t !in v.lists[l];
    }
  }

  // A task queued again on list l, at a new priority.
  function Requeue(v: View, t: Tid, l: Lid, p: nat): (r: View)
    requires Wf(v) && t in v.home && l in v.lists
    ensures Wf(r) && r.home == v.home[t := Some(l)] && r.prio == v.prio[t := p] && r.lists.Keys == v.lists.Keys
    ensures r.current == v.current && r.base == v.base && SameTimes(v, r)
  {
    hide Wf, Detach, Attach, Reprio;
    Attach(Reprio(Detach(v, t), t, p), t, l)
  }

  // gyros__set_priority: a task that is on a list is queued again at its new priority.
  function SetPrio(v: View, t: Tid, p: nat): (r: View)
    requires Wf(v) && t in v.home
    ensures Wf(r) && r.home == v.home && r.prio == v.prio[t := p] && r.lists.Keys == v.lists.Keys
    ensures r.current == v.current && r.base == v.base && SameTimes(v, r)
  {
    hide Requeue, Reprio;
    if v.home[t].None? then Reprio(v, t, p) else Requeue(v, t, v.home[t].value, p)
  }

  // gyros__reschedule, once the interrupt flag is restored: the head of the running
  // list becomes current.
  function Resched(v: View): (r: View)
    requires Wf(v)
    ensures Wf(r) && r == v.(current := r.current)
    ensures Runnable(v) ==> Settled(r)
  {
    if v.lists[RUNNING] == [] then v else v.(current := v.lists[RUNNING][0])
  }

  // A new wait list: GYROS__LIST_NODE_INIT on the list of some object.
  function NewList(v: View, l: Lid): (r: View)
    requires Wf(v) && l !in v.lists
    ensures Wf(r)
  {
    var r := v.(lists := v.lists[l := []]);
    NewListWf(v, l, r);
    r
  }

  lemma NewListWf(v: View, l: Lid, r: View)
    requires Wf(v) && l !in v.lists && r == v.(lists := v.lists[l := []])
    ensures Wf(r)
  {
  }

  lemma NewListIs(v: View, l: Lid)
    requires Wf(v) && l !in v.lists
    ensures NewList(v, l) == v.(lists := v.lists[l := []])
  {
  }

  // A new task that is on no list yet; its timeout and timed_out are whatever they are.
  function Adopt(v: View, t: Tid, p: nat, d: int, expired: bool): (r: View)
    requires Wf(v) && t !in v.home
    ensures Wf(r) && r.home == v.home[t := None] && r.lists == v.lists && r.current == v.current
  {
    var r := v.(home := v.home[t := None], prio := v.prio[t := p], base := v.base[t := p],
                deadline := v.deadline[t := d], timedOut := v.timedOut[t := expired]);
    AdoptWf(v, t, p, d, expired, r);
    r
  }

  lemma AdoptWf(v: View, t: Tid, p: nat, d: int, expired: bool, r: View)
    requires Wf(v) && t !in v.home
    requires r == v.(home := v.home[t := None], prio := v.prio[t := p], base := v.base[t := p],
                     deadline := v.deadline[t := d], timedOut := v.timedOut[t := expired])
    ensures Wf(r)
  {
    hide Sorted, Placed, Queued;
    AdoptPlaced(v, t, r);
    forall l | l in v.lists ensures Sorted(v.lists[l], r.prio) {
      SortedWith(v.lists[l], v.prio, t, p);
    }
    AdoptQueued(v, t, d, r);
  }

  lemma AdoptPlaced(v: View, t: Tid, r: View)
    requires Placed(v) && t !in v.home && r.lists == v.lists && r.home == v.home[t := None]
    ensures Placed(r) && forall l :: l in v.lists ==> t !in v.lists[l]
  {
  }

  lemma AdoptQueued(v: View, t: Tid, d: int, r: View)
    requires Queued(v) && t !in v.home && r.timeouts == v.timeouts
    requires r.home == v.home[t := None] && r.deadline == v.deadline[t := d]
    ensures Queued(r)
  {
    hide Timely, Distinct;
    TimelyWith(v.timeouts, v.deadline, t, d);
  }

  // What is said of a task that is not on a list does not matter there.
  lemma SortedWith(s: seq<Tid>, prio: map<Tid, nat>, t: Tid, p: nat)
    requires Sorted(s, prio) && t !in s
    ensures Sorted(s, prio[t := p])
  {
    forall i | 0 <= i < |s| ensures s[i] in prio && s[i] != t {
      assert s[i] in s;
    }
  }

  lemma TimelyWith(s: seq<Tid>, deadline: map<Tid, int>, t: Tid, d: int)
    requires Timely(s, deadline) && t !in s
    ensures Timely(s, deadline[t := d])
  {
    forall i | 0 <= i < |s| ensures s[i] in deadline && s[i] != t {
      assert s[i] in s;
    }
  }

  // Both views say the same of task t.
  ghost predicate Agree(v: View, r: View, t: Tid) {
    && t in v.home && t in r.home && r.home[t] == v.home[t]
    && t in v.prio && t in r.prio && r.prio[t] == v.prio[t]
    && t in v.base && t in r.base && r.base[t] == v.base[t]
    && t in v.deadline && t in r.deadline && r.deadline[t] == v.deadline[t]
    && t in v.timedOut && t in r.timedOut && r.timedOut[t] == v.timedOut[t]
  }

  lemma AdoptSame(v: View, t: Tid, p: nat, d: int, expired: bool)
    requires Wf(v) && t !in v.home
    ensures forall x :: x in v.home && x in v.prio && x in v.base && x in v.deadline && x in v.timedOut ==>
      Agree(v, Adopt(v, t, p, d, expired), x)
  {
    hide Wf, Adopt;
    AdoptIs(v, t, p, d, expired);
  }

  // gyros_task_create: nobody is switched to before gyros_start.
  function Create(v: View, t: Tid, p: nat, d: int, expired: bool, started: bool): (r: View)
    requires Wf(v) && t !in v.home
    ensures Wf(r) && r.home == v.home[t := Some(RUNNING)] && r.lists.Keys == v.lists.Keys
    ensures r.prio == v.prio[t := p] && r.base == v.base[t := p]
    ensures r.timeouts == v.timeouts && r.deadline == v.deadline[t := d] && r.timedOut == v.timedOut[t := expired]
    ensures started && Runnable(r) ==> Settled(r)
    ensures !started ==> r.current == v.current
  {
    hide Wf, Attach, Adopt, Resched;
    RunningListed(v);
    AdoptIs(v, t, p, d, expired);
    assert v.home[t := None][t := Some(RUNNING)] == v.home[t := Some(RUNNING)];
    var w := Attach(Adopt(v, t, p, d, expired), t, RUNNING);
    ReschedRunnable(w);
    if started then Resched(w) else w
  }

  lemma AdoptIs(v: View, t: Tid, p: nat, d: int, expired: bool)
    requires Wf(v) && t !in v.home
    ensures var r := Adopt(v, t, p, d, expired);
      && r.lists == v.lists && r.timeouts == v.timeouts && r.home == v.home[t := None] && r.current == v.current
      && r.prio == v.prio[t := p] && r.base == v.base[t := p]
      && r.deadline == v.deadline[t := d] && r.timedOut == v.timedOut[t := expired]
  {
  }

  // gyros_start: the idle task joins the running list, and the first task there takes over.
  function StartUp(v: View): (r: View)
    requires Wf(v) && IDLE in v.home && v.home[IDLE].None?
    ensures Wf(r) && r.home == v.home[IDLE := Some(RUNNING)] && r.lists.Keys == v.lists.Keys
    ensures r.prio == v.prio && r.base == v.base && r.timeouts == v.timeouts
    ensures Runnable(r) ==> Settled(r)
  {
    hide Wf, Attach;
    RunningListed(v);
    Resched(Attach(v, IDLE, RUNNING))
  }

  // gyros_task_suspend
  function Suspend(v: View, t: Tid): (r: View)
    requires Wf(v) && t in v.home
    ensures Wf(r)
  {
    hide Wf, Detach, Untime, Resched;
    var w := Untime(Detach(v, t), t);
    if t == v.current then Resched(w) else w
  }

  // gyros_task_resume
  function Resume(v: View, t: Tid): (r: View)
    requires Wf(v) && t in v.home
    ensures Wf(r)
  {
    hide Wf, Move, Resched;
    RunningListed(v);
    Resched(Move(v, t, RUNNING))
  }

  // gyros_yield
  function Yield(v: View): (r: View)
    requires Wf(v) && v.current in v.home
    ensures Wf(r)
  {
    Resched(Move(v, v.current, RUNNING))
  }

  // gyros_task_set_priority
  function TaskSetPriority(v: View, t: Tid, p: nat): (r: View)
    requires Wf(v) && t in v.home
    ensures Wf(r) && r.home == v.home && r.prio == v.prio[t := p]
  {
    var b := v.(base := v.base[t := p]);
    if v.prio[t] != p then Resched(SetPrio(b, t, p)) else b
  }

  // ----- timeouts: src/timeout.c

  // The scan of gyros__task_set_timeout: the first position from i on with a later deadline.
  function TimePos(s: seq<Tid>, deadline: map<Tid, int>, d: int, i: nat): (k: nat)
    requires i <= |s| && forall j :: 0 <= j < |s| ==> s[j] in deadline
    ensures i <= k <= |s|
    ensures forall j :: i <= j < k ==> deadline[s[j]] <= d
    ensures k < |s| ==> d < deadline[s[k]]
    decreases |s| - i
  {
    if i == |s| || d < deadline[s[i]] then i else TimePos(s, deadline, d, i + 1)
  }

  // Linking task t into the timeout list at deadline d.
  function Arm(v: View, t: Tid, d: int): (r: View)
    requires Wf(v) && t in v.home && t !in v.timeouts
    ensures Wf(r) && forall x :: x in r.timeouts <==> x == t || x in v.timeouts
    ensures r == v.(timeouts := r.timeouts, deadline := v.deadline[t := d], timedOut := v.timedOut[t := false])
  {
    InTimeouts(v);
    var k := TimePos(v.timeouts, v.deadline, d, 0);
    var r := v.(timeouts := InsertAt(v.timeouts, k, t), deadline := v.deadline[t := d],
      timedOut := v.timedOut[t := false]);
    InsertMembers(v.timeouts, k, t);
    ArmTimely(v.timeouts, v.deadline, t, d);
    r
  }

  lemma InTimeouts(v: View)
    requires Wf(v)
    ensures forall j :: 0 <= j < |v.timeouts| ==> v.timeouts[j] in v.deadline
  {
  }

  lemma ArmTimely(s: seq<Tid>, deadline: map<Tid, int>, t: Tid, d: int)
    requires Timely(s, deadline) && t !in s
    ensures Timely(InsertAt(s, TimePos(s, deadline, d, 0), t), deadline[t := d])
  {
    var k := TimePos(s, deadline, d, 0);
    var r := InsertAt(s, k, t);
    forall i | 0 <= i < |r| ensures r[i] in deadline[t := d] {
      assert i != k ==> s[if i < k then i else i - 1] in deadline;
    }
    forall i, j | 0 <= i < j < |r| ensures deadline[t := d][r[i]] <= deadline[t := d][r[j]] {
      ArmPair(s, deadline, t, d, i, j);
    }
  }

  lemma ArmPair(s: seq<Tid>, deadline: map<Tid, int>, t: Tid, d: int, i: nat, j: nat)
    requires Timely(s, deadline) && t !in s && i < j <= |s|
    ensures var r := InsertAt(s, TimePos(s, deadline, d, 0), t);
      r[i] in deadline[t := d] && r[j] in deadline[t := d] && deadline[t := d][r[i]] <= deadline[t := d][r[j]]
  {
    var k := TimePos(s, deadline, d, 0);
    var r := InsertAt(s, k, t);
    var i', j' := if i < k then i else i - 1, if j < k then j else j - 1;
    if i == k {
      assert r[i] == t && r[j] == s[j'];
      assert s[k] in deadline && s[j'] in deadline && deadline[s[k]] <= deadline[s[j']];
    } else if j == k {
      assert r[i] == s[i] && r[j] == t;
      assert s[i] in deadline;
    } else {
      assert r[i] == s[i'] && r[j] == s[j'];
      assert s[i'] in deadline && s[j'] in deadline && deadline[s[i']] <= deadline[s[j']];
    }
  }

  // One expiry in gyros__tick.
  function Expire(v: View, t: Tid): (r: View)
    requires Wf(v) && t in v.home
    ensures Wf(r) && r.home == v.home[t := Some(RUNNING)] && r.lists.Keys == v.lists.Keys
    ensures forall x :: x in r.timeouts <==> x in v.timeouts && x != t
    ensures r.current == v.current && r.prio == v.prio && r.base == v.base
    ensures r.deadline == v.deadline && r.timedOut == v.timedOut[t := true]
  {
    hide Wake;
    Wake(v.(timedOut := v.timedOut[t := true]), t)
  }

  // The first loop of gyros__tick.
  function ExpireDue(v: View, now: int): (r: View)
    requires Wf(v)
    ensures Wf(r)
    decreases |v.timeouts|
  {
    if v.timeouts == [] then v
    else
      var t := v.timeouts[0];
      assert t in v.timeouts && t in v.deadline;
      if now < v.deadline[t] then v
      else ExpireDue(Expire(v, t), now)
  }

  lemma InRunning(v: View, t: Tid)
    requires Wf(v) && t in v.home && v.home[t] == Some(RUNNING)
    ensures RUNNING in v.lists && t in v.lists[RUNNING] && Runnable(v)
  {
    assert RUNNING in v.lists;
  }

  lemma BaseWf(v: View, t: Tid, p: nat)
    requires Wf(v)
    ensures Wf(v.(base := v.base[t := p]))
  {
  }

  // A change of priority leaves somebody running.
  lemma SetPrioRunning(v: View, t: Tid, p: nat)
    requires Wf(v) && t in v.home && Runnable(v)
    ensures Runnable(SetPrio(v, t, p))
  {
    var x := v.lists[RUNNING][0];
    assert x in v.lists[RUNNING];
    InRunning(SetPrio(v, t, p), x);
  }

  lemma DeadlineWf(v: View, t: Tid, d: int)
    requires Wf(v) && t !in v.timeouts
    ensures Wf(v.(deadline := v.deadline[t := d], timedOut := v.timedOut[t := false]))
  {
    assert forall i :: 0 <= i < |v.timeouts| ==> v.timeouts[i] in v.timeouts;
  }

  lemma ExpiredWf(v: View, t: Tid)
    requires Wf(v)
    ensures Wf(v.(timedOut := v.timedOut[t := true]))
  {
  }

  // One task is due at time now.
  ghost predicate Due(v: View, now: int)
    requires Wf(v)
  {
    v.timeouts != [] && v.timeouts[0] in v.deadline && v.deadline[v.timeouts[0]] <= now
  }

  // The task part of gyros__tick.
  ghost function Tick(v: View, now: int): (r: View)
    requires Wf(v)
    ensures Wf(r)
  {
    if Due(v, now) then Resched(ExpireDue(v, now)) else v
  }

  // One round of the loop: the first task of the timeout list, if due, is woken; it is
  // off the list and running, and the other deadlines are what they were.
  lemma ExpireStep(v: View, now: int)
    requires Wf(v)
    ensures Due(v, now) ==>
      var t := v.timeouts[0];
      && t in v.home && ExpireDue(v, now) == ExpireDue(Expire(v, t), now)
      && Runnable(Expire(v, t))
      && Expire(v, t).timeouts == v.timeouts[1..] && Expire(v, t).deadline == v.deadline
    ensures !Due(v, now) ==> ExpireDue(v, now) == v
    ensures Due(v, now) ==> v.timeouts != []
  {
    if v.timeouts != [] {
      var t := v.timeouts[0];
      assert t in v.timeouts && t in v.deadline;
      InRunning(Expire(v, t), t);
    }
  }

  // ----- what the operations mean for the tasks

  // The first task of a list has the highest priority on it.
  lemma HeadIsTop(v: View, l: Lid)
    requires Wf(v) && l in v.lists && v.lists[l] != []
    ensures v.lists[l][0] in v.home && v.home[v.lists[l][0]] == Some(l)
    ensures v.lists[l][0] in v.prio
    ensures forall t :: t in v.home && v.home[t] == Some(l) ==> t in v.prio && v.prio[t] <= v.prio[v.lists[l][0]]
  {
    var s := v.lists[l];
    assert s[0] in s;
    forall t | t in v.home && v.home[t] == Some(l) ensures v.prio[t] <= v.prio[s[0]] {
      assert t in s;
      var j :| 0 <= j < |s| && s[j] == t;
      assert v.prio[s[0]] >= v.prio[s[j]];
    }
  }

  // A list is empty exactly when no task is on it.
  lemma EmptyList(v: View, l: Lid)
    requires Wf(v) && l in v.lists
    ensures v.lists[l] == [] <==> forall t :: t in v.home ==> v.home[t] != Some(l)
  {
    if v.lists[l] != [] {
      HeadIsTop(v, l);
    } else {
      forall t | t in v.home ensures v.home[t] != Some(l) {
        assert t !in v.lists[l];
      }
    }
  }

  // The tasks on a list.
  ghost function On(v: View, l: Lid): set<Tid> {
    set t | t in v.home && v.home[t] == Some(l)
  }

  lemma OnWake(v: View, l: Lid, t: Tid)
    requires Wf(v) && l in v.lists && l != RUNNING && t in v.home && v.home[t] == Some(l)
    ensures On(Wake(v, t), l) == On(v, l) - {t} && t in On(v, l)
  {
    hide Wf, Wake;
  }

  // The loops that wake everybody on a list, from the tail.
  function WakeAll(v: View, l: Lid): (r: View)
    requires Wf(v) && l in v.lists && l != RUNNING
    ensures Wf(r) && r.lists.Keys == v.lists.Keys
    ensures r.current == v.current && r.prio == v.prio && r.base == v.base
    ensures r.deadline == v.deadline && r.timedOut == v.timedOut
    decreases On(v, l)
  {
    hide Wf, Wake, On;
    if v.lists[l] == [] then v
    else
      var t := v.lists[l][|v.lists[l]| - 1];
      LastKnown(v, l);
      OnWake(v, l, t);
      WakeAll(Wake(v, t), l)
  }

  // One round of those loops.
  lemma WakeAllStep(v: View, l: Lid)
    requires Wf(v) && l in v.lists && l != RUNNING
    ensures v.lists[l] == [] ==> WakeAll(v, l) == v
    ensures v.lists[l] != [] ==>
      var t := v.lists[l][|v.lists[l]| - 1];
      t in v.home && WakeAll(v, l) == WakeAll(Wake(v, t), l) && On(Wake(v, t), l) < On(v, l)
  {
    hide Wf, Wake, On;
    if v.lists[l] != [] {
      LastKnown(v, l);
      OnWake(v, l, v.lists[l][|v.lists[l]| - 1]);
    }
  }

  // They wake exactly the tasks of that list and leave every other task where it is.
  lemma {:induction false} WakeAllEffect(v: View, l: Lid)
    requires Wf(v) && l in v.lists && l != RUNNING
    ensures WakeAll(v, l).home.Keys == v.home.Keys
    ensures forall t :: t in v.home ==>
      WakeAll(v, l).home[t] == if v.home[t] == Some(l) then Some(RUNNING) else v.home[t]
    ensures forall t :: t in WakeAll(v, l).timeouts <==> t in v.timeouts && t in v.home && v.home[t] != Some(l)
    decreases On(v, l)
  {
    hide Wf, Wake, On;
    EmptyList(v, l);
    TimeoutsKnown(v);
    if v.lists[l] != [] {
      var t := v.lists[l][|v.lists[l]| - 1];
      LastKnown(v, l);
      OnWake(v, l, t);
      WakeAllEffect(Wake(v, t), l);
    }
  }

  lemma TimeoutsKnown(v: View)
    requires Wf(v)
    ensures forall t :: t in v.timeouts ==> t in v.home
  {
  }

  lemma LastKnown(v: View, l: Lid)
    requires Wf(v) && l in v.lists && v.lists[l] != []
    ensures var t := v.lists[l][|v.lists[l]| - 1]; t in v.home && v.home[t] == Some(l)
  {
    var t := v.lists[l][|v.lists[l]| - 1];
    assert t in v.lists[l];
  }

  // What the first loop of gyros__tick does to one task.
  ghost predicate TickEffect(v: View, r: View, now: int, t: Tid) {
    && t in v.home && t in r.home && t in v.timedOut && t in r.timedOut
    && if Expires(v, now, t) then
         r.home[t] == Some(RUNNING) && r.timedOut[t] && t !in r.timeouts
       else
         r.home[t] == v.home[t] && r.timedOut[t] == v.timedOut[t] && (t in r.timeouts <==> t in v.timeouts)
  }

  // A tick wakes exactly the tasks whose deadline has come, marks them as timed out and
  // takes them off the timeout list; nothing else happens to any task.
  lemma {:induction false} ExpireEffect(v: View, now: int)
    requires Wf(v)
    ensures var r := ExpireDue(v, now);
      && r.prio == v.prio && r.base == v.base && r.deadline == v.deadline && r.current == v.current
      && r.lists.Keys == v.lists.Keys && r.home.Keys == v.home.Keys
    ensures forall t :: t in v.home ==> TickEffect(v, ExpireDue(v, now), now, t)
    decreases |v.timeouts|
  {
    hide Wf, Expire, ExpireDue, Due;
    ExpireStep(v, now);
    FieldsKnown(v);
    if Due(v, now) {
      var t := v.timeouts[0];
      FirstExpires(v, now);
      var w := Expire(v, t);
      ExpireEffect(w, now);
      forall x | x in v.home ensures TickEffect(v, ExpireDue(v, now), now, x) {
        assert TickEffect(w, ExpireDue(w, now), now, x);
      }
    } else {
      NoneExpires(v, now);
    }
  }

  ghost predicate Expires(v: View, now: int, t: Tid) {
    t in v.timeouts && t in v.deadline && v.deadline[t] <= now
  }

  lemma FieldsKnown(v: View)
    requires Wf(v)
    ensures forall t :: t in v.home ==> t in v.prio && t in v.base && t in v.deadline && t in v.timedOut
  {
  }

  lemma FirstExpires(v: View, now: int)
    requires Wf(v) && Due(v, now)
    ensures v.timeouts[0] in v.home && Expires(v, now, v.timeouts[0]) && v.timeouts[0] in v.timedOut
  {
    assert v.timeouts[0] in v.timeouts;
  }

  lemma NoneExpires(v: View, now: int)
    requires Wf(v) && !Due(v, now)
    ensures forall t :: !Expires(v, now, t)
  {
    forall t ensures !Expires(v, now, t) {
      if t in v.timeouts {
        var j :| 0 <= j < |v.timeouts| && v.timeouts[j] == t;
        assert v.timeouts[0] in v.deadline && v.timeouts[j] in v.deadline;
        assert v.deadline[v.timeouts[0]] <= v.deadline[v.timeouts[j]];
      }
    }
  }

  lemma FirstKnown(v: View, l: Lid)
    requires Wf(v) && l in v.lists && v.lists[l] != []
    ensures v.lists[l][0] in v.home && v.home[v.lists[l][0]] == Some(l)
  {
    HeadIsTop(v, l);
  }

  // ----- between two regions

  // How things are at the end of every region: current is the first running task, the idle
  // task runs, and no running task is on the timeout list.
  ghost predicate Scheduling(v: View) {
    && Wf(v)
    && Settled(v)
    && IDLE in v.home && v.home[IDLE] == Some(RUNNING)
    && (forall t :: t in v.timeouts ==> t in v.home && v.home[t] != Some(RUNNING))
  }

  lemma ReschedRunnable(v: View)
    requires Wf(v)
    ensures Runnable(Resched(v)) ==> Settled(Resched(v))
    ensures Resched(v) == v.(current := Resched(v).current)
  {
  }

  // With the idle task running there is always somebody to switch to.
  lemma IdleRuns(v: View)
    requires Wf(v) && IDLE in v.home && v.home[IDLE] == Some(RUNNING)
    ensures Runnable(v)
  {
    InRunning(v, IDLE);
  }

  // The scheduling part of a state in which nobody is stranded on both lists.
  lemma Settles(v: View)
    requires Wf(v) && IDLE in v.home && v.home[IDLE] == Some(RUNNING)
    requires forall t :: t in v.timeouts ==> t in v.home && v.home[t] != Some(RUNNING)
    ensures Scheduling(Resched(v))
  {
    hide Wf, Settled, Runnable;
    IdleRuns(v);
    ReschedRunnable(v);
  }

  lemma StillListed(v: View, now: int, t: Tid)
    requires Wf(v) && t in ExpireDue(v, now).timeouts
    ensures t in v.home
  {
    hide Wf, ExpireDue;
    ExpireEffect(v, now);
    TimeoutsKnown(ExpireDue(v, now));
  }

  lemma SchedulingWf(v: View)
    requires Scheduling(v)
    ensures Wf(v)
  {
  }

  lemma ReschedTimes(v: View)
    requires Wf(v)
    ensures Resched(v).deadline == v.deadline && Resched(v).timeouts == v.timeouts
  {
  }

  // The whole task part of gyros__tick does to each task what its loop does.
  lemma TickExact(v: View, now: int, t: Tid)
    requires Wf(v) && t in v.home
    ensures TickEffect(v, Tick(v, now), now, t)
    ensures Tick(v, now).prio == v.prio && Tick(v, now).base == v.base && Tick(v, now).deadline == v.deadline
  {
    hide Wf, ExpireDue, Due, Resched;
    ExpireEffect(v, now);
    ExpireStep(v, now);
    ReschedRunnable(ExpireDue(v, now));
    assert TickEffect(v, ExpireDue(v, now), now, t);
  }

  // The scheduling part depends only on the lists and on who is on the timeout list.
  lemma SchedulingKept(v: View, r: View)
    requires Scheduling(v) && Wf(r) && r.lists == v.lists && r.home == v.home && r.current == v.current
    requires forall t :: t in r.timeouts ==> t in v.home && v.home[t] != Some(RUNNING)
    ensures Scheduling(r)
  {
    hide Wf;
  }

  // A task that has a higher priority than every other one on its list is the first there.
  lemma TopIsFirst(v: View, l: Lid, t: Tid)
    requires Wf(v) && l in v.lists && t in v.home && v.home[t] == Some(l) && t in v.prio
    requires forall x :: x in v.home && x != t && v.home[x] == Some(l) ==> x in v.prio && v.prio[x] < v.prio[t]
    ensures v.lists[l] != [] && v.lists[l][0] == t
  {
    EmptyList(v, l);
    HeadIsTop(v, l);
  }

  // So it is current, on the running list.
  lemma TopIsCurrent(v: View, t: Tid)
    requires Scheduling(v) && t in v.home && v.home[t] == Some(RUNNING) && t in v.prio
    requires forall x :: x in v.home && x != t && v.home[x] == Some(RUNNING) ==> x in v.prio && v.prio[x] < v.prio[t]
    ensures v.current == t
  {
    hide Wf;
    RunningListed(v);
    TopIsFirst(v, RUNNING, t);
  }
}
