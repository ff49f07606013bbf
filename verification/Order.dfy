// The order of the task lists: who comes in front of whom after each operation of
// src/task.c, src/priority.c, src/timeout.c and src/yield.c.

module Order {
  import opened Seqs
  import opened Sched

  // Of the other tasks, each list has the same ones in the same order.
  ghost predicate OthersInOrder(v: View, r: View, t: Tid) {
    && r.lists.Keys == v.lists.Keys
    && forall l :: l in v.lists ==> Drop(r.lists[l], t) == Drop(v.lists[l], t)
  }

  // Task t is on list l behind every task of its priority or a higher one, and in front of
  // every task of a lower one.
  ghost predicate BehindEquals(v: View, t: Tid, l: Lid) {
    && l in v.lists && t in v.lists[l] && t in v.prio
    && var s, i := v.lists[l], IndexOf(v.lists[l], t);
       && (forall j {:trigger s[j]} :: 0 <= j < i ==> s[j] in v.prio && v.prio[s[j]] >= v.prio[t])
       && (forall j {:trigger s[j]} :: i < j < |s| ==> s[j] in v.prio && v.prio[s[j]] < v.prio[t])
  }

  lemma DropTwice(s: seq<Tid>, t: Tid)
    requires Distinct(s)
    ensures Drop(Drop(s, t), t) == Drop(s, t)
  {
    DropMembers(s, t);
  }

  lemma DetachOrder(v: View, t: Tid)
    requires Wf(v) && t in v.home
    ensures OthersInOrder(v, Detach(v, t), t)
    ensures forall l :: l in v.lists ==> Detach(v, t).lists[l] == Drop(v.lists[l], t)
  {
    forall l | l in v.lists
      ensures Detach(v, t).lists[l] == Drop(v.lists[l], t) && Drop(Detach(v, t).lists[l], t) == Drop(v.lists[l], t)
    {
      DropTwice(v.lists[l], t);
      assert t in v.lists[l] <==> v.home[t] == Some(l);
    }
  }

  lemma Lowest(s: seq<Tid>, prio: map<Tid, nat>, p: nat, k: nat, j: nat)
    requires Sorted(s, prio) && k <= j < |s| && s[k] in prio && prio[s[k]] < p
    ensures s[j] in prio && prio[s[j]] < p
  {
    assert s[j] in prio && s[k] in prio;
    assert j > k ==> prio[s[k]] >= prio[s[j]];
  }

  // The same, on one list.
  lemma EnqueueKeeps(s: seq<Tid>, prio: map<Tid, nat>, t: Tid)
    requires Sorted(s, prio) && Distinct(s) && t in prio && t !in s
    ensures Drop(Enqueue(s, prio, t), t) == Drop(s, t) && t in Enqueue(s, prio, t)
    ensures var s', i := Enqueue(s, prio, t), IndexOf(Enqueue(s, prio, t), t);
      && (forall j {:trigger s'[j]} :: 0 <= j < i ==> s'[j] in prio && prio[s'[j]] >= prio[t])
      && (forall j {:trigger s'[j]} :: i < j < |s'| ==> s'[j] in prio && prio[s'[j]] < prio[t])
  {
    hide Drop;
    var s', k := Enqueue(s, prio, t), Pos(s, prio, prio[t], 0);
    InsertIndex(s, k, t);
    hide IndexOf;
    forall j {:trigger s'[j]} | 0 <= j < k ensures s'[j] in prio && prio[s'[j]] >= prio[t] {
      assert s[j] in prio;
    }
    forall j {:trigger s'[j]} | k < j < |s'| ensures s'[j] in prio && prio[s'[j]] < prio[t] {
      Lowest(s, prio, prio[t], k, j - 1);
    }
  }

  lemma InsertIndex(s: seq<Tid>, k: nat, t: Tid)
    requires k <= |s| && t !in s
    ensures t in InsertAt(s, k, t) && IndexOf(InsertAt(s, k, t), t) == k
    ensures Drop(InsertAt(s, k, t), t) == Drop(s, t)
  {
    DropInsert(s, k, t);
    hide IndexOf;
    var r := InsertAt(s, k, t);
    assert r[k] == t;
    forall j | 0 <= j < |r| && j != k ensures r[j] != t {
      assert r[j] == s[if j < k then j else j - 1];
    }
  }

  lemma AttachOrder(v: View, t: Tid, l: Lid)
    requires Wf(v) && t in v.home && v.home[t].None? && l in v.lists
    ensures OthersInOrder(v, Attach(v, t, l), t) && BehindEquals(Attach(v, t, l), t, l)
  {
    hide Enqueue, Drop, IndexOf, Sorted, Distinct;
    InList(v, l);
    ListSorted(v, t, l);
    EnqueueKeeps(v.lists[l], v.prio, t);
  }

  lemma ListSorted(v: View, t: Tid, l: Lid)
    requires Wf(v) && t in v.home && v.home[t].None? && l in v.lists
    ensures Sorted(v.lists[l], v.prio) && Distinct(v.lists[l]) && t !in v.lists[l] && t in v.prio
  {
  }

  lemma OrderTrans(v: View, w: View, r: View, t: Tid)
    requires OthersInOrder(v, w, t) && OthersInOrder(w, r, t)
    ensures OthersInOrder(v, r, t)
  {
  }

  // gyros__task_move is a removal and a stable insertion: the other tasks keep their order
  // on every list, and the task goes behind its equals.
  lemma MoveOrder(v: View, t: Tid, l: Lid)
    requires Wf(v) && t in v.home && l in v.lists
    ensures OthersInOrder(v, Move(v, t, l), t) && BehindEquals(Move(v, t, l), t, l)
  {
    hide Wf, Detach, Attach, OthersInOrder, BehindEquals;
    DetachOrder(v, t);
    AttachOrder(Detach(v, t), t, l);
    OrderTrans(v, Detach(v, t), Move(v, t, l), t);
  }

  // gyros__task_wake, and the expiry of a timeout.
  lemma WakeOrder(v: View, t: Tid)
    requires Wf(v) && t in v.home
    ensures OthersInOrder(v, Wake(v, t), t) && BehindEquals(Wake(v, t), t, RUNNING)
    ensures Wake(v, t).timeouts == Drop(v.timeouts, t)
  {
    hide Wf, Move, BehindEquals;
    RunningListed(v);
    MoveOrder(Untime(v, t), t, RUNNING);
    MoveTimes(Untime(v, t), t, RUNNING);
  }

  lemma MoveTimes(v: View, t: Tid, l: Lid)
    requires Wf(v) && t in v.home && l in v.lists
    ensures Move(v, t, l).timeouts == v.timeouts
  {
  }

  // gyros__set_priority, which inheritance, the return to the base priority and
  // gyros_task_set_priority use: the task goes behind its new equals on the list it is on.
  lemma SetPrioOrder(v: View, t: Tid, p: nat)
    requires Wf(v) && t in v.home
    ensures OthersInOrder(v, SetPrio(v, t, p), t)
    ensures v.home[t].Some? ==> BehindEquals(SetPrio(v, t, p), t, v.home[t].value)
  {
    hide Wf, Detach, Attach, BehindEquals;
    if v.home[t].Some? {
      HomeListed(v, t);
      var w := Reprio(Detach(v, t), t, p);
      DetachOrder(v, t);
      AttachOrder(w, t, v.home[t].value);
    }
  }

  // gyros_task_set_priority sets both priorities; the task changes its place, on the list it
  // is on, only if its priority differs, and current is the first running task.
  lemma ChangeOrder(v: View, t: Tid, p: nat)
    requires Wf(v) && Settled(v) && t in v.home
    ensures t in v.prio && t in v.base
    ensures var r := TaskSetPriority(v, t, p);
      && r.base == v.base[t := p] && r.prio == v.prio[t := p] && r.home == v.home
      && OthersInOrder(v, r, t) && Settled(r)
      && (v.prio[t] == p ==> r.lists == v.lists)
      && (v.prio[t] != p && v.home[t].Some? ==> BehindEquals(r, t, v.home[t].value))
  {
    hide Wf, SetPrio, Drop, IndexOf;
    FieldsKnown(v);
    BaseWf(v, t, p);
    var b := v.(base := v.base[t := p]);
    if v.prio[t] != p {
      SetPrioOrder(b, t, p);
      SetPrioRunning(b, t, p);
    }
  }

  lemma HomeListed(v: View, t: Tid)
    requires Wf(v) && t in v.home && v.home[t].Some?
    ensures v.home[t].value in v.lists
  {
  }

  // Once rescheduled, current has the highest priority of all running tasks, and is in
  // front of the others that have it.
  lemma CurrentIsFirst(v: View, t: Tid)
    requires Wf(v) && Runnable(v) && t in v.home && v.home[t] == Some(RUNNING)
    ensures var r := Resched(v);
      && r.current in r.prio && t in r.prio && r.prio[t] <= r.prio[r.current]
      && t in r.lists[RUNNING] && r.current in r.lists[RUNNING]
      && IndexOf(r.lists[RUNNING], r.current) <= IndexOf(r.lists[RUNNING], t)
  {
    HeadIsTop(v, RUNNING);
    InRunning(v, t);
  }

  // The place of a deadline in a list in order.
  lemma TimeOrder(s: seq<Tid>, deadline: map<Tid, int>, t: Tid, d: int)
    requires Timely(s, deadline) && t !in s
    ensures var r := InsertAt(s, TimePos(s, deadline, d, 0), t);
      && t in r && Drop(r, t) == s
      && (forall j {:trigger r[j]} :: 0 <= j < IndexOf(r, t) ==> r[j] in deadline && deadline[r[j]] <= d)
      && (forall j {:trigger r[j]} :: IndexOf(r, t) < j < |r| ==> r[j] in deadline && d < deadline[r[j]])
  {
    hide Drop;
    var k := TimePos(s, deadline, d, 0);
    var r := InsertAt(s, k, t);
    InsertIndex(s, k, t);
    DropInsert(s, k, t);
    hide IndexOf;
    forall j {:trigger r[j]} | 0 <= j < k ensures r[j] in deadline && deadline[r[j]] <= d {
      assert s[j] in deadline;
    }
    forall j {:trigger r[j]} | k < j < |r| ensures r[j] in deadline && d < deadline[r[j]] {
      LaterStill(s, deadline, d, k, j - 1);
    }
  }

  // The timeout of task t at d is behind the timeouts that are not later and in front of the
  // later ones, and the others are in the same order.
  ghost predicate InTime(v: View, r: View, t: Tid, d: int) {
    && Timely(r.timeouts, r.deadline) && t in r.timeouts && Drop(r.timeouts, t) == v.timeouts
    && (forall j {:trigger r.timeouts[j]} :: 0 <= j < IndexOf(r.timeouts, t) ==>
          r.timeouts[j] in v.deadline && v.deadline[r.timeouts[j]] <= d)
    && (forall j {:trigger r.timeouts[j]} :: IndexOf(r.timeouts, t) < j < |r.timeouts| ==>
          r.timeouts[j] in v.deadline && d < v.deadline[r.timeouts[j]])
  }

  // gyros__task_set_timeout puts the task there.
  lemma ArmOrder(v: View, t: Tid, d: int)
    requires Wf(v) && t in v.home && t !in v.timeouts
    ensures InTime(v, Arm(v, t, d), t, d)
  {
    hide Timely, Wf, Drop, IndexOf, InsertAt, TimePos;
    TimelyOf(v);
    TimelyOf(Arm(v, t, d));
    InTimeouts(v);
    TimeOrder(v.timeouts, v.deadline, t, d);
  }

  lemma TimelyOf(v: View)
    requires Wf(v)
    ensures Timely(v.timeouts, v.deadline)
  {
  }

  lemma LaterStill(s: seq<Tid>, deadline: map<Tid, int>, d: int, k: nat, j: nat)
    requires Timely(s, deadline) && k <= j < |s| && s[k] in deadline && d < deadline[s[k]]
    ensures s[j] in deadline && d < deadline[s[j]]
  {
    assert s[j] in deadline && s[k] in deadline;
    assert j > k ==> deadline[s[k]] <= deadline[s[j]];
  }

  // ----- the loops that wake everybody, from the tail

  // a is in front of b.
  ghost predicate Ahead(s: seq<Tid>, a: Tid, b: Tid) {
    a in s && b in s && IndexOf(s, a) < IndexOf(s, b)
  }

  lemma AheadOne(s: seq<Tid>, a: Tid, b: Tid)
    requires a in s && b in s && a != b
    ensures Ahead(s, a, b) <==> !Ahead(s, b, a)
  {
    hide IndexOf;
    var i, j := IndexOf(s, a), IndexOf(s, b);
  }

  lemma IndexIs(s: seq<Tid>, i: nat)
    requires Distinct(s) && i < |s|
    ensures IndexOf(s, s[i]) == i
  {
    hide IndexOf;
    var j := IndexOf(s, s[i]);
  }

  // Where the other elements are after an insertion.
  lemma IndexShift(s: seq<Tid>, k: nat, t: Tid, a: Tid)
    requires k <= |s| && Distinct(s) && t !in s && a in s
    ensures var r := InsertAt(s, k, t);
      a in r && IndexOf(r, a) == if IndexOf(s, a) < k then IndexOf(s, a) else IndexOf(s, a) + 1
  {
    hide IndexOf;
    var i, r := IndexOf(s, a), InsertAt(s, k, t);
    InsertMembers(s, k, t);
    IndexIs(r, if i < k then i else i + 1);
  }

  // The task that joins a list leaves the others in order, and goes behind exactly those of
  // at least its priority.
  lemma EnqueueAhead(s: seq<Tid>, prio: map<Tid, nat>, t: Tid, a: Tid, b: Tid)
    requires Sorted(s, prio) && Distinct(s) && t in prio && t !in s && a in s
    ensures t in Enqueue(s, prio, t) && a in Enqueue(s, prio, t) && a in prio
    ensures b in s ==> (Ahead(Enqueue(s, prio, t), a, b) <==> Ahead(s, a, b))
    ensures Ahead(Enqueue(s, prio, t), a, t) <==> prio[a] >= prio[t]
  {
    hide IndexOf, InsertAt;
    var k := Pos(s, prio, prio[t], 0);
    IndexShift(s, k, t, a);
    if b in s {
      IndexShift(s, k, t, b);
    }
    InsertIndex(s, k, t);
    var i := IndexOf(s, a);
    assert s[i] in prio;
    if i >= k {
      Lowest(s, prio, prio[t], k, i);
    }
  }

  // A wakeup, on the two lists that it concerns.
  lemma WakeLists(v: View, l: Lid, t: Tid)
    requires Wf(v) && l in v.lists && l != RUNNING && t in v.home && v.home[t] == Some(l)
    ensures t in v.prio && t !in v.lists[RUNNING] && Sorted(v.lists[RUNNING], v.prio) && Distinct(v.lists[RUNNING])
    ensures Wake(v, t).lists[RUNNING] == Enqueue(v.lists[RUNNING], v.prio, t)
    ensures Wake(v, t).lists[l] == Drop(v.lists[l], t)
  {
    RunningListed(v);
    var u := Untime(v, t);
    ListSorted(Detach(u, t), t, RUNNING);
    AttachIs(Detach(u, t), t, RUNNING);
    hide Wf, Drop, Enqueue;
  }

  lemma LastDropped(v: View, l: Lid)
    requires Wf(v) && l in v.lists && v.lists[l] != []
    ensures var n := |v.lists[l]| - 1; Drop(v.lists[l], v.lists[l][n]) == v.lists[l][..n]
  {
    var s := v.lists[l];
    IndexIs(s, |s| - 1);
  }

  // Tasks that run already keep their order.
  lemma {:induction false} RunningKept(v: View, l: Lid, a: Tid, b: Tid)
    requires Wf(v) && l in v.lists && l != RUNNING && RUNNING in v.lists && a in v.lists[RUNNING]
      && b in v.lists[RUNNING]
    ensures a in WakeAll(v, l).lists[RUNNING] && b in WakeAll(v, l).lists[RUNNING]
    ensures Ahead(WakeAll(v, l).lists[RUNNING], a, b) <==> Ahead(v.lists[RUNNING], a, b)
    decreases On(v, l)
  {
    hide Wf, Wake, WakeAll, On, Enqueue, Sorted, Distinct, Ahead;
    WakeAllStep(v, l);
    if v.lists[l] != [] {
      LastKnown(v, l);
      var t := v.lists[l][|v.lists[l]| - 1];
      WakeLists(v, l, t);
      EnqueueAhead(v.lists[RUNNING], v.prio, t, a, b);
      EnqueueAhead(v.lists[RUNNING], v.prio, t, b, a);
      RunningKept(Wake(v, t), l, a, b);
    }
  }

  // A waiter goes behind the running tasks of at least its priority.
  lemma {:induction false} WaiterBehind(v: View, l: Lid, x: Tid, y: Tid)
    requires Wf(v) && l in v.lists && l != RUNNING && RUNNING in v.lists && x in v.lists[l] && y in v.lists[RUNNING]
    ensures x in v.prio && y in v.prio
    ensures x in WakeAll(v, l).lists[RUNNING] && y in WakeAll(v, l).lists[RUNNING]
    ensures Ahead(WakeAll(v, l).lists[RUNNING], y, x) <==> v.prio[y] >= v.prio[x]
    decreases On(v, l)
  {
    hide Wf, Wake, WakeAll, On, Enqueue, Sorted, Distinct, Ahead;
    WakeAllStep(v, l);
    LastKnown(v, l);
    var n := |v.lists[l]| - 1;
    var t := v.lists[l][n];
    WakeLists(v, l, t);
    LastDropped(v, l);
    EnqueueAhead(v.lists[RUNNING], v.prio, t, y, y);
    if x == t {
      RunningKept(Wake(v, t), l, y, x);
    } else {
      WaiterBehind(Wake(v, t), l, x, y);
    }
  }

  // Waking from the tail puts a waiter in front of another one that was behind it exactly
  // if its priority is higher; so it turns the order of equals round.
  lemma {:induction false} WakeAllOrder(v: View, l: Lid, i: nat, j: nat)
    requires Wf(v) && l in v.lists && l != RUNNING && i < j < |v.lists[l]|
    ensures RUNNING in v.lists && v.lists[l][i] in v.prio && v.lists[l][j] in v.prio
    ensures Ahead(WakeAll(v, l).lists[RUNNING], v.lists[l][i], v.lists[l][j])
      <==> v.prio[v.lists[l][i]] > v.prio[v.lists[l][j]]
    decreases On(v, l)
  {
    hide Wf, Wake, WakeAll, On, Enqueue, Sorted, Distinct, Ahead;
    RunningListed(v);
    WakeAllStep(v, l);
    LastKnown(v, l);
    var s, n := v.lists[l], |v.lists[l]| - 1;
    var t := s[n];
    WakeLists(v, l, t);
    LastDropped(v, l);
    ListPrio(v, l, i, j);
    if j == n {
      assert s[..n][i] == s[i];
      JoinsRunning(v, l, t);
      WaiterBehind(Wake(v, t), l, s[i], t);
      AheadOne(WakeAll(v, l).lists[RUNNING], s[i], t);
    } else {
      assert s[..n][i] == s[i] && s[..n][j] == s[j];
      WakeAllOrder(Wake(v, t), l, i, j);
    }
  }

  lemma JoinsRunning(v: View, l: Lid, t: Tid)
    requires Wf(v) && l in v.lists && l != RUNNING && t in v.home && v.home[t] == Some(l)
    ensures RUNNING in Wake(v, t).lists && t in Wake(v, t).lists[RUNNING]
  {
    hide Wake;
    RunningListed(v);
  }

  lemma ListPrio(v: View, l: Lid, i: nat, j: nat)
    requires Wf(v) && l in v.lists && i < j < |v.lists[l]|
    ensures v.lists[l][i] in v.prio && v.lists[l][j] in v.prio && v.lists[l][i] != v.lists[l][j]
    ensures v.prio[v.lists[l][i]] >= v.prio[v.lists[l][j]]
  {
    InList(v, l);
    assert v.prio[v.lists[l][i]] >= v.prio[v.lists[l][j]];
  }

  // The waiters run in the order in which they waited.
  ghost predicate OrderKept(v: View, r: View, l: Lid) {
    && l in v.lists && RUNNING in r.lists
    && forall i, j {:trigger v.lists[l][i], v.lists[l][j]} :: 0 <= i < j < |v.lists[l]| ==>
         Ahead(r.lists[RUNNING], v.lists[l][i], v.lists[l][j])
  }

  ghost predicate SharedPriority(v: View, l: Lid) {
    && l in v.lists
    && exists i, j {:trigger v.lists[l][i], v.lists[l][j]} :: 0 <= i < j < |v.lists[l]|
         && v.lists[l][i] in v.prio && v.lists[l][j] in v.prio && v.prio[v.lists[l][i]] == v.prio[v.lists[l][j]]
  }

  // That is so exactly if no two waiters have the same priority.
  lemma OrderKeptExactly(v: View, l: Lid)
    requires Wf(v) && l in v.lists && l != RUNNING
    ensures OrderKept(v, WakeAll(v, l), l) <==> !SharedPriority(v, l)
  {
    hide Wf, WakeAll, Ahead;
    RunningListed(v);
    forall i, j | 0 <= i < j < |v.lists[l]|
      ensures v.lists[l][i] in v.prio && v.lists[l][j] in v.prio && v.prio[v.lists[l][i]] >= v.prio[v.lists[l][j]]
      ensures Ahead(WakeAll(v, l).lists[RUNNING], v.lists[l][i], v.lists[l][j])
        <==> v.prio[v.lists[l][i]] > v.prio[v.lists[l][j]]
    {
      WakeAllOrder(v, l, i, j);
      ListPrio(v, l, i, j);
    }
  }

  lemma SharedBy(v: View, l: Lid, x: Tid, y: Tid)
    requires Wf(v) && l in v.lists && x != y && x in v.home && v.home[x] == Some(l) && y in v.home
      && v.home[y] == Some(l)
    requires x in v.prio && y in v.prio && v.prio[x] == v.prio[y]
    ensures SharedPriority(v, l)
  {
    var s := v.lists[l];
    assert x in s && y in s;
    var i :| 0 <= i < |s| && s[i] == x;
    var j :| 0 <= j < |s| && s[j] == y;
    assert i < j ==> v.prio[s[i]] == v.prio[s[j]];
    assert j < i ==> v.prio[s[j]] == v.prio[s[i]];
  }

  // Two tasks of priority 1, and a list.
  function TwoReady(): View {
    hide Wf, Boot, NewList, Create;
    NewListIs(Boot(), 1);
    Create(Create(NewList(Boot(), 1), 1, 1, 0, false, false), 2, 1, 0, false, false)
  }

  lemma TwoReadyIs()
    ensures var v := TwoReady();
      && Wf(v) && v.lists.Keys == {RUNNING, 1} && v.prio == map[IDLE := 0, 1 := 1, 2 := 1]
      && v.home == map[IDLE := None, 1 := Some(RUNNING), 2 := Some(RUNNING)]
  {
    hide Wf, Boot, NewList, Create;
    NewListIs(Boot(), 1);
  }

  // When both wait on the list and everybody is woken, they come out in the other order.
  lemma OrderLost()
    ensures var v := TwoReady();
      && Wf(v) && 1 in v.home && 2 in v.home && 1 in v.lists
      && var w := Move(Move(v, 1, 1), 2, 1); w.home[1] == w.home[2] == Some(1) && !OrderKept(w, WakeAll(w, 1), 1)
  {
    hide Wf, TwoReady, OrderKept, SharedPriority, Move, WakeAll;
    TwoReadyIs();
    var w := Move(Move(TwoReady(), 1, 1), 2, 1);
    SharedBy(w, 1, 1, 2);
    OrderKeptExactly(w, 1);
  }

  // ----- gyros_yield, again and again

  function YieldTimes(v: View, n: nat): (r: View)
    requires Wf(v) && Settled(v)
    ensures Wf(r) && Settled(r)
  {
    hide Wf, Yield;
    if n == 0 then v
    else
      var w := YieldTimes(v, n - 1);
      YieldSettles(w);
      Yield(w)
  }

  lemma YieldSettles(v: View)
    requires Wf(v) && Settled(v)
    ensures v.current in v.home && v.home[v.current] == Some(RUNNING)
    ensures Settled(Yield(v))
  {
    hide Move;
    HeadIsTop(v, RUNNING);
    InRunning(Move(v, v.current, RUNNING), v.current);
  }

  // The first k running tasks are the ones with the highest priority.
  ghost predicate TopShared(v: View, k: nat) {
    && RUNNING in v.lists
    && var s := v.lists[RUNNING];
       && 0 < k <= |s| && s[0] in v.prio
       && (forall j {:trigger s[j]} :: 0 <= j < k ==> s[j] in v.prio && v.prio[s[j]] == v.prio[s[0]])
       && (forall j {:trigger s[j]} :: k <= j < |s| ==> s[j] in v.prio && v.prio[s[j]] < v.prio[s[0]])
  }

  // The first k elements rotated by i.
  function Rotated(s: seq<Tid>, k: nat, i: nat): (r: seq<Tid>)
    requires i <= k <= |s|
    ensures |r| == |s|
  {
    s[i..k] + s[..i] + s[k..]
  }

  // Where the yielding task goes.
  lemma {:induction false} PosIs(s: seq<Tid>, prio: map<Tid, nat>, p: nat, i: nat, k: nat)
    requires i <= k <= |s| && forall j :: 0 <= j < |s| ==> s[j] in prio
    requires forall j :: i <= j < k ==> p <= prio[s[j]]
    requires k < |s| ==> prio[s[k]] < p
    ensures Pos(s, prio, p, i) == k
    decreases k - i
  {
    if i < k {
      PosIs(s, prio, p, i + 1, k);
    }
  }

  lemma RequeueRotates(v: View, k: nat)
    requires TopShared(v, k)
    ensures var s := v.lists[RUNNING];
      && s[0] in v.prio && (forall j :: 0 <= j < |s[1..]| ==> s[1..][j] in v.prio)
      && Enqueue(s[1..], v.prio, s[0]) == Rotated(s, k, 1)
  {
    var s := v.lists[RUNNING];
    var r := s[1..];
    forall j {:trigger r[j]} | 0 <= j < |r|
      ensures r[j] in v.prio && (j < k - 1 ==> v.prio[s[0]] <= v.prio[r[j]])
        && (j >= k - 1 ==> v.prio[r[j]] < v.prio[s[0]])
    {
      assert r[j] == s[j + 1];
    }
    PosIs(r, v.prio, v.prio[s[0]], 0, k - 1);
    assert r[..k - 1] == s[1..k] && r[k - 1..] == s[k..] && s[..1] == [s[0]];
  }

  lemma DropFirst(s: seq<Tid>)
    requires s != []
    ensures Drop(s, s[0]) == s[1..]
  {
    assert IndexOf(s, s[0]) == 0;
  }

  lemma DetachFirst(v: View)
    requires Wf(v) && Settled(v)
    ensures v.current in v.home && v.home[v.current] == Some(RUNNING) && v.current in v.prio
    ensures Detach(v, v.current) ==
      v.(lists := v.lists[RUNNING := v.lists[RUNNING][1..]], home := v.home[v.current := None])
  {
    HeadIsTop(v, RUNNING);
    DropFirst(v.lists[RUNNING]);
    hide Wf, Drop;
  }

  lemma AttachIs(v: View, t: Tid, l: Lid)
    requires Wf(v) && t in v.home && v.home[t].None? && l in v.lists
    ensures t in v.prio && (forall j :: 0 <= j < |v.lists[l]| ==> v.lists[l][j] in v.prio)
    ensures Attach(v, t, l) == v.(lists := v.lists[l := Enqueue(v.lists[l], v.prio, t)], home := v.home[t := Some(l)])
  {
    InList(v, l);
  }

  lemma YieldIs(v: View)
    requires Wf(v) && Settled(v)
    ensures v.current in v.home && v.home[v.current] == Some(RUNNING)
    ensures v.current in v.prio && (forall j :: 0 <= j < |v.lists[RUNNING][1..]| ==> v.lists[RUNNING][1..][j] in v.prio)
    ensures Move(v, v.current, RUNNING) ==
      v.(lists := v.lists[RUNNING := Enqueue(v.lists[RUNNING][1..], v.prio, v.current)])
  {
    hide Wf, Detach, Attach, Enqueue;
    DetachFirst(v);
    var s, t, w := v.lists[RUNNING], v.current, Detach(v, v.current);
    AttachIs(w, t, RUNNING);
    assert v.home[t := None][t := Some(RUNNING)] == v.home;
    var e := Enqueue(s[1..], v.prio, t);
    assert v.lists[RUNNING := s[1..]][RUNNING := e] == v.lists[RUNNING := e];
  }

  // One yield rotates the tasks that share the top priority by one place.
  lemma YieldRotates(v: View, k: nat)
    requires Wf(v) && Settled(v) && TopShared(v, k)
    ensures v.current in v.home
    ensures Yield(v) ==
      v.(lists := v.lists[RUNNING := Rotated(v.lists[RUNNING], k, 1)], current := Rotated(v.lists[RUNNING], k, 1)[0])
  {
    hide Wf, Move, Enqueue, TopShared;
    YieldIs(v);
    RequeueRotates(v, k);
    TopSome(v, k);
  }

  lemma TopSome(v: View, k: nat)
    requires TopShared(v, k)
    ensures RUNNING in v.lists && |v.lists[RUNNING]| > 0 && k <= |v.lists[RUNNING]|
  {
  }

  // Rotating by one place, i + 1 times, is rotating by i + 1 places.
  lemma RotateMore(s: seq<Tid>, k: nat, i: nat)
    requires i < k <= |s|
    ensures Rotated(Rotated(s, k, i), k, 1) == Rotated(s, k, i + 1)
  {
  }

  lemma TopRotated(v: View, r: View, k: nat, i: nat)
    requires TopShared(v, k) && i < k && r.prio == v.prio
    requires r.lists == v.lists[RUNNING := Rotated(v.lists[RUNNING], k, i)]
    ensures TopShared(r, k)
  {
    var s := v.lists[RUNNING];
    forall j | 0 <= j < |s|
      ensures Rotated(s, k, i)[j] == if j < k - i then s[j + i] else if j < k then s[j - (k - i)] else s[j]
    {
    }
  }

  // If k tasks share the top priority and each head yields, after i yields they are rotated
  // by i places and nothing else has changed.
  lemma {:induction false} RoundRobin(v: View, k: nat, i: nat)
    requires Wf(v) && Settled(v) && TopShared(v, k) && i <= k
    ensures YieldTimes(v, i) ==
      v.(lists := v.lists[RUNNING := Rotated(v.lists[RUNNING], k, i)], current := Rotated(v.lists[RUNNING], k, i)[0])
    ensures i < k ==> YieldTimes(v, i).current == v.lists[RUNNING][i]
  {
    hide Wf, Yield;
    var s := v.lists[RUNNING];
    if i == 0 {
      assert Rotated(s, k, 0) == s;
      assert v.lists[RUNNING := s] == v.lists;
    } else {
      RoundRobin(v, k, i - 1);
      var w := YieldTimes(v, i - 1);
      TopRotated(v, w, k, i - 1);
      YieldRotates(w, k);
      RotateMore(s, k, i - 1);
      assert v.lists[RUNNING := Rotated(s, k, i - 1)][RUNNING := Rotated(s, k, i)]
        == v.lists[RUNNING := Rotated(s, k, i)];
    }
  }

  // Each of the k tasks is current exactly once in k yields, and then everything is as
  // before.
  lemma RoundRobinOnce(v: View, k: nat, t: Tid)
    requires Wf(v) && Settled(v) && TopShared(v, k)
    ensures YieldTimes(v, k) == v
    ensures t in v.lists[RUNNING][..k] ==>
      exists i ::
        0 <= i < k && YieldTimes(v, i).current == t
          && forall j :: 0 <= j < k && j != i ==> YieldTimes(v, j).current != t
  {
    hide YieldTimes;
    var s := v.lists[RUNNING];
    RoundRobin(v, k, k);
    assert Rotated(s, k, k) == s;
    assert v.lists[RUNNING := s] == v.lists;
    if t in s[..k] {
      var i :| 0 <= i < k && s[..k][i] == t;
      forall j | 0 <= j < k ensures YieldTimes(v, j).current == s[j] {
        RoundRobin(v, k, j);
      }
      assert Distinct(s);
      assert YieldTimes(v, i).current == t;
    }
  }

  // ----- the order of expiry

  // Wake the tasks of s, one after the other, as timed out.
  function ExpireEach(v: View, s: seq<Tid>): (r: View)
    requires Wf(v) && forall t :: t in s ==> t in v.home
    ensures Wf(r)
    decreases |s|
  {
    hide Wf, Expire;
    if s == [] then v
    else
      assert s[0] in s && forall t :: t in s[1..] ==> t in s;
      ExpireEach(Expire(v, s[0]), s[1..])
  }

  // How many of the pending deadlines have come.
  function DueCount(s: seq<Tid>, deadline: map<Tid, int>, now: int): (n: nat)
    ensures n <= |s|
    ensures forall j :: 0 <= j < n ==> s[j] in deadline && deadline[s[j]] <= now
    ensures n < |s| && s[n] in deadline ==> now < deadline[s[n]]
  {
    if s == [] || s[0] !in deadline || now < deadline[s[0]] then 0 else 1 + DueCount(s[1..], deadline, now)
  }

  // The tick wakes the tasks whose deadline has come in the order of their deadlines, first
  // armed first among equals, and leaves the rest of the timeout list as it is.
  lemma {:induction false} ExpiryOrder(v: View, now: int)
    requires Wf(v)
    ensures var n := DueCount(v.timeouts, v.deadline, now);
      && (forall t :: t in v.timeouts[..n] ==> t in v.home)
      && ExpireDue(v, now) == ExpireEach(v, v.timeouts[..n])
      && ExpireDue(v, now).timeouts == v.timeouts[n..]
    decreases |v.timeouts|
  {
    hide Wf, ExpireDue, Expire;
    TimeoutsKnown(v);
    ExpireStep(v, now);
    var s, n := v.timeouts, DueCount(v.timeouts, v.deadline, now);
    DueIff(v, now);
    if Due(v, now) {
      var w := Expire(v, s[0]);
      ExpiryOrder(w, now);
      assert n == 1 + DueCount(s[1..], v.deadline, now);
      assert s[..n][1..] == s[1..][..n - 1] && s[..n][0] == s[0];
      assert s[n..] == s[1..][n - 1..];
    } else {
      assert s[..0] == [] && s[0..] == s;
    }
  }

  lemma DueIff(v: View, now: int)
    requires Wf(v)
    ensures Due(v, now) <==> DueCount(v.timeouts, v.deadline, now) > 0
  {
    assert v.timeouts != [] ==> v.timeouts[0] in v.deadline;
  }
}
