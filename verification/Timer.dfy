// src/timer.c and the timer loop of gyros__tick (src/timeout.c).

module TimerSpec {
  import opened Seqs
  import Sched
  import Time
  import opened Order
  import opened Effects

  type Id = nat

  // The pending timers, first deadline first, with deadlines in unwrapped time.  A
  // period of 0 is a one-shot timer.
  datatype Timers = Timers(list: seq<Id>, deadline: map<Id, int>, period: map<Id, nat>)

  // A callback, and the deadline that it is for.
  datatype Call = Call(timer: Id, due: int)

  datatype Firing = Firing(v: Timers, calls: seq<Call>)

  ghost predicate Wf(v: Timers) {
    && Distinct(v.list)
    && (forall t {:trigger t in v.period} {:trigger t in v.deadline} :: t in v.list ==>
      t in v.deadline && t in v.period)
    && Sched.Timely(v.list, v.deadline)
  }

  // gyros__timer_schedule: behind the timers with the same deadline.
  function Schedule(v: Timers, t: Id): (r: Timers)
    requires Wf(v) && t in v.deadline && t in v.period && t !in v.list
    ensures Wf(r) && r == v.(list := r.list)
    ensures forall x :: x in r.list <==> x == t || x in v.list
  {
    ListKnown(v);
    var k := Sched.TimePos(v.list, v.deadline, v.deadline[t], 0);
    InsertMembers(v.list, k, t);
    Sched.ArmTimely(v.list, v.deadline, t, v.deadline[t]);
    assert v.deadline[t := v.deadline[t]] == v.deadline;
    v.(list := InsertAt(v.list, k, t))
  }

  lemma ListKnown(v: Timers)
    requires Wf(v)
    ensures forall j :: 0 <= j < |v.list| ==> v.list[j] in v.deadline && v.list[j] in v.period && v.list[j] in v.list
  {
    forall j | 0 <= j < |v.list| ensures v.list[j] in v.deadline && v.list[j] in v.period && v.list[j] in v.list {
      assert v.list[j] in v.list;
    }
  }

  // gyros_timer_stop
  function Stop(v: Timers, t: Id): (r: Timers)
    requires Wf(v)
    ensures Wf(r) && r == v.(list := r.list)
    ensures forall x :: x in r.list <==> x in v.list && x != t
  {
    DropMembers(v.list, t);
    Sched.DropTimely(v.list, v.deadline, t);
    v.(list := Drop(v.list, t))
  }

  // The stores to timeout and period of a timer that is not pending.
  function Program(v: Timers, t: Id, d: int, period: nat): (r: Timers)
    requires Wf(v) && t !in v.list
    ensures Wf(r) && r.list == v.list && r.deadline == v.deadline[t := d]
    ensures r.period == if t in v.period && v.period[t] == period then v.period else v.period[t := period]
  {
    ListKnown(v);
    assert t in v.period && v.period[t] == period ==> v.period[t := period] == v.period;
    v.(deadline := v.deadline[t := d], period := v.period[t := period])
  }

  // gyros_timer_start
  function Start(v: Timers, t: Id, d: int, period: nat): (r: Timers)
    requires Wf(v)
    ensures Wf(r) && forall x :: x in r.list <==> x == t || x in v.list
  {
    Schedule(Program(Stop(v, t), t, d, period), t)
  }

  // A started timer is pending at its deadline, with its period; stopping it again leaves
  // the list as if it had not been started, and other timers are as they were.
  lemma StartEffect(v: Timers, t: Id, d: int, period: nat)
    requires Wf(v)
    ensures var r := Start(v, t, d, period);
      && t in r.list && t in r.deadline && r.deadline[t] == d && t in r.period && r.period[t] == period
      && Stop(r, t).list == Stop(v, t).list
      && (forall x :: x != t && x in v.deadline ==> x in r.deadline && r.deadline[x] == v.deadline[x])
      && (forall x :: x != t && x in v.period ==> x in r.period && r.period[x] == v.period[x])
  {
    hide Wf, Stop, Schedule;
    StopSchedule(Program(Stop(v, t), t, d, period), t);
  }

  lemma StartListed(v: Timers, t: Id, d: int, period: nat)
    requires Wf(v)
    ensures forall x :: x in Start(v, t, d, period).list <==> x == t || x in v.list
    ensures forall x :: x in v.list ==> x in v.deadline
  {
  }

  lemma StopSchedule(p: Timers, t: Id)
    requires Wf(p) && t in p.deadline && t in p.period && t !in p.list
    ensures Stop(Schedule(p, t), t).list == p.list
  {
    ListKnown(p);
    hide Wf, Drop, InsertAt;
    DropInsert(p.list, Sched.TimePos(p.list, p.deadline, p.deadline[t], 0), t);
  }

  // A started timer goes behind exactly those with a deadline that is not later, and the
  // others keep their order.
  lemma StartOrder(v: Timers, t: Id, d: int, period: nat)
    requires Wf(v)
    ensures var r := Start(v, t, d, period).list;
      && t in r && ListKept(v.list, r, {t})
      && (forall x :: x in r && x != t ==> x in v.deadline && (Ahead(r, x, t) <==> v.deadline[x] <= d))
  {
    hide Wf, Sched.Timely, Sched.TimePos, ListKept, Ahead, Drop, InsertAt;
    var p := Program(Stop(v, t), t, d, period);
    ListParts(p);
    ListParts(Start(v, t, d, period));
    ListParts(v);
    TimeOrder(p.list, p.deadline, t, d);
    StopSchedule(p, t);
    var r := Start(v, t, d, period).list;
    DropAgain(v.list, t);
    DropKept(v.list, r, t);
    forall x | x in r && x != t ensures x in v.deadline && (Ahead(r, x, t) <==> v.deadline[x] <= d) {
      BeforeOrAfter(r, x, t);
    }
  }

  lemma ListParts(v: Timers)
    requires Wf(v)
    ensures Distinct(v.list) && Sched.Timely(v.list, v.deadline) && forall x :: x in v.list ==> x in v.deadline
  {
  }

  lemma DropAgain(s: seq<Id>, t: Id)
    requires Distinct(s)
    ensures t !in Drop(s, t) && Drop(Drop(s, t), t) == Drop(s, t)
  {
    DropMembers(s, t);
  }

  lemma BeforeOrAfter(s: seq<Id>, x: Id, t: Id)
    requires x in s && t in s && x != t
    ensures Ahead(s, x, t) <==> IndexOf(s, x) < IndexOf(s, t)
    ensures s[IndexOf(s, x)] == x && IndexOf(s, x) != IndexOf(s, t)
  {
  }

  // A stopped timer is not pending, and the others keep their order, deadlines and periods.
  lemma StopOrder(v: Timers, t: Id)
    requires Wf(v)
    ensures var r := Stop(v, t);
      t !in r.list && ListKept(v.list, r.list, {t}) && r.deadline == v.deadline && r.period == v.period
  {
    hide ListKept, Drop, Distinct;
    DropAgain(v.list, t);
    StopListed(v, t);
    DropKept(v.list, Stop(v, t).list, t);
  }

  lemma StopListed(v: Timers, t: Id)
    requires Wf(v)
    ensures Stop(v, t).list == Drop(v.list, t) && Distinct(v.list) && Distinct(Stop(v, t).list)
  {
  }

  ghost predicate Due(v: Timers, now: int)
    requires Wf(v)
  {
    v.list != [] && v.list[0] in v.list && v.deadline[v.list[0]] <= now
  }

  lemma FirstKnown(v: Timers)
    requires Wf(v) && v.list != []
    ensures v.list[0] in v.list && v.list[0] in v.deadline && v.list[0] in v.period
  {
  }

  // One round of the timer loop, up to the callback.
  function FireFirst(v: Timers): (r: Timers)
    requires Wf(v) && v.list != []
    ensures Wf(r)
  {
    hide Wf, Stop, Schedule, Program;
    FirstKnown(v);
    var t := v.list[0];
    var w := Stop(v, t);
    if v.period[t] == 0 then w
    else Schedule(Program(w, t, v.deadline[t] + v.period[t], v.period[t]), t)
  }

  lemma FireFirstIs(v: Timers)
    requires Wf(v) && v.list != []
    ensures var t, r := v.list[0], FireFirst(v);
      && t in v.list && t in v.deadline && t in v.period && r.period == v.period
      && r.deadline == (if v.period[t] == 0 then v.deadline else v.deadline[t := v.deadline[t] + v.period[t]])
      && (forall x :: x in r.list <==> x in v.list && (x == t ==> v.period[t] != 0))
  {
    hide Wf, Stop, Schedule, Program;
    FirstKnown(v);
  }

  // ----- how often a timer is due

  function Firings(v: Timers, now: int, t: Id): nat
    requires t in v.deadline && t in v.period
  {
    if now < v.deadline[t] then 0
    else if v.period[t] == 0 then 1
    else (now - v.deadline[t]) / v.period[t] + 1
  }

  // The firings that are due, over the timers of s.
  ghost function Pending(v: Timers, now: int, s: seq<Id>): nat
    requires forall t :: t in s ==> t in v.deadline && t in v.period
  {
    if s == [] then 0 else Firings(v, now, s[0]) + Pending(v, now, s[1..])
  }

  ghost predicate Known(v: Timers, s: seq<Id>) {
    forall t :: t in s ==> t in v.deadline && t in v.period
  }

  lemma {:induction false} PendingSame(v: Timers, w: Timers, now: int, s: seq<Id>)
    requires Known(v, s) && Known(w, s)
    requires forall t :: t in s ==> v.deadline[t] == w.deadline[t] && v.period[t] == w.period[t]
    ensures Pending(v, now, s) == Pending(w, now, s)
  {
    if s != [] {
      assert s[0] in s;
      PendingSame(v, w, now, s[1..]);
    }
  }

  lemma {:induction false} PendingInsert(v: Timers, now: int, s: seq<Id>, k: nat, t: Id)
    requires Known(v, s) && t in v.deadline && t in v.period && k <= |s|
    ensures Known(v, InsertAt(s, k, t))
    ensures Pending(v, now, InsertAt(s, k, t)) == Pending(v, now, s) + Firings(v, now, t)
  {
    hide Pending, Firings, InsertAt;
    InsertMembers(s, k, t);
    InsertHead(s, k, t);
    PendingHead(v, now, InsertAt(s, k, t));
    if k > 0 {
      PendingHead(v, now, s);
      PendingInsert(v, now, s[1..], k - 1, t);
    }
  }

  lemma InsertHead(s: seq<Id>, k: nat, t: Id)
    requires k <= |s|
    ensures var r := InsertAt(s, k, t);
      if k == 0 then r[0] == t && r[1..] == s else r[0] == s[0] && r[1..] == InsertAt(s[1..], k - 1, t)
  {
  }

  lemma PendingHead(v: Timers, now: int, s: seq<Id>)
    requires Known(v, s) && s != []
    ensures s[0] in s && Pending(v, now, s) == Firings(v, now, s[0]) + Pending(v, now, s[1..])
  {
  }

  // Catching up by one period takes one firing off what is due.
  lemma FiringsNext(now: int, d: int, p: nat)
    requires d <= now && p > 0
    ensures (if now < d + p then 0 else (now - (d + p)) / p + 1) == (now - d) / p
  {
    var q, m := (now - d) / p, (now - d) % p;
    assert now - d == q * p + m;
    if now >= d + p {
      assert now - (d + p) == (q - 1) * p + m;
      Quotient(now - (d + p), p, q - 1, m);
    } else {
      Quotient(now - d, p, 0, now - d);
    }
  }

  lemma Quotient(a: int, p: nat, q: int, m: int)
    requires p > 0 && a == q * p + m && 0 <= m < p
    ensures a / p == q
  {
    var e := a / p - q;
    assert a == a / p * p + a % p;
    assert e * p == m - a % p;
    if e > 0 {
      Time.MulMono(1, e, p);
    } else if e < 0 {
      Time.MulMono(e, -1, p);
    }
  }

  lemma StopFirst(v: Timers)
    requires Wf(v) && v.list != []
    ensures Stop(v, v.list[0]).list == v.list[1..]
  {
  }

  // A re-armed timer goes back into the rest of the list.
  lemma FireFirstList(v: Timers) returns (k: nat)
    requires Wf(v) && v.list != []
    ensures v.list[0] in v.period && k < |v.list|
    ensures v.period[v.list[0]] == 0 ==> FireFirst(v).list == v.list[1..]
    ensures v.period[v.list[0]] != 0 ==> FireFirst(v).list == InsertAt(v.list[1..], k, v.list[0])
  {
    hide Wf;
    ListKnown(v);
    var t := v.list[0];
    StopFirst(v);
    k := 0;
    if v.period[t] != 0 {
      var w := Program(Stop(v, t), t, v.deadline[t] + v.period[t], v.period[t]);
      ListKnown(w);
      k := Sched.TimePos(w.list, w.deadline, w.deadline[t], 0);
    }
  }

  // The loop makes progress.
  lemma FireFirstPending(v: Timers, now: int)
    requires Wf(v) && Due(v, now)
    ensures Known(v, v.list) && Known(FireFirst(v), FireFirst(v).list)
    ensures Pending(FireFirst(v), now, FireFirst(v).list) + 1 == Pending(v, now, v.list)
  {
    hide Wf, FireFirst, InsertAt, Firings, Known;
    FirstKnown(v);
    FireFirstIs(v);
    var t, s, r := v.list[0], v.list[1..], FireFirst(v);
    var k := FireFirstList(v);
    AllKnown(v);
    AllKnown(r);
    RestOther(v);
    RestKnown(v, r);
    PendingSame(v, r, now, s);
    if v.period[t] != 0 {
      FiringsStep(v, r, now, t);
      PendingInsert(r, now, s, k, t);
    } else {
      assert Firings(v, now, t) == 1 by { FiringsOnce(v, now, t); }
    }
  }

  lemma FiringsOnce(v: Timers, now: int, t: Id)
    requires t in v.deadline && t in v.period && v.period[t] == 0 && v.deadline[t] <= now
    ensures Firings(v, now, t) == 1
  {
  }

  lemma FiringsStep(v: Timers, r: Timers, now: int, t: Id)
    requires t in v.deadline && t in v.period && v.period[t] > 0 && v.deadline[t] <= now
    requires t in r.deadline && t in r.period && r.period[t] == v.period[t]
      && r.deadline[t] == v.deadline[t] + v.period[t]
    ensures Firings(v, now, t) == Firings(r, now, t) + 1
  {
    FiringsNext(now, v.deadline[t], v.period[t]);
  }

  lemma AllKnown(v: Timers)
    requires Wf(v)
    ensures Known(v, v.list)
  {
  }

  lemma RestKnown(v: Timers, r: Timers)
    requires v.list != [] && Known(v, v.list) && r.period == v.period && v.deadline.Keys <= r.deadline.Keys
    ensures Known(v, v.list[1..]) && Known(r, v.list[1..])
  {
  }

  lemma RestOther(v: Timers)
    requires Wf(v) && v.list != []
    ensures forall x :: x in v.list[1..] ==> x in v.list && x != v.list[0]
  {
  }

  ghost function PendingOf(v: Timers, now: int): nat
    requires Wf(v)
  {
    AllKnown(v);
    Pending(v, now, v.list)
  }

  // The timer loop of gyros__tick, with callbacks that leave the timers alone.
  ghost function FireDue(v: Timers, now: int): (r: Firing)
    requires Wf(v)
    ensures Wf(r.v)
    decreases Pending(v, now, v.list)
  {
    if Due(v, now) then
      FireFirstPending(v, now);
      var rest := FireDue(FireFirst(v), now);
      Firing(rest.v, [Call(v.list[0], v.deadline[v.list[0]])] + rest.calls)
    else Firing(v, [])
  }

  // ----- what the loop does

  // The deadlines of timer t among the calls, in order.
  function CallsOf(calls: seq<Call>, t: Id): seq<int> {
    if calls == [] then []
    else (if calls[0].timer == t then [calls[0].due] else []) + CallsOf(calls[1..], t)
  }

  // n deadlines, one period apart.
  function Dues(d: int, period: nat, n: nat): (r: seq<int>)
    ensures |r| == n
    ensures forall k :: 0 <= k < n ==> r[k] == d + k * period
    decreases n
  {
    if n == 0 then []
    else
      var r := Dues(d + period, period, n - 1);
      assert forall k {:trigger r[k - 1]} :: 0 < k < n ==> r[k - 1] == d + period + (k - 1) * period == d + k * period;
      [d] + r
  }

  // What happens to timer t.
  ghost predicate Fired(v: Timers, r: Firing, now: int, t: Id) {
    && t in v.deadline && t in v.period && t in r.v.deadline
    && CallsOf(r.calls, t) == Dues(v.deadline[t], v.period[t], Firings(v, now, t))
    && r.v.deadline[t] == v.deadline[t] + Firings(v, now, t) * v.period[t]
    && (t in r.v.list <==> v.period[t] != 0 || now < v.deadline[t])
    && (t in r.v.list ==> now < r.v.deadline[t])
  }

  // What happens to a timer that is not pending: nothing.
  ghost predicate Untouched(v: Timers, r: Firing, t: Id) {
    && t !in r.v.list && CallsOf(r.calls, t) == []
    && (t in v.deadline ==> t in r.v.deadline && r.v.deadline[t] == v.deadline[t])
  }

  ghost predicate InOrder(calls: seq<Call>, from: int, now: int) {
    && (forall i :: 0 <= i < |calls| ==> from <= calls[i].due <= now)
    && (forall i, j :: 0 <= i < j < |calls| ==> calls[i].due <= calls[j].due)
  }

  // Nothing that is listed is due any more.
  lemma NoneDue(v: Timers, now: int, t: Id)
    requires Wf(v) && !Due(v, now) && t in v.list
    ensures t in v.deadline && t in v.period && now < v.deadline[t] && Firings(v, now, t) == 0
  {
    var j :| 0 <= j < |v.list| && v.list[j] == t;
    assert v.list[0] in v.list && v.list[0] in v.deadline && v.list[j] in v.deadline;
    assert v.deadline[v.list[0]] <= v.deadline[v.list[j]];
  }

  lemma FirstIsEarliest(v: Timers, t: Id)
    requires Wf(v) && t in v.list
    ensures v.list[0] in v.deadline && t in v.deadline && t in v.period && v.deadline[v.list[0]] <= v.deadline[t]
  {
    var j :| 0 <= j < |v.list| && v.list[j] == t;
    assert v.list[0] in v.list && v.list[0] in v.deadline && v.list[j] in v.deadline;
    if j > 0 {
      assert v.deadline[v.list[0]] <= v.deadline[v.list[j]];
    }
  }

  lemma FireDueStep(v: Timers, now: int)
    requires Wf(v)
    ensures Due(v, now) ==> v.list != [] && v.list[0] in v.list && v.list[0] in v.deadline && v.list[0] in v.period
    ensures Due(v, now) ==> v.deadline[v.list[0]] <= now
    ensures Due(v, now) ==> Known(v, v.list) && Known(FireFirst(v), FireFirst(v).list)
    ensures Due(v, now) ==> Pending(FireFirst(v), now, FireFirst(v).list) < Pending(v, now, v.list)
    ensures Due(v, now) ==> FireDue(v, now).v == FireDue(FireFirst(v), now).v
    ensures Due(v, now) ==>
      FireDue(v, now).calls == [Call(v.list[0], v.deadline[v.list[0]])] + FireDue(FireFirst(v), now).calls
    ensures !Due(v, now) ==> FireDue(v, now) == Firing(v, [])
  {
    if Due(v, now) {
      FirstKnown(v);
      FireFirstPending(v, now);
    }
  }

  // A timer other than the first.
  lemma FiredOther(v: Timers, now: int, t: Id)
    requires Wf(v) && Due(v, now) && t != v.list[0] && t in v.list
    requires Fired(FireFirst(v), FireDue(FireFirst(v), now), now, t)
    ensures Fired(v, FireDue(v, now), now, t)
  {
    hide Wf, Due, FireFirst, FireDue, Dues;
    FireDueStep(v, now);
    FireFirstIs(v);
    ListKnown(v);
    var c, rest := Call(v.list[0], v.deadline[v.list[0]]), FireDue(FireFirst(v), now).calls;
    assert ([c] + rest)[1..] == rest;
  }

  // The first timer: the call goes in front of the ones for its later deadlines.
  lemma FiredFirst(v: Timers, now: int)
    requires Wf(v) && Due(v, now)
    requires v.list[0] in FireFirst(v).list ==> Fired(FireFirst(v), FireDue(FireFirst(v), now), now, v.list[0])
    requires v.list[0] !in FireFirst(v).list ==> Untouched(FireFirst(v), FireDue(FireFirst(v), now), v.list[0])
    ensures Fired(v, FireDue(v, now), now, v.list[0])
  {
    hide Wf, Due, FireFirst, FireDue, Firings;
    FireDueStep(v, now);
    FireFirstIs(v);
    var t := v.list[0];
    var d, p, w := v.deadline[t], v.period[t], FireFirst(v);
    var rest := FireDue(w, now).calls;
    assert ([Call(t, d)] + rest)[1..] == rest;
    if p != 0 {
      FiringsStep(v, w, now, t);
      var n := Firings(w, now, t);
      assert Dues(d, p, n + 1) == [d] + Dues(d + p, p, n);
      assert (n + 1) * p == n * p + p;
    } else {
      FiringsOnce(v, now, t);
      assert Dues(d, p, 1) == [d] + Dues(d + p, p, 0);
    }
  }

  lemma InOrderCons(c: Call, rest: seq<Call>, from: int, now: int)
    requires from <= c.due <= now && InOrder(rest, c.due, now)
    ensures InOrder([c] + rest, from, now)
  {
    var s := [c] + rest;
    forall i | 0 <= i < |s| ensures from <= s[i].due <= now {
      assert i > 0 ==> c.due <= rest[i - 1].due <= now;
    }
    forall i, j | 0 <= i < j < |s| ensures s[i].due <= s[j].due {
      assert c.due <= rest[j - 1].due;
      assert i > 0 ==> rest[i - 1].due <= rest[j - 1].due;
    }
  }

  // No deadline before `from` is pending.
  ghost predicate From(v: Timers, from: int) {
    forall t {:trigger t in v.list} :: t in v.list ==> t in v.deadline && from <= v.deadline[t]
  }

  // A tick at time now calls back every pending timer for each of its deadlines up to now,
  // in the order of the deadlines: a periodic timer once per period, a one-shot timer once
  // if it is due.  Afterwards every pending deadline is in the future, and those of
  // periodic timers have moved by whole periods.
  lemma {:induction false} FireDueEffect(v: Timers, now: int, from: int)
    requires Wf(v) && From(v, from)
    ensures var r := FireDue(v, now);
      && r.v.period == v.period && InOrder(r.calls, from, now)
      && (forall t :: t in v.list ==> Fired(v, r, now, t))
      && (forall t :: t !in v.list ==> Untouched(v, r, t))
    decreases Pending(v, now, v.list)
  {
    hide Wf, Due, FireFirst, FireDue, InOrder, Fired, Untouched;
    FireDueStep(v, now);
    var r := FireDue(v, now);
    if Due(v, now) {
      FireFirstIs(v);
      var w := FireFirst(v);
      var d := v.deadline[v.list[0]];
      FromFirst(v);
      FireDueEffect(w, now, d);
      InOrderCons(Call(v.list[0], d), FireDue(w, now).calls, from, now);
      forall t | t in v.list ensures Fired(v, r, now, t) {
        if t == v.list[0] {
          FiredFirst(v, now);
        } else {
          FiredOther(v, now, t);
        }
      }
      forall t | t !in v.list ensures Untouched(v, r, t) {
        UntouchedStep(v, now, t);
      }
    } else {
      forall t | t in v.list ensures Fired(v, r, now, t) {
        NothingFired(v, now, t);
      }
      QuietCalls(v, from, now);
    }
  }

  lemma QuietCalls(v: Timers, from: int, now: int)
    ensures InOrder([], from, now) && forall t :: t !in v.list ==> Untouched(v, Firing(v, []), t)
  {
  }

  lemma NothingFired(v: Timers, now: int, t: Id)
    requires Wf(v) && !Due(v, now) && t in v.list
    ensures Fired(v, Firing(v, []), now, t)
  {
    NoneDue(v, now, t);
  }

  lemma UntouchedStep(v: Timers, now: int, t: Id)
    requires Wf(v) && Due(v, now) && t !in v.list
    requires Untouched(FireFirst(v), FireDue(FireFirst(v), now), t)
    ensures Untouched(v, FireDue(v, now), t)
  {
    hide Wf, Due, FireFirst, FireDue;
    FireDueStep(v, now);
    FireFirstIs(v);
    var c, rest := Call(v.list[0], v.deadline[v.list[0]]), FireDue(FireFirst(v), now).calls;
    assert ([c] + rest)[1..] == rest;
  }

  // After the first deadline has been dealt with, no earlier one is pending.
  lemma FromFirst(v: Timers)
    requires Wf(v) && v.list != []
    ensures v.list[0] in v.deadline && From(FireFirst(v), v.deadline[v.list[0]])
  {
    hide Wf, FireFirst;
    FireFirstIs(v);
    forall t | t in FireFirst(v).list
      ensures t in FireFirst(v).deadline && v.deadline[v.list[0]] <= FireFirst(v).deadline[t] {
      FirstIsEarliest(v, t);
    }
  }

  // Timers with the same deadline are called in the order of the list, which is the one in
  // which they were started.
  ghost predicate CalledInOrder(calls: seq<Call>, a: Id, b: Id, d: int) {
    exists i, j :: 0 <= i < j < |calls| && calls[i] == Call(a, d) && calls[j] == Call(b, d)
  }

  lemma {:induction false} FireOrder(v: Timers, now: int, a: Id, b: Id)
    requires Wf(v) && a != b && Ahead(v.list, a, b)
    requires a in v.deadline && b in v.deadline && v.deadline[a] == v.deadline[b] <= now
    ensures CalledInOrder(FireDue(v, now).calls, a, b, v.deadline[a])
    decreases PendingOf(v, now)
  {
    hide Wf, FireFirst, FireDue, Fired, CalledInOrder, IndexOf, Dues, Firings;
    ListPeriods(v);
    DueNow(v, now, a);
    FireDueStep(v, now);
    var w, rest, d := FireFirst(v), FireDue(FireFirst(v), now).calls, v.deadline[a];
    FireFirstIs(v);
    PendingLess(v, now);
    if v.list[0] == a {
      CalledOnce(w, now, b);
      CallsFirst(rest, a, b, d);
    } else {
      FirstNot(v.list, a, b);
      StillAhead(v, a, b);
      FireOrder(w, now, a, b);
      CallsMore(rest, Call(v.list[0], v.deadline[v.list[0]]), a, b, d);
    }
  }

  lemma PendingLess(v: Timers, now: int)
    requires Wf(v) && Due(v, now)
    ensures PendingOf(FireFirst(v), now) < PendingOf(v, now)
  {
    hide Wf, FireFirst;
    FireFirstPending(v, now);
  }

  lemma ListPeriods(v: Timers)
    requires Wf(v)
    ensures forall x :: x in v.list ==> x in v.deadline && x in v.period
  {
  }

  lemma DueNow(v: Timers, now: int, t: Id)
    requires Wf(v) && t in v.list && t in v.deadline && v.deadline[t] <= now
    ensures Due(v, now)
  {
    FirstIsEarliest(v, t);
  }

  lemma FirstNot(s: seq<Id>, a: Id, b: Id)
    requires Ahead(s, a, b) && s[0] != a
    ensures s[0] != b && Ahead(s[1..], a, b)
  {
  }

  // A round for another timer leaves these in their order.
  lemma StillAhead(v: Timers, a: Id, b: Id)
    requires Wf(v) && v.list != [] && v.list[0] != a && v.list[0] != b && Ahead(v.list[1..], a, b)
    ensures Ahead(FireFirst(v).list, a, b)
  {
    hide FireFirst, IndexOf, InsertAt;
    var k := FireFirstList(v);
    var t, s := v.list[0], v.list[1..];
    if v.period[t] != 0 {
      assert t !in s;
      IndexShift(s, k, t, a);
      IndexShift(s, k, t, b);
    }
  }

  // A pending timer that is due is called for its deadline.
  lemma CalledOnce(v: Timers, now: int, t: Id)
    requires Wf(v) && t in v.list && t in v.deadline && v.deadline[t] <= now
    ensures exists j :: 0 <= j < |FireDue(v, now).calls| && FireDue(v, now).calls[j] == Call(t, v.deadline[t])
  {
    hide Wf, FireDue;
    ListPeriods(v);
    Since(v);
    FireDueEffect(v, now, if v.list == [] then 0 else v.deadline[v.list[0]]);
    FiringsSome(v, now, t);
    var calls := FireDue(v, now).calls;
    assert CallsOf(calls, t) == Dues(v.deadline[t], v.period[t], Firings(v, now, t));
    CallFound(calls, t);
  }

  lemma Since(v: Timers)
    requires Wf(v)
    ensures v.list != [] ==> v.list[0] in v.deadline && From(v, v.deadline[v.list[0]])
  {
    forall t | t in v.list
      ensures t in v.deadline && v.list[0] in v.deadline && v.deadline[v.list[0]] <= v.deadline[t] {
      FirstIsEarliest(v, t);
    }
  }

  lemma FiringsSome(v: Timers, now: int, t: Id)
    requires t in v.deadline && t in v.period && v.deadline[t] <= now
    ensures Firings(v, now, t) > 0 && Dues(v.deadline[t], v.period[t], Firings(v, now, t))[0] == v.deadline[t]
  {
  }

  lemma {:induction false} CallFound(calls: seq<Call>, t: Id)
    requires CallsOf(calls, t) != []
    ensures exists j :: 0 <= j < |calls| && calls[j] == Call(t, CallsOf(calls, t)[0])
  {
    if calls[0].timer == t {
      assert calls[0] == Call(t, CallsOf(calls, t)[0]);
    } else {
      CallFound(calls[1..], t);
      var j :| 0 <= j < |calls[1..]| && calls[1..][j] == Call(t, CallsOf(calls[1..], t)[0]);
      assert calls[j + 1] == Call(t, CallsOf(calls, t)[0]);
    }
  }

  lemma CallsFirst(rest: seq<Call>, a: Id, b: Id, d: int)
    requires exists j :: 0 <= j < |rest| && rest[j] == Call(b, d)
    ensures CalledInOrder([Call(a, d)] + rest, a, b, d)
  {
    var j :| 0 <= j < |rest| && rest[j] == Call(b, d);
    var s := [Call(a, d)] + rest;
    assert s[0] == Call(a, d) && s[j + 1] == Call(b, d);
  }

  lemma CallsMore(rest: seq<Call>, c: Call, a: Id, b: Id, d: int)
    requires CalledInOrder(rest, a, b, d)
    ensures CalledInOrder([c] + rest, a, b, d)
  {
    var i, j :| 0 <= i < j < |rest| && rest[i] == Call(a, d) && rest[j] == Call(b, d);
    var s := [c] + rest;
    assert s[i + 1] == Call(a, d) && s[j + 1] == Call(b, d);
  }
}

// The timers on the linked structure.
module TimerObjects {
  import opened Seqs
  import opened Lists
  import opened Time
  import opened TimerSpec
  import Sched

  class Timer {
    const id: Id
    const node: Node
    var timeout: AbsTime
    var period: RelTime

    // gyros_timer_init, but for the list node.
    constructor (id: Id)
      ensures this.id == id && fresh(node) && node.kind == TimerLink && node.container == id
    {
      this.id := id;
      node := new Node(TimerLink, id);
      timeout, period := *, *;
    }

    // The fields have these values; the deadline is unwrapped.
    ghost predicate Tied(deadline: int, period: nat)
      reads this
    {
      timeout == Wrap(deadline) && this.period == period
    }
  }

  ghost predicate Registered(timers: map<Id, Timer>, s: seq<Id>) {
    forall i {:trigger s[i] in timers} :: 0 <= i < |s| ==> s[i] in timers
  }

  ghost function Nodes(timers: map<Id, Timer>, s: seq<Id>): (r: seq<Node>)
    requires Registered(timers, s)
    ensures |r| == |s| && forall i :: 0 <= i < |s| ==> s[i] in timers && r[i] == timers[s[i]].node
  {
    seq(|s|, i requires 0 <= i < |s| && s[i] in timers => timers[s[i]].node)
  }

  ghost predicate Embedded(timers: map<Id, Timer>, head: Node) {
    && (forall t :: t in timers ==>
          timers[t].id == t && timers[t].node.kind == TimerLink && timers[t].node.container == t)
    && head.kind == TimerHead
  }

  // The rings: the timer list, and one per timer that is not pending.
  ghost predicate Linked(rings: map<Node, seq<Node>>, timers: map<Id, Timer>, head: Node, list: seq<Id>) {
    && head in rings
    && Registered(timers, list)
    && rings[head] == [head] + Nodes(timers, list)
    && (forall t :: t in timers && t !in list ==> timers[t].node in rings && rings[timers[t].node] == [timers[t].node])
  }

  lemma NodesWithout(timers: map<Id, Timer>, head: Node, s: seq<Id>, j: nat)
    requires Registered(timers, s) && j < |s|
    ensures Registered(timers, Without(s, j))
    ensures Without([head] + Nodes(timers, s), j + 1) == [head] + Nodes(timers, Without(s, j))
  {
    var r := Without(s, j);
    forall i | 0 <= i < |r| ensures r[i] in timers {
      assert s[if i < j then i else i + 1] in timers;
    }
  }

  lemma NodesInsert(timers: map<Id, Timer>, head: Node, s: seq<Id>, p: nat, t: Id)
    requires Registered(timers, s) && p <= |s| && t in timers
    ensures Registered(timers, InsertAt(s, p, t))
    ensures InsertAt([head] + Nodes(timers, s), p + 1, timers[t].node) == [head] + Nodes(timers, InsertAt(s, p, t))
  {
    var r := InsertAt(s, p, t);
    forall i | 0 <= i < |r| ensures r[i] in timers {
      assert i != p ==> s[if i < p then i else i - 1] in timers;
    }
  }

  // Where the node of a timer is, and what is left when it is removed.
  lemma StopLinked(rings: map<Node, seq<Node>>, timers: map<Id, Timer>, head: Node, v: Timers, t: Id)
      returns (k: Node, i: nat)
    requires Wf(v) && Embedded(timers, head) && Linked(rings, timers, head, v.list) && t in timers
    ensures At(rings, k, i, timers[t].node)
    ensures Linked(RingsRemove(rings, k, i), timers, head, Stop(v, t).list)
  {
    if t !in v.list {
      k, i := timers[t].node, 0;
    } else {
      var j := IndexOf(v.list, t);
      k, i := head, j + 1;
      NodesWithout(timers, head, v.list, j);
      WithoutMembers(v.list, j);
    }
  }

  lemma ScheduleLinked(rings: map<Node, seq<Node>>, timers: map<Id, Timer>, head: Node, s: seq<Id>, t: Id, p: nat)
    requires Embedded(timers, head) && Linked(rings, timers, head, s) && t in timers && t !in s && p <= |s|
    ensures timers[t].node in rings && rings[timers[t].node] == [timers[t].node] && timers[t].node != head
    ensures var i := if p == |s| then 0 else p + 1;
      i < |rings[head]| && Linked(RingsInsert(rings, timers[t].node, head, i), timers, head, InsertAt(s, p, t))
  {
    NodesInsert(timers, head, s, p, t);
    InsertMembers(s, p, t);
  }

  // A timer that has just been initialised is on a ring of its own.
  lemma AddedLinked(rings: map<Node, seq<Node>>, timers: map<Id, Timer>, head: Node, list: seq<Id>, t: Timer)
    requires Embedded(timers, head) && Linked(rings, timers, head, list)
    requires t.id !in timers && t.node.kind == TimerLink && t.node.container == t.id && t.node != head
    ensures Embedded(timers[t.id := t], head)
    ensures Linked(rings[t.node := [t.node]], timers[t.id := t], head, list)
  {
    assert Nodes(timers[t.id := t], list) == Nodes(timers, list);
  }

  lemma ProgramFields(v: Timers, t: Id, d: int, period: nat)
    requires Wf(v) && t !in v.list
    ensures var r := Program(v, t, d, period);
      && r.list == v.list && r.deadline == v.deadline[t := d] && r.period.Keys == v.period.Keys + {t}
        && r.period[t] == period
      && forall x :: x != t && x in v.period ==> r.period[x] == v.period[x]
  {
  }

  // The timer ring, node by node.
  lemma ListRing(rings: map<Node, seq<Node>>, timers: map<Id, Timer>, head: Node, list: seq<Id>)
      returns (ring: seq<Node>)
    requires Embedded(timers, head) && Linked(rings, timers, head, list)
    ensures head in rings && ring == rings[head] && |ring| == |list| + 1 && ring[0] == head
    ensures forall j {:trigger ring[j + 1]} {:trigger list[j] in timers} :: 0 <= j < |list| ==>
      list[j] in timers && timers[list[j]].id == list[j] && ring[j + 1] == timers[list[j]].node
      && ring[j + 1].container == list[j] && ring[j + 1] != head
  {
    ring := rings[head];
  }

  lemma WrapAdd(d: int, p: nat)
    ensures Wrap(Wrap(d) + p) == Wrap(d + p)
  {
    ModAdd(Wrap(d) + p, d / MODULUS);
  }

  class TimerQueue {
    const head: Node                // _gyros.timers
    const links: Links
    var timers: map<Id, Timer>      // TIMER: from a node's container to the timer
    ghost var view: Timers
    ghost var timerSet: set<object>
    ghost var calls: seq<Call>      // the callbacks made so far

    ghost predicate Owned()
      reads this`timers, this`timerSet, links`repr
    {
      && this !in links.repr && this !in timerSet && links !in timerSet && head in links.repr
      && timerSet !! links.repr
      && (forall t {:trigger t in timers} :: t in timers ==> timers[t].id == t && timers[t] in timerSet)
    }

    ghost predicate Shape()
      reads this, links, links.repr
    {
      && Owned() && links.Valid()
      && Embedded(timers, head) && Wf(view)
      && Linked(links.m.rings, timers, head, view.list)
      && (forall t {:trigger t in timers} :: t in timers ==> t in view.deadline && t in view.period)
    }

    // The fields of the pending timers; those of other timers do not matter.
    ghost predicate Fields()
      reads this, links`repr, timerSet
      requires Owned()
    {
      forall t {:trigger t in view.list} :: t in view.list ==>
        t in timers && t in view.deadline && t in view.period && timers[t].Tied(view.deadline[t], view.period[t])
    }

    ghost predicate Valid()
      reads this, links, links.repr, timerSet
    {
      Shape() && Fields()
    }

    ghost predicate IsTimer(t: Timer)
      reads this
    {
      t.id in timers && timers[t.id] == t
    }

    // An empty timer list.
    constructor ()
      ensures Valid() && view == Timers([], map[], map[]) && timers == map[] && calls == []
      ensures fresh(links) && fresh(links.repr) && timerSet == {}
    {
      var h := new Node(TimerHead, 0);
      var l := new Links();
      timers, view, timerSet, calls := map[], Timers([], map[], map[]), {}, [];
      head, links := h, l;
      new;
      l.Init(h);
    }

    // gyros_timer_init, for a timer from outside.
    method TimerInit(t: Timer)
      requires Valid() && t.id !in timers && t !in links.repr
      requires t.node !in links.repr && t.node.kind == TimerLink && t.node.container == t.id
      requires t.node !in timerSet
      modifies this`view, this`timers, this`timerSet, links, t.node
      ensures Valid() && timers == old(timers)[t.id := t] && links.repr == old(links.repr) + {t.node}
      ensures Wf(old(view)) && t.id !in old(view).list && view == Program(old(view), t.id, 0, 0)
    {
      hide Partition, Links.Valid, Linked, Embedded, Wf, Program, Timer.Tied;
      NodeNew(t);
      ghost var rings := links.m.rings;
      LinkNode(t.node);
      AddedLinked(rings, timers, head, view.list, t);
      ProgramFields(view, t.id, 0, 0);
      Know(t, Program(view, t.id, 0, 0));
    }

    // GYROS__LIST_NODE_INIT: the timers do not notice.
    method LinkNode(n: Node)
      requires Owned() && Fields() && links.Valid() && n !in links.m.ringOf && n !in timerSet
      modifies links, n
      ensures links.Valid() && links.m.rings == old(links.m.rings)[n := [n]] && links.repr == old(links.repr) + {n}
      ensures Owned() && Fields()
    {
      hide Partition, Links.Valid, Linked, Embedded, Wf, Timer.Tied;
      links.Init(n);
    }

    // The timer of a node that has been initialised is known.
    method Know(t: Timer, ghost v: Timers)
      requires Owned() && Fields() && links.Valid() && t.id !in timers && t !in links.repr && t.id !in view.list
      requires Embedded(timers[t.id := t], head) && Wf(v) && Linked(links.m.rings, timers[t.id := t], head, view.list)
      requires v.list == view.list && v.deadline == view.deadline[t.id := 0]
        && v.period.Keys == view.period.Keys + {t.id}
      requires forall x :: x != t.id && x in view.period ==> v.period[x] == view.period[x]
      requires forall x {:trigger x in timers} :: x in timers ==> x in view.deadline && x in view.period
      modifies this`view, this`timers, this`timerSet
      ensures view == v && timers == old(timers)[t.id := t] && Valid()
    {
      hide Partition, Links.Valid, Linked, Embedded, Wf, Timer.Tied;
      timers := timers[t.id := t];
      timerSet := timerSet + {t};
      view := v;
    }

    // A node from outside is on no ring, and its timer is not pending.
    lemma NodeNew(t: Timer)
      requires Shape() && t.node !in links.repr && t.id !in timers
      ensures t.node !in links.m.ringOf && t.id !in view.list
    {
    }

    // gyros__list_remove on the node of a timer; the body of gyros_timer_stop.
    method StopTimer(t: Timer)
      requires Valid() && IsTimer(t)
      modifies this`view, links.repr
      ensures Valid() && view == Stop(old(view), t.id) && links.repr == old(links.repr)
    {
      hide Partition, Links.Valid, Linked, Embedded, Wf, Stop, Timer.Tied, At, RingsRemove;
      ghost var k, i := StopLinked(links.m.rings, timers, head, view, t.id);
      view := Stop(view, t.id);
      links.Remove(t.node, k, i);
    }

    // The stores to the fields of a timer that is not pending.
    method Write(t: Timer, timeout: AbsTime, period: RelTime, ghost d: int)
      requires Valid() && IsTimer(t) && t.id !in view.list && timeout == Wrap(d) && period >= 0
      modifies this`view, t
      ensures Valid() && view == Program(old(view), t.id, d, period) && t.Tied(d, period)
    {
      hide Partition, Links.Valid, Linked, Embedded, Wf, Program, Wrap;
      ProgramFields(view, t.id, d, period);
      view := Program(view, t.id, d, period);
      t.timeout := timeout;
      t.period := period;
    }

    // The pending deadlines differ from time d by less than half the range of the clock.
    ghost predicate Near(d: int)
      reads this
    {
      forall t {:trigger t in view.list} :: t in view.list ==>
        t in view.deadline && -HALF <= d - view.deadline[t] < HALF
    }

    // The scan of gyros__timer_schedule: the node in front of which the timer belongs.
    method ScanTimers(t: Timer) returns (i: Node, ghost p: nat)
      requires Valid() && IsTimer(t) && t.id !in view.list && t.id in view.deadline && t.id in view.period
      requires t.Tied(view.deadline[t.id], view.period[t.id]) && Near(view.deadline[t.id])
      ensures forall j :: 0 <= j < |view.list| ==> view.list[j] in view.deadline
      ensures t.id in view.deadline && p == Sched.TimePos(view.list, view.deadline, view.deadline[t.id], 0)
      ensures head in links.m.rings && |links.m.rings[head]| == |view.list| + 1
      ensures i == links.m.rings[head][if p == |view.list| then 0 else p + 1]
    {
      hide Partition, Links.Valid, Linked, Embedded, Wf, Compare, Wrap;
      ghost var s, d := view.list, view.deadline[t.id];
      ghost var ring := ListRing(links.m.rings, timers, head, view.list);
      ListKnown(view);
      p := 0;
      i := links.Next(head, head, 0);
      while i != head
        invariant p <= |s| && i == ring[if p == |s| then 0 else p + 1]
        invariant Sched.TimePos(s, view.deadline, d, p) == Sched.TimePos(s, view.deadline, d, 0)
        decreases |s| - p
      {
        assert i == ring[p + 1] && i.container == s[p] && s[p] in timers && s[p] in s;
        CompareExact(d, view.deadline[s[p]]);
        if Compare(t.timeout, timers[i.container].timeout) < 0 {
          break;
        }
        i := links.Next(i, head, p + 1);
        p := p + 1;
      }
    }

    // gyros__list_insert_before on the node of a timer.
    method InsertTimer(t: Timer, i: Node, ghost p: nat, ghost v: Timers)
      requires Valid() && IsTimer(t) && t.id !in view.list && p <= |view.list|
      requires t.id in view.deadline && t.id in view.period && t.Tied(view.deadline[t.id], view.period[t.id])
      requires Wf(v) && v == view.(list := InsertAt(view.list, p, t.id))
      requires head in links.m.rings && |links.m.rings[head]| == |view.list| + 1
      requires i == links.m.rings[head][if p == |view.list| then 0 else p + 1]
      modifies this`view, links.repr
      ensures Valid() && view == v && links.repr == old(links.repr)
    {
      hide Partition, Links.Valid, Linked, Embedded, Wf, Timer.Tied, RingsInsert, InsertAt;
      ScheduleLinked(links.m.rings, timers, head, view.list, t.id, p);
      InsertMembers(view.list, p, t.id);
      ghost var n := |view.list|;
      view := v;
      links.InsertBefore(t.node, i, head, if p == n then 0 else p + 1);
    }

    // gyros__timer_schedule
    method ScheduleTimer(t: Timer)
      requires Valid() && IsTimer(t) && t.id !in view.list && t.id in view.deadline && t.id in view.period
      requires t.Tied(view.deadline[t.id], view.period[t.id]) && Near(view.deadline[t.id])
      modifies this`view, links.repr
      ensures t.id in old(view).deadline && t.id in old(view).period && Wf(old(view))
        && view == Schedule(old(view), t.id)
      ensures Valid() && links.repr == old(links.repr)
    {
      hide Partition, Links.Valid, Linked, Embedded, Wf, Timer.Tied;
      var i, p := ScanTimers(t);
      InsertTimer(t, i, p, Schedule(view, t.id));
    }

    // gyros_timer_start, for the unwrapped deadline d.
    method StartTimer(t: Timer, time: AbsTime, period: RelTime, ghost d: int)
      requires Valid() && IsTimer(t) && time == Wrap(d) && period >= 0 && Near(d)
      modifies this`view, links.repr, t
      ensures Wf(old(view)) && view == Start(old(view), t.id, d, period)
      ensures Valid() && links.repr == old(links.repr)
    {
      hide Partition, Links.Valid, Linked, Embedded, Wf, Timer.Tied, Stop, Program, Schedule, Wrap;
      StopTimer(t);
      ProgramFields(view, t.id, d, period);
      Write(t, time, period, d);
      ScheduleTimer(t);
    }

    // The test of the timer loop: the first timer, if it is due.
    method FirstDue(now: AbsTime, ghost c: int) returns (t: Timer?)
      requires Valid() && now == Wrap(c) && Near(c)
      ensures Wf(view) && (t == null <==> !Due(view, c))
      ensures t != null ==> IsTimer(t) && t in timerSet && view.list != [] && t.id == view.list[0]
    {
      hide Partition, Links.Valid, Linked, Embedded, Compare, Wrap;
      ghost var ring := ListRing(links.m.rings, timers, head, view.list);
      ListKnown(view);
      var empty := links.Empty(head);
      if empty {
        return null;
      }
      var n := links.Next(head, head, 0);
      assert n == ring[0 + 1] && view.list[0] in timers;
      t := timers[n.container];
      CompareExact(c, view.deadline[t.id]);
      if Compare(now, t.timeout) < 0 {
        return null;
      }
    }

    // The body of the timer loop: take the timer off the list, put it back one period
    // later if it is periodic, and call it.
    method Fire(t: Timer, ghost c: int)
      requires Valid() && IsTimer(t) && view.list != [] && t.id == view.list[0] && t.id in view.period
        && t.id in view.deadline
      requires view.period[t.id] != 0 ==> Near(view.deadline[t.id] + view.period[t.id])
      modifies this`view, this`calls, links.repr, t
      ensures Wf(old(view)) && view == FireFirst(old(view))
      ensures calls == old(calls) + [Call(t.id, old(view).deadline[t.id])]
      ensures Valid() && links.repr == old(links.repr)
    {
      hide Partition, Links.Valid, Linked, Embedded, Wf, Stop, Program, Schedule, Wrap;
      ghost var d := view.deadline[t.id];
      assert t.id in view.list;
      StopTimer(t);
      if t.period != 0 {
        WrapAdd(d, t.period);
        ProgramFields(view, t.id, d + t.period, t.period);
        Write(t, Wrap(t.timeout + t.period), t.period, d + t.period);
        ScheduleTimer(t);
      }
      calls := calls + [Call(t.id, d)];
    }

    // From lo on, there is half a range of the clock that holds the present time, every
    // pending deadline, and every deadline that a periodic timer gets in catching up.
    ghost predicate Window(lo: int, c: int)
      reads this
    {
      && lo <= c < lo + HALF
      && (forall t {:trigger t in view.list} :: t in view.list ==>
            t in view.deadline && t in view.period && lo <= view.deadline[t] < lo + HALF
              && c + view.period[t] < lo + HALF)
    }

    lemma WindowNear(lo: int, c: int)
      requires Window(lo, c)
      ensures Near(c)
      ensures view.list != [] ==>
        view.list[0] in view.list && view.list[0] in view.deadline && view.list[0] in view.period
      ensures view.list != [] && view.deadline[view.list[0]] <= c ==>
        Near(view.deadline[view.list[0]] + view.period[view.list[0]])
    {
      assert view.list != [] ==> view.list[0] in view.list;
    }

    // One round of the timer loop.
    method FireNext(t: Timer, now: AbsTime, ghost c: int, ghost lo: int) returns (next: Timer?)
      requires Valid() && now == Wrap(c) && Window(lo, c) && Wf(view) && Due(view, c)
      requires IsTimer(t) && view.list != [] && t.id == view.list[0]
      modifies this`view, this`calls, links.repr, t
      ensures Wf(old(view)) && t.id in old(view).deadline && view == FireFirst(old(view))
      ensures calls == old(calls) + [Call(t.id, old(view).deadline[t.id])]
      ensures Valid() && links.repr == old(links.repr) && Window(lo, c)
      ensures Wf(view) && (next == null <==> !Due(view, c))
      ensures next != null ==> IsTimer(next) && next in timerSet && view.list != [] && next.id == view.list[0]
    {
      hide TimerQueue.Valid, Wf, FireFirst, Near, Wrap, Due;
      WindowNear(lo, c);
      FireDueStep(view, c);
      ghost var w := view;
      FireFirstIs(w);
      Fire(t, c);
      WindowKept(w, lo, c);
      WindowNear(lo, c);
      next := FirstDue(now, c);
    }

    // The timer loop of gyros__tick.
    method TickTimers(now: AbsTime, ghost c: int, ghost lo: int)
      requires Valid() && now == Wrap(c) && Window(lo, c)
      modifies this`view, this`calls, links.repr, timerSet
      ensures Wf(old(view)) && view == FireDue(old(view), c).v && calls == old(calls) + FireDue(old(view), c).calls
      ensures Valid() && links.repr == old(links.repr) && Window(lo, c)
    {
      hide TimerQueue.Valid, Wf, FireDue, FireFirst, Near, Window, Wrap, Due, Pending, Known;
      WindowNear(lo, c);
      var t := FirstDue(now, c);
      ghost var v := view;
      AllKnown(v);
      ValidOwned();
      while t != null
        invariant Valid() && timerSet == old(timerSet) && links.repr == old(links.repr) && Window(lo, c)
        invariant Wf(view) && (t == null <==> !Due(view, c))
        invariant t != null ==> IsTimer(t) && t in timerSet && view.list != [] && t.id == view.list[0]
        invariant FireDue(view, c).v == FireDue(v, c).v
        invariant calls + FireDue(view, c).calls == old(calls) + FireDue(v, c).calls
        invariant Known(view, view.list)
        decreases PendingOf(view, c)
      {
        FireDueStep(view, c);
        ValidOwned();
        t := FireNext(t, now, c, lo);
      }
      FireDueStep(view, c);
    }

    lemma TimerKnown(t: Timer)
      requires Valid() && IsTimer(t)
      ensures t in timerSet && t !in links.repr
    {
    }

    lemma ValidWf()
      requires Valid()
      ensures Wf(view)
    {
    }

    lemma ValidOwned()
      requires Valid()
      ensures Owned()
    {
    }

    lemma WindowKept(w: Timers, lo: int, c: int)
      requires Wf(w) && Due(w, c) && view == FireFirst(w)
      requires lo <= c < lo + HALF
      requires forall t {:trigger t in w.list} :: t in w.list ==>
        t in w.deadline && t in w.period && lo <= w.deadline[t] < lo + HALF && c + w.period[t] < lo + HALF
      ensures Window(lo, c)
    {
      hide Wf, FireFirst;
      FireFirstIs(w);
    }
  }
}
