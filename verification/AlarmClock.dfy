// src/alarm_clock.c: one deadline for all the tasks that wait for an alarm clock.

module AlarmSpec {
  import opened Seqs
  import opened Sched
  import opened Order

  // The tasks of s that are not in w, in their order.
  function Except(s: seq<Tid>, w: seq<Tid>): seq<Tid> {
    if s == [] then [] else (if s[0] in w then [] else [s[0]]) + Except(s[1..], w)
  }

  // gyros__list_remove on the timeout nodes of the tasks of s.
  function UntimeAll(v: View, s: seq<Tid>): (r: View)
    requires Wf(v)
    ensures Wf(r) && r == v.(timeouts := r.timeouts)
    ensures forall t :: t in r.timeouts <==> t in v.timeouts && t !in s
    decreases |s|
  {
    hide Wf, Untime;
    if s == [] then v else UntimeAll(Untime(v, s[0]), s[1..])
  }

  // Deadline d belongs at position p of the timeout list.
  ghost predicate Fits(v: View, p: nat, d: int) {
    && p <= |v.timeouts|
    && (forall j {:trigger v.timeouts[j] in v.deadline} :: 0 <= j < |v.timeouts| ==> v.timeouts[j] in v.deadline)
    && (forall j {:trigger v.deadline[v.timeouts[j]]} :: 0 <= j < p ==> v.deadline[v.timeouts[j]] <= d)
    && (forall j {:trigger v.deadline[v.timeouts[j]]} :: p <= j < |v.timeouts| ==> d <= v.deadline[v.timeouts[j]])
  }

  // Task t linked at position p of the timeout list, at deadline d.
  function Put(v: View, t: Tid, p: nat, d: int): (r: View)
    requires p <= |v.timeouts|
  {
    v.(timeouts := InsertAt(v.timeouts, p, t), deadline := v.deadline[t := d], timedOut := v.timedOut[t := false])
  }

  lemma PutTimely(v: View, t: Tid, p: nat, d: int)
    requires Wf(v) && t !in v.timeouts && Fits(v, p, d)
    ensures Timely(Put(v, t, p, d).timeouts, Put(v, t, p, d).deadline) && Fits(Put(v, t, p, d), p + 1, d)
  {
    var s, r := v.timeouts, Put(v, t, p, d);
    forall j | 0 <= j < |r.timeouts|
      ensures r.timeouts[j] in r.deadline
      ensures j <= p ==> r.deadline[r.timeouts[j]] <= d
      ensures j >= p ==> d <= r.deadline[r.timeouts[j]]
    {
      if j != p {
        var j' := if j < p then j else j - 1;
        assert s[j'] in v.deadline && s[j'] in s;
        assert v.deadline[s[j']] == r.deadline[r.timeouts[j]];
      }
    }
    forall i, j | 0 <= i < j < |r.timeouts| ensures r.deadline[r.timeouts[i]] <= r.deadline[r.timeouts[j]] {
      if !(i <= p <= j) {
        var i', j' := if i < p then i else i - 1, if j < p then j else j - 1;
        assert s[i'] in v.deadline && s[j'] in v.deadline && s[i'] in s && s[j'] in s;
        assert v.deadline[s[i']] <= v.deadline[s[j']];
      }
    }
  }

  lemma PutWf(v: View, t: Tid, p: nat, d: int)
    requires Wf(v) && t in v.home && t !in v.timeouts && Fits(v, p, d)
    ensures Wf(Put(v, t, p, d)) && Fits(Put(v, t, p, d), p + 1, d)
    ensures forall x :: x in Put(v, t, p, d).timeouts <==> x == t || x in v.timeouts
  {
    PutTimely(v, t, p, d);
    InsertMembers(v.timeouts, p, t);
    PutRest(v, t, p, d);
  }

  lemma PutRest(v: View, t: Tid, p: nat, d: int)
    requires Wf(v) && p <= |v.timeouts|
    requires Timely(Put(v, t, p, d).timeouts, Put(v, t, p, d).deadline) && Distinct(Put(v, t, p, d).timeouts)
    requires forall x :: x in Put(v, t, p, d).timeouts ==> x in v.home
    ensures Wf(Put(v, t, p, d))
  {
  }

  lemma UntimeNone(v: View)
    requires Wf(v)
    ensures UntimeAll(v, []) == v
  {
  }

  // The tasks of s can be linked at position p.
  ghost predicate ToArm(v: View, s: seq<Tid>, p: nat, d: int) {
    Wf(v) && Fits(v, p, d) && Distinct(s) && forall t :: t in s ==> t in v.home && t !in v.timeouts
  }

  // The loop that links the tasks of s, last one first, each in front of the same node.
  function ArmAll(v: View, s: seq<Tid>, p: nat, d: int): (r: View)
    requires ToArm(v, s, p, d)
    ensures Wf(r) && r == v.(timeouts := r.timeouts, deadline := r.deadline, timedOut := r.timedOut)
    ensures forall t :: t in r.timeouts <==> t in v.timeouts || t in s
    decreases |s|
  {
    hide Wf, Fits, Put;
    if s == [] then v
    else
      var n := |s| - 1;
      LastOf(s);
      PutWf(v, s[n], p, d);
      PutIs(v, s[n], p, d);
      ArmAll(Put(v, s[n], p, d), s[..n], p + 1, d)
  }

  // One round of that loop.
  lemma ArmAllStep(v: View, s: seq<Tid>, p: nat, d: int)
    requires ToArm(v, s, p, d)
    ensures s == [] ==> ArmAll(v, s, p, d) == v
    ensures s != [] ==>
      var n := |s| - 1;
      && Wf(v) && Fits(v, p, d) && p <= |v.timeouts| && s[n] in v.home && s[n] !in v.timeouts
      && ToArm(Put(v, s[n], p, d), s[..n], p + 1, d)
      && ArmAll(v, s, p, d) == ArmAll(Put(v, s[n], p, d), s[..n], p + 1, d)
      && Put(v, s[n], p, d).lists == v.lists
  {
    hide Wf, Fits;
    if s != [] {
      LastOf(s);
      PutIs(v, s[|s| - 1], p, d);
      PutWf(v, s[|s| - 1], p, d);
    }
  }

  lemma PutIs(v: View, t: Tid, p: nat, d: int)
    requires Fits(v, p, d)
    ensures p <= |v.timeouts|
    ensures var r := Put(v, t, p, d);
      && r.timeouts == InsertAt(v.timeouts, p, t) && r.deadline == v.deadline[t := d]
        && r.timedOut == v.timedOut[t := false]
      && r == v.(timeouts := r.timeouts, deadline := r.deadline, timedOut := r.timedOut)
  {
  }

  lemma LastOf(s: seq<Tid>)
    requires s != [] && Distinct(s)
    ensures s[|s| - 1] in s && Distinct(s[..|s| - 1])
    ensures forall t :: t in s <==> t == s[|s| - 1] || t in s[..|s| - 1]
    ensures s[|s| - 1] !in s[..|s| - 1]
  {
    var n := |s| - 1;
    forall t | t in s && t != s[n] ensures t in s[..n] {
      var j :| 0 <= j < |s| && s[j] == t;
      assert s[..n][j] == t;
    }
  }

  // What the loop does: the tasks of s are in one block, in reverse.
  lemma {:induction false} ArmAllList(v: View, s: seq<Tid>, p: nat, d: int)
    requires ToArm(v, s, p, d)
    ensures p <= |v.timeouts|
    ensures ArmAll(v, s, p, d).timeouts == v.timeouts[..p] + Reverse(s) + v.timeouts[p..]
    decreases |s|
  {
    hide Wf, Fits, Put, InsertAt;
    PutIs(v, 0, p, d);
    if s == [] {
      assert v.timeouts[..p] + [] + v.timeouts[p..] == v.timeouts;
    } else {
      var n := |s| - 1;
      LastOf(s);
      PutWf(v, s[n], p, d);
      PutIs(v, s[n], p, d);
      var w := Put(v, s[n], p, d);
      ArmAllList(w, s[..n], p + 1, d);
      InsertBlock(v.timeouts, p, s);
    }
  }

  lemma InsertBlock(ts: seq<Tid>, p: nat, s: seq<Tid>)
    requires p <= |ts| && s != []
    ensures var n := |s| - 1;
      var r := InsertAt(ts, p, s[n]);
      r[..p + 1] + Reverse(s[..n]) + r[p + 1..] == ts[..p] + Reverse(s) + ts[p..]
  {
    hide InsertAt, Reverse;
    var n := |s| - 1;
    InsertSplit(ts, p, s[n]);
    ReverseLast(s);
    Assoc(ts[..p], [s[n]], Reverse(s[..n]));
  }

  lemma InsertSplit(ts: seq<Tid>, p: nat, x: Tid)
    requires p <= |ts|
    ensures InsertAt(ts, p, x)[..p + 1] == ts[..p] + [x]
    ensures InsertAt(ts, p, x)[p + 1..] == ts[p..]
  {
  }

  lemma {:induction false} ReverseLast(s: seq<Tid>)
    requires s != []
    ensures Reverse(s) == [s[|s| - 1]] + Reverse(s[..|s| - 1])
  {
    var n := |s| - 1;
    if n > 0 {
      ReverseLast(s[1..]);
      assert s[1..][..n - 1] == s[..n][1..];
      Assoc([s[n]], Reverse(s[1..][..n - 1]), [s[0]]);
    }
  }

  // The tasks of s have the deadline d and have not timed out; other tasks are as before.
  lemma {:induction false} ArmAllFields(v: View, s: seq<Tid>, p: nat, d: int)
    requires ToArm(v, s, p, d)
    ensures var r := ArmAll(v, s, p, d);
      && (forall t :: t in s ==> t in r.deadline && r.deadline[t] == d && t in r.timedOut && !r.timedOut[t])
      && (forall t :: t !in s && t in v.deadline ==> t in r.deadline && r.deadline[t] == v.deadline[t])
      && (forall t :: t !in s && t in v.timedOut ==> t in r.timedOut && r.timedOut[t] == v.timedOut[t])
    decreases |s|
  {
    hide Wf, Fits, Put;
    if s != [] {
      var n := |s| - 1;
      LastOf(s);
      PutWf(v, s[n], p, d);
      PutIs(v, s[n], p, d);
      ArmAllFields(Put(v, s[n], p, d), s[..n], p + 1, d);
    }
  }

  lemma DropCons(s: seq<Tid>, t: Tid)
    requires Distinct(s) && s != []
    ensures Distinct(s[1..])
    ensures s[0] == t ==> Drop(s, t) == s[1..] && t !in s[1..]
    ensures s[0] != t ==> Drop(s, t) == [s[0]] + Drop(s[1..], t)
  {
    if s[0] != t && t in s {
      IndexCons(s, t);
      hide IndexOf;
      WithoutCons(s, IndexOf(s[1..], t));
    }
  }

  lemma IndexCons(s: seq<Tid>, t: Tid)
    requires t in s && s[0] != t
    ensures t in s[1..] && IndexOf(s, t) == 1 + IndexOf(s[1..], t)
  {
  }

  lemma WithoutCons(s: seq<Tid>, i: nat)
    requires i + 1 < |s|
    ensures Without(s, i + 1) == [s[0]] + Without(s[1..], i)
  {
  }

  lemma {:induction false} ExceptDrop(s: seq<Tid>, t: Tid, w: seq<Tid>)
    requires Distinct(s)
    ensures Except(Drop(s, t), w) == Except(s, [t] + w)
  {
    if s != [] {
      DropCons(s, t);
      ExceptDrop(s[1..], t, w);
      if s[0] == t {
        assert Drop(s[1..], t) == s[1..];
      } else {
        hide Drop;
        assert ([s[0]] + Drop(s[1..], t))[1..] == Drop(s[1..], t);
      }
    }
  }

  lemma {:induction false} ExceptNone(s: seq<Tid>)
    ensures Except(s, []) == s
  {
    if s != [] {
      ExceptNone(s[1..]);
    }
  }

  // The first loop of gyros_alarm_clock_set leaves the other timeouts in their order.
  lemma {:induction false} UntimeAllList(v: View, s: seq<Tid>)
    requires Wf(v)
    ensures UntimeAll(v, s).timeouts == Except(v.timeouts, s)
    decreases |s|
  {
    hide Sorted, IndexOf, Timely;
    if s == [] {
      ExceptNone(v.timeouts);
    } else {
      ExceptDrop(v.timeouts, s[0], s[1..]);
      UntimeAllList(Untime(v, s[0]), s[1..]);
      assert [s[0]] + s[1..] == s;
    }
  }

  lemma {:induction false} ExceptConcat(a: seq<Tid>, b: seq<Tid>, w: seq<Tid>)
    ensures Except(a + b, w) == Except(a, w) + Except(b, w)
  {
    if a == [] {
      assert a + b == b;
    } else {
      ExceptConcat(a[1..], b, w);
      assert (a + b)[1..] == a[1..] + b && (a + b)[0] == a[0];
      Assoc(if a[0] in w then [] else [a[0]], Except(a[1..], w), Except(b, w));
    }
  }

  lemma {:induction false} ExceptAll(a: seq<Tid>, w: seq<Tid>)
    ensures (forall t :: t in a ==> t in w) ==> Except(a, w) == []
    ensures (forall t :: t in a ==> t !in w) ==> Except(a, w) == a
  {
    if a != [] {
      ExceptAll(a[1..], w);
      assert a[0] in a && forall t :: t in a[1..] ==> t in a;
    }
  }

  // ----- the regions

  lemma ListedKnown(v: View, l: Lid)
    requires Wf(v) && l in v.lists
    ensures Distinct(v.lists[l]) && forall t :: t in v.lists[l] <==> t in v.home && v.home[t] == Some(l)
  {
  }

  // The position that the second loop of gyros_alarm_clock_set finds.
  function Slot(v: View, d: int): (p: nat)
    requires Wf(v)
    ensures Fits(v, p, d)
  {
    InTimeouts(v);
    var p := TimePos(v.timeouts, v.deadline, d, 0);
    SlotFits(v, d, p);
    p
  }

  lemma SlotFits(v: View, d: int, p: nat)
    requires Wf(v) && (forall j :: 0 <= j < |v.timeouts| ==> v.timeouts[j] in v.deadline)
      && p == TimePos(v.timeouts, v.deadline, d, 0)
    ensures Fits(v, p, d)
  {
    if p < |v.timeouts| {
      forall j {:trigger v.deadline[v.timeouts[j]]} | p <= j < |v.timeouts| ensures d <= v.deadline[v.timeouts[j]] {
        assert v.timeouts[p] in v.deadline && v.timeouts[j] in v.deadline;
        assert j > p ==> v.deadline[v.timeouts[p]] <= v.deadline[v.timeouts[j]];
      }
    }
  }

  // The three loops of gyros_alarm_clock_set.
  function Retime(v: View, l: Lid, d: int): (r: View)
    requires Wf(v) && l in v.lists
    ensures Wf(r) && r == v.(timeouts := r.timeouts, deadline := r.deadline, timedOut := r.timedOut)
    ensures forall t :: t in r.timeouts <==> t in v.timeouts || t in v.lists[l]
  {
    hide Wf, Fits, UntimeAll, ArmAll;
    ListedKnown(v, l);
    var w := UntimeAll(v, v.lists[l]);
    ArmAll(w, v.lists[l], Slot(w, d), d)
  }

  // The order of a list to which a block has been added is what it was without the block.
  lemma ExceptBlock(s: seq<Tid>, p: nat, w: seq<Tid>)
    requires p <= |s| && forall t :: t in s ==> t !in w
    ensures Except(s[..p] + Reverse(w) + s[p..], w) == s
  {
    hide Except;
    ReverseMembers(w);
    ExceptConcat(s[..p] + Reverse(w), s[p..], w);
    ExceptConcat(s[..p], Reverse(w), w);
    ExceptAll(s[..p], w);
    ExceptAll(s[p..], w);
    ExceptAll(Reverse(w), w);
    assert s[..p] + [] + s[p..] == s;
  }

  // Setting the clock puts every waiter on the timeout list once, at the new deadline, in
  // one block, and leaves the other timeouts in their order.
  lemma RetimeEffect(v: View, l: Lid, d: int)
    requires Wf(v) && l in v.lists
    ensures var r, w := Retime(v, l, d), v.lists[l];
      && Distinct(r.timeouts) && Timely(r.timeouts, r.deadline)
      && Except(r.timeouts, w) == Except(v.timeouts, w)
      && (exists p ::
        0 <= p <= |Except(v.timeouts, w)|
          && r.timeouts == Except(v.timeouts, w)[..p] + Reverse(w) + Except(v.timeouts, w)[p..])
      && (forall t :: t in w ==>
        t in r.timeouts && t in r.deadline && r.deadline[t] == d && t in r.timedOut && !r.timedOut[t])
      && (forall t :: t !in w && t in v.deadline ==> t in r.deadline && r.deadline[t] == v.deadline[t])
  {
    hide Wf, Fits, UntimeAll, ArmAll, Except, Distinct, Timely, Reverse;
    ListedKnown(v, l);
    var w := v.lists[l];
    var u := UntimeAll(v, w);
    UntimeAllList(v, w);
    var p := Slot(u, d);
    ArmAllList(u, w, p, d);
    ArmAllFields(u, w, p, d);
    WfTimeouts(Retime(v, l, d));
    ExceptBlock(u.timeouts, p, w);
  }

  // Tasks that do not wait for the clock are not affected.
  lemma RetimeOthers(v: View, l: Lid, d: int)
    requires Wf(v) && l in v.lists
    ensures forall t :: t in v.home && v.home[t] != Some(l) ==>
      var r := Retime(v, l, d);
      && (t in r.timeouts <==> t in v.timeouts)
      && (t in v.timedOut ==> t in r.timedOut && r.timedOut[t] == v.timedOut[t])
    ensures forall t :: t in v.timedOut ==> t in Retime(v, l, d).timedOut
  {
    hide Wf, Fits, UntimeAll, ArmAll;
    ListedKnown(v, l);
    var u := UntimeAll(v, v.lists[l]);
    ArmAllFields(u, v.lists[l], Slot(u, d), d);
  }

  lemma WfTimeouts(v: View)
    requires Wf(v)
    ensures Distinct(v.timeouts) && Timely(v.timeouts, v.deadline)
  {
  }

  lemma ReverseMembers(s: seq<Tid>)
    ensures forall t :: t in Reverse(s) <==> t in s
  {
    forall t | t in s ensures t in Reverse(s) {
      var j :| 0 <= j < |s| && s[j] == t;
      assert Reverse(s)[|s| - 1 - j] == t;
    }
  }

  // The loop that wakes everybody, from the head.
  function WakeEach(v: View, l: Lid): (r: View)
    requires Wf(v) && l in v.lists && l != RUNNING
    ensures Wf(r) && r.lists.Keys == v.lists.Keys && r.current == v.current
    ensures r.prio == v.prio && r.base == v.base && r.deadline == v.deadline && r.timedOut == v.timedOut
    decreases On(v, l)
  {
    hide Wf, Wake, On;
    if v.lists[l] == [] then v
    else
      FirstKnown(v, l);
      OnWake(v, l, v.lists[l][0]);
      WakeEach(Wake(v, v.lists[l][0]), l)
  }

  lemma WakeEachStep(v: View, l: Lid)
    requires Wf(v) && l in v.lists && l != RUNNING
    ensures v.lists[l] == [] ==> WakeEach(v, l) == v
    ensures v.lists[l] != [] ==>
      var t := v.lists[l][0];
      t in v.home && WakeEach(v, l) == WakeEach(Wake(v, t), l) && On(Wake(v, t), l) < On(v, l)
  {
    hide Wf, Wake, On;
    if v.lists[l] != [] {
      FirstKnown(v, l);
      OnWake(v, l, v.lists[l][0]);
    }
  }

  // It wakes exactly the tasks of that list.
  lemma {:induction false} WakeEachEffect(v: View, l: Lid)
    requires Wf(v) && l in v.lists && l != RUNNING
    ensures WakeEach(v, l).home.Keys == v.home.Keys
    ensures forall t :: t in v.home ==>
      WakeEach(v, l).home[t] == if v.home[t] == Some(l) then Some(RUNNING) else v.home[t]
    ensures forall t :: t in WakeEach(v, l).timeouts <==> t in v.timeouts && t in v.home && v.home[t] != Some(l)
    decreases On(v, l)
  {
    hide Wf, Wake, On;
    EmptyList(v, l);
    TimeoutsKnown(v);
    if v.lists[l] != [] {
      var t := v.lists[l][0];
      FirstKnown(v, l);
      OnWake(v, l, t);
      WakeEachEffect(Wake(v, t), l);
    }
  }

  lemma HeadDropped(v: View, l: Lid)
    requires Wf(v) && l in v.lists && v.lists[l] != []
    ensures Drop(v.lists[l], v.lists[l][0]) == v.lists[l][1..]
  {
  }

  // Tasks that run already keep their order.
  lemma {:induction false} EachKeepsRunners(v: View, l: Lid, a: Tid, b: Tid)
    requires Wf(v) && l in v.lists && l != RUNNING && RUNNING in v.lists && a in v.lists[RUNNING]
      && b in v.lists[RUNNING]
    ensures a in WakeEach(v, l).lists[RUNNING] && b in WakeEach(v, l).lists[RUNNING]
    ensures Ahead(WakeEach(v, l).lists[RUNNING], a, b) <==> Ahead(v.lists[RUNNING], a, b)
    decreases On(v, l)
  {
    hide Wf, Wake, WakeEach, On, Enqueue, Sorted, Distinct, Ahead;
    WakeEachStep(v, l);
    if v.lists[l] != [] {
      FirstKnown(v, l);
      var t := v.lists[l][0];
      WakeLists(v, l, t);
      EnqueueAhead(v.lists[RUNNING], v.prio, t, a, b);
      EnqueueAhead(v.lists[RUNNING], v.prio, t, b, a);
      EachKeepsRunners(Wake(v, t), l, a, b);
    }
  }

  // A waiter goes behind the running tasks of at least its priority.
  lemma {:induction false} EachBehind(v: View, l: Lid, x: Tid, y: Tid)
    requires Wf(v) && l in v.lists && l != RUNNING && RUNNING in v.lists && x in v.lists[l] && y in v.lists[RUNNING]
    ensures x in v.prio && y in v.prio
    ensures x in WakeEach(v, l).lists[RUNNING] && y in WakeEach(v, l).lists[RUNNING]
    ensures Ahead(WakeEach(v, l).lists[RUNNING], y, x) <==> v.prio[y] >= v.prio[x]
    decreases On(v, l)
  {
    hide Wf, Wake, WakeEach, On, Enqueue, Sorted, Distinct, Ahead, Drop;
    WakeEachStep(v, l);
    FirstKnown(v, l);
    var t := v.lists[l][0];
    WakeLists(v, l, t);
    HeadDropped(v, l);
    EnqueueAhead(v.lists[RUNNING], v.prio, t, y, y);
    if x == t {
      EachKeepsRunners(Wake(v, t), l, y, x);
    } else {
      EachBehind(Wake(v, t), l, x, y);
    }
  }

  // Waking from the head keeps the order of the waiters.
  lemma {:induction false} WakeEachOrder(v: View, l: Lid, i: nat, j: nat)
    requires Wf(v) && l in v.lists && l != RUNNING && i < j < |v.lists[l]|
    ensures RUNNING in v.lists
    ensures Ahead(WakeEach(v, l).lists[RUNNING], v.lists[l][i], v.lists[l][j])
    decreases On(v, l)
  {
    hide Wf, Wake, WakeEach, On, Enqueue, Sorted, Distinct, Ahead, Drop;
    RunningListed(v);
    WakeEachStep(v, l);
    FirstKnown(v, l);
    var s := v.lists[l];
    var t := s[0];
    WakeLists(v, l, t);
    HeadDropped(v, l);
    ListPrio(v, l, i, j);
    assert s[1..][j - 1] == s[j];
    if i == 0 {
      JoinsRunning(v, l, t);
      EachBehind(Wake(v, t), l, s[j], t);
    } else {
      assert s[1..][i - 1] == s[i];
      WakeEachOrder(Wake(v, t), l, i - 1, j - 1);
    }
  }

  datatype Clock = Clock(armed: bool, wakeup: int)

  datatype Region = Region(v: View, clock: Clock, blocked: bool)

  // gyros_alarm_clock_wait, at time c.
  function Wait(v: View, l: Lid, clock: Clock, c: int): Region
    requires Wf(v) && l in v.lists && v.current in v.home && v.current !in v.timeouts
  {
    if !clock.armed then Region(Resched(Move(v, v.current, l)), clock, true)
    else if clock.wakeup > c then Region(Resched(Move(Arm(v, v.current, clock.wakeup), v.current, l)), clock, true)
    else Region(v, clock, false)
  }

  // gyros_alarm_clock_set, for wakeup time d, at time c.
  function Set(v: View, l: Lid, d: int, c: int): Region
    requires Wf(v) && l in v.lists && l != RUNNING
  {
    Region(if v.lists[l] == [] then v
           else if d <= c then Resched(WakeEach(v, l))
           else Retime(v, l, d),
           Clock(true, d), false)
  }

  lemma SetClock(v: View, l: Lid, d: int, c: int)
    requires Wf(v) && l in v.lists && l != RUNNING
    ensures Set(v, l, d, c).clock == Clock(true, d)
  {
  }

  // gyros_alarm_clock_reset
  function Reset(v: View, l: Lid, clock: Clock): Region
    requires Wf(v) && l in v.lists
  {
    if clock.armed then Region(UntimeAll(v, v.lists[l]), clock.(armed := false), false)
    else Region(v, clock, false)
  }
}

module AlarmProtocol {
  import opened Seqs
  import opened Sched
  import opened Bystander
  import opened Order
  import opened Effects
  import opened AlarmSpec

  datatype State = State(v: View, l: Lid, clock: Clock)

  datatype Op =
    | WaitOp(c: int)            // by current
    | SetOp(d: int, c: int)
    | ResetOp
    | OtherOp(op: KernelOp)

  ghost predicate Enabled(s: State, op: Op) {
    match op
    case WaitOp(c) => s.v.current != IDLE
    case SetOp(d, c) => true
    case ResetOp => true
    case OtherOp(k) => KernelEnabled(s.v, {s.l}, k)
  }

  // A task that waits for the clock is on the timeout list exactly when the clock is
  // armed, and then at the wakeup time.
  ghost predicate WaiterOk(s: State, t: Tid) {
    && (t in s.v.timeouts <==> s.clock.armed)
    && t in s.v.deadline && (s.clock.armed ==> s.v.deadline[t] == s.clock.wakeup)
  }

  ghost predicate Waits(s: State, t: Tid) {
    t in s.v.home && s.v.home[t] == Some(s.l)
  }

  ghost predicate Inv(s: State) {
    && Scheduling(s.v) && s.l in s.v.lists && s.l != RUNNING
    && forall t :: Waits(s, t) ==> WaiterOk(s, t)
  }

  ghost function Step(s: State, op: Op): State
    requires Inv(s) && Enabled(s, op)
  {
    hide Wf, Scheduling, WaiterOk, Wait, Set, Reset, KernelStep;
    RunsNow(s.v);
    match op
    case WaitOp(c) => var r := Wait(s.v, s.l, s.clock, c); State(r.v, s.l, r.clock)
    case SetOp(d, c) => var r := Set(s.v, s.l, d, c); State(r.v, s.l, r.clock)
    case ResetOp => var r := Reset(s.v, s.l, s.clock); State(r.v, s.l, r.clock)
    case OtherOp(k) => s.(v := KernelStep(s.v, {s.l}, k))
  }

  lemma WaitKeeps(s: State, c: int)
    requires Inv(s) && Enabled(s, WaitOp(c))
    ensures Inv(Step(s, WaitOp(c)))
  {
    hide Wf, Settled, Move, Arm, Resched;
    RunsNow(s.v);
    FieldsKnown(s.v);
    var v, t := s.v, s.v.current;
    assert forall x :: x in v.home && v.home[x] == Some(s.l) ==> Waits(s, x);
    if !s.clock.armed {
      Settles(Move(v, t, s.l));
    } else if s.clock.wakeup > c {
      Settles(Move(Arm(v, t, s.clock.wakeup), t, s.l));
    }
  }

  lemma SetKeeps(s: State, d: int, c: int)
    requires Inv(s)
    ensures Inv(Step(s, SetOp(d, c)))
  {
    hide Wf, Settled, Retime, WakeEach, Resched;
    RunsNow(s.v);
    FieldsKnown(s.v);
    ListedKnown(s.v, s.l);
    EmptyList(s.v, s.l);
    var v := s.v;
    if v.lists[s.l] != [] {
      if d <= c {
        WakeEachEffect(v, s.l);
        Settles(WakeEach(v, s.l));
      } else {
        RetimeEffect(v, s.l, d);
        SchedulingKept(v, Retime(v, s.l, d));
      }
    }
  }

  lemma ResetKeeps(s: State)
    requires Inv(s)
    ensures Inv(Step(s, ResetOp))
  {
    hide Wf, Settled, UntimeAll;
    RunsNow(s.v);
    ListedKnown(s.v, s.l);
    assert forall x :: x in s.v.home && s.v.home[x] == Some(s.l) ==> Waits(s, x);
    if s.clock.armed {
      SchedulingKept(s.v, UntimeAll(s.v, s.v.lists[s.l]));
    }
  }

  lemma OtherKeeps(s: State, k: KernelOp)
    requires Inv(s) && Enabled(s, OtherOp(k))
    ensures Inv(Step(s, OtherOp(k)))
  {
    hide Wf, Settled, KernelStep;
    RunsNow(s.v);
    KernelKeeps(s.v, {s.l}, k);
    var r := Step(s, OtherOp(k));
    forall t | Waits(r, t) ensures WaiterOk(r, t) {
      assert t in s.v.home ==> Stays(s.v, r.v, t) || Moved(s.v, r.v, k, t);
      assert t !in s.v.home ==> Appears(r.v, k, t);
      assert Waits(s, t);
      DeadlinesKept(s.v, {s.l}, k, t);
    }
  }

  lemma StepKeeps(s: State, op: Op)
    requires Inv(s) && Enabled(s, op)
    ensures Inv(Step(s, op))
  {
    hide Inv, Enabled, Step;
    match op
    case WaitOp(c) => WaitKeeps(s, c);
    case SetOp(d, c) => SetKeeps(s, d, c);
    case ResetOp => ResetKeeps(s);
    case OtherOp(k) => OtherKeeps(s, k);
  }

  // ----- all runs

  ghost function Run(s: State, ops: seq<Op>): State
    requires Inv(s)
    decreases |ops|
  {
    hide Inv, Enabled, Step;
    if ops == [] then s
    else if Enabled(s, ops[0]) then StepKeeps(s, ops[0]); Run(Step(s, ops[0]), ops[1..])
    else Run(s, ops[1..])
  }

  lemma {:induction false} RunKeeps(s: State, ops: seq<Op>)
    requires Inv(s)
    ensures Inv(Run(s, ops))
    decreases |ops|
  {
    hide Inv, Enabled, Step;
    if ops != [] {
      if Enabled(s, ops[0]) {
        StepKeeps(s, ops[0]);
        RunKeeps(Step(s, ops[0]), ops[1..]);
      } else {
        RunKeeps(s, ops[1..]);
      }
    }
  }

  // Nobody waits.
  ghost predicate Initial(s: State) {
    && Scheduling(s.v) && s.l in s.v.lists && s.l != RUNNING
    && forall t :: !Waits(s, t)
  }

  // Task t has been woken by a timeout.
  ghost predicate Woken(v: View, t: Tid) {
    t in v.home && v.home[t] == Some(RUNNING) && t in v.timedOut && v.timedOut[t] && t !in v.timeouts
  }

  // After any run, the first tick at or past the wakeup time wakes everybody who waits, and
  // a tick before it, or with the clock not armed, nobody.
  lemma Rings(s: State, ops: seq<Op>, now: int, t: Tid)
    requires Initial(s)
    ensures Inv(s)
    ensures var r := (RunKeeps(s, ops); Run(s, ops));
      Waits(r, t) ==>
        var n := Step(r, OtherOp(TickAt(now)));
        if r.clock.armed && r.clock.wakeup <= now then Woken(n.v, t) else Waits(n, t)
  {
    hide Wf, Scheduling, KernelEnabled, Step;
    RunKeeps(s, ops);
    var r := Run(s, ops);
    if Waits(r, t) {
      TickOne(r, now, t);
    }
  }

  lemma TickOne(s: State, now: int, t: Tid)
    requires Inv(s) && Waits(s, t)
    ensures var n := Step(s, OtherOp(TickAt(now)));
      if s.clock.armed && s.clock.wakeup <= now then Woken(n.v, t) else Waits(n, t)
  {
    hide Wf, Settled, ExpireDue, Due, Resched;
    assert WaiterOk(s, t);
    ExpireEffect(s.v, now);
    ExpireStep(s.v, now);
    assert TickEffect(s.v, ExpireDue(s.v, now), now, t);
    ReschedHomes(ExpireDue(s.v, now));
  }

  lemma ReschedHomes(v: View)
    requires Wf(v)
    ensures Resched(v) == v.(current := Resched(v).current)
  {
  }

  // A wait for a clock that is not armed, or for a time that is still to come, puts current on
  // the list, with the wakeup time as its deadline if the clock is armed, and another task
  // runs.  A wakeup time that has come does not block.
  lemma WaitWaits(s: State, c: int)
    requires Inv(s) && Enabled(s, WaitOp(c))
    ensures var r, t := Step(s, WaitOp(c)), s.v.current;
      && (s.clock.armed && s.clock.wakeup <= c ==> r == s)
      && (!s.clock.armed || s.clock.wakeup > c ==> Waits(r, t) && r.clock == s.clock && r.v.current != t)
      && (!s.clock.armed ==> Blocks(s.v, r.v, s.l))
      && (s.clock.armed && s.clock.wakeup > c ==> BlocksUntil(s.v, r.v, s.l, s.clock.wakeup))
  {
    hide Wf, Scheduling, WaiterOk, Move, Arm, Resched, OthersInOrder, BehindEquals, InTime;
    RunsNow(s.v);
    MoveBlocks(s.v, s.l);
    ArmBlocks(s.v, s.l, s.clock.wakeup);
  }

  // Setting the clock arms it for that time, and leaves all tasks that do not wait for it as
  // they were.
  lemma SetOthers(s: State, d: int, c: int, t: Tid)
    requires Inv(s) && t in s.v.home && !Waits(s, t)
    ensures var r := Step(s, SetOp(d, c)); r.clock == Clock(true, d) && Stays(s.v, r.v, t)
    ensures t in s.v.deadline && t in Step(s, SetOp(d, c)).v.deadline
    ensures Step(s, SetOp(d, c)).v.deadline[t] == s.v.deadline[t]
  {
    hide Wf, Settled, WaiterOk, Retime, WakeEach, Resched;
    RunsNow(s.v);
    FieldsKnown(s.v);
    ListedKnown(s.v, s.l);
    if s.v.lists[s.l] != [] {
      if d <= c {
        WakeEachEffect(s.v, s.l);
        ReschedHomes(WakeEach(s.v, s.l));
      } else {
        RetimeOthers(s.v, s.l, d);
        RetimeEffect(s.v, s.l, d);
      }
    }
  }

  // Resetting the clock disarms it and takes the deadlines off the tasks that wait for it,
  // which go on waiting; nobody moves.
  lemma ResetLeaves(s: State)
    requires Inv(s)
    ensures var r := Step(s, ResetOp);
      && r.clock == s.clock.(armed := false) && r.v == s.v.(timeouts := r.v.timeouts)
      && (forall t :: t in r.v.timeouts <==> t in s.v.timeouts && !Waits(s, t))
  {
    hide Wf, Settled, UntimeAll;
    RunsNow(s.v);
    ListedKnown(s.v, s.l);
    TimeoutsKnown(s.v);
    forall t | t in s.v.timeouts && !s.clock.armed ensures !Waits(s, t) {
      assert Waits(s, t) ==> WaiterOk(s, t);
    }
  }

  // Setting the clock to a time that has come lets everybody go at once; otherwise all
  // waiters go on waiting, for the new time.
  lemma SetRetimes(s: State, d: int, c: int, t: Tid)
    requires Inv(s) && Waits(s, t)
    ensures var n := Step(s, SetOp(d, c));
      if d <= c then !Waits(n, t) && t in n.v.home && n.v.home[t] == Some(RUNNING) && t !in n.v.timeouts
      else Waits(n, t) && t in n.v.timeouts && t in n.v.deadline && n.v.deadline[t] == d
  {
    hide Wf, Settled, Retime, WakeEach, Resched;
    RunsNow(s.v);
    ListedKnown(s.v, s.l);
    assert s.v.lists[s.l] != [] by { assert t in s.v.lists[s.l]; }
    if d <= c {
      WakeEachEffect(s.v, s.l);
      ReschedHomes(WakeEach(s.v, s.l));
    } else {
      RetimeEffect(s.v, s.l, d);
    }
  }
}

// Alarm clocks on the linked kernel.
module AlarmObjects {
  import opened Seqs
  import opened Lists
  import opened Sched
  import opened Time
  import opened AlarmSpec
  import opened Kernels

  class AlarmClock {
    const k: Kernel
    const taskList: Node
    var armed: bool
    var wakeupTime: AbsTime
    ghost var wakeup: int     // in unwrapped time

    ghost predicate Valid()
      reads this, k, k.links, k.Repr
    {
      && k.Valid() && this !in k.Repr
      && k.IsList(taskList) && taskList.container != RUNNING && wakeupTime == Wrap(wakeup)
    }

    ghost function State(): Clock
      reads this
    {
      Clock(armed, wakeup)
    }

    // gyros_alarm_clock_init
    constructor (k: Kernel, taskList: Node)
      requires k.Valid() && k.Owned() && k.IsList(taskList) && taskList.container != RUNNING
      ensures Valid() && !armed && this.k == k && this.taskList == taskList
    {
      hide Kernel.Valid;
      this.k, this.taskList, armed, wakeupTime, wakeup := k, taskList, false, 0, 0;
    }

    // gyros_alarm_clock_wait, at the unwrapped time c.
    method Wait(now: AbsTime, ghost c: int) returns (blocked: bool)
      requires Valid() && now == Wrap(c) && k.view.current != IDLE && k.view.current !in k.view.timeouts
      requires IDLE in k.view.home && k.view.home[IDLE] == Some(RUNNING)
      requires armed ==> -HALF <= wakeup - c < HALF && k.Near(wakeup)
      modifies k`view, k`current, k.links.repr, k.taskSet
      ensures Wf(old(k.view)) && taskList.container in old(k.view).lists && old(k.view).current in old(k.view).home
      ensures Region(k.view, State(), blocked) == AlarmSpec.Wait(old(k.view), taskList.container, State(), c)
      ensures Valid()
    {
      hide Wf, Kernel.Valid, Kernel.Shape, Kernel.Near, Arm, Move, Resched, Wrap;
      k.ValidFacts();
      k.NamesKnown(taskList, null);
      var join := !armed;
      if armed {
        join := k.TaskSetTimeout(wakeupTime, now, wakeup, c);
        k.ValidFacts();
      }
      if join {
        k.BlockCurrent(taskList);
      }
      return join;
    }

    // Node ai is at position j of the task list, past the head, or at the head for the end.
    ghost predicate Visiting(s: seq<Tid>, ai: Node, j: nat)
      reads this, k
    {
      && taskList.container in k.view.lists && k.view.lists[taskList.container] == s && j <= |s|
      && k.NodeAt(taskList, ai, if j == |s| then 0 else j + 1)
      && (ai != taskList <==> j < |s|)
      && (j < |s| ==> s[j] in k.tasks && k.IsTask(k.tasks[s[j]]) && ai.container == s[j] && k.tasks[s[j]].id == s[j])
    }

    // One round of that loop.
    method UntimeNext(ai: Node, ghost s: seq<Tid>, ghost j: nat) returns (next: Node)
      requires Valid() && Visiting(s, ai, j) && j < |s|
      modifies k`view, k.links.repr
      ensures Wf(old(k.view)) && k.view == Untime(old(k.view), s[j]) && Visiting(s, next, j + 1)
      ensures Valid() && k.links.repr == old(k.links.repr)
    {
      hide Wf, Kernel.Valid, Kernel.Shape, Kernel.Fields, Kernel.Homes, Untime, Wrap;
      k.ValidParts();
      k.ValidFacts();
      k.RemoveTimeout(k.tasks[ai.container]);
      k.ValidShape();
      next := k.After(taskList, ai, j + 1);
    }

    // The first loop of gyros_alarm_clock_set, and the loop of gyros_alarm_clock_reset.
    method UntimeWaiters()
      requires Valid()
      modifies k`view, k.links.repr
      ensures Wf(old(k.view)) && taskList.container in old(k.view).lists
      ensures k.view == UntimeAll(old(k.view), old(k.view).lists[taskList.container])
      ensures Valid() && k.links.repr == old(k.links.repr)
    {
      hide Wf, Kernel.Valid, Kernel.Shape, Untime, Wrap;
      k.ValidFacts();
      k.ValidShape();
      k.NamesKnown(taskList, null);
      ghost var v, s, j := k.view, k.view.lists[taskList.container], 0;
      assert s[0..] == s;
      var ai := k.After(taskList, taskList, 0);
      while ai != taskList
        invariant Valid() && k.links.repr == old(k.links.repr) && Wf(k.view)
        invariant Visiting(s, ai, j)
        invariant UntimeAll(k.view, s[j..]) == UntimeAll(v, s)
        decreases |s| - j
      {
        assert s[j..][0] == s[j] && s[j..][1..] == s[j + 1..];
        ai := UntimeNext(ai, s, j);
        j := j + 1;
      }
    }

    // The body of the third loop of gyros_alarm_clock_set: link the task in front of node ti
    // of the timeout list.  The stores to the fields come before the insertion.
    method PutTask(t: Task, ti: Node, ghost p: nat)
      requires Valid() && Wf(k.view) && k.IsTask(t) && t.id in k.view.home && t.id !in k.view.timeouts
      requires Fits(k.view, p, wakeup) && k.TimeNodeAt(ti, p)
      modifies k`view, k.links.repr, t`timeout, t`timedOut
      ensures p <= |old(k.view).timeouts| && k.view == Put(old(k.view), t.id, p, wakeup) && k.TimeNodeAt(ti, p + 1)
      ensures Valid() && Wf(k.view) && k.links.repr == old(k.links.repr)
    {
      hide Wf, Kernel.Valid, Kernel.Shape, Wrap, Fits;
      PutWf(k.view, t.id, p, wakeup);
      PutIs(k.view, t.id, p, wakeup);
      ghost var v := k.view;
      k.WriteTimeout(t, wakeupTime, wakeup);
      PutNode(t, ti, p, Put(v, t.id, p, wakeup));
      k.ValidFacts();
    }

    // The node itself: position p moves one further.
    method PutNode(t: Task, ti: Node, ghost p: nat, ghost w: View)
      requires k.Valid() && k.IsTask(t) && t.id !in k.view.timeouts && k.TimeNodeAt(ti, p)
      requires Wf(w) && w == k.view.(timeouts := InsertAt(k.view.timeouts, p, t.id))
      modifies k`view, k.links.repr
      ensures k.view == w && k.TimeNodeAt(ti, p + 1)
      ensures k.Valid() && k.links.repr == old(k.links.repr)
    {
      hide Wf, Kernel.Valid, Kernel.Shape;
      k.ValidShape();
      k.ValidFacts();
      k.TimeNodeRing(ti, p);
      k.InsertTimeout(t, ti, p, w);
    }

    // The same from the end: the task at position j is next, or the head when none is left.
    ghost predicate VisitingBack(s: seq<Tid>, ai: Node, j: nat)
      reads this, k
    {
      && taskList.container in k.view.lists && k.view.lists[taskList.container] == s
      && k.NodeAt(taskList, ai, j)
      && (ai != taskList <==> j > 0)
      && (j > 0 ==>
        s[j - 1] in k.tasks && k.IsTask(k.tasks[s[j - 1]]) && ai.container == s[j - 1]
          && k.tasks[s[j - 1]].id == s[j - 1])
    }

    method LastWaiter(ghost s: seq<Tid>) returns (ai: Node)
      requires Valid() && taskList.container in k.view.lists && k.view.lists[taskList.container] == s
      ensures VisitingBack(s, ai, |s|) && (ai != taskList <==> |s| > 0)
    {
      hide Wf, Kernel.Valid, Kernel.Shape, Wrap;
      k.ValidShape();
      ai := k.Before(taskList, taskList, 0);
    }

    // One round of the third loop of gyros_alarm_clock_set.
    method ArmNext(ai: Node, ti: Node, ghost s: seq<Tid>, ghost j: nat, ghost p: nat) returns (next: Node)
      requires Valid() && Wf(k.view) && VisitingBack(s, ai, j) && j > 0
      requires s[j - 1] in k.view.home && s[j - 1] !in k.view.timeouts
      requires Fits(k.view, p, wakeup) && k.TimeNodeAt(ti, p)
      modifies k`view, k.links.repr, k.taskSet
      ensures p <= |old(k.view).timeouts| && k.view == Put(old(k.view), s[j - 1], p, wakeup)
      ensures k.TimeNodeAt(ti, p + 1) && VisitingBack(s, next, j - 1) && (next != taskList <==> j - 1 > 0)
      ensures Valid() && Wf(k.view) && k.links.repr == old(k.links.repr)
    {
      hide Wf, Kernel.Valid, Kernel.Shape, Kernel.TimeNodeAt, Fits, Wrap;
      k.TasksKnown(ai.container);
      k.ValidFacts();
      PutIs(k.view, s[j - 1], p, wakeup);
      PutTask(k.tasks[ai.container], ti, p);
      k.ValidShape();
      next := k.Before(taskList, ai, j);
    }

    // The same, in terms of what is left to do.
    method ArmRound(ai: Node, ti: Node, ghost s: seq<Tid>, ghost j: nat, ghost p: nat, ghost d: int)
        returns (next: Node)
      requires Valid() && wakeup == d && 0 < j <= |s| && VisitingBack(s, ai, j)
      requires ToArm(k.view, s[..j], p, d) && k.TimeNodeAt(ti, p)
      modifies k`view, k.links.repr, k.taskSet
      ensures ToArm(old(k.view), s[..j], p, d) && ToArm(k.view, s[..j - 1], p + 1, d)
      ensures ArmAll(k.view, s[..j - 1], p + 1, d) == ArmAll(old(k.view), s[..j], p, d)
      ensures k.TimeNodeAt(ti, p + 1) && VisitingBack(s, next, j - 1) && (next != taskList <==> j - 1 > 0)
      ensures Valid() && k.links.repr == old(k.links.repr)
    {
      hide Wf, Kernel.Valid, Kernel.Shape, Kernel.TimeNodeAt, Fits, Wrap, Put, Distinct, ToArm, VisitingBack;
      k.ValidFacts();
      assert s[..j][j - 1] == s[j - 1] && s[..j][..j - 1] == s[..j - 1];
      ArmAllStep(k.view, s[..j], p, d);
      next := ArmNext(ai, ti, s, j, p);
    }

    // The third loop of gyros_alarm_clock_set, over the task list s.
    method ArmWaiters(ti: Node, ghost p: nat, ghost v: View, ghost s: seq<Tid>, ghost d: int)
      requires ToArm(v, s, p, d)
      requires Valid() && k.view == v && wakeup == d && taskList.container in v.lists
        && v.lists[taskList.container] == s
      requires k.TimeNodeAt(ti, p)
      modifies k`view, k.links.repr, k.taskSet
      ensures k.view == ArmAll(v, s, p, d)
      ensures Valid() && k.links.repr == old(k.links.repr)
    {
      hide Wf, Kernel.Valid, Kernel.Shape, Kernel.TimeNodeAt, Fits, Wrap, Put, Distinct, ToArm, VisitingBack;
      k.ValidFacts();
      k.NamesKnown(taskList, null);
      ghost var j: nat, q := |s|, p;
      assert s[..|s|] == s;
      var ai := LastWaiter(s);
      while ai != taskList
        invariant Valid() && k.links.repr == old(k.links.repr) && wakeup == d
        invariant j <= |s| && VisitingBack(s, ai, j) && (ai != taskList <==> j > 0)
        invariant ToArm(k.view, s[..j], q, d) && k.TimeNodeAt(ti, q)
        invariant ArmAll(k.view, s[..j], q, d) == ArmAll(v, s, p, d)
        decreases j
      {
        ai := ArmRound(ai, ti, s, j, q, d);
        j, q := j - 1, q + 1;
      }
      assert s[..0] == [];
      ArmAllStep(k.view, s[..0], q, d);
    }

    // The second loop of gyros_alarm_clock_set, and the third.
    method RetimeWaiters()
      requires Valid() && Wf(k.view) && taskList.container in k.view.lists && k.Near(wakeup)
      modifies k`view, k.links.repr, k.taskSet
      ensures k.view == Retime(old(k.view), taskList.container, wakeup)
      ensures Valid() && k.links.repr == old(k.links.repr)
    {
      hide Wf, Kernel.Valid, Kernel.Shape, Kernel.TimeNodeAt, Fits, Wrap, UntimeAll, ArmAll;
      UntimeWaiters();
      k.ValidParts();
      k.ValidFacts();
      var ti, p := k.ScanTimeout(wakeupTime, wakeup);
      k.TimeNodeRing(ti, p);
      SlotFits(k.view, wakeup, p);
      ListedKnown(k.view, taskList.container);
      ArmWaiters(ti, p, k.view, k.view.lists[taskList.container], wakeup);
    }

    // One round of the loop that wakes everybody: the first task, and the next test.
    method WakeNext() returns (empty: bool)
      requires Wf(k.view) && taskList.container in k.view.lists && k.view.lists[taskList.container] != []
      requires Valid()
      modifies k`view, k`current, k.links.repr, k.taskSet
      ensures old(k.view).lists[taskList.container][0] in old(k.view).home
      ensures k.view == Wake(old(k.view), old(k.view).lists[taskList.container][0])
      ensures Wf(k.view) && taskList.container in k.view.lists && (empty <==> k.view.lists[taskList.container] == [])
      ensures Valid() && k.links.repr == old(k.links.repr)
    {
      hide Wf, Kernel.Valid, Kernel.Shape, Wake, Wrap;
      k.ValidFacts();
      k.WakeFirst(taskList, false);
      k.ValidShape();
      empty := k.ListEmpty(taskList);
    }

    // The loop that wakes everybody, from the head.
    method WakeWaiters()
      requires Valid()
      modifies k`view, k`current, k.links.repr, k.taskSet
      ensures Wf(old(k.view)) && taskList.container in old(k.view).lists
      ensures k.view == WakeEach(old(k.view), taskList.container)
      ensures Valid() && k.links.repr == old(k.links.repr)
    {
      hide Wf, Kernel.Valid, Kernel.Shape, Wake, WakeEach, On, Wrap;
      k.ValidFacts();
      k.ValidShape();
      var empty := k.ListEmpty(taskList);
      while !empty
        invariant Wf(k.view) && taskList.container in k.view.lists
        invariant Valid() && k.links.repr == old(k.links.repr)
        invariant WakeEach(k.view, taskList.container) == WakeEach(old(k.view), taskList.container)
        invariant empty <==> k.view.lists[taskList.container] == []
        decreases On(k.view, taskList.container)
      {
        WakeEachStep(k.view, taskList.container);
        empty := WakeNext();
      }
      WakeEachStep(k.view, taskList.container);
    }

    // Everybody is woken, and the first running task takes over.
    method LetGo()
      requires Valid() && Wf(k.view) && taskList.container in k.view.lists && k.view.lists[taskList.container] != []
      modifies k`view, k`current, k.links.repr, k.taskSet
      ensures k.view == Resched(WakeEach(old(k.view), taskList.container))
      ensures Valid() && k.links.repr == old(k.links.repr)
    {
      hide Wf, Kernel.Valid, Kernel.Shape, WakeEach, Resched, Wrap;
      k.ValidFacts();
      FirstKnown(k.view, taskList.container);
      WakeEachEffect(k.view, taskList.container);
      ghost var t := k.view.lists[taskList.container][0];
      WakeWaiters();
      k.ValidFacts();
      InRunning(k.view, t);
      k.CondReschedule();
    }

    // gyros_alarm_clock_set, for the unwrapped wakeup time d, at the unwrapped time c.
    method Set(wakeupTime: AbsTime, now: AbsTime, ghost d: int, ghost c: int)
      requires Valid() && wakeupTime == Wrap(d) && now == Wrap(c) && -HALF <= d - c < HALF && k.Near(d)
      modifies this, k`view, k`current, k.links.repr, k.taskSet
      ensures Wf(old(k.view)) && taskList.container in old(k.view).lists
      ensures Region(k.view, State(), false) == AlarmSpec.Set(old(k.view), taskList.container, d, c)
      ensures Valid()
    {
      hide Wf, Kernel.Valid, Kernel.Shape, Kernel.Near, Retime, WakeEach, Resched, Compare, Wrap;
      k.ValidFacts();
      k.ValidShape();
      armed := true;
      this.wakeupTime, wakeup := wakeupTime, d;
      var empty := k.ListEmpty(taskList);
      if !empty {
        CompareExact(d, c);
        if Compare(wakeupTime, now) <= 0 {
          LetGo();
        } else {
          RetimeWaiters();
        }
      }
    }

    // gyros_alarm_clock_reset
    method Reset()
      requires Valid()
      modifies this`armed, k`view, k.links.repr
      ensures Wf(old(k.view)) && taskList.container in old(k.view).lists
      ensures Region(k.view, State(), false) == AlarmSpec.Reset(old(k.view), taskList.container, old(State()))
      ensures Valid()
    {
      hide Wf, Kernel.Valid, Kernel.Shape, Untime, Wrap;
      k.ValidFacts();
      k.ValidShape();
      k.NamesKnown(taskList, null);
      if armed {
        armed := false;
        var empty := k.ListEmpty(taskList);
        if !empty {
          UntimeWaiters();
        }
      }
    }
  }
}
