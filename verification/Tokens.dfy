// src/sem.c, src/mq.c and src/smq.c: a counter of tokens (semaphore value, queued messages)
// with a wait list.  A wakeup does not hand the token over, so another task may steal it.
// No wakeup is lost all the same, as long as nobody waits on the same list for room to put
// a token, as senders of src/smq.c may.

module TokenSpec {
  import opened Seqs
  import opened Sched

  datatype Outcome = Taken | Blocked | Failed

  datatype Region = Region(v: View, tokens: nat, outcome: Outcome)

  // One pass of gyros_sem_wait or gyros_mq_receive by the current task.
  function WaitRegion(v: View, l: Lid, tokens: nat): Region
    requires Wf(v) && l in v.lists && v.current in v.home
  {
    if tokens == 0 then Region(Resched(Move(v, v.current, l)), 0, Blocked)
    else Region(v, tokens - 1, Taken)
  }

  // The first region of gyros_sem_wait_until and gyros_mq_receive_until, for deadline d
  // at time c.
  function WaitUntilRegion(v: View, l: Lid, tokens: nat, d: int, c: int): Region
    requires Wf(v) && l in v.lists && v.current in v.home && v.current !in v.timeouts
  {
    if tokens > 0 then Region(v, tokens - 1, Taken)
    else if d <= c then Region(v, 0, Failed)
    else Region(Resched(Move(Arm(v, v.current, d), v.current, l)), 0, Blocked)
  }

  // gyros_sem_try_wait, gyros_mq_receive from an interrupt, and the second region of the
  // timed waits.
  function TryRegion(v: View, tokens: nat): Region {
    if tokens == 0 then Region(v, 0, Failed) else Region(v, tokens - 1, Taken)
  }

  // gyros_sem_signal and gyros_mq_send; a message queue has no maximum.
  function PutRegion(v: View, l: Lid, tokens: nat, max: Option<nat>): (r: Region)
    requires Wf(v) && l in v.lists
  {
    if max.Some? && tokens >= max.value then Region(v, tokens, Failed)
    else if v.lists[l] == [] then Region(v, tokens + 1, Taken)
    else FirstKnown(v, l); Region(Resched(Wake(v, v.lists[l][0])), tokens + 1, Taken)
  }

  // One pass of gyros_smq_send that may block.
  function PutBlockingRegion(v: View, l: Lid, tokens: nat, max: Option<nat>): (r: Region)
    requires Wf(v) && l in v.lists && v.current in v.home
  {
    if max.Some? && tokens >= max.value then Region(Resched(Move(v, v.current, l)), tokens, Blocked)
    else PutRegion(v, l, tokens, max)
  }
}

module TokenProtocol {
  import opened Seqs
  import opened Sched
  import opened Bystander
  import opened Order
  import opened Effects
  import opened TokenSpec

  // Where a task is: outside, in an untimed wait, in a timed one, or in a put that waits
  // for room.  A task that is in one of these and runs has not resumed yet.
  datatype Pc = Out | InWait | InWaitUntil | InPut

  datatype State = State(
    v: View,
    l: Lid,
    tokens: nat,
    max: Option<nat>,
    blockingPuts: bool,   // only src/smq.c has puts that wait for room
    pc: map<Tid, Pc>,
    put: nat,     // tokens put since the start
    got: nat)     // tokens taken since the start

  datatype Op =
    | Wait                            // by current: first attempt, or resumed
    | WaitUntil(d: int, c: int)       // by current: first region
    | ResumeUntil                     // by current: second region
    | TryWait                         // by current, or from an interrupt
    | Put                             // by anybody
    | PutBlocking                     // by current: first attempt, or resumed
    | Other(op: KernelOp)

  predicate PcIs(s: State, p: Pc) {
    s.v.current in s.pc && s.pc[s.v.current] == p
  }

  ghost predicate Enabled(s: State, op: Op) {
    match op
    case Wait => (PcIs(s, Out) || PcIs(s, InWait)) && s.v.current != IDLE
    case WaitUntil(d, c) => PcIs(s, Out) && s.v.current != IDLE
    case ResumeUntil => PcIs(s, InWaitUntil)
    case TryWait => true
    case Put => true
    case PutBlocking => s.blockingPuts && (PcIs(s, Out) || PcIs(s, InPut)) && s.v.current != IDLE
    case Other(k) =>
      && KernelEnabled(s.v, {s.l}, k)
      && (k.YieldOp? || k.BlockOn? || k.BlockUntil? || k.SleepUntil? ==> PcIs(s, Out))
      && (k.SuspendTask? ==> k.t in s.pc && s.pc[k.t] == Out)
  }

  // The tasks that have been woken for a token and have not resumed; a task whose timed
  // wait has expired is not one of them.
  ghost function Woken(s: State): set<Tid> {
    set t | t in s.v.home && WokenFor(s, t)
  }

  ghost predicate WokenFor(s: State, t: Tid) {
    && t in s.v.home && t in s.pc && s.v.home[t] == Some(RUNNING) && t in s.v.timedOut
    && (s.pc[t] == InWait || (s.pc[t] == InWaitUntil && !s.v.timedOut[t]))
  }

  ghost predicate TaskOk(s: State, t: Tid) {
    && t in s.v.home && t in s.pc && t in s.v.timedOut
    && (s.v.home[t] == Some(s.l) ==> s.pc[t] != Out && (s.pc[t] == InWaitUntil ==> !s.v.timedOut[t]))
    && (s.pc[t] != Out ==> s.v.home[t] == Some(s.l) || s.v.home[t] == Some(RUNNING))
    && (s.pc[t] == InPut ==> s.blockingPuts)
  }

  // Task t waits for a token.
  ghost predicate Waiting(s: State, t: Tid) {
    t in s.v.home && t in s.pc && s.v.home[t] == Some(s.l) && s.pc[t] != InPut
  }

  // While somebody waits there are no more tokens than tasks woken for one.
  ghost predicate NoneLost(s: State) {
    (exists t :: Waiting(s, t)) ==> s.tokens <= |Woken(s)|
  }

  ghost predicate Inv(s: State) {
    && Scheduling(s.v)
    && s.l in s.v.lists && s.l != RUNNING
    && (forall t :: t in s.v.home ==> TaskOk(s, t))
    && (!s.blockingPuts ==> NoneLost(s))
    && (s.max.Some? ==> s.tokens <= s.max.value)
    && s.tokens + s.got == s.put
  }

  // The effect of a region on the counters.
  function Counted(s: State, r: Region, pc: map<Tid, Pc>): State {
    s.(v := r.v, tokens := r.tokens, pc := pc,
       got := if r.outcome == Taken then s.got + 1 else s.got)
  }

  ghost function Step(s: State, op: Op): State
    requires Inv(s) && Enabled(s, op)
  {
    hide Wf, Scheduling, NoneLost, TaskOk, WaitRegion, WaitUntilRegion, PutBlockingRegion, KernelStep;
    RunsNow(s.v);
    var c := s.v.current;
    match op
    case Wait =>
      var r := WaitRegion(s.v, s.l, s.tokens);
      Counted(s, r, s.pc[c := if r.outcome == Taken then Out else InWait])
    case WaitUntil(d, t) =>
      var r := WaitUntilRegion(s.v, s.l, s.tokens, d, t);
      Counted(s, r, s.pc[c := if r.outcome == Blocked then InWaitUntil else Out])
    case ResumeUntil => Counted(s, TryRegion(s.v, s.tokens), s.pc[c := Out])
    case TryWait => Counted(s, TryRegion(s.v, s.tokens), s.pc)
    case Put =>
      var r := PutRegion(s.v, s.l, s.tokens, s.max);
      s.(v := r.v, tokens := r.tokens, put := if r.outcome == Taken then s.put + 1 else s.put)
    case PutBlocking =>
      var r := PutBlockingRegion(s.v, s.l, s.tokens, s.max);
      s.(v := r.v, tokens := r.tokens, put := if r.outcome == Taken then s.put + 1 else s.put,
         pc := s.pc[c := if r.outcome == Blocked then InPut else Out])
    case Other(k) => s.(v := KernelStep(s.v, {s.l}, k), pc := PcAfter(s.pc, k, Out))
  }

  // ----- every step keeps the invariant

  lemma Bound(s: State, r: State, t: Tid)
    requires Inv(s)
    requires forall x :: Waiting(r, x) ==> Waiting(s, x)
    requires Woken(r) >= Woken(s) - {t}
    requires r.tokens <= s.tokens && (t in Woken(s) ==> r.tokens < s.tokens) && NoneLost(s)
    ensures NoneLost(r)
  {
    hide Scheduling, TaskOk, Woken, Waiting;
    if x :| Waiting(r, x) {
      assert Waiting(s, x);
      SubsetSize(Woken(s) - {t}, Woken(r));
      assert t in Woken(s) ==> |Woken(s) - {t}| == |Woken(s)| - 1;
      assert t !in Woken(s) ==> Woken(s) - {t} == Woken(s);
    }
  }

  lemma SubsetSize(a: set<Tid>, b: set<Tid>)
    requires a <= b
    ensures |a| <= |b|
  {
    assert |b - a| + |a| == |b| by {
      assert b == (b - a) + a;
    }
  }

  // Current takes a token: its own, if it was woken for one.
  lemma TakeKeeps(s: State, pc: map<Tid, Pc>)
    requires Inv(s) && s.tokens > 0 && s.v.current in s.pc
    requires pc == s.pc || pc == s.pc[s.v.current := Out]
    ensures Inv(s.(tokens := s.tokens - 1, pc := pc, got := s.got + 1))
  {
    hide Wf, Settled, NoneLost;
    RunsNow(s.v);
    var r := s.(tokens := s.tokens - 1, pc := pc, got := s.got + 1);
    forall t | t in r.v.home ensures TaskOk(r, t) {
      assert TaskOk(s, t);
    }
    if !s.blockingPuts {
      Bound(s, r, s.v.current);
    }
  }

  // Current queues up, because there is nothing to take, or no room to put.
  lemma BlockKeeps(s: State, v: View, p: Pc)
    requires Inv(s) && (if p == InPut then s.blockingPuts else s.tokens == 0)
    requires p != Out && s.v.current in s.pc && s.v.current != IDLE
    requires v.timedOut == s.v.timedOut || v.timedOut == s.v.timedOut[s.v.current := false]
    requires p == InWaitUntil ==> v.timedOut == s.v.timedOut[s.v.current := false]
    requires Wf(v) && v.lists.Keys == s.v.lists.Keys && v.home == s.v.home[s.v.current := Some(s.l)]
    requires forall t :: t in v.timeouts ==> t in s.v.timeouts || t == s.v.current
    ensures Inv(s.(v := Resched(v), pc := s.pc[s.v.current := p]))
  {
    hide Wf, Settled, Resched;
    RunsNow(s.v);
    var r := s.(v := Resched(v), pc := s.pc[s.v.current := p]);
    forall t | t in v.home ensures TaskOk(r, t) {
      assert TaskOk(s, t);
    }
    Settles(v);
  }

  // A timed wait gives up.
  lemma FailKeeps(s: State)
    requires Inv(s) && s.tokens == 0 && s.v.current in s.pc
    ensures Inv(s.(pc := s.pc[s.v.current := Out]))
  {
    hide Wf, Settled;
    RunsNow(s.v);
    var r := s.(pc := s.pc[s.v.current := Out]);
    forall t | t in r.v.home ensures TaskOk(r, t) {
      assert TaskOk(s, t);
    }
  }

  // A token put while somebody waits is matched by the task that is woken for it.
  lemma PutWakes(s: State)
    requires Inv(s) && s.v.lists[s.l] != [] && (s.max.Some? ==> s.tokens < s.max.value)
    ensures s.v.lists[s.l][0] in s.v.home
    ensures Inv(s.(v := Resched(Wake(s.v, s.v.lists[s.l][0])), tokens := s.tokens + 1, put := s.put + 1))
  {
    hide Wf, Settled, Wake, Resched;
    FirstKnown(s.v, s.l);
    var h := s.v.lists[s.l][0];
    var r := s.(v := Resched(Wake(s.v, h)), tokens := s.tokens + 1, put := s.put + 1);
    assert TaskOk(s, h);
    forall t | t in r.v.home ensures TaskOk(r, t) {
      assert TaskOk(s, t);
    }
    Settles(Wake(s.v, h));
    if !s.blockingPuts {
      assert Waiting(s, h);
      assert Woken(r) == Woken(s) + {h} && h !in Woken(s);
    }
  }

  lemma PutKeeps(s: State)
    requires Inv(s)
    ensures Inv(Step(s, Put))
  {
    hide Wf, Settled, Wake, Resched, Woken, WokenFor, TaskOk;
    if s.v.lists[s.l] == [] {
      EmptyList(s.v, s.l);
      var r := Step(s, Put);
      forall t | t in r.v.home ensures TaskOk(r, t) {
        SameTask(s, r, t);
      }
    } else if s.max.Some? && s.tokens >= s.max.value {
      assert Step(s, Put) == s;
    } else {
      PutWakes(s);
    }
  }

  lemma SameTask(s: State, r: State, t: Tid)
    requires TaskOk(s, t) && r.v == s.v && r.l == s.l && r.pc == s.pc && r.blockingPuts == s.blockingPuts
    ensures TaskOk(r, t)
  {
  }

  // A put that has waited for room is over.
  lemma LeavePut(s: State, c: Tid)
    requires Inv(s) && s.blockingPuts && c in s.v.home && s.v.home[c] == Some(RUNNING)
    ensures Inv(s.(pc := s.pc[c := Out]))
  {
    hide Wf, Scheduling, NoneLost;
    var r := s.(pc := s.pc[c := Out]);
    forall t | t in r.v.home ensures TaskOk(r, t) {
      assert TaskOk(s, t);
    }
  }

  lemma PutBlockingKeeps(s: State)
    requires Inv(s) && Enabled(s, PutBlocking)
    ensures Inv(Step(s, PutBlocking))
  {
    hide Wf, Settled, NoneLost, TaskOk, Move, Wake, Resched;
    RunsNow(s.v);
    var c := s.v.current;
    if s.max.Some? && s.tokens >= s.max.value {
      BlockKeeps(s, Move(s.v, c, s.l), InPut);
    } else {
      PutKeeps(s);
      FirstIn(s.v, s.l);
      LeavePut(Step(s, Put), c);
    }
  }

  lemma FirstIn(v: View, l: Lid)
    requires Wf(v) && l in v.lists
    ensures v.lists[l] != [] ==> v.lists[l][0] in v.home && v.home[v.lists[l][0]] == Some(l)
  {
    if v.lists[l] != [] {
      FirstKnown(v, l);
    }
  }

  lemma RunningUntimed(v: View)
    requires Scheduling(v)
    ensures forall t :: t in v.home && v.home[t] == Some(RUNNING) ==> t !in v.timeouts
  {
  }

  lemma OtherKeeps(s: State, k: KernelOp)
    requires Inv(s) && Enabled(s, Other(k))
    ensures Inv(Step(s, Other(k)))
  {
    hide Wf, Scheduling, KernelStep, NoneLost, KernelEnabled;
    KernelKeeps(s.v, {s.l}, k);
    RunningUntimed(s.v);
    var r := Step(s, Other(k));
    forall t | t in r.v.home ensures TaskOk(r, t) {
      OtherTask(s, r, k, t);
    }
    if !s.blockingPuts {
      forall t | t in r.v.home ensures (t in Woken(s) ==> t in Woken(r)) && (Waiting(r, t) ==> Waiting(s, t)) {
        OtherTask(s, r, k, t);
      }
      WokenKnown(s);
      OtherBound(s, r);
    }
  }

  lemma WokenKnown(s: State)
    ensures forall t :: t in Woken(s) ==> t in s.v.home
  {
  }

  lemma OtherTask(s: State, r: State, k: KernelOp, t: Tid)
    requires Inv(s) && Enabled(s, Other(k)) && r == Step(s, Other(k)) && t in r.v.home
    requires KernelEffect(s.v, r.v, k)
      && forall x :: x in s.v.home && s.v.home[x] == Some(RUNNING) ==> x !in s.v.timeouts
    ensures TaskOk(r, t) && (t in Woken(s) ==> t in Woken(r)) && (Waiting(r, t) ==> Waiting(s, t))
  {
    hide Wf, Scheduling, KernelStep, NoneLost;
    assert t in s.v.home ==> TaskOk(s, t);
    assert t in s.v.home ==> Stays(s.v, r.v, t) || Moved(s.v, r.v, k, t);
    assert t !in s.v.home ==> Appears(r.v, k, t);
  }

  lemma OtherBound(s: State, r: State)
    requires Inv(s) && r.tokens == s.tokens && Woken(r) >= Woken(s) && NoneLost(s)
    requires forall t :: Waiting(r, t) ==> Waiting(s, t)
    ensures NoneLost(r)
  {
    hide Scheduling, TaskOk, Woken, Waiting;
    if x :| Waiting(r, x) {
      assert Waiting(s, x);
      SubsetSize(Woken(s), Woken(r));
    }
  }

  lemma StepKeeps(s: State, op: Op)
    requires Inv(s) && Enabled(s, op)
    ensures Inv(Step(s, op))
  {
    hide Wf, Settled, NoneLost, TaskOk, Move, Arm, Resched;
    RunsNow(s.v);
    var c := s.v.current;
    assert TaskOk(s, c);
    CurrentListed(s);
    match op
    case Wait =>
      if s.tokens == 0 {
        BlockKeeps(s, Move(s.v, c, s.l), InWait);
      } else {
        TakeKeeps(s, s.pc[c := Out]);
      }
    case WaitUntil(d, t) =>
      if s.tokens > 0 {
        TakeKeeps(s, s.pc[c := Out]);
      } else if d <= t {
        FailKeeps(s);
      } else {
        BlockKeeps(s, Move(Arm(s.v, c, d), c, s.l), InWaitUntil);
      }
    case ResumeUntil =>
      if s.tokens > 0 {
        TakeKeeps(s, s.pc[c := Out]);
      } else {
        FailKeeps(s);
      }
    case TryWait =>
      if s.tokens > 0 {
        TakeKeeps(s, s.pc);
      }
    case Put => PutKeeps(s);
    case PutBlocking => PutBlockingKeeps(s);
    case Other(k) => OtherKeeps(s, k);
  }

  lemma CurrentListed(s: State)
    requires Inv(s)
    ensures s.v.current in s.pc && s.v.current in s.v.home
  {
    hide Wf;
    RunsNow(s.v);
    assert TaskOk(s, s.v.current);
  }

  // ----- all runs

  ghost function Run(s: State, ops: seq<Op>): State
    requires Inv(s)
    decreases |ops|
  {
    hide Inv, Enabled, Step;
    if ops == [] then s
    else if Enabled(s, ops[0]) then StepKeeps(s, ops[0]); Run(Step(s, ops[0]), ops[1..])
    else Run(s, ops[1..])
  }

  lemma {:induction false} RunKeeps(s: State, ops: seq<Op>)
    requires Inv(s)
    ensures Inv(Run(s, ops))
    ensures Run(s, ops).blockingPuts == s.blockingPuts && Run(s, ops).max == s.max && Run(s, ops).l == s.l
    decreases |ops|
  {
    hide Inv, Enabled, Step;
    if ops != [] {
      if Enabled(s, ops[0]) {
        StepKeeps(s, ops[0]);
        StepSame(s, ops[0]);
        RunKeeps(Step(s, ops[0]), ops[1..]);
      } else {
        RunKeeps(s, ops[1..]);
      }
    }
  }

  lemma {:induction false} RunConcat(s: State, a: seq<Op>, b: seq<Op>)
    requires Inv(s)
    ensures Inv(Run(s, a)) && Run(s, a + b) == Run(Run(s, a), b)
    decreases |a|
  {
    hide Inv, Enabled, Step;
    RunKeeps(s, a);
    if a == [] {
      assert a + b == b;
    } else {
      assert (a + b)[1..] == a[1..] + b && (a + b)[0] == a[0];
      if Enabled(s, a[0]) {
        StepKeeps(s, a[0]);
        RunConcat(Step(s, a[0]), a[1..], b);
      } else {
        RunConcat(s, a[1..], b);
      }
    }
  }

  lemma StepSame(s: State, op: Op)
    requires Inv(s) && Enabled(s, op)
    ensures var r := Step(s, op); r.blockingPuts == s.blockingPuts && r.max == s.max && r.l == s.l
  {
    hide Inv, Enabled;
  }

  // Nobody is in a wait.
  ghost predicate Initial(s: State) {
    && Scheduling(s.v) && Fields(s.v) && s.l in s.v.lists && s.l != RUNNING
    && (forall t :: t in s.v.home ==> t in s.pc && s.pc[t] == Out && s.v.home[t] != Some(s.l))
    && (s.max.Some? ==> s.tokens <= s.max.value) && s.put == s.tokens && s.got == 0
  }

  lemma InitialInv(s: State)
    requires Initial(s)
    ensures Inv(s)
  {
    hide Wf;
  }

  // After any run, if puts never wait for room: if a task waits although there are tokens, at
  // least as many tasks have been woken for them and are on their way.  And no token is
  // made or lost.
  lemma NoLostWakeup(s: State, ops: seq<Op>, t: Tid)
    requires Initial(s) && !s.blockingPuts
    ensures var r := (InitialInv(s); Run(s, ops));
      && (Waiting(r, t) ==> r.tokens <= |Woken(r)|)
      && (Waiting(r, t) && r.tokens > 0 ==> exists x :: x in Woken(r))
      && r.tokens + r.got == r.put && (r.max.Some? ==> r.tokens <= r.max.value)
  {
    hide Inv, Initial, Woken, Waiting, Run;
    InitialInv(s);
    RunKeeps(s, ops);
    var r := Run(s, ops);
    CountsKnown(r);
    if Waiting(r, t) {
      ServedOne(r, t);
      if r.tokens > 0 {
        SomeMember(Woken(r));
      }
    }
  }

  lemma CountsKnown(s: State)
    requires Inv(s)
    ensures s.tokens + s.got == s.put && (s.max.Some? ==> s.tokens <= s.max.value)
  {
    hide Scheduling;
  }

  lemma ServedOne(s: State, t: Tid)
    requires Inv(s) && !s.blockingPuts && Waiting(s, t)
    ensures s.tokens <= |Woken(s)|
  {
    hide Scheduling, Woken, Waiting;
  }

  lemma SomeMember(a: set<Tid>)
    requires |a| > 0
    ensures exists x :: x in a
  {
    assert a != {};
  }

  // A blocking wait that finds no token in the counter blocks, and every token taken was
  // there: an acquisition lowers the counter by one.
  lemma TakenOnce(s: State, op: Op)
    requires Inv(s) && Enabled(s, op)
    ensures var r := Step(s, op);
      && (r.got == s.got || (r.got == s.got + 1 && r.tokens == s.tokens - 1 && r.v == s.v))
      && (r.put == s.put || (r.put == s.put + 1 && r.tokens == s.tokens + 1))
      && (r.got == s.got && r.put == s.put ==> r.tokens == s.tokens)
  {
    hide Wf, Settled, NoneLost, TaskOk, Move, Arm, Resched, Wake, KernelStep;
    RunsNow(s.v);
  }

  // ----- what each operation does

  // A wait takes a token, or current waits on the list and another task runs.
  lemma WaitGives(s: State)
    requires Inv(s) && Enabled(s, Wait)
    ensures var r, c := Step(s, Wait), s.v.current;
      if s.tokens > 0 then r == s.(tokens := s.tokens - 1, got := s.got + 1, pc := s.pc[c := Out])
      else Blocks(s.v, r.v, s.l) && r == s.(v := r.v, pc := s.pc[c := InWait])
  {
    hide Wf, Scheduling, NoneLost, TaskOk, Move, Resched, Blocks;
    RunsNow(s.v);
    MoveBlocks(s.v, s.l);
  }

  // A timed wait takes a token, or gives up at a deadline d that has come at time t, or
  // current waits on the list until d and another task runs.
  lemma WaitUntilGives(s: State, d: int, t: int)
    requires Inv(s) && Enabled(s, WaitUntil(d, t))
    ensures var r, c := Step(s, WaitUntil(d, t)), s.v.current;
      if s.tokens > 0 then r == s.(tokens := s.tokens - 1, got := s.got + 1, pc := s.pc[c := Out])
      else if d <= t then r == s.(pc := s.pc[c := Out])
      else BlocksUntil(s.v, r.v, s.l, d) && r == s.(v := r.v, pc := s.pc[c := InWaitUntil]) && TimedWait(r, c, d)
  {
    hide Wf, Settled, NoneLost, TaskOk, Arm, Move, Resched, Goes, InTime;
    RunsNow(s.v);
    ArmBlocks(s.v, s.l, d);
    BlockedHome(s.v, Step(s, WaitUntil(d, t)).v, s.l, d);
  }

  lemma BlockedHome(v: View, r: View, l: Lid, d: int)
    requires v.current in v.timedOut
    ensures BlocksUntil(v, r, l, d) ==> v.current in r.home && r.home[v.current] == Some(l)
  {
    hide Scheduling;
  }

  // A resumed timed wait, and an attempt that does not wait, take a token if there is one.
  lemma TryGives(s: State, op: Op)
    requires Inv(s) && Enabled(s, op) && (op == ResumeUntil || op == TryWait)
    ensures s.v.current in s.pc
    ensures var r, pc := Step(s, op), if op == TryWait then s.pc else s.pc[s.v.current := Out];
      if s.tokens > 0 then r == s.(tokens := s.tokens - 1, got := s.got + 1, pc := pc) else r == s.(pc := pc)
  {
    hide Wf, Scheduling, NoneLost, TaskOk;
    CurrentListed(s);
  }

  // A put adds a token, unless there are as many as there may be, and wakes the waiter of
  // highest priority, if somebody waits.
  lemma PutGives(s: State)
    requires Inv(s)
    ensures var r := Step(s, Put);
      if s.max.Some? && s.tokens >= s.max.value then r == s
      else
        && r == s.(v := r.v, tokens := s.tokens + 1, put := s.put + 1)
        && (if Nobody(s.v, s.l) then r.v == s.v else WakesFirst(s.v, r.v, s.l))
  {
    hide Wf, Scheduling, NoneLost, TaskOk, Wake, Resched, WakesFirst;
    RunsNow(s.v);
    EmptyList(s.v, s.l);
    if s.v.lists[s.l] != [] {
      FirstWakes(s.v, s.l);
    }
  }

  // A put that finds no room waits for it, among the tasks that wait for a token.
  lemma PutBlockingGives(s: State)
    requires Inv(s) && Enabled(s, PutBlocking)
    ensures var r, c := Step(s, PutBlocking), s.v.current;
      if s.max.Some? && s.tokens >= s.max.value then
        Blocks(s.v, r.v, s.l) && r == s.(v := r.v, pc := s.pc[c := InPut])
      else r == Step(s, Put).(pc := s.pc[c := Out])
  {
    hide Wf, Scheduling, NoneLost, TaskOk, Move, Wake, Resched, Blocks;
    RunsNow(s.v);
    MoveBlocks(s.v, s.l);
  }

  // Task t waits until deadline d.
  ghost predicate TimedWait(s: State, t: Tid, d: int) {
    && t in s.v.home && s.v.home[t] == Some(s.l) && t in s.pc && s.pc[t] == InWaitUntil
    && t in s.v.timeouts && t in s.v.deadline && s.v.deadline[t] == d && t in s.v.timedOut && !s.v.timedOut[t]
  }

  // Task t has been woken by a put, as the first that waits.
  ghost predicate Signalled(s: State, r: State, t: Tid) {
    && WakesFirst(s.v, r.v, s.l) && s.v.lists[s.l][0] == t && r.tokens == s.tokens + 1
    && t in r.v.timedOut && !r.v.timedOut[t]
  }

  // Task t has been woken by its timeout.
  ghost predicate Expired(r: State, t: Tid) {
    && t in r.v.home && r.v.home[t] == Some(RUNNING) && t !in r.v.timeouts
    && t in r.v.timedOut && r.v.timedOut[t] && t in r.pc && r.pc[t] == InWaitUntil
  }

  // A task that waits until d is woken by a tick at d or later, and goes on waiting until d
  // in every other step, but for a put that wakes it.
  lemma WaitsOn(s: State, op: Op, t: Tid, d: int)
    requires Inv(s) && Enabled(s, op) && TimedWait(s, t, d)
    ensures var r := Step(s, op);
      if op.Other? && op.op.TickAt? && d <= op.op.now then Expired(r, t)
      else TimedWait(r, t, d) || ((op == Put || op == PutBlocking) && Signalled(s, r, t))
  {
    hide Wf, Settled, NoneLost, TaskOk, Step, KernelEnabled, Blocks, BlocksUntil, WakesFirst;
    RunsNow(s.v);
    match op
    case Wait =>
      WaitGives(s);
      BlockOther(s, Step(s, op).v, t, 0);
    case WaitUntil(e, now) =>
      WaitUntilGives(s, e, now);
      BlockOther(s, Step(s, op).v, t, e);
    case ResumeUntil => TryGives(s, op);
    case TryWait => TryGives(s, op);
    case Put => PutOther(s, t, d);
    case PutBlocking =>
      PutBlockingGives(s);
      BlockOther(s, Step(s, op).v, t, 0);
      PutOther(s, t, d);
    case Other(k) => KernelOther(s, k, t, d);
  }

  // Another task queues up.
  lemma BlockOther(s: State, r: View, t: Tid, e: int)
    requires Inv(s) && t in s.v.home && s.v.home[t] == Some(s.l)
    ensures Blocks(s.v, r, s.l) || BlocksUntil(s.v, r, s.l, e) ==>
      && t != s.v.current && t in r.home && r.home[t] == Some(s.l) && (t in s.v.timeouts ==> t in r.timeouts)
      && (t in s.v.deadline ==> t in r.deadline && r.deadline[t] == s.v.deadline[t])
      && (t in s.v.timedOut ==> t in r.timedOut && r.timedOut[t] == s.v.timedOut[t])
  {
    hide Settled, NoneLost, TaskOk, OthersInOrder, BehindEquals;
    RunsNow(s.v);
    if BlocksUntil(s.v, r, s.l, e) {
      DropMembers(r.timeouts, s.v.current);
    }
  }

  lemma PutOther(s: State, t: Tid, d: int)
    requires Inv(s) && TimedWait(s, t, d)
    ensures var r := Step(s, Put); TimedWait(r, t, d) || Signalled(s, r, t)
  {
    hide Settled, NoneLost, TaskOk, OthersInOrder, BehindEquals, Step;
    RunsNow(s.v);
    PutGives(s);
    if !(s.max.Some? && s.tokens >= s.max.value) {
      assert !Nobody(s.v, s.l);
      DropMembers(s.v.timeouts, s.v.lists[s.l][0]);
    }
  }

  lemma KernelOther(s: State, k: KernelOp, t: Tid, d: int)
    requires Inv(s) && Enabled(s, Other(k)) && TimedWait(s, t, d)
    ensures var r := Step(s, Other(k)); if k.TickAt? && d <= k.now then Expired(r, t) else TimedWait(r, t, d)
  {
    hide Wf, Scheduling, NoneLost, TaskOk, KernelEnabled, KernelEffect;
    RunsNow(s.v);
    KernelKeeps(s.v, {s.l}, k);
    DeadlinesKept(s.v, {s.l}, k, t);
    if k.TickAt? {
      TickExact(s.v, k.now, t);
    }
  }
}
