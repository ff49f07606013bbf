// src/rwlock.c: readers and writers, with preference for queued writers and hand-over of
// the lock to the writer that is woken.

module RwSpec {
  import opened Seqs
  import opened Sched

  datatype Outcome = Acquired | Blocked | Failed

  datatype Region = Region(v: View, writer: Option<Tid>, readers: int, outcome: Outcome)

  // Readers wait for a writer that has the lock and for writers that are queued.
  predicate RdBusy(v: View, wr: Lid, writer: Option<Tid>)
    requires wr in v.lists
  {
    writer.Some? || v.lists[wr] != []
  }

  // Writers wait for another writer and for readers; a writer that was handed the lock
  // finds itself in the writer field.
  predicate WrBusy(v: View, writer: Option<Tid>, readers: int) {
    (writer.Some? && writer.value != v.current) || readers != 0
  }

  // One pass of gyros_rwlock_rdlock.
  function RdLock(v: View, rd: Lid, wr: Lid, writer: Option<Tid>, readers: int): Region
    requires Wf(v) && rd in v.lists && wr in v.lists && v.current in v.home
  {
    if RdBusy(v, wr, writer) then Region(Resched(Move(v, v.current, rd)), writer, readers, Blocked)
    else Region(v, writer, readers + 1, Acquired)
  }

  // gyros_rwlock_try_rdlock
  function TryRdLock(v: View, wr: Lid, writer: Option<Tid>, readers: int): Region
    requires wr in v.lists
  {
    if RdBusy(v, wr, writer) then Region(v, writer, readers, Failed) else Region(v, writer, readers + 1, Acquired)
  }

  // One pass of the loop of gyros_rwlock_rdlock_until, for deadline d at time c.
  function RdLockUntil(v: View, rd: Lid, wr: Lid, writer: Option<Tid>, readers: int, d: int, c: int): Region
    requires Wf(v) && rd in v.lists && wr in v.lists && v.current in v.home && v.current !in v.timeouts
  {
    if !RdBusy(v, wr, writer) then Region(v, writer, readers + 1, Acquired)
    else if d <= c then Region(v, writer, readers, Failed)
    else Region(Resched(Move(Arm(v, v.current, d), v.current, rd)), writer, readers, Blocked)
  }

  // One pass of gyros_rwlock_wrlock.
  function WrLock(v: View, wr: Lid, writer: Option<Tid>, readers: int): Region
    requires Wf(v) && wr in v.lists && v.current in v.home
  {
    if WrBusy(v, writer, readers) then Region(Resched(Move(v, v.current, wr)), writer, readers, Blocked)
    else Region(v, Some(v.current), readers, Acquired)
  }

  // gyros_rwlock_try_wrlock
  function TryWrLock(v: View, writer: Option<Tid>, readers: int): Region {
    if WrBusy(v, writer, readers) then Region(v, writer, readers, Failed)
    else Region(v, Some(v.current), readers, Acquired)
  }

  // One pass of the loop of gyros_rwlock_wrlock_until, for deadline d at time c.
  function WrLockUntil(v: View, wr: Lid, writer: Option<Tid>, readers: int, d: int, c: int): Region
    requires Wf(v) && wr in v.lists && v.current in v.home && v.current !in v.timeouts
  {
    if !WrBusy(v, writer, readers) then Region(v, Some(v.current), readers, Acquired)
    else if d <= c then Region(v, writer, readers, Failed)
    else Region(Resched(Move(Arm(v, v.current, d), v.current, wr)), writer, readers, Blocked)
  }

  // What a resumed timed wait does first.
  function Resumed(v: View, writer: Option<Tid>, readers: int, retry: Region): Region {
    if v.current in v.timedOut && v.timedOut[v.current] then Region(v, writer, readers, Failed) else retry
  }

  // gyros_rwlock_unlock
  function Unlock(v: View, rd: Lid, wr: Lid, writer: Option<Tid>, readers: int): Region
    requires Wf(v) && rd in v.lists && wr in v.lists && rd != RUNNING
  {
    var n := if writer.Some? then readers else readers - 1;
    if v.lists[wr] != [] then
      if n == 0 then
        FirstKnown(v, wr);
        Region(Resched(Wake(v, v.lists[wr][0])), Some(v.lists[wr][0]), n, Acquired)
      else Region(Resched(v), None, n, Acquired)
    else Region(Resched(WakeAll(v, rd)), None, n, Acquired)
  }
}

module RwProtocol {
  import opened Seqs
  import opened Sched
  import opened Bystander
  import opened Order
  import opened Effects
  import opened RwSpec

  datatype Pc = Out | RdWait(timed: bool) | WrWait(timed: bool) | RdHold | WrHold

  datatype State = State(v: View, rd: Lid, wr: Lid, writer: Option<Tid>, readers: int, pc: map<Tid, Pc>)

  datatype Op =
    | RdLockOp                        // by current: from outside, or resumed
    | TryRdLockOp
    | RdLockUntilOp(d: int, c: int)   // by current, from outside
    | RdResumeOp(d: int, c: int)      // by current, resumed in the timed wait
    | WrLockOp
    | TryWrLockOp
    | WrLockUntilOp(d: int, c: int)
    | WrResumeOp(d: int, c: int)
    | UnlockOp
    | OtherOp(op: KernelOp)

  // Unlocks are balanced and nobody locks recursively.
  ghost predicate Enabled(s: State, op: Op) {
    && s.v.current in s.pc
    && var p := s.pc[s.v.current];
       match op
       case RdLockOp => (p == Out || p == RdWait(false)) && s.v.current != IDLE
       case TryRdLockOp => p == Out
       case RdLockUntilOp(d, c) => p == Out && s.v.current != IDLE
       case RdResumeOp(d, c) => p == RdWait(true) && s.v.current != IDLE
       case WrLockOp => (p == Out || p == WrWait(false)) && s.v.current != IDLE
       case TryWrLockOp => p == Out
       case WrLockUntilOp(d, c) => p == Out && s.v.current != IDLE
       case WrResumeOp(d, c) => p == WrWait(true) && s.v.current != IDLE
       case UnlockOp => p == RdHold || p == WrHold
       case OtherOp(k) =>
         && KernelEnabled(s.v, {s.rd, s.wr}, k)
         && (k.YieldOp? || k.BlockOn? || k.BlockUntil? || k.SleepUntil? ==> !p.RdWait? && !p.WrWait?)
         && (k.SuspendTask? ==> k.t in s.pc && !s.pc[k.t].RdWait? && !s.pc[k.t].WrWait?)
  }

  ghost predicate TaskOk(s: State, t: Tid) {
    && t in s.v.home && t in s.pc && t in s.v.timedOut
    && (s.v.home[t] == Some(s.rd) ==> s.pc[t].RdWait?)
    && (s.v.home[t] == Some(s.wr) ==> s.pc[t].WrWait? && s.writer != Some(t) && (s.pc[t].timed ==> !s.v.timedOut[t]))
    && (s.pc[t].RdWait? ==> s.v.home[t] == Some(s.rd) || s.v.home[t] == Some(RUNNING))
    && (s.pc[t].WrWait? ==> s.v.home[t] == Some(s.wr) || s.v.home[t] == Some(RUNNING))
    && (s.pc[t] == WrHold ==> s.writer == Some(t))
    && (s.writer == Some(t) ==> s.pc[t] == WrHold || Granted(s, t))
  }

  // Task t has been handed the lock in gyros_rwlock_unlock and is about to resume.
  ghost predicate Granted(s: State, t: Tid) {
    && t in s.v.home && t in s.pc && t in s.v.timedOut
    && s.pc[t].WrWait? && s.v.home[t] == Some(RUNNING) && (s.pc[t].timed ==> !s.v.timedOut[t])
  }

  ghost function Readers(s: State): set<Tid> {
    set t | t in s.pc && t in s.v.home && s.pc[t] == RdHold
  }

  ghost predicate Queued(s: State, t: Tid) {
    t in s.v.home && (s.v.home[t] == Some(s.rd) || s.v.home[t] == Some(s.wr))
  }

  ghost predicate Held(s: State) {
    s.writer.Some? || s.readers > 0
  }

  ghost predicate LockOk(s: State) {
    && s.readers == |Readers(s)|
    && (s.writer.Some? ==> s.readers == 0 && s.writer.value in s.v.home)
    && (forall t {:trigger Queued(s, t)} :: Queued(s, t) ==> Held(s))
  }

  ghost predicate Lists(s: State) {
    s.rd in s.v.lists && s.wr in s.v.lists && s.rd != RUNNING && s.wr != RUNNING && s.rd != s.wr
  }

  ghost predicate Inv(s: State) {
    && Scheduling(s.v) && Lists(s)
    && (forall t :: t in s.v.home ==> TaskOk(s, t))
    && LockOk(s)
  }

  // The state after a region: current's new place depends on the outcome.
  function After(s: State, r: Region, acquired: Pc, blocked: Pc): State {
    State(r.v, s.rd, s.wr, r.writer, r.readers,
          s.pc[s.v.current := match r.outcome case Acquired => acquired case Blocked => blocked case Failed => Out])
  }

  ghost function Step(s: State, op: Op): State
    requires Inv(s) && Enabled(s, op)
  {
    hide Wf, Scheduling, TaskOk, LockOk, RdLock, RdLockUntil, WrLock, WrLockUntil, Unlock, KernelStep;
    RunsNow(s.v);
    match op
    case RdLockOp => After(s, RdLock(s.v, s.rd, s.wr, s.writer, s.readers), RdHold, RdWait(false))
    case TryRdLockOp => After(s, TryRdLock(s.v, s.wr, s.writer, s.readers), RdHold, Out)
    case RdLockUntilOp(d, c) => After(s, RdLockUntil(s.v, s.rd, s.wr, s.writer, s.readers, d, c), RdHold, RdWait(true))
    case RdResumeOp(d, c) =>
      After(s, Resumed(s.v, s.writer, s.readers, RdLockUntil(s.v, s.rd, s.wr, s.writer, s.readers, d, c)), RdHold,
        RdWait(true))
    case WrLockOp => After(s, WrLock(s.v, s.wr, s.writer, s.readers), WrHold, WrWait(false))
    case TryWrLockOp => After(s, TryWrLock(s.v, s.writer, s.readers), WrHold, Out)
    case WrLockUntilOp(d, c) => After(s, WrLockUntil(s.v, s.wr, s.writer, s.readers, d, c), WrHold, WrWait(true))
    case WrResumeOp(d, c) =>
      After(s, Resumed(s.v, s.writer, s.readers, WrLockUntil(s.v, s.wr, s.writer, s.readers, d, c)), WrHold,
        WrWait(true))
    case UnlockOp => After(s, Unlock(s.v, s.rd, s.wr, s.writer, s.readers), Out, Out)
    case OtherOp(k) => s.(v := KernelStep(s.v, {s.rd, s.wr}, k), pc := PcAfter(s.pc, k, Out))
  }

  // ----- every step keeps the invariant

  lemma RdAcquireKeeps(s: State)
    requires Inv(s) && s.v.current in s.pc && !RdBusy(s.v, s.wr, s.writer)
    requires s.pc[s.v.current] == Out || s.pc[s.v.current].RdWait?
    ensures Inv(s.(readers := s.readers + 1, pc := s.pc[s.v.current := RdHold]))
  {
    hide Wf, Settled;
    RunsNow(s.v);
    var c := s.v.current;
    var r := s.(readers := s.readers + 1, pc := s.pc[c := RdHold]);
    forall t | t in r.v.home ensures TaskOk(r, t) {
      assert TaskOk(s, t);
    }
    assert Readers(r) == Readers(s) + {c} && c !in Readers(s);
  }

  lemma WrAcquireKeeps(s: State)
    requires Inv(s) && s.v.current in s.pc && !WrBusy(s.v, s.writer, s.readers)
    requires s.pc[s.v.current] == Out || s.pc[s.v.current].WrWait?
    ensures Inv(s.(writer := Some(s.v.current), pc := s.pc[s.v.current := WrHold]))
  {
    hide Wf, Settled;
    RunsNow(s.v);
    var c := s.v.current;
    var r := s.(writer := Some(c), pc := s.pc[c := WrHold]);
    forall t | t in r.v.home ensures TaskOk(r, t) {
      assert TaskOk(s, t);
    }
    assert Readers(r) == Readers(s);
  }

  // Current gives up; the lock has not been granted to it.
  lemma FailKeeps(s: State)
    requires Inv(s) && s.v.current in s.pc && s.writer != Some(s.v.current)
    requires s.pc[s.v.current] == Out || s.pc[s.v.current].RdWait? || s.pc[s.v.current].WrWait?
    ensures Inv(s.(pc := s.pc[s.v.current := Out]))
  {
    hide Wf, Settled;
    RunsNow(s.v);
    var r := s.(pc := s.pc[s.v.current := Out]);
    forall t | t in r.v.home ensures TaskOk(r, t) {
      assert TaskOk(s, t);
    }
    assert Readers(r) == Readers(s);
    forall t | Queued(r, t) ensures Held(r) {
      assert Queued(s, t);
    }
  }

  // Current may queue up on list l, because somebody has the lock.
  ghost predicate MayBlock(s: State, v: View, l: Lid, p: Pc) {
    && Inv(s) && s.v.current in s.pc && s.v.current != IDLE && s.writer != Some(s.v.current) && Held(s)
    && (s.pc[s.v.current] == Out || s.pc[s.v.current].RdWait? || s.pc[s.v.current].WrWait?)
    && ((l == s.rd && p.RdWait?) || (l == s.wr && p.WrWait?))
    && Wf(v) && v.lists.Keys == s.v.lists.Keys && v.home == s.v.home[s.v.current := Some(l)]
    && (v.timedOut == s.v.timedOut || v.timedOut == s.v.timedOut[s.v.current := false])
    && (p == WrWait(true) ==> v.timedOut == s.v.timedOut[s.v.current := false])
    && (forall t :: t in v.timeouts ==> t in s.v.timeouts || t == s.v.current)
  }

  lemma BlockTask(s: State, v: View, l: Lid, p: Pc, t: Tid)
    requires MayBlock(s, v, l, p) && t in v.home
    ensures TaskOk(s.(v := Resched(v), pc := s.pc[s.v.current := p]), t)
  {
    hide Wf, Settled, Resched, LockOk, Readers;
    RunsNow(s.v);
    assert TaskOk(s, t);
  }

  lemma BlockKeeps(s: State, v: View, l: Lid, p: Pc)
    requires MayBlock(s, v, l, p)
    ensures Inv(s.(v := Resched(v), pc := s.pc[s.v.current := p]))
  {
    hide Wf, Settled, Resched, TaskOk;
    RunsNow(s.v);
    var r := s.(v := Resched(v), pc := s.pc[s.v.current := p]);
    forall t | t in v.home ensures TaskOk(r, t) {
      BlockTask(s, v, l, p, t);
    }
    Settles(v);
    assert Readers(r) == Readers(s);
  }

  // If the lock is busy for a writer that has not been granted it, somebody has it.
  lemma WrBusyHeld(s: State)
    requires Inv(s) && WrBusy(s.v, s.writer, s.readers) && s.v.current in s.pc
    ensures Held(s) && s.writer != Some(s.v.current)
  {
    hide Scheduling, TaskOk;
  }

  lemma RdBusyHeld(s: State)
    requires Inv(s) && RdBusy(s.v, s.wr, s.writer)
    ensures Held(s)
  {
    hide Scheduling, TaskOk, Wf;
    SchedulingWf(s.v);
    EmptyList(s.v, s.wr);
    if s.v.lists[s.wr] != [] {
      var t :| t in s.v.home && s.v.home[t] == Some(s.wr);
      assert Queued(s, t);
    }
  }

  lemma NotGranted(s: State)
    requires Inv(s) && s.v.current in s.pc && s.v.current in s.v.home
    requires s.pc[s.v.current] == Out || s.pc[s.v.current].RdWait?
      || (s.pc[s.v.current] == WrWait(true) && s.v.current in s.v.timedOut && s.v.timedOut[s.v.current])
    ensures s.writer != Some(s.v.current)
  {
    hide Scheduling;
    assert TaskOk(s, s.v.current);
  }

  lemma RdLocks(s: State, op: Op)
    requires Inv(s) && Enabled(s, op) && (op.RdLockOp? || op.TryRdLockOp? || op.RdLockUntilOp? || op.RdResumeOp?)
    ensures Inv(Step(s, op))
  {
    hide Wf, Scheduling, TaskOk, LockOk, Move, Arm, Resched, RdBusy;
    RunsNow(s.v);
    NotGranted(s);
    var c := s.v.current;
    if op.RdResumeOp? && c in s.v.timedOut && s.v.timedOut[c] {
      FailKeeps(s);
    } else if !RdBusy(s.v, s.wr, s.writer) {
      RdAcquireKeeps(s);
    } else {
      RdBusyHeld(s);
      match op
      case RdLockOp => BlockKeeps(s, Move(s.v, c, s.rd), s.rd, RdWait(false));
      case TryRdLockOp => FailKeeps(s);
      case RdLockUntilOp(d, t) =>
        if d <= t { FailKeeps(s); } else { BlockKeeps(s, Move(Arm(s.v, c, d), c, s.rd), s.rd, RdWait(true)); }
      case RdResumeOp(d, t) =>
        if d <= t { FailKeeps(s); } else { BlockKeeps(s, Move(Arm(s.v, c, d), c, s.rd), s.rd, RdWait(true)); }
    }
  }

  lemma WrLocks(s: State, op: Op)
    requires Inv(s) && Enabled(s, op) && (op.WrLockOp? || op.TryWrLockOp? || op.WrLockUntilOp? || op.WrResumeOp?)
    ensures Inv(Step(s, op))
  {
    hide Wf, Scheduling, TaskOk, LockOk, Move, Arm, Resched, WrBusy;
    RunsNow(s.v);
    var c := s.v.current;
    if op.WrResumeOp? && c in s.v.timedOut && s.v.timedOut[c] {
      NotGranted(s);
      FailKeeps(s);
    } else if !WrBusy(s.v, s.writer, s.readers) {
      WrAcquireKeeps(s);
    } else {
      WrBusyHeld(s);
      match op
      case WrLockOp => BlockKeeps(s, Move(s.v, c, s.wr), s.wr, WrWait(false));
      case TryWrLockOp => FailKeeps(s);
      case WrLockUntilOp(d, t) =>
        if d <= t { FailKeeps(s); } else { BlockKeeps(s, Move(Arm(s.v, c, d), c, s.wr), s.wr, WrWait(true)); }
      case WrResumeOp(d, t) =>
        if d <= t { FailKeeps(s); } else { BlockKeeps(s, Move(Arm(s.v, c, d), c, s.wr), s.wr, WrWait(true)); }
    }
  }

  // The lock given back, before anybody is woken.
  function Released(s: State): State {
    s.(writer := None, readers := if s.writer.Some? then s.readers else s.readers - 1, pc := s.pc[s.v.current := Out])
  }

  // What holds of it.
  ghost predicate Free(s: State) {
    && Scheduling(s.v) && Lists(s)
    && (forall t :: t in s.v.home ==> TaskOk(s, t))
    && s.readers == |Readers(s)| && s.writer == None && s.v.current in s.pc && s.pc[s.v.current] == Out
  }

  lemma ReleasedFree(s: State)
    requires Inv(s) && Enabled(s, UnlockOp)
    ensures Free(Released(s))
  {
    hide Wf, Settled;
    RunsNow(s.v);
    var c := s.v.current;
    var r := Released(s);
    assert TaskOk(s, c);
    if s.pc[c] == RdHold {
      NoWriter(s, c);
    }
    forall t | t in r.v.home ensures TaskOk(r, t) {
      assert TaskOk(s, t);
    }
    if s.pc[c] == WrHold {
      assert Readers(r) == Readers(s);
    } else {
      assert Readers(r) == Readers(s) - {c} && c in Readers(s);
    }
  }

  lemma NoWriter(s: State, c: Tid)
    requires Inv(s) && c in s.v.home && c in s.pc && s.pc[c] == RdHold
    ensures s.writer == None
  {
    hide Scheduling, TaskOk;
    assert c in Readers(s);
  }

  lemma GrantKeeps(s: State)
    requires Free(s) && s.readers == 0 && s.v.lists[s.wr] != []
    ensures s.v.lists[s.wr][0] in s.v.home
    ensures Inv(s.(v := Resched(Wake(s.v, s.v.lists[s.wr][0])), writer := Some(s.v.lists[s.wr][0])))
  {
    hide Wf, Settled, Wake, Resched;
    RunsNow(s.v);
    FirstKnown(s.v, s.wr);
    var h := s.v.lists[s.wr][0];
    var r := s.(v := Resched(Wake(s.v, h)), writer := Some(h));
    assert TaskOk(s, h);
    forall t | t in r.v.home ensures TaskOk(r, t) {
      assert TaskOk(s, t);
    }
    Settles(Wake(s.v, h));
    assert Readers(r) == Readers(s);
  }

  lemma WakeReadersKeeps(s: State)
    requires Free(s) && s.v.lists[s.wr] == []
    ensures Inv(s.(v := Resched(WakeAll(s.v, s.rd))))
  {
    hide Wf, Settled, WakeAll, Resched;
    RunsNow(s.v);
    EmptyList(s.v, s.wr);
    WakeAllEffect(s.v, s.rd);
    FieldsKnown(s.v);
    var w := WakeAll(s.v, s.rd);
    var r := s.(v := Resched(w));
    forall t | t in r.v.home ensures TaskOk(r, t) {
      assert TaskOk(s, t);
    }
    Settles(w);
    assert Readers(r) == Readers(s);
  }

  lemma StillRead(s: State)
    requires Free(s) && s.readers != 0
    ensures Inv(s.(v := Resched(s.v)))
  {
    hide Wf, Settled, Resched;
    RunsNow(s.v);
    var r := s.(v := Resched(s.v));
    forall t | t in r.v.home ensures TaskOk(r, t) {
      assert TaskOk(s, t);
    }
    Settles(s.v);
    assert Readers(r) == Readers(s);
  }

  lemma UnlockKeeps(s: State)
    requires Inv(s) && Enabled(s, UnlockOp)
    ensures Inv(Step(s, UnlockOp))
  {
    hide Wf, Scheduling, TaskOk, LockOk, Wake, WakeAll, Resched, Readers;
    RunsNow(s.v);
    ReleasedFree(s);
    var f := Released(s);
    if s.v.lists[s.wr] != [] {
      if f.readers == 0 {
        GrantKeeps(f);
      } else {
        StillRead(f);
      }
    } else {
      WakeReadersKeeps(f);
    }
  }

  // A task that waits for the lock stays where it is, or its timeout expires; another one does
  // not get onto the lists.
  lemma OtherMoves(s: State, r: State, k: KernelOp, t: Tid)
    requires Inv(s) && Enabled(s, OtherOp(k)) && r == Step(s, OtherOp(k)) && t in s.v.home && KernelEffect(s.v, r.v, k)
    ensures t in s.pc && t in r.pc && r.pc[t] == s.pc[t] && t in r.v.home && t in r.v.timedOut
    ensures if s.pc[t].RdWait? || s.pc[t].WrWait? then
              Stays(s.v, r.v, t) || (t in s.v.timeouts && r.v.home[t] == Some(RUNNING) && r.v.timedOut[t])
            else r.v.home[t] != Some(s.rd) && r.v.home[t] != Some(s.wr)
  {
    hide Wf, Settled, KernelStep, LockOk, Readers;
    RunsNow(s.v);
    assert TaskOk(s, t);
    assert Stays(s.v, r.v, t) || Moved(s.v, r.v, k, t);
  }

  lemma OtherTask(s: State, r: State, k: KernelOp, t: Tid)
    requires Inv(s) && Enabled(s, OtherOp(k)) && r == Step(s, OtherOp(k)) && t in r.v.home && KernelEffect(s.v, r.v, k)
    ensures TaskOk(r, t)
  {
    hide Wf, Settled, KernelStep, LockOk, Readers, KernelEnabled, Moved;
    if t in s.v.home {
      assert TaskOk(s, t);
      OtherMoves(s, r, k, t);
    } else {
      assert Appears(r.v, k, t);
      NoTask(s, t);
    }
  }

  lemma NoTask(s: State, t: Tid)
    requires Inv(s) && t !in s.v.home
    ensures s.writer != Some(t)
  {
    hide Scheduling, TaskOk;
  }

  lemma OtherRoles(s: State, r: State, k: KernelOp, t: Tid)
    requires Inv(s) && Enabled(s, OtherOp(k)) && r == Step(s, OtherOp(k)) && t in r.v.home && KernelEffect(s.v, r.v, k)
    ensures (Queued(r, t) ==> Queued(s, t)) && (t in Readers(r) <==> t in Readers(s))
  {
    hide Wf, Settled, KernelStep;
    RunsNow(s.v);
    assert t in s.v.home ==> TaskOk(s, t);
    assert t in s.v.home ==> Stays(s.v, r.v, t) || Moved(s.v, r.v, k, t);
    assert t !in s.v.home ==> Appears(r.v, k, t);
  }

  lemma OtherKeeps(s: State, k: KernelOp)
    requires Inv(s) && Enabled(s, OtherOp(k))
    ensures Inv(Step(s, OtherOp(k)))
  {
    hide Wf, Settled, KernelStep, TaskOk, Readers;
    RunsNow(s.v);
    KernelKeeps(s.v, {s.rd, s.wr}, k);
    var r := Step(s, OtherOp(k));
    forall t | t in r.v.home
      ensures TaskOk(r, t) && (Queued(r, t) ==> Queued(s, t)) && (t in Readers(r) <==> t in Readers(s))
    {
      OtherTask(s, r, k, t);
      OtherRoles(s, r, k, t);
    }
    ReadersKnown(s);
    ReadersKnown(r);
    assert Readers(r) == Readers(s);
  }

  lemma ReadersKnown(s: State)
    ensures forall t :: t in Readers(s) ==> t in s.v.home
  {
  }

  lemma StepKeeps(s: State, op: Op)
    requires Inv(s) && Enabled(s, op)
    ensures Inv(Step(s, op))
  {
    hide Inv, Enabled, Step;
    match op
    case RdLockOp => RdLocks(s, op);
    case TryRdLockOp => RdLocks(s, op);
    case RdLockUntilOp(_, _) => RdLocks(s, op);
    case RdResumeOp(_, _) => RdLocks(s, op);
    case WrLockOp => WrLocks(s, op);
    case TryWrLockOp => WrLocks(s, op);
    case WrLockUntilOp(_, _) => WrLocks(s, op);
    case WrResumeOp(_, _) => WrLocks(s, op);
    case UnlockOp => UnlockKeeps(s);
    case OtherOp(k) => OtherKeeps(s, k);
  }

  // ----- all runs

  ghost function Run(s: State, ops: seq<Op>): State
    requires Inv(s)
    decreases |ops|
  {
    hide Inv, Enabled, Step;
    if ops == [] then s
    else if Enabled(s, ops[0]) then StepKeeps(s, ops[0]); Run(Step(s, ops[0]), ops[1..])
    else Run(s, ops[1..])
  }

  lemma {:induction false} RunKeeps(s: State, ops: seq<Op>)
    requires Inv(s)
    ensures Inv(Run(s, ops))
    decreases |ops|
  {
    hide Inv, Enabled, Step;
    if ops != [] {
      if Enabled(s, ops[0]) {
        StepKeeps(s, ops[0]);
        RunKeeps(Step(s, ops[0]), ops[1..]);
      } else {
        RunKeeps(s, ops[1..]);
      }
    }
  }

  // Nobody has or waits for the lock.
  ghost predicate Initial(s: State) {
    && Scheduling(s.v) && Lists(s) && Fields(s.v)
    && (forall t :: t in s.v.home ==>
      t in s.pc && s.pc[t] == Out && s.v.home[t] != Some(s.rd) && s.v.home[t] != Some(s.wr))
    && s.writer == None && s.readers == 0
  }

  lemma InitialInv(s: State)
    requires Initial(s)
    ensures Inv(s)
  {
    hide Wf, Settled;
    assert Readers(s) == {};
  }

  // After any run: the holders are one writer or any number of readers, and the fields of
  // the lock say so.
  lemma Exclusion(s: State, ops: seq<Op>, t: Tid, u: Tid)
    requires Initial(s)
    ensures var r := (InitialInv(s); Run(s, ops));
      && r.readers == |Readers(r)|
      && (r.writer.Some? ==> r.readers == 0)
      && (t in r.v.home && t in r.pc && r.pc[t] == WrHold ==> r.writer == Some(t) && Readers(r) == {})
      && (t in r.v.home && u in r.v.home && t in r.pc && u in r.pc && r.pc[t] == WrHold && r.pc[u] == WrHold ==> t == u)
  {
    hide Wf, Initial, Scheduling;
    InitialInv(s);
    RunKeeps(s, ops);
    var r := Run(s, ops);
    assert t in r.v.home ==> TaskOk(r, t);
    assert u in r.v.home ==> TaskOk(r, u);
    if r.writer.Some? {
      EmptyReaders(r);
    }
  }

  lemma EmptyReaders(s: State)
    requires LockOk(s) && s.writer.Some?
    ensures Readers(s) == {}
  {
  }

  // After any run, whoever is queued waits for somebody that has the lock or has been
  // granted it.
  lemma Progress(s: State, ops: seq<Op>, t: Tid)
    requires Initial(s)
    ensures var r := (InitialInv(s); Run(s, ops));
      Queued(r, t) ==>
        || (exists x :: x in Readers(r))
        || (r.writer.Some? && r.writer.value in r.pc && (r.pc[r.writer.value] == WrHold || Granted(r, r.writer.value)))
  {
    hide Wf, Initial, Scheduling;
    InitialInv(s);
    RunKeeps(s, ops);
    var r := Run(s, ops);
    if Queued(r, t) {
      if r.writer.Some? {
        assert TaskOk(r, r.writer.value);
      } else {
        assert Readers(r) != {};
      }
    }
  }

  // A writer that was handed the lock gets it when it resumes, even in a timed wait; and
  // a timed wait that gives up does not leave the lock in its name.
  lemma GrantHonoured(s: State, d: int, c: int)
    requires Inv(s) && Enabled(s, WrResumeOp(d, c))
    ensures var r := Step(s, WrResumeOp(d, c));
      && (s.writer == Some(s.v.current) ==> r.pc[s.v.current] == WrHold && r.writer == Some(s.v.current) && r.v == s.v)
      && (r.pc[s.v.current] == Out ==> r.writer != Some(s.v.current) && r.writer == s.writer && r.readers == s.readers)
  {
    hide Wf, Scheduling, Move, Arm, Resched;
    RunsNow(s.v);
    assert TaskOk(s, s.v.current);
    if WrBusy(s.v, s.writer, s.readers) {
      WrBusyHeld(s);
    }
  }

  // A writer that was handed the lock in an untimed wait gets it too.
  lemma GrantHonouredUntimed(s: State)
    requires Inv(s) && Enabled(s, WrLockOp) && s.writer == Some(s.v.current)
    ensures var r := Step(s, WrLockOp); r.pc[s.v.current] == WrHold && r.writer == Some(s.v.current) && r.v == s.v
  {
    hide Wf, Scheduling, Move, Resched;
    RunsNow(s.v);
    if WrBusy(s.v, s.writer, s.readers) {
      WrBusyHeld(s);
    }
  }

  // Nobody barges in, whatever the step: a task that gets the lock for writing without having
  // been handed it does so only when nobody is queued, and one that gets it for reading
  // only when there is no writer, active or queued.
  lemma NoBarging(s: State, op: Op, t: Tid)
    requires Inv(s) && Enabled(s, op) && t in s.pc && t in Step(s, op).pc
    ensures var r := Step(s, op);
      && (s.pc[t] != WrHold && r.pc[t] == WrHold && s.writer != Some(t) ==>
            s.writer == None && forall x :: !Queued(s, x))
      && (s.pc[t] != RdHold && r.pc[t] == RdHold ==>
            s.writer == None && forall x :: x in s.v.home ==> s.v.home[x] != Some(s.wr))
  {
    hide Wf, Settled, Move, Arm, Resched, KernelStep, Unlock;
    RunsNow(s.v);
    EmptyList(s.v, s.wr);
    assert t != s.v.current ==> Step(s, op).pc[t] == s.pc[t] || Step(s, op).pc[t] == Out;
  }

  // ----- what each operation does

  // A reader may have the lock: no writer has it or waits for it.
  ghost predicate RdFree(s: State) {
    s.writer == None && Nobody(s.v, s.wr)
  }

  // Current may have it for writing: no readers have it, and no other writer.
  ghost predicate WrFree(s: State) {
    s.readers == 0 && (s.writer == None || s.writer == Some(s.v.current))
  }

  lemma FreeIs(s: State)
    requires Inv(s)
    ensures RdFree(s) <==> !RdBusy(s.v, s.wr, s.writer)
    ensures WrFree(s) <==> !WrBusy(s.v, s.writer, s.readers)
  {
    hide Scheduling, TaskOk, LockOk, Wf;
    SchedulingWf(s.v);
    EmptyList(s.v, s.wr);
  }

  // Current has the lock for reading or for writing, and nobody moves.
  ghost predicate Reads(s: State, r: State) {
    r == s.(readers := s.readers + 1, pc := s.pc[s.v.current := RdHold])
  }

  ghost predicate Writes(s: State, r: State) {
    r == s.(writer := Some(s.v.current), pc := s.pc[s.v.current := WrHold])
  }

  // Current has given up, and nothing else has changed.
  ghost predicate GivesUp(s: State, r: State) {
    r == s.(pc := s.pc[s.v.current := Out])
  }

  // Current waits on list l, until d if there is a deadline, and the lock is as it was.
  ghost predicate Queues(s: State, r: State, l: Lid, p: Pc, d: Option<int>) {
    && r == s.(v := r.v, pc := s.pc[s.v.current := p])
    && (if d.Some? then BlocksUntil(s.v, r.v, l, d.value) else Blocks(s.v, r.v, l))
  }

  // Current has waited until a timeout.
  ghost predicate TimedOut(s: State) {
    s.v.current in s.v.timedOut && s.v.timedOut[s.v.current]
  }

  // Locking for reading: gets the lock exactly if it is free for readers; if not, a try
  // fails, a timed lock fails at a deadline that has come and waits until another one, and
  // an untimed one waits; a timed wait that has timed out gives up.
  lemma RdGives(s: State, op: Op)
    requires Inv(s) && Enabled(s, op)
    ensures var r := Step(s, op);
      match op
      case RdLockOp => if RdFree(s) then Reads(s, r) else Queues(s, r, s.rd, RdWait(false), None)
      case TryRdLockOp => if RdFree(s) then Reads(s, r) else GivesUp(s, r)
      case RdLockUntilOp(d, c) =>
        if RdFree(s) then Reads(s, r) else if d <= c then GivesUp(s, r)
        else Queues(s, r, s.rd, RdWait(true), Some(d))
      case RdResumeOp(d, c) =>
        if TimedOut(s) then GivesUp(s, r) else if RdFree(s) then Reads(s, r) else if d <= c then GivesUp(s, r)
        else Queues(s, r, s.rd, RdWait(true), Some(d))
      case _ => true
  {
    hide Wf, Scheduling, TaskOk, LockOk, Move, Arm, Resched, RdBusy, RdFree, WrBusy, WrFree, Blocks, BlocksUntil;
    RunsNow(s.v);
    FreeIs(s);
    match op
    case RdLockOp => MoveBlocks(s.v, s.rd);
    case RdLockUntilOp(d, c) => ArmBlocks(s.v, s.rd, d);
    case RdResumeOp(d, c) => ArmBlocks(s.v, s.rd, d);
    case _ =>
  }

  // The same for writing.
  lemma WrGives(s: State, op: Op)
    requires Inv(s) && Enabled(s, op)
    ensures var r := Step(s, op);
      match op
      case WrLockOp => if WrFree(s) then Writes(s, r) else Queues(s, r, s.wr, WrWait(false), None)
      case TryWrLockOp => if WrFree(s) then Writes(s, r) else GivesUp(s, r)
      case WrLockUntilOp(d, c) =>
        if WrFree(s) then Writes(s, r) else if d <= c then GivesUp(s, r)
        else Queues(s, r, s.wr, WrWait(true), Some(d))
      case WrResumeOp(d, c) =>
        if TimedOut(s) then GivesUp(s, r) else if WrFree(s) then Writes(s, r) else if d <= c then GivesUp(s, r)
        else Queues(s, r, s.wr, WrWait(true), Some(d))
      case _ => true
  {
    hide Wf, Scheduling, TaskOk, LockOk, Move, Arm, Resched, RdBusy, RdFree, WrBusy, WrFree, Blocks, BlocksUntil;
    RunsNow(s.v);
    FreeIs(s);
    match op
    case WrLockOp => MoveBlocks(s.v, s.wr);
    case WrLockUntilOp(d, c) => ArmBlocks(s.v, s.wr, d);
    case WrResumeOp(d, c) => ArmBlocks(s.v, s.wr, d);
    case _ =>
  }

  // Unlocking takes current off the holders.  If no writer is queued, everybody who waits to
  // read is woken, also while others still read.  If one is queued and nobody has the lock
  // any more, the first writer is woken and has been handed the lock; while others still
  // read, nobody moves.
  lemma UnlockGives(s: State)
    requires Inv(s) && Enabled(s, UnlockOp)
    ensures var r, c := Step(s, UnlockOp), s.v.current;
      && r == s.(v := r.v, writer := r.writer, readers := r.readers, pc := s.pc[c := Out])
      && r.readers == (if s.pc[c] == RdHold then s.readers - 1 else 0)
      && (Nobody(s.v, s.wr) ==> r.writer == None && WakesAll(s.v, r.v, s.rd) && Mixed(s.v, r.v, s.rd))
      && (!Nobody(s.v, s.wr) && r.readers == 0 ==>
            WakesFirst(s.v, r.v, s.wr) && r.writer == Some(s.v.lists[s.wr][0]) && Granted(r, s.v.lists[s.wr][0]))
      && (!Nobody(s.v, s.wr) && r.readers > 0 ==> r.writer == None && r.v == s.v)
  {
    hide Wf, Settled, Wake, WakeAll, Resched, LockOk, Readers, WakesAll, Mixed, Nobody, Goes;
    RunsNow(s.v);
    HoldersKnown(s);
    NobodyIs(s.v, s.wr);
    AllWake(s.v, s.rd);
    SettledStays(s.v);
    if s.v.lists[s.wr] != [] {
      FirstWakes(s.v, s.wr);
      WriterQueued(s);
    }
  }

  lemma NobodyIs(v: View, l: Lid)
    requires Wf(v) && l in v.lists
    ensures Nobody(v, l) <==> v.lists[l] == []
  {
    EmptyList(v, l);
  }

  // What the place of current says of the fields.
  lemma HoldersKnown(s: State)
    requires Inv(s) && Enabled(s, UnlockOp)
    ensures s.pc[s.v.current] == RdHold ==> s.writer == None && s.readers > 0
    ensures s.pc[s.v.current] == WrHold ==> s.writer == Some(s.v.current) && s.readers == 0
  {
    hide Settled, Wf;
    RunsNow(s.v);
    assert TaskOk(s, s.v.current);
    if s.pc[s.v.current] == RdHold {
      NoWriter(s, s.v.current);
      assert s.v.current in Readers(s);
    }
  }

  lemma SettledStays(v: View)
    requires Scheduling(v)
    ensures Wf(v) && Resched(v) == v
  {
  }

  // The first writer that is queued.
  lemma WriterQueued(s: State)
    requires Inv(s) && s.v.lists[s.wr] != []
    ensures var h := s.v.lists[s.wr][0];
      h in s.v.home && h in s.pc && s.pc[h].WrWait? && h in s.v.timedOut && (s.pc[h].timed ==> !s.v.timedOut[h])
      && h != s.v.current
  {
    hide Settled, LockOk;
    RunsNow(s.v);
    FirstKnown(s.v, s.wr);
    assert TaskOk(s, s.v.lists[s.wr][0]);
  }
}
