// src/event_group.c: sets of event bits that tasks wait for and consume.

module EventSpec {
  import opened Seqs
  import opened Sched

  // A flag is a word with one bit set; Bits is what a word means as a set of flags.  Below,
  // & is intersection, | is union and & ~ is difference.
  type Flag = bv32
  type Bits = iset<Flag>

  predicate OneBit(m: bv32) {
    m != 0 && m & (m - 1) == 0
  }

  ghost function Flags(w: bv32): Bits {
    iset m: bv32 | OneBit(m) && w & m != 0
  }

  // event_match
  ghost predicate Match(waitAll: bool, want: Bits, events: Bits) {
    if waitAll then events * want == want else events * want != iset{}
  }

  // What a get hands out, and what it leaves.
  ghost function Given(events: Bits, want: Bits): Bits {
    events * want
  }

  ghost function Left(events: Bits, want: Bits): Bits {
    events - (events * want)
  }

  datatype Region = Region(v: View, events: Bits, got: Option<Bits>)

  // One pass of gyros_event_group_get by the current task; None means that it blocked.
  ghost function GetRegion(v: View, l: Lid, events: Bits, want: Bits, waitAll: bool): Region
    requires Wf(v) && l in v.lists && v.current in v.home
  {
    if Match(waitAll, want, events) then Region(v, Left(events, want), Some(Given(events, want)))
    else Region(Resched(Move(v, v.current, l)), events, None)
  }

  // The first region of gyros_event_group_get_until, for deadline d at time c.
  ghost function GetUntilRegion(v: View, l: Lid, events: Bits, want: Bits, waitAll: bool, d: int, c: int): Region
    requires Wf(v) && l in v.lists && v.current in v.home && v.current !in v.timeouts
  {
    if Match(waitAll, want, events) then Region(v, Left(events, want), Some(Given(events, want)))
    else if d <= c then Region(v, events, None)
    else Region(Resched(Move(Arm(v, v.current, d), v.current, l)), events, None)
  }

  // The second region of gyros_event_group_get_until.
  ghost function ResumeRegion(v: View, events: Bits, want: Bits, waitAll: bool): Region {
    if Match(waitAll, want, events) then Region(v, Left(events, want), Some(Given(events, want)))
    else Region(v, events, None)
  }

  // gyros_event_group_set
  ghost function SetRegion(v: View, l: Lid, events: Bits, e: Bits): Region
    requires Wf(v) && l in v.lists && l != RUNNING
  {
    if e - events == iset{} then Region(v, events, None)
    else Region(Resched(WakeAll(v, l)), events + e, None)
  }
}

// event_match and the word operations of src/event_group.c, on 32-bit words.

module EventWords {
  import opened EventSpec

  // event_match
  predicate EventMatch(waitAll: bool, waitEvents: bv32, events: bv32) {
    if waitAll then events & waitEvents == waitEvents else events & waitEvents != 0
  }

  // What a get hands out, and what it leaves.
  function GivenWord(events: bv32, waitEvents: bv32): bv32 {
    events & waitEvents
  }

  function LeftWord(events: bv32, waitEvents: bv32): bv32 {
    events & !(events & waitEvents)
  }

  // The test and the store of gyros_event_group_set, and the store of gyros_event_group_clear.
  predicate AnyNew(events: bv32, newEvents: bv32) {
    newEvents & !events != 0
  }

  function WithWord(events: bv32, newEvents: bv32): bv32 {
    events | newEvents
  }

  function WithoutWord(events: bv32, oldEvents: bv32): bv32 {
    events & !oldEvents
  }

  lemma AndAt(a: bv32, b: bv32, m: bv32)
    requires OneBit(m)
    ensures (a & b) & m != 0 <==> a & m != 0 && b & m != 0
  {
  }

  lemma OrAt(a: bv32, b: bv32, m: bv32)
    ensures (a | b) & m != 0 <==> a & m != 0 || b & m != 0
  {
  }

  lemma MinusAt(a: bv32, b: bv32, m: bv32)
    requires OneBit(m)
    ensures (a & !b) & m != 0 <==> a & m != 0 && b & m == 0
  {
  }

  // The lowest bit of a word.
  lemma LowestBit(x: bv32)
    requires x != 0
    ensures OneBit(x & (0 - x)) && x & (x & (0 - x)) != 0
  {
  }

  lemma XorAt(a: bv32, b: bv32, m: bv32)
    requires OneBit(m) && (a ^ b) & m != 0
    ensures (a & m != 0) != (b & m != 0)
  {
  }

  lemma XorSome(a: bv32, b: bv32)
    requires a != b
    ensures a ^ b != 0
  {
  }

  // Words that differ differ in a bit.
  lemma Differ(a: bv32, b: bv32) returns (m: bv32)
    requires a != b
    ensures OneBit(m) && (a & m != 0) != (b & m != 0)
  {
    hide OneBit;
    XorSome(a, b);
    LowestBit(a ^ b);
    m := (a ^ b) & (0 - (a ^ b));
    XorAt(a, b, m);
  }

  lemma InFlags(a: bv32, m: bv32)
    requires OneBit(m)
    ensures m in Flags(a) <==> a & m != 0
  {
    hide OneBit;
  }

  lemma FlagsAnd(a: bv32, b: bv32)
    ensures Flags(a & b) == Flags(a) * Flags(b)
  {
    forall m: bv32 | OneBit(m) ensures (a & b) & m != 0 <==> a & m != 0 && b & m != 0 {
      AndAt(a, b, m);
    }
  }

  lemma FlagsOr(a: bv32, b: bv32)
    ensures Flags(a | b) == Flags(a) + Flags(b)
  {
    forall m: bv32 | OneBit(m) ensures (a | b) & m != 0 <==> a & m != 0 || b & m != 0 {
      OrAt(a, b, m);
    }
  }

  lemma FlagsMinus(a: bv32, b: bv32)
    ensures Flags(a & !b) == Flags(a) - Flags(b)
  {
    forall m: bv32 | OneBit(m) ensures (a & !b) & m != 0 <==> a & m != 0 && b & m == 0 {
      MinusAt(a, b, m);
    }
  }

  // A word is determined by its flags.
  lemma FlagsSame(a: bv32, b: bv32)
    ensures Flags(a) == Flags(b) <==> a == b
  {
    hide Flags, OneBit;
    if a != b {
      var m := Differ(a, b);
      InFlags(a, m);
      InFlags(b, m);
    }
  }

  lemma FlagsNone()
    ensures Flags(0) == iset{}
  {
    forall m: bv32 ensures m !in Flags(0) {
      NoneAt(m);
    }
  }

  lemma NoneAt(m: bv32)
    ensures 0 & m == 0
  {
  }

  // The tests and the words that the source computes mean what EventSpec says.
  lemma MatchMeans(waitAll: bool, want: bv32, events: bv32)
    ensures EventMatch(waitAll, want, events) <==> Match(waitAll, Flags(want), Flags(events))
  {
    hide Flags;
    FlagsAnd(events, want);
    FlagsSame(events & want, want);
    FlagsSame(events & want, 0);
    FlagsNone();
  }

  lemma GivenMeans(events: bv32, want: bv32)
    ensures Flags(GivenWord(events, want)) == Given(Flags(events), Flags(want))
  {
    hide Flags;
    FlagsAnd(events, want);
  }

  lemma LeftMeans(events: bv32, want: bv32)
    ensures Flags(LeftWord(events, want)) == Left(Flags(events), Flags(want))
  {
    hide Flags;
    FlagsAnd(events, want);
    FlagsMinus(events, events & want);
  }

  lemma AnyNewMeans(events: bv32, newEvents: bv32)
    ensures AnyNew(events, newEvents) <==> Flags(newEvents) - Flags(events) != iset{}
  {
    hide Flags;
    FlagsMinus(newEvents, events);
    FlagsSame(newEvents & !events, 0);
    FlagsNone();
  }

  lemma WithMeans(events: bv32, newEvents: bv32)
    ensures Flags(WithWord(events, newEvents)) == Flags(events) + Flags(newEvents)
  {
    hide Flags;
    FlagsOr(events, newEvents);
  }

  lemma WithoutMeans(events: bv32, oldEvents: bv32)
    ensures Flags(WithoutWord(events, oldEvents)) == Flags(events) - Flags(oldEvents)
  {
    hide Flags;
    FlagsMinus(events, oldEvents);
  }
}

module EventProtocol {
  import opened Seqs
  import opened Sched
  import opened Bystander
  import opened Order
  import opened Effects
  import opened EventSpec

  // Where a task is: outside, or in a get, with what it asks for.
  datatype Pc = Out | InGet(want: Bits, all: bool) | InGetUntil(want: Bits, all: bool)

  // `raised`, `consumed` and `dropped` follow one bit: how often it went from clear to
  // set, how often a get handed it out, and how often gyros_event_group_clear cleared it.
  // `answer` is what the last get has handed out, if anything.
  datatype State = State(
    v: View, l: Lid, events: Bits, pc: map<Tid, Pc>, answer: Option<Bits>,
    bit: Flag, raised: nat, consumed: nat, dropped: nat)

  datatype Op =
    | Get(want: Bits, all: bool)                             // by current, from outside
    | ResumeGet                                              // by current, woken in a get
    | GetUntil(want: Bits, all: bool, d: int, c: int)
    | ResumeUntil
    | Set(e: Bits)                                           // by anybody
    | Clear(e: Bits)                                         // by anybody
    | Other(op: KernelOp)

  ghost predicate Enabled(s: State, op: Op) {
    && s.v.current in s.pc
    && var p := s.pc[s.v.current];
       match op
       case Get(want, all) => p == Out && s.v.current != IDLE
       case ResumeGet => p.InGet? && s.v.current != IDLE
       case GetUntil(want, all, d, c) => p == Out && s.v.current != IDLE
       case ResumeUntil => p.InGetUntil?
       case Set(e) => true
       case Clear(e) => true
       case Other(k) =>
         && KernelEnabled(s.v, {s.l}, k)
         && (k.YieldOp? || k.BlockOn? || k.BlockUntil? || k.SleepUntil? ==> p == Out)
         && (k.SuspendTask? ==> k.t in s.pc && s.pc[k.t] == Out)
  }

  // A queued task is in a get, and its request is not met.
  ghost predicate TaskOk(s: State, t: Tid) {
    && t in s.v.home && t in s.pc
    && (s.v.home[t] == Some(s.l) ==> s.pc[t] != Out && !Match(s.pc[t].all, s.pc[t].want, s.events))
    && (s.pc[t] != Out ==> s.v.home[t] == Some(s.l) || s.v.home[t] == Some(RUNNING))
  }

  ghost predicate Balance(s: State) {
    s.raised == s.consumed + s.dropped + (if s.bit in s.events then 1 else 0)
  }

  ghost predicate Inv(s: State) {
    && Scheduling(s.v)
    && s.l in s.v.lists && s.l != RUNNING
    && (forall t :: t in s.v.home ==> TaskOk(s, t))
    && Balance(s)
  }

  // The outcome of a get by the current task.
  ghost function Got(s: State, r: Region, p: Pc): State {
    s.(v := r.v, events := r.events, pc := s.pc[s.v.current := if r.got.Some? then Out else p],
       answer := r.got,
       consumed := if r.got.Some? && s.bit in r.got.value then s.consumed + 1 else s.consumed)
  }

  ghost function Step(s: State, op: Op): State
    requires Inv(s) && Enabled(s, op)
  {
    hide Wf, Scheduling, TaskOk, GetRegion, GetUntilRegion, SetRegion, KernelStep;
    RunsNow(s.v);
    var p := s.pc[s.v.current];
    match op
    case Get(want, all) => Got(s, GetRegion(s.v, s.l, s.events, want, all), InGet(want, all))
    case ResumeGet => Got(s, GetRegion(s.v, s.l, s.events, p.want, p.all), p)
    case GetUntil(want, all, d, c) =>
      Got(s, GetUntilRegion(s.v, s.l, s.events, want, all, d, c), if d <= c then Out else InGetUntil(want, all))
    case ResumeUntil => Got(s, ResumeRegion(s.v, s.events, p.want, p.all), Out)
    case Set(e) =>
      var r := SetRegion(s.v, s.l, s.events, e);
      s.(v := r.v, events := r.events, raised := if s.bit in e && s.bit !in s.events then s.raised + 1 else s.raised)
    case Clear(e) =>
      s.(events := s.events - e, dropped := if s.bit in e && s.bit in s.events then s.dropped + 1 else s.dropped)
    case Other(k) => s.(v := KernelStep(s.v, {s.l}, k), pc := PcAfter(s.pc, k, Out))
  }

  // ----- every step keeps the invariant

  lemma SomeFlag(a: Bits)
    requires a != iset{}
    ensures exists b :: b in a
  {
    assert (forall b :: b !in a) ==> a == iset{};
  }

  // A request that is not met stays unmet while bits only go away.
  lemma MatchMonotone(waitAll: bool, want: Bits, events: Bits, fewer: Bits)
    requires fewer <= events && Match(waitAll, want, fewer)
    ensures Match(waitAll, want, events)
  {
    if waitAll {
      assert want == fewer * want;
      assert want <= fewer;
      assert events * want == want;
    } else {
      SomeFlag(fewer * want);
      var b :| b in fewer * want;
      assert b in events * want;
    }
  }

  // A get that succeeds, or gives up: bits at most go away.
  lemma FinishKeeps(s: State, events: Bits, got: bool, answer: Option<Bits>)
    requires Inv(s) && s.v.current in s.pc && events <= s.events
    requires got <==> s.bit in s.events && s.bit !in events
    ensures Inv(s.(events := events, pc := s.pc[s.v.current := Out], answer := answer,
      consumed := if got then s.consumed + 1 else s.consumed))
  {
    hide Wf, Settled, Match;
    RunsNow(s.v);
    var r := s.(events := events, pc := s.pc[s.v.current := Out], answer := answer,
      consumed := if got then s.consumed + 1 else s.consumed);
    forall t | t in r.v.home ensures TaskOk(r, t) {
      assert TaskOk(s, t);
      if s.v.home[t] == Some(s.l) && Match(s.pc[t].all, s.pc[t].want, events) {
        MatchMonotone(s.pc[t].all, s.pc[t].want, s.events, events);
      }
    }
  }

  // Current queues up with a request that is not met.
  lemma BlockKeeps(s: State, v: View, p: Pc)
    requires Inv(s) && s.v.current in s.pc && p != Out && !Match(p.all, p.want, s.events) && s.v.current != IDLE
    requires Wf(v) && v.lists.Keys == s.v.lists.Keys && v.home == s.v.home[s.v.current := Some(s.l)]
    requires forall t :: t in v.timeouts ==> t in s.v.timeouts || t == s.v.current
    ensures Inv(s.(v := Resched(v), pc := s.pc[s.v.current := p], answer := None))
  {
    hide Wf, Settled, Resched, Match;
    RunsNow(s.v);
    var r := s.(v := Resched(v), pc := s.pc[s.v.current := p], answer := None);
    forall t | t in v.home ensures TaskOk(r, t) {
      assert TaskOk(s, t);
    }
    Settles(v);
  }

  // New bits send everybody off to check again.
  lemma SetKeeps(s: State, e: Bits)
    requires Inv(s) && e - s.events != iset{}
    ensures Inv(s.(v := Resched(WakeAll(s.v, s.l)), events := s.events + e,
                   raised := if s.bit in e && s.bit !in s.events then s.raised + 1 else s.raised))
  {
    hide Wf, Settled, WakeAll, Resched, Match;
    WakeAllEffect(s.v, s.l);
    TimeoutsKnown(s.v);
    var v := WakeAll(s.v, s.l);
    var r := s.(v := Resched(v), events := s.events + e,
                raised := if s.bit in e && s.bit !in s.events then s.raised + 1 else s.raised);
    forall t | t in r.v.home ensures TaskOk(r, t) {
      assert TaskOk(s, t);
    }
    Settles(v);
  }

  lemma ClearKeeps(s: State, e: Bits)
    requires Inv(s) && Enabled(s, Clear(e))
    ensures Inv(Step(s, Clear(e)))
  {
    hide Wf, Settled, Match;
    var r := Step(s, Clear(e));
    forall t | t in r.v.home ensures TaskOk(r, t) {
      assert TaskOk(s, t);
      if s.v.home[t] == Some(s.l) && Match(s.pc[t].all, s.pc[t].want, r.events) {
        MatchMonotone(s.pc[t].all, s.pc[t].want, s.events, r.events);
      }
    }
  }

  lemma OtherKeeps(s: State, k: KernelOp)
    requires Inv(s) && Enabled(s, Other(k))
    ensures Inv(Step(s, Other(k)))
  {
    hide Wf, Scheduling, KernelStep, Match;
    KernelKeeps(s.v, {s.l}, k);
    var r := Step(s, Other(k));
    forall t | t in r.v.home ensures TaskOk(r, t) {
      assert t in s.v.home ==> TaskOk(s, t);
      assert t in s.v.home ==> Stays(s.v, r.v, t) || Moved(s.v, r.v, k, t);
      assert t !in s.v.home ==> Appears(r.v, k, t);
    }
  }

  lemma StepKeeps(s: State, op: Op)
    requires Inv(s) && Enabled(s, op)
    ensures Inv(Step(s, op))
  {
    hide Wf, Scheduling, TaskOk, Match, Move, Arm, Resched, WakeAll, KernelStep, Balance;
    RunsNow(s.v);
    var c, p := s.v.current, s.pc[s.v.current];
    match op
    case Get(want, all) =>
      if Match(all, want, s.events) {
        FinishKeeps(s, Left(s.events, want), s.bit in Given(s.events, want), Some(Given(s.events, want)));
      } else {
        BlockKeeps(s, Move(s.v, c, s.l), InGet(want, all));
      }
    case ResumeGet =>
      if Match(p.all, p.want, s.events) {
        FinishKeeps(s, Left(s.events, p.want), s.bit in Given(s.events, p.want), Some(Given(s.events, p.want)));
      } else {
        BlockKeeps(s, Move(s.v, c, s.l), p);
      }
    case GetUntil(want, all, d, t) =>
      if Match(all, want, s.events) {
        FinishKeeps(s, Left(s.events, want), s.bit in Given(s.events, want), Some(Given(s.events, want)));
      } else if d <= t {
        FinishKeeps(s, s.events, false, None);
      } else {
        BlockKeeps(s, Move(Arm(s.v, c, d), c, s.l), InGetUntil(want, all));
      }
    case ResumeUntil =>
      if Match(p.all, p.want, s.events) {
        FinishKeeps(s, Left(s.events, p.want), s.bit in Given(s.events, p.want), Some(Given(s.events, p.want)));
      } else {
        FinishKeeps(s, s.events, false, None);
      }
    case Set(e) =>
      if e - s.events != iset{} {
        SetKeeps(s, e);
      } else {
        assert s.bit !in e - s.events;
        assert Step(s, op) == s;
      }
    case Clear(e) => ClearKeeps(s, e);
    case Other(k) => OtherKeeps(s, k);
  }

  // ----- all runs

  ghost function Run(s: State, ops: seq<Op>): State
    requires Inv(s)
    decreases |ops|
  {
    hide Inv, Enabled, Step;
    if ops == [] then s
    else if Enabled(s, ops[0]) then StepKeeps(s, ops[0]); Run(Step(s, ops[0]), ops[1..])
    else Run(s, ops[1..])
  }

  lemma {:induction false} RunKeeps(s: State, ops: seq<Op>)
    requires Inv(s)
    ensures Inv(Run(s, ops))
    decreases |ops|
  {
    hide Inv, Enabled, Step;
    if ops != [] {
      if Enabled(s, ops[0]) {
        StepKeeps(s, ops[0]);
        RunKeeps(Step(s, ops[0]), ops[1..]);
      } else {
        RunKeeps(s, ops[1..]);
      }
    }
  }

  // Nobody is in a get, and the bit that is followed has not been counted yet.
  ghost predicate Initial(s: State) {
    && Scheduling(s.v) && s.l in s.v.lists && s.l != RUNNING
    && (forall t :: t in s.v.home ==> t in s.pc && s.pc[t] == Out && s.v.home[t] != Some(s.l))
    && s.raised == (if s.bit in s.events then 1 else 0) && s.consumed == 0 && s.dropped == 0
  }

  lemma InitialInv(s: State)
    requires Initial(s)
    ensures Inv(s)
  {
    hide Wf, Settled;
  }

  // After any run, no task is queued whose request is met by the bits as they are.
  lemma NoStrandedWaiter(s: State, ops: seq<Op>, t: Tid)
    requires Initial(s)
    ensures var r := (InitialInv(s); Run(s, ops));
      t in r.v.home && r.v.home[t] == Some(r.l) ==>
        t in r.pc && r.pc[t] != Out && !Match(r.pc[t].all, r.pc[t].want, r.events)
  {
    hide Wf, Initial, Match;
    InitialInv(s);
    RunKeeps(s, ops);
    var r := Run(s, ops);
    assert t in r.v.home ==> TaskOk(r, t);
  }

  // After any run, every time the bit was raised it has been handed out at most once: each
  // raising has been consumed, cleared, or is still there.
  lemma BitConsumedOnce(s: State, ops: seq<Op>)
    requires Initial(s)
    ensures var r := (InitialInv(s); Run(s, ops));
      r.consumed + r.dropped + (if r.bit in r.events then 1 else 0) == r.raised && r.consumed <= r.raised
  {
    hide Wf, Initial;
    InitialInv(s);
    RunKeeps(s, ops);
  }

  // A get that succeeds has its request met by what it is given, and takes exactly that.
  lemma GetGivesMatch(s: State, want: Bits, all: bool)
    requires Match(all, want, s.events)
    ensures Match(all, want, Given(s.events, want))
    ensures Given(s.events, want) + Left(s.events, want) == s.events && Given(s.events, want) !! Left(s.events, want)
    ensures Left(s.events, want) !! want
  {
    assert Given(s.events, want) * want == s.events * want;
  }

  // ----- what each operation does

  // The request is met by the flags as they are.
  ghost predicate Met(s: State, want: Bits, all: bool) {
    if all then want <= s.events else exists b :: b in want && b in s.events
  }

  lemma MetMatches(s: State, want: Bits, all: bool)
    ensures Met(s, want, all) <==> Match(all, want, s.events)
  {
    if all {
      assert want <= s.events ==> s.events * want == want;
      assert s.events * want == want ==> want <= s.events;
    } else {
      if b :| b in want && b in s.events {
        assert b in s.events * want;
      }
      if s.events * want != iset{} {
        SomeFlag(s.events * want);
      }
    }
  }

  // Current is given exactly the flags that it asks for and that are set; they are set no
  // more, the others are what they were, and nobody moves.
  ghost predicate Answered(s: State, r: State, want: Bits) {
    && s.v.current in r.pc && r == s.(pc := s.pc[s.v.current := Out], events := r.events, answer := r.answer,
                                      consumed := r.consumed)
    && r.answer.Some?
    && (forall b :: b in r.answer.value <==> b in want && b in s.events)
    && (forall b :: b in r.events <==> b in s.events && b !in want)
  }

  // Current is given nothing, and the flags are what they were.
  ghost predicate Unanswered(s: State, r: State, p: Pc) {
    r == s.(v := r.v, pc := s.pc[s.v.current := p], answer := None)
  }

  // The request of a get, from outside or resumed.
  ghost predicate Asks(s: State, op: Op, want: Bits, all: bool) {
    match op
    case Get(w, a) => w == want && a == all
    case GetUntil(w, a, d, c) => w == want && a == all
    case ResumeGet => s.v.current in s.pc && s.pc[s.v.current] == InGet(want, all)
    case ResumeUntil => s.v.current in s.pc && s.pc[s.v.current] == InGetUntil(want, all)
    case _ => false
  }

  // Any get whose request is met, at first or once resumed, is answered.
  lemma GetAnswers(s: State, op: Op, want: Bits, all: bool)
    requires Inv(s) && Enabled(s, op) && Asks(s, op, want, all) && Met(s, want, all)
    ensures Answered(s, Step(s, op), want)
  {
    hide Wf, Scheduling, TaskOk, Match, Move, Arm, Resched, Balance;
    RunsNow(s.v);
    MetMatches(s, want, all);
  }

  // A get whose request is not met puts current on the list, and another task runs; with a
  // deadline, it waits until that, or gives up if it has come; a timed get that has resumed
  // gives up.
  lemma GetWaits(s: State, op: Op, want: Bits, all: bool)
    requires Inv(s) && Enabled(s, op) && Asks(s, op, want, all) && !Met(s, want, all)
    ensures var r := Step(s, op);
      match op
      case GetUntil(_, _, d, c) =>
        if d <= c then Unanswered(s, r, Out) && r.v == s.v
        else Unanswered(s, r, InGetUntil(want, all)) && BlocksUntil(s.v, r.v, s.l, d)
      case ResumeUntil => Unanswered(s, r, Out) && r.v == s.v
      case _ => Unanswered(s, r, InGet(want, all)) && Blocks(s.v, r.v, s.l)
  {
    hide Wf, Scheduling, TaskOk, Match, Move, Arm, Resched, Balance, Blocks, BlocksUntil;
    RunsNow(s.v);
    MetMatches(s, want, all);
    match op
    case GetUntil(_, _, d, _) => ArmBlocks(s.v, s.l, d);
    case ResumeUntil =>
    case _ => MoveBlocks(s.v, s.l);
  }

  // A set adds the flags, and if one of them is new, wakes everybody who waits.
  lemma SetAdds(s: State, e: Bits)
    requires Inv(s) && Enabled(s, Set(e))
    ensures var r := Step(s, Set(e));
      && r.events == s.events + e && r.pc == s.pc
      && (e <= s.events ==> r.v == s.v)
      && (!(e <= s.events) ==> WakesAll(s.v, r.v, s.l) && Mixed(s.v, r.v, s.l))
  {
    hide Wf, Scheduling, TaskOk, WakeAll, Resched, Balance, WakesAll, Mixed;
    RunsNow(s.v);
    AllWake(s.v, s.l);
    if e <= s.events {
      assert s.events + e == s.events && e - s.events == iset{};
    }
    if e - s.events == iset{} {
      forall b | b in e ensures b in s.events {
        assert b !in e - s.events;
      }
    }
  }

  // A clear takes the flags away, and nobody moves.
  lemma ClearDrops(s: State, e: Bits)
    requires Inv(s) && Enabled(s, Clear(e))
    ensures var r := Step(s, Clear(e));
      && r.v == s.v && r.pc == s.pc && forall b :: b in r.events <==> b in s.events && b !in e
  {
    hide Wf, Scheduling, TaskOk, Balance;
  }
}
