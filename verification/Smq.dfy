// src/smq.c: static message queues, which copy messages of a fixed size into a ring of slots.

module SmqSpec {
  import opened Time

  newtype Byte = b: int | 0 <= b < 256

  type Message = seq<Byte>

  // The slot j places after slot pos, of total.
  function Ahead(pos: nat, j: nat, total: nat): int {
    if pos + j < total then pos + j else pos + j - total
  }

  // Slot i of a memory with slots of this size.
  function SlotBytes(bytes: seq<Byte>, size: nat, i: nat): Message
    requires (i + 1) * size <= |bytes|
  {
    SlotsOrdered(i, i + 1, size);
    bytes[i * size..(i + 1) * size]
  }

  // Slots do not overlap.
  lemma SlotsOrdered(i: nat, j: nat, size: nat)
    requires i < j
    ensures (i + 1) * size <= j * size && i * size <= (i + 1) * size == i * size + size
  {
    MulMono(i + 1, j, size);
    MulMono(i, i + 1, size);
    assert (i + 1) * size == i * size + size;
  }

  // The positions that gyros_smq_init and the operations leave.
  predicate Positions(total: nat, used: nat, readPos: nat, writePos: nat) {
    used <= total && readPos < total + (if total == 0 then 1 else 0) && writePos == Ahead(readPos, used, total)
  }

  // The write position is the read position plus the number of messages, modulo the number
  // of slots.
  lemma WritePosition(total: nat, used: nat, readPos: nat, writePos: nat)
    requires total > 0
    ensures Positions(total, used, readPos, writePos) <==>
      used <= total && readPos < total && writePos == (readPos + used) % total
  {
    if used <= total && readPos < total {
      if readPos + used < total {
        ModSmall(readPos + used, total);
      } else {
        ModSmall(readPos + used - total, total);
        ModMinus(readPos + used, total);
      }
    }
  }

  lemma ModSmall(a: nat, n: nat)
    requires a < n
    ensures a % n == a
  {
  }

  lemma ModMinus(a: nat, n: nat)
    requires a >= n > 0
    ensures a % n == (a - n) % n
  {
    var q, m := a / n, a % n;
    assert a == q * n + m;
    assert a - n == (q - 1) * n + m;
    var q', m' := (a - n) / n, (a - n) % n;
    assert a - n == q' * n + m';
    assert (q - 1 - q') * n == m' - m;
    if q - 1 > q' {
      MulMono(1, q - 1 - q', n);
    } else if q - 1 < q' {
      MulMono(q - 1 - q', -1, n);
    }
  }

  // The queued messages, oldest first.
  ghost function Messages(bytes: seq<Byte>, size: nat, total: nat, used: nat, readPos: nat): (r: seq<Message>)
    requires total * size <= |bytes| && Positions(total, used, readPos, Ahead(readPos, used, total))
    ensures |r| == used
  {
    seq(used, j requires 0 <= j < used => (
      SlotInside(Ahead(readPos, j, total), total, size);
      SlotBytes(bytes, size, Ahead(readPos, j, total))))
  }

  lemma SlotInside(i: nat, total: nat, size: nat)
    requires i < total
    ensures (i + 1) * size <= total * size
  {
    MulMono(i + 1, total, size);
  }

  lemma MessageAt(bytes: seq<Byte>, size: nat, total: nat, used: nat, readPos: nat, j: nat)
    requires total * size <= |bytes| && Positions(total, used, readPos, Ahead(readPos, used, total)) && j < used
    ensures var i := Ahead(readPos, j, total);
      0 <= i < total && (i + 1) * size <= |bytes|
        && Messages(bytes, size, total, used, readPos)[j] == SlotBytes(bytes, size, i)
  {
    SlotInside(Ahead(readPos, j, total), total, size);
  }

  // Slots other than slot i are as they were.
  ghost predicate OnlySlot(a: seq<Byte>, b: seq<Byte>, size: nat, i: nat) {
    |a| == |b| && forall k :: 0 <= k < |a| && !(i * size <= k < (i + 1) * size) ==> a[k] == b[k]
  }

  lemma OtherSlot(a: seq<Byte>, b: seq<Byte>, size: nat, i: nat, j: nat)
    requires OnlySlot(a, b, size, i) && i != j && (j + 1) * size <= |a|
    ensures SlotBytes(a, size, j) == SlotBytes(b, size, j)
  {
    if i < j {
      SlotsOrdered(i, j, size);
    } else {
      SlotsOrdered(j, i, size);
    }
    SlotsOrdered(j, j + 1, size);
  }

  // Copying a message into the slot at the write position appends it.
  lemma Appended(a: seq<Byte>, b: seq<Byte>, size: nat, total: nat, used: nat, readPos: nat, m: Message)
    requires total * size <= |a| && Positions(total, used, readPos, Ahead(readPos, used, total)) && used < total
    requires |a| == |b| && OnlySlot(a, b, size, Ahead(readPos, used, total))
    requires (Ahead(readPos, used, total) + 1) * size <= |b| && SlotBytes(b, size, Ahead(readPos, used, total)) == m
    ensures Messages(b, size, total, used + 1, readPos) == Messages(a, size, total, used, readPos) + [m]
  {
    hide Messages, SlotBytes, OnlySlot;
    var r := Messages(b, size, total, used + 1, readPos);
    forall j | 0 <= j < used ensures r[j] == Messages(a, size, total, used, readPos)[j] {
      MessageAt(b, size, total, used + 1, readPos, j);
      MessageAt(a, size, total, used, readPos, j);
      OtherSlot(a, b, size, Ahead(readPos, used, total), Ahead(readPos, j, total));
    }
    MessageAt(b, size, total, used + 1, readPos, used);
  }

  // Moving the read position on takes the oldest message off.
  lemma Taken(a: seq<Byte>, size: nat, total: nat, used: nat, readPos: nat)
    requires total * size <= |a| && Positions(total, used, readPos, Ahead(readPos, used, total)) && used > 0
    ensures Positions(total, used - 1, Ahead(readPos, 1, total), Ahead(readPos, used, total))
    ensures Messages(a, size, total, used - 1, Ahead(readPos, 1, total)) == Messages(a, size, total, used, readPos)[1..]
    ensures (readPos + 1) * size <= |a| && Messages(a, size, total, used, readPos)[0] == SlotBytes(a, size, readPos)
  {
    hide Messages, SlotBytes;
    var next := Ahead(readPos, 1, total);
    var r := Messages(a, size, total, used - 1, next);
    forall j | 0 <= j < used - 1 ensures r[j] == Messages(a, size, total, used, readPos)[j + 1] {
      MessageAt(a, size, total, used - 1, next, j);
      MessageAt(a, size, total, used, readPos, j + 1);
    }
    MessageAt(a, size, total, used, readPos, 0);
  }
}

// Senders and receivers share one wait list, and a receive wakes nobody; so a wakeup can go
// to a task that cannot use it.  The queue is the token machine with blocking puts.
module SmqProgress {
  import opened Seqs
  import opened Sched
  import opened TokenSpec
  import opened TokenProtocol

  // In every run of a queue with this number of slots, while a receiver waits there are no
  // more messages than receivers woken for one.
  ghost predicate AlwaysServed(total: nat, blockingPuts: bool) {
    forall s, ops {:trigger Run(s, ops)} ::
      Initial(s) && s.max == Some(total) && s.blockingPuts == blockingPuts ==> (InitialInv(s); NoneLost(Run(s, ops)))
  }

  // That holds exactly when no send may block, or when there is no slot.
  lemma ServedExactly(total: nat, blockingPuts: bool)
    ensures AlwaysServed(total, blockingPuts) <==> !blockingPuts || total == 0
  {
    hide Initial, Run, NoneLost;
    if blockingPuts && total > 0 {
      var _, _ := Overtaken(total);
    } else {
      forall s, ops | Initial(s) && s.max == Some(total) && s.blockingPuts == blockingPuts
        ensures (InitialInv(s); NoneLost(Run(s, ops)))
      {
        InitialInv(s);
        RunKeeps(s, ops);
        NothingLost(Run(s, ops));
      }
    }
  }

  lemma NothingLost(s: State)
    requires Inv(s) && (!s.blockingPuts || s.max == Some(0))
    ensures NoneLost(s)
  {
    hide Scheduling, TaskOk, Woken, Waiting;
  }

  // ----- the run that fails

  const LIST: Lid := 1
  const SENDER: Tid := 1
  const RECEIVER: Tid := 2

  // The kernel with one wait list, an idle task, a receiver, and a sender of higher priority.
  function TwoTasks(): View {
    hide Wf, BeforeStart, StartUp;
    BeforeStartIs();
    StartUp(BeforeStart())
  }

  function BeforeStart(): (v: View)
    ensures Wf(v)
  {
    hide Wf, Boot, NewList, Create;
    NewListIs(Boot(), LIST);
    Create(Create(NewList(Boot(), LIST), SENDER, 2, 0, false, false), RECEIVER, 1, 0, false, false)
  }

  lemma BeforeStartIs()
    ensures var v := BeforeStart();
      && v.lists.Keys == {RUNNING, LIST} && v.timeouts == []
      && v.home == map[IDLE := None, SENDER := Some(RUNNING), RECEIVER := Some(RUNNING)]
      && v.prio == map[IDLE := 0, SENDER := 2, RECEIVER := 1]
  {
    hide Wf, Boot, NewList, Create;
    NewListIs(Boot(), LIST);
  }

  lemma TwoTasksIs()
    ensures var v := TwoTasks();
      && Scheduling(v) && Fields(v) && v.lists.Keys == {RUNNING, LIST} && v.timeouts == []
      && v.home == map[IDLE := Some(RUNNING), SENDER := Some(RUNNING), RECEIVER := Some(RUNNING)]
      && v.prio == map[IDLE := 0, SENDER := 2, RECEIVER := 1]
  {
    hide Wf, BeforeStart, StartUp, Settled, Runnable;
    BeforeStartIs();
    IdleRuns(TwoTasks());
    FieldsKnown(TwoTasks());
  }

  // The empty queue.
  function Empty(total: nat): State {
    hide TwoTasks;
    State(TwoTasks(), LIST, 0, Some(total), true, map[IDLE := Out, SENDER := Out, RECEIVER := Out], 0, 0)
  }

  lemma EmptyInitial(total: nat)
    ensures Initial(Empty(total))
  {
    hide TwoTasks, Scheduling;
    TwoTasksIs();
  }

  function Repeat(op: Op, n: nat): seq<Op> {
    seq(n, _ => op)
  }

  lemma {:induction false} PutMany(s: State, n: nat)
    requires Inv(s) && s.v.lists[s.l] == [] && (s.max.Some? ==> s.tokens + n <= s.max.value)
    ensures Run(s, Repeat(Put, n)) == s.(tokens := s.tokens + n, put := s.put + n)
    decreases n
  {
    hide Inv;
    if n > 0 {
      KnownList(s);
      StepKeeps(s, Put);
      PutMany(Step(s, Put), n - 1);
      assert Repeat(Put, n)[1..] == Repeat(Put, n - 1);
    }
  }

  lemma {:induction false} TakeMany(s: State, n: nat)
    requires Inv(s) && n <= s.tokens
    ensures Run(s, Repeat(TryWait, n)) == s.(tokens := s.tokens - n, got := s.got + n)
    decreases n
  {
    hide Inv;
    if n > 0 {
      StepKeeps(s, TryWait);
      TakeMany(Step(s, TryWait), n - 1);
      assert Repeat(TryWait, n)[1..] == Repeat(TryWait, n - 1);
    }
  }

  lemma KnownList(s: State)
    requires Inv(s)
    ensures Wf(s.v) && s.l in s.v.lists
  {
  }

  lemma RunOne(s: State, op: Op)
    requires Inv(s) && Enabled(s, op)
    ensures Run(s, [op]) == Step(s, op) && Inv(Step(s, op))
  {
    hide Inv, Enabled, Step;
    StepKeeps(s, op);
    assert Run(Step(s, op), []) == Step(s, op);
  }

  // Who is where: the sender, the receiver, and the number of messages.
  ghost predicate Scene(s: State, total: nat, sender: Lid, senderPc: Pc, receiver: Lid, receiverPc: Pc, tokens: nat) {
    && Inv(s) && s.l == LIST && s.max == Some(total) && s.blockingPuts && s.tokens == tokens
    && s.v.home == map[IDLE := Some(RUNNING), SENDER := Some(sender), RECEIVER := Some(receiver)]
    && s.v.prio == map[IDLE := 0, SENDER := 2, RECEIVER := 1]
    && s.pc == map[IDLE := Out, SENDER := senderPc, RECEIVER := receiverPc]
  }

  lemma SceneCurrent(s: State, total: nat, sender: Lid, senderPc: Pc, receiver: Lid, receiverPc: Pc, tokens: nat)
    requires Scene(s, total, sender, senderPc, receiver, receiverPc, tokens)
    ensures s.v.current == if sender == RUNNING then SENDER else if receiver == RUNNING then RECEIVER else IDLE
  {
    hide Wf, Settled, TaskOk, NoneLost;
    TopIsCurrent(s.v, if sender == RUNNING then SENDER else if receiver == RUNNING then RECEIVER else IDLE);
  }

  // The sender finds the queue full, at first or again.
  lemma SenderBlocks(s: State, total: nat, senderPc: Pc, receiver: Lid, receiverPc: Pc)
    requires Scene(s, total, RUNNING, senderPc, receiver, receiverPc, total) && (senderPc == Out || senderPc == InPut)
    ensures Enabled(s, PutBlocking) && Scene(Step(s, PutBlocking), total, LIST, InPut, receiver, receiverPc, total)
  {
    hide Wf, Scheduling, TaskOk, NoneLost, Move, Resched;
    SceneCurrent(s, total, RUNNING, senderPc, receiver, receiverPc, total);
    RunsBlocked(s, SENDER);
    StepKeeps(s, PutBlocking);
  }

  lemma RunsBlocked(s: State, t: Tid)
    requires Inv(s) && s.v.current == t
    ensures Wf(s.v) && s.l in s.v.lists && t in s.v.home
    ensures var r := Resched(Move(s.v, t, s.l)); r.home == s.v.home[t := Some(s.l)] && r.prio == s.v.prio
  {
    hide Settled, Move;
    CurrentListed(s);
    ReschedRunnable(Move(s.v, t, s.l));
  }

  // The receiver finds the queue empty.
  lemma ReceiverBlocks(s: State, total: nat)
    requires Scene(s, total, LIST, InPut, RUNNING, Out, 0)
    ensures Enabled(s, Wait) && Scene(Step(s, Wait), total, LIST, InPut, LIST, InWait, 0)
  {
    hide Wf, Scheduling, TaskOk, NoneLost, Move, Resched;
    SceneCurrent(s, total, LIST, InPut, RUNNING, Out, 0);
    RunsBlocked(s, RECEIVER);
    StepKeeps(s, Wait);
  }

  // A message from an interrupt wakes the sender.
  lemma SenderWoken(s: State, total: nat)
    requires Scene(s, total, LIST, InPut, LIST, InWait, 0) && total > 0
    ensures Scene(Step(s, Put), total, RUNNING, InPut, LIST, InWait, 1)
  {
    hide Wf, Settled, TaskOk, NoneLost, Wake, Resched;
    TopIsFirst(s.v, LIST, SENDER);
    ReschedRunnable(Wake(s.v, SENDER));
    StepKeeps(s, Put);
  }

  // A state that a run from the empty queue leads to.
  ghost predicate Reached(total: nat, ops: seq<Op>, r: State) {
    Initial(Empty(total)) && (InitialInv(Empty(total)); r == Run(Empty(total), ops))
  }

  lemma Extend(total: nat, ops: seq<Op>, s: State, more: seq<Op>)
    requires Reached(total, ops, s)
    ensures Inv(s) && Reached(total, ops + more, Run(s, more))
  {
    hide Inv, Initial, Empty, Run;
    InitialInv(Empty(total));
    RunConcat(Empty(total), ops, more);
  }

  lemma ExtendOne(total: nat, ops: seq<Op>, s: State, op: Op)
    requires Reached(total, ops, s) && Inv(s) && Enabled(s, op)
    ensures Reached(total, ops + [op], Step(s, op))
  {
    hide Inv, Enabled, Step, Reached, Run;
    Extend(total, ops, s, [op]);
    RunOne(s, op);
  }

  // Messages from interrupts fill the queue.
  lemma Filled(total: nat) returns (ops: seq<Op>, r: State)
    ensures Reached(total, ops, r) && Scene(r, total, RUNNING, Out, RUNNING, Out, total)
  {
    hide Inv, Initial, TwoTasks, Run;
    EmptyInitial(total);
    var s := Empty(total);
    InitialInv(s);
    TwoTasksIs();
    EmptyUnused(s);
    PutMany(s, total);
    ops, r := Repeat(Put, total), Run(s, Repeat(Put, total));
    RunKeeps(s, ops);
  }

  lemma EmptyUnused(s: State)
    requires Inv(s) && s.l != RUNNING && forall t :: t in s.v.home ==> s.v.home[t] == Some(RUNNING)
    ensures s.v.lists[s.l] == []
  {
    hide Wf, Settled, TaskOk;
    EmptyList(s.v, s.l);
  }

  // An interrupt fills the queue; the sender waits for room; interrupts receive everything;
  // the receiver waits; an interrupt sends a message, which wakes the sender.
  lemma Overtaken(total: nat) returns (ops: seq<Op>, r: State)
    requires total > 0
    ensures Reached(total, ops, r) && Scene(r, total, RUNNING, InPut, LIST, InWait, 1)
    ensures !NoneLost(r) && !AlwaysServed(total, true)
  {
    hide Inv, Initial, Empty, Run, Step, Enabled, Reached, NoneLost;
    var s0: State;
    ops, s0 := Filled(total);
    SenderBlocks(s0, total, Out, RUNNING, Out);
    ExtendOne(total, ops, s0, PutBlocking);
    var s1 := Step(s0, PutBlocking);
    TakeMany(s1, total);
    Extend(total, ops + [PutBlocking], s1, Repeat(TryWait, total));
    var s2 := Run(s1, Repeat(TryWait, total));
    RunKeeps(s1, Repeat(TryWait, total));
    ReceiverBlocks(s2, total);
    ExtendOne(total, ops + [PutBlocking] + Repeat(TryWait, total), s2, Wait);
    var s3 := Step(s2, Wait);
    SenderWoken(s3, total);
    PutEnabled(s3);
    ExtendOne(total, ops + [PutBlocking] + Repeat(TryWait, total) + [Wait], s3, Put);
    ops, r := ops + [PutBlocking] + Repeat(TryWait, total) + [Wait] + [Put], Step(s3, Put);
    NotServed(r, total);
    Refutes(total, ops, r);
  }

  lemma PutEnabled(s: State)
    ensures Enabled(s, Put)
  {
  }

  lemma NotServed(s: State, total: nat)
    requires Scene(s, total, RUNNING, InPut, LIST, InWait, 1)
    ensures !NoneLost(s)
  {
    hide Inv;
    assert Waiting(s, RECEIVER);
    assert Woken(s) == {};
  }

  lemma Refutes(total: nat, ops: seq<Op>, r: State)
    requires Reached(total, ops, r) && !NoneLost(r)
    ensures !AlwaysServed(total, true)
  {
    hide Initial, Run, NoneLost;
    assert Initial(Empty(total));
  }

  // With one slot, the sender then finds the queue full and waits again.  The receiver waits
  // although there is a message, and nobody but the idle task can run.
  lemma ReceiverStranded() returns (ops: seq<Op>, r: State)
    ensures Reached(1, ops, r)
    ensures Waiting(r, RECEIVER) && r.tokens == 1 && r.v.current == IDLE
    ensures forall t :: t in r.v.home && r.v.home[t] == Some(RUNNING) ==> t == IDLE
  {
    hide Inv, Run, Step, Enabled, Reached, NoneLost;
    var s: State;
    ops, s := Overtaken(1);
    SenderBlocks(s, 1, InPut, LIST, InWait);
    ExtendOne(1, ops, s, PutBlocking);
    ops, r := ops + [PutBlocking], Step(s, PutBlocking);
    SceneCurrent(r, 1, LIST, InPut, LIST, InWait, 1);
  }
}

module SmqObjects {
  import opened Seqs
  import opened Lists
  import opened Sched
  import opened Time
  import opened SmqSpec
  import opened TokenSpec
  import opened Kernels
  import F = Fifos

  // memcpy between arrays that do not overlap.
  method Copy(dst: array<Byte>, at: nat, src: array<Byte>, from: nat, n: nat)
    requires dst != src && at + n <= dst.Length && from + n <= src.Length
    modifies dst
    ensures dst[at..at + n] == src[from..from + n]
    ensures forall k :: 0 <= k < dst.Length && !(at <= k < at + n) ==> dst[k] == old(dst[k])
  {
    for i := 0 to n
      invariant dst[at..at + i] == src[from..from + i]
      invariant forall k :: 0 <= k < dst.Length && !(at <= k < at + n) ==> dst[k] == old(dst[k])
    {
      dst[at + i] := src[from + i];
      assert dst[at..at + i + 1] == dst[at..at + i] + [src[from + i]];
    }
  }

  class Smq {
    const k: Kernel
    const taskList: Node
    const memory: array<Byte>
    const msgSize: nat
    const total: nat
    var used: nat
    var readPos: nat
    var writePos: nat

    ghost predicate Ring()
      reads this
    {
      total * msgSize <= memory.Length && Positions(total, used, readPos, writePos)
    }

    ghost predicate Valid()
      reads this, k, k.links, k.Repr
    {
      && Ring()
      && k.Valid() && this !in k.Repr && memory !in k.Repr
      && k.IsList(taskList) && taskList.container != RUNNING
    }

    // The queued messages, oldest first.
    ghost function Contents(): (r: seq<Message>)
      reads this, memory
      requires Ring()
      ensures |r| == used
    {
      Messages(memory[..], msgSize, total, used, readPos)
    }

    // gyros_smq_init
    constructor (k: Kernel, taskList: Node, memory: array<Byte>, msgSize: nat, msgCount: nat)
      requires k.Valid() && k.Owned() && k.IsList(taskList) && taskList.container != RUNNING && memory !in k.Repr
      requires msgCount * msgSize <= memory.Length
      ensures Valid() && Contents() == [] && total == msgCount && this.msgSize == msgSize
      ensures this.k == k && this.taskList == taskList && this.memory == memory
    {
      hide Kernel.Valid;
      this.k, this.taskList, this.memory, this.msgSize, total := k, taskList, memory, msgSize, msgCount;
      used, readPos, writePos := 0, 0, 0;
    }

    // The copy into the slot at the write position.
    method Put(msg: array<Byte>)
      requires Ring() && used < total && msg != memory && msg.Length == msgSize
      modifies memory, this`used, this`writePos
      ensures Ring() && Contents() == old(Contents()) + [msg[..]]
    {
      hide Messages, OnlySlot;
      ghost var before := memory[..];
      SlotInside(writePos, total, msgSize);
      SlotsOrdered(writePos, writePos + 1, msgSize);
      Copy(memory, writePos * msgSize, msg, 0, msgSize);
      PutSlot(before, memory[..], msgSize, writePos);
      assert SlotBytes(memory[..], msgSize, writePos) == msg[..];
      Appended(before, memory[..], msgSize, total, used, readPos, msg[..]);
      writePos := writePos + 1;
      if writePos == total {
        writePos := 0;
      }
      used := used + 1;
    }

    // The copy out of the slot at the read position.
    method Take(msg: array<Byte>)
      requires Ring() && used > 0 && msg != memory && msg.Length == msgSize
      modifies msg, this`used, this`readPos
      ensures Ring() && old(Contents()) == [msg[..]] + Contents()
    {
      hide Messages;
      SmqSpec.Taken(memory[..], msgSize, total, used, readPos);
      SlotsOrdered(readPos, readPos + 1, msgSize);
      Copy(msg, 0, memory, readPos * msgSize, msgSize);
      assert msg[..] == SlotBytes(memory[..], msgSize, readPos);
      readPos := readPos + 1;
      if readPos == total {
        readPos := 0;
      }
      used := used - 1;
    }

    // gyros_smq_send, one pass: Blocked means that the task waits and comes back here.
    method Send(msg: array<Byte>, block: bool, inInterrupt: bool) returns (r: TokenSpec.Outcome)
      requires Valid() && msg != memory && msg !in k.Repr && msg.Length == msgSize
      requires block && !inInterrupt ==>
        k.view.current != IDLE && IDLE in k.view.home && k.view.home[IDLE] == Some(RUNNING)
      modifies memory, this`used, this`writePos, k`view, k`current, k.links.repr, k.taskSet
      ensures Wf(old(k.view)) && taskList.container in old(k.view).lists && old(k.view).current in old(k.view).home
      ensures r == if |old(Contents())| < total then Taken else if block && !inInterrupt then Blocked else Failed
      ensures Ring() && Contents() == F.Step(old(Contents()), Some(total), F.SendOp(msg[..]))
      ensures TokenSpec.Region(k.view, |Contents()|, r)
        == if block && !inInterrupt
          then PutBlockingRegion(old(k.view), taskList.container, |old(Contents())|, Some(total))
           else PutRegion(old(k.view), taskList.container, |old(Contents())|, Some(total))
      ensures Valid()
    {
      hide Wf, Kernel.Valid, Kernel.Shape, Move, Wake, Resched, Messages, Positions;
      k.ValidFacts();
      k.NamesKnown(taskList, null);
      if used >= total {
        if !block || inInterrupt {
          return Failed;
        }
        k.BlockCurrent(taskList);
        return Blocked;
      }
      Put(msg);
      k.ValidShape();
      var empty := k.ListEmpty(taskList);
      if !empty {
        k.WakeFirst(taskList, true);
      }
      return Taken;
    }

    // gyros_smq_receive, one pass.
    method Receive(msg: array<Byte>, inInterrupt: bool) returns (r: TokenSpec.Outcome)
      requires Valid() && msg != memory && msg !in k.Repr && msg.Length == msgSize
      requires !inInterrupt ==> k.view.current != IDLE && IDLE in k.view.home && k.view.home[IDLE] == Some(RUNNING)
      modifies msg, this`used, this`readPos, k`view, k`current, k.links.repr, k.taskSet
      ensures Wf(old(k.view)) && taskList.container in old(k.view).lists && old(k.view).current in old(k.view).home
      ensures r == if old(Contents()) != [] then Taken else if inInterrupt then Failed else Blocked
      ensures Ring() && Contents() == F.Step(old(Contents()), Some(total), F.ReceiveOp)
      ensures r == Taken ==> msg[..] == old(Contents())[0]
      ensures TokenSpec.Region(k.view, |Contents()|, r)
        == if inInterrupt then TryRegion(old(k.view), |old(Contents())|)
           else WaitRegion(old(k.view), taskList.container, |old(Contents())|)
      ensures Valid()
    {
      hide Wf, Kernel.Valid, Kernel.Shape, Move, Resched, Messages, Positions;
      k.ValidFacts();
      k.NamesKnown(taskList, null);
      if used == 0 {
        if inInterrupt {
          return Failed;
        }
        k.BlockCurrent(taskList);
        return Blocked;
      }
      Take(msg);
      return Taken;
    }

    // The loop of gyros_smq_receive_until, one pass, for the unwrapped deadline d and clock c.
    method ReceiveUntil(msg: array<Byte>, timeout: AbsTime, now: AbsTime, ghost d: int, ghost c: int)
        returns (r: TokenSpec.Outcome)
      requires Valid() && msg != memory && msg !in k.Repr && msg.Length == msgSize
      requires k.view.current != IDLE && IDLE in k.view.home && k.view.home[IDLE] == Some(RUNNING)
      requires k.view.current !in k.view.timeouts
      requires timeout == Wrap(d) && now == Wrap(c) && -HALF <= d - c < HALF && k.Near(d)
      modifies msg, this`used, this`readPos, k`view, k`current, k.links.repr, k.taskSet
      ensures Wf(old(k.view)) && taskList.container in old(k.view).lists && old(k.view).current in old(k.view).home
      ensures r == if old(Contents()) != [] then Taken else if d <= c then Failed else Blocked
      ensures Ring() && Contents() == F.Step(old(Contents()), Some(total), F.ReceiveOp)
      ensures r == Taken ==> msg[..] == old(Contents())[0]
      ensures TokenSpec.Region(k.view, |Contents()|, r)
        == WaitUntilRegion(old(k.view), taskList.container, |old(Contents())|, d, c)
      ensures Valid()
    {
      hide Wf, Kernel.Valid, Kernel.Shape, Kernel.Near, Move, Arm, Resched, Messages, Positions, Wrap;
      k.ValidFacts();
      k.NamesKnown(taskList, null);
      if used == 0 {
        var pending := k.TaskSetTimeout(timeout, now, d, c);
        if !pending {
          return Failed;
        }
        k.BlockCurrent(taskList);
        return Blocked;
      }
      Take(msg);
      return Taken;
    }

    // What gyros_smq_receive_until does when it is resumed.
    method ReceiveResumed(msg: array<Byte>) returns (r: TokenSpec.Outcome)
      requires Valid() && msg != memory && msg !in k.Repr && msg.Length == msgSize
      modifies msg, this`used, this`readPos
      ensures r == if old(Contents()) != [] then Taken else Failed
      ensures Ring() && Contents() == F.Step(old(Contents()), Some(total), F.ReceiveOp)
      ensures r == Taken ==> msg[..] == old(Contents())[0]
      ensures TokenSpec.Region(k.view, |Contents()|, r) == TryRegion(old(k.view), |old(Contents())|)
      ensures Valid()
    {
      hide Wf, Kernel.Valid, Kernel.Shape, Messages, Positions;
      k.ValidFacts();
      if used == 0 {
        return Failed;
      }
      Take(msg);
      return Taken;
    }
  }

  lemma PutSlot(a: seq<Byte>, b: seq<Byte>, size: nat, i: nat)
    requires |a| == |b| && (i + 1) * size == i * size + size
    requires forall k :: 0 <= k < |a| && !(i * size <= k < i * size + size) ==> b[k] == a[k]
    ensures OnlySlot(a, b, size, i)
  {
  }
}
