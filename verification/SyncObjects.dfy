// src/sem.c, src/event_group.c and src/rwlock.c on the linked kernel.  A method is one
// interrupt-disabled region; where the source loops or goes on after a reschedule, the
// task comes back through the method named in the comment.

module SemObjects {
  import opened Seqs
  import opened Lists
  import opened Sched
  import opened Time
  import opened TokenSpec
  import opened Kernels

  const UINT_MAX: nat := 0xFFFF_FFFF

  class Semaphore {
    const k: Kernel
    const taskList: Node
    const maxValue: nat
    var value: nat

    ghost predicate Valid()
      reads this, k, k.links, k.Repr
    {
      k.Valid() && this !in k.Repr && k.IsList(taskList) && taskList.container != RUNNING && value <= maxValue
    }

    // gyros_sem_init and gyros_sem_init_binary; the start value is converted to unsigned.
    constructor (k: Kernel, taskList: Node, binary: bool, startValue: int)
      requires k.Valid() && k.Owned() && k.IsList(taskList) && taskList.container != RUNNING
      ensures Valid() && this.k == k && this.taskList == taskList
      ensures maxValue == (if binary then 1 else UINT_MAX) && value == if binary then 0 else startValue % (UINT_MAX + 1)
    {
      hide Kernel.Valid;
      this.k, this.taskList := k, taskList;
      maxValue, value := if binary then 1 else UINT_MAX, if binary then 0 else startValue % (UINT_MAX + 1);
    }

    // gyros_sem_try_wait, and gyros_sem_wait_until after the reschedule
    method TryWait() returns (acquired: bool)
      requires Valid()
      modifies this`value
      ensures Valid() && k.view == old(k.view)
      ensures TokenSpec.Region(k.view, value, if acquired then Taken else Failed) == TryRegion(old(k.view), old(value))
    {
      hide Kernel.Valid;
      if value == 0 {
        return false;
      }
      value := value - 1;
      return true;
    }

    // gyros_sem_wait, one pass of its loop
    method WaitOnce() returns (acquired: bool)
      requires Valid() && k.view.current != IDLE && IDLE in k.view.home && k.view.home[IDLE] == Some(RUNNING)
      modifies this`value, k`view, k`current, k.links.repr, k.taskSet
      ensures Wf(old(k.view)) && taskList.container in old(k.view).lists && old(k.view).current in old(k.view).home
      ensures TokenSpec.Region(k.view, value, if acquired then Taken else Blocked)
        == WaitRegion(old(k.view), taskList.container, old(value))
      ensures Valid()
    {
      hide Wf, Kernel.Valid, Kernel.Shape, Move, Resched;
      k.ValidFacts();
      k.NamesKnown(taskList, null);
      if value == 0 {
        k.BlockCurrent(taskList);
        return false;
      }
      value := value - 1;
      return true;
    }

    // gyros_sem_wait_until up to the reschedule, for the unwrapped deadline d and clock c
    method WaitUntil(timeout: AbsTime, now: AbsTime, ghost d: int, ghost c: int) returns (outcome: TokenSpec.Outcome)
      requires Valid() && k.view.current != IDLE && IDLE in k.view.home && k.view.home[IDLE] == Some(RUNNING)
      requires k.view.current !in k.view.timeouts
      requires timeout == Wrap(d) && now == Wrap(c) && -HALF <= d - c < HALF && k.Near(d)
      modifies this`value, k`view, k`current, k.links.repr, k.taskSet
      ensures Wf(old(k.view)) && taskList.container in old(k.view).lists && old(k.view).current in old(k.view).home
      ensures TokenSpec.Region(k.view, value, outcome)
        == WaitUntilRegion(old(k.view), taskList.container, old(value), d, c)
      ensures Valid()
    {
      hide Wf, Kernel.Valid, Kernel.Shape, Kernel.Near, Arm, Move, Resched, Wrap;
      k.ValidFacts();
      k.NamesKnown(taskList, null);
      if value == 0 {
        var pending := k.TaskSetTimeout(timeout, now, d, c);
        if !pending {
          return Failed;
        }
        k.ValidFacts();
        k.BlockCurrent(taskList);
        return Blocked;
      }
      value := value - 1;
      return Taken;
    }

    // gyros_sem_signal
    method Signal() returns (ghost accepted: bool)
      requires Valid()
      modifies this`value, k`view, k`current, k.links.repr, k.taskSet
      ensures Wf(old(k.view)) && taskList.container in old(k.view).lists
      ensures TokenSpec.Region(k.view, value, if accepted then Taken else Failed)
        == PutRegion(old(k.view), taskList.container, old(value), Some(maxValue))
      ensures Valid()
    {
      hide Wf, Kernel.Valid, Kernel.Shape, Wake, Resched;
      k.ValidFacts();
      k.ValidShape();
      k.NamesKnown(taskList, null);
      accepted := false;
      if value < maxValue {
        accepted := true;
        value := value + 1;
        var empty := k.ListEmpty(taskList);
        if !empty {
          k.WakeFirst(taskList, true);
        }
      }
    }
  }
}

module EventObjects {
  import opened Seqs
  import opened Lists
  import opened Sched
  import opened Time
  import opened EventSpec
  import opened EventWords
  import opened Kernels

  class EventGroup {
    const k: Kernel
    const taskList: Node
    var events: bv32

    ghost predicate Valid()
      reads this, k, k.links, k.Repr
    {
      k.Valid() && this !in k.Repr && k.IsList(taskList) && taskList.container != RUNNING
    }

    // gyros_event_group_init
    constructor (k: Kernel, taskList: Node)
      requires k.Valid() && k.Owned() && k.IsList(taskList) && taskList.container != RUNNING
      ensures Valid() && events == 0 && this.k == k && this.taskList == taskList
    {
      hide Kernel.Valid;
      this.k, this.taskList, events := k, taskList, 0;
    }

    // What a get hands out, if it succeeds.
    ghost function Result(got: bool, bits: bv32): Option<Bits> {
      if got then Some(Flags(bits)) else None
    }

    // The end of a get whose request is met.
    method TakeEvents(waitEvents: bv32, waitAll: bool) returns (bits: bv32)
      requires Match(waitAll, Flags(waitEvents), Flags(events))
      modifies this`events
      ensures Flags(bits) == Given(old(Flags(events)), Flags(waitEvents))
      ensures Flags(events) == Left(old(Flags(events)), Flags(waitEvents))
    {
      hide Flags, Match, Given, Left, GivenWord, LeftWord;
      GivenMeans(events, waitEvents);
      LeftMeans(events, waitEvents);
      bits := GivenWord(events, waitEvents);
      events := LeftWord(events, waitEvents);
    }

    // gyros_event_group_get, one pass of its loop
    method GetOnce(waitEvents: bv32, waitAll: bool) returns (got: bool, bits: bv32)
      requires Valid() && k.view.current != IDLE && IDLE in k.view.home && k.view.home[IDLE] == Some(RUNNING)
      modifies this`events, k`view, k`current, k.links.repr, k.taskSet
      ensures Wf(old(k.view)) && taskList.container in old(k.view).lists && old(k.view).current in old(k.view).home
      ensures EventSpec.Region(k.view, Flags(events), Result(got, bits))
        == GetRegion(old(k.view), taskList.container, old(Flags(events)), Flags(waitEvents), waitAll)
      ensures Valid()
    {
      hide Wf, Kernel.Valid, Kernel.Shape, Move, Resched, Flags, Match, Given, Left, EventMatch, GivenWord, LeftWord;
      k.ValidFacts();
      k.NamesKnown(taskList, null);
      MatchMeans(waitAll, waitEvents, events);
      if !EventMatch(waitAll, waitEvents, events) {
        k.BlockCurrent(taskList);
        return false, 0;
      }
      bits := TakeEvents(waitEvents, waitAll);
      return true, bits;
    }

    // gyros_event_group_get_until up to the reschedule, for the unwrapped deadline d and clock c
    method GetUntil(waitEvents: bv32, waitAll: bool, timeout: AbsTime, now: AbsTime, ghost d: int, ghost c: int)
        returns (got: bool, bits: bv32)
      requires Valid() && k.view.current != IDLE && IDLE in k.view.home && k.view.home[IDLE] == Some(RUNNING)
      requires k.view.current !in k.view.timeouts
      requires timeout == Wrap(d) && now == Wrap(c) && -HALF <= d - c < HALF && k.Near(d)
      modifies this`events, k`view, k`current, k.links.repr, k.taskSet
      ensures Wf(old(k.view)) && taskList.container in old(k.view).lists && old(k.view).current in old(k.view).home
      ensures EventSpec.Region(k.view, Flags(events), Result(got, bits))
        == GetUntilRegion(old(k.view), taskList.container, old(Flags(events)), Flags(waitEvents), waitAll, d, c)
      ensures Valid()
    {
      hide Wf, Kernel.Valid, Kernel.Shape, Kernel.Near, Arm, Move, Resched, Wrap, Flags, Match, Given, Left, EventMatch,
        GivenWord, LeftWord;
      k.ValidFacts();
      k.NamesKnown(taskList, null);
      MatchMeans(waitAll, waitEvents, events);
      if !EventMatch(waitAll, waitEvents, events) {
        var pending := k.TaskSetTimeout(timeout, now, d, c);
        if pending {
          k.ValidFacts();
          k.BlockCurrent(taskList);
        }
        return false, 0;
      }
      bits := TakeEvents(waitEvents, waitAll);
      return true, bits;
    }

    // gyros_event_group_get_until after the reschedule
    method GetResumed(waitEvents: bv32, waitAll: bool) returns (got: bool, bits: bv32)
      requires Valid()
      modifies this`events
      ensures EventSpec.Region(k.view, Flags(events), Result(got, bits))
        == ResumeRegion(old(k.view), old(Flags(events)), Flags(waitEvents), waitAll)
      ensures Valid()
    {
      hide Wf, Kernel.Valid, Flags, Match, Given, Left, EventMatch, GivenWord, LeftWord;
      MatchMeans(waitAll, waitEvents, events);
      if !EventMatch(waitAll, waitEvents, events) {
        return false, 0;
      }
      bits := TakeEvents(waitEvents, waitAll);
      return true, bits;
    }

    // gyros_event_group_set
    method Set(newEvents: bv32)
      requires Valid() && Runnable(k.view)
      modifies this`events, k`view, k`current, k.links.repr, k.taskSet
      ensures Wf(old(k.view)) && taskList.container in old(k.view).lists
      ensures EventSpec.Region(k.view, Flags(events), None)
        == SetRegion(old(k.view), taskList.container, old(Flags(events)), Flags(newEvents))
      ensures Valid()
    {
      hide Wf, Kernel.Valid, Kernel.Shape, WakeAll, Resched, Runnable, Flags, Match, Given, Left, AnyNew, WithWord;
      k.ValidFacts();
      k.NamesKnown(taskList, null);
      AnyNewMeans(events, newEvents);
      WithMeans(events, newEvents);
      FlagsNone();
      if newEvents == 0 {
        assert Flags(newEvents) - Flags(events) == iset{};
        return;
      }
      if AnyNew(events, newEvents) {
        events := WithWord(events, newEvents);
        WakeAllRuns(k.view, taskList.container);
        k.WakeAllTasks(taskList);
        k.CondReschedule();
      }
    }

    // gyros_event_group_clear
    method Clear(oldEvents: bv32)
      requires Valid()
      modifies this`events
      ensures Valid() && k.view == old(k.view) && Flags(events) == old(Flags(events)) - Flags(oldEvents)
    {
      hide Kernel.Valid, Flags, Match, Given, Left, WithoutWord;
      WithoutMeans(events, oldEvents);
      FlagsNone();
      if oldEvents == 0 {
        return;
      }
      events := WithoutWord(events, oldEvents);
    }
  }

  // Waking everybody on a list leaves somebody running.
  lemma WakeAllRuns(v: View, l: Lid)
    requires Wf(v) && l in v.lists && l != RUNNING && Runnable(v)
    ensures Runnable(WakeAll(v, l))
  {
    hide Wf, WakeAll;
    RunningListed(v);
    FirstKnown(v, RUNNING);
    WakeAllEffect(v, l);
    InRunning(WakeAll(v, l), v.lists[RUNNING][0]);
  }
}

module RwLockObjects {
  import opened Seqs
  import opened Lists
  import opened Sched
  import opened Time
  import opened RwSpec
  import opened Kernels
  import EventObjects

  class RwLock {
    const k: Kernel
    const rdTaskList: Node
    const wrTaskList: Node
    var writer: Task?
    var readers: int

    ghost predicate Valid()
      reads this, k, k.links, k.Repr
    {
      && k.Valid() && this !in k.Repr && this !in k.taskSet
      && k.IsList(rdTaskList) && k.IsList(wrTaskList) && rdTaskList.container != RUNNING
        && wrTaskList.container != RUNNING
      && (writer != null ==> k.IsTask(writer))
    }

    ghost function Writer(): Option<Tid>
      reads this
    {
      if writer == null then None else Some(writer.id)
    }

    // gyros_rwlock_init
    constructor (k: Kernel, rdTaskList: Node, wrTaskList: Node)
      requires k.Valid() && k.Owned() && k.IsList(rdTaskList) && k.IsList(wrTaskList)
      requires rdTaskList.container != RUNNING && wrTaskList.container != RUNNING
      ensures Valid() && Writer() == None && readers == 0
      ensures this.k == k && this.rdTaskList == rdTaskList && this.wrTaskList == wrTaskList
    {
      hide Kernel.Valid;
      this.k, this.rdTaskList, this.wrTaskList, writer, readers := k, rdTaskList, wrTaskList, null, 0;
    }

    // The test of the read-lock loops.
    method ReadBusy() returns (busy: bool)
      requires Valid()
      ensures wrTaskList.container in k.view.lists && (busy <==> RdBusy(k.view, wrTaskList.container, Writer()))
    {
      hide Wf, Kernel.Valid, Kernel.Shape;
      k.ValidShape();
      k.NamesKnown(wrTaskList, null);
      var empty := k.ListEmpty(wrTaskList);
      busy := writer != null || !empty;
    }

    // The test of the write-lock loops.
    method WriteBusy() returns (busy: bool)
      requires Valid()
      ensures busy <==> WrBusy(k.view, Writer(), readers)
    {
      hide Wf, Kernel.Valid, Kernel.Shape;
      k.CurrentIs();
      k.SameTask(writer);
      busy := (writer != null && writer != k.current) || readers != 0;
    }

    // gyros_rwlock_rdlock, one pass of its loop
    method RdLockOnce() returns (locked: bool)
      requires Valid() && k.view.current != IDLE && IDLE in k.view.home && k.view.home[IDLE] == Some(RUNNING)
      modifies this`readers, k`view, k`current, k.links.repr, k.taskSet
      ensures Wf(old(k.view)) && rdTaskList.container in old(k.view).lists && wrTaskList.container in old(k.view).lists
      ensures old(k.view).current in old(k.view).home
      ensures RwSpec.Region(k.view, Writer(), readers, if locked then Acquired else Blocked)
        == RdLock(old(k.view), rdTaskList.container, wrTaskList.container, old(Writer()), old(readers))
      ensures Valid()
    {
      hide Wf, Kernel.Valid, Kernel.Shape, Move, Resched, RdBusy;
      k.ValidFacts();
      k.NamesKnown(rdTaskList, null);
      var busy := ReadBusy();
      if busy {
        k.BlockCurrent(rdTaskList);
        return false;
      }
      readers := readers + 1;
      return true;
    }

    // gyros_rwlock_try_rdlock
    method TryRdLock() returns (locked: bool)
      requires Valid()
      modifies this`readers
      ensures wrTaskList.container in old(k.view).lists
      ensures RwSpec.Region(k.view, Writer(), readers, if locked then Acquired else Failed)
        == RwSpec.TryRdLock(old(k.view), wrTaskList.container, old(Writer()), old(readers))
      ensures Valid()
    {
      hide Wf, Kernel.Valid, RdBusy;
      var busy := ReadBusy();
      if !busy {
        readers := readers + 1;
      }
      return !busy;
    }

    // gyros_rwlock_rdlock_until, one pass of its loop, for the unwrapped deadline d and clock c
    method RdLockUntil(timeout: AbsTime, now: AbsTime, ghost d: int, ghost c: int) returns (outcome: RwSpec.Outcome)
      requires Valid() && k.view.current != IDLE && IDLE in k.view.home && k.view.home[IDLE] == Some(RUNNING)
      requires k.view.current !in k.view.timeouts
      requires timeout == Wrap(d) && now == Wrap(c) && -HALF <= d - c < HALF && k.Near(d)
      modifies this`readers, k`view, k`current, k.links.repr, k.taskSet
      ensures Wf(old(k.view)) && rdTaskList.container in old(k.view).lists && wrTaskList.container in old(k.view).lists
      ensures old(k.view).current in old(k.view).home
      ensures RwSpec.Region(k.view, Writer(), readers, outcome)
        == RwSpec.RdLockUntil(old(k.view), rdTaskList.container, wrTaskList.container, old(Writer()),
          old(readers), d, c)
      ensures Valid()
    {
      hide Wf, Kernel.Valid, Kernel.Shape, Kernel.Near, Arm, Move, Resched, Wrap, RdBusy;
      k.ValidFacts();
      k.NamesKnown(rdTaskList, null);
      var busy := ReadBusy();
      if busy {
        var pending := k.TaskSetTimeout(timeout, now, d, c);
        if !pending {
          return Failed;
        }
        k.ValidFacts();
        k.BlockCurrent(rdTaskList);
        return Blocked;
      }
      readers := readers + 1;
      return Acquired;
    }

    // gyros_rwlock_rdlock_until after the reschedule: give up, or go round the loop again.
    method RdResumed(timeout: AbsTime, now: AbsTime, ghost d: int, ghost c: int) returns (outcome: RwSpec.Outcome)
      requires Valid() && k.view.current != IDLE && IDLE in k.view.home && k.view.home[IDLE] == Some(RUNNING)
      requires k.view.current !in k.view.timeouts
      requires timeout == Wrap(d) && now == Wrap(c) && -HALF <= d - c < HALF && k.Near(d)
      modifies this`readers, k`view, k`current, k.links.repr, k.taskSet
      ensures Wf(old(k.view)) && rdTaskList.container in old(k.view).lists && wrTaskList.container in old(k.view).lists
      ensures old(k.view).current in old(k.view).home
      ensures var v, rd, wr := old(k.view), rdTaskList.container, wrTaskList.container;
        RwSpec.Region(k.view, Writer(), readers, outcome)
        == Resumed(v, old(Writer()), old(readers), RwSpec.RdLockUntil(v, rd, wr, old(Writer()), old(readers), d, c))
      ensures Valid()
    {
      hide Wf, Kernel.Valid, Kernel.Shape, Kernel.Near, RwSpec.RdLockUntil, Wrap;
      k.ValidFacts();
      k.NamesKnown(rdTaskList, null);
      k.NamesKnown(wrTaskList, null);
      k.TimedOutIs(k.current);
      if k.current.timedOut {
        return Failed;
      }
      outcome := RdLockUntil(timeout, now, d, c);
    }

    // gyros_rwlock_wrlock, one pass of its loop
    method WrLockOnce() returns (locked: bool)
      requires Valid() && k.view.current != IDLE && IDLE in k.view.home && k.view.home[IDLE] == Some(RUNNING)
      modifies this`writer, k`view, k`current, k.links.repr, k.taskSet
      ensures Wf(old(k.view)) && wrTaskList.container in old(k.view).lists && old(k.view).current in old(k.view).home
      ensures RwSpec.Region(k.view, Writer(), readers, if locked then Acquired else Blocked)
        == WrLock(old(k.view), wrTaskList.container, old(Writer()), old(readers))
      ensures Valid()
    {
      hide Wf, Kernel.Valid, Kernel.Shape, Move, Resched, WrBusy;
      k.ValidFacts();
      k.NamesKnown(wrTaskList, null);
      var busy := WriteBusy();
      if busy {
        k.BlockCurrent(wrTaskList);
        return false;
      }
      writer := k.current;
      return true;
    }

    // gyros_rwlock_try_wrlock
    method TryWrLock() returns (locked: bool)
      requires Valid()
      modifies this`writer
      ensures RwSpec.Region(k.view, Writer(), readers, if locked then Acquired else Failed)
        == RwSpec.TryWrLock(old(k.view), old(Writer()), old(readers))
      ensures Valid()
    {
      hide Wf, Kernel.Valid, WrBusy;
      var busy := WriteBusy();
      if !busy {
        k.CurrentIs();
        writer := k.current;
      }
      return !busy;
    }

    // gyros_rwlock_wrlock_until, one pass of its loop, for the unwrapped deadline d and clock c
    method WrLockUntil(timeout: AbsTime, now: AbsTime, ghost d: int, ghost c: int) returns (outcome: RwSpec.Outcome)
      requires Valid() && k.view.current != IDLE && IDLE in k.view.home && k.view.home[IDLE] == Some(RUNNING)
      requires k.view.current !in k.view.timeouts
      requires timeout == Wrap(d) && now == Wrap(c) && -HALF <= d - c < HALF && k.Near(d)
      modifies this`writer, k`view, k`current, k.links.repr, k.taskSet
      ensures Wf(old(k.view)) && wrTaskList.container in old(k.view).lists && old(k.view).current in old(k.view).home
      ensures RwSpec.Region(k.view, Writer(), readers, outcome)
        == RwSpec.WrLockUntil(old(k.view), wrTaskList.container, old(Writer()), old(readers), d, c)
      ensures Valid()
    {
      hide Wf, Kernel.Valid, Kernel.Shape, Kernel.Near, Arm, Move, Resched, Wrap, WrBusy;
      k.ValidFacts();
      k.NamesKnown(wrTaskList, null);
      var busy := WriteBusy();
      if busy {
        var pending := k.TaskSetTimeout(timeout, now, d, c);
        if !pending {
          return Failed;
        }
        k.ValidFacts();
        k.BlockCurrent(wrTaskList);
        return Blocked;
      }
      writer := k.current;
      return Acquired;
    }

    // gyros_rwlock_wrlock_until after the reschedule.
    method WrResumed(timeout: AbsTime, now: AbsTime, ghost d: int, ghost c: int) returns (outcome: RwSpec.Outcome)
      requires Valid() && k.view.current != IDLE && IDLE in k.view.home && k.view.home[IDLE] == Some(RUNNING)
      requires k.view.current !in k.view.timeouts
      requires timeout == Wrap(d) && now == Wrap(c) && -HALF <= d - c < HALF && k.Near(d)
      modifies this`writer, k`view, k`current, k.links.repr, k.taskSet
      ensures Wf(old(k.view)) && wrTaskList.container in old(k.view).lists && old(k.view).current in old(k.view).home
      ensures var v, wr := old(k.view), wrTaskList.container;
        RwSpec.Region(k.view, Writer(), readers, outcome)
        == Resumed(v, old(Writer()), old(readers), RwSpec.WrLockUntil(v, wr, old(Writer()), old(readers), d, c))
      ensures Valid()
    {
      hide Wf, Kernel.Valid, Kernel.Shape, Kernel.Near, RwSpec.WrLockUntil, Wrap;
      k.ValidFacts();
      k.NamesKnown(wrTaskList, null);
      k.TimedOutIs(k.current);
      if k.current.timedOut {
        return Failed;
      }
      outcome := WrLockUntil(timeout, now, d, c);
    }

    // gyros_rwlock_unlock
    method Unlock()
      requires Valid() && Runnable(k.view)
      modifies this`writer, this`readers, k`view, k`current, k.links.repr, k.taskSet
      ensures Wf(old(k.view)) && rdTaskList.container in old(k.view).lists && wrTaskList.container in old(k.view).lists
      ensures RwSpec.Region(k.view, Writer(), readers, Acquired)
        == RwSpec.Unlock(old(k.view), rdTaskList.container, wrTaskList.container, old(Writer()), old(readers))
      ensures Valid()
    {
      hide Wf, Kernel.Valid, Kernel.Shape, Wake, WakeAll, Resched, Runnable;
      k.ValidFacts();
      k.ValidShape();
      k.NamesKnown(rdTaskList, null);
      k.NamesKnown(wrTaskList, null);
      if writer != null {
        writer := null;
      } else {
        readers := readers - 1;
      }
      var empty := k.ListEmpty(wrTaskList);
      if !empty {
        if readers == 0 {
          HandOver();
        } else {
          k.CondReschedule();
        }
      } else {
        EventObjects.WakeAllRuns(k.view, rdTaskList.container);
        k.WakeAllTasks(rdTaskList);
        k.CondReschedule();
      }
    }

    // The lock is given to the first queued writer.
    method HandOver()
      requires Valid() && Wf(k.view) && wrTaskList.container in k.view.lists && k.view.lists[wrTaskList.container] != []
      modifies this`writer, k`view, k`current, k.links.repr, k.taskSet
      ensures var h := old(k.view).lists[wrTaskList.container][0];
        h in old(k.view).home && Writer() == Some(h) && k.view == Resched(Wake(old(k.view), h))
      ensures Valid()
    {
      hide Wf, Kernel.Valid, Kernel.Shape, Wake, Resched;
      k.ValidFacts();
      k.ValidShape();
      writer := k.First(wrTaskList);
      k.WakeFirst(wrTaskList, true);
    }
  }
}
