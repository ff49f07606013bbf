// src/mutex.c on the linked kernel: each method is one interrupt-disabled region, and
// does what the region function of MutexSpec says.

module MutexObjects {
  import opened Seqs
  import opened Lists
  import opened Sched
  import opened Time
  import opened MutexSpec
  import opened Kernels

  class Mutex {
    const k: Kernel
    const taskList: Node
    var owner: Task?

    ghost predicate Valid()
      reads this, k, k.links, k.Repr
    {
      && k.Valid() && this !in k.Repr
      && k.IsList(taskList)
      && (owner != null ==> k.IsTask(owner))
    }

    ghost function Owner(): Option<Tid>
      reads this
    {
      if owner == null then None else Some(owner.id)
    }

    // gyros_mutex_init, on a list head that the kernel knows.
    constructor (k: Kernel, taskList: Node)
      requires k.Valid() && k.Owned() && k.IsList(taskList)
      ensures Valid() && Owner() == None && this.k == k && this.taskList == taskList
    {
      hide Kernel.Valid;
      this.k, this.taskList, owner := k, taskList, null;
    }

    // gyros__mutex_try_lock_slow
    method TryLock() returns (locked: bool)
      requires Valid()
      modifies this`owner
      ensures Valid()
      ensures locked <==> old(Owner()) == None
      ensures MutexSpec.Region(k.view, Owner()) == TryLockRegion(k.view, old(Owner()))
    {
      hide Wf, Kernel.Valid;
      k.NamesKnown(taskList, owner);
      if owner != null {
        return false;
      }
      owner := k.current;
      return true;
    }

    // gyros__mutex_lock_slow, one pass of the loop: false means that the task blocked and
    // comes back here when it is current again.
    method LockOnce() returns (locked: bool)
      requires Valid() && owner != k.current
      requires k.view.current != IDLE && IDLE in k.view.home && k.view.home[IDLE] == Some(RUNNING)
      modifies this`owner, k`view, k`current, k.links.repr, k.taskSet
      ensures Wf(old(k.view)) && taskList.container in old(k.view).lists && old(k.view).current in old(k.view).home
      ensures old(Owner()).Some? ==> old(Owner()).value in old(k.view).home
      ensures MutexSpec.Region(k.view, Owner()) == LockRegion(old(k.view), taskList.container, old(Owner()))
      ensures locked <==> old(Owner()) == None
      ensures Valid()
    {
      hide Wf, Kernel.Valid, Kernel.Shape, Move, SetPrio, Resched;
      k.ValidFacts();
      k.NamesKnown(taskList, owner);
      if owner != null {
        var c := k.current;
        k.TaskMove(c, taskList);
        k.NamesKnown(taskList, owner);
        k.PrioritiesKnown(owner, c);
        if owner.priority < c.priority {
          k.SetPriority(owner, c.priority);
        }
        k.ValidFacts();
        IdleRuns(k.view);
        k.Reschedule();
        return false;
      }
      owner := k.current;
      return true;
    }

    // gyros__mutex_unlock_slow, by the owner.
    method Unlock(reschedule: bool)
      requires Valid() && owner == k.current && taskList.container != RUNNING
      requires k.view.current in k.view.home && k.view.home[k.view.current] == Some(RUNNING)
      modifies this`owner, k`view, k`current, k.links.repr, k.taskSet
      ensures Wf(old(k.view)) && taskList.container in old(k.view).lists
      ensures MutexSpec.Region(k.view, Owner()) == UnlockRegion(old(k.view), taskList.container, reschedule)
      ensures Valid() && k.links.repr == old(k.links.repr)
    {
      hide Wf, Kernel.Valid, Kernel.Shape, Wake, SetPrio, Resched;
      k.ValidFacts();
      k.NamesKnown(taskList, owner);
      owner := null;
      Deboost();
      WakeWaiter(reschedule);
    }

    // The first task on the list, if there is one, is woken.
    method WakeWaiter(reschedule: bool)
      requires k.Valid() && k.IsList(taskList) && Wf(k.view) && taskList.container in k.view.lists
      modifies k`view, k`current, k.links.repr, k.taskSet
      ensures old(k.view).lists[taskList.container] == [] ==> k.view == old(k.view)
      ensures old(k.view).lists[taskList.container] != [] ==>
        old(k.view).lists[taskList.container][0] in old(k.view).home
      ensures old(k.view).lists[taskList.container] != [] ==>
        var w := Wake(old(k.view), old(k.view).lists[taskList.container][0]);
        k.view == if reschedule then Resched(w) else w
      ensures k.Valid() && k.links.repr == old(k.links.repr)
    {
      hide Wf, Kernel.Valid, Kernel.Shape, Wake, Resched;
      k.ValidShape();
      var empty := k.ListEmpty(taskList);
      if !empty {
        k.WakeFirst(taskList, reschedule);
      }
    }

    // The current task drops back to its base priority.
    method Deboost()
      requires k.Valid() && Wf(k.view) && k.view.current in k.view.home
      modifies k`view, k.links.repr, k.taskSet
      ensures old(k.view).current in old(k.view).prio && old(k.view).current in old(k.view).base
      ensures k.view == var v, c := old(k.view), old(k.view).current;
        if v.prio[c] != v.base[c] then SetPrio(v, c, v.base[c]) else v
      ensures k.Valid() && k.links.repr == old(k.links.repr)
    {
      hide Wf, Kernel.Valid, Kernel.Shape, SetPrio;
      k.ValidFacts();
      k.CurrentIs();
      k.PrioritiesKnown(k.current, k.current);
      if k.current.priority != k.current.basePriority {
        k.SetPriority(k.current, k.current.basePriority);
      }
    }
  }

  // src/cond.c.  After Wait, the task locks m again with LockOnce.
  class Cond {
    const k: Kernel
    const taskList: Node

    ghost predicate Valid()
      reads k, k.links, k.Repr
    {
      k.Valid() && k.IsList(taskList) && taskList.container != RUNNING
    }

    constructor (k: Kernel, taskList: Node)
      requires k.Valid() && k.IsList(taskList) && taskList.container != RUNNING
      ensures Valid() && this.k == k && this.taskList == taskList
    {
      hide Kernel.Valid;
      this.k, this.taskList := k, taskList;
    }

    // gyros_cond_wait up to the reschedule: release the mutex and join the list.
    method Wait(m: Mutex)
      requires Valid() && m.Valid() && m.k == k && m.owner == k.current && m.taskList.container != RUNNING
      requires k.view.current != IDLE && IDLE in k.view.home && k.view.home[IDLE] == Some(RUNNING)
      requires k.view.current in k.view.home && k.view.home[k.view.current] == Some(RUNNING)
      modifies m`owner, k`view, k`current, k.links.repr, k.taskSet
      ensures Wf(old(k.view)) && m.taskList.container in old(k.view).lists && old(k.view).current in old(k.view).home
      ensures var r := UnlockRegion(old(k.view), m.taskList.container, false);
        && taskList.container in r.v.lists
        && m.Owner() == r.owner && k.view == Resched(Move(r.v, old(k.view).current, taskList.container))
      ensures Valid() && m.Valid()
    {
      hide Wf, Kernel.Valid, Kernel.Shape, Move, SetPrio, Wake, Resched;
      k.ValidFacts();
      k.NamesKnown(taskList, null);
      k.NamesKnown(m.taskList, null);
      var c := k.current;
      m.Unlock(false);
      k.NamesKnown(taskList, null);
      UnlockStays(old(k.view), m.taskList.container);
      k.TaskMove(c, taskList);
      k.ValidFacts();
      IdleRuns(k.view);
      k.Reschedule();
    }

    // gyros_cond_wait_until up to the reschedule, for the unwrapped deadline d and clock c:
    // a deadline that has passed leaves the mutex locked.
    method WaitUntil(m: Mutex, timeout: AbsTime, now: AbsTime, ghost d: int, ghost c: int) returns (blocked: bool)
      requires Valid() && m.Valid() && m.k == k && m.owner == k.current && m.taskList.container != RUNNING
      requires k.view.current != IDLE && IDLE in k.view.home && k.view.home[IDLE] == Some(RUNNING)
      requires k.view.current in k.view.home && k.view.home[k.view.current] == Some(RUNNING)
      requires k.view.current !in k.view.timeouts
      requires timeout == Wrap(d) && now == Wrap(c) && -HALF <= d - c < HALF && k.Near(d)
      modifies m`owner, k`view, k`current, k.links.repr, k.taskSet
      ensures blocked <==> d > c
      ensures !blocked ==> k.view == old(k.view) && m.owner == old(m.owner)
      ensures Wf(old(k.view)) && m.taskList.container in old(k.view).lists && old(k.view).current in old(k.view).home
      ensures blocked ==>
        var v := Arm(old(k.view), old(k.view).current, d);
        var r := UnlockRegion(v, m.taskList.container, false);
        taskList.container in r.v.lists && m.Owner() == r.owner
        && k.view == Resched(Move(r.v, old(k.view).current, taskList.container))
      ensures Valid() && m.Valid()
    {
      hide Wf, Kernel.Valid, Kernel.Shape, Kernel.Near, UnlockRegion, Arm, Move, Resched, Wrap;
      k.ValidFacts();
      k.NamesKnown(m.taskList, null);
      blocked := k.TaskSetTimeout(timeout, now, d, c);
      if blocked {
        k.ValidFacts();
        Wait(m);
      }
    }

    // gyros_cond_signal_one
    method SignalOne()
      requires Valid()
      modifies k`view, k`current, k.links.repr, k.taskSet
      ensures Wf(old(k.view)) && taskList.container in old(k.view).lists
      ensures old(k.view).lists[taskList.container] == [] ==> k.view == old(k.view)
      ensures old(k.view).lists[taskList.container] != [] ==>
        var t := old(k.view).lists[taskList.container][0];
        t in old(k.view).home && k.view == Resched(Wake(old(k.view), t))
      ensures Valid()
    {
      hide Wf, Kernel.Valid, Kernel.Shape, Wake, Resched;
      k.ValidFacts();
      k.ValidShape();
      var empty := k.ListEmpty(taskList);
      if !empty {
        k.WakeFirst(taskList, true);
      }
    }

    // gyros_cond_signal_all
    method SignalAll()
      requires Valid()
      modifies k`view, k`current, k.links.repr, k.taskSet
      ensures Wf(old(k.view)) && taskList.container in old(k.view).lists
      ensures k.view == if old(k.view).lists[taskList.container] == [] then old(k.view)
                        else Resched(WakeAll(old(k.view), taskList.container))
      ensures Valid()
    {
      hide Wf, Kernel.Valid, Kernel.Shape, WakeAll, Resched;
      k.ValidFacts();
      k.NamesKnown(taskList, null);
      k.ValidShape();
      var empty := k.ListEmpty(taskList);
      if !empty {
        WakeAllEffect(k.view, taskList.container);
        FirstKnown(k.view, taskList.container);
        ghost var t := k.view.lists[taskList.container][0];
        k.WakeAllTasks(taskList);
        k.ValidFacts();
        InRunning(k.view, t);
        k.CondReschedule();
      }
    }
  }

  // The unlock of cond_wait does not switch tasks, and leaves the idle task running.
  lemma UnlockStays(v: View, l: Lid)
    requires Wf(v) && l in v.lists && l != RUNNING && v.current in v.home && v.home[v.current] == Some(RUNNING)
    ensures var r := UnlockRegion(v, l, false).v;
      r.current == v.current
        && forall t :: t in v.home && v.home[t] == Some(RUNNING) ==> t in r.home && r.home[t] == Some(RUNNING)
  {
    hide Wf, Wake, SetPrio;
    FieldsKnown(v);
  }
}
