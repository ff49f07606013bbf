// src/mq.c: message queues.  A message is linked into the queue by a header at its start, so
// nothing is copied and there is no limit.

module MqObjects {
  import opened Seqs
  import opened Lists
  import opened Sched
  import opened Time
  import opened TokenSpec
  import opened Kernels
  import F = Fifos

  // The list of messages; a message is identified with the list node in its header.
  class MessageList {
    const head: Node
    const links: Links
    ghost var queue: seq<Node>

    ghost predicate Valid()
      reads this, links, links.repr
    {
      links.Valid() && this !in links.repr && head in links.m.rings && links.m.rings[head] == [head] + queue
    }

    // A message that is in no queue.
    ghost predicate Loose(msg: Node)
      reads links
    {
      msg in links.m.rings && links.m.rings[msg] == [msg] && msg != head
    }

    // GYROS__LIST_NODE_INIT of msg_list
    constructor ()
      ensures Valid() && queue == [] && fresh(links) && fresh(links.repr)
    {
      var h := new Node(Head, 0);
      var l := new Links();
      head, links, queue := h, l, [];
      new;
      l.Init(h);
    }

    // A message comes into being; the source gives its header no value until it is sent.
    method Adopt(msg: Node)
      requires Valid() && msg !in links.repr
      modifies links, msg
      ensures Valid() && queue == old(queue) && Loose(msg) && links.repr == old(links.repr) + {msg}
    {
      hide Partition;
      assert msg !in links.m.ringOf && head in links.m.ringOf by { HeadOnRing(); }
      links.Init(msg);
    }

    lemma HeadOnRing()
      requires Valid()
      ensures head in links.m.ringOf
    {
      assert links.m.rings[head][0] in links.m.ringOf;
    }

    // gyros__list_insert_before on the head of the list.
    method Append(msg: Node)
      requires Valid() && Loose(msg)
      modifies this`queue, links.repr
      ensures Valid() && queue == old(queue) + [msg] && links.repr == old(links.repr)
    {
      hide Partition, Links.Valid;
      links.InsertBefore(msg, head, head, 0);
      queue := queue + [msg];
    }

    // gyros__list_empty
    method Empty() returns (empty: bool)
      requires Valid()
      ensures empty <==> queue == []
    {
      hide Partition, Links.Valid;
      empty := links.Empty(head);
    }

    // The first message, taken off the list.
    method RemoveFirst() returns (msg: Node)
      requires Valid() && queue != []
      modifies this`queue, links.repr
      ensures msg == old(queue)[0] && queue == old(queue)[1..] && Loose(msg)
      ensures Valid() && links.repr == old(links.repr)
    {
      hide Partition, Links.Valid;
      FirstNotHead();
      msg := links.Next(head, head, 0);
      links.Remove(msg, head, 1);
      queue := queue[1..];
    }

    lemma FirstNotHead()
      requires Valid() && queue != []
      ensures queue[0] != head
    {
      assert Ring(links.m.next, links.m.prev, links.m.rings[head]);
      assert links.m.rings[head][0] != links.m.rings[head][1];
    }
  }

  class Mq {
    const k: Kernel
    const taskList: Node
    const messages: MessageList

    ghost predicate Valid()
      reads this, k, k.links, k.Repr, messages, messages.links, messages.links.repr
    {
      && k.Valid() && k.IsList(taskList) && taskList.container != RUNNING
      && messages.Valid() && messages !in k.Repr && k.Repr !! messages.links.repr && k !in messages.links.repr
      && messages.links in messages.links.repr
    }

    // gyros_mq_init, over a list head that the kernel knows.
    constructor (k: Kernel, taskList: Node, messages: MessageList)
      requires k.Valid() && k.Owned() && k.IsList(taskList) && taskList.container != RUNNING
      requires messages.Valid() && messages.queue == [] && messages !in k.Repr && k.Repr !! messages.links.repr
      ensures Valid() && this.k == k && this.taskList == taskList && this.messages == messages
    {
      hide Kernel.Valid;
      this.k, this.taskList, this.messages := k, taskList, messages;
    }

    // gyros_mq_send
    method Send(msg: Node)
      requires Valid() && messages.Loose(msg)
      modifies messages, messages.links.repr, k`view, k`current, k.links.repr, k.taskSet
      ensures messages.queue == F.Step(old(messages.queue), None, F.SendOp(msg))
      ensures Wf(old(k.view)) && taskList.container in old(k.view).lists
      ensures TokenSpec.Region(k.view, |messages.queue|, Taken)
        == PutRegion(old(k.view), taskList.container, |old(messages.queue)|, None)
      ensures Valid()
    {
      hide Wf, Kernel.Valid, Kernel.Shape, MessageList.Valid, Wake, Resched;
      k.ValidFacts();
      k.ValidShape();
      messages.Append(msg);
      var empty := k.ListEmpty(taskList);
      if !empty {
        k.WakeFirst(taskList, true);
      }
    }

    // gyros_mq_receive, one pass of its loop; null means that the task blocked, or, in an
    // interrupt, that there is no message.
    method ReceiveOnce(inInterrupt: bool) returns (msg: Node?)
      requires Valid()
      requires !inInterrupt ==> k.view.current != IDLE && IDLE in k.view.home && k.view.home[IDLE] == Some(RUNNING)
      modifies messages, messages.links.repr, k`view, k`current, k.links.repr, k.taskSet
      ensures messages.queue == F.Step(old(messages.queue), None, F.ReceiveOp)
      ensures if old(messages.queue) == [] then msg == null else msg == old(messages.queue)[0] && messages.Loose(msg)
      ensures Wf(old(k.view)) && taskList.container in old(k.view).lists && old(k.view).current in old(k.view).home
      ensures TokenSpec.Region(k.view, |messages.queue|,
        if msg != null then Taken else if inInterrupt then Failed else Blocked)
        == if inInterrupt then TryRegion(old(k.view), |old(messages.queue)|)
           else WaitRegion(old(k.view), taskList.container, |old(messages.queue)|)
      ensures Valid()
    {
      hide Wf, Kernel.Valid, Kernel.Shape, MessageList.Valid, Move, Resched;
      k.ValidFacts();
      k.NamesKnown(taskList, null);
      var empty := messages.Empty();
      if empty {
        if inInterrupt {
          return null;
        }
        k.BlockCurrent(taskList);
        return null;
      }
      msg := messages.RemoveFirst();
    }

    // gyros_mq_receive_until up to the reschedule, for the unwrapped deadline d and clock c
    method ReceiveUntil(timeout: AbsTime, now: AbsTime, ghost d: int, ghost c: int) returns (msg: Node?)
      requires Valid() && k.view.current != IDLE && IDLE in k.view.home && k.view.home[IDLE] == Some(RUNNING)
      requires k.view.current !in k.view.timeouts
      requires timeout == Wrap(d) && now == Wrap(c) && -HALF <= d - c < HALF && k.Near(d)
      modifies messages, messages.links.repr, k`view, k`current, k.links.repr, k.taskSet
      ensures messages.queue == F.Step(old(messages.queue), None, F.ReceiveOp)
      ensures if old(messages.queue) == [] then msg == null else msg == old(messages.queue)[0] && messages.Loose(msg)
      ensures Wf(old(k.view)) && taskList.container in old(k.view).lists && old(k.view).current in old(k.view).home
      ensures TokenSpec.Region(k.view, |messages.queue|,
        if msg != null then Taken else if d <= c then Failed else Blocked)
        == WaitUntilRegion(old(k.view), taskList.container, |old(messages.queue)|, d, c)
      ensures Valid()
    {
      hide Wf, Kernel.Valid, Kernel.Shape, Kernel.Near, MessageList.Valid, Arm, Move, Resched, Wrap;
      k.ValidFacts();
      k.NamesKnown(taskList, null);
      var empty := messages.Empty();
      if empty {
        var pending := k.TaskSetTimeout(timeout, now, d, c);
        if pending {
          k.ValidFacts();
          k.BlockCurrent(taskList);
        }
        return null;
      }
      msg := messages.RemoveFirst();
    }

    // gyros_mq_receive_until after the reschedule
    method ReceiveResumed() returns (msg: Node?)
      requires Valid()
      modifies messages, messages.links.repr
      ensures messages.queue == F.Step(old(messages.queue), None, F.ReceiveOp)
      ensures if old(messages.queue) == [] then msg == null else msg == old(messages.queue)[0] && messages.Loose(msg)
      ensures TokenSpec.Region(k.view, |messages.queue|, if msg != null then Taken else Failed)
        == TryRegion(old(k.view), |old(messages.queue)|)
      ensures Valid()
    {
      hide Wf, Kernel.Valid, Kernel.Shape, MessageList.Valid;
      k.ValidFacts();
      var empty := messages.Empty();
      if empty {
        return null;
      }
      msg := messages.RemoveFirst();
    }
  }
}
