// src/task.c, src/timeout.c, src/priority.c, src/yield.c on the linked structure.
//
// Each method is one function of the source.  Its contract says that the linked
// structure afterwards is the image of a function of Sched.dfy.

module Kernels {
  import opened Seqs
  import opened Lists
  import opened Sched
  import opened Time

  class Task {
    const id: Tid
    const mainNode: Node
    const timeoutNode: Node
    var mainList: Node?
    var timeout: AbsTime
    var timedOut: bool
    var basePriority: nat
    var priority: nat

    constructor (id: Tid, priority: nat)
      ensures this.id == id && this.priority == this.basePriority == priority
      ensures fresh(mainNode) && mainNode.kind == MainLink && mainNode.container == id
      ensures fresh(timeoutNode) && timeoutNode.kind == TimeoutLink && timeoutNode.container == id
      ensures mainList == null && !timedOut && timeout == 0
    {
      this.id := id;
      this.priority, basePriority := priority, priority;
      mainNode := new Node(MainLink, id);
      timeoutNode := new Node(TimeoutLink, id);
      mainList, timeout, timedOut := null, 0, false;
    }

    // The fields have these values; the deadline is unwrapped.
    ghost predicate Tied(prio: nat, base: nat, deadline: int, expired: bool)
      reads this`priority, this`basePriority, this`timeout, this`timedOut
    {
      priority == prio && basePriority == base && timeout == Wrap(deadline) && timedOut == expired
    }

    method SetPriority(p: nat, ghost prio: nat, ghost base: nat, ghost deadline: int, ghost expired: bool)
      requires Tied(prio, base, deadline, expired)
      modifies this`priority
      ensures Tied(p, base, deadline, expired)
    {
      priority := p;
    }

    method SetBasePriority(p: nat, ghost prio: nat, ghost base: nat, ghost deadline: int, ghost expired: bool)
      requires Tied(prio, base, deadline, expired)
      modifies this`basePriority
      ensures Tied(prio, p, deadline, expired)
    {
      basePriority := p;
    }

    method SetTimeout(w: AbsTime, ghost prio: nat, ghost base: nat, ghost deadline: int, ghost expired: bool,
        ghost d: int)
      requires Tied(prio, base, deadline, expired) && w == Wrap(d)
      modifies this`timeout, this`timedOut
      ensures Tied(prio, base, d, false)
    {
      timeout := w;
      timedOut := false;
    }

    method SetTimedOut(ghost prio: nat, ghost base: nat, ghost deadline: int, ghost expired: bool)
      requires Tied(prio, base, deadline, expired)
      modifies this`timedOut
      ensures Tied(prio, base, deadline, true)
    {
      timedOut := true;
    }
  }

  ghost predicate Known<T>(tasks: map<Tid, T>, s: seq<Tid>) {
    forall i {:trigger s[i] in tasks} :: 0 <= i < |s| ==> s[i] in tasks
  }

  ghost function MainNodes(tasks: map<Tid, Task>, s: seq<Tid>): (r: seq<Node>)
    requires Known(tasks, s)
    ensures |r| == |s| && forall i :: 0 <= i < |s| ==> s[i] in tasks && r[i] == tasks[s[i]].mainNode
  {
    seq(|s|, i requires 0 <= i < |s| && s[i] in tasks => tasks[s[i]].mainNode)
  }

  ghost function TimeoutNodes(tasks: map<Tid, Task>, s: seq<Tid>): (r: seq<Node>)
    requires Known(tasks, s)
    ensures |r| == |s| && forall i :: 0 <= i < |s| ==> s[i] in tasks && r[i] == tasks[s[i]].timeoutNode
  {
    seq(|s|, i requires 0 <= i < |s| && s[i] in tasks => tasks[s[i]].timeoutNode)
  }

  // Every node says what it is embedded in, so that no two of them are the same.
  ghost predicate Embedded(tasks: map<Tid, Task>, heads: map<Lid, Node>, timeouts: Node) {
    && (forall t :: t in tasks ==>
          && tasks[t].id == t
          && tasks[t].mainNode.kind == MainLink && tasks[t].mainNode.container == t
          && tasks[t].timeoutNode.kind == TimeoutLink && tasks[t].timeoutNode.container == t)
    && (forall l :: l in heads ==> heads[l].kind == Head && heads[l].container == l)
    && timeouts.kind == TimeoutHead
  }

  // The rings of main-list nodes: one per list head, one per task that is on no list.
  ghost predicate MainLinked(rings: map<Node, seq<Node>>, tasks: map<Tid, Task>, heads: map<Lid, Node>, v: View) {
    && (forall l :: l in v.lists ==>
          && l in heads && heads[l] in rings
          && Known(tasks, v.lists[l])
          && rings[heads[l]] == [heads[l]] + MainNodes(tasks, v.lists[l]))
    && (forall t :: t in tasks && t in v.home && v.home[t].None? ==>
          tasks[t].mainNode in rings && rings[tasks[t].mainNode] == [tasks[t].mainNode])
  }

  // The rings of timeout nodes: the timeout list, and one per task that is not on it.
  ghost predicate TimeLinked(rings: map<Node, seq<Node>>, tasks: map<Tid, Task>, timeouts: Node, v: View) {
    && timeouts in rings
    && Known(tasks, v.timeouts)
    && rings[timeouts] == [timeouts] + TimeoutNodes(tasks, v.timeouts)
    && (forall t :: t in tasks && t !in v.timeouts ==>
          tasks[t].timeoutNode in rings && rings[tasks[t].timeoutNode] == [tasks[t].timeoutNode])
  }

  lemma MainNodesWithout(tasks: map<Tid, Task>, h: Node, s: seq<Tid>, j: nat)
    requires Known(tasks, s) && j < |s|
    ensures Known(tasks, Without(s, j))
    ensures Without([h] + MainNodes(tasks, s), j + 1) == [h] + MainNodes(tasks, Without(s, j))
  {
    var r := Without(s, j);
    forall i | 0 <= i < |r| ensures r[i] in tasks {
      assert s[if i < j then i else i + 1] in tasks;
    }
  }

  lemma MainNodesInsert(tasks: map<Tid, Task>, h: Node, s: seq<Tid>, p: nat, t: Tid)
    requires Known(tasks, s) && p <= |s| && t in tasks
    ensures Known(tasks, InsertAt(s, p, t))
    ensures InsertAt([h] + MainNodes(tasks, s), p + 1, tasks[t].mainNode) == [h] + MainNodes(tasks, InsertAt(s, p, t))
  {
    var r := InsertAt(s, p, t);
    forall i | 0 <= i < |r| ensures r[i] in tasks {
      assert i != p ==> s[if i < p then i else i - 1] in tasks;
    }
  }

  // Rings named by main nodes and list heads do not matter to the timeout list.
  lemma TimeFrame(rings: map<Node, seq<Node>>, rings': map<Node, seq<Node>>, tasks: map<Tid, Task>,
      heads: map<Lid, Node>, timeouts: Node, v: View, v': View)
    requires Embedded(tasks, heads, timeouts) && TimeLinked(rings, tasks, timeouts, v)
    requires v'.timeouts == v.timeouts
    requires forall n :: n in rings && n.kind != Head && n.kind != MainLink ==> n in rings' && rings'[n] == rings[n]
    ensures TimeLinked(rings', tasks, timeouts, v')
  {
  }

  // List l becomes s', and task t goes on or off its list.
  lemma MainUpdate(rings: map<Node, seq<Node>>, rings': map<Node, seq<Node>>, tasks: map<Tid, Task>,
      heads: map<Lid, Node>, timeouts: Node, v: View, v': View, l: Lid, t: Tid)
    requires Embedded(tasks, heads, timeouts) && MainLinked(rings, tasks, heads, v)
    requires l in v.lists && t in tasks && l in v'.lists
    requires v'.lists == v.lists[l := v'.lists[l]]
    requires forall x :: x in tasks && x != t && x in v'.home ==> x in v.home && v.home[x] == v'.home[x]
    requires forall n :: n in rings && n != heads[l] && n != tasks[t].mainNode ==> n in rings' && rings'[n] == rings[n]
    requires heads[l] in rings' && Known(tasks, v'.lists[l])
      && rings'[heads[l]] == [heads[l]] + MainNodes(tasks, v'.lists[l])
    requires t in v'.home && v'.home[t].None? ==>
      tasks[t].mainNode in rings' && rings'[tasks[t].mainNode] == [tasks[t].mainNode]
    ensures MainLinked(rings', tasks, heads, v')
  {
  }

  lemma WithoutLinked(rings: map<Node, seq<Node>>, tasks: map<Tid, Task>, heads: map<Lid, Node>, timeouts: Node,
                      v: View, v': View, t: Tid, l: Lid, i: nat)
    requires Embedded(tasks, heads, timeouts)
    requires MainLinked(rings, tasks, heads, v) && TimeLinked(rings, tasks, timeouts, v)
    requires t in tasks && l in v.lists && i < |v.lists[l]| && v.lists[l][i] == t
    requires v' == v.(lists := v.lists[l := Without(v.lists[l], i)], home := v.home[t := None])
    ensures var h := heads[l];
      && i + 1 < |rings[h]| && rings[h][i + 1] == tasks[t].mainNode
      && var rings' := rings[h := Without(rings[h], i + 1)][tasks[t].mainNode := [tasks[t].mainNode]];
         MainLinked(rings', tasks, heads, v') && TimeLinked(rings', tasks, timeouts, v')
  {
    var h, n := heads[l], tasks[t].mainNode;
    var rings' := rings[h := Without(rings[h], i + 1)][n := [n]];
    MainNodesWithout(tasks, h, v.lists[l], i);
    MainUpdate(rings, rings', tasks, heads, timeouts, v, v', l, t);
    TimeFrame(rings, rings', tasks, heads, timeouts, v, v');
  }

  // Where the main node of a task is, and what is left when it is removed.
  lemma DetachLinked(rings: map<Node, seq<Node>>, tasks: map<Tid, Task>, heads: map<Lid, Node>, timeouts: Node,
                     v: View, t: Tid) returns (k: Node, i: nat)
    requires Wf(v) && Embedded(tasks, heads, timeouts)
    requires MainLinked(rings, tasks, heads, v) && TimeLinked(rings, tasks, timeouts, v)
    requires t in tasks && t in v.home
    ensures At(rings, k, i, tasks[t].mainNode)
    ensures MainLinked(RingsRemove(rings, k, i), tasks, heads, Detach(v, t))
    ensures TimeLinked(RingsRemove(rings, k, i), tasks, timeouts, Detach(v, t))
  {
    if v.home[t].None? {
      k, i := tasks[t].mainNode, 0;
    } else {
      var l := v.home[t].value;
      assert l in v.lists && t in v.lists[l];
      k, i := heads[l], IndexOf(v.lists[l], t) + 1;
      WithoutLinked(rings, tasks, heads, timeouts, v, Detach(v, t), t, l, i - 1);
    }
  }

  // The ring of list l, node by node.
  lemma MainRing(rings: map<Node, seq<Node>>, tasks: map<Tid, Task>, heads: map<Lid, Node>, timeouts: Node, v: View,
      l: Lid)
      returns (ring: seq<Node>)
    requires Wf(v) && Embedded(tasks, heads, timeouts) && MainLinked(rings, tasks, heads, v) && l in v.lists
    ensures l in heads && heads[l] in rings && ring == rings[heads[l]] && |ring| == |v.lists[l]| + 1
      && ring[0] == heads[l]
    ensures Known(v.prio, v.lists[l])
    ensures forall j {:trigger ring[j + 1]} {:trigger v.lists[l][j] in tasks} :: 0 <= j < |v.lists[l]| ==>
      v.lists[l][j] in tasks && tasks[v.lists[l][j]].id == v.lists[l][j] && ring[j + 1] == tasks[v.lists[l][j]].mainNode
      && ring[j + 1].container == v.lists[l][j] && ring[j + 1] != heads[l]
  {
    ring := rings[heads[l]];
    forall j | 0 <= j < |v.lists[l]| ensures v.lists[l][j] in v.prio {
      assert v.lists[l][j] in v.lists[l];
    }
  }

  // Task t put at position p of list l.
  ghost function Placement(v: View, t: Tid, l: Lid, p: nat): (r: View)
    requires l in v.lists && p <= |v.lists[l]|
    ensures SameFields(v, r) && r.home == v.home[t := Some(l)] && r.lists.Keys == v.lists.Keys
  {
    v.(lists := v.lists[l := InsertAt(v.lists[l], p, t)], home := v.home[t := Some(l)])
  }

  // The splice that puts a task at position p of list l.
  lemma PlacementLinked(rings: map<Node, seq<Node>>, tasks: map<Tid, Task>, heads: map<Lid, Node>, timeouts: Node,
                        v: View, t: Tid, l: Lid, p: nat)
    requires Embedded(tasks, heads, timeouts)
    requires MainLinked(rings, tasks, heads, v) && TimeLinked(rings, tasks, timeouts, v)
    requires t in tasks && t in v.home && v.home[t].None? && l in v.lists && p <= |v.lists[l]|
    ensures l in heads && heads[l] in rings && |rings[heads[l]]| == |v.lists[l]| + 1
    ensures tasks[t].mainNode in rings && rings[tasks[t].mainNode] == [tasks[t].mainNode]
      && tasks[t].mainNode != heads[l]
    ensures var rings' := RingsInsert(rings, tasks[t].mainNode, heads[l], if p == |v.lists[l]| then 0 else p + 1);
      MainLinked(rings', tasks, heads, Placement(v, t, l, p))
        && TimeLinked(rings', tasks, timeouts, Placement(v, t, l, p))
  {
    var v' := Placement(v, t, l, p);
    var rings' := RingsInsert(rings, tasks[t].mainNode, heads[l], if p == |v.lists[l]| then 0 else p + 1);
    MainNodesInsert(tasks, heads[l], v.lists[l], p, t);
    MainUpdate(rings, rings', tasks, heads, timeouts, v, v', l, t);
    TimeFrame(rings, rings', tasks, heads, timeouts, v, v');
  }

  // Rings named by timeout nodes do not matter to the task lists.
  lemma MainFrame(rings: map<Node, seq<Node>>, rings': map<Node, seq<Node>>, tasks: map<Tid, Task>,
      heads: map<Lid, Node>, timeouts: Node, v: View, v': View)
    requires Embedded(tasks, heads, timeouts) && MainLinked(rings, tasks, heads, v)
    requires v'.lists == v.lists && v'.home == v.home
    requires forall n :: n in rings && n.kind != TimeoutHead && n.kind != TimeoutLink ==>
      n in rings' && rings'[n] == rings[n]
    ensures MainLinked(rings', tasks, heads, v')
  {
  }

  // The timeout list changes by task t alone.
  lemma TimeUpdate(rings: map<Node, seq<Node>>, rings': map<Node, seq<Node>>, tasks: map<Tid, Task>,
      heads: map<Lid, Node>, timeouts: Node, v: View, v': View, t: Tid)
    requires Embedded(tasks, heads, timeouts) && TimeLinked(rings, tasks, timeouts, v)
    requires t in tasks && Known(tasks, v'.timeouts)
    requires forall x :: x != t ==> (x in v'.timeouts <==> x in v.timeouts)
    requires forall n :: n in rings && n != timeouts && n != tasks[t].timeoutNode ==>
      n in rings' && rings'[n] == rings[n]
    requires timeouts in rings' && rings'[timeouts] == [timeouts] + TimeoutNodes(tasks, v'.timeouts)
    requires t !in v'.timeouts ==>
      tasks[t].timeoutNode in rings' && rings'[tasks[t].timeoutNode] == [tasks[t].timeoutNode]
    ensures TimeLinked(rings', tasks, timeouts, v')
  {
  }

  lemma TimeoutNodesWithout(tasks: map<Tid, Task>, h: Node, s: seq<Tid>, j: nat)
    requires Known(tasks, s) && j < |s|
    ensures Known(tasks, Without(s, j))
    ensures Without([h] + TimeoutNodes(tasks, s), j + 1) == [h] + TimeoutNodes(tasks, Without(s, j))
  {
    var r := Without(s, j);
    forall i | 0 <= i < |r| ensures r[i] in tasks {
      assert s[if i < j then i else i + 1] in tasks;
    }
  }

  lemma TimeoutNodesInsert(tasks: map<Tid, Task>, h: Node, s: seq<Tid>, p: nat, t: Tid)
    requires Known(tasks, s) && p <= |s| && t in tasks
    ensures Known(tasks, InsertAt(s, p, t))
    ensures InsertAt([h] + TimeoutNodes(tasks, s), p + 1, tasks[t].timeoutNode)
      == [h] + TimeoutNodes(tasks, InsertAt(s, p, t))
  {
    var r := InsertAt(s, p, t);
    forall i | 0 <= i < |r| ensures r[i] in tasks {
      assert i != p ==> s[if i < p then i else i - 1] in tasks;
    }
  }

  lemma UntimedLinked(rings: map<Node, seq<Node>>, tasks: map<Tid, Task>, heads: map<Lid, Node>, timeouts: Node,
                      v: View, v': View, t: Tid, j: nat)
    requires Embedded(tasks, heads, timeouts)
    requires MainLinked(rings, tasks, heads, v) && TimeLinked(rings, tasks, timeouts, v)
    requires t in tasks && j < |v.timeouts| && v.timeouts[j] == t && Distinct(v.timeouts)
    requires v' == v.(timeouts := Without(v.timeouts, j))
    ensures At(rings, timeouts, j + 1, tasks[t].timeoutNode)
    ensures MainLinked(RingsRemove(rings, timeouts, j + 1), tasks, heads, v')
    ensures TimeLinked(RingsRemove(rings, timeouts, j + 1), tasks, timeouts, v')
  {
    TimeoutNodesWithout(tasks, timeouts, v.timeouts, j);
    WithoutMembers(v.timeouts, j);
    var rings' := RingsRemove(rings, timeouts, j + 1);
    TimeUpdate(rings, rings', tasks, heads, timeouts, v, v', t);
    MainFrame(rings, rings', tasks, heads, timeouts, v, v');
  }

  // Where the timeout node of a task is, and what is left when it is removed.
  lemma UntimeLinked(rings: map<Node, seq<Node>>, tasks: map<Tid, Task>, heads: map<Lid, Node>, timeouts: Node,
                     v: View, t: Tid) returns (k: Node, i: nat)
    requires Wf(v) && Embedded(tasks, heads, timeouts)
    requires MainLinked(rings, tasks, heads, v) && TimeLinked(rings, tasks, timeouts, v)
    requires t in tasks
    ensures At(rings, k, i, tasks[t].timeoutNode)
    ensures MainLinked(RingsRemove(rings, k, i), tasks, heads, Untime(v, t))
    ensures TimeLinked(RingsRemove(rings, k, i), tasks, timeouts, Untime(v, t))
  {
    if t !in v.timeouts {
      k, i := tasks[t].timeoutNode, 0;
    } else {
      k, i := timeouts, IndexOf(v.timeouts, t) + 1;
      UntimedLinked(rings, tasks, heads, timeouts, v, Untime(v, t), t, i - 1);
    }
  }

  // Linking task t at position p of the timeout list.
  lemma ArmLinked(rings: map<Node, seq<Node>>, tasks: map<Tid, Task>, heads: map<Lid, Node>, timeouts: Node,
                  v: View, v': View, t: Tid, p: nat)
    requires Embedded(tasks, heads, timeouts)
    requires MainLinked(rings, tasks, heads, v) && TimeLinked(rings, tasks, timeouts, v)
    requires t in tasks && t !in v.timeouts && p <= |v.timeouts|
    requires v'.timeouts == InsertAt(v.timeouts, p, t) && v'.lists == v.lists && v'.home == v.home
    ensures tasks[t].timeoutNode in rings && rings[tasks[t].timeoutNode] == [tasks[t].timeoutNode]
      && tasks[t].timeoutNode != timeouts
    ensures var i := if p == |v.timeouts| then 0 else p + 1;
      && i < |rings[timeouts]|
      && var rings' := RingsInsert(rings, tasks[t].timeoutNode, timeouts, i);
         MainLinked(rings', tasks, heads, v') && TimeLinked(rings', tasks, timeouts, v')
  {
    hide InsertAt, Wf, MainLinked;
    var s := v.timeouts;
    var i := if p == |s| then 0 else p + 1;
    var rings' := RingsInsert(rings, tasks[t].timeoutNode, timeouts, i);
    TimeoutNodesInsert(tasks, timeouts, s, p, t);
    InsertMembers(s, p, t);
    assert rings'[timeouts] == InsertAt(rings[timeouts], p + 1, tasks[t].timeoutNode);
    TimeUpdate(rings, rings', tasks, heads, timeouts, v, v', t);
    MainFrame(rings, rings', tasks, heads, timeouts, v, v');
  }

  // The timeout ring, node by node.
  lemma TimeRing(rings: map<Node, seq<Node>>, tasks: map<Tid, Task>, heads: map<Lid, Node>, timeouts: Node, v: View)
      returns (ring: seq<Node>)
    requires Wf(v) && Embedded(tasks, heads, timeouts) && TimeLinked(rings, tasks, timeouts, v)
    ensures timeouts in rings && ring == rings[timeouts] && |ring| == |v.timeouts| + 1 && ring[0] == timeouts
    ensures Known(v.deadline, v.timeouts)
    ensures forall j {:trigger ring[j + 1]} {:trigger v.timeouts[j] in tasks} :: 0 <= j < |v.timeouts| ==>
      v.timeouts[j] in tasks && tasks[v.timeouts[j]].id == v.timeouts[j]
        && ring[j + 1] == tasks[v.timeouts[j]].timeoutNode
      && ring[j + 1].container == v.timeouts[j] && ring[j + 1] != timeouts
  {
    ring := rings[timeouts];
  }

  // The list head that main_list should be.
  ghost function HeadOf(heads: map<Lid, Node>, home: Option<Lid>): Node? {
    match home
    case None => null
    case Some(l) => if l in heads then heads[l] else null
  }

  ghost predicate BootRings(rings: map<Node, seq<Node>>, idle: Task, running: Node, timeouts: Node) {
    && running in rings && rings[running] == [running]
    && timeouts in rings && rings[timeouts] == [timeouts]
    && idle.mainNode in rings && rings[idle.mainNode] == [idle.mainNode]
    && idle.timeoutNode in rings && rings[idle.timeoutNode] == [idle.timeoutNode]
  }

  lemma BootLinked(rings: map<Node, seq<Node>>, idle: Task, running: Node, timeouts: Node)
    requires BootRings(rings, idle, running, timeouts)
    requires idle.id == IDLE && idle.mainNode.kind == MainLink && idle.timeoutNode.kind == TimeoutLink
    requires idle.mainNode.container == IDLE && idle.timeoutNode.container == IDLE
    requires running.kind == Head && running.container == RUNNING && timeouts.kind == TimeoutHead
    ensures Embedded(map[IDLE := idle], map[RUNNING := running], timeouts)
    ensures MainLinked(rings, map[IDLE := idle], map[RUNNING := running], Boot())
    ensures TimeLinked(rings, map[IDLE := idle], timeouts, Boot())
  {
    assert MainNodes(map[IDLE := idle], []) == [];
    assert TimeoutNodes(map[IDLE := idle], []) == [];
  }

  // The static initialisers of the two lists, and the nodes of the idle task.
  method LinkBoot(links: Links, idle: Task, running: Node, timeouts: Node)
    requires links.Valid() && links.m == Space(map[], map[], map[], map[])
    requires idle.mainNode.kind == MainLink && idle.timeoutNode.kind == TimeoutLink
    requires running.kind == Head && timeouts.kind == TimeoutHead
    modifies links, links.repr, running, timeouts, idle.mainNode, idle.timeoutNode
    ensures links.Valid() && BootRings(links.m.rings, idle, running, timeouts)
    ensures links.repr == old(links.repr) + {running, timeouts, idle.mainNode, idle.timeoutNode}
  {
    hide Partition, Links.Valid;
    links.Init(running);
    links.Init(timeouts);
    links.Init(idle.mainNode);
    links.Init(idle.timeoutNode);
  }

  lemma NoHead(heads: map<Lid, Node>)
    ensures HeadOf(heads, None) == null
  {
  }

  lemma TiedNow(t: Task, d: int)
    requires t.basePriority == t.priority && t.timeout == Wrap(d)
    ensures t.Tied(t.priority, t.priority, d, t.timedOut)
  {
  }

  lemma HeadsMore(heads: map<Lid, Node>, list: Node)
    requires list.container !in heads
    ensures forall h: Option<Lid> {:trigger HeadOf(heads, h)} :: (h.Some? ==> h.value in heads) ==>
      HeadOf(heads[list.container := list], h) == HeadOf(heads, h)
  {
  }

  // A new list head is on a ring of its own.
  lemma NewListLinked(rings: map<Node, seq<Node>>, tasks: map<Tid, Task>, heads: map<Lid, Node>, timeouts: Node,
      v: View, h: Node)
    requires Embedded(tasks, heads, timeouts) && MainLinked(rings, tasks, heads, v)
      && TimeLinked(rings, tasks, timeouts, v)
    requires Wf(v) && heads.Keys == v.lists.Keys && h.kind == Head && h.container !in heads
    ensures Embedded(tasks, heads[h.container := h], timeouts)
    ensures MainLinked(rings[h := [h]], tasks, heads[h.container := h], NewList(v, h.container))
    ensures TimeLinked(rings[h := [h]], tasks, timeouts, NewList(v, h.container))
  {
    hide Wf;
    var v', rings' := v.(lists := v.lists[h.container := []]), rings[h := [h]];
    NewListIs(v, h.container);
    TimeFrame(rings, rings', tasks, heads, timeouts, v, v');
    NewListMain(rings, tasks, heads, timeouts, v, h);
  }

  lemma NewListMain(rings: map<Node, seq<Node>>, tasks: map<Tid, Task>, heads: map<Lid, Node>, timeouts: Node, v: View,
      h: Node)
    requires Embedded(tasks, heads, timeouts) && MainLinked(rings, tasks, heads, v)
    requires heads.Keys == v.lists.Keys && h.kind == Head && h.container !in heads
    ensures MainLinked(rings[h := [h]], tasks, heads[h.container := h], v.(lists := v.lists[h.container := []]))
  {
    assert MainNodes(tasks, []) == [];
  }

  // The two nodes of a new task are on rings of their own.
  lemma AdoptLinked(rings: map<Node, seq<Node>>, tasks: map<Tid, Task>, heads: map<Lid, Node>, timeouts: Node, v: View,
      t: Task, r: View)
    requires Embedded(tasks, heads, timeouts) && MainLinked(rings, tasks, heads, v)
      && TimeLinked(rings, tasks, timeouts, v)
    requires t.id !in tasks && t.id !in v.timeouts
    requires t.mainNode.kind == MainLink && t.mainNode.container == t.id
    requires t.timeoutNode.kind == TimeoutLink && t.timeoutNode.container == t.id
    requires r.lists == v.lists && r.timeouts == v.timeouts && r.home == v.home[t.id := None]
    ensures Embedded(tasks[t.id := t], heads, timeouts)
    ensures var rings' := rings[t.mainNode := [t.mainNode]][t.timeoutNode := [t.timeoutNode]];
      MainLinked(rings', tasks[t.id := t], heads, r) && TimeLinked(rings', tasks[t.id := t], timeouts, r)
  {
    var tasks' := tasks[t.id := t];
    forall l | l in v.lists
      ensures Known(tasks', v.lists[l]) && MainNodes(tasks', v.lists[l]) == MainNodes(tasks, v.lists[l]) {
    }
    assert TimeoutNodes(tasks', v.timeouts) == TimeoutNodes(tasks, v.timeouts);
  }

  class Kernel {
    var current: Task
    var started: bool                  // in the source, _gyros.current is NULL before gyros_start
    const running: Node
    const timeouts: Node
    const links: Links
    var tasks: map<Tid, Task>          // TASK and TIMEOUT: from a node's container to the task
    ghost var heads: map<Lid, Node>    // every list head there is
    ghost var view: View
    ghost var taskSet: set<object>     // the tasks
    ghost var Repr: set<object>

    ghost predicate Owned()
      reads this`Repr, this`taskSet, this`tasks, this`heads, links`repr
    {
      && this in Repr && links in Repr && links.repr <= Repr && taskSet <= Repr
      && this !in links.repr && this !in taskSet && links !in taskSet && taskSet !! links.repr
      && (forall t {:trigger t in tasks} :: t in tasks ==> tasks[t].id == t && tasks[t] in taskSet)
      && (forall l {:trigger l in heads} :: l in heads ==> heads[l].container == l)
    }

    // The lists are the image of view.
    ghost predicate Shape()
      reads this, links, links.repr
    {
      && Owned()
      && links.Valid()
      && Embedded(tasks, heads, timeouts)
      && tasks.Keys == view.home.Keys
      && heads.Keys == view.lists.Keys
      && RUNNING in heads && heads[RUNNING] == running && running.container == RUNNING
      && Wf(view)
      && MainLinked(links.m.rings, tasks, heads, view)
      && TimeLinked(links.m.rings, tasks, timeouts, view)
      && current.id in tasks && tasks[current.id] == current && view.current == current.id
    }

    // The fields of the tasks are the image of view, with the given priorities.
    ghost predicate FieldsAt(prio: map<Tid, nat>)
      reads this, links`repr, taskSet
      requires Owned()
    {
      forall t {:trigger t in tasks} :: t in tasks ==>
        && t in prio && t in view.base && t in view.deadline && t in view.timedOut
        && tasks[t].Tied(prio[t], view.base[t], view.deadline[t], view.timedOut[t])
    }

    ghost predicate Fields()
      reads this, links`repr, taskSet
      requires Owned()
    {
      FieldsAt(view.prio)
    }

    ghost predicate Homes()
      reads this, links`repr, taskSet
      requires Owned()
    {
      forall t {:trigger t in tasks} :: t in tasks ==>
        t in view.home && tasks[t].mainList == HeadOf(heads, view.home[t])
    }

    // main_list is right for every task but t.
    ghost predicate HomesBut(x: Tid)
      reads this, links`repr, taskSet
      requires Owned()
    {
      forall t {:trigger t in tasks} :: t in tasks && t != x ==>
        t in view.home && tasks[t].mainList == HeadOf(heads, view.home[t])
    }

    ghost predicate Valid()
      reads this, links, Repr
    {
      Owned() && Shape() && Fields() && Homes()
    }

    ghost predicate IsTask(t: Task)
      reads this
    {
      t.id in tasks && tasks[t.id] == t
    }

    ghost predicate IsList(list: Node)
      reads this
    {
      list.container in heads && heads[list.container] == list
    }

    // The kernel before gyros_start, over links prepared by LinkBoot.
    constructor (links: Links, idle: Task, running: Node, timeouts: Node)
      requires links.Valid() && BootRings(links.m.rings, idle, running, timeouts)
      requires idle.id == IDLE && idle.mainNode.kind == MainLink && idle.timeoutNode.kind == TimeoutLink
      requires idle.mainNode.container == IDLE && idle.timeoutNode.container == IDLE
      requires running.kind == Head && running.container == RUNNING && timeouts.kind == TimeoutHead
      requires idle !in links.repr && links in links.repr
      requires idle.mainList == null && idle.priority == idle.basePriority == 0 && idle.timeout == 0 && !idle.timedOut
      ensures Valid() && !started && view == Boot() && Repr == {this, idle} + links.repr
    {
      hide Partition, Links.Valid, BootRings, Wf, Boot, Embedded, MainLinked, TimeLinked, HeadOf, Task.Tied;
      current, started := idle, false;
      this.running, this.timeouts, this.links := running, timeouts, links;
      tasks := map[IDLE := idle];
      heads := map[RUNNING := running];
      view := Boot();
      taskSet := {idle};
      Repr := {this, idle} + links.repr;
      new;
      BootLinked(links.m.rings, idle, running, timeouts);
      BootValid(idle);
    }

    static lemma BootTied(idle: Task, heads: map<Lid, Node>)
      requires idle.priority == idle.basePriority == 0 && idle.timeout == 0 && !idle.timedOut
      ensures idle.Tied(0, 0, 0, false) && HeadOf(heads, None) == null
    {
    }

    lemma BootValid(idle: Task)
      requires this !in links.repr && idle !in links.repr && links in links.repr && links.Valid()
      requires current == idle && tasks == map[IDLE := idle] && heads == map[RUNNING := running] && view == Boot()
      requires taskSet == {idle} && Repr == {this, idle} + links.repr
      requires idle.id == IDLE && running.container == RUNNING && Embedded(tasks, heads, timeouts)
      requires MainLinked(links.m.rings, tasks, heads, view) && TimeLinked(links.m.rings, tasks, timeouts, view)
      requires idle.mainList == null && idle.priority == idle.basePriority == 0 && idle.timeout == 0 && !idle.timedOut
      ensures Valid()
    {
      hide Partition, Links.Valid, Wf, Boot, Embedded, MainLinked, TimeLinked, HeadOf, Task.Tied;
      BootTied(idle, heads);
    }

    // gyros_start
    method StartKernel()
      requires Valid() && !started && view.current == IDLE && IDLE in view.home && view.home[IDLE].None?
      modifies this`view, this`current, this`started, links.repr, current`mainList
      ensures Wf(old(view)) && view == StartUp(old(view)) && started
      ensures Valid() && links.repr == old(links.repr)
    {
      hide Wf, MainLinked, TimeLinked, Embedded, Partition, HeadOf, Links.Valid, Task.Tied, Attach, Resched;
      AddTaskToList(current, running);
      started := true;
      InRunning(view, IDLE);
      Reschedule();
    }

    // GYROS__LIST_NODE_INIT on the list head of some object.
    method NewList(list: Node)
      requires Valid() && list !in links.repr && list !in taskSet && list.kind == Head && list.container !in heads
      modifies this`view, this`heads, this`Repr, links, list
      ensures Wf(old(view)) && list.container !in old(view).lists && view == Sched.NewList(old(view), list.container)
      ensures IsList(list) && heads == old(heads)[list.container := list] && Repr == old(Repr) + {list}
      ensures Valid() && links.repr == old(links.repr) + {list}
    {
      hide Wf, MainLinked, TimeLinked, Embedded, Partition, HeadOf, Links.Valid, Task.Tied;
      NodeNew(list);
      HomesKnown();
      NewListLinked(links.m.rings, tasks, heads, timeouts, view, list);
      NewListIs(view, list.container);
      HeadsMore(heads, list);
      LinkNode(list);
      AddHead(list, Sched.NewList(view, list.container));
    }

    // GYROS__LIST_NODE_INIT: the tasks do not notice.
    method LinkNode(n: Node)
      requires Owned() && Fields() && Homes() && links.Valid() && n !in links.m.ringOf && n !in taskSet
      modifies this`Repr, links, n
      ensures links.Valid() && links.m.rings == old(links.m.rings)[n := [n]]
        && links.m.ringOf.Keys == old(links.m.ringOf.Keys) + {n}
      ensures links.repr == old(links.repr) + {n} && Repr == old(Repr) + {n}
      ensures Owned() && Fields() && Homes()
    {
      hide Wf, Embedded, Partition, HeadOf, Links.Valid, Task.Tied;
      assert links !in taskSet && n !in taskSet && this !in links.repr;
      links.Init(n);
      Repr := Repr + {n};
      assert Owned();
    }

    ghost method AddHead(list: Node, v: View)
      requires Owned() && Fields() && Homes() && list.container !in heads && list !in taskSet
      requires links.Valid() && Embedded(tasks, heads[list.container := list], timeouts) && tasks.Keys == view.home.Keys
      requires heads.Keys + {list.container} == v.lists.Keys && v == view.(lists := v.lists) && Wf(v)
      requires RUNNING in heads && heads[RUNNING] == running && running.container == RUNNING
      requires MainLinked(links.m.rings, tasks, heads[list.container := list], v)
      requires TimeLinked(links.m.rings, tasks, timeouts, v)
      requires current.id in tasks && tasks[current.id] == current && view.current == current.id
      requires forall t {:trigger t in tasks} :: t in tasks ==>
        t in view.home && HeadOf(heads[list.container := list], view.home[t]) == HeadOf(heads, view.home[t])
      modifies this`view, this`heads
      ensures Valid() && view == v && heads == old(heads)[list.container := list]
    {
      hide Wf, MainLinked, TimeLinked, Embedded, Partition, HeadOf, Links.Valid, Task.Tied;
      view := v;
      heads := heads[list.container := list];
    }

    lemma HomesKnown()
      requires Valid()
      ensures forall t :: t in view.home && view.home[t].Some? ==> view.home[t].value in heads
    {
    }

    // Everything that Valid says except about the fields of the tasks.
    ghost predicate Linked(tasks': map<Tid, Task>, heads': map<Lid, Node>, v: View)
      reads this`current, links, links.repr
    {
      && links.Valid()
      && Embedded(tasks', heads', timeouts)
      && tasks'.Keys == v.home.Keys && heads'.Keys == v.lists.Keys && Wf(v)
      && RUNNING in heads' && heads'[RUNNING] == running && running.container == RUNNING
      && MainLinked(links.m.rings, tasks', heads', v) && TimeLinked(links.m.rings, tasks', timeouts, v)
      && current.id in tasks' && tasks'[current.id] == current && v.current == current.id
    }

    ghost method OwnTask(t: Task)
      requires Owned() && Fields() && Homes() && t !in links.repr
      modifies this`taskSet, this`Repr
      ensures Owned() && Fields() && Homes() && taskSet == old(taskSet) + {t} && Repr == old(Repr) + {t}
    {
      hide HeadOf, Links.Valid, Task.Tied;
      taskSet := taskSet + {t};
      Repr := Repr + {t};
    }

    // The view of a task from outside, before it is known.
    ghost method AdoptView(t: Task, d: int, v: View)
      requires Owned() && Fields() && Homes() && t.id !in tasks && t.id !in view.home
      requires Wf(view) && v == Sched.Adopt(view, t.id, t.priority, d, t.timedOut)
      modifies this`view
      ensures Owned() && Fields() && Homes() && view == v
    {
      hide Wf, Kernel.Owned, Kernel.Fields, Kernel.Homes, Sched.Adopt;
      AdoptSame(view, t.id, t.priority, d, t.timedOut);
      TasksHome();
      SwapView(v);
    }

    lemma TasksHome()
      requires Owned() && Fields() && Homes()
      ensures forall x {:trigger x in tasks} :: x in tasks ==>
        x in view.home && x in view.prio && x in view.base && x in view.deadline && x in view.timedOut
    {
      hide HeadOf, Task.Tied;
    }

    // Another view that says the same of all tasks that are known.
    ghost method SwapView(v: View)
      requires Owned() && Fields() && Homes()
      requires forall x {:trigger x in tasks} :: x in tasks ==> Agree(view, v, x)
      modifies this`view
      ensures Owned() && Fields() && Homes() && view == v
    {
      hide HeadOf, Links.Valid, Task.Tied;
      view := v;
      assert Owned();
      assert Fields();
    }

    // A task from outside becomes known, on no list.
    method Adopt(t: Task, ghost d: int)
      requires Owned() && Fields() && Homes() && t.id !in tasks && t in taskSet && t !in links.repr
        && t.mainList == null
      requires t.id in view.home && view.home[t.id] == None && t.id in view.prio && t.id in view.base
      requires t.id in view.deadline && t.id in view.timedOut
      requires t.Tied(view.prio[t.id], view.base[t.id], view.deadline[t.id], view.timedOut[t.id])
      requires Linked(tasks[t.id := t], heads, view)
      modifies this`tasks
      ensures tasks == old(tasks)[t.id := t] && Valid()
    {
      hide Wf, MainLinked, TimeLinked, Embedded, Partition, HeadOf, Links.Valid, Task.Tied;
      NoHead(heads);
      tasks := tasks[t.id := t];
    }

    // The two nodes of a task put on rings of their own.
    method LinkTask(t: Task)
      requires Owned() && Fields() && Homes() && links.Valid()
      requires t.mainNode !in links.m.ringOf && t.mainNode !in taskSet && t.timeoutNode !in links.m.ringOf
        && t.timeoutNode !in taskSet
      requires t.mainNode != t.timeoutNode
      modifies this`Repr, links, t.mainNode, t.timeoutNode
      ensures links.m.rings == old(links.m.rings)[t.mainNode := [t.mainNode]][t.timeoutNode := [t.timeoutNode]]
      ensures links.repr == old(links.repr) + {t.mainNode, t.timeoutNode}
      ensures Repr == old(Repr) + {t.mainNode, t.timeoutNode}
      ensures Owned() && Fields() && Homes() && links.Valid()
    {
      hide Kernel.Owned, Kernel.Fields, Kernel.Homes, Links.Valid, Partition;
      LinkNode(t.mainNode);
      LinkNode(t.timeoutNode);
    }

    // The part of gyros_task_create that makes the task known.
    method RegisterTask(t: Task, ghost d: int)
      requires Valid() && t.id !in tasks && t !in links.repr && {t.mainNode, t.timeoutNode} !! links.repr + taskSet
      requires t.mainNode.kind == MainLink && t.mainNode.container == t.id
      requires t.timeoutNode.kind == TimeoutLink && t.timeoutNode.container == t.id
      requires t.mainList == null && t.basePriority == t.priority && t.timeout == Wrap(d)
      modifies this`view, this`tasks, this`taskSet, this`Repr, links, t.mainNode, t.timeoutNode
      ensures Wf(old(view)) && t.id !in old(view).home
        && view == Sched.Adopt(old(view), t.id, t.priority, d, t.timedOut)
      ensures tasks == old(tasks)[t.id := t] && taskSet == old(taskSet) + {t}
      ensures links.repr == old(links.repr) + {t.mainNode, t.timeoutNode}
      ensures Valid() && Repr == old(Repr) + {t, t.mainNode, t.timeoutNode}
    {
      hide Wf, Kernel.Valid, Kernel.Shape, Kernel.Owned, Kernel.Fields, Kernel.Homes, Kernel.Linked, Task.Tied, Wrap,
        Sched.Adopt;
      ValidParts();
      NodeNew(t.mainNode);
      NodeNew(t.timeoutNode);
      TaskNew(t.id);
      TiedNow(t, d);
      ShapeLinked();
      ghost var v := Sched.Adopt(view, t.id, t.priority, d, t.timedOut);
      AdoptIs(view, t.id, t.priority, d, t.timedOut);
      LinkAdopted(t, v);
      KnowTask(t, d, v);
    }

    // The nodes of a new task, in the view that knows it.
    method LinkAdopted(t: Task, ghost v: View)
      requires Owned() && Fields() && Homes() && Linked(tasks, heads, view)
      requires t.id !in tasks && t.id !in view.home && t.id !in view.timeouts
      requires {t.mainNode, t.timeoutNode} !! taskSet
      requires t.mainNode !in links.m.ringOf && t.timeoutNode !in links.m.ringOf
      requires t.mainNode.kind == MainLink && t.mainNode.container == t.id
      requires t.timeoutNode.kind == TimeoutLink && t.timeoutNode.container == t.id
      requires Wf(v) && v.lists == view.lists && v.timeouts == view.timeouts && v.home == view.home[t.id := None]
      requires v.current == view.current
      modifies this`Repr, links, t.mainNode, t.timeoutNode
      ensures Owned() && Fields() && Homes() && Linked(tasks[t.id := t], heads, v)
      ensures links.repr == old(links.repr) + {t.mainNode, t.timeoutNode}
      ensures Repr == old(Repr) + {t.mainNode, t.timeoutNode}
    {
      hide Wf, Kernel.Owned, Kernel.Fields, Kernel.Homes, Links.Valid, Partition, MainLinked, TimeLinked, Embedded;
      AdoptLinked(links.m.rings, tasks, heads, timeouts, view, t, v);
      LinkTask(t);
    }

    // A task whose nodes are on rings of their own becomes known, on no list.
    method KnowTask(t: Task, ghost d: int, ghost v: View)
      requires Owned() && Fields() && Homes() && t.id !in tasks && t.id !in view.home && t !in links.repr
        && t.mainList == null
      requires Wf(view) && v == Sched.Adopt(view, t.id, t.priority, d, t.timedOut)
        && t.Tied(t.priority, t.priority, d, t.timedOut)
      requires Linked(tasks[t.id := t], heads, v)
      modifies this`view, this`tasks, this`taskSet, this`Repr
      ensures view == v && tasks == old(tasks)[t.id := t] && taskSet == old(taskSet) + {t}
      ensures Valid() && Repr == old(Repr) + {t}
    {
      hide Wf, Kernel.Valid, Kernel.Fields, Kernel.Homes, Kernel.Linked, Task.Tied, Sched.Adopt;
      AdoptIs(view, t.id, t.priority, d, t.timedOut);
      OwnTask(t);
      AdoptView(t, d, v);
      Adopt(t, d);
    }

    lemma ShapeLinked()
      requires Shape()
      ensures Owned() && Linked(tasks, heads, view)
    {
    }

    lemma TaskNew(t: Tid)
      requires Shape() && t !in tasks
      ensures t !in view.home && t !in view.timeouts
    {
    }

    // gyros_task_create: the task joins the running list at its priority.
    method TaskCreate(t: Task, priority: nat)
      requires Valid() && t.id !in tasks && t !in links.repr && {t.mainNode, t.timeoutNode} !! links.repr + taskSet
      requires t.mainNode.kind == MainLink && t.mainNode.container == t.id
      requires t.timeoutNode.kind == TimeoutLink && t.timeoutNode.container == t.id
      requires t.mainList == null && t !in taskSet && t !in Repr
      modifies this`view, this`current, this`tasks, this`taskSet, this`Repr
      modifies links, links.repr, t`mainList, t`priority, t`basePriority, t.mainNode, t.timeoutNode
      ensures Wf(old(view)) && t.id !in old(view).home
      ensures view == Create(old(view), t.id, priority, t.timeout, t.timedOut, started)
      ensures tasks == old(tasks)[t.id := t] && taskSet == old(taskSet) + {t}
      ensures links.repr == old(links.repr) + {t.mainNode, t.timeoutNode}
      ensures Valid() && Repr == old(Repr) + {t, t.mainNode, t.timeoutNode}
    {
      hide Wf, Kernel.Shape, HeadOf, Links.Valid, Task.Tied, Wrap, Sched.Adopt, Attach, Resched;
      TaskWrites(t, priority);
      RegisterTask(t, t.timeout);
      ValidFacts();
      JoinRunning(t);
    }

    // The stores to the fields of a task that is not known yet.
    method TaskWrites(t: Task, priority: nat)
      requires Valid() && t !in Repr
      modifies t`priority, t`basePriority
      ensures Valid() && t.priority == t.basePriority == priority && t.timeout == Wrap(t.timeout)
    {
      hide Wf, Kernel.Valid, Links.Valid;
      t.basePriority := priority;
      t.priority := priority;
    }

    // add_task_to_list on the running list, and gyros__cond_reschedule once started.
    method JoinRunning(t: Task)
      requires Valid() && IsTask(t) && t.id in view.home && view.home[t.id].None?
      modifies this`view, this`current, links.repr, t`mainList
      ensures RUNNING in old(view).lists && Wf(old(view))
      ensures var w := Attach(old(view), t.id, RUNNING); view == if started then Resched(w) else w
      ensures Valid() && links.repr == old(links.repr)
    {
      hide Wf, MainLinked, TimeLinked, Embedded, Partition, HeadOf, Links.Valid, Task.Tied, Attach, Resched;
      AddTaskToList(t, running);
      if started {
        InRunning(view, t.id);
        CondReschedule();
      }
    }

    // gyros_task_suspend
    method SuspendTask(t: Task)
      requires Valid() && IsTask(t)
      requires t == current ==> t.id != IDLE && IDLE in view.home && view.home[IDLE] == Some(RUNNING)
      modifies this`view, this`current, links.repr, t`mainList
      ensures Wf(old(view)) && t.id in old(view).home && view == Suspend(old(view), t.id)
      ensures Valid() && links.repr == old(links.repr)
    {
      hide Wf, Kernel.Valid, Kernel.Shape, Kernel.Fields, Kernel.Homes, Detach, Untime, Resched;
      ValidFacts();
      SameTask(t);
      MainListIs(t);
      TaskSuspend(t);
      ValidParts();
      RemoveTimeout(t);
      if t == current {
        ValidFacts();
        IdleRuns(view);
        Reschedule();
      }
    }

    // gyros_task_resume
    method ResumeTask(t: Task)
      requires Valid() && IsTask(t)
      modifies this`view, this`current, links.repr, t`mainList
      ensures Wf(old(view)) && t.id in old(view).home && view == Resume(old(view), t.id)
      ensures Valid() && links.repr == old(links.repr)
    {
      hide Wf, MainLinked, TimeLinked, Embedded, Partition, HeadOf, Links.Valid, Task.Tied, Move, Resched;
      assert RUNNING in heads && heads[RUNNING] == running;
      TaskMove(t, running);
      InRunning(view, t.id);
      CondReschedule();
    }

    // A node from outside is on no ring.
    lemma NodeNew(n: Node)
      requires Shape() && n !in links.repr
      ensures n !in links.m.ringOf
    {
    }

    // gyros__list_remove on the main node of a task; main_list is left as it was.
    method RemoveMain(t: Task, ghost prio: map<Tid, nat>)
      requires Shape() && FieldsAt(prio) && HomesBut(t.id) && IsTask(t)
      modifies this`view, links.repr
      ensures Shape() && FieldsAt(prio) && HomesBut(t.id) && view == Detach(old(view), t.id)
        && links.repr == old(links.repr)
    {
      hide Wf, MainLinked, TimeLinked, Embedded, Detach, Partition, Task.Tied, HeadOf, Links.Valid, RingsRemove, At;
      ghost var k, i := DetachLinked(links.m.rings, tasks, heads, timeouts, view, t.id);
      view := Detach(view, t.id);
      links.Remove(t.mainNode, k, i);
    }

    // A change of view that the links do not show.
    ghost method SetView(v: View)
      requires Shape() && Wf(v)
      requires v == view.(prio := v.prio, base := v.base, deadline := v.deadline, timedOut := v.timedOut)
      modifies this`view
      ensures Shape() && view == v
    {
      hide Wf, MainLinked, TimeLinked, Embedded, Partition, Links.Valid;
      MainFrame(links.m.rings, links.m.rings, tasks, heads, timeouts, view, v);
      TimeFrame(links.m.rings, links.m.rings, tasks, heads, timeouts, view, v);
      view := v;
    }

    // The fields of every task but one are the image of view.
    ghost predicate OthersTied(x: Tid)
      reads this, links`repr, taskSet
      requires Owned()
    {
      forall t {:trigger t in tasks} :: t in tasks && t != x ==>
        && t in view.prio && t in view.base && t in view.deadline && t in view.timedOut
        && tasks[t].Tied(view.prio[t], view.base[t], view.deadline[t], view.timedOut[t])
    }

    lemma InTaskSet(t: Task)
      requires Valid() && IsTask(t)
      ensures Wf(view) && Owned() && t in taskSet && t.id in view.home
    {
    }

    lemma AllTied(t: Task)
      requires Owned() && OthersTied(t.id) && IsTask(t)
      requires t.id in view.prio && t.id in view.base && t.id in view.deadline && t.id in view.timedOut
      requires t.Tied(view.prio[t.id], view.base[t.id], view.deadline[t.id], view.timedOut[t.id])
      ensures Fields()
    {
      hide Task.Tied;
    }

    // The same when the view of one task changes, before its fields do.
    ghost method Retell(t: Task, v: View)
      requires Valid() && IsTask(t) && Wf(v)
      requires v == view.(prio := v.prio, base := v.base, deadline := v.deadline, timedOut := v.timedOut)
      requires forall x {:trigger x in tasks} :: x in tasks && x != t.id && x in view.home ==> Agree(view, v, x)
      modifies this`view
      ensures Shape() && Homes() && OthersTied(t.id) && view == v
    {
      hide Wf, MainLinked, TimeLinked, Embedded, Partition, HeadOf, Links.Valid, Task.Tied;
      SetView(v);
    }

    method SetMainList(t: Task, list: Node?)
      requires Shape() && Fields() && HomesBut(t.id) && IsTask(t)
      modifies t`mainList
      ensures Shape() && Fields() && HomesBut(t.id) && t.mainList == list
    {
      hide Wf, MainLinked, TimeLinked, Embedded, Partition, Task.Tied, Links.Valid;
      t.mainList := list;
    }

    // The scan of add_task_to_list: the node in front of which t belongs.
    method ScanPriority(t: Task, list: Node) returns (i: Node, ghost p: nat)
      requires Shape() && Fields() && IsTask(t) && IsList(list)
      ensures t.id in view.prio && list.container in view.lists && Known(view.prio, view.lists[list.container])
      ensures list in links.m.rings && p == Pos(view.lists[list.container], view.prio, view.prio[t.id], 0)
      ensures |links.m.rings[list]| == |view.lists[list.container]| + 1
      ensures i == links.m.rings[list][if p == |view.lists[list.container]| then 0 else p + 1]
    {
      hide Partition, Links.Valid, TimeLinked, Sorted, Queued, MainLinked, Embedded, Placed;
      ghost var l := list.container;
      ghost var s := view.lists[l];
      ghost var ring := MainRing(links.m.rings, tasks, heads, timeouts, view, l);
      p := 0;
      i := links.Next(list, list, 0);
      while i != list
        invariant p <= |s| && i == ring[if p == |s| then 0 else p + 1]
        invariant Pos(s, view.prio, view.prio[t.id], p) == Pos(s, view.prio, view.prio[t.id], 0)
        decreases |s| - p
      {
        assert i == ring[p + 1] && i.container == s[p] && s[p] in tasks && t.id in tasks;
        if t.priority > tasks[i.container].priority {
          break;
        }
        i := links.Next(i, list, p + 1);
        p := p + 1;
      }
    }

    // gyros__list_insert_before: the tasks do not notice.
    method SpliceNode(n: Node, i: Node, ghost k: Node, ghost at: nat, ghost x: Tid)
      requires Owned() && Fields() && HomesBut(x) && links.Valid()
      requires n in links.m.rings && links.m.rings[n] == [n] && k != n
      requires k in links.m.rings && at < |links.m.rings[k]| && links.m.rings[k][at] == i
      modifies links.repr
      ensures links.Valid() && links.repr == old(links.repr)
        && links.m.rings == RingsInsert(old(links.m.rings), n, k, at)
      ensures Owned() && Fields() && HomesBut(x)
    {
      hide Partition, Links.Valid, HeadOf, Task.Tied, RingsInsert, Embedded, Wf;
      links.InsertBefore(n, i, k, at);
    }

    // The task of a main node that has been inserted is on the list.
    ghost method SetPlace(t: Tid, v: View)
      requires Owned() && Fields() && HomesBut(t) && t in tasks && Linked(tasks, heads, v)
      requires v == view.(lists := v.lists, home := v.home)
      requires v.home.Keys == view.home.Keys && forall x :: x in view.home && x != t ==> v.home[x] == view.home[x]
      modifies this`view
      ensures view == v && Shape() && Fields() && HomesBut(t)
    {
      hide Partition, Links.Valid, HeadOf, Task.Tied, MainLinked, TimeLinked, Embedded, Wf;
      view := v;
    }

    // gyros__list_insert_before on the main node of a task that is on no list.
    method InsertMain(t: Task, list: Node, i: Node, ghost p: nat, ghost v: View)
      requires Shape() && Fields() && HomesBut(t.id) && IsTask(t) && IsList(list) && view.home[t.id].None?
      requires list.container in view.lists && p <= |view.lists[list.container]|
      requires Wf(v) && v == Placement(view, t.id, list.container, p)
      requires list in links.m.rings && |links.m.rings[list]| == |view.lists[list.container]| + 1
      requires i == links.m.rings[list][if p == |view.lists[list.container]| then 0 else p + 1]
      modifies this`view, links.repr
      ensures Shape() && Fields() && HomesBut(t.id) && view == v && links.repr == old(links.repr)
    {
      hide Partition, Links.Valid, TimeLinked, MainLinked, Embedded, Wf, Task.Tied, RingsInsert, HeadOf,
        Kernel.Fields, Kernel.HomesBut;
      PlacementLinked(links.m.rings, tasks, heads, timeouts, view, t.id, list.container, p);
      SpliceNode(t.mainNode, i, list, if p == |view.lists[list.container]| then 0 else p + 1, t.id);
      SetPlace(t.id, v);
    }

    // add_task_to_list
    method AddTaskToList(t: Task, list: Node)
      requires Shape() && Fields() && HomesBut(t.id) && IsTask(t) && IsList(list) && view.home[t.id].None?
      modifies this`view, links.repr, t`mainList
      ensures Valid() && view == Attach(old(view), t.id, list.container) && links.repr == old(links.repr)
    {
      hide Partition, Links.Valid, TimeLinked, MainLinked, Embedded, Wf, Task.Tied, Pos;
      var i, p := ScanPriority(t, list);
      InsertMain(t, list, i, p, Attach(view, t.id, list.container));
      SetMainList(t, list);
    }

    // gyros__task_move
    method TaskMove(t: Task, list: Node)
      requires Valid() && IsTask(t) && IsList(list)
      modifies this`view, links.repr, t`mainList
      ensures Valid() && view == Move(old(view), t.id, list.container) && links.repr == old(links.repr)
    {
      hide Wf, MainLinked, TimeLinked, Embedded, Detach, Attach, Partition, Task.Tied, Links.Valid, HeadOf;
      RemoveMain(t, view.prio);
      AddTaskToList(t, list);
    }

    // gyros__task_suspend
    method TaskSuspend(t: Task)
      requires Valid() && IsTask(t)
      modifies this`view, links.repr, t`mainList
      ensures Valid() && view == Detach(old(view), t.id) && links.repr == old(links.repr)
    {
      hide Wf, MainLinked, TimeLinked, Embedded, Detach, Partition, Task.Tied, Links.Valid;
      RemoveMain(t, view.prio);
      SetMainList(t, null);
    }

    // gyros__list_remove on the timeout node of a task.
    method RemoveTimeout(t: Task)
      requires Shape() && Fields() && Homes() && IsTask(t)
      modifies this`view, links.repr
      ensures Valid() && view == Untime(old(view), t.id) && links.repr == old(links.repr)
    {
      hide Wf, MainLinked, TimeLinked, Embedded, Untime, Partition, Task.Tied, HeadOf, Links.Valid;
      ghost var k, i := UntimeLinked(links.m.rings, tasks, heads, timeouts, view, t.id);
      view := Untime(view, t.id);
      links.Remove(t.timeoutNode, k, i);
    }

    // gyros__task_wake
    method TaskWake(t: Task)
      requires Valid() && IsTask(t)
      modifies this`view, links.repr, t`mainList
      ensures Valid() && view == Wake(old(view), t.id) && links.repr == old(links.repr)
    {
      hide Wf, MainLinked, TimeLinked, Embedded, Untime, Move, Partition, Task.Tied, HeadOf, Links.Valid;
      assert RUNNING in heads && heads[RUNNING] == running;
      RemoveTimeout(t);
      TaskMove(t, running);
    }

    // The list that a task is on, as main_list tells.
    lemma MainListIs(t: Task)
      requires Valid() && IsTask(t)
      ensures t.id in view.home
      ensures view.home[t.id].None? ==> t.mainList == null
      ensures view.home[t.id].Some? ==>
        t.mainList != null && IsList(t.mainList) && view.home[t.id].value == t.mainList.container
    {
    }

    method WritePriority(t: Task, priority: nat)
      requires Valid() && IsTask(t)
      modifies t`priority
      ensures Shape() && Homes() && FieldsAt(view.prio[t.id := priority])
    {
      hide Wf, MainLinked, TimeLinked, Embedded, Partition, Links.Valid, HeadOf, Task.Tied;
      ghost var v := view;
      t.SetPriority(priority, v.prio[t.id], v.base[t.id], v.deadline[t.id], v.timedOut[t.id]);
    }

    // The gyros__task_move of gyros__set_priority: the priority field is ahead of view.
    method Requeue(t: Task, list: Node, ghost priority: nat)
      requires Shape() && HomesBut(t.id) && IsTask(t) && IsList(list) && FieldsAt(view.prio[t.id := priority])
      modifies this`view, links.repr, t`mainList
      ensures Valid() && links.repr == old(links.repr)
      ensures view == Sched.Requeue(old(view), t.id, list.container, priority)
    {
      hide Wf, MainLinked, TimeLinked, Embedded, Detach, Attach, Partition, Links.Valid, Task.Tied, HeadOf;
      RemoveMain(t, view.prio[t.id := priority]);
      SetView(Reprio(view, t.id, priority));
      AddTaskToList(t, list);
    }

    // gyros__set_priority
    method SetPriority(t: Task, priority: nat)
      requires Valid() && IsTask(t)
      modifies this`view, links.repr, t`mainList, t`priority
      ensures Valid() && view == SetPrio(old(view), t.id, priority) && links.repr == old(links.repr)
    {
      hide Wf, MainLinked, TimeLinked, Embedded, Detach, Attach, Partition, Links.Valid, HeadOf, Task.Tied;
      MainListIs(t);
      WritePriority(t, priority);
      if t.mainList != null {
        Requeue(t, t.mainList, priority);
      } else {
        SetView(Reprio(view, t.id, priority));
      }
    }

    lemma ReschedLinked(v: View)
      requires Shape() && v == view.(current := v.current)
      ensures Wf(v) && MainLinked(links.m.rings, tasks, heads, v) && TimeLinked(links.m.rings, tasks, timeouts, v)
    {
    }

    // TASK of the first node of a list that is not empty.
    method First(list: Node) returns (t: Task)
      requires Shape() && IsList(list) && list.container in view.lists && view.lists[list.container] != []
      ensures IsTask(t) && t in taskSet && t.id == view.lists[list.container][0]
    {
      hide Wf, Partition, Links.Valid, TimeLinked;
      ghost var ring := MainRing(links.m.rings, tasks, heads, timeouts, view, list.container);
      assert view.lists[list.container][0] in tasks;
      var n := links.Next(list, list, 0);
      assert n == ring[0 + 1];
      t := tasks[n.container];
    }

    // gyros__list_empty on a task list.
    method ListEmpty(list: Node) returns (empty: bool)
      requires Shape() && IsList(list)
      ensures list.container in view.lists && (empty <==> view.lists[list.container] == [])
    {
      hide Wf, Partition, Links.Valid, TimeLinked;
      ghost var ring := MainRing(links.m.rings, tasks, heads, timeouts, view, list.container);
      empty := links.Empty(list);
    }

    // TASK of the last node of a list that is not empty.
    method Last(list: Node) returns (t: Task)
      requires Shape() && IsList(list) && list.container in view.lists && view.lists[list.container] != []
      ensures IsTask(t) && t in taskSet && t.id == view.lists[list.container][|view.lists[list.container]| - 1]
    {
      hide Wf, Partition, Links.Valid, TimeLinked;
      ghost var s := view.lists[list.container];
      ghost var ring := MainRing(links.m.rings, tasks, heads, timeouts, view, list.container);
      assert s[|s| - 1] in tasks;
      var n := links.Prev(list, list, 0);
      assert n == ring[(|s| - 1) + 1];
      t := tasks[n.container];
    }

    // Position i of a list: the head, or the main node of a task.
    ghost predicate NodeAt(list: Node, n: Node, i: nat)
      reads this
      requires list.container in view.lists
    {
      var s := view.lists[list.container];
      i <= |s| && if i == 0 then n == list else s[i - 1] in tasks && n == tasks[s[i - 1]].mainNode
    }

    // The same on the ring.
    lemma NodeRing(list: Node, n: Node, i: nat)
      requires Shape() && IsList(list) && list.container in view.lists && i <= |view.lists[list.container]|
      ensures list in links.m.rings && |links.m.rings[list]| == |view.lists[list.container]| + 1
      ensures NodeAt(list, n, i) <==> n == links.m.rings[list][i]
    {
      hide Wf, Partition, Links.Valid, TimeLinked;
      var ring := MainRing(links.m.rings, tasks, heads, timeouts, view, list.container);
      assert i > 0 ==> ring[(i - 1) + 1] == ring[i] && view.lists[list.container][i - 1] in tasks;
    }

    // A position behind the head belongs to a task.
    ghost predicate TaskOf(list: Node, n: Node, i: nat)
      reads this
      requires list.container in view.lists && i < |view.lists[list.container]|
    {
      var t := view.lists[list.container][i];
      n != list && n.container == t && t in tasks && IsTask(tasks[t]) && tasks[t].id == t
    }

    lemma NodeTask(list: Node, n: Node, i: nat)
      requires Shape() && IsList(list) && list.container in view.lists && NodeAt(list, n, i) && i > 0
      ensures i - 1 < |view.lists[list.container]| && TaskOf(list, n, i - 1)
    {
      hide Wf, Partition, Links.Valid, TimeLinked;
      var ring := MainRing(links.m.rings, tasks, heads, timeouts, view, list.container);
      assert ring[(i - 1) + 1] == n;
    }

    // The node behind position i of a list.
    method After(list: Node, n: Node, ghost i: nat) returns (r: Node)
      requires Shape() && IsList(list) && list.container in view.lists && NodeAt(list, n, i)
      ensures var s := view.lists[list.container];
        && NodeAt(list, r, if i == |s| then 0 else i + 1)
        && (i < |s| ==> TaskOf(list, r, i))
    {
      hide Wf, Partition, TimeLinked, MainLinked, Embedded, TaskOf;
      ghost var s := view.lists[list.container];
      NodeRing(list, n, i);
      r := links.Next(n, list, i);
      NodeRing(list, r, if i == |s| then 0 else i + 1);
      if i < |s| {
        NodeTask(list, r, i + 1);
      }
    }

    // The node in front of position i of a list.
    method Before(list: Node, n: Node, ghost i: nat) returns (r: Node)
      requires Shape() && IsList(list) && list.container in view.lists && NodeAt(list, n, i)
      ensures var s := view.lists[list.container];
        var j := if i == 0 then |s| else i - 1;
        NodeAt(list, r, j) && (j > 0 ==> TaskOf(list, r, j - 1))
    {
      hide Wf, Partition, TimeLinked, MainLinked, Embedded, TaskOf;
      ghost var s := view.lists[list.container];
      ghost var j := if i == 0 then |s| else i - 1;
      NodeRing(list, n, i);
      r := links.Prev(n, list, i);
      NodeRing(list, r, j);
      if j > 0 {
        NodeTask(list, r, j);
      }
    }

    // One round of those loops: gyros__task_wake on the last task, and the next test.
    method WakeLast(list: Node) returns (empty: bool)
      requires Wf(view) && list.container in view.lists && view.lists[list.container] != []
      requires Valid() && IsList(list)
      modifies this`view, links.repr, taskSet
      ensures var s := old(view).lists[list.container];
        s[|s| - 1] in old(view).home && view == Wake(old(view), s[|s| - 1])
      ensures Wf(view) && list.container in view.lists && (empty <==> view.lists[list.container] == [])
      ensures Valid() && links.repr == old(links.repr)
    {
      hide Wf, Kernel.Valid, Kernel.Shape, Wake;
      ValidFacts();
      ValidShape();
      LastKnown(view, list.container);
      var t := Last(list);
      TaskWake(t);
      ValidShape();
      empty := ListEmpty(list);
    }

    // The loops that wake everybody on a list, from the tail.
    method WakeAllTasks(list: Node)
      requires Valid() && IsList(list) && list.container != RUNNING
      modifies this`view, links.repr, taskSet
      ensures Wf(old(view)) && list.container in old(view).lists
      ensures view == WakeAll(old(view), list.container)
      ensures Valid() && links.repr == old(links.repr)
    {
      hide Wf, Kernel.Valid, Kernel.Shape, Wake, WakeAll, On;
      ValidFacts();
      ValidShape();
      var empty := ListEmpty(list);
      while !empty
        invariant Wf(view) && list.container in view.lists
        invariant Valid() && links.repr == old(links.repr)
        invariant WakeAll(view, list.container) == WakeAll(old(view), list.container)
        invariant empty <==> view.lists[list.container] == []
        decreases On(view, list.container)
      {
        WakeAllStep(view, list.container);
        empty := WakeLast(list);
      }
      WakeAllStep(view, list.container);
    }

    // gyros__task_wake on the first task of a list, with gyros__cond_reschedule or not.
    method WakeFirst(list: Node, reschedule: bool)
      requires Valid() && IsList(list) && Wf(view) && list.container in view.lists && view.lists[list.container] != []
      modifies this`view, this`current, links.repr, taskSet
      ensures old(view).lists[list.container][0] in old(view).home
      ensures var w := Wake(old(view), old(view).lists[list.container][0]);
        view == if reschedule then Resched(w) else w
      ensures Valid() && links.repr == old(links.repr)
    {
      hide Wf, Kernel.Valid, Kernel.Shape, Wake, Resched;
      ValidFacts();
      ValidShape();
      var t := First(list);
      HeadIsTop(view, list.container);
      TaskWake(t);
      if reschedule {
        ValidFacts();
        InRunning(view, t.id);
        CondReschedule();
      }
    }

    // gyros__reschedule, with its effect at the interrupt restore.
    method Reschedule()
      requires Valid() && Runnable(view)
      modifies this`view, this`current
      ensures Valid() && view == Resched(old(view))
    {
      hide Wf, Partition, Links.Valid, TimeLinked, MainLinked, Embedded, HeadOf, Task.Tied;
      var t := First(running);
      ghost var v := Resched(view);
      ReschedLinked(v);
      current := t;
      view := v;
      assert Shape();
      assert Fields();
    }

    // gyros__cond_reschedule
    method CondReschedule()
      requires Valid() && Runnable(view)
      modifies this`view, this`current
      ensures Valid() && view == Resched(old(view))
    {
      hide Wf, Partition, Links.Valid, TimeLinked, MainLinked, Embedded, HeadOf, Task.Tied;
      var t := First(running);
      if t != current {
        Reschedule();
      }
    }

    // gyros__task_move of the current task to a wait list, and the reschedule.
    method BlockCurrent(list: Node)
      requires Wf(view) && view.current in view.home && list.container in view.lists
      requires view.current != IDLE && IDLE in view.home && view.home[IDLE] == Some(RUNNING)
      requires Valid() && IsList(list)
      modifies this`view, this`current, links.repr, taskSet
      ensures view == Resched(Move(old(view), old(view).current, list.container))
      ensures Valid() && links.repr == old(links.repr)
    {
      hide Wf, Kernel.Valid, Kernel.Shape, Move, Resched;
      ValidFacts();
      CurrentIs();
      TaskMove(current, list);
      ValidFacts();
      IdleRuns(view);
      Reschedule();
    }

    // gyros_yield
    method YieldCurrent()
      requires Valid()
      modifies this`view, this`current, links.repr, current`mainList
      ensures Valid() && view == Yield(old(view)) && links.repr == old(links.repr)
    {
      hide Wf, Partition, Links.Valid, TimeLinked, MainLinked, Embedded, HeadOf, Task.Tied, Move;
      assert RUNNING in heads && heads[RUNNING] == running;
      TaskMove(current, running);
      InRunning(view, current.id);
      CondReschedule();
    }

    method WriteBasePriority(t: Task, priority: nat)
      requires Valid() && IsTask(t)
      modifies this`view, t`basePriority
      ensures Valid() && view == old(view).(base := old(view).base[t.id := priority])
    {
      hide Wf, Kernel.Shape, HeadOf, Links.Valid, Wrap, Task.Tied;
      InTaskSet(t);
      BaseWf(view, t.id, priority);
      ghost var v := view;
      FieldsKnown(v);
      Retell(t, view.(base := view.base[t.id := priority]));
      t.SetBasePriority(priority, v.prio[t.id], v.base[t.id], v.deadline[t.id], v.timedOut[t.id]);
      assert Homes();
      assert OthersTied(t.id);
      AllTied(t);
    }

    // gyros_task_set_priority
    method TaskSetPriority(t: Task, priority: nat)
      requires Valid() && IsTask(t) && Runnable(view)
      modifies this`view, this`current, links.repr, t`mainList, t`priority, t`basePriority
      ensures Valid() && view == Sched.TaskSetPriority(old(view), t.id, priority) && links.repr == old(links.repr)
    {
      hide Wf, Partition, Links.Valid, TimeLinked, MainLinked, Embedded, HeadOf, SetPrio;
      WriteBasePriority(t, priority);
      if t.priority != priority {
        hide Task.Tied;
        SetPrioRunning(view, t.id, priority);
        SetPriority(t, priority);
        CondReschedule();
      }
    }

    // The deadlines that are pending differ from time d by less than half the range of
    // the clock, so that the signed differences of clock values are the true ones.
    ghost predicate Near(d: int)
      reads this
    {
      forall t :: t in view.timeouts ==> t in view.deadline && -HALF <= d - view.deadline[t] < HALF
    }

    // The scan of gyros__task_set_timeout: the node in front of which the deadline belongs.
    method ScanTimeout(timeout: AbsTime, ghost d: int) returns (i: Node, ghost p: nat)
      requires Shape() && Fields() && timeout == Wrap(d) && Near(d)
      ensures Known(view.deadline, view.timeouts) && p == TimePos(view.timeouts, view.deadline, d, 0)
      ensures timeouts in links.m.rings && |links.m.rings[timeouts]| == |view.timeouts| + 1
      ensures i == links.m.rings[timeouts][if p == |view.timeouts| then 0 else p + 1]
    {
      hide Partition, Links.Valid, MainLinked, Sorted, Queued, TimeLinked, Embedded, Placed, Compare, Wrap;
      ghost var s := view.timeouts;
      ghost var ring := TimeRing(links.m.rings, tasks, heads, timeouts, view);
      p := 0;
      i := links.Next(timeouts, timeouts, 0);
      while i != timeouts
        invariant p <= |s| && i == ring[if p == |s| then 0 else p + 1]
        invariant TimePos(s, view.deadline, d, p) == TimePos(s, view.deadline, d, 0)
        decreases |s| - p
      {
        assert i == ring[p + 1] && i.container == s[p] && s[p] in tasks && s[p] in s;
        CompareExact(d, view.deadline[s[p]]);
        if Compare(timeout, tasks[i.container].timeout) < 0 {
          break;
        }
        i := links.Next(i, timeouts, p + 1);
        p := p + 1;
      }
    }

    // The writes to timeout and timed_out of a task that is not on the timeout list.
    method WriteTimeout(t: Task, timeout: AbsTime, ghost d: int)
      requires Valid() && IsTask(t) && t.id !in view.timeouts && timeout == Wrap(d)
      modifies this`view, t`timeout, t`timedOut
      ensures Valid()
      ensures view
        == old(view).(deadline := old(view).deadline[t.id := d], timedOut := old(view).timedOut[t.id := false])
    {
      hide Wf, Kernel.Shape, HeadOf, Links.Valid, Wrap, Task.Tied;
      InTaskSet(t);
      DeadlineWf(view, t.id, d);
      ghost var v := view;
      FieldsKnown(v);
      Retell(t, view.(deadline := view.deadline[t.id := d], timedOut := view.timedOut[t.id := false]));
      t.SetTimeout(timeout, v.prio[t.id], v.base[t.id], v.deadline[t.id], v.timedOut[t.id], d);
      assert Homes();
      assert OthersTied(t.id);
      AllTied(t);
    }

    // gyros__list_insert_before on the timeout node of a task.
    method InsertTimeout(t: Task, i: Node, ghost p: nat, ghost v: View)
      requires Valid() && IsTask(t) && t.id !in view.timeouts && p <= |view.timeouts|
      requires Wf(v) && v == view.(timeouts := InsertAt(view.timeouts, p, t.id))
      requires timeouts in links.m.rings && |links.m.rings[timeouts]| == |view.timeouts| + 1
      requires i == links.m.rings[timeouts][if p == |view.timeouts| then 0 else p + 1]
      modifies this`view, links.repr
      ensures Valid() && view == v && links.repr == old(links.repr)
    {
      hide Wf, MainLinked, TimeLinked, Embedded, Partition, HeadOf, Task.Tied, Links.Valid, RingsInsert, InsertAt;
      ArmLinked(links.m.rings, tasks, heads, timeouts, view, v, t.id, p);
      view := v;
      links.InsertBefore(t.timeoutNode, i, timeouts, if p == |old(view).timeouts| then 0 else p + 1);
    }

    // Position p of the timeout list, or its head for the end of the list.
    ghost predicate TimeNodeAt(n: Node, p: nat)
      reads this
    {
      p <= |view.timeouts|
      && if p == |view.timeouts| then n == timeouts
         else view.timeouts[p] in tasks && n == tasks[view.timeouts[p]].timeoutNode
    }

    lemma TimeNodeRing(n: Node, p: nat)
      requires Shape()
      ensures timeouts in links.m.rings && |links.m.rings[timeouts]| == |view.timeouts| + 1
      ensures p <= |view.timeouts| ==>
        (TimeNodeAt(n, p) <==> n == links.m.rings[timeouts][if p == |view.timeouts| then 0 else p + 1])
    {
      hide Wf, Partition, Links.Valid, MainLinked;
      var ring := TimeRing(links.m.rings, tasks, heads, timeouts, view);
      assert p < |view.timeouts| ==> ring[p + 1] == ring[p + 1] && view.timeouts[p] in tasks;
    }

    // gyros__task_set_timeout, for the unwrapped deadline d and clock c; the two field
    // writes come before the insertion instead of after it.
    method TaskSetTimeout(timeout: AbsTime, now: AbsTime, ghost d: int, ghost c: int) returns (pending: bool)
      requires Wf(view) && current.id in view.home && current.id !in view.timeouts
      requires Valid()
      requires timeout == Wrap(d) && now == Wrap(c) && -HALF <= d - c < HALF && Near(d)
      modifies this`view, links.repr, current`timeout, current`timedOut
      ensures pending <==> d > c
      ensures view == if pending then Arm(old(view), old(current).id, d) else old(view)
      ensures Valid() && links.repr == old(links.repr)
    {
      hide Wf, MainLinked, TimeLinked, Embedded, Partition, HeadOf, Task.Tied, Links.Valid, Wrap, Compare, TimePos;
      CompareExact(d, c);
      if Compare(timeout, now) <= 0 {
        return false;
      }
      var i, p := ScanTimeout(timeout, d);
      WriteTimeout(current, timeout, d);
      InsertTimeout(current, i, p, Arm(old(view), current.id, d));
      return true;
    }

    // TIMEOUT of the first node of the timeout list, if there is one.
    method FirstTimeout() returns (t: Task?)
      requires Shape()
      ensures view.timeouts == [] ==> t == null
      ensures view.timeouts != [] ==> t != null && IsTask(t) && t.id == view.timeouts[0]
    {
      hide Wf, Partition, Links.Valid, MainLinked;
      ghost var ring := TimeRing(links.m.rings, tasks, heads, timeouts, view);
      var n := links.Next(timeouts, timeouts, 0);
      assert view.timeouts != [] ==> n == ring[0 + 1];
      if n == timeouts {
        return null;
      }
      assert n == ring[0 + 1] && view.timeouts[0] in tasks;
      return tasks[n.container];
    }

    // The body of the first loop of gyros__tick.
    method ExpireTask(t: Task)
      requires Valid() && IsTask(t)
      modifies this`view, links.repr, t`mainList, t`timedOut
      ensures Valid() && view == Expire(old(view), t.id) && links.repr == old(links.repr)
    {
      hide Wf, MainLinked, TimeLinked, Embedded, Partition, HeadOf, Links.Valid, Task.Tied, Wake;
      MarkExpired(t);
      TaskWake(t);
    }

    method MarkExpired(t: Task)
      requires Valid() && IsTask(t)
      modifies this`view, t`timedOut
      ensures Valid() && view == old(view).(timedOut := old(view).timedOut[t.id := true])
    {
      hide Wf, Kernel.Shape, HeadOf, Links.Valid, Wrap, Task.Tied;
      InTaskSet(t);
      ghost var v := view;
      ExpiredWf(view, t.id);
      FieldsKnown(v);
      Retell(t, view.(timedOut := view.timedOut[t.id := true]));
      t.SetTimedOut(v.prio[t.id], v.base[t.id], v.deadline[t.id], v.timedOut[t.id]);
      assert Homes();
      assert OthersTied(t.id);
      AllTied(t);
    }

    // The test of the first loop of gyros__tick: the first task of the timeout list, if
    // it is due.
    method FirstDue(now: AbsTime, ghost c: int) returns (task: Task?)
      requires Valid() && now == Wrap(c) && Near(c)
      ensures Wf(view) && (task == null <==> !Due(view, c))
      ensures task != null ==> IsTask(task) && task in taskSet && view.timeouts != [] && task.id == view.timeouts[0]
    {
      hide MainLinked, TimeLinked, Embedded, Partition, HeadOf, Links.Valid, Wrap, Compare;
      task := FirstTimeout();
      if task == null {
        return;
      }
      DeadlineOf(task);
      CompareExact(c, view.deadline[task.id]);
      if Compare(now, task.timeout) < 0 {
        return null;
      }
    }

    // The first loop of gyros__tick.
    method ExpireTasks(now: AbsTime, ghost c: int) returns (reschedule: bool)
      requires Valid() && now == Wrap(c) && Near(c)
      modifies this`view, links.repr, taskSet
      ensures Valid() && links.repr == old(links.repr) && Wf(old(view))
      ensures reschedule <==> Due(old(view), c)
      ensures view == ExpireDue(old(view), c) && (reschedule ==> Runnable(view))
    {
      hide Wf, Kernel.Valid, Expire, ExpireDue, Due;
      ValidFacts();
      reschedule := false;
      ExpireStep(view, c);
      var task := FirstDue(now, c);
      while task != null
        invariant Valid() && Near(c) && links.repr == old(links.repr)
        invariant Wf(view) && ExpireDue(view, c) == ExpireDue(old(view), c)
        invariant (task == null <==> !Due(view, c))
        invariant task != null ==> IsTask(task) && task in taskSet && view.timeouts != [] && task.id == view.timeouts[0]
        invariant if reschedule then Due(old(view), c) && Runnable(view) else view == old(view)
        decreases |view.timeouts|
      {
        ExpireStep(view, c);
        ExpireTask(task);
        reschedule := true;
        task := FirstDue(now, c);
      }
      ExpireStep(view, c);
    }

    // The task part of gyros__tick.
    method TickTasks(now: AbsTime, ghost c: int)
      requires Valid() && now == Wrap(c) && Near(c)
      modifies this`view, this`current, links.repr, taskSet
      ensures Valid() && links.repr == old(links.repr) && Wf(old(view))
      ensures view == Tick(old(view), c)
    {
      hide Wf, Kernel.Valid, Expire, ExpireDue, Due;
      ValidFacts();
      ExpireStep(view, c);
      var reschedule := ExpireTasks(now, c);
      if reschedule {
        Reschedule();
      }
    }

    lemma ValidFacts()
      requires Valid()
      ensures Wf(view) && Owned()
    {
    }

    lemma ValidShape()
      requires Valid()
      ensures Shape()
    {
    }

    // A node that is alone on its ring points to itself.
    lemma AloneIs(n: Node)
      requires links.Valid() && n in links.m.rings && links.m.rings[n] == [n]
      ensures n.next == n && n.prev == n
    {
      assert links.m.rings[n][0] in links.m.ringOf && Ring(links.m.next, links.m.prev, links.m.rings[n]);
      assert links.m.rings[n][0] in links.m.next && links.m.rings[n][0] in links.m.prev;
    }

    // The timeout node of a task is linked exactly while its timeout is pending.
    lemma TimeoutNodeLinked(t: Task)
      requires Valid() && IsTask(t)
      ensures Partition(links.m) && t.timeoutNode in links.m.ringOf && t.timeoutNode in links.m.next
      ensures links.m.next[t.timeoutNode] == t.timeoutNode <==> t.id !in view.timeouts
    {
      hide Wf, MainLinked, Task.Tied, Partition, TimeLinked, Embedded;
      var ring := TimeRing(links.m.rings, tasks, heads, timeouts, view);
      if t.id in view.timeouts {
        var j :| 0 <= j < |view.timeouts| && view.timeouts[j] == t.id;
        assert view.timeouts[j] in tasks;
        LinkedAt(links.m, timeouts, j + 1);
      } else {
        UntimedAlone(t);
        LinkedAt(links.m, t.timeoutNode, 0);
      }
    }

    lemma UntimedAlone(t: Task)
      requires Shape() && IsTask(t) && t.id !in view.timeouts
      ensures t.timeoutNode in links.m.rings && links.m.rings[t.timeoutNode] == [t.timeoutNode]
    {
      hide Wf, MainLinked, Task.Tied, Partition;
    }

    // The main node of a task is on the ring of the list that main_list names, and on no
    // other ring; it is self-linked when main_list is NULL.
    lemma OnItsRing(t: Task)
      requires Valid() && IsTask(t)
      ensures t.mainList == null ==> t.mainNode.next == t.mainNode && t.mainNode.prev == t.mainNode
      ensures t.mainList != null ==> t.mainList in links.m.rings && t.mainNode in links.m.rings[t.mainList]
      ensures t.mainList != null ==> forall k ::
        k in links.m.rings && t.mainNode in links.m.rings[k] ==> k == t.mainList
    {
      hide Wf, TimeLinked, Task.Tied, Links.Tied;
      MainListIs(t);
      ghost var k, i := DetachLinked(links.m.rings, tasks, heads, timeouts, view, t.id);
      if t.mainList == null {
        AloneIs(t.mainNode);
      } else {
        Listed(t);
        forall k | k in links.m.rings && t.mainNode in links.m.rings[k] ensures k == t.mainList {
          OneRing(links.m, t.mainNode, k, t.mainList);
        }
      }
    }

    lemma Listed(t: Task)
      requires Shape() && IsTask(t) && t.id in view.home && view.home[t.id].Some?
      ensures view.home[t.id].value in heads && heads[view.home[t.id].value] in links.m.rings
      ensures t.mainNode in links.m.rings[heads[view.home[t.id].value]]
    {
      hide Partition, Links.Valid, TimeLinked;
      var l := view.home[t.id].value;
      assert l in view.lists && t.id in view.lists[l];
      var j :| 0 <= j < |view.lists[l]| && view.lists[l][j] == t.id;
      var ring := MainRing(links.m.rings, tasks, heads, timeouts, view, l);
      assert ring[j + 1] == t.mainNode;
    }

    // Between two regions, the timeout node of a running task is self-linked, so
    // gyros__task_set_timeout never inserts a node that is on a list already.
    lemma RunningNotTimed(t: Task)
      requires Valid() && Scheduling(view) && IsTask(t) && t.mainList == running
      ensures t.id !in view.timeouts && t.timeoutNode.next == t.timeoutNode && t.timeoutNode.prev == t.timeoutNode
    {
      hide Wf, MainLinked, Task.Tied, Links.Valid, Partition;
      MainListIs(t);
      AloneIs(t.timeoutNode);
    }

    // Two tasks with the same identity are the same.
    lemma SameTask(t: Task?)
      requires Valid() && (t != null ==> IsTask(t))
      ensures t != null ==> (t == current <==> t.id == view.current)
    {
    }

    lemma TasksKnown(t: Tid)
      requires Valid() && t in tasks
      ensures tasks[t].id == t && tasks[t] in taskSet
    {
    }

    lemma ValidParts()
      requires Valid()
      ensures Shape() && Fields() && Homes()
    {
    }

    // What a region may rely on about the objects it names.
    lemma NamesKnown(list: Node, t: Task?)
      requires Valid() && IsList(list) && (t != null ==> IsTask(t))
      ensures list.container in view.lists && IsTask(current) && view.current == current.id
      ensures current.id in view.home && current in taskSet
      ensures t != null ==> t.id in view.home && t in taskSet
    {
    }

    lemma CurrentIs()
      requires Valid()
      ensures IsTask(current) && view.current == current.id && current.id in view.home && current in taskSet
    {
    }

    lemma PrioritiesKnown(t: Task, u: Task)
      requires Valid() && IsTask(t) && IsTask(u)
      ensures t.id in view.prio && t.priority == view.prio[t.id] && u.id in view.prio && u.priority == view.prio[u.id]
      ensures t.id in view.base && t.basePriority == view.base[t.id]
    {
    }

    lemma TimedOutIs(t: Task)
      requires Valid() && IsTask(t)
      ensures t.id in view.timedOut && t.timedOut == view.timedOut[t.id]
    {
    }

    lemma DeadlineOf(t: Task)
      requires Valid() && IsTask(t)
      ensures t.id in view.deadline && t.timeout == Wrap(view.deadline[t.id])
    {
    }
  }
}
