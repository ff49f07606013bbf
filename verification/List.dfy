// include/gyros/private/list.h: intrusive circular doubly-linked lists.
//
// A list is a head node plus the nodes linked behind it; a node that is in no
// list points to itself.  Nodes are embedded in tasks and timers, and a node is
// removed without naming the list it is in.

module Lists {
  import opened Seqs

  // What a node is embedded in (C recovers the container by address arithmetic).
  datatype NodeKind = Head | MainLink | TimeoutLink | TimeoutHead | TimerLink | TimerHead

  class Node {
    var next: Node
    var prev: Node
    ghost const kind: NodeKind
    const container: nat   // identifies the object that the node is embedded in

    constructor (ghost kind: NodeKind, container: nat)
      ensures next == this && prev == this
      ensures this.kind == kind && this.container == container
    {
      next, prev := this, this;
      this.kind, this.container := kind, container;
    }
  }

  // The link fields of a set of nodes, and the rings that they form.  A ring is named
  // by its first node.
  datatype Space = Space(
    next: map<Node, Node>,
    prev: map<Node, Node>,
    rings: map<Node, seq<Node>>,
    ringOf: map<Node, Node>)

  // The neighbours of index i on a ring of n nodes.
  function Succ(n: nat, i: nat): nat {
    if i + 1 == n then 0 else i + 1
  }

  function Pred(n: nat, i: nat): int {
    if i == 0 then n - 1 else i - 1
  }

  // The nodes of s form one well-formed ring, in the order of s.
  ghost predicate Ring(next: map<Node, Node>, prev: map<Node, Node>, s: seq<Node>) {
    && |s| >= 1
    && Distinct(s)
    && Forward(next, s)
    && Backward(prev, s)
  }

  ghost predicate Forward(next: map<Node, Node>, s: seq<Node>) {
    && (forall i {:trigger s[i] in next} :: 0 <= i < |s| ==> s[i] in next)
    && (forall i {:trigger next[s[i]]} :: 0 <= i < |s| ==> next[s[i]] == s[Succ(|s|, i)])
  }

  ghost predicate Backward(prev: map<Node, Node>, s: seq<Node>) {
    && (forall i {:trigger s[i] in prev} :: 0 <= i < |s| ==> s[i] in prev)
    && (forall i {:trigger prev[s[i]]} :: 0 <= i < |s| ==> prev[s[i]] == s[Pred(|s|, i)])
  }

  // Every node is on exactly one ring, at exactly one position.
  ghost predicate Partition(m: Space) {
    AllRings(m) && Named(m) && Covered(m)
  }

  ghost predicate AllRings(m: Space) {
    forall k :: k in m.rings ==> Ring(m.next, m.prev, m.rings[k])
  }

  ghost predicate Named(m: Space) {
    && (forall k :: k in m.rings ==> |m.rings[k]| >= 1 && m.rings[k][0] == k)
    && (forall k, i {:trigger m.rings[k][i] in m.ringOf} {:trigger m.ringOf[m.rings[k][i]]} ::
          k in m.rings && 0 <= i < |m.rings[k]| ==>
          m.rings[k][i] in m.ringOf && m.ringOf[m.rings[k][i]] == k)
  }

  ghost predicate Covered(m: Space) {
    forall n {:trigger OnRing(m, n)} :: n in m.ringOf ==> OnRing(m, n)
  }

  ghost predicate OnRing(m: Space, n: Node)
    requires n in m.ringOf
  {
    m.ringOf[n] in m.rings && n in m.rings[m.ringOf[n]]
  }

  // Where a node spliced before position i of a ring of n nodes ends up: before
  // the head means last.
  function SplicePos(n: nat, i: nat): nat {
    if i == 0 then n else i
  }

  lemma InsertForward(next: map<Node, Node>, s: seq<Node>, n: Node, i: nat, j: nat)
    requires Forward(next, s) && Distinct(s) && n !in s && i < |s| && j <= |s|
    ensures var r := InsertAt(s, SplicePos(|s|, i), n);
      var next' := next[n := s[i]][s[Pred(|s|, i)] := n];
      r[j] in next' && next'[r[j]] == r[Succ(|r|, j)]
  {
    var p := SplicePos(|s|, i);
    if j < p {
      assert s[j] in next;
    } else if j > p {
      assert s[j - 1] in next;
    }
  }

  lemma InsertBackward(prev: map<Node, Node>, s: seq<Node>, n: Node, i: nat, j: nat)
    requires Backward(prev, s) && Distinct(s) && n !in s && i < |s| && j <= |s|
    ensures var r := InsertAt(s, SplicePos(|s|, i), n);
      var prev' := prev[n := s[Pred(|s|, i)]][s[i] := n];
      r[j] in prev' && prev'[r[j]] == r[Pred(|r|, j)]
  {
    var p := SplicePos(|s|, i);
    if j < p {
      assert s[j] in prev;
    } else if j > p {
      assert s[j - 1] in prev;
    }
  }

  lemma ForwardInserted(next: map<Node, Node>, s: seq<Node>, n: Node, i: nat)
    requires Forward(next, s) && Distinct(s) && n !in s && i < |s|
    ensures Forward(next[n := s[i]][s[Pred(|s|, i)] := n], InsertAt(s, SplicePos(|s|, i), n))
  {
    hide InsertAt, Forward, Distinct;
    var r, next' := InsertAt(s, SplicePos(|s|, i), n), next[n := s[i]][s[Pred(|s|, i)] := n];
    forall j | 0 <= j < |r| ensures r[j] in next' && next'[r[j]] == r[Succ(|r|, j)] {
      InsertForward(next, s, n, i, j);
    }
    ForwardIs(next', r);
  }

  lemma ForwardIs(next: map<Node, Node>, s: seq<Node>)
    requires forall j {:trigger s[j]} :: 0 <= j < |s| ==> s[j] in next && next[s[j]] == s[Succ(|s|, j)]
    ensures Forward(next, s)
  {
  }

  lemma BackwardIs(prev: map<Node, Node>, s: seq<Node>)
    requires forall j {:trigger s[j]} :: 0 <= j < |s| ==> s[j] in prev && prev[s[j]] == s[Pred(|s|, j)]
    ensures Backward(prev, s)
  {
  }

  lemma BackwardInserted(prev: map<Node, Node>, s: seq<Node>, n: Node, i: nat)
    requires Backward(prev, s) && Distinct(s) && n !in s && i < |s|
    ensures Backward(prev[n := s[Pred(|s|, i)]][s[i] := n], InsertAt(s, SplicePos(|s|, i), n))
  {
    hide InsertAt, Backward, Distinct;
    var r, prev' := InsertAt(s, SplicePos(|s|, i), n), prev[n := s[Pred(|s|, i)]][s[i] := n];
    forall j | 0 <= j < |r| ensures r[j] in prev' && prev'[r[j]] == r[Pred(|r|, j)] {
      InsertBackward(prev, s, n, i, j);
    }
    BackwardIs(prev', r);
  }

  lemma RingInsert(next: map<Node, Node>, prev: map<Node, Node>, s: seq<Node>, n: Node, i: nat)
    requires Ring(next, prev, s) && n !in s && i < |s|
    ensures s[i] in prev && prev[s[i]] == s[Pred(|s|, i)]
    ensures Ring(next[n := s[i]][prev[s[i]] := n], prev[n := prev[s[i]]][s[i] := n], InsertAt(s, SplicePos(|s|, i), n))
  {
    hide InsertAt, Forward, Backward, Distinct;
    BackwardAt(prev, s, i);
    InsertMembers(s, SplicePos(|s|, i), n);
    ForwardInserted(next, s, n, i);
    BackwardInserted(prev, s, n, i);
  }

  lemma BackwardAt(prev: map<Node, Node>, s: seq<Node>, i: nat)
    requires Backward(prev, s) && i < |s|
    ensures s[i] in prev && prev[s[i]] == s[Pred(|s|, i)]
  {
  }

  lemma WithoutForward(next: map<Node, Node>, s: seq<Node>, i: nat, j: nat)
    requires Forward(next, s) && Distinct(s) && 0 < i < |s| && j < |s| - 1
    ensures var r := Without(s, i);
      var next' := next[s[i - 1] := s[Succ(|s|, i)]][s[i] := s[i]];
      r[j] in next' && next'[r[j]] == r[Succ(|r|, j)]
  {
    if j < i {
      assert s[j] in next;
    } else {
      assert s[j + 1] in next;
    }
  }

  lemma WithoutBackward(prev: map<Node, Node>, s: seq<Node>, i: nat, j: nat)
    requires Backward(prev, s) && Distinct(s) && 0 < i < |s| && j < |s| - 1
    ensures var r := Without(s, i);
      var prev' := prev[s[Succ(|s|, i)] := s[i - 1]][s[i] := s[i]];
      r[j] in prev' && prev'[r[j]] == r[Pred(|r|, j)]
  {
    if j < i {
      assert s[j] in prev;
    } else {
      assert s[j + 1] in prev;
    }
  }

  lemma ForwardWithout(next: map<Node, Node>, s: seq<Node>, i: nat)
    requires Forward(next, s) && Distinct(s) && 0 < i < |s|
    ensures Forward(next[s[i - 1] := s[Succ(|s|, i)]][s[i] := s[i]], Without(s, i))
  {
    hide Without, Forward, Distinct;
    var r, next' := Without(s, i), next[s[i - 1] := s[Succ(|s|, i)]][s[i] := s[i]];
    forall j | 0 <= j < |r| ensures r[j] in next' && next'[r[j]] == r[Succ(|r|, j)] {
      WithoutForward(next, s, i, j);
    }
    ForwardIs(next', r);
  }

  lemma BackwardWithout(prev: map<Node, Node>, s: seq<Node>, i: nat)
    requires Backward(prev, s) && Distinct(s) && 0 < i < |s|
    ensures Backward(prev[s[Succ(|s|, i)] := s[i - 1]][s[i] := s[i]], Without(s, i))
  {
    hide Without, Backward, Distinct;
    var r, prev' := Without(s, i), prev[s[Succ(|s|, i)] := s[i - 1]][s[i] := s[i]];
    forall j | 0 <= j < |r| ensures r[j] in prev' && prev'[r[j]] == r[Pred(|r|, j)] {
      WithoutBackward(prev, s, i, j);
    }
    BackwardIs(prev', r);
  }

  lemma RingWithout(next: map<Node, Node>, prev: map<Node, Node>, s: seq<Node>, i: nat)
    requires Ring(next, prev, s) && 0 < i < |s|
    ensures s[i] in next && s[i] in prev && next[s[i]] == s[Succ(|s|, i)] && prev[s[i]] == s[i - 1]
    ensures Ring(next[prev[s[i]] := next[s[i]]][s[i] := s[i]], prev[next[s[i]] := prev[s[i]]][s[i] := s[i]],
      Without(s, i))
  {
    hide Without, Forward, Backward, Distinct;
    BackwardAt(prev, s, i);
    ForwardAt(next, s, i);
    WithoutMembers(s, i);
    ForwardWithout(next, s, i);
    BackwardWithout(prev, s, i);
  }

  lemma ForwardAt(next: map<Node, Node>, s: seq<Node>, i: nat)
    requires Forward(next, s) && i < |s|
    ensures s[i] in next && next[s[i]] == s[Succ(|s|, i)]
  {
  }

  // gyros__list_remove, on the rings.
  ghost function RingsRemove(rings: map<Node, seq<Node>>, k: Node, i: nat): map<Node, seq<Node>>
    requires k in rings && i < |rings[k]|
  {
    if i == 0 then rings else rings[k := Without(rings[k], i)][rings[k][i] := [rings[k][i]]]
  }

  // gyros__list_insert_before, on the rings.
  ghost function RingsInsert(rings: map<Node, seq<Node>>, n: Node, k: Node, i: nat): map<Node, seq<Node>>
    requires k in rings && i < |rings[k]|
  {
    (rings - {n})[k := InsertAt(rings[k], SplicePos(|rings[k]|, i), n)]
  }

  // Position i of ring k is the node n, and n is the key only if it is alone.
  ghost predicate At(rings: map<Node, seq<Node>>, k: Node, i: nat, n: Node) {
    k in rings && i < |rings[k]| && rings[k][i] == n && (i == 0 ==> |rings[k]| == 1)
  }

  // The writes of GYROS__LIST_NODE_INIT for a node that is on no ring yet.
  function Added(m: Space, n: Node): Space {
    Space(m.next[n := n], m.prev[n := n], m.rings[n := [n]], m.ringOf[n := n])
  }

  // The writes of gyros__list_insert_before, with position i of ring k in front.
  ghost function Spliced(m: Space, n: Node, k: Node, i: nat): Space
    requires k in m.rings && i < |m.rings[k]| && m.rings[k][i] in m.prev
  {
    var at := m.rings[k][i];
    Space(
      m.next[n := at][m.prev[at] := n],
      m.prev[n := m.prev[at]][at := n],
      RingsInsert(m.rings, n, k, i),
      m.ringOf[n := k])
  }

  // The writes of gyros__list_remove for the node at position i of ring k.
  ghost function Removed(m: Space, k: Node, i: nat): Space
    requires k in m.rings && i < |m.rings[k]| && m.rings[k][i] in m.prev && m.rings[k][i] in m.next
  {
    var n := m.rings[k][i];
    Space(
      m.next[m.prev[n] := m.next[n]][n := n],
      m.prev[m.next[n] := m.prev[n]][n := n],
      RingsRemove(m.rings, k, i),
      m.ringOf[n := n])
  }

  lemma RingFrame(next: map<Node, Node>, prev: map<Node, Node>, next': map<Node, Node>, prev': map<Node, Node>,
      s: seq<Node>)
    requires Ring(next, prev, s)
    requires forall i {:trigger s[i]} :: 0 <= i < |s| ==>
      s[i] in next' && next'[s[i]] == next[s[i]] && s[i] in prev' && prev'[s[i]] == prev[s[i]]
    ensures Ring(next', prev', s)
  {
  }

  // Rings k and n share no node with any other ring.
  lemma OtherRing(m: Space, l: Node, i: nat)
    requires Named(m) && l in m.rings && i < |m.rings[l]|
    ensures forall k, j {:trigger m.rings[k][j]} :: k in m.rings && k != l && 0 <= j < |m.rings[k]| ==>
      m.rings[k][j] != m.rings[l][i]
  {
    forall k, j | k in m.rings && k != l && 0 <= j < |m.rings[k]| ensures m.rings[k][j] != m.rings[l][i] {
      assert m.rings[k][j] in m.ringOf && m.rings[l][i] in m.ringOf;
    }
  }

  lemma OneRing(m: Space, n: Node, k: Node, l: Node)
    requires Named(m) && k in m.rings && l in m.rings && n in m.rings[k] && n in m.rings[l]
    ensures k == l
  {
    var i :| 0 <= i < |m.rings[k]| && m.rings[k][i] == n;
    var j :| 0 <= j < |m.rings[l]| && m.rings[l][j] == n;
    assert m.rings[k][i] in m.ringOf && m.rings[l][j] in m.ringOf;
  }

  lemma AddedRings(m: Space, n: Node)
    requires AllRings(m) && Named(m) && n !in m.ringOf
    ensures n !in m.rings && AllRings(Added(m, n))
  {
    var m' := Added(m, n);
    forall k | k in m.rings ensures k != n {
      assert m.rings[k][0] in m.ringOf;
    }
    forall k | k in m.rings ensures Ring(m'.next, m'.prev, m.rings[k]) {
      hide Ring;
      assert forall i :: 0 <= i < |m.rings[k]| ==> m.rings[k][i] in m.ringOf;
      RingFrame(m.next, m.prev, m'.next, m'.prev, m.rings[k]);
    }
  }

  lemma AddedPartition(m: Space, n: Node)
    requires Partition(m) && n !in m.ringOf
    ensures n !in m.rings && Partition(Added(m, n))
  {
    hide AllRings;
    AddedRings(m, n);
    var m' := Added(m, n);
    forall x | x in m'.ringOf ensures OnRing(m', x) {
      assert x != n ==> OnRing(m, x);
    }
  }

  lemma SplicedRings(m: Space, n: Node, k: Node, i: nat)
    requires AllRings(m) && Named(m)
    requires n in m.rings && m.rings[n] == [n] && k in m.rings && k != n && i < |m.rings[k]|
    ensures n !in m.rings[k]
    ensures m.rings[k][i] in m.prev && m.prev[m.rings[k][i]] in m.ringOf
    ensures AllRings(Spliced(m, n, k, i))
  {
    var s := m.rings[k];
    OtherRing(m, n, 0);
    assert forall j :: 0 <= j < |s| ==> s[j] != n;
    RingInsert(m.next, m.prev, s, n, i);
    assert m.rings[k][Pred(|s|, i)] in m.ringOf;
    var m' := Spliced(m, n, k, i);
    forall l | l in m.rings && l != k && l != n ensures Ring(m'.next, m'.prev, m.rings[l]) {
      OtherRing(m, k, i);
      OtherRing(m, k, Pred(|s|, i));
      RingFrame(m.next, m.prev, m'.next, m'.prev, m.rings[l]);
    }
  }

  // Moving a self-linked node into another ring keeps the partition.
  lemma SplicedPartition(m: Space, n: Node, k: Node, i: nat)
    requires Partition(m)
    requires n in m.rings && m.rings[n] == [n] && k in m.rings && k != n && i < |m.rings[k]|
    ensures m.rings[k][i] in m.ringOf && m.rings[k][i] in m.prev && m.prev[m.rings[k][i]] in m.ringOf
    ensures Partition(Spliced(m, n, k, i))
  {
    SplicedRings(m, n, k, i);
    var m' := Spliced(m, n, k, i);
    var r := m'.rings[k];
    InsertMembers(m.rings[k], SplicePos(|m.rings[k]|, i), n);
    forall l, j | l in m'.rings && 0 <= j < |m'.rings[l]|
      ensures m'.rings[l][j] in m'.ringOf && m'.ringOf[m'.rings[l][j]] == l
    {
      if l == k {
        assert r[j] in r;
      } else {
        OtherRing(m, n, 0);
        assert m.rings[l][j] in m.ringOf;
      }
    }
    forall x | x in m'.ringOf ensures OnRing(m', x) {
      assert x != n ==> OnRing(m, x);
    }
  }

  // The neighbours of a node point back to it.
  lemma Around(next: map<Node, Node>, prev: map<Node, Node>, s: seq<Node>, i: nat)
    requires Ring(next, prev, s) && i < |s|
    ensures s[i] in prev && prev[s[i]] == s[Pred(|s|, i)] && prev[s[i]] in next && next[prev[s[i]]] == s[i]
    ensures s[i] in next && next[s[i]] == s[Succ(|s|, i)] && next[s[i]] in prev && prev[next[s[i]]] == s[i]
    ensures next[s[i]] == s[i] <==> |s| == 1
  {
    hide Forward, Backward;
    ForwardAt(next, s, i);
    BackwardAt(prev, s, i);
    ForwardAt(next, s, Pred(|s|, i));
    BackwardAt(prev, s, Succ(|s|, i));
  }

  lemma PrevNext(m: Space, n: Node)
    requires Partition(m) && n in m.ringOf
    ensures n in m.prev && m.prev[n] in m.ringOf && m.prev[n] in m.next && m.next[m.prev[n]] == n
    ensures n in m.next && m.next[n] in m.prev && m.prev[m.next[n]] == n
  {
    hide Ring;
    assert OnRing(m, n);
    var s := m.rings[m.ringOf[n]];
    var i :| 0 <= i < |s| && s[i] == n;
    Around(m.next, m.prev, s, i);
    assert s[Pred(|s|, i)] in m.ringOf;
  }

  // A node that is not alone on its ring does not point to itself.
  lemma LinkedAt(m: Space, k: Node, i: nat)
    requires Partition(m) && k in m.rings && i < |m.rings[k]|
    ensures m.rings[k][i] in m.ringOf && m.rings[k][i] in m.next
    ensures m.next[m.rings[k][i]] == m.rings[k][i] <==> |m.rings[k]| == 1
  {
    hide Ring;
    Around(m.next, m.prev, m.rings[k], i);
  }

  // The link fields after gyros__list_insert_before, wherever the new node was before.
  ghost predicate Inserted(m: Space, r: Space, n: Node, at: Node) {
    && at in m.prev && r.ringOf.Keys == m.ringOf.Keys
    && r.next == m.next[n := at][m.prev[at] := n]
    && r.prev == m.prev[n := m.prev[at]][at := n]
  }

  // If the new node was on a list, the node that was in front of it there still points to
  // it, but not the other way round, so that the nodes form no rings at all.
  lemma LinkedSpliced(m: Space, r: Space, n: Node, at: Node)
    requires Partition(m) && n in m.ringOf && at in m.ringOf && Inserted(m, r, n, at)
    requires n in m.next && m.next[n] != n
    ensures !Partition(r)
  {
    hide Partition;
    PrevNext(m, n);
    PrevNext(m, at);
    var p := m.prev[n];
    assert r.next[p] == n && r.prev[n] != p;
    if Partition(r) {
      PrevNext(r, p);
    }
  }

  lemma FreeSpliced(m: Space, n: Node, at: Node) returns (r: Space)
    requires Partition(m) && n in m.ringOf && at in m.ringOf && n in m.next && m.next[n] == n
    ensures Inserted(m, r, n, at) && Partition(r)
  {
    PrevNext(m, n);
    PrevNext(m, at);
    if at == n {
      r := m;
    } else {
      assert OnRing(m, n) && OnRing(m, at);
      var k, l := m.ringOf[at], m.ringOf[n];
      var s := m.rings[k];
      var i :| 0 <= i < |s| && s[i] == at;
      AloneRing(m, n);
      r := Spliced(m, n, k, i);
      SplicedPartition(m, n, k, i);
    }
  }

  lemma AloneRing(m: Space, n: Node)
    requires Partition(m) && n in m.ringOf && n in m.next && m.next[n] == n
    ensures n in m.rings && m.rings[n] == [n]
    ensures forall x :: x in m.ringOf && x != n ==> m.ringOf[x] != n
  {
    hide Ring;
    assert OnRing(m, n);
    var s := m.rings[m.ringOf[n]];
    var i :| 0 <= i < |s| && s[i] == n;
    LinkedAt(m, m.ringOf[n], i);
    forall x | x in m.ringOf && m.ringOf[x] == n ensures x == n {
      assert OnRing(m, x);
    }
  }

  // An insertion keeps the nodes in well-formed rings exactly if the new node was on no list.
  lemma InsertExactly(m: Space, n: Node, at: Node)
    requires Partition(m) && n in m.ringOf && at in m.ringOf
    ensures n in m.next
    ensures (exists r :: Inserted(m, r, n, at) && Partition(r)) <==> m.next[n] == n
  {
    hide Partition, Inserted;
    PrevNext(m, n);
    if m.next[n] == n {
      var r := FreeSpliced(m, n, at);
    } else {
      forall r | Inserted(m, r, n, at) ensures !Partition(r) {
        LinkedSpliced(m, r, n, at);
      }
    }
  }

  lemma RemoveAlone(m: Space, k: Node)
    requires Partition(m) && k in m.rings && |m.rings[k]| == 1
    ensures m.rings[k][0] == k
    ensures k in m.ringOf && k in m.prev && k in m.next && m.prev[k] == k && m.next[k] == k
    ensures Removed(m, k, 0) == m
  {
    assert m.rings[k][0] in m.ringOf && m.rings[k][0] in m.next && m.rings[k][0] in m.prev;
    assert m.ringOf[m.rings[k][0]] == k;
  }

  lemma RemovedRings(m: Space, k: Node, i: nat)
    requires AllRings(m) && Named(m)
    requires k in m.rings && 0 < i < |m.rings[k]|
    ensures var n := m.rings[k][i];
      n in m.prev && n in m.next && m.prev[n] == m.rings[k][i - 1] && m.next[n] == m.rings[k][Succ(|m.rings[k]|, i)]
    ensures AllRings(Removed(m, k, i))
  {
    var s := m.rings[k];
    RingWithout(m.next, m.prev, s, i);
    var m' := Removed(m, k, i);
    assert Ring(m'.next, m'.prev, [s[i]]);
    forall l | l in m.rings && l != k && l != s[i] ensures Ring(m'.next, m'.prev, m.rings[l]) {
      OtherRing(m, k, i);
      OtherRing(m, k, Succ(|s|, i));
      OtherRing(m, k, i - 1);
      RingFrame(m.next, m.prev, m'.next, m'.prev, m.rings[l]);
    }
  }

  // Moving a node out of a ring, onto one of its own, keeps the partition.
  lemma RemovedPartition(m: Space, k: Node, i: nat)
    requires Partition(m)
    requires k in m.rings && 0 < i < |m.rings[k]|
    ensures var n := m.rings[k][i];
      n in m.ringOf && n in m.prev && n in m.next && m.prev[n] in m.ringOf && m.next[n] in m.ringOf
    ensures Partition(Removed(m, k, i))
  {
    var s := m.rings[k];
    RemovedRings(m, k, i);
    assert s[i] in m.ringOf && s[i - 1] in m.ringOf && s[Succ(|s|, i)] in m.ringOf;
    var m' := Removed(m, k, i);
    WithoutMembers(s, i);
    forall l, j | l in m'.rings && 0 <= j < |m'.rings[l]|
      ensures m'.rings[l][j] in m'.ringOf && m'.ringOf[m'.rings[l][j]] == l
    {
      if l == k {
        assert m'.rings[k][j] in m'.rings[k];
        assert m.rings[k][if j < i then j else j + 1] in m.ringOf;
      } else if l != s[i] {
        OtherRing(m, k, i);
        assert m.rings[l][j] in m.ringOf;
      }
    }
    forall x | x in m'.ringOf ensures OnRing(m', x) {
      assert OnRing(m, x);
    }
  }

  // The nodes of the kernel.  The pointers are the only real state; the ghost field m
  // says what they form.
  class Links {
    ghost var m: Space
    ghost var repr: set<object>

    ghost predicate Valid()
      reads this, repr
    {
      Owned() && Partition(m) && Tied()
    }

    ghost predicate Owned()
      reads this
    {
      this in repr && forall n :: n in m.ringOf ==> n in repr
    }

    // The link fields are as the ghost field has them.
    ghost predicate Tied()
      reads this, repr
      requires Owned()
    {
      && (forall n :: n in m.ringOf ==> n in m.next && n.next == m.next[n])
      && (forall n :: n in m.ringOf ==> n in m.prev && n.prev == m.prev[n])
    }

    constructor ()
      ensures m == Space(map[], map[], map[], map[]) && Valid() && repr == {this}
    {
      m := Space(map[], map[], map[], map[]);
      repr := {this};
    }

    // GYROS__LIST_NODE_INIT
    method Init(n: Node)
      requires Valid() && n !in m.ringOf
      modifies this, n
      ensures Valid() && m == Added(old(m), n) && repr == old(repr) + {n}
    {
      hide Partition;
      AddedPartition(m, n);
      m := Added(m, n);
      repr := repr + {n};
      n.prev := n;
      n.next := n;
      assert Owned();
      assert Tied();
    }

    // gyros__list_empty
    method Empty(list: Node) returns (empty: bool)
      requires Valid() && list in m.rings
      ensures empty == (m.rings[list] == [list])
    {
      assert m.rings[list][0] in m.next && m.rings[list][0] in m.ringOf;
      empty := list.next == list;
    }

    // Node i of ring k, and the one behind it.
    method Next(n: Node, ghost k: Node, ghost i: nat) returns (r: Node)
      requires Valid() && k in m.rings && i < |m.rings[k]| && m.rings[k][i] == n
      ensures r == m.rings[k][Succ(|m.rings[k]|, i)]
    {
      assert m.rings[k][i] in m.next && m.rings[k][i] in m.ringOf;
      r := n.next;
    }

    method Prev(n: Node, ghost k: Node, ghost i: nat) returns (r: Node)
      requires Valid() && k in m.rings && i < |m.rings[k]| && m.rings[k][i] == n
      ensures r == m.rings[k][Pred(|m.rings[k]|, i)]
    {
      assert m.rings[k][i] in m.prev && m.rings[k][i] in m.ringOf;
      r := n.prev;
    }

    // Write one link field.
    method SetNext(n: Node, v: Node)
      requires Owned() && Tied() && n in m.ringOf
      modifies this`m, n`next
      ensures Owned() && Tied() && m == old(m).(next := old(m.next)[n := v])
    {
      n.next := v;
      m := m.(next := m.next[n := v]);
    }

    method SetPrev(n: Node, v: Node)
      requires Owned() && Tied() && n in m.ringOf
      modifies this`m, n`prev
      ensures Owned() && Tied() && m == old(m).(prev := old(m.prev)[n := v])
    {
      n.prev := v;
      m := m.(prev := m.prev[n := v]);
    }

    ghost method SetRings(rings: map<Node, seq<Node>>, ringOf: map<Node, Node>)
      requires Owned() && Tied() && ringOf.Keys == m.ringOf.Keys
      modifies this`m
      ensures Owned() && Tied() && m == old(m).(rings := rings, ringOf := ringOf)
    {
      m := m.(rings := rings, ringOf := ringOf);
    }

    method WriteInsert(newNode: Node, listNode: Node, ghost k: Node, ghost i: nat)
      requires Owned() && Tied()
      requires newNode in m.ringOf && listNode in m.ringOf && listNode in m.prev && m.prev[listNode] in m.ringOf
      requires k in m.rings && i < |m.rings[k]| && m.rings[k][i] == listNode
      modifies repr
      ensures Owned() && Tied() && m == Spliced(old(m), newNode, k, i) && repr == old(repr)
    {
      ghost var m' := Spliced(m, newNode, k, i);
      var prevNode := listNode.prev;
      SetNext(newNode, listNode);
      SetPrev(newNode, prevNode);
      SetPrev(listNode, newNode);
      SetNext(prevNode, newNode);
      SetRings(m'.rings, m'.ringOf);
    }

    method WriteRemove(node: Node, ghost k: Node, ghost i: nat)
      requires Owned() && Tied() && node in m.ringOf && node in m.prev && node in m.next
      requires m.prev[node] in m.ringOf && m.next[node] in m.ringOf
      requires k in m.rings && i < |m.rings[k]| && m.rings[k][i] == node
      modifies repr
      ensures Owned() && Tied() && m == Removed(old(m), k, i) && repr == old(repr)
    {
      ghost var m' := Removed(m, k, i);
      SetNext(node.prev, node.next);
      SetPrev(node.next, node.prev);
      SetNext(node, node);
      SetPrev(node, node);
      SetRings(m'.rings, m'.ringOf);
    }

    // gyros__list_insert_before: splice a self-linked node in front of position i of
    // ring k; position 0 is the head, in front of which is the end of the list.
    method InsertBefore(newNode: Node, listNode: Node, ghost k: Node, ghost i: nat)
      requires Valid()
      requires newNode in m.rings && m.rings[newNode] == [newNode] && k != newNode
      requires k in m.rings && i < |m.rings[k]| && m.rings[k][i] == listNode
      modifies repr
      ensures Valid() && repr == old(repr) && m.ringOf.Keys == old(m.ringOf.Keys)
      ensures m.rings == RingsInsert(old(m.rings), newNode, k, i)
    {
      SplicedPartition(m, newNode, k, i);
      assert m.rings[newNode][0] in m.ringOf;
      hide Partition;
      WriteInsert(newNode, listNode, k, i);
    }

    // gyros__list_remove: unlink a node without naming its list, leaving it
    // self-linked.  Removing a node that is in no list changes nothing.
    method Remove(node: Node, ghost k: Node, ghost i: nat)
      requires Valid() && At(m.rings, k, i, node)
      modifies repr
      ensures Valid() && repr == old(repr) && m.ringOf.Keys == old(m.ringOf.Keys)
      ensures m.rings == RingsRemove(old(m.rings), k, i)
    {
      hide Partition;
      if i > 0 {
        RemovedPartition(m, k, i);
      } else {
        RemoveAlone(m, k);
      }
      WriteRemove(node, k, i);
    }
  }
}
