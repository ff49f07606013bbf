// Sequence operations shared by the kernel model.

module Seqs {
  datatype Option<+T> = None | Some(value: T)

  ghost predicate Distinct<T>(s: seq<T>) {
    forall i, j :: 0 <= i < j < |s| ==> s[i] != s[j]
  }

  function Without<T>(s: seq<T>, k: nat): (r: seq<T>)
    requires k < |s|
    ensures |r| == |s| - 1
    ensures forall i :: 0 <= i < |r| ==> r[i] == if i < k then s[i] else s[i + 1]
  {
    s[..k] + s[k + 1..]
  }

  function InsertAt<T>(s: seq<T>, k: nat, x: T): (r: seq<T>)
    requires k <= |s|
    ensures |r| == |s| + 1
    ensures forall i :: 0 <= i < |r| ==> r[i] == if i < k then s[i] else if i == k then x else s[i - 1]
  {
    s[..k] + [x] + s[k..]
  }

  lemma InsertMembers<T>(s: seq<T>, p: nat, x: T)
    requires p <= |s|
    ensures forall y :: y in InsertAt(s, p, x) <==> y == x || y in s
    ensures Distinct(s) && x !in s ==> Distinct(InsertAt(s, p, x))
  {
    var r := InsertAt(s, p, x);
    forall y | y in s ensures y in r {
      var j :| 0 <= j < |s| && s[j] == y;
      assert r[if j < p then j else j + 1] == y;
    }
    assert r[p] == x;
  }

  lemma WithoutMembers<T>(s: seq<T>, p: nat)
    requires p < |s| && Distinct(s)
    ensures forall y :: y in Without(s, p) <==> y in s && y != s[p]
    ensures Distinct(Without(s, p))
  {
    var r := Without(s, p);
    forall y | y in s && y != s[p] ensures y in r {
      var j :| 0 <= j < |s| && s[j] == y;
      assert r[if j < p then j else j - 1] == y;
    }
  }

  // The first position of x.
  function IndexOf<T(==)>(s: seq<T>, x: T): (i: nat)
    requires x in s
    ensures i < |s| && s[i] == x && forall j :: 0 <= j < i ==> s[j] != x
  {
    if s[0] == x then 0 else 1 + IndexOf(s[1..], x)
  }

  // s without its first occurrence of x.
  function Drop<T(==)>(s: seq<T>, x: T): seq<T> {
    if x in s then Without(s, IndexOf(s, x)) else s
  }

  lemma DropMembers<T>(s: seq<T>, x: T)
    requires Distinct(s)
    ensures Distinct(Drop(s, x))
    ensures forall y :: y in Drop(s, x) <==> y in s && y != x
  {
    if x in s {
      WithoutMembers(s, IndexOf(s, x));
    }
  }

  // Taking out an inserted element restores the sequence.
  lemma DropInsert<T>(s: seq<T>, p: nat, x: T)
    requires p <= |s| && x !in s
    ensures Drop(InsertAt(s, p, x), x) == s
  {
    var r := InsertAt(s, p, x);
    assert r[p] == x;
    forall j | 0 <= j < |r| && j != p ensures r[j] != x {
      assert r[j] == s[if j < p then j else j - 1];
    }
    assert IndexOf(r, x) == p;
  }

  // Reversal, as produced by inserting one at a time in front of a fixed node.
  function Reverse<T>(s: seq<T>): (r: seq<T>)
    ensures |r| == |s|
    ensures forall i :: 0 <= i < |s| ==> r[i] == s[|s| - 1 - i]
  {
    if s == [] then [] else Reverse(s[1..]) + [s[0]]
  }

  lemma Assoc<T>(a: seq<T>, b: seq<T>, c: seq<T>)
    ensures (a + b) + c == a + (b + c)
  {
  }
}
