// What sends and receives do to a queue of messages, in any order: src/mq.c has no limit on
// the number of messages, src/smq.c has.

module Fifos {
  import opened Seqs

  datatype Op<M> = SendOp(m: M) | ReceiveOp

  predicate Room<M>(q: seq<M>, total: Option<nat>) {
    total.Some? ==> |q| < total.value
  }

  // One attempt: it changes nothing when the queue is full, or empty.
  function Step<M>(q: seq<M>, total: Option<nat>, op: Op<M>): seq<M> {
    match op
    case SendOp(m) => if Room(q, total) then q + [m] else q
    case ReceiveOp => if q == [] then q else q[1..]
  }

  function Run<M>(q: seq<M>, total: Option<nat>, ops: seq<Op<M>>): seq<M>
    decreases |ops|
  {
    if ops == [] then q else Run(Step(q, total, ops[0]), total, ops[1..])
  }

  // The messages accepted, and the messages handed out.
  function Sent<M>(q: seq<M>, total: Option<nat>, ops: seq<Op<M>>): seq<M>
    decreases |ops|
  {
    if ops == [] then []
    else (if ops[0].SendOp? && Room(q, total) then [ops[0].m] else []) + Sent(Step(q, total, ops[0]), total, ops[1..])
  }

  function Received<M>(q: seq<M>, total: Option<nat>, ops: seq<Op<M>>): seq<M>
    decreases |ops|
  {
    if ops == [] then []
    else (if ops[0].ReceiveOp? && q != [] then [q[0]] else []) + Received(Step(q, total, ops[0]), total, ops[1..])
  }

  // What has been received, followed by what is queued, is what was queued at first,
  // followed by what has been sent; and the limit is kept.
  lemma {:induction false} Fifo<M>(q: seq<M>, total: Option<nat>, ops: seq<Op<M>>)
    requires total.Some? ==> |q| <= total.value
    ensures q + Sent(q, total, ops) == Received(q, total, ops) + Run(q, total, ops)
    ensures total.Some? ==> |Run(q, total, ops)| <= total.value
    decreases |ops|
  {
    if ops != [] {
      var r, run := Step(q, total, ops[0]), Run(q, total, ops);
      var sent, received := Sent(r, total, ops[1..]), Received(r, total, ops[1..]);
      Fifo(r, total, ops[1..]);
      assert [] + sent == sent && [] + received == received;
      if ops[0].SendOp? && Room(q, total) {
        Assoc(q, [ops[0].m], sent);
      } else if ops[0].ReceiveOp? && q != [] {
        Assoc([q[0]], r, sent);
        Assoc([q[0]], received, run);
        assert q == [q[0]] + r;
      }
    }
  }
}
