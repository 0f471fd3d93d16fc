/** The event queue as its callers see it: a first-in first-out queue with a
    fixed capacity. Everything the ring and the concurrent protocol do is
    measured against this module. */
module EventQueue {
  import opened Wrappers

  /** An event record. Its layout plays no part in the protocol. */
  type Record(==, !new, 0)

  /** The three calls. `Post(None)` is a post of a null record pointer. */
  datatype Op = Post(record: Option<Record>) | Get | Peek

  /** What a completed call hands back. */
  datatype Reply =
    | Accepted | Refused | IllegalArgument
    | Got(record: Record)
    | Seen(record: Record) | NothingToSee

  /** The reply a queue holding `q` owes to `op`; `None` means the call has to wait. */
  function Answer(q: seq<Record>, capacity: nat, op: Op): Option<Reply>
  {
    match op
    case Post(None) => Some(IllegalArgument)
    case Post(Some(_)) => if |q| < capacity then Some(Accepted) else Some(Refused)
    case Get => if q == [] then None else Some(Got(q[0]))
    case Peek => if q == [] then Some(NothingToSee) else Some(Seen(q[0]))
  }

  /** What `op` leaves in the queue. */
  function Remaining(q: seq<Record>, capacity: nat, op: Op): seq<Record>
  {
    match op
    case Post(None) => q
    case Post(Some(r)) => if |q| < capacity then q + [r] else q
    case Get => if q == [] then q else q[1..]
    case Peek => q
  }

  /** The queue after the operations `ops`, one after another. */
  function RemainingAll(q: seq<Record>, capacity: nat, ops: seq<Op>): seq<Record>
    decreases |ops|
  {
    if ops == [] then q
    else Remaining(RemainingAll(q, capacity, ops[..|ops| - 1]), capacity, ops[|ops| - 1])
  }

  /** The replies to the operations `ops`, one after another. */
  function Answers(q: seq<Record>, capacity: nat, ops: seq<Op>): (r: seq<Option<Reply>>)
    ensures |r| == |ops|
    decreases |ops|
  {
    if ops == [] then []
    else
      var before := ops[..|ops| - 1];
      Answers(q, capacity, before)
      + [Answer(RemainingAll(q, capacity, before), capacity, ops[|ops| - 1])]
  }

  // ---------------------------------------------------------------- first in, first out

  /** The records of the posts that were accepted, in order. */
  function AcceptedBy(ops: seq<Op>, replies: seq<Option<Reply>>): seq<Record>
    requires |ops| == |replies|
    decreases |ops|
  {
    if ops == [] then []
    else
      var n := |ops| - 1;
      AcceptedBy(ops[..n], replies[..n])
      + if replies[n] == Some(Accepted) && ops[n].Post? && ops[n].record.Some? then [ops[n].record.value] else []
  }

  /** The records handed to gets, in order. */
  function DeliveredBy(replies: seq<Option<Reply>>): seq<Record>
  {
    if replies == [] then []
    else
      var n := |replies| - 1;
      DeliveredBy(replies[..n])
      + if replies[n].Some? && replies[n].value.Got? then [replies[n].value.record] else []
  }

  /** The reply to one call, when `entered` is everything that has entered the
      queue and the first `left` of it have left. */
  predicate FirstInFirstOut(entered: seq<Record>, left: nat, capacity: nat, op: Op, reply: Option<Reply>)
  {
    && left <= |entered| <= left + capacity
    && match op
       case Post(None) => reply == Some(IllegalArgument)
       case Post(Some(_)) => reply == if |entered| == left + capacity then Some(Refused) else Some(Accepted)
       case Get => reply == if |entered| == left then None else Some(Got(entered[left]))
       case Peek => reply == Some(if |entered| == left then NothingToSee else Seen(entered[left]))
  }

  lemma {:induction false} AnswersPrefix(q: seq<Record>, capacity: nat, ops: seq<Op>, i: nat)
    requires i <= |ops|
    ensures Answers(q, capacity, ops)[..i] == Answers(q, capacity, ops[..i])
    decreases |ops|
  {
    var n := |ops| - 1;
    if i < |ops| {
      AnswersPrefix(q, capacity, ops[..n], i);
      assert ops[..n][..i] == ops[..i];
    } else {
      assert ops[..i] == ops;
    }
  }

  /** One call keeps the balance: `a` accepted, `d` delivered, `r` remaining. */
  lemma CallConserves(q: seq<Record>, a: seq<Record>, d: seq<Record>, r: seq<Record>, capacity: nat, op: Op)
    requires q + a == d + r && |r| <= capacity
    ensures var reply, r' := Answer(r, capacity, op), Remaining(r, capacity, op);
      var more := if reply == Some(Accepted) && op.Post? && op.record.Some? then [op.record.value] else [];
      var gone := if reply.Some? && reply.value.Got? then [reply.value.record] else [];
      q + (a + more) == (d + gone) + r' && |r'| <= capacity
  {
    match op
    case Post(None) => assert a + [] == a && d + [] == d;
    case Post(Some(x)) =>
      assert a + [] == a && d + [] == d;
      assert q + (a + [x]) == (q + a) + [x] && d + (r + [x]) == (d + r) + [x];
    case Get =>
      assert a + [] == a && d + [] == d;
      if r != [] { assert (d + [r[0]]) + r[1..] == d + r; }
    case Peek => assert a + [] == a && d + [] == d;
  }

  /** What was there and what was accepted is what was delivered and what remains. */
  lemma {:induction false} AnswersConserve(q: seq<Record>, capacity: nat, ops: seq<Op>)
    requires |q| <= capacity
    ensures var replies := Answers(q, capacity, ops);
      q + AcceptedBy(ops, replies) == DeliveredBy(replies) + RemainingAll(q, capacity, ops)
    ensures |RemainingAll(q, capacity, ops)| <= capacity
    decreases |ops|
  {
    if ops == [] {
      assert q + [] == [] + q;
    } else {
      hide Answer, Remaining;
      var n, replies := |ops| - 1, Answers(q, capacity, ops);
      AnswersConserve(q, capacity, ops[..n]);
      AnswersPrefix(q, capacity, ops, n);
      CallConserves(q, AcceptedBy(ops[..n], replies[..n]), DeliveredBy(replies[..n]),
                    RemainingAll(q, capacity, ops[..n]), capacity, ops[n]);
    }
  }

  lemma AnswersInOrder(q: seq<Record>, capacity: nat, ops: seq<Op>, i: nat)
    requires |q| <= capacity && i < |ops|
    ensures var replies := Answers(q, capacity, ops);
      FirstInFirstOut(q + AcceptedBy(ops[..i], replies[..i]), |DeliveredBy(replies[..i])|, capacity, ops[i], replies[i])
  {
    var replies := Answers(q, capacity, ops);
    AnswersPrefix(q, capacity, ops, i);
    AnswersPrefix(q, capacity, ops, i + 1);
    assert ops[..i + 1][..i] == ops[..i];
    assert replies[i] == replies[..i + 1][i];
    AnswersConserve(q, capacity, ops[..i]);
    hide AcceptedBy, DeliveredBy, RemainingAll;
  }

  /** Every reply is the first-in first-out reply to what came before it. */
  predicate InOrder(q: seq<Record>, capacity: nat, ops: seq<Op>, replies: seq<Option<Reply>>)
    requires |ops| == |replies|
    decreases |ops|
  {
    ops == [] ||
    var n := |ops| - 1;
    var a, d := AcceptedBy(ops[..n], replies[..n]), DeliveredBy(replies[..n]);
    InOrder(q, capacity, ops[..n], replies[..n]) && FirstInFirstOut(q + a, |d|, capacity, ops[n], replies[n])
  }

  lemma {:induction false} AllInOrder(q: seq<Record>, capacity: nat, ops: seq<Op>)
    requires |q| <= capacity
    ensures InOrder(q, capacity, ops, Answers(q, capacity, ops))
    decreases |ops|
  {
    if ops != [] {
      hide FirstInFirstOut, AcceptedBy, DeliveredBy, Answers;
      var n := |ops| - 1;
      AllInOrder(q, capacity, ops[..n]);
      AnswersPrefix(q, capacity, ops, n);
      AnswersInOrder(q, capacity, ops, n);
    }
  }

  // ---------------------------------------------------------------- waiting

  /** What a get obtains, and what it leaves, when the other threads run the
      batch `others[k]` during its k-th wait. `None`: it is still waiting when
      the batches run out. */
  function Awaited(q: seq<Record>, capacity: nat, others: seq<seq<Op>>): (Option<Record>, seq<Record>)
    decreases |others|
  {
    if q != [] then (Some(q[0]), q[1..])
    else if others == [] then (None, [])
    else Awaited(RemainingAll(q, capacity, others[0]), capacity, others[1..])
  }

  /** The queue after the first `k` batches. */
  function AfterBatches(q: seq<Record>, capacity: nat, others: seq<seq<Op>>, k: nat): seq<Record>
    requires k <= |others|
  {
    if k == 0 then q else RemainingAll(AfterBatches(q, capacity, others, k - 1), capacity, others[k - 1])
  }

  lemma {:induction false} AfterBatchesTail(q: seq<Record>, capacity: nat, others: seq<seq<Op>>, k: nat)
    requires k < |others|
    ensures AfterBatches(q, capacity, others, k + 1)
         == AfterBatches(RemainingAll(q, capacity, others[0]), capacity, others[1..], k)
  {
    if k == 0 {
      assert AfterBatches(q, capacity, others, 0) == q;
    } else {
      AfterBatchesTail(q, capacity, others, k - 1);
      assert others[1..][k - 1] == others[k];
    }
  }

  /** A waiting get stops at the first re-test that finds a record, and takes
      the oldest one of that queue; it is still waiting exactly when no re-test
      finds one. Every schedule has one such `k`. */
  lemma {:induction false} AwaitedIsFirstNonEmpty(q: seq<Record>, capacity: nat, others: seq<seq<Op>>, k: nat)
    requires k <= |others|
    requires forall j: nat :: j < k ==> AfterBatches(q, capacity, others, j) == []
    requires k == |others| || AfterBatches(q, capacity, others, k) != []
    ensures var w := AfterBatches(q, capacity, others, k);
            Awaited(q, capacity, others) == if w == [] then (None, []) else (Some(w[0]), w[1..])
    decreases k
  {
    assert AfterBatches(q, capacity, others, 0) == q;
    if k > 0 {
      var q1 := RemainingAll(q, capacity, others[0]);
      forall j: nat | j < k
        ensures AfterBatches(q, capacity, others, j + 1) == AfterBatches(q1, capacity, others[1..], j)
      {
        AfterBatchesTail(q, capacity, others, j);
      }
      assert AfterBatches(q, capacity, others, (k - 1) + 1) == AfterBatches(q1, capacity, others[1..], k - 1);
      AwaitedIsFirstNonEmpty(q1, capacity, others[1..], k - 1);
    }
  }
}
