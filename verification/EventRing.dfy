/** The array representation: a ring of slots with one slot always free,
    and the class that updates it in place. */
module EventRing {
  import opened Wrappers
  import opened EventQueue
  import opened Modular

  /** The records in the live window of the ring, oldest first. */
  function Live(slots: seq<Record>, head: nat, tail: nat): seq<Record>
    requires head < |slots| && tail < |slots|
  {
    if head <= tail then slots[head..tail] else slots[head..] + slots[..tail]
  }

  function Successor(slots: seq<Record>, index: nat): (next: nat)
    requires index < |slots|
    ensures next < |slots|
  {
    (index + 1) % |slots|
  }

  /** The window has (tail - head) mod N records, and its i-th record sits in
      slot (head + i) mod N. */
  lemma WindowShape(slots: seq<Record>, head: nat, tail: nat)
    requires head < |slots| && tail < |slots|
    ensures |Live(slots, head, tail)| == (tail - head) % |slots| < |slots|
    ensures forall i: nat :: i < |Live(slots, head, tail)| ==>
              Live(slots, head, tail)[i] == slots[(head + i) % |slots|]
  {
    var n := |slots|;
    if head <= tail {
      SmallMod(tail - head, n);
    } else {
      WrapMod(tail - head, n);
    }
    forall i: nat | i < |Live(slots, head, tail)|
      ensures Live(slots, head, tail)[i] == slots[(head + i) % n]
    {
      if head + i < n { SmallMod(head + i, n); } else { SubMod(head + i, n); }
    }
  }

  lemma SuccessorCases(slots: seq<Record>, index: nat)
    requires index < |slots|
    ensures Successor(slots, index) == if index + 1 == |slots| then 0 else index + 1
  {
    if index + 1 < |slots| { SmallMod(index + 1, |slots|); } else { SubMod(index + 1, |slots|); }
  }

  /** The fullness test of a post holds exactly when N - 1 records are queued. */
  lemma FullExactly(slots: seq<Record>, head: nat, tail: nat)
    requires 2 <= |slots| && head < |slots| && tail < |slots|
    ensures Successor(slots, tail) == head <==> |Live(slots, head, tail)| == |slots| - 1
    ensures |Live(slots, head, tail)| <= |slots| - 1
  {
    SuccessorCases(slots, tail);
  }

  lemma EmptyExactly(slots: seq<Record>, head: nat, tail: nat)
    requires head < |slots| && tail < |slots|
    ensures head == tail <==> Live(slots, head, tail) == []
  {}

  /** Writing the free slot changes nothing that can be read. */
  lemma StoreInvisible(slots: seq<Record>, head: nat, tail: nat, r: Record)
    requires head < |slots| && tail < |slots|
    ensures Live(slots[tail := r], head, tail) == Live(slots, head, tail)
  {}

  lemma WindowAt(slots: seq<Record>, n: nat, head: nat, tail: nat, i: nat)
    requires head < |slots| == n && tail < n && i < |Live(slots, head, tail)|
    ensures Live(slots, head, tail)[i] == slots[(head + i) % n]
  {
    WindowShape(slots, head, tail);
  }

  /** No slot of the window is the free slot. */
  lemma StoreMissesWindow(slots: seq<Record>, head: nat, tail: nat, r: Record, i: nat)
    requires head < |slots| && tail < |slots| && i < |Live(slots, head, tail)|
    ensures slots[tail := r][(head + i) % |slots|] == slots[(head + i) % |slots|] == Live(slots, head, tail)[i]
  {
    hide Live;
    StoreInvisible(slots, head, tail, r);
    WindowAt(slots, |slots|, head, tail, i);
    WindowAt(slots[tail := r], |slots|, head, tail, i);
  }

  /** Advancing the tail over a written slot appends that slot's record. */
  lemma PublishAppends(slots: seq<Record>, head: nat, tail: nat)
    requires 2 <= |slots| && head < |slots| && tail < |slots|
    requires Successor(slots, tail) != head
    ensures Live(slots, head, Successor(slots, tail)) == Live(slots, head, tail) + [slots[tail]]
  {
    SuccessorCases(slots, tail);
  }

  /** Advancing the head drops the oldest record, which sits in the head slot. */
  lemma TakeDropsFirst(slots: seq<Record>, head: nat, tail: nat)
    requires 2 <= |slots| && head < |slots| && tail < |slots|
    requires head != tail
    ensures Live(slots, head, tail) != []
    ensures Live(slots, head, tail)[0] == slots[head]
    ensures Live(slots, Successor(slots, head), tail) == Live(slots, head, tail)[1..]
  {
    SuccessorCases(slots, head);
  }

  /** The static ring of the pipeline, with the body each call runs while it
      holds the mutex. */
  class Ring {
    const slots: array<Record>
    var head: nat
    var tail: nat

    ghost predicate Valid()
      reads this
    {
      2 <= slots.Length && head < slots.Length && tail < slots.Length
    }

    ghost function Contents(): seq<Record>
      requires Valid()
      reads this, slots
    {
      Live(slots[..], head, tail)
    }

    constructor (size: nat)
      requires 2 <= size
      ensures Valid() && fresh(slots) && slots.Length == size
      ensures Contents() == []
    {
      slots := new Record[size];
      head, tail := 0, 0;
    }

    /** Refused exactly when N - 1 records are queued, a null record apart; an
        accepted record goes to the end. */
    method Post(record: Option<Record>) returns (reply: Reply)
      requires Valid()
      modifies this`tail, slots
      ensures Valid()
      ensures reply == IllegalArgument <==> record == None
      ensures reply == Refused <==> record.Some? && |old(Contents())| == slots.Length - 1
      ensures reply == Accepted <==> record.Some? && |old(Contents())| < slots.Length - 1
      ensures Contents() == if reply == Accepted then old(Contents()) + [record.value] else old(Contents())
      ensures Answer(old(Contents()), slots.Length - 1, EventQueue.Post(record)) == Some(reply)
      ensures Contents() == Remaining(old(Contents()), slots.Length - 1, EventQueue.Post(record))
      ensures forall i :: 0 <= i < slots.Length && i != old(tail) ==> slots[i] == old(slots[i])
    {
      if record == None { return IllegalArgument; }
      FullExactly(slots[..], head, tail);
      var next := (tail + 1) % slots.Length;
      if next == head { return Refused; }
      ghost var before := slots[..];
      slots[tail] := record.value;
      assert slots[..] == before[tail := record.value];
      StoreInvisible(before, head, tail, record.value);
      PublishAppends(slots[..], head, tail);
      tail := next;
      return Accepted;
    }

    /** The get's body once its wait loop has ended. */
    method Take() returns (record: Record)
      requires Valid() && head != tail
      modifies this`head
      ensures Valid()
      ensures old(Contents()) == [record] + Contents()
    {
      TakeDropsFirst(slots[..], head, tail);
      record := slots[head];
      head := (head + 1) % slots.Length;
    }

    method Peek() returns (reply: Reply)
      requires Valid()
      ensures reply == if Contents() == [] then NothingToSee else Seen(Contents()[0])
      ensures Answer(Contents(), slots.Length - 1, EventQueue.Peek) == Some(reply)
    {
      if head == tail { return NothingToSee; }
      TakeDropsFirst(slots[..], head, tail);
      return Seen(slots[head]);
    }

    method Init()
      requires Valid()
      modifies this
      ensures Valid() && Contents() == []
    {
      head := 0;
      tail := 0;
    }

    /** One call by some thread that finds the mutex free. A get that would
        have to wait leaves the ring alone. */
    method Perform(op: Op) returns (reply: Option<Reply>)
      requires Valid()
      modifies this, slots
      ensures Valid()
      ensures reply == Answer(old(Contents()), slots.Length - 1, op)
      ensures Contents() == Remaining(old(Contents()), slots.Length - 1, op)
    {
      match op
      case Post(record) =>
        var r := Post(record);
        reply := Some(r);
      case Get =>
        EmptyExactly(slots[..], head, tail);
        if head == tail { return None; }
        var r := Take();
        reply := Some(Got(r));
      case Peek =>
        var r := Peek();
        reply := Some(r);
    }

    /** Any sequence of calls on the ring answers as the bounded queue does. What
        was queued and what was accepted is what was delivered, in that order, and
        what is queued; a post is refused exactly when that leaves N - 1 queued at
        the time, a get waits exactly when it leaves none, and a peek sees the next
        to be delivered. */
    method PerformAll(ops: seq<Op>) returns (replies: seq<Option<Reply>>)
      requires Valid()
      modifies this, slots
      ensures Valid() && |replies| == |ops|
      ensures old(Contents()) + AcceptedBy(ops, replies) == DeliveredBy(replies) + Contents()
      ensures InOrder(old(Contents()), slots.Length - 1, ops, replies)
      ensures replies == Answers(old(Contents()), slots.Length - 1, ops)
      ensures Contents() == RemainingAll(old(Contents()), slots.Length - 1, ops)
    {
      ghost var before := Contents();
      assert |before| <= slots.Length - 1 by { FullExactly(slots[..], head, tail); }
      hide Live, AcceptedBy, DeliveredBy, InOrder;
      replies := [];
      for i := 0 to |ops|
        invariant Valid()
        invariant replies == Answers(before, slots.Length - 1, ops[..i])
        invariant Contents() == RemainingAll(before, slots.Length - 1, ops[..i])
      {
        var reply := Perform(ops[i]);
        assert ops[..i + 1][..i] == ops[..i];
        replies := replies + [reply];
      }
      assert ops[..|ops|] == ops;
      hide Answers, RemainingAll;
      AnswersConserve(before, slots.Length - 1, ops);
      AllInOrder(before, slots.Length - 1, ops);
    }

    /** The blocking get. `others[k]` is what the other threads do while this
        call has given the mutex up for the k-th time. */
    method GetNext(others: seq<seq<Op>>) returns (record: Option<Record>)
      requires Valid()
      modifies this, slots
      ensures Valid()
      ensures (record, Contents()) == Awaited(old(Contents()), slots.Length - 1, others)
    {
      var k := 0;
      EmptyExactly(slots[..], head, tail);
      while head == tail && k < |others|
        invariant Valid() && k <= |others|
        invariant head == tail <==> Contents() == []
        invariant Awaited(Contents(), slots.Length - 1, others[k..])
               == Awaited(old(Contents()), slots.Length - 1, others)
      {
        var _ := PerformAll(others[k]);
        assert others[k..][1..] == others[k + 1..];
        k := k + 1;
        EmptyExactly(slots[..], head, tail);
      }
      if head == tail { return None; }
      var r := Take();
      record := Some(r);
    }
  }
}
