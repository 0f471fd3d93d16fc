/** What every interleaving keeps: mutual exclusion, agreement between each
    thread's position and the ring, and no lost wakeup. */
module PipelineSafety {
  import opened Wrappers
  import opened EventQueue
  import opened EventRing
  import opened Pipeline

  /** Positions at which a thread has the mutex. */
  predicate InSection(c: PC)
  {
    || c.Testing? || c.Room? || c.Stored? || c.Published? || c.AboutToWait?
    || c.Found? || c.Copied? || c.Unlocking?
  }

  /** A blocked get that was woken and has not yet taken a record or blocked again. */
  predicate Awake(c: PC)
  {
    c.Relocking? || ((c.Testing? || c.Found? || c.Copied?) && c.woken)
  }

  function WaitingWeight(c: PC): nat { if c.Waiting? then 1 else 0 }
  function AwakeWeight(c: PC): nat { if Awake(c) then 1 else 0 }
  function UnsignalledWeight(c: PC): nat { if c.Published? then 1 else 0 }

  function Waiters(s: State): nat { Sum(s.pc, WaitingWeight) }
  function Awakened(s: State): nat { Sum(s.pc, AwakeWeight) }
  function Unsignalled(s: State): nat { Sum(s.pc, UnsignalledWeight) }

  predicate Replies(op: Op, reply: Reply)
  {
    match op
    case Post(None) => reply == IllegalArgument
    case Post(Some(_)) => reply == Accepted || reply == Refused
    case Get => reply.Got?
    case Peek => reply.Seen? || reply.NothingToSee?
  }

  /** What a thread may rely on at its position. */
  predicate Agrees(s: State, c: PC)
    requires Shaped(s)
  {
    match c
    case Locking(op) => op != Post(None)
    case Testing(op, woken) => op != Post(None) && (woken ==> op == Get)
    case Room(_, next) => next == Successor(s.slots, s.tail) && next != s.head
    case Stored(r, next) => next == Successor(s.slots, s.tail) && next != s.head && s.slots[s.tail] == r
    case AboutToWait => s.head == s.tail
    case Found(op, woken) => s.head != s.tail && !op.Post? && (woken ==> op == Get)
    case Copied(r, _) => s.head != s.tail && s.slots[s.head] == r
    case Unlocking(op, reply) => Replies(op, reply)
    case Returning(op, reply) => Replies(op, reply)
    case _ => true
  }

  predicate MutexHeld(s: State)
  {
    && (s.owner.Some? ==> s.owner.value < |s.pc|)
    && forall t: Thread :: t < |s.pc| ==> (InSection(s.pc[t]) <==> s.owner == Some(t))
  }

  predicate AllAgree(s: State)
    requires Shaped(s)
  {
    forall t: Thread :: t < |s.pc| ==> Agrees(s, s.pc[t])
  }

  /** While a get is blocked, every queued record has a woken get coming for
      it, or a post that is still to signal. */
  predicate NoLostWakeup(s: State)
    requires Shaped(s)
  {
    Waiters(s) > 0 ==> |Queue(s)| <= Awakened(s) + Unsignalled(s)
  }

  predicate Inv(s: State)
  {
    Shaped(s) && MutexHeld(s) && AllAgree(s) && NoLostWakeup(s)
  }

  lemma InitialInv(s: State)
    requires Initial(s)
    ensures Inv(s)
  {
    SumPositive(s.pc, WaitingWeight);
  }

  lemma MutexKept(s: State, l: Step)
    requires Inv(s) && Enabled(s, l)
    ensures MutexHeld(Apply(s, l))
  {}

  /** A thread outside the critical section relies on nothing in the ring. */
  lemma OthersAgree(s: State, l: Step, t: Thread)
    requires Inv(s) && Enabled(s, l) && t < |s.pc| && (l.Init? || t != l.t)
    ensures Agrees(Apply(s, l), Apply(s, l).pc[t])
  {
    assert Agrees(s, s.pc[t]);
    assert l.Call? || l.Acquire? || l.WakeUp? || l.Return? || !InSection(s.pc[t]);
    hide Inv, Successor;
  }

  lemma MoverAgrees(s: State, l: Step)
    requires Inv(s) && Enabled(s, l) && !l.Init?
    ensures Agrees(Apply(s, l), Apply(s, l).pc[l.t])
  {
    assert Agrees(s, s.pc[l.t]);
    hide Inv, Successor;
  }

  lemma AgreementKept(s: State, l: Step)
    requires Inv(s) && Enabled(s, l)
    ensures AllAgree(Apply(s, l))
  {
    hide Enabled, Apply, Agrees, NoLostWakeup;
    forall t: Thread | t < |Apply(s, l).pc|
      ensures Agrees(Apply(s, l), Apply(s, l).pc[t])
    {
      if l.Init? || t != l.t { OthersAgree(s, l, t); } else { MoverAgrees(s, l); }
    }
  }

  /** How one step changes the length of the queue. */
  lemma QueueAfter(s: State, l: Step)
    requires Inv(s) && Enabled(s, l)
    ensures Queue(Apply(s, l)) == match l
      case Publish(t) => Queue(s) + [s.pc[t].record]
      case Take(_) => Queue(s)[1..]
      case Init => []
      case _ => Queue(s)
    ensures l.Take? ==> Queue(s) != [] && Queue(s)[0] == s.pc[l.t].record
    ensures l.Copy? ==> Queue(s) != [] && Queue(s)[0] == s.slots[s.head]
    ensures |Queue(s)| <= |s.slots| - 1
  {
    FullExactly(s.slots, s.head, s.tail);
    match l
    case Store(t) => StoreInvisible(s.slots, s.head, s.tail, s.pc[t].record);
    case Publish(t) => PublishAppends(s.slots, s.head, s.tail);
    case Take(t) => TakeDropsFirst(s.slots, s.head, s.tail);
    case Copy(t) => TakeDropsFirst(s.slots, s.head, s.tail);
    case _ =>
  }

  /** How one step by a single thread changes a sum. */
  lemma SumAfter(s: State, l: Step, weight: PC -> nat)
    requires Inv(s) && Enabled(s, l) && !l.Init?
    ensures var s' := Apply(s, l);
      Sum(s'.pc, weight) + weight(s.pc[l.t]) == Sum(s.pc, weight) + weight(s'.pc[l.t])
        + if l.Signal? then Members(l.woken, |s.pc|) * (weight(Relocking) - weight(Waiting)) else 0
  {
    var s' := Apply(s, l);
    if l.Signal? {
      SumWoken(s.pc, l.woken, weight);
      assert s.pc[l.t] == Woken(s.pc, l.woken)[l.t];
      SumUpdate(Woken(s.pc, l.woken), l.t, s'.pc[l.t], weight);
    } else {
      assert s'.pc == s.pc[l.t := s'.pc[l.t]];
      SumUpdate(s.pc, l.t, s'.pc[l.t], weight);
    }
  }

  /** How a signal by `l.t` changes a sum, with the multiplication done. */
  lemma SumAfterSignal(s: State, l: Step, weight: PC -> nat, gain: int)
    requires Inv(s) && Enabled(s, l) && l.Signal? && weight(Relocking) - weight(Waiting) == gain
    ensures var s' := Apply(s, l);
      Sum(s'.pc, weight) + weight(s.pc[l.t]) == Sum(s.pc, weight) + weight(s'.pc[l.t]) + gain * Members(l.woken, |s.pc|)
  {
    hide Inv, Enabled, Apply, Sum, Members;
    SumAfter(s, l, weight);
    var k := Members(l.woken, |s.pc|);
    assert k * (weight(Relocking) - weight(Waiting)) == gain * k;
  }

  lemma SignalMoves(s: State, l: Step)
    requires Inv(s) && Enabled(s, l) && l.Signal?
    ensures l.t < |s.pc| == |Apply(s, l).pc| && s.pc[l.t].Published? && Apply(s, l).pc[l.t].Unlocking?
  {}

  /** A signal turns a post's debt into woken gets. */
  lemma SignalPays(s: State, l: Step)
    requires Inv(s) && Enabled(s, l) && l.Signal?
    ensures var s', k := Apply(s, l), Members(l.woken, |s.pc|);
      && Waiters(s') == Waiters(s) - k
      && Awakened(s') == Awakened(s) + k
      && Unsignalled(s') == Unsignalled(s) - 1
      && (Waiters(s) > 0 ==> k >= 1)
  {
    hide Inv, Enabled, Apply, Sum, Members;
    SignalMoves(s, l);
    if Waiters(s) > 0 { SignalWakes(s, l); }
    SumAfterSignal(s, l, WaitingWeight, -1);
    SumAfterSignal(s, l, AwakeWeight, 1);
    SumAfterSignal(s, l, UnsignalledWeight, 0);
  }

  lemma SignalWakes(s: State, l: Step)
    requires Inv(s) && Enabled(s, l) && l.Signal? && Waiters(s) > 0
    ensures Members(l.woken, |s.pc|) >= 1
  {
    if l.woken == {} {
      SumPositive(s.pc, WaitingWeight);
    } else {
      var w :| w in l.woken;
      MembersPositive(l.woken, |s.pc|, w);
    }
  }

  /** Every other step: what a thread gives up in the sums it makes up for in
      the queue. */
  lemma WakeupsKept(s: State, l: Step)
    requires Inv(s) && Enabled(s, l)
    ensures NoLostWakeup(Apply(s, l))
  {
    if l.Signal? {
      SignalPays(s, l);
      QueueAfter(s, l);
    } else if !l.Init? {
      var s' := Apply(s, l);
      var c, c' := s.pc[l.t], s'.pc[l.t];
      assert |Queue(s')| + UnsignalledWeight(c) + AwakeWeight(c)
          <= |Queue(s)| + UnsignalledWeight(c') + AwakeWeight(c') || |Queue(s')| == 0
        by { QueueAfter(s, l); EmptyExactly(s.slots, s.head, s.tail); }
      assert WaitingWeight(c') <= WaitingWeight(c) || |Queue(s')| == 0
        by { QueueAfter(s, l); EmptyExactly(s.slots, s.head, s.tail); }
      SumAfter(s, l, WaitingWeight);
      SumAfter(s, l, AwakeWeight);
      SumAfter(s, l, UnsignalledWeight);
    } else {
      QueueAfter(s, l);
    }
  }

  lemma InvKept(s: State, l: Step)
    requires Inv(s) && Enabled(s, l)
    ensures Inv(Apply(s, l))
  {
    MutexKept(s, l);
    AgreementKept(s, l);
    WakeupsKept(s, l);
  }

  lemma {:induction false} InvAlong(s: State, steps: seq<Step>)
    requires Inv(s) && Run(s, steps)
    ensures Inv(After(s, steps))
    decreases |steps|
  {
    if steps != [] {
      InvAlong(s, steps[..|steps| - 1]);
      InvKept(After(s, steps[..|steps| - 1]), steps[|steps| - 1]);
    }
  }

  // ---------------------------------------------------------------- theorems

  /** No lost wakeup, in every state of every interleaving: whenever some get
      is blocked, the queued records are covered one for one by woken gets that
      have not finished or blocked again, save for at most one record whose
      post still holds the mutex and is about to signal. */
  lemma NoWakeupIsLost(s: State, steps: seq<Step>, w: Thread)
    requires Initial(s) && Run(s, steps)
    requires w < |s.pc| && After(s, steps).pc[w] == Waiting
    ensures var s' := After(s, steps);
      && |Queue(s')| <= Awakened(s') + Unsignalled(s')
      && Unsignalled(s') <= 1
      && (Unsignalled(s') == 1 ==> s'.owner.Some? && s'.owner.value < |s'.pc| && s'.pc[s'.owner.value].Published?)
  {
    var s' := After(s, steps);
    InitialInv(s);
    InvAlong(s, steps);
    SumPositive(s'.pc, WaitingWeight);
    assert WaitingWeight(s'.pc[w]) > 0;
    OneUnsignalled(s');
  }

  lemma OneUnsignalled(s: State)
    requires Inv(s)
    ensures Unsignalled(s)
         == if s.owner.Some? && s.pc[s.owner.value].Published? then 1 else 0
  {
    SumPositive(s.pc, UnsignalledWeight);
    if t: Thread :| t < |s.pc| && UnsignalledWeight(s.pc[t]) > 0 {
      assert s.owner == Some(t);
      var quiet := s.pc[t := Idle];
      SumUpdate(s.pc, t, Idle, UnsignalledWeight);
      SumPositive(quiet, UnsignalledWeight);
    }
  }

  /** Steps that read or write the ring, its indices or the condition, or give
      the mutex up. */
  predicate UsesRing(l: Step)
  {
    l.Test? || l.Store? || l.Publish? || l.Signal? || l.Wait? || l.Copy? || l.Take? || l.Unlock?
  }

  /** Lock discipline, in every state of every interleaving: at most one thread
      is inside a critical section; only that thread can touch the ring, so a
      woken get re-tests the indices only with the mutex back in hand; nobody
      else's step changes the ring; waiting and unlocking give the mutex up; no
      thread outside a critical section owns it. */
  lemma LockDiscipline(s: State, steps: seq<Step>, l: Step)
    requires Initial(s) && Run(s, steps) && Enabled(After(s, steps), l)
    ensures var a := After(s, steps);
      var b := Apply(a, l);
      && (forall t: Thread, u: Thread :: t < |a.pc| && u < |a.pc| && InSection(a.pc[t]) && InSection(a.pc[u]) ==> t == u)
      && (UsesRing(l) ==> a.owner == Some(l.t))
      && ((a.slots, a.head, a.tail) != (b.slots, b.head, b.tail) ==> l.Init? || a.owner == Some(l.t))
      && (l.Wait? || l.Unlock? ==> b.owner == None)
      && (forall t: Thread :: t < |b.pc| && !InSection(b.pc[t]) ==> b.owner != Some(t))
  {
    hide Run, After, NoLostWakeup, AllAgree;
    InitialInv(s);
    InvAlong(s, steps);
    InvKept(After(s, steps), l);
  }
}
