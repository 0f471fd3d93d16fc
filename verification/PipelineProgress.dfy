/** Progress: once callers stop calling and nobody is woken for no reason, the
    pipeline settles in a bounded number of steps, whatever the schedule and
    however many threads each signal wakes. */
module PipelineProgress {
  import opened Wrappers
  import opened EventQueue
  import opened EventRing
  import opened Pipeline
  import opened PipelineSafety

  /** No new call, no spurious wakeup, no initialisation. */
  predicate Settling(l: Step)
  {
    !l.Call? && !l.WakeUp? && !l.Init?
  }

  predicate AllSettling(steps: seq<Step>)
  {
    forall i :: 0 <= i < |steps| ==> Settling(steps[i])
  }

  // ---------------------------------------------------------------- the measure

  /** How far a thread is from the end of its call, or from blocking. */
  function Distance(c: PC): nat
  {
    match c
    case Idle => 0
    case Waiting => 0
    case Returning(_, _) => 1
    case AboutToWait => 1
    case Unlocking(_, _) => 2
    case Published(_) => 3
    case Copied(_, _) => 3
    case Stored(_, _) => 4
    case Found(_, _) => 4
    case Room(_, _) => 5
    case Testing(_, _) => 6
    case Locking(_) => 7
    case Relocking => 7
  }

  /** Posts that may still signal. */
  function PostWeight(c: PC): nat
  {
    match c
    case Locking(op) => if op.Post? then 1 else 0
    case Testing(op, _) => if op.Post? then 1 else 0
    case Room(_, _) => 1
    case Stored(_, _) => 1
    case Published(_) => 1
    case _ => 0
  }

  /** Each post still to signal can send every blocked thread round once more. */
  function Bound(s: State): nat
  {
    Sum(s.pc, Distance) + Sum(s.pc, PostWeight) * (7 * |s.pc|)
  }

  lemma SignalFalls(s: State, l: Step)
    requires Inv(s) && Enabled(s, l) && l.Signal?
    ensures Bound(Apply(s, l)) < Bound(s)
  {
    hide Inv, Enabled, Apply, Sum, Members;
    SignalMoves(s, l);
    var k := Members(l.woken, |s.pc|);
    SumAfterSignal(s, l, Distance, 7);
    SumAfterSignal(s, l, PostWeight, 0);
    SignalArithmetic(Sum(s.pc, Distance), Sum(s.pc, PostWeight), k, |s.pc|);
  }

  lemma SignalArithmetic(d: nat, p: int, k: nat, n: nat)
    requires k <= n
    ensures d - 1 + 7 * k + (p - 1) * (7 * n) < d + p * (7 * n)
  {
    var m := 7 * n;
    assert (p - 1) * m == p * m - m;
  }

  lemma BoundFalls(s: State, l: Step)
    requires Inv(s) && Enabled(s, l) && Settling(l)
    ensures Bound(Apply(s, l)) < Bound(s)
  {
    if l.Signal? {
      SignalFalls(s, l);
    } else {
      var s' := Apply(s, l);
      SumAfter(s, l, Distance);
      SumAfter(s, l, PostWeight);
      var c, c' := s.pc[l.t], s'.pc[l.t];
      assert Agrees(s, c);
      assert Distance(c') < Distance(c) && PostWeight(c') <= PostWeight(c);
      hide Sum, Inv, Apply, Enabled;
      var p, p', n := Sum(s.pc, PostWeight), Sum(s'.pc, PostWeight), 7 * |s.pc|;
      assert p' * n <= p * n by { ProductMonotone(p', p, n); }
    }
  }

  lemma ProductMonotone(a: nat, b: nat, n: nat)
    requires a <= b
    ensures a * n <= b * n
  {}

  /** Every settling run is finite, with an explicit bound. */
  lemma {:induction false} SettlingIsBounded(s: State, steps: seq<Step>)
    requires Inv(s) && Run(s, steps) && AllSettling(steps)
    ensures |steps| + Bound(After(s, steps)) <= Bound(s)
    decreases |steps|
  {
    hide Enabled, Apply, Bound, Inv;
    if steps != [] {
      var before := steps[..|steps| - 1];
      SettlingIsBounded(s, before);
      InvAlong(s, before);
      BoundFalls(After(s, before), steps[|steps| - 1]);
    }
  }

  // ---------------------------------------------------------------- where it stops

  /** The mutex is free and every thread is outside the calls or blocked. */
  predicate Settled(s: State)
  {
    s.owner == None && forall t: Thread :: t < |s.pc| ==> s.pc[t].Idle? || s.pc[t].Waiting?
  }

  /** No deadlock: short of a settled state, some thread can move. */
  lemma SomeStep(s: State) returns (l: Step)
    requires Inv(s) && !Settled(s)
    ensures Settling(l) && Enabled(s, l)
  {
    if s.owner.Some? {
      var t := s.owner.value;
      assert InSection(s.pc[t]);
      match s.pc[t]
      case Testing(_, _) => l := Test(t);
      case Room(_, _) => l := Store(t);
      case Stored(_, _) => l := Publish(t);
      case Published(_) =>
        var blocked := set w: Thread | w < |s.pc| && s.pc[w].Waiting?;
        assert forall w: Thread :: w < |s.pc| && s.pc[w].Waiting? ==> w in blocked;
        l := Signal(t, blocked);
      case AboutToWait => l := Wait(t);
      case Found(_, _) => l := Copy(t);
      case Copied(_, _) => l := Take(t);
      case Unlocking(_, _) => l := Unlock(t);
    } else {
      var t: Thread :| t < |s.pc| && !s.pc[t].Idle? && !s.pc[t].Waiting?;
      assert !InSection(s.pc[t]);
      if s.pc[t].Returning? { l := Return(t); } else { l := Acquire(t); }
    }
  }

  /** A settling run can go on exactly until the state is settled. */
  lemma SettledExactly(s: State)
    requires Inv(s)
    ensures Settled(s) <==> forall l :: Settling(l) ==> !Enabled(s, l)
  {
    if !Settled(s) {
      var l := SomeStep(s);
    }
  }

  // ---------------------------------------------------------------- what it delivers

  /** A get that has not taken its record yet. */
  function OpenGetWeight(c: PC): nat
  {
    match c
    case Locking(op) => if op == Get then 1 else 0
    case Testing(op, _) => if op == Get then 1 else 0
    case Found(op, _) => if op == Get then 1 else 0
    case AboutToWait => 1
    case Waiting => 1
    case Relocking => 1
    case Copied(_, _) => 1
    case _ => 0
  }

  function OpenGets(s: State): nat { Sum(s.pc, OpenGetWeight) }

  function Taken(steps: seq<Step>): nat
  {
    if steps == [] then 0
    else Taken(steps[..|steps| - 1]) + if steps[|steps| - 1].Take? then 1 else 0
  }

  function Posted(steps: seq<Step>): nat
  {
    if steps == [] then 0
    else Posted(steps[..|steps| - 1]) + if steps[|steps| - 1].Publish? then 1 else 0
  }

  lemma OpenGetsAfter(s: State, l: Step)
    requires Inv(s) && Enabled(s, l) && Settling(l)
    ensures OpenGets(Apply(s, l)) == OpenGets(s) - if l.Take? then 1 else 0
  {
    var c, c' := s.pc[l.t], Apply(s, l).pc[l.t];
    assert OpenGetWeight(c') == OpenGetWeight(c) - (if l.Take? then 1 else 0) by {
      assert Agrees(s, c);
      hide Sum, Inv;
    }
    hide Inv, Enabled, Apply, Sum, Members;
    if l.Signal? { SumAfterSignal(s, l, OpenGetWeight, 0); } else { SumAfter(s, l, OpenGetWeight); }
  }

  /** Along a settling run every take closes one open get and removes one
      record, and every publication adds one. */
  lemma {:induction false} Flow(s: State, steps: seq<Step>)
    requires Inv(s) && Run(s, steps) && AllSettling(steps)
    ensures OpenGets(After(s, steps)) + Taken(steps) == OpenGets(s)
    ensures |Queue(After(s, steps))| + Taken(steps) == |Queue(s)| + Posted(steps)
    decreases |steps|
  {
    hide Enabled, Apply, Inv, OpenGets, Queue;
    if steps != [] {
      var before, l := steps[..|steps| - 1], steps[|steps| - 1];
      Flow(s, before);
      InvAlong(s, before);
      OpenGetsAfter(After(s, before), l);
      QueueAfter(After(s, before), l);
    }
  }

  lemma {:induction false} SumSame(pc: seq<PC>, f: PC -> nat, g: PC -> nat)
    requires forall t: Thread :: t < |pc| ==> f(pc[t]) == g(pc[t])
    ensures Sum(pc, f) == Sum(pc, g)
  {
    if pc != [] {
      assert forall t: Thread :: t < |pc| - 1 ==> pc[..|pc| - 1][t] == pc[t];
      SumSame(pc[..|pc| - 1], f, g);
    }
  }

  /** A settled state leaves no record beside a blocked get. */
  lemma SettledCounts(s: State)
    requires Inv(s) && Settled(s)
    ensures OpenGets(s) == Waiters(s)
    ensures Waiters(s) > 0 ==> Queue(s) == []
  {
    SumSame(s.pc, OpenGetWeight, WaitingWeight);
    SumPositive(s.pc, AwakeWeight);
    SumPositive(s.pc, UnsignalledWeight);
  }

  function Min(a: nat, b: nat): nat { if a <= b then a else b }

  /** Progress, from any reachable state, with any calls in flight: every run
      of settling steps is bounded; it can stop only in a settled state; there,
      with k records queued and m open gets to begin with and p records
      published on the way, exactly min(k + p, m) gets have taken a record and
      returned, and the other gets are blocked on an empty queue. */
  lemma Progress(s: State, before: seq<Step>, steps: seq<Step>)
    requires Initial(s) && Run(s, before)
    requires Run(After(s, before), steps) && AllSettling(steps)
    ensures var a := After(s, before);
      var b := After(a, steps);
      && |steps| <= Bound(a)
      && ((forall l :: Settling(l) ==> !Enabled(b, l)) ==>
            && Settled(b)
            && Taken(steps) == Min(|Queue(a)| + Posted(steps), OpenGets(a))
            && Waiters(b) == OpenGets(a) - Taken(steps)
            && (Waiters(b) > 0 ==> Queue(b) == []))
  {
    hide Run, After, Enabled, Apply, Inv, Sum, Queue;
    InitialInv(s);
    InvAlong(s, before);
    var a := After(s, before);
    SettlingIsBounded(a, steps);
    Flow(a, steps);
    InvAlong(a, steps);
    SettledExactly(After(a, steps));
    if Settled(After(a, steps)) {
      SettledCounts(After(a, steps));
    }
  }

  /** The plain case: no post in flight. */
  lemma ProgressWithoutPosts(s: State, before: seq<Step>, steps: seq<Step>)
    requires Initial(s) && Run(s, before)
    requires Run(After(s, before), steps) && AllSettling(steps)
    requires Sum(After(s, before).pc, PostWeight) == 0
    requires forall l :: Settling(l) ==> !Enabled(After(After(s, before), steps), l)
    ensures var a := After(s, before);
      && Taken(steps) == Min(|Queue(a)|, OpenGets(a))
      && Waiters(After(a, steps)) == OpenGets(a) - Min(|Queue(a)|, OpenGets(a))
  {
    hide Run, After, Enabled, Apply, Inv, Sum, Queue;
    Progress(s, before, steps);
    InitialInv(s);
    InvAlong(s, before);
    NothingPosted(After(s, before), steps);
  }

  lemma {:induction false} NothingPosted(s: State, steps: seq<Step>)
    requires Inv(s) && Run(s, steps) && AllSettling(steps) && Sum(s.pc, PostWeight) == 0
    ensures Posted(steps) == 0 && Sum(After(s, steps).pc, PostWeight) == 0
    decreases |steps|
  {
    if steps != [] {
      var before, l := steps[..|steps| - 1], steps[|steps| - 1];
      NothingPosted(s, before);
      InvAlong(s, before);
      NoPostStep(After(s, before), l);
    }
  }

  lemma NoPostStep(s: State, l: Step)
    requires Inv(s) && Enabled(s, l) && Settling(l) && Sum(s.pc, PostWeight) == 0
    ensures !l.Publish? && Sum(Apply(s, l).pc, PostWeight) == 0
  {
    SumPositive(s.pc, PostWeight);
    SumAfter(s, l, PostWeight);
    assert Agrees(s, s.pc[l.t]);
    assert PostWeight(s.pc[l.t]) == 0;
    hide Sum, Inv;
  }
}
