/** What callers can observe. Each run leaves a history of invocations,
    effects and responses; the effects, in the order the mutex imposes, are a
    history of the bounded first-in first-out queue. */
module PipelineHistory {
  import opened Wrappers
  import opened EventQueue
  import opened EventRing
  import opened Pipeline
  import opened PipelineSafety

  datatype Event =
    | Invoked(t: Thread, op: Op)
    | Effect(t: Thread, op: Op, reply: Reply)
    | Responded(t: Thread, reply: Reply)
    | Cleared

  /** What a step adds to the history. A call takes effect when it publishes
      its record, when it takes or copies one, or when its test settles the reply. */
  function EventsOf(s: State, l: Step): seq<Event>
    requires Shaped(s) && Enabled(s, l)
  {
    match l
    case Call(t, op) =>
      [Invoked(t, op)] + if op == Post(None) then [Effect(t, op, IllegalArgument)] else []
    case Test(t) =>
      var c := Tested(s, s.pc[t]);
      if c.Unlocking? then [Effect(t, c.op, c.reply)] else []
    case Publish(t) => [Effect(t, Post(Some(s.pc[t].record)), Accepted)]
    case Copy(t) => if s.pc[t].op == Get then [] else [Effect(t, s.pc[t].op, Seen(s.slots[s.head]))]
    case Take(t) => [Effect(t, Get, Got(s.pc[t].record))]
    case Return(t) => [Responded(t, s.pc[t].reply)]
    case Init => [Cleared]
    case _ => []
  }

  function History(s: State, steps: seq<Step>): seq<Event>
    requires Run(s, steps)
    decreases |steps|
  {
    if steps == [] then []
    else
      var before := steps[..|steps| - 1];
      History(s, before) + EventsOf(After(s, before), steps[|steps| - 1])
  }

  // ---------------------------------------------------------------- the queue's view

  /** The queue after one event, or `None` if a queue holding `q` would not
      have given that reply. */
  function Replay1(q: Option<seq<Record>>, capacity: nat, e: Event): Option<seq<Record>>
  {
    match (q, e)
    case (None, _) => None
    case (Some(_), Cleared) => Some([])
    case (Some(v), Effect(_, op, reply)) =>
      if Answer(v, capacity, op) == Some(reply) then Some(Remaining(v, capacity, op)) else None
    case _ => q
  }

  /** The history replayed on the bounded queue, starting from `q`. */
  function Replay(q: seq<Record>, capacity: nat, h: seq<Event>): Option<seq<Record>>
    decreases |h|
  {
    if h == [] then Some(q)
    else Replay1(Replay(q, capacity, h[..|h| - 1]), capacity, h[|h| - 1])
  }

  lemma {:induction false} ReplayAppend(q: seq<Record>, capacity: nat, h: seq<Event>, k: seq<Event>)
    ensures Replay(q, capacity, h + k)
         == match Replay(q, capacity, h) case None => None case Some(v) => Replay(v, capacity, k)
    decreases |k|
  {
    if k == [] {
      assert h + k == h;
    } else {
      var n := |k| - 1;
      assert (h + k)[..|h + k| - 1] == h + k[..n];
      ReplayAppend(q, capacity, h, k[..n]);
    }
  }

  // ---------------------------------------------------------------- one thread's view

  datatype Phase = Quiet | Pending(op: Op) | Done(op: Op, reply: Reply) | Broken

  /** A thread's events must come as invocation, effect, response. */
  function Phase1(p: Phase, t: Thread, e: Event): Phase
  {
    match e
    case Invoked(u, op) => if u != t then p else if p == Quiet then Pending(op) else Broken
    case Effect(u, op, reply) => if u != t then p else if p == Pending(op) then Done(op, reply) else Broken
    case Responded(u, reply) => if u != t then p else if p.Done? && p.reply == reply then Quiet else Broken
    case Cleared => p
  }

  function PhaseOf(t: Thread, h: seq<Event>): Phase
    decreases |h|
  {
    if h == [] then Quiet else Phase1(PhaseOf(t, h[..|h| - 1]), t, h[|h| - 1])
  }

  /** The phase a thread's position stands for. */
  function PhaseAt(c: PC): Phase
  {
    match c
    case Idle => Quiet
    case Locking(op) => Pending(op)
    case Testing(op, _) => Pending(op)
    case Room(r, _) => Pending(Post(Some(r)))
    case Stored(r, _) => Pending(Post(Some(r)))
    case Published(r) => Done(Post(Some(r)), Accepted)
    case AboutToWait => Pending(Get)
    case Waiting => Pending(Get)
    case Relocking => Pending(Get)
    case Found(op, _) => Pending(op)
    case Copied(_, _) => Pending(Get)
    case Unlocking(op, reply) => Done(op, reply)
    case Returning(op, reply) => Done(op, reply)
  }

  // ---------------------------------------------------------------- linearizability

  lemma ReplayOne(q: seq<Record>, capacity: nat, e: Event)
    ensures Replay(q, capacity, [e]) == Replay1(Some(q), capacity, e)
  {
    assert [e][..0] == [];
  }

  /** One step: the queue, asked for the step's effect, gives that reply and
      ends up with what the ring then holds. */
  lemma StepLinearizes(s: State, l: Step)
    requires Inv(s) && Enabled(s, l)
    ensures Replay(Queue(s), |s.slots| - 1, EventsOf(s, l)) == Some(Queue(Apply(s, l)))
  {
    QueueAfter(s, l);
    FullExactly(s.slots, s.head, s.tail);
    EmptyExactly(s.slots, s.head, s.tail);
    var es, q, capacity := EventsOf(s, l), Queue(s), |s.slots| - 1;
    if |es| == 1 {
      ReplayOne(q, capacity, es[0]);
      assert es == [es[0]];
    } else if |es| == 2 {
      ReplayOne(q, capacity, es[0]);
      ReplayOne(q, capacity, es[1]);
      assert es == [es[0]] + [es[1]];
      ReplayAppend(q, capacity, [es[0]], [es[1]]);
    }
  }

  /** The effects replay on the queue. */
  lemma {:induction false} EffectsReplay(s: State, steps: seq<Step>)
    requires Inv(s) && Run(s, steps)
    ensures Replay(Queue(s), |s.slots| - 1, History(s, steps)) == Some(Queue(After(s, steps)))
    decreases |steps|
  {
    hide Enabled, Apply, EventsOf, Queue, Inv;
    if steps != [] {
      var before, l := steps[..|steps| - 1], steps[|steps| - 1];
      EffectsReplay(s, before);
      InvAlong(s, before);
      StepLinearizes(After(s, before), l);
      ReplayAppend(Queue(s), |s.slots| - 1, History(s, before), EventsOf(After(s, before), l));
    }
  }

  lemma PhaseSnoc(t: Thread, h: seq<Event>, e: Event)
    ensures PhaseOf(t, h + [e]) == Phase1(PhaseOf(t, h), t, e)
  {
    assert (h + [e])[..|h|] == h;
  }

  function PhaseAfter(p: Phase, t: Thread, es: seq<Event>): Phase
    requires |es| <= 2
  {
    if es == [] then p
    else if |es| == 1 then Phase1(p, t, es[0])
    else Phase1(Phase1(p, t, es[0]), t, es[1])
  }

  /** A step moves its own thread's phase with its position, and nobody else's. */
  lemma StepPhase(s: State, l: Step, t: Thread)
    requires Inv(s) && Enabled(s, l) && t < |s.pc|
    ensures PhaseAfter(PhaseAt(s.pc[t]), t, EventsOf(s, l)) == PhaseAt(Apply(s, l).pc[t])
  {
    assert Agrees(s, s.pc[t]);
    hide Inv, Sum, Queue;
  }

  lemma StepPhases(s: State, l: Step, t: Thread, h: seq<Event>)
    requires Inv(s) && Enabled(s, l) && t < |s.pc|
    requires PhaseOf(t, h) == PhaseAt(s.pc[t])
    ensures PhaseOf(t, h + EventsOf(s, l)) == PhaseAt(Apply(s, l).pc[t])
  {
    var es := EventsOf(s, l);
    assert |es| <= 2;
    StepPhase(s, l, t);
    hide PhaseOf, Inv, Apply, EventsOf, Enabled;
    if es == [] {
      assert h + es == h;
    } else if |es| == 1 {
      assert es == [es[0]];
      PhaseSnoc(t, h, es[0]);
    } else {
      PhaseSnoc(t, h, es[0]);
      PhaseSnoc(t, h + [es[0]], es[1]);
      assert h + es == h + [es[0]] + [es[1]];
    }
  }

  lemma {:induction false} PhasesFollow(s: State, steps: seq<Step>, t: Thread)
    requires Initial(s) && Run(s, steps) && t < |s.pc|
    ensures PhaseOf(t, History(s, steps)) == PhaseAt(After(s, steps).pc[t])
    decreases |steps|
  {
    hide Enabled, Apply, EventsOf, Inv;
    if steps != [] {
      var before := steps[..|steps| - 1];
      PhasesFollow(s, before, t);
      InitialInv(s);
      InvAlong(s, before);
      StepPhases(After(s, before), steps[|steps| - 1], t, History(s, before));
    }
  }

  /** Linearizability, for every ring size, every number of threads and every
      interleaving: replayed in order on a queue of capacity N - 1, every reply
      is the reply that queue owes, and what it ends up holding is what the
      ring holds; and each thread's events come as invocation, effect,
      response, with the response carrying its effect's reply. */
  lemma Linearizable(s: State, steps: seq<Step>)
    requires Initial(s) && Run(s, steps)
    ensures Replay([], |s.slots| - 1, History(s, steps)) == Some(Queue(After(s, steps)))
    ensures forall t: Thread :: t < |s.pc| ==> PhaseOf(t, History(s, steps)) != Broken
  {
    hide After, History, Enabled, Replay;
    InitialInv(s);
    EffectsReplay(s, steps);
    forall t: Thread | t < |s.pc|
      ensures PhaseOf(t, History(s, steps)) != Broken
    {
      PhasesFollow(s, steps, t);
    }
  }

  lemma {:induction false} EffectBeforeResponse(t: Thread, h: seq<Event>, j: nat) returns (i: nat, k: nat)
    requires j < |h| && h[j].Responded? && h[j].t == t && PhaseOf(t, h[..j + 1]) != Broken
    ensures i < k < j && h[k].Effect? && h[k] == Effect(t, h[k].op, h[j].reply) && h[i] == Invoked(t, h[k].op)
    ensures forall m :: i < m < j && m != k && !h[m].Cleared? ==> h[m].t != t
  {
    assert h[..j + 1][..j] == h[..j];
    k := DoneSince(t, h[..j]);
    assert h[..j][..k] == h[..k];
    i := PendingSince(t, h[..k]);
  }

  lemma {:induction false} DoneSince(t: Thread, h: seq<Event>) returns (k: nat)
    requires PhaseOf(t, h).Done?
    ensures k < |h| && h[k] == Effect(t, PhaseOf(t, h).op, PhaseOf(t, h).reply)
    ensures PhaseOf(t, h[..k]) == Pending(PhaseOf(t, h).op)
    ensures forall m :: k < m < |h| && !h[m].Cleared? ==> h[m].t != t
    decreases |h|
  {
    var n := |h| - 1;
    if PhaseOf(t, h[..n]) == PhaseOf(t, h) {
      k := DoneSince(t, h[..n]);
      assert h[..n][..k] == h[..k];
    } else {
      k := n;
    }
  }

  lemma {:induction false} PendingSince(t: Thread, h: seq<Event>) returns (i: nat)
    requires PhaseOf(t, h).Pending?
    ensures i < |h| && h[i] == Invoked(t, PhaseOf(t, h).op)
    ensures forall m :: i < m < |h| && !h[m].Cleared? ==> h[m].t != t
    decreases |h|
  {
    var n := |h| - 1;
    if PhaseOf(t, h[..n]) == PhaseOf(t, h) {
      i := PendingSince(t, h[..n]);
    } else {
      i := n;
    }
  }

  lemma {:induction false} BrokenStays(t: Thread, h: seq<Event>, n: nat)
    requires n <= |h| && PhaseOf(t, h[..n]) == Broken
    ensures PhaseOf(t, h) == Broken
    decreases |h|
  {
    if n < |h| {
      assert h[..|h| - 1][..n] == h[..n];
      BrokenStays(t, h[..|h| - 1], n);
    } else {
      assert h[..n] == h;
    }
  }

  lemma {:induction false} EventsHaveThreads(s: State, steps: seq<Step>)
    requires Run(s, steps)
    ensures forall j :: 0 <= j < |History(s, steps)| && !History(s, steps)[j].Cleared? ==> History(s, steps)[j].t < |s.pc|
    decreases |steps|
  {
    if steps != [] {
      EventsHaveThreads(s, steps[..|steps| - 1]);
    }
  }

  /** Real-time order, in every run: a response is never made up. Before the
      `j`-th event, if that is a response, the same thread invoked the call and
      then the call took effect, with the reply the response carries, and that
      thread did nothing else since its invocation. */
  lemma ResponseHasItsEffect(s: State, steps: seq<Step>, j: nat) returns (i: nat, k: nat)
    requires Initial(s) && Run(s, steps)
    requires j < |History(s, steps)| && History(s, steps)[j].Responded?
    ensures var h := History(s, steps);
      && i < k < j && h[k].Effect? && h[k] == Effect(h[j].t, h[k].op, h[j].reply)
      && h[i] == Invoked(h[j].t, h[k].op)
      && forall m :: i < m < j && m != k && !h[m].Cleared? ==> h[m].t != h[j].t
  {
    hide Run, After, History, PhaseOf, Replay;
    var h := History(s, steps);
    EventsHaveThreads(s, steps);
    Linearizable(s, steps);
    if PhaseOf(h[j].t, h[..j + 1]) == Broken { BrokenStays(h[j].t, h, j + 1); }
    i, k := EffectBeforeResponse(h[j].t, h, j);
  }

  // ---------------------------------------------------------------- conservation

  /** The records accepted, and delivered, since the last initialisation. */
  function AcceptedIn(h: seq<Event>): seq<Record>
    decreases |h|
  {
    if h == [] then []
    else match h[|h| - 1]
      case Cleared => []
      case Effect(_, Post(Some(r)), Accepted) => AcceptedIn(h[..|h| - 1]) + [r]
      case _ => AcceptedIn(h[..|h| - 1])
  }

  function DeliveredIn(h: seq<Event>): seq<Record>
    decreases |h|
  {
    if h == [] then []
    else match h[|h| - 1]
      case Cleared => []
      case Effect(_, Get, Got(r)) => DeliveredIn(h[..|h| - 1]) + [r]
      case _ => DeliveredIn(h[..|h| - 1])
  }

  lemma {:induction false} ReplayConserves(capacity: nat, h: seq<Event>)
    requires Replay([], capacity, h).Some?
    ensures AcceptedIn(h) == DeliveredIn(h) + Replay([], capacity, h).value
    decreases |h|
  {
    if h != [] {
      ReplayConserves(capacity, h[..|h| - 1]);
    }
  }

  /** Conservation: since the last initialisation, the records accepted in
      mutex order are the records delivered in mutex order followed by what is
      still queued. Nothing is lost, duplicated, invented or reordered. */
  lemma RecordsConserved(s: State, steps: seq<Step>)
    requires Initial(s) && Run(s, steps)
    ensures AcceptedIn(History(s, steps)) == DeliveredIn(History(s, steps)) + Queue(After(s, steps))
  {
    hide Run, After, History, Replay, AcceptedIn, DeliveredIn;
    Linearizable(s, steps);
    ReplayConserves(|s.slots| - 1, History(s, steps));
  }

  // ---------------------------------------------------------------- peek stability

  predicate Removes(e: Event)
  {
    e.Cleared? || (e.Effect? && e.op == Get)
  }

  /** Without a removal the front of a non-empty queue stays in front. */
  lemma {:induction false} FrontStays(q: seq<Record>, capacity: nat, h: seq<Event>)
    requires q != [] && Replay(q, capacity, h).Some?
    requires forall i :: 0 <= i < |h| ==> !Removes(h[i])
    ensures Replay(q, capacity, h).value != [] && Replay(q, capacity, h).value[0] == q[0]
    decreases |h|
  {
    if h != [] {
      FrontStays(q, capacity, h[..|h| - 1]);
    }
  }

  lemma {:induction false} ReplayPrefix(q: seq<Record>, capacity: nat, h: seq<Event>, n: nat)
    requires n <= |h| && Replay(q, capacity, h).Some?
    ensures Replay(q, capacity, h[..n]).Some?
    decreases |h|
  {
    if n < |h| {
      ReplayPrefix(q, capacity, h[..|h| - 1], n);
      assert h[..|h| - 1][..n] == h[..n];
    } else {
      assert h[..n] == h;
    }
  }

  /** The queue before and after the `n`-th event. */
  lemma ReplayAt(q: seq<Record>, capacity: nat, h: seq<Event>, n: nat)
    requires n < |h| && Replay(q, capacity, h).Some?
    ensures Replay(q, capacity, h[..n]).Some? && Replay(q, capacity, h[..n + 1]).Some?
    ensures Replay(q, capacity, h[..n + 1]) == Replay1(Replay(q, capacity, h[..n]), capacity, h[n])
  {
    ReplayPrefix(q, capacity, h, n);
    ReplayPrefix(q, capacity, h, n + 1);
    assert h[..n + 1][..n] == h[..n];
  }

  lemma ReplayBetween(capacity: nat, h: seq<Event>, i: nat, j: nat)
    requires i <= j <= |h| && Replay([], capacity, h[..i]).Some?
    ensures Replay([], capacity, h[..j]) == Replay(Replay([], capacity, h[..i]).value, capacity, h[i..j])
  {
    hide Replay;
    assert h[..j] == h[..i] + h[i..j];
    ReplayAppend([], capacity, h[..i], h[i..j]);
  }

  /** The queue's side of peek stability: after a peek that saw a record and no
      removal since, a get takes that record. */
  lemma PeekedStays(capacity: nat, h: seq<Event>, i: nat, j: nat)
    requires Replay([], capacity, h).Some?
    requires i < j < |h|
    requires h[i].Effect? && h[i].op == Peek && h[i].reply.Seen?
    requires h[j].Effect? && h[j].op == Get
    requires forall m :: i < m < j ==> !Removes(h[m])
    ensures h[j].reply == Got(h[i].reply.record)
  {
    hide Replay, Removes;
    ReplayAt([], capacity, h, i);
    ReplayAt([], capacity, h, j);
    ReplayBetween(capacity, h, i + 1, j);
    var mid := h[i + 1..j];
    forall n | 0 <= n < |mid| ensures !Removes(mid[n]) { assert mid[n] == h[i + 1 + n]; }
    FrontStays(Replay([], capacity, h[..i + 1]).value, capacity, mid);
  }

  /** Peek stability: across any posts (accepted or refused) and peeks by any
      threads, the next get to take a record takes the one that was peeked. */
  lemma PeekedThenTaken(s: State, steps: seq<Step>, i: nat, j: nat)
    requires Initial(s) && Run(s, steps)
    requires i < j < |History(s, steps)|
    requires var h := History(s, steps);
      && h[i].Effect? && h[i].op == Peek && h[i].reply.Seen?
      && h[j].Effect? && h[j].op == Get
      && forall m :: i < m < j ==> !Removes(h[m])
    ensures var h := History(s, steps); h[j].reply == Got(h[i].reply.record)
  {
    hide Run, After, History, Replay;
    Linearizable(s, steps);
    PeekedStays(|s.slots| - 1, History(s, steps), i, j);
  }

  /** The reason in the ring: no step but a take or an initialisation moves the
      head, and no step at all writes a slot of the live window. */
  lemma LiveSlotsUntouched(s: State, l: Step, i: nat)
    requires Inv(s) && Enabled(s, l) && i < |Queue(s)|
    ensures Apply(s, l).slots[(s.head + i) % |s.slots|] == s.slots[(s.head + i) % |s.slots|] == Queue(s)[i]
    ensures !l.Take? && !l.Init? ==> Apply(s, l).head == s.head
  {
    assert Apply(s, l).slots == if l.Store? then s.slots[s.tail := s.pc[l.t].record] else s.slots;
    StoreMissesWindow(s.slots, s.head, s.tail, if l.Store? then s.pc[l.t].record else s.slots[s.tail], i);
    hide Live, Inv;
  }
}
