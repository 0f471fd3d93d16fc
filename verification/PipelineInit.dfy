/** The initialiser takes no lock. What the callers of a running pipeline can
    then observe, and exactly when that is still explained by the queue, if
    nothing runs between its two stores. */
module PipelineInit {
  import opened Wrappers
  import opened EventQueue
  import opened EventRing
  import opened Pipeline
  import opened PipelineSafety
  import opened PipelineHistory

  /** Initialising at any moment whatever, whoever owns the mutex. */
  function Reset(s: State): (s': State)
    ensures Shaped(s) ==> Shaped(s')
  {
    s.(head := 0, tail := 0)
  }

  /** The `m`-th event is the effect of a call that was open when the queue was
      cleared; put before the clear, with the rest left in order, everything is
      what a queue holding `q` would have done. */
  predicate ExplainedBefore(q: seq<Record>, capacity: nat, h: seq<Event>, m: nat, end: seq<Record>)
    requires m < |h|
  {
    && h[m].Effect?
    && (forall j :: 0 <= j < m && !h[j].Cleared? ==> h[j].t != h[m].t)
    && Replay(q, capacity, [h[m], Cleared] + h[..m] + h[m + 1..]) == Some(end)
  }

  /** A history that follows a clear of a queue holding `q` is explained when
      the clear and the effects replay on the queue and end in `end`. The clear comes
      first, or after the effect of one call that was open at the time. */
  ghost predicate Explained(q: seq<Record>, capacity: nat, h: seq<Event>, end: seq<Record>)
  {
    || Replay(q, capacity, [Cleared] + h) == Some(end)
    || exists m: nat :: m < |h| && ExplainedBefore(q, capacity, h, m, end)
  }

  /** Which position of the thread in the critical section survives a reset:
      - a post that has tested: if its next tail is slot 1, what it posts is the
        first record after the clear; if it is slot 0, the last one before;
      - a peek that has tested: if slot 0 holds the record it is due;
      - a get that has tested: never. */
  predicate InitHarmless(s: State)
    requires Shaped(s)
  {
    s.owner.Some? && s.owner.value < |s.pc| ==>
      match s.pc[s.owner.value]
      case Room(_, _) => s.tail == 0 || s.tail + 1 == |s.slots|
      case Stored(_, _) => s.tail == 0 || s.tail + 1 == |s.slots|
      case Found(op, _) => op == Peek && s.slots[0] == s.slots[s.head]
      case Copied(_, _) => false
      case _ => true
  }

  // ---------------------------------------------------------------- replaying a clear

  lemma ReplayClear(q: seq<Record>, capacity: nat, h: seq<Event>)
    ensures Replay(q, capacity, [Cleared] + h) == Replay([], capacity, h)
  {
    ReplayOne(q, capacity, Cleared);
    ReplayAppend(q, capacity, [Cleared], h);
  }

  lemma ReplayMoved(q: seq<Record>, capacity: nat, e: Event, h: seq<Event>)
    ensures Replay(q, capacity, [e, Cleared] + h)
         == if Replay1(Some(q), capacity, e) == None then None else Replay([], capacity, h)
  {
    assert [e, Cleared] + h == [e] + ([Cleared] + h);
    ReplayOne(q, capacity, e);
    ReplayAppend(q, capacity, [e], [Cleared] + h);
    var r := Replay1(Some(q), capacity, e);
    if r.Some? { ReplayClear(r.value, capacity, h); }
  }

  /** What is left when one effect is all that happened. */
  lemma OneEffect(q: seq<Record>, capacity: nat, e: Event, end: seq<Record>)
    requires e.Effect? && Explained(q, capacity, [e], end)
    ensures Replay1(Some([]), capacity, e) == Some(end) || (end == [] && Replay1(Some(q), capacity, e).Some?)
  {
    ReplayClear(q, capacity, [e]);
    ReplayOne([], capacity, e);
    if m: nat :| m < |[e]| && ExplainedBefore(q, capacity, [e], m, end) {
      assert [e, Cleared] + [e][..m] + [e][m + 1..] == [e, Cleared] + [];
      ReplayMoved(q, capacity, e, []);
    }
  }

  lemma OwnerAgrees(s: State)
    requires Inv(s)
    ensures Shaped(s) && (s.owner.Some? ==> s.owner.value < |s.pc| && Agrees(s, s.pc[s.owner.value]))
  {}

  // ---------------------------------------------------------------- positions that keep the invariant

  /** No thread is between testing the indices and acting on the test, except
      a post that found the tail at slot 0. */
  predicate ResetSafe(s: State)
  {
    s.owner.Some? && s.owner.value < |s.pc| ==>
      match s.pc[s.owner.value]
      case Room(_, _) => s.tail == 0
      case Stored(_, _) => s.tail == 0
      case Found(_, _) => false
      case Copied(_, _) => false
      case _ => true
  }

  lemma ResetKeepsInv(s: State)
    requires Inv(s) && ResetSafe(s)
    ensures Inv(Reset(s)) && Queue(Reset(s)) == []
  {
    var s' := Reset(s);
    assert Queue(s') == [];
    forall u: Thread | u < |s.pc|
      ensures Agrees(s', s'.pc[u])
    {
      assert Agrees(s, s.pc[u]);
      assert InSection(s.pc[u]) <==> s.owner == Some(u);
    }
  }

  // ---------------------------------------------------------------- positions that lag behind

  /** Thread `t` is finishing, on the cleared ring, a call whose effect `due`
      belongs before the clear. */
  predicate Lagging(s: State, t: Thread, due: Event)
  {
    && Shaped(s) && MutexHeld(s) && s.owner == Some(t) && t < |s.pc| && s.head == 0 && s.tail == 0
    && (forall u: Thread :: u < |s.pc| && u != t ==> Agrees(s, s.pc[u]))
    && match s.pc[t]
       case Room(r, next) => next == 0 && due == Effect(t, Post(Some(r)), Accepted)
       case Stored(r, next) => next == 0 && due == Effect(t, Post(Some(r)), Accepted)
       case Found(op, _) => op == Peek && due == Effect(t, Peek, Seen(s.slots[0]))
       case _ => false
  }

  /** The other threads can only call, wake up and return. */
  lemma LagOthers(s: State, t: Thread, due: Event, l: Step)
    requires Lagging(s, t, due) && Enabled(s, l) && (l.Init? || l.t != t)
    ensures !l.Init? && Lagging(Apply(s, l), t, due)
    ensures Replay([], |s.slots| - 1, EventsOf(s, l)) == Some([])
    ensures forall e :: e in EventsOf(s, l) ==> !e.Cleared? && e.t != t
  {
    assert !l.Init?;
    assert !InSection(s.pc[l.t]);
    assert l.Call? || l.WakeUp? || l.Return?;
    var es, capacity := EventsOf(s, l), |s.slots| - 1;
    if |es| == 1 {
      ReplayOne([], capacity, es[0]);
    } else if |es| == 2 {
      ReplayOne([], capacity, es[0]);
      ReplayOne([], capacity, es[1]);
      assert es == [es[0]] + [es[1]];
      ReplayAppend([], capacity, [es[0]], [es[1]]);
    }
  }

  /** The thread itself stores, and then takes effect and catches up. */
  lemma LagOwn(s: State, t: Thread, due: Event, l: Step)
    requires Lagging(s, t, due) && Enabled(s, l) && !l.Init? && l.t == t
    ensures if EventsOf(s, l) == [] then Lagging(Apply(s, l), t, due)
            else EventsOf(s, l) == [due] && Inv(Apply(s, l)) && Queue(Apply(s, l)) == []
  {
    var s' := Apply(s, l);
    assert l.Store? || l.Publish? || l.Copy?;
    forall u: Thread | u < |s.pc| && u != t
      ensures Agrees(s', s'.pc[u])
    {
      assert s'.pc[u] == s.pc[u] && Agrees(s, s.pc[u]) && !InSection(s.pc[u]);
    }
    assert Queue(s') == [];
    hide Sum;
  }

  /** Every run from a lagging state: the due effect comes first among the
      thread's events, and without it the history replays on the cleared queue. */
  lemma {:induction false} LagRun(s: State, t: Thread, due: Event, steps: seq<Step>) returns (m: int)
    requires Lagging(s, t, due) && Run(s, steps)
    ensures var h, s' := History(s, steps), After(s, steps);
      if m < 0 then
        Lagging(s', t, due) && Replay([], |s.slots| - 1, h) == Some([])
        && forall j :: 0 <= j < |h| && !h[j].Cleared? ==> h[j].t != t
      else
        m < |h| && h[m] == due && Inv(s') && (forall j :: 0 <= j < m && !h[j].Cleared? ==> h[j].t != t)
        && Replay([], |s.slots| - 1, h[..m] + h[m + 1..]) == Some(Queue(s'))
    decreases |steps|
  {
    hide Enabled, Apply, EventsOf, Queue, Inv, Lagging, Replay;
    if steps == [] {
      m := -1;
      ReplayNothing(|s.slots| - 1);
    } else {
      var before, l := steps[..|steps| - 1], steps[|steps| - 1];
      m := LagRun(s, t, due, before);
      var h, a := History(s, before), After(s, before);
      var es, capacity := EventsOf(a, l), |s.slots| - 1;
      if m >= 0 {
        StepLinearizes(a, l);
        InvKept(a, l);
        ReplayAppend([], capacity, h[..m] + h[m + 1..], es);
        assert (h + es)[..m] == h[..m];
        assert (h[..m] + h[m + 1..]) + es == (h + es)[..m] + (h + es)[m + 1..];
      } else if l.Init? || l.t != t {
        LagOthers(a, t, due, l);
        ReplayAppend([], capacity, h, es);
      } else {
        LagOwn(a, t, due, l);
        if es == [] {
          assert h + es == h;
        } else {
          m := |h|;
          assert (h + es)[..m] + (h + es)[m + 1..] == h;
        }
      }
    }
  }

  lemma ReplayNothing(capacity: nat)
    ensures Replay([], capacity, []) == Some([])
  {}

  /** What the owner of a lagging position is due. */
  function Due(s: State): Event
    requires Shaped(s) && s.owner.Some? && s.owner.value < |s.pc|
  {
    var t := s.owner.value;
    match s.pc[t]
    case Room(r, _) => Effect(t, Post(Some(r)), Accepted)
    case Stored(r, _) => Effect(t, Post(Some(r)), Accepted)
    case _ => Effect(t, Peek, Seen(s.slots[s.head]))
  }

  lemma HarmlessLags(s: State)
    requires Inv(s) && InitHarmless(s) && !ResetSafe(s)
    ensures s.owner.Some? && s.owner.value < |s.pc| && Lagging(Reset(s), s.owner.value, Due(s))
    ensures Replay1(Some(Queue(s)), |s.slots| - 1, Due(s)).Some?
  {
    var t := s.owner.value;
    var s' := Reset(s);
    assert Agrees(s, s.pc[t]);
    SuccessorCases(s.slots, s.tail);
    FullExactly(s.slots, s.head, s.tail);
    if s.pc[t].Found? { TakeDropsFirst(s.slots, s.head, s.tail); }
    forall u: Thread | u < |s.pc| && u != t
      ensures Agrees(s', s'.pc[u])
    {
      assert Agrees(s, s.pc[u]) && !InSection(s.pc[u]);
    }
    hide Sum, Live;
  }

  lemma ClearedFirst(q: seq<Record>, capacity: nat, h: seq<Event>, end: seq<Record>)
    requires Replay([], capacity, h) == Some(end)
    ensures Explained(q, capacity, h, end)
  {
    ReplayClear(q, capacity, h);
  }

  lemma DueFirst(q: seq<Record>, capacity: nat, h: seq<Event>, m: nat, end: seq<Record>)
    requires m < |h| && h[m].Effect? && Replay1(Some(q), capacity, h[m]).Some?
    requires forall j :: 0 <= j < m && !h[j].Cleared? ==> h[j].t != h[m].t
    requires Replay([], capacity, h[..m] + h[m + 1..]) == Some(end)
    ensures Explained(q, capacity, h, end)
  {
    hide Replay, Replay1;
    assert [h[m], Cleared] + h[..m] + h[m + 1..] == [h[m], Cleared] + (h[..m] + h[m + 1..]);
    ReplayMoved(q, capacity, h[m], h[..m] + h[m + 1..]);
    assert ExplainedBefore(q, capacity, h, m, end);
  }

  lemma LaggingExplained(s: State, t: Thread, due: Event, steps: seq<Step>, q: seq<Record>)
    requires Lagging(s, t, due) && Run(s, steps) && due.Effect? && due.t == t
    requires Replay1(Some(q), |s.slots| - 1, due).Some?
    ensures Explained(q, |s.slots| - 1, History(s, steps), Queue(After(s, steps)))
  {
    hide Run, After, History, Inv, Replay, Replay1, Queue, Lagging, Explained;
    var m := LagRun(s, t, due, steps);
    var h, end := History(s, steps), Queue(After(s, steps));
    if m < 0 {
      LaggingIsEmpty(After(s, steps), t, due);
      ClearedFirst(q, |s.slots| - 1, h, end);
    } else {
      DueFirst(q, |s.slots| - 1, h, m, end);
    }
  }

  lemma HarmlessExplained(s: State, steps: seq<Step>)
    requires Inv(s) && InitHarmless(s) && Run(Reset(s), steps)
    ensures Explained(Queue(s), |s.slots| - 1, History(Reset(s), steps), Queue(After(Reset(s), steps)))
  {
    hide Run, After, History, Inv, InitHarmless, ResetSafe, Replay, Replay1, Queue, Lagging, Due, Explained;
    OwnerAgrees(s);
    var s', capacity := Reset(s), |s.slots| - 1;
    hide Agrees, Shaped;
    if ResetSafe(s) {
      ResetKeepsInv(s);
      EffectsReplay(s', steps);
      ClearedFirst(Queue(s), capacity, History(s', steps), Queue(After(s', steps)));
    } else {
      HarmlessLags(s);
      DueIsAnEffect(s);
      LaggingExplained(s', s.owner.value, Due(s), steps, Queue(s));
    }
  }

  lemma LaggingIsEmpty(s: State, t: Thread, due: Event)
    requires Lagging(s, t, due)
    ensures Queue(s) == []
  {}

  lemma DueIsAnEffect(s: State)
    requires Shaped(s) && s.owner.Some? && s.owner.value < |s.pc|
    ensures Due(s).Effect? && Due(s).t == s.owner.value
  {}

  // ---------------------------------------------------------------- positions that fail

  lemma RunOne(s: State, l: Step)
    requires Shaped(s) && Enabled(s, l)
    ensures Run(s, [l]) && After(s, [l]) == Apply(s, l) && History(s, [l]) == EventsOf(s, l)
  {
    assert [l][..0] == [];
    assert Run(s, []) && After(s, []) == s && History(s, []) == [];
    assert History(s, [l]) == [] + EventsOf(s, l);
    hide Apply, EventsOf, Enabled;
  }

  lemma RunTwo(s: State, l: Step, l': Step)
    requires Shaped(s) && Enabled(s, l) && Enabled(Apply(s, l), l')
    ensures Run(s, [l, l']) && After(s, [l, l']) == Apply(Apply(s, l), l')
    ensures History(s, [l, l']) == EventsOf(s, l) + EventsOf(Apply(s, l), l')
  {
    RunOne(s, l);
    assert [l, l'][..1] == [l];
    hide Apply, EventsOf, Enabled;
  }

  /** Where the indices of a post go wrong: next tail 2 or more. */
  lemma PostFails(s: State) returns (steps: seq<Step>)
    requires Inv(s) && !InitHarmless(s) && (s.pc[s.owner.value].Room? || s.pc[s.owner.value].Stored?)
    ensures Run(Reset(s), steps)
    ensures !Explained(Queue(s), |s.slots| - 1, History(Reset(s), steps), Queue(After(Reset(s), steps)))
  {
    hide Run, After, History, Inv, Explained, Queue;
    OwnerAgrees(s);
    var t, a := s.owner.value, Reset(s);
    SuccessorCases(s.slots, s.tail);
    var e := Effect(t, Post(Some(s.pc[t].record)), Accepted);
    steps := PostRuns(a, t);
    hide Agrees, Shaped, Successor;
    if Explained(Queue(s), |s.slots| - 1, [e], Queue(After(a, steps))) {
      OneEffect(Queue(s), |s.slots| - 1, e, Queue(After(a, steps)));
    }
  }

  /** The rest of a post on a cleared ring. */
  lemma PostRuns(s: State, t: Thread) returns (steps: seq<Step>)
    requires Shaped(s) && t < |s.pc| && (s.pc[t].Room? || s.pc[t].Stored?) && s.head == 0 && s.tail == 0
    ensures Run(s, steps) && History(s, steps) == [Effect(t, Post(Some(s.pc[t].record)), Accepted)]
    ensures |Queue(After(s, steps))| == s.pc[t].next
  {
    var e := Effect(t, Post(Some(s.pc[t].record)), Accepted);
    if s.pc[t].Room? {
      steps := [Store(t), Publish(t)];
      RunTwo(s, Store(t), Publish(t));
      assert History(s, steps) == [] + [e];
    } else {
      steps := [Publish(t)];
      RunOne(s, Publish(t));
    }
  }

  /** The failure itself: after a reset, the step with which a get that has
      copied its record goes on leaves a ring full of N - 1 records nobody posted. */
  lemma TakeFabricates(s: State, t: Thread)
    requires Shaped(s) && t < |s.pc| && s.pc[t].Copied? && s.head == 0 && s.tail == 0
    ensures |Queue(Apply(s, Take(t)))| == |s.slots| - 1
  {
    SuccessorCases(s.slots, 0);
  }

  /** The rest of a get on a cleared ring. */
  lemma GetRuns(s: State, t: Thread) returns (steps: seq<Step>, r: Record)
    requires Shaped(s) && t < |s.pc| && s.head == 0 && s.tail == 0
    requires s.pc[t].Copied? || (s.pc[t].Found? && s.pc[t].op == Get)
    ensures Run(s, steps) && History(s, steps) == [Effect(t, Get, Got(r))]
    ensures |Queue(After(s, steps))| == |s.slots| - 1
    ensures s.pc[t].Copied? ==> steps == [Take(t)]
  {
    if s.pc[t].Copied? {
      steps, r := [Take(t)], s.pc[t].record;
      RunOne(s, Take(t));
      TakeFabricates(s, t);
    } else {
      steps, r := [Copy(t), Take(t)], s.slots[0];
      RunTwo(s, Copy(t), Take(t));
      TakeFabricates(Apply(s, Copy(t)), t);
      assert History(s, steps) == [] + [Effect(t, Get, Got(r))];
    }
  }

  lemma GetFails(s: State) returns (steps: seq<Step>)
    requires Inv(s) && s.owner.Some?
    requires s.pc[s.owner.value].Copied? || (s.pc[s.owner.value].Found? && s.pc[s.owner.value].op == Get)
    ensures Run(Reset(s), steps)
    ensures !Explained(Queue(s), |s.slots| - 1, History(Reset(s), steps), Queue(After(Reset(s), steps)))
    ensures s.pc[s.owner.value].Copied? ==> steps == [Take(s.owner.value)]
  {
    hide Run, After, History, Inv, Explained, Queue, Agrees;
    OwnerAgrees(s);
    var t, a := s.owner.value, Reset(s);
    var r: Record;
    steps, r := GetRuns(a, t);
    var e := Effect(t, Get, Got(r));
    if Explained(Queue(s), |s.slots| - 1, [e], Queue(After(a, steps))) {
      OneEffect(Queue(s), |s.slots| - 1, e, Queue(After(a, steps)));
    }
  }

  lemma PeekFails(s: State) returns (steps: seq<Step>)
    requires Inv(s) && s.owner.Some? && s.slots[0] != s.slots[s.head]
    requires s.pc[s.owner.value].Found? && s.pc[s.owner.value].op == Peek
    ensures Run(Reset(s), steps)
    ensures !Explained(Queue(s), |s.slots| - 1, History(Reset(s), steps), Queue(After(Reset(s), steps)))
  {
    hide Run, After, History, Inv, Explained, Queue;
    OwnerAgrees(s);
    var t, a := s.owner.value, Reset(s);
    steps := [Copy(t)];
    RunOne(a, Copy(t));
    var e := Effect(t, Peek, Seen(a.slots[0]));
    assert EventsOf(a, Copy(t)) == [e];
    assert Queue(s) != [] && Queue(s)[0] == s.slots[s.head] by { HeadIsFirst(s); }
    hide Apply, EventsOf, Enabled, Agrees, Shaped;
    if Explained(Queue(s), |s.slots| - 1, [e], Queue(After(a, steps))) {
      OneEffect(Queue(s), |s.slots| - 1, e, Queue(After(a, steps)));
    }
  }

  lemma HeadIsFirst(s: State)
    requires Shaped(s) && s.head != s.tail
    ensures Queue(s) != [] && Queue(s)[0] == s.slots[s.head]
  {
    TakeDropsFirst(s.slots, s.head, s.tail);
  }

  lemma HarmfulFails(s: State) returns (steps: seq<Step>)
    requires Inv(s) && !InitHarmless(s)
    ensures Run(Reset(s), steps)
    ensures !Explained(Queue(s), |s.slots| - 1, History(Reset(s), steps), Queue(After(Reset(s), steps)))
  {
    var c := s.pc[s.owner.value];
    assert Agrees(s, c);
    if c.Room? || c.Stored? {
      steps := PostFails(s);
    } else if c.Copied? || c.op == Get {
      steps := GetFails(s);
    } else {
      steps := PeekFails(s);
    }
  }

  /** A lagging call shows that the clear did not come first. */
  lemma LagShows(s: State) returns (steps: seq<Step>)
    requires Inv(s) && InitHarmless(s) && !ResetSafe(s)
    ensures Run(Reset(s), steps)
    ensures Replay([], |s.slots| - 1, History(Reset(s), steps)) != Some(Queue(After(Reset(s), steps)))
  {
    hide Run, After, History, Inv, Queue, Replay, Agrees;
    OwnerAgrees(s);
    HarmlessLags(s);
    var t, a, due := s.owner.value, Reset(s), Due(s);
    steps := LagRuns(a, t, due);
    ReplayOne([], |s.slots| - 1, due);
  }

  /** The rest of a lagging call, alone. */
  lemma LagRuns(s: State, t: Thread, due: Event) returns (steps: seq<Step>)
    requires Lagging(s, t, due)
    ensures Run(s, steps) && History(s, steps) == [due] && Queue(After(s, steps)) == []
  {
    hide Inv, Queue;
    if s.pc[t].Room? {
      LagOwn(s, t, due, Store(t));
      LagOwn(Apply(s, Store(t)), t, due, Publish(t));
      steps := [Store(t), Publish(t)];
      RunTwo(s, Store(t), Publish(t));
      assert History(s, steps) == [] + [due];
    } else {
      var l := if s.pc[t].Stored? then Publish(t) else Copy(t);
      LagOwn(s, t, due, l);
      steps := [l];
      RunOne(s, l);
    }
  }

  // ---------------------------------------------------------------- theorems

  /** Initialising a running pipeline at any moment, with nothing between the two
      stores: everything callers observe afterwards, in every interleaving, is what a queue that was emptied at that
      moment would have done, exactly when no thread is acting on an index test. */
  lemma ClearFirstExactly(s: State)
    requires Inv(s)
    ensures ResetSafe(s) <==> forall steps | Run(Reset(s), steps) ::
              Replay([], |s.slots| - 1, History(Reset(s), steps)) == Some(Queue(After(Reset(s), steps)))
  {
    hide Run, After, History, Inv, InitHarmless, ResetSafe, Queue, Replay, Explained;
    OwnerAgrees(s);
    if ResetSafe(s) {
      forall steps | Run(Reset(s), steps)
        ensures Replay([], |s.slots| - 1, History(Reset(s), steps)) == Some(Queue(After(Reset(s), steps)))
      {
        ResetKeepsInv(s);
        EffectsReplay(Reset(s), steps);
      }
    } else if InitHarmless(s) {
      var steps := LagShows(s);
    } else {
      var steps := HarmfulFails(s);
      if Replay([], |s.slots| - 1, History(Reset(s), steps)) == Some(Queue(After(Reset(s), steps))) {
        ClearedFirst(Queue(s), |s.slots| - 1, History(Reset(s), steps), Queue(After(Reset(s), steps)));
      }
    }
  }

  /** The same when the one call in the critical section may count as done just
      before the clear: everything callers observe is explained exactly when that
      call's position is harmless. */
  lemma InitExactly(s: State)
    requires Inv(s)
    ensures InitHarmless(s) <==> forall steps | Run(Reset(s), steps) ::
              Explained(Queue(s), |s.slots| - 1, History(Reset(s), steps), Queue(After(Reset(s), steps)))
  {
    hide Run, After, History, Inv, InitHarmless, Queue, Explained;
    OwnerAgrees(s);
    if InitHarmless(s) {
      forall steps | Run(Reset(s), steps)
        ensures Explained(Queue(s), |s.slots| - 1, History(Reset(s), steps), Queue(After(Reset(s), steps)))
      {
        HarmlessExplained(s, steps);
      }
    } else {
      var steps := HarmfulFails(s);
    }
  }

  lemma Extend(s: State, steps: seq<Step>, l: Step) returns (more: seq<Step>)
    requires Run(s, steps) && Enabled(After(s, steps), l)
    ensures more == steps + [l] && Run(s, more) && After(s, more) == Apply(After(s, steps), l)
    ensures History(s, more) == History(s, steps) + EventsOf(After(s, steps), l)
  {
    more := steps + [l];
    assert more[..|more| - 1] == steps;
    hide Apply, Enabled, EventsOf;
  }

  /** Nobody is in a call, nobody owns the mutex. */
  predicate AllIdle(s: State)
  {
    Shaped(s) && s.owner == None && forall t: Thread :: t < |s.pc| ==> s.pc[t] == Idle
  }

  /** A post by thread 0 while the others are idle, up to its signal. */
  lemma PostUpToSignal(s: State, steps: seq<Step>, r: Record) returns (more: seq<Step>)
    requires Run(s, steps) && AllIdle(After(s, steps)) && |s.pc| > 0
    requires After(s, steps).head == 0 && After(s, steps).tail == 0
    ensures Run(s, more)
    ensures var a, b := After(s, steps), After(s, more);
      && b.head == 0 && b.tail == 1 && b.slots == a.slots[0 := r] && b.owner == Some(0)
      && b.pc == a.pc[0 := Published(r)]
  {
    hide Run, After, History, EventsOf;
    more := PostUpToRoom(s, steps, r);
    more := Extend(s, more, Store(0));
    more := Extend(s, more, Publish(0));
  }

  lemma PostUpToRoom(s: State, steps: seq<Step>, r: Record) returns (more: seq<Step>)
    requires Run(s, steps) && AllIdle(After(s, steps)) && |s.pc| > 0
    requires After(s, steps).head == 0 && After(s, steps).tail == 0
    ensures Run(s, more)
    ensures var a, b := After(s, steps), After(s, more);
      b == a.(owner := Some(0), pc := a.pc[0 := Room(r, 1)])
  {
    hide Run, After, History, EventsOf;
    SuccessorCases(After(s, steps).slots, 0);
    more := Extend(s, steps, Call(0, Post(Some(r))));
    more := Extend(s, more, Acquire(0));
    more := Extend(s, more, Test(0));
  }

  /** One whole post by thread 0 while the others are idle. */
  lemma PostAlone(s: State, steps: seq<Step>, r: Record) returns (more: seq<Step>)
    requires Run(s, steps) && AllIdle(After(s, steps)) && |s.pc| > 0
    requires After(s, steps).head == 0 && After(s, steps).tail == 0
    ensures Run(s, more) && AllIdle(After(s, more))
    ensures var a := After(s, more); a.head == 0 && a.tail == 1 && a.slots[0] == r
  {
    hide Run, After, History, EventsOf;
    more := PostUpToSignal(s, steps, r);
    more := Extend(s, more, Signal(0, {}));
    more := Extend(s, more, Unlock(0));
    more := Extend(s, more, Return(0));
  }

  /** A get by thread 0, up to the point where it has copied its record. */
  lemma GetUpToCopied(s: State, steps: seq<Step>) returns (more: seq<Step>)
    requires Run(s, steps) && AllIdle(After(s, steps)) && |s.pc| > 0
    requires After(s, steps).head != After(s, steps).tail
    ensures Run(s, more)
    ensures var a, b := After(s, steps), After(s, more);
      && b.owner == Some(0) && b.pc[0] == Copied(b.slots[b.head], false)
      && b.head == a.head && b.slots == a.slots
  {
    hide Run, After, History, EventsOf;
    more := Extend(s, steps, Call(0, Get));
    more := Extend(s, more, Acquire(0));
    more := Extend(s, more, Test(0));
    more := Extend(s, more, Copy(0));
  }

  /** From every initial state with a thread in it, for any record: a run in
      which that record, and no other, is posted and a get has copied it. */
  lemma CopiedIsReachable(s: State, r: Record) returns (steps: seq<Step>)
    requires Initial(s) && |s.pc| > 0
    ensures Run(s, steps) && After(s, steps).pc[0] == Copied(r, false) && After(s, steps).owner == Some(0)
    ensures Inv(After(s, steps))
  {
    assert Run(s, []) && After(s, []) == s;
    hide Run, After, Inv;
    steps := PostAlone(s, [], r);
    steps := GetUpToCopied(s, steps);
    InitialInv(s);
    InvAlong(s, steps);
  }

  /** The failure happens: initialising in that run, and letting the get go on,
      leaves N - 1 records in a ring to which one was ever posted, and what
      callers observe is not explained. */
  lemma UnguardedInitFabricatesRecords(s: State, r: Record) returns (steps: seq<Step>)
    requires Initial(s) && |s.pc| > 0
    ensures Run(s, steps) && After(s, steps).pc[0] == Copied(r, false)
    ensures var a, b := After(s, steps), Reset(After(s, steps));
      && Run(b, [Take(0)]) && |Queue(After(b, [Take(0)]))| == |s.slots| - 1
      && !Explained(Queue(a), |s.slots| - 1, History(b, [Take(0)]), Queue(After(b, [Take(0)])))
  {
    hide Run, After, History, Inv, Explained, Queue;
    steps := CopiedIsReachable(s, r);
    var b := Reset(After(s, steps));
    RunOne(b, Take(0));
    TakeFabricates(b, 0);
    hide Enabled, Apply;
    var failing := GetFails(After(s, steps));
  }
}
