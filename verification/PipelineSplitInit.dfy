/** The initialiser as the two unlocked stores it is: `head`, then anything the
    other threads do, then `tail`. */
module PipelineSplitInit {
  import opened Wrappers
  import opened EventQueue
  import opened EventRing
  import opened Pipeline
  import opened PipelineSafety
  import opened PipelineHistory
  import opened PipelineInit

  function HeadStore(s: State): (s': State)
    ensures Shaped(s) ==> Shaped(s')
  {
    s.(head := 0)
  }

  function TailStore(s: State): (s': State)
    ensures Shaped(s) ==> Shaped(s')
  {
    s.(tail := 0)
  }

  /** The head is stored in `s`, the threads run `between`, the tail is stored,
      the threads run `later`. */
  predicate SplitRun(s: State, between: seq<Step>, later: seq<Step>)
  {
    Run(HeadStore(s), between) && Run(TailStore(After(HeadStore(s), between)), later)
  }

  function SplitEnd(s: State, between: seq<Step>, later: seq<Step>): State
    requires SplitRun(s, between, later)
  {
    After(TailStore(After(HeadStore(s), between)), later)
  }

  /** The clear placed after the first `k` events between the two stores. */
  ghost predicate ClearedAt(q: seq<Record>, capacity: nat, between: seq<Event>, later: seq<Event>, k: nat, end: seq<Record>)
    requires k <= |between|
  {
    var r := Replay(q, capacity, between[..k]);
    r.Some? && Explained(r.value, capacity, between[k..] + later, end)
  }

  /** The queue explains what callers observe, with the clear placed anywhere
      between the two stores. */
  ghost predicate SplitExplained(q: seq<Record>, capacity: nat, between: seq<Event>, later: seq<Event>, end: seq<Record>)
  {
    exists k: nat :: k <= |between| && ClearedAt(q, capacity, between, later, k, end)
  }

  /** A call of get that has not found a record. */
  predicate Seeking(c: PC)
  {
    || (c.Locking? && c.op == Get)
    || (c.Testing? && c.op == Get)
    || c.AboutToWait? || c.Waiting? || c.Relocking?
  }

  /** There is no thread at all, or every thread is in a get that has not found
      a record and the tail is at slot 0 already. */
  predicate SplitHarmless(s: State)
  {
    |s.pc| == 0 || (s.tail == 0 && forall t: Thread :: t < |s.pc| ==> Seeking(s.pc[t]))
  }

  // ---------------------------------------------------------------- nothing can happen

  predicate Quiet(s: State)
  {
    && Shaped(s) && s.head == 0 && (|s.pc| == 0 || s.tail == 0)
    && forall t: Thread :: t < |s.pc| ==> Seeking(s.pc[t])
  }

  predicate OnlyClears(h: seq<Event>) { forall i :: 0 <= i < |h| ==> h[i].Cleared? }

  lemma QuietStep(s: State, l: Step)
    requires Quiet(s) && Enabled(s, l)
    ensures Quiet(Apply(s, l)) && OnlyClears(EventsOf(s, l)) && (s.tail == 0 ==> Apply(s, l).tail == 0)
  {
    if !l.Init? { assert Seeking(s.pc[l.t]); }
    hide Successor;
  }

  lemma {:induction false} QuietRun(s: State, steps: seq<Step>)
    requires Quiet(s) && Run(s, steps)
    ensures Quiet(After(s, steps)) && OnlyClears(History(s, steps)) && (s.tail == 0 ==> After(s, steps).tail == 0)
    decreases |steps|
  {
    hide Quiet, Enabled, Apply, EventsOf;
    if steps != [] {
      QuietRun(s, steps[..|steps| - 1]);
      QuietStep(After(s, steps[..|steps| - 1]), steps[|steps| - 1]);
    }
  }

  lemma {:induction false} ReplayClears(capacity: nat, h: seq<Event>)
    requires OnlyClears(h)
    ensures Replay([], capacity, h) == Some([])
    decreases |h|
  {
    if h != [] { ReplayClears(capacity, h[..|h| - 1]); }
  }

  lemma HarmlessSplit(s: State, between: seq<Step>, later: seq<Step>)
    requires Inv(s) && SplitHarmless(s) && SplitRun(s, between, later)
    ensures SplitExplained(Queue(s), |s.slots| - 1, History(HeadStore(s), between),
                           History(TailStore(After(HeadStore(s), between)), later), Queue(SplitEnd(s, between, later)))
  {
    OwnerAgrees(s);
    assert Quiet(HeadStore(s));
    hide Run, After, History, Inv, Replay, Explained;
    var a := HeadStore(s);
    QuietRun(a, between);
    var b := TailStore(After(a, between));
    QuietRun(b, later);
    var h, g, q, capacity := History(a, between), History(b, later), Queue(s), |s.slots| - 1;
    assert Queue(After(b, later)) == [];
    assert OnlyClears(h + g);
    ReplayClears(capacity, h + g);
    assert h[..0] == [] && h[0..] == h;
    ReplayFromStart(q, capacity);
    ClearedFirst(q, capacity, h + g, []);
    assert ClearedAt(q, capacity, h, g, 0, []);
  }

  lemma ReplayFromStart(q: seq<Record>, capacity: nat)
    ensures Replay(q, capacity, []) == Some(q)
  {}

  // ---------------------------------------------------------------- what cannot be explained

  lemma {:induction false} ReplayBounded(q: seq<Record>, capacity: nat, h: seq<Event>)
    requires |q| <= capacity && Replay(q, capacity, h).Some?
    ensures |Replay(q, capacity, h).value| <= capacity
    decreases |h|
  {
    if h != [] { ReplayBounded(q, capacity, h[..|h| - 1]); }
  }

  /** After a get there is room. */
  lemma RoomAfterGet(q: seq<Record>, capacity: nat, h: seq<Event>)
    requires |q| <= capacity && Replay(q, capacity, h).Some?
    requires h != [] && h[|h| - 1].Effect? && h[|h| - 1].op == Get
    ensures |Replay(q, capacity, h).value| < capacity
  {
    ReplayBounded(q, capacity, h[..|h| - 1]);
  }

  /** A full ring after nothing but one get. */
  lemma OneGetNotExplained(q: seq<Record>, capacity: nat, e: Event, end: seq<Record>)
    requires |q| <= capacity == |end| && capacity > 0 && e.Effect? && e.op == Get
    ensures !Explained(q, capacity, [e], end)
  {
    hide Explained;
    if Explained(q, capacity, [e], end) { OneEffect(q, capacity, e, end); }
  }

  /** A full ring right after a get that was called after the clear. */
  lemma LastGetNotExplained(q: seq<Record>, capacity: nat, h: seq<Event>, end: seq<Record>)
    requires |q| <= capacity == |end| && |h| >= 2
    requires h[|h| - 1].Effect? && h[|h| - 1].op == Get && h[|h| - 2] == Invoked(h[|h| - 1].t, Get)
    ensures !Explained(q, capacity, h, end)
  {
    hide Replay;
    var n := |h| - 1;
    if Replay(q, capacity, [Cleared] + h) == Some(end) { RoomAfterGet(q, capacity, [Cleared] + h); }
    forall m: nat | m < |h|
      ensures !ExplainedBefore(q, capacity, h, m, end)
    {
      var moved := [h[m], Cleared] + h[..m] + h[m + 1..];
      if m == n {
        assert h[n - 1].t == h[n].t;
      } else if Replay(q, capacity, moved) == Some(end) {
        assert moved[|moved| - 1] == h[n];
        RoomAfterGet(q, capacity, moved);
      }
    }
  }

  lemma NothingNotExplained(q: seq<Record>, capacity: nat, end: seq<Record>)
    requires end != []
    ensures !Explained(q, capacity, [], end)
  {
    ReplayClear(q, capacity, []);
  }

  /** A full ring at the end of events that end in a get, alone or right after
      its call, is not explained wherever the clear is placed. */
  lemma FullAfterGet(q: seq<Record>, capacity: nat, h: seq<Event>, end: seq<Record>)
    requires |q| <= capacity == |end| && capacity > 0 && h != []
    requires h[|h| - 1].Effect? && h[|h| - 1].op == Get
    requires |h| == 1 || h[|h| - 2] == Invoked(h[|h| - 1].t, Get)
    ensures !SplitExplained(q, capacity, h, [], end)
  {
    hide Replay, Explained;
    forall k: nat | k <= |h|
      ensures !ClearedAt(q, capacity, h, [], k, end)
    {
      var r, rest := Replay(q, capacity, h[..k]), h[k..];
      assert rest + [] == rest;
      if r.Some? {
        ReplayBounded(q, capacity, h[..k]);
        if k == |h| {
          assert rest == [];
          NothingNotExplained(r.value, capacity, end);
        } else if k == |h| - 1 {
          assert rest == [h[k]];
          OneGetNotExplained(r.value, capacity, h[k], end);
        } else {
          assert rest[|rest| - 1] == h[|h| - 1] && rest[|rest| - 2] == h[|h| - 2];
          LastGetNotExplained(r.value, capacity, rest, end);
        }
      }
    }
  }

  // ---------------------------------------------------------------- driving one thread

  /** There is no event yet, or the last one is the call of get by `t`. */
  predicate NothingElse(a: State, steps: seq<Step>, t: Thread)
    requires Run(a, steps)
  {
    var h := History(a, steps); h == [] || h[|h| - 1] == Invoked(t, Get)
  }

  /** Thread `t` has copied a record from slot 0 and is about to advance the
      head. */
  predicate Poised(a: State, steps: seq<Step>, t: Thread)
  {
    && Run(a, steps) && t < |a.pc|
    && After(a, steps).pc[t].Copied? && After(a, steps).head == 0 && NothingElse(a, steps, t)
  }

  /** A get goes on, with the mutex, over a ring that looks non-empty. */
  lemma GetGoesOn(a: State, steps: seq<Step>, t: Thread) returns (more: seq<Step>)
    requires Run(a, steps) && t < |a.pc| && NothingElse(a, steps, t)
    requires var x := After(a, steps);
      && x.head == 0
      && (|| x.pc[t].Copied?
          || (x.pc[t].Found? && x.pc[t].op == Get)
          || (x.pc[t].Testing? && x.pc[t].op == Get && x.tail != 0))
    ensures Poised(a, more, t)
  {
    hide Run, After, History;
    more := steps;
    if After(a, more).pc[t].Testing? { more := Extend(a, more, Test(t)); }
    if After(a, more).pc[t].Found? { more := Extend(a, more, Copy(t)); }
  }

  /** A get outside the critical section takes the mutex and goes on. */
  lemma GetComesIn(a: State, steps: seq<Step>, t: Thread) returns (more: seq<Step>)
    requires Run(a, steps) && t < |a.pc| && NothingElse(a, steps, t)
    requires var x := After(a, steps);
      x.head == 0 && x.tail != 0 && x.owner == None && Seeking(x.pc[t]) && !InSection(x.pc[t])
    ensures Poised(a, more, t)
  {
    hide Run, After, History;
    more := steps;
    if After(a, more).pc[t].Waiting? { more := Extend(a, more, WakeUp(t)); }
    more := Extend(a, more, Acquire(t));
    more := GetGoesOn(a, more, t);
  }

  /** Thread `t` is idle and the mutex free, with the head still at slot 0. */
  predicate FreeAt(x: State, t: Thread)
  {
    Shaped(x) && t < |x.pc| && x.owner == None && x.head == 0 && x.pc[t] == Idle
  }

  function Blocked(x: State): set<Thread>
  {
    set w: Thread | w < |x.pc| && x.pc[w].Waiting?
  }

  lemma SignalAll(x: State, t: Thread)
    requires t < |x.pc| && x.pc[t].Published?
    ensures Enabled(x, Signal(t, Blocked(x)))
  {
    forall w: Thread | w < |x.pc| && x.pc[w].Waiting?
      ensures w in Blocked(x)
    {}
  }

  lemma Leave(a: State, steps: seq<Step>, t: Thread) returns (more: seq<Step>)
    requires Run(a, steps) && t < |a.pc| && After(a, steps).head == 0
    requires After(a, steps).pc[t].Published? || After(a, steps).pc[t].Unlocking?
    ensures Run(a, more) && FreeAt(After(a, more), t) && After(a, more).tail == After(a, steps).tail
  {
    hide Run, After, History;
    more := steps;
    if After(a, more).pc[t].Published? {
      SignalAll(After(a, more), t);
      more := Extend(a, more, Signal(t, Blocked(After(a, more))));
    }
    more := Extend(a, more, Unlock(t));
    more := Extend(a, more, Return(t));
  }

  /** A post or a peek in the critical section runs to its end. */
  lemma RunsOut(a: State, steps: seq<Step>, t: Thread) returns (more: seq<Step>)
    requires Run(a, steps) && t < |a.pc| && After(a, steps).head == 0
    requires var c := After(a, steps).pc[t];
      || c.Room? || c.Stored? || c.Published? || c.Unlocking?
      || ((c.Testing? || c.Found?) && c.op != Get)
    ensures Run(a, more) && FreeAt(After(a, more), t)
  {
    hide Run, After, History;
    more := steps;
    if After(a, more).pc[t].Testing? { more := Extend(a, more, Test(t)); }
    if After(a, more).pc[t].Found? { more := Extend(a, more, Copy(t)); }
    if After(a, more).pc[t].Room? { more := Extend(a, more, Store(t)); }
    if After(a, more).pc[t].Stored? { more := Extend(a, more, Publish(t)); }
    more := Leave(a, more, t);
  }

  lemma PostsOne(a: State, steps: seq<Step>, t: Thread) returns (more: seq<Step>)
    requires Run(a, steps) && t < |a.pc| && FreeAt(After(a, steps), t) && After(a, steps).tail == 0
    ensures Run(a, more) && FreeAt(After(a, more), t) && After(a, more).tail == 1
  {
    hide Run, After, History;
    var x := After(a, steps);
    SuccessorCases(x.slots, 0);
    more := Extend(a, steps, Call(t, Post(Some(x.slots[0]))));
    more := Extend(a, more, Acquire(t));
    more := Extend(a, more, Test(t));
    more := Extend(a, more, Store(t));
    more := Extend(a, more, Publish(t));
    more := Leave(a, more, t);
  }

  /** An idle thread posts, if it has to, and gets. */
  lemma IdleGets(a: State, steps: seq<Step>, t: Thread) returns (more: seq<Step>)
    requires Run(a, steps) && t < |a.pc| && FreeAt(After(a, steps), t)
    ensures Poised(a, more, t)
  {
    hide Run, After, History;
    more := steps;
    if After(a, more).tail == 0 { more := PostsOne(a, more, t); }
    more := Extend(a, more, Call(t, Get));
    more := GetComesIn(a, more, t);
  }

  /** A thread that is not in a get, with the mutex free. */
  lemma OutsiderGets(a: State, steps: seq<Step>, t: Thread) returns (more: seq<Step>)
    requires Run(a, steps) && t < |a.pc|
    requires var x := After(a, steps); x.owner == None && x.head == 0 && !Seeking(x.pc[t]) && !InSection(x.pc[t])
    ensures Poised(a, more, t)
  {
    hide Run, After, History;
    more := steps;
    if After(a, more).pc[t].Returning? {
      more := Extend(a, more, Return(t));
    } else if After(a, more).pc[t].Locking? {
      more := Extend(a, more, Acquire(t));
      more := RunsOut(a, more, t);
    }
    more := IdleGets(a, more, t);
  }

  // ---------------------------------------------------------------- every other state fails

  lemma FromFree(a: State) returns (steps: seq<Step>, t: Thread)
    requires Shaped(a) && MutexHeld(a) && a.head == 0 && !SplitHarmless(a) && a.owner == None
    ensures Poised(a, steps, t)
  {
    assert Run(a, []) && After(a, []) == a && History(a, []) == [];
    hide Run, After, History;
    if u: Thread :| u < |a.pc| && !Seeking(a.pc[u]) {
      t := u;
      steps := OutsiderGets(a, [], t);
    } else {
      t := 0;
      assert Seeking(a.pc[0]) && !InSection(a.pc[0]);
      steps := GetComesIn(a, [], t);
    }
  }

  /** The owner's get blocks, and leaves the mutex to the others. */
  lemma OwnerWaits(a: State, t: Thread) returns (steps: seq<Step>)
    requires Shaped(a) && t < |a.pc| && a.head == 0
    requires a.pc[t].AboutToWait? || (a.pc[t].Testing? && a.pc[t].op == Get && a.tail == 0)
    ensures Run(a, steps) && History(a, steps) == []
    ensures After(a, steps) == a.(owner := None, pc := a.pc[t := Waiting])
  {
    assert Run(a, []) && After(a, []) == a && History(a, []) == [];
    hide Run, After, History;
    steps := [];
    if a.pc[t].Testing? { steps := Extend(a, steps, Test(t)); }
    steps := Extend(a, steps, Wait(t));
  }

  lemma FromOwned(a: State) returns (steps: seq<Step>, t: Thread)
    requires Shaped(a) && MutexHeld(a) && a.head == 0 && !SplitHarmless(a) && a.owner.Some?
    ensures Poised(a, steps, t)
  {
    assert Run(a, []) && After(a, []) == a && History(a, []) == [];
    hide Run, After, History;
    t := a.owner.value;
    var c := a.pc[t];
    if c.AboutToWait? || (c.Testing? && c.op == Get && a.tail == 0) {
      steps := OwnerWaits(a, t);
      if u: Thread :| u < |a.pc| && !Seeking(a.pc[u]) {
        t := u;
        assert !InSection(a.pc[u]);
        steps := OutsiderGets(a, steps, t);
      } else {
        steps := GetComesIn(a, steps, t);
      }
    } else if c.Copied? || ((c.Found? || c.Testing?) && c.op == Get) {
      steps := GetGoesOn(a, [], t);
    } else {
      steps := RunsOut(a, [], t);
      steps := IdleGets(a, steps, t);
    }
  }

  /** The last step and the second store: a ring of N - 1 records. */
  lemma PoisedFills(a: State, steps: seq<Step>, t: Thread) returns (between: seq<Step>, r: Record)
    requires Poised(a, steps, t)
    ensures between == steps + [Take(t)] && Run(a, between)
    ensures History(a, between) == History(a, steps) + [Effect(t, Get, Got(r))]
    ensures |Queue(TailStore(After(a, between)))| == |a.slots| - 1
  {
    hide Run, History;
    r := After(a, steps).pc[t].record;
    SuccessorCases(After(a, steps).slots, 0);
    between := Extend(a, steps, Take(t));
    hide After;
  }

  lemma SplitFails(s: State) returns (between: seq<Step>)
    requires Inv(s) && !SplitHarmless(s)
    ensures SplitRun(s, between, [])
    ensures !SplitExplained(Queue(s), |s.slots| - 1, History(HeadStore(s), between), [],
                            Queue(TailStore(After(HeadStore(s), between))))
  {
    hide Run, After, History, Inv, Queue, SplitExplained, SplitHarmless, MutexHeld, Poised;
    var a := HeadStore(s);
    HeadStoreKeeps(s);
    var steps, t;
    if a.owner.None? { steps, t := FromFree(a); } else { steps, t := FromOwned(a); }
    var r;
    between, r := PoisedFills(a, steps, t);
    NoSteps(TailStore(After(a, between)));
    PoisedHistory(a, steps, t);
    FullAfterGet(Queue(s), |s.slots| - 1, History(a, between), Queue(TailStore(After(a, between))));
  }

  lemma HeadStoreKeeps(s: State)
    requires Inv(s)
    ensures Shaped(s) && Shaped(HeadStore(s)) && MutexHeld(HeadStore(s)) && |Queue(s)| <= |s.slots| - 1
    ensures SplitHarmless(HeadStore(s)) == SplitHarmless(s)
  {
    FullExactly(s.slots, s.head, s.tail);
    hide NoLostWakeup, AllAgree;
  }

  lemma PoisedHistory(a: State, steps: seq<Step>, t: Thread)
    requires Poised(a, steps, t)
    ensures var h := History(a, steps); h == [] || h[|h| - 1] == Invoked(t, Get)
  {}

  lemma NoSteps(s: State)
    requires Shaped(s)
    ensures Run(s, []) && After(s, []) == s && History(s, []) == []
  {}

  // ---------------------------------------------------------------- theorems

  /** The two stores at any moment, with anything between them: what callers
      observe is explained by the queue in every interleaving, with the clear placed
      anywhere between the stores, exactly when there is no thread, or all of them are
      in gets that have not found a record and the tail is at slot 0. From every
      other state some interleaving fills the ring with records nobody posted. */
  lemma SplitInitExactly(s: State)
    requires Inv(s)
    ensures SplitHarmless(s) <==> forall between, later | SplitRun(s, between, later) ::
              SplitExplained(Queue(s), |s.slots| - 1, History(HeadStore(s), between),
                             History(TailStore(After(HeadStore(s), between)), later), Queue(SplitEnd(s, between, later)))
  {
    OwnerAgrees(s);
    hide Run, After, History, Inv, Queue, SplitExplained, SplitHarmless;
    if SplitHarmless(s) {
      forall between, later | SplitRun(s, between, later)
        ensures SplitExplained(Queue(s), |s.slots| - 1, History(HeadStore(s), between),
                               History(TailStore(After(HeadStore(s), between)), later), Queue(SplitEnd(s, between, later)))
      {
        HarmlessSplit(s, between, later);
      }
    } else {
      var between := SplitFails(s);
      NoSteps(TailStore(After(HeadStore(s), between)));
      assert SplitRun(s, between, []);
    }
  }

  /** So it is in the state the process starts in, as soon as there is a thread. */
  lemma SplitFailsFromStart(s: State) returns (between: seq<Step>)
    requires Initial(s) && |s.pc| > 0
    ensures SplitRun(s, between, [])
    ensures !SplitExplained(Queue(s), |s.slots| - 1, History(HeadStore(s), between), [],
                            Queue(TailStore(After(HeadStore(s), between))))
  {
    hide SplitExplained, Run, After, History;
    InitialInv(s);
    assert s.pc[0] == Idle && !Seeking(s.pc[0]);
    between := SplitFails(s);
  }

  /** Steps that neither read nor write the tail. */
  predicate LeavesTail(l: Step) { !l.Test? && !l.Store? && !l.Publish? }

  lemma TailDoesNotMatter(s: State, l: Step)
    requires Shaped(s) && LeavesTail(l) && Enabled(s, l)
    ensures Enabled(TailStore(s), l) && Apply(TailStore(s), l) == TailStore(Apply(s, l))
    ensures EventsOf(TailStore(s), l) == EventsOf(s, l)
  {}

  lemma {:induction false} StoresCommute(s: State, between: seq<Step>)
    requires Run(HeadStore(s), between) && forall i :: 0 <= i < |between| ==> LeavesTail(between[i])
    ensures Run(Reset(s), between) && After(Reset(s), between) == TailStore(After(HeadStore(s), between))
    ensures History(Reset(s), between) == History(HeadStore(s), between)
    decreases |between|
  {
    hide Enabled, Apply, EventsOf, Shaped;
    assert Reset(s) == TailStore(HeadStore(s));
    if between != [] {
      var n := |between| - 1;
      assert forall i :: 0 <= i < n ==> between[..n][i] == between[i];
      StoresCommute(s, between[..n]);
      TailDoesNotMatter(After(HeadStore(s), between[..n]), between[n]);
    }
  }

  lemma {:induction false} RunAppend(s: State, a: seq<Step>, b: seq<Step>)
    requires Run(s, a) && Run(After(s, a), b)
    ensures Run(s, a + b) && After(s, a + b) == After(After(s, a), b)
    ensures History(s, a + b) == History(s, a) + History(After(s, a), b)
    decreases |b|
  {
    hide Enabled, Apply, EventsOf, Shaped;
    if b == [] {
      assert a + b == a;
    } else {
      var n := |b| - 1;
      RunAppend(s, a, b[..n]);
      assert (a + b)[..|a + b| - 1] == a + b[..n];
    }
  }

  /** If no thread tests the indices, stores or publishes between the two
      stores, they are as good as one: the run is one after a single reset. */
  lemma SplitActsAsOne(s: State, between: seq<Step>, later: seq<Step>)
    requires SplitRun(s, between, later) && forall i :: 0 <= i < |between| ==> LeavesTail(between[i])
    ensures var h := History(HeadStore(s), between) + History(TailStore(After(HeadStore(s), between)), later);
      && Run(Reset(s), between + later)
      && History(Reset(s), between + later) == h
      && After(Reset(s), between + later) == SplitEnd(s, between, later)
  {
    hide Run, After, History, Inv;
    StoresCommute(s, between);
    RunAppend(Reset(s), between, later);
  }

  /** So what holds after a single reset holds of the two stores then. */
  lemma SplitWithoutTest(s: State, between: seq<Step>, later: seq<Step>)
    requires Inv(s) && SplitRun(s, between, later) && forall i :: 0 <= i < |between| ==> LeavesTail(between[i])
    ensures var h := History(HeadStore(s), between) + History(TailStore(After(HeadStore(s), between)), later);
      && (InitHarmless(s) ==> Explained(Queue(s), |s.slots| - 1, h, Queue(SplitEnd(s, between, later))))
      && (ResetSafe(s) ==> Replay([], |s.slots| - 1, h) == Some(Queue(SplitEnd(s, between, later))))
  {
    hide Run, After, History, Inv, Queue, Explained, Replay, InitHarmless, ResetSafe;
    OwnerAgrees(s);
    SplitActsAsOne(s, between, later);
    if InitHarmless(s) { HarmlessExplained(s, between + later); }
    if ResetSafe(s) {
      ResetKeepsInv(s);
      EffectsReplay(Reset(s), between + later);
    }
  }
}
