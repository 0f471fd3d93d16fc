/** The event pipeline as a concurrent protocol: any number of threads, each
    with a program counter inside one of the calls, one mutex, one condition
    variable and the shared ring. Every access to the ring by a call, and every
    mutex or condition operation, is a step of its own, and steps of different
    threads interleave freely. Initialising is one step here, taken while the
    mutex is free; PipelineInit and PipelineSplitInit are about it at other
    moments and in its two stores. */
module Pipeline {
  import opened Wrappers
  import opened EventQueue
  import opened EventRing

  type Thread = nat

  datatype PC =
    | Idle
    | Locking(op: Op)                   // inside pthread_mutex_lock
    | Testing(op: Op, woken: bool)      // about to compare the indices
    | Room(record: Record, next: nat)   // post: not full, next tail computed
    | Stored(record: Record, next: nat) // post: slot written
    | Published(record: Record)         // post: tail advanced, not signalled yet
    | AboutToWait                       // get: saw an empty ring
    | Waiting                           // get: blocked on the condition
    | Relocking                         // get: woken, wants the mutex back
    | Found(op: Op, woken: bool)        // get or peek: saw a record
    | Copied(record: Record, woken: bool) // get: record copied out
    | Unlocking(op: Op, reply: Reply)
    | Returning(op: Op, reply: Reply)

  datatype State = State(
    slots: seq<Record>, head: nat, tail: nat,
    owner: Option<Thread>,
    pc: seq<PC>)

  datatype Step =
    | Call(t: Thread, op: Op)
    | Acquire(t: Thread)
    | Test(t: Thread)
    | Store(t: Thread)
    | Publish(t: Thread)
    | Signal(t: Thread, woken: set<Thread>)
    | Wait(t: Thread)
    | WakeUp(t: Thread)    // a wakeup nobody signalled
    | Copy(t: Thread)
    | Take(t: Thread)
    | Unlock(t: Thread)
    | Return(t: Thread)
    | Init

  predicate Shaped(s: State)
  {
    && 2 <= |s.slots| && s.head < |s.slots| && s.tail < |s.slots|
    && forall t: Thread :: t < |s.pc| && (s.pc[t].Room? || s.pc[t].Stored?) ==> s.pc[t].next < |s.slots|
  }

  function Queue(s: State): seq<Record>
    requires Shaped(s)
  {
    Live(s.slots, s.head, s.tail)
  }

  /** Which steps can be taken. Only taking the mutex and initialising look at
      its owner: that the ring is touched by the owner alone is a theorem. */
  predicate Enabled(s: State, l: Step)
  {
    match l
    case Call(t, _) => t < |s.pc| && s.pc[t].Idle?
    case Acquire(t) => t < |s.pc| && (s.pc[t].Locking? || s.pc[t].Relocking?) && s.owner == None
    case Test(t) => t < |s.pc| && s.pc[t].Testing?
    case Store(t) => t < |s.pc| && s.pc[t].Room?
    case Publish(t) => t < |s.pc| && s.pc[t].Stored?
    case Signal(t, woken) =>
      // wakes at least one waiting thread if there is any, possibly several
      && t < |s.pc| && s.pc[t].Published?
      && (forall w :: w in woken ==> w < |s.pc| && s.pc[w].Waiting?)
      && (woken == {} ==> forall w: Thread :: w < |s.pc| ==> !s.pc[w].Waiting?)
    case Wait(t) => t < |s.pc| && s.pc[t].AboutToWait?
    case WakeUp(t) => t < |s.pc| && s.pc[t].Waiting?
    case Copy(t) => t < |s.pc| && s.pc[t].Found?
    case Take(t) => t < |s.pc| && s.pc[t].Copied?
    case Unlock(t) => t < |s.pc| && s.pc[t].Unlocking?
    case Return(t) => t < |s.pc| && s.pc[t].Returning?
    case Init => s.owner == None
  }

  /** Where a thread goes when it compares the indices. */
  function Tested(s: State, c: PC): PC
    requires Shaped(s) && c.Testing?
  {
    match c.op
    case Post(None) => Unlocking(c.op, IllegalArgument)
    case Post(Some(r)) =>
      var next := Successor(s.slots, s.tail);
      if next == s.head then Unlocking(c.op, Refused) else Room(r, next)
    case Get => if s.head == s.tail then AboutToWait else Found(Get, c.woken)
    case Peek => if s.head == s.tail then Unlocking(Peek, NothingToSee) else Found(Peek, c.woken)
  }

  /** Blocked threads in `woken` leave the condition and queue for the mutex. */
  function Woken(pc: seq<PC>, woken: set<Thread>): (r: seq<PC>)
    ensures |r| == |pc|
    ensures forall i :: 0 <= i < |pc| ==> r[i] == if i in woken then Relocking else pc[i]
  {
    seq(|pc|, i requires 0 <= i < |pc| => if i in woken then Relocking else pc[i])
  }

  function Apply(s: State, l: Step): (s': State)
    requires Shaped(s) && Enabled(s, l)
    ensures Shaped(s') && |s'.pc| == |s.pc| && |s'.slots| == |s.slots|
  {
    match l
    case Call(t, op) =>
      s.(pc := s.pc[t := if op == Post(None) then Returning(op, IllegalArgument) else Locking(op)])
    case Acquire(t) =>
      s.(owner := Some(t),
         pc := s.pc[t := if s.pc[t].Relocking? then Testing(Get, true) else Testing(s.pc[t].op, false)])
    case Test(t) => s.(pc := s.pc[t := Tested(s, s.pc[t])])
    case Store(t) =>
      s.(slots := s.slots[s.tail := s.pc[t].record], pc := s.pc[t := Stored(s.pc[t].record, s.pc[t].next)])
    case Publish(t) => s.(tail := s.pc[t].next, pc := s.pc[t := Published(s.pc[t].record)])
    case Signal(t, woken) =>
      s.(pc := Woken(s.pc, woken)[t := Unlocking(Post(Some(s.pc[t].record)), Accepted)])
    case Wait(t) => s.(owner := None, pc := s.pc[t := Waiting])
    case WakeUp(t) => s.(pc := s.pc[t := Relocking])
    case Copy(t) =>
      var r := s.slots[s.head];
      s.(pc := s.pc[t := if s.pc[t].op == Get then Copied(r, s.pc[t].woken) else Unlocking(s.pc[t].op, Seen(r))])
    case Take(t) =>
      s.(head := Successor(s.slots, s.head), pc := s.pc[t := Unlocking(Get, Got(s.pc[t].record))])
    case Unlock(t) => s.(owner := None, pc := s.pc[t := Returning(s.pc[t].op, s.pc[t].reply)])
    case Return(t) => s.(pc := s.pc[t := Idle])
    case Init => s.(head := 0, tail := 0)
  }

  /** Nobody's step depends on the others, whatever they are doing: an idle
      thread can make any call, every other one can take its next step, and only
      taking the mutex has to wait until it is free. A signal may wake any of the
      blocked threads, at least one if there are any; a blocked thread may also wake
      up by itself. */
  lemma StepsInterleaveFreely(s: State, t: Thread, op: Op, woken: set<Thread>)
    requires t < |s.pc| && forall w :: w in woken ==> w < |s.pc| && s.pc[w] == Waiting
    ensures s.pc[t] == Idle ==> Enabled(s, Call(t, op))
    ensures s.pc[t].Locking? || s.pc[t].Relocking? ==> (Enabled(s, Acquire(t)) <==> s.owner == None)
    ensures s.pc[t].Testing? ==> Enabled(s, Test(t))
    ensures s.pc[t].Room? ==> Enabled(s, Store(t))
    ensures s.pc[t].Stored? ==> Enabled(s, Publish(t))
    ensures s.pc[t].Published? && woken != {} ==> Enabled(s, Signal(t, woken))
    ensures s.pc[t].Published? ==> (Enabled(s, Signal(t, {})) <==> Waiting !in s.pc)
    ensures s.pc[t] == AboutToWait ==> Enabled(s, Wait(t))
    ensures s.pc[t] == Waiting ==> Enabled(s, WakeUp(t))
    ensures s.pc[t].Found? ==> Enabled(s, Copy(t))
    ensures s.pc[t].Copied? ==> Enabled(s, Take(t))
    ensures s.pc[t].Unlocking? ==> Enabled(s, Unlock(t))
    ensures s.pc[t].Returning? ==> Enabled(s, Return(t))
  {}

  /** The state the process starts in, for any ring size and thread count. */
  predicate Initial(s: State)
  {
    && 2 <= |s.slots| && s.head == 0 && s.tail == 0 && s.owner == None
    && forall t: Thread :: t < |s.pc| ==> s.pc[t] == Idle
  }

  /** `steps` can be taken from `s`, one after another. */
  predicate Run(s: State, steps: seq<Step>)
    decreases |steps|, 0
  {
    && Shaped(s)
    && (steps == []
        || (Run(s, steps[..|steps| - 1]) && Enabled(After(s, steps[..|steps| - 1]), steps[|steps| - 1])))
  }

  function After(s: State, steps: seq<Step>): (s': State)
    requires Run(s, steps)
    ensures Shaped(s') && |s'.pc| == |s.pc| && |s'.slots| == |s.slots|
    decreases |steps|, 1
  {
    if steps == [] then s else Apply(After(s, steps[..|steps| - 1]), steps[|steps| - 1])
  }

  // ---------------------------------------------------------------- counting

  /** A weight of each thread's position, summed over all threads. */
  function Sum(pc: seq<PC>, weight: PC -> nat): nat
  {
    if pc == [] then 0 else Sum(pc[..|pc| - 1], weight) + weight(pc[|pc| - 1])
  }

  lemma {:induction false} SumUpdate(pc: seq<PC>, t: nat, c: PC, weight: PC -> nat)
    requires t < |pc|
    ensures Sum(pc[t := c], weight) + weight(pc[t]) == Sum(pc, weight) + weight(c)
  {
    var n := |pc| - 1;
    if t == n {
      assert pc[t := c][..n] == pc[..n];
    } else {
      assert pc[t := c][..n] == pc[..n][t := c];
      SumUpdate(pc[..n], t, c, weight);
    }
  }

  /** How many of the threads 0..n are in `woken`. */
  function Members(woken: set<Thread>, n: nat): (k: nat)
    ensures k <= n
  {
    if n == 0 then 0 else Members(woken, n - 1) + if n - 1 in woken then 1 else 0
  }

  lemma {:induction false} MembersPositive(woken: set<Thread>, n: nat, w: Thread)
    requires w in woken && w < n
    ensures Members(woken, n) >= 1
  {
    if w < n - 1 { MembersPositive(woken, n - 1, w); }
  }

  lemma OneMore(k: nat, d: int)
    ensures (k + 1) * d == k * d + d
  {}

  lemma {:induction false} SumWoken(pc: seq<PC>, woken: set<Thread>, weight: PC -> nat)
    requires forall w :: w in woken && w < |pc| ==> pc[w] == Waiting
    ensures Sum(Woken(pc, woken), weight)
         == Sum(pc, weight) + Members(woken, |pc|) * (weight(Relocking) - weight(Waiting))
  {
    if pc != [] {
      var n := |pc| - 1;
      assert Woken(pc, woken)[..n] == Woken(pc[..n], woken);
      SumWoken(pc[..n], woken, weight);
      assert Sum(Woken(pc, woken), weight) == Sum(Woken(pc[..n], woken), weight) + weight(Woken(pc, woken)[n]);
      hide Sum, Woken;
      OneMore(Members(woken, n), weight(Relocking) - weight(Waiting));
    }
  }

  /** A sum is positive exactly when some thread has weight. */
  lemma {:induction false} SumPositive(pc: seq<PC>, weight: PC -> nat)
    ensures Sum(pc, weight) > 0 <==> exists t: Thread :: t < |pc| && weight(pc[t]) > 0
  {
    if pc != [] {
      var n := |pc| - 1;
      SumPositive(pc[..n], weight);
      if Sum(pc[..n], weight) > 0 {
        var t: Thread :| t < n && weight(pc[..n][t]) > 0;
        assert weight(pc[t]) > 0;
      } else {
        forall t: Thread | t < n ensures weight(pc[t]) == 0 {
          assert pc[..n][t] == pc[t];
        }
      }
    }
  }
}
