/** Whole programs: how often arguments are evaluated and messages printed,
    counted against the uses that a run actually executes. */
module Counting {
  import opened Wrappers
  import opened CSyntax
  import opened CSemantics
  import opened AssertMacros
  import opened Expansion
  import opened Traces

  /** The use is evaluated at all in this build. */
  predicate Live(b: Build, d: Spec) { !(b == Production && d.debugOnly) }

  /** The watched calls that evaluating the argument from `w`, one time, makes. */
  function OneEvaluation(k: Watch, m: Machine, b: Build, d: Spec, w: World): int
  {
    Tally(k, EvalArgument(m, b, d, w).w.log) - Tally(k, w.log)
  }

  /** What one execution of a use on line `at` owes, apart from its action: the
      watched calls of one evaluation of its argument, if it stands on the watched
      line; one message if it fails and talks. */
  function DueHere(k: Watch, line: nat, m: Machine, b: Build, at: nat, d: Spec, w: World): int
  {
    if !Live(b, d) then 0
    else match k
      case CallsOf(_) => if at == line then OneEvaluation(k, m, b, d, w) else 0
      case AnyMessage => if Fails(d, EvalArgument(m, b, d, w).v) && Talks(b, d) then 1 else 0
  }

  /** What the uses executed by running `s` from `w` owe together. */
  function Due(k: Watch, line: nat, m: Machine, b: Build, s: Stmt, w: World): int
    decreases w.fuel, Size(s), 2
  {
    match s
    case If(c, t) => var r := Eval(m, c, w); if r.v != 0 then Due(k, line, m, b, t, r.w) else 0
    case IfElse(c, t, e) =>
      var r := Eval(m, c, w);
      if r.v != 0 then Due(k, line, m, b, t, r.w) else Due(k, line, m, b, e, r.w)
    case While(c, body) =>
      var r := Eval(m, c, w);
      if r.v == 0 || w.fuel == 0 then 0
      else
        var w1 := r.w.(fuel := w.fuel - 1);
        var q := Exec(m, b, body, w1);
        Due(k, line, m, b, body, w1)
        + if q.out == Normal || q.out == Continued then Due(k, line, m, b, s, q.w) else 0
    case DoOnce(body) => Due(k, line, m, b, body, w)
    case Block(items) => DueFrom(k, line, m, b, items, items, w)
    case Use(at, macro) =>
      var d, a := Describe(macro), ActionOf(macro);
      var r := EvalArgument(m, b, d, w);
      DueHere(k, line, m, b, at, d, w)
      + if Live(b, d) && Fails(d, r.v) && a.Some? then Due(k, line, m, b, a.value, Reported(m, b, at, d, r)) else 0
    case _ => 0
  }

  function DueItems(k: Watch, line: nat, m: Machine, b: Build, items: Items, w: World): int
    decreases w.fuel, ItemsSize(items), 0
  {
    match items
    case End => 0
    case Then(s, rest) =>
      var r := Exec(m, b, s, w);
      Due(k, line, m, b, s, w) + if r.out == Normal then DueItems(k, line, m, b, rest, r.w) else 0
    case Local(x, e, rest) =>
      var r := Eval(m, e, Rebind(w, x, None));
      DueFrom(k, line, m, b, rest, rest, Rebind(r.w, x, Some(ToLong(m, r.v))))
    case Labelled(_, rest) => DueItems(k, line, m, b, rest, w)
  }

  function DueFrom(k: Watch, line: nat, m: Machine, b: Build, all: Items, cur: Items, w: World): int
    decreases w.fuel, ItemsSize(cur), 1
  {
    var r := ExecItems(m, b, cur, w);
    DueItems(k, line, m, b, cur, w)
    + if r.out.Jump? && HasLabel(all, r.out.target) && r.w.fuel > 0
      then DueFrom(k, line, m, b, all, From(all, r.out.target), r.w.(fuel := r.w.fuel - 1))
      else 0
  }

  // ---------------------------------------------------------------- tracked text

  predicate TrackedUse(k: Watch, line: nat, at: nat, d: Spec)
  {
    && InertMessage(k, d.message)
    && (!d.arg.Nothing? && !(k.CallsOf? && at == line) ==> InertExpr(k, d.arg.e))
  }

  /** Watched function: called in the arguments of the uses on the watched line
      and nowhere else. Messages: printed by uses only. */
  predicate Tracked(k: Watch, line: nat, s: Stmt)
    decreases Size(s)
  {
    match s
    case Do(e) => InertExpr(k, e)
    case If(c, t) => InertExpr(k, c) && Tracked(k, line, t)
    case IfElse(c, t, e) => InertExpr(k, c) && Tracked(k, line, t) && Tracked(k, line, e)
    case While(c, body) => InertExpr(k, c) && Tracked(k, line, body)
    case DoOnce(body) => Tracked(k, line, body)
    case Block(items) => TrackedItems(k, line, items)
    case Report(_, _, message, _, _) => k != AnyMessage && InertMessage(k, message)
    case Use(at, macro) =>
      && TrackedUse(k, line, at, Describe(macro))
      && (ActionOf(macro).Some? ==> Tracked(k, line, ActionOf(macro).value))
    case _ => true
  }

  predicate TrackedItems(k: Watch, line: nat, items: Items)
    decreases ItemsSize(items)
  {
    match items
    case End => true
    case Then(s, rest) => Tracked(k, line, s) && TrackedItems(k, line, rest)
    case Local(_, e, rest) => InertExpr(k, e) && TrackedItems(k, line, rest)
    case Labelled(_, rest) => TrackedItems(k, line, rest)
  }

  // ---------------------------------------------------------------- counting

  lemma ArgumentDue(k: Watch, line: nat, m: Machine, b: Build, at: nat, d: Spec, w: World)
    requires TrackedUse(k, line, at, d) && Live(b, d)
    ensures var r := EvalArgument(m, b, d, w);
      Tally(k, r.w.log) == Tally(k, w.log) + if k.CallsOf? && at == line then OneEvaluation(k, m, b, d, w) else 0
  {
    if !d.arg.Nothing? && !(k.CallsOf? && at == line) { EvalInert(k, m, d.arg.e, w); }
    hide Eval, Tally;
  }

  lemma {:induction false} ExecDue(k: Watch, line: nat, m: Machine, b: Build, s: Stmt, w: World)
    requires Tracked(k, line, s)
    ensures Tally(k, Exec(m, b, s, w).w.log) == Tally(k, w.log) + Due(k, line, m, b, s, w)
    decreases w.fuel, Size(s), 2
  {
    hide Eval, Emit, Tally, Reported, EvalArgument, InertExpr, ExecItems;
    match s
    case Null =>
    case Do(e) => EvalInert(k, m, e, w);
    case If(c, t) =>
      EvalInert(k, m, c, w);
      ExecDue(k, line, m, b, t, Eval(m, c, w).w);
    case IfElse(c, t, e) =>
      EvalInert(k, m, c, w);
      ExecDue(k, line, m, b, t, Eval(m, c, w).w);
      ExecDue(k, line, m, b, e, Eval(m, c, w).w);
    case While(_, _) => WhileDue(k, line, m, b, s, w);
    case DoOnce(body) => ExecDue(k, line, m, b, body, w);
    case Block(items) => FromDue(k, line, m, b, items, items, w);
    case Break =>
    case Continue =>
    case Goto(_) =>
    case Report(text, about, message, at, code) =>
      EmitTally(k, m, text, about, message, at, Eval(m, code, w).v, w);
    case Use(at, macro) =>
      var d, a := Describe(macro), ActionOf(macro);
      if Live(b, d) {
        ArgumentDue(k, line, m, b, at, d, w);
        var r := EvalArgument(m, b, d, w);
        ReportedTally(k, m, b, at, d, r);
        if a.Some? { ExecDue(k, line, m, b, a.value, Reported(m, b, at, d, r)); }
      }
  }

  lemma {:induction false} WhileDue(k: Watch, line: nat, m: Machine, b: Build, s: Stmt, w: World)
    requires s.While? && Tracked(k, line, s)
    ensures Tally(k, Exec(m, b, s, w).w.log) == Tally(k, w.log) + Due(k, line, m, b, s, w)
    decreases w.fuel, Size(s), 1
  {
    hide Eval, Tally, InertExpr, ExecItems, ExecFrom;
    EvalInert(k, m, s.c, w);
    var r := Eval(m, s.c, w);
    if r.v != 0 && w.fuel > 0 {
      var w1 := r.w.(fuel := w.fuel - 1);
      ExecDue(k, line, m, b, s.body, w1);
      var q := Exec(m, b, s.body, w1);
      if q.out == Normal || q.out == Continued { ExecDue(k, line, m, b, s, q.w); }
    }
  }

  lemma {:induction false} PassDue(k: Watch, line: nat, m: Machine, b: Build, items: Items, w: World)
    requires TrackedItems(k, line, items)
    ensures Tally(k, ExecItems(m, b, items, w).w.log) == Tally(k, w.log) + DueItems(k, line, m, b, items, w)
    decreases w.fuel, ItemsSize(items), 0
  {
    match items
    case End =>
    case Then(s, rest) =>
      ExecDue(k, line, m, b, s, w);
      var r := Exec(m, b, s, w);
      if r.out == Normal { PassDue(k, line, m, b, rest, r.w); }
    case Local(x, e, rest) =>
      EvalInert(k, m, e, Rebind(w, x, None));
      var r := Eval(m, e, Rebind(w, x, None));
      FromDue(k, line, m, b, rest, rest, Rebind(r.w, x, Some(ToLong(m, r.v))));
    case Labelled(_, rest) => PassDue(k, line, m, b, rest, w);
  }

  lemma {:induction false} FromDue(k: Watch, line: nat, m: Machine, b: Build, all: Items, cur: Items, w: World)
    requires TrackedItems(k, line, all) && TrackedItems(k, line, cur)
    ensures Tally(k, ExecFrom(m, b, all, cur, w).w.log) == Tally(k, w.log) + DueFrom(k, line, m, b, all, cur, w)
    decreases w.fuel, ItemsSize(cur), 1
  {
    hide Exec, ExecItems, Tally, DueItems, TrackedItems, ItemsSize;
    PassDue(k, line, m, b, cur, w);
    var r := ExecItems(m, b, cur, w);
    if r.out.Jump? && HasLabel(all, r.out.target) && r.w.fuel > 0 {
      TrackedFrom(k, line, all, r.out.target);
      FromDue(k, line, m, b, all, From(all, r.out.target), r.w.(fuel := r.w.fuel - 1));
    }
  }

  lemma {:induction false} TrackedFrom(k: Watch, line: nat, items: Items, l: Label)
    requires HasLabel(items, l) && TrackedItems(k, line, items)
    ensures TrackedItems(k, line, From(items, l))
  {
    match items
    case Then(_, rest) => TrackedFrom(k, line, rest, l);
    case Local(_, _, _) =>
    case Labelled(j, rest) => if j != l { TrackedFrom(k, line, rest, l); }
  }

  // ---------------------------------------------------------------- theorems

  /** Evaluate once, along every execution of every program: a function called
      only in the arguments of the uses on one line is called, by the expanded
      program, as often as one evaluation of the argument calls it, for each verify
      or require use on that line that the run executes; for each check so in debug
      and never in production. */
  lemma EvaluationsCounted(m: Machine, b: Build, s: Stmt, w: World, f: nat, line: nat)
    requires Tracked(CallsOf(f), line, s) && (b == Debug ==> Hygienic(s))
    ensures Tally(CallsOf(f), Exec(m, b, Expand(b, s), w).w.log)
         == Tally(CallsOf(f), w.log) + Due(CallsOf(f), line, m, b, s, w)
  {
    ExpandCorrect(m, b, s, w);
    ExecDue(CallsOf(f), line, m, b, s, w);
  }

  /** For an argument that is one call of the function, possibly negated, that is
      exactly one call. */
  lemma OneCallIsDueOnce(m: Machine, b: Build, line: nat, d: Spec, w: World, f: nat)
    requires !d.arg.Nothing? && OneCall(f, d.arg.e) && Live(b, d)
    ensures DueHere(CallsOf(f), line, m, b, line, d, w) == 1
  {
    OneCallCounts(m, f, d.arg.e, w);
    hide Eval, Tally;
  }

  /** Messages, along every execution of every program: the expanded program
      prints exactly one message for each failing, non-quiet use that a debug run
      executes, and none in production. */
  lemma MessagesCounted(m: Machine, b: Build, s: Stmt, w: World)
    requires Tracked(AnyMessage, 0, s) && (b == Debug ==> Hygienic(s))
    ensures Tally(AnyMessage, Exec(m, b, Expand(b, s), w).w.log)
         == Tally(AnyMessage, w.log) + Due(AnyMessage, 0, m, b, s, w)
  {
    ExpandCorrect(m, b, s, w);
    ExecDue(AnyMessage, 0, m, b, s, w);
  }
}
