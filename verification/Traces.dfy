/** What a run lets an observer see: which messages, and how often a macro's
    argument is evaluated. */
module Traces {
  import opened Wrappers
  import opened CSyntax
  import opened CSemantics
  import opened AssertMacros
  import opened Expansion

  /** What to look for in the log: any message, or calls of one function. */
  datatype Watch = AnyMessage | CallsOf(f: nat)

  predicate Seen(k: Watch, e: Event)
  {
    match k
    case AnyMessage => e.Message?
    case CallsOf(f) => e.Called? && e.f == f
  }

  function Tally(k: Watch, log: seq<Event>): nat
  {
    if log == [] then 0
    else Tally(k, log[..|log| - 1]) + if Seen(k, log[|log| - 1]) then 1 else 0
  }

  lemma TallySnoc(k: Watch, log: seq<Event>, e: Event)
    ensures Tally(k, log + [e]) == Tally(k, log) + if Seen(k, e) then 1 else 0
  {
    assert (log + [e])[..|log|] == log;
  }

  // ---------------------------------------------------------------- inert text

  /** Evaluating the expression adds nothing watched. */
  predicate InertExpr(k: Watch, e: Expr)
  {
    match e
    case Lit(_) => true
    case Var(_) => true
    case Assign(_, a) => InertExpr(k, a)
    case Call(f, a) => k != CallsOf(f) && InertExpr(k, a)
    case Not(a) => InertExpr(k, a)
    case NonZero(a) => InertExpr(k, a)
    case Expect(a) => InertExpr(k, a)
    case And(a, b) => InertExpr(k, a) && InertExpr(k, b)
    case Comma(a, b) => InertExpr(k, a) && InertExpr(k, b)
  }

  predicate InertMessage(k: Watch, e: Option<Expr>) { e.Some? ==> InertExpr(k, e.value) }

  /** A macro use reports something in this build. */
  predicate Talks(b: Build, d: Spec) { b == Debug && !d.quiet }

  predicate InertReport(k: Watch, b: Build, d: Spec)
  {
    InertMessage(k, d.message) && (Talks(b, d) ==> k != AnyMessage)
  }

  /** Running the statement in build `b` adds nothing watched. */
  predicate Inert(k: Watch, b: Build, s: Stmt)
    decreases Size(s)
  {
    match s
    case Do(e) => InertExpr(k, e)
    case If(c, t) => InertExpr(k, c) && Inert(k, b, t)
    case IfElse(c, t, e) => InertExpr(k, c) && Inert(k, b, t) && Inert(k, b, e)
    case While(c, body) => InertExpr(k, c) && Inert(k, b, body)
    case DoOnce(body) => Inert(k, b, body)
    case Block(items) => InertItems(k, b, items)
    case Report(_, _, message, _, _) => k != AnyMessage && InertMessage(k, message)
    case Use(_, m) =>
      var d, a := Describe(m), ActionOf(m);
      && (!d.arg.Nothing? ==> InertExpr(k, d.arg.e))
      && InertReport(k, b, d)
      && (a.Some? ==> Inert(k, b, a.value))
    case _ => true
  }

  predicate InertItems(k: Watch, b: Build, items: Items)
    decreases ItemsSize(items)
  {
    match items
    case End => true
    case Then(s, rest) => Inert(k, b, s) && InertItems(k, b, rest)
    case Local(_, e, rest) => InertExpr(k, e) && InertItems(k, b, rest)
    case Labelled(_, rest) => InertItems(k, b, rest)
  }

  // ---------------------------------------------------------------- inert runs

  lemma {:induction false} EvalInert(k: Watch, m: Machine, e: Expr, w: World)
    requires InertExpr(k, e)
    ensures Tally(k, Eval(m, e, w).w.log) == Tally(k, w.log)
  {
    match e
    case Lit(_) =>
    case Var(_) =>
    case Assign(_, a) => EvalInert(k, m, a, w);
    case Call(f, a) =>
      EvalInert(k, m, a, w);
      var r := Eval(m, a, w);
      TallySnoc(k, r.w.log, Called(f, r.v));
    case Not(a) => EvalInert(k, m, a, w);
    case NonZero(a) => EvalInert(k, m, a, w);
    case Expect(a) => EvalInert(k, m, a, w);
    case And(a, b) =>
      EvalInert(k, m, a, w);
      EvalInert(k, m, b, Eval(m, a, w).w);
    case Comma(a, b) =>
      EvalInert(k, m, a, w);
      EvalInert(k, m, b, Eval(m, a, w).w);
  }

  lemma {:induction false} ComparedInert(k: Watch, e: Expr)
    ensures InertExpr(k, ComparedToNull(e)) == InertExpr(k, e)
  {
    if e.Assign? { ComparedInert(k, e.e); }
  }

  lemma EmitTally(k: Watch, m: Machine, text: Text, about: Option<Label>, message: Option<Expr>, line: nat, code: int, w: World)
    requires InertMessage(k, message)
    ensures Tally(k, Emit(m, text, about, message, line, code, w).log)
         == Tally(k, w.log) + if k == AnyMessage then 1 else 0
  {
    if message.Some? {
      var first := ComparedToNull(message.value);
      ComparedInert(k, message.value);
      EvalInert(k, m, first, w);
      EvalInert(k, m, message.value, Eval(m, first, w).w);
    }
    var (v, w1) := EvalMessage(m, message, w);
    TallySnoc(k, w1.log, Message(text, about, v, line, code));
  }

  /** A failing use reports once if it talks, and not at all otherwise. */
  lemma ReportedTally(k: Watch, m: Machine, b: Build, line: nat, d: Spec, r: Value)
    requires InertMessage(k, d.message)
    ensures Tally(k, Reported(m, b, line, d, r).log)
         == Tally(k, r.w.log) + if Talks(b, d) && k == AnyMessage then 1 else 0
  {
    match d.arg
    case Nothing => EmitTally(k, m, NoText, d.target, d.message, line, 0, r.w);
    case Assertion(e) => EmitTally(k, m, Asserted(e), d.target, d.message, line, 0, r.w);
    case ErrorCode(e) => EmitTally(k, m, ComparedToZero(e), d.target, d.message, line, r.v, r.w);
  }

  lemma {:induction false} ExecInert(k: Watch, m: Machine, b: Build, s: Stmt, w: World)
    requires Inert(k, b, s)
    ensures Tally(k, Exec(m, b, s, w).w.log) == Tally(k, w.log)
    decreases w.fuel, Size(s), 2
  {
    hide Eval, Emit, Tally, Reported, InertExpr, ExecItems;
    match s
    case Null =>
    case Do(e) => EvalInert(k, m, e, w);
    case If(c, t) =>
      EvalInert(k, m, c, w);
      ExecInert(k, m, b, t, Eval(m, c, w).w);
    case IfElse(c, t, e) =>
      EvalInert(k, m, c, w);
      ExecInert(k, m, b, t, Eval(m, c, w).w);
      ExecInert(k, m, b, e, Eval(m, c, w).w);
    case While(_, _) => WhileInert(k, m, b, s, w);
    case DoOnce(body) => ExecInert(k, m, b, body, w);
    case Block(items) => FromInert(k, m, b, items, items, w);
    case Break =>
    case Continue =>
    case Goto(_) =>
    case Report(text, about, message, line, code) =>
      EmitTally(k, m, text, about, message, line, Eval(m, code, w).v, w);
    case Use(line, macro) =>
      var d, a := Describe(macro), ActionOf(macro);
      if !d.arg.Nothing? { EvalInert(k, m, d.arg.e, w); }
      var r := EvalArgument(m, b, d, w);
      ReportedTally(k, m, b, line, d, r);
      if a.Some? { ExecInert(k, m, b, a.value, Reported(m, b, line, d, r)); }
  }

  lemma {:induction false} WhileInert(k: Watch, m: Machine, b: Build, s: Stmt, w: World)
    requires s.While? && Inert(k, b, s)
    ensures Tally(k, Exec(m, b, s, w).w.log) == Tally(k, w.log)
    decreases w.fuel, Size(s), 1
  {
    hide Eval, Tally, InertExpr, ExecItems, ExecFrom;
    EvalInert(k, m, s.c, w);
    var r := Eval(m, s.c, w);
    if r.v != 0 && w.fuel > 0 {
      var w1 := r.w.(fuel := w.fuel - 1);
      ExecInert(k, m, b, s.body, w1);
      var q := Exec(m, b, s.body, w1);
      if q.out == Normal || q.out == Continued { ExecInert(k, m, b, s, q.w); }
    }
  }

  lemma {:induction false} PassInert(k: Watch, m: Machine, b: Build, items: Items, w: World)
    requires InertItems(k, b, items)
    ensures Tally(k, ExecItems(m, b, items, w).w.log) == Tally(k, w.log)
    decreases w.fuel, ItemsSize(items), 0
  {
    match items
    case End =>
    case Then(s, rest) =>
      ExecInert(k, m, b, s, w);
      var r := Exec(m, b, s, w);
      if r.out == Normal { PassInert(k, m, b, rest, r.w); }
    case Local(x, e, rest) =>
      EvalInert(k, m, e, Rebind(w, x, None));
      var r := Eval(m, e, Rebind(w, x, None));
      FromInert(k, m, b, rest, rest, Rebind(r.w, x, Some(ToLong(m, r.v))));
    case Labelled(_, rest) => PassInert(k, m, b, rest, w);
  }

  lemma {:induction false} FromInert(k: Watch, m: Machine, b: Build, all: Items, cur: Items, w: World)
    requires InertItems(k, b, all) && InertItems(k, b, cur)
    ensures Tally(k, ExecFrom(m, b, all, cur, w).w.log) == Tally(k, w.log)
    decreases w.fuel, ItemsSize(cur), 1
  {
    PassInert(k, m, b, cur, w);
    var r := ExecItems(m, b, cur, w);
    if r.out.Jump? && HasLabel(all, r.out.target) && r.w.fuel > 0 {
      InertFrom(k, b, all, r.out.target);
      FromInert(k, m, b, all, From(all, r.out.target), r.w.(fuel := r.w.fuel - 1));
    }
  }

  lemma {:induction false} InertFrom(k: Watch, b: Build, items: Items, l: Label)
    requires HasLabel(items, l) && InertItems(k, b, items)
    ensures InertItems(k, b, From(items, l))
  {
    match items
    case Then(_, rest) => InertFrom(k, b, rest, l);
    case Local(_, _, _) =>
    case Labelled(j, rest) => if j != l { InertFrom(k, b, rest, l); }
  }

  // ---------------------------------------------------------------- theorems

  /** Silence: a production build never prints, and no build prints for quiet
      forms. (Inert for `AnyMessage`: no bare report, and in a debug build only
      quiet uses.) */
  lemma SilentPrograms(m: Machine, b: Build, s: Stmt, w: World)
    requires Inert(AnyMessage, b, s) && (b == Debug ==> Hygienic(s))
    ensures Tally(AnyMessage, Exec(m, b, Expand(b, s), w).w.log) == Tally(AnyMessage, w.log)
  {
    ExpandCorrect(m, b, s, w);
    ExecInert(AnyMessage, m, b, s, w);
  }

  /** In a production build any client text is inert, unless it calls the
      message routine itself. */
  predicate ReportFree(s: Stmt)
    decreases Size(s)
  {
    match s
    case If(_, t) => ReportFree(t)
    case IfElse(_, t, e) => ReportFree(t) && ReportFree(e)
    case While(_, b) => ReportFree(b)
    case DoOnce(b) => ReportFree(b)
    case Block(items) => ReportFreeItems(items)
    case Report(_, _, _, _, _) => false
    case Use(_, m) => ActionOf(m).Some? ==> ReportFree(ActionOf(m).value)
    case _ => true
  }

  predicate ReportFreeItems(items: Items)
    decreases ItemsSize(items)
  {
    match items
    case End => true
    case Then(s, rest) => ReportFree(s) && ReportFreeItems(rest)
    case Local(_, _, rest) => ReportFreeItems(rest)
    case Labelled(_, rest) => ReportFreeItems(rest)
  }

  lemma {:induction false} NoExprTalks(e: Expr)
    ensures InertExpr(AnyMessage, e)
  {
    match e
    case Lit(_) =>
    case Var(_) =>
    case Assign(_, a) => NoExprTalks(a);
    case Call(_, a) => NoExprTalks(a);
    case Not(a) => NoExprTalks(a);
    case NonZero(a) => NoExprTalks(a);
    case Expect(a) => NoExprTalks(a);
    case And(a, b) => NoExprTalks(a); NoExprTalks(b);
    case Comma(a, b) => NoExprTalks(a); NoExprTalks(b);
  }

  lemma {:induction false} ProductionIsInert(s: Stmt)
    requires ReportFree(s)
    ensures Inert(AnyMessage, Production, s)
    decreases Size(s)
  {
    match s
    case Do(e) => NoExprTalks(e);
    case If(c, t) => NoExprTalks(c); ProductionIsInert(t);
    case IfElse(c, t, e) => NoExprTalks(c); ProductionIsInert(t); ProductionIsInert(e);
    case While(c, b) => NoExprTalks(c); ProductionIsInert(b);
    case DoOnce(b) => ProductionIsInert(b);
    case Block(items) => ProductionIsInertItems(items);
    case Use(_, m) =>
      var d := Describe(m);
      if !d.arg.Nothing? { NoExprTalks(d.arg.e); }
      if d.message.Some? { NoExprTalks(d.message.value); }
      if ActionOf(m).Some? { ProductionIsInert(ActionOf(m).value); }
    case _ =>
  }

  lemma {:induction false} ProductionIsInertItems(items: Items)
    requires ReportFreeItems(items)
    ensures InertItems(AnyMessage, Production, items)
    decreases ItemsSize(items)
  {
    match items
    case End =>
    case Then(s, rest) => ProductionIsInert(s); ProductionIsInertItems(rest);
    case Local(_, e, rest) => NoExprTalks(e); ProductionIsInertItems(rest);
    case Labelled(_, rest) => ProductionIsInertItems(rest);
  }

  lemma ProductionIsSilent(m: Machine, s: Stmt, w: World)
    requires ReportFree(s)
    ensures Tally(AnyMessage, Exec(m, Production, Expand(Production, s), w).w.log) == Tally(AnyMessage, w.log)
  {
    ProductionIsInert(s);
    SilentPrograms(m, Production, s, w);
  }

  /** The expression is one call of client function `f`, negated or not. */
  predicate OneCall(f: nat, e: Expr)
  {
    || (e.Call? && e.f == f && InertExpr(CallsOf(f), e.e))
    || (e.Not? && e.e.Call? && e.e.f == f && InertExpr(CallsOf(f), e.e.e))
  }

  lemma OneCallCounts(m: Machine, f: nat, e: Expr, w: World)
    requires OneCall(f, e)
    ensures Tally(CallsOf(f), Eval(m, e, w).w.log) == Tally(CallsOf(f), w.log) + 1
  {
    var call := if e.Call? then e else e.e;
    EvalInert(CallsOf(f), m, call.e, w);
    var q := Eval(m, call.e, w);
    TallySnoc(CallsOf(f), q.w.log, Called(f, q.v));
    assert Eval(m, e, w).w == Eval(m, call, w).w;
  }

  /** Require control flow, in both builds: a passing argument leaves only its
      own effects and continues; a failing one runs the report and then the
      action once, goes to the label if the action ends normally, and goes on
      with the next statement if the action ends in a break or a continue. */
  lemma RequireControlFlow(m: Machine, b: Build, line: nat, macro: Macro, w: World)
    requires Describe(macro).target.Some? && (b == Debug ==> Hygienic(Use(line, macro)))
    ensures var d := Describe(macro);
      var r := EvalArgument(m, b, d, w);
      var q := RunAction(m, b, ActionOf(macro), Reported(m, b, line, d, r));
      Exec(m, b, Expand(b, Use(line, macro)), w)
        == if !Fails(d, r.v) then Result(r.w, Normal)
           else if q.out == Normal then Result(q.w, Jump(d.target.value))
           else if q.out == Broke || q.out == Continued then Result(q.w, Normal)
           else q
  {
    ExpandCorrect(m, b, Use(line, macro), w);
  }
}
