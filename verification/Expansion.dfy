/** Macro replacement preserves meaning: in either build, the expanded program
    does exactly what the macro uses are documented to do. */
module Expansion {
  import opened Wrappers
  import opened CSyntax
  import opened CSemantics
  import opened AssertMacros
  import opened MacroShapes
  import opened Hygiene
  import opened Modular

  /** A macro whose debug form declares the local around its action. */
  predicate Declares(d: Spec)
  {
    d.arg.ErrorCode? && !d.quiet
  }

  /** No error code, message or action that a debug form puts in the scope of
      its local mentions a variable of that name. */
  predicate Hygienic(s: Stmt)
    decreases Size(s)
  {
    match s
    case If(_, t) => Hygienic(t)
    case IfElse(_, t, e) => Hygienic(t) && Hygienic(e)
    case While(_, b) => Hygienic(b)
    case DoOnce(b) => Hygienic(b)
    case Block(items) => HygienicItems(items)
    case Use(_, m) =>
      && (Declares(Describe(m)) ==> !Free(EVAL_ONCE, s))
      && (ActionOf(m).Some? ==> Hygienic(ActionOf(m).value))
    case _ => true
  }

  predicate HygienicItems(items: Items)
    decreases ItemsSize(items)
  {
    match items
    case End => true
    case Then(s, rest) => Hygienic(s) && HygienicItems(rest)
    case Local(_, _, rest) => HygienicItems(rest)
    case Labelled(_, rest) => HygienicItems(rest)
  }

  // ---------------------------------------------------------------- running the templates

  lemma ToLongBool(m: Machine, b: bool)
    ensures ToLong(m, Bool(b)) == Bool(b)
  {
    SmallMod(Bool(b), m.span);
  }

  predicate Unlabelled(items: Items)
  {
    match items
    case End => true
    case Then(_, rest) => Unlabelled(rest)
    case Local(_, _, rest) => Unlabelled(rest)
    case Labelled(_, _) => false
  }

  lemma {:induction false} UnlabelledHasNone(items: Items, l: Label)
    requires Unlabelled(items)
    ensures !HasLabel(items, l)
  {
    match items
    case Then(_, rest) => UnlabelledHasNone(rest, l);
    case Local(_, _, rest) => UnlabelledHasNone(rest, l);
    case End =>
  }

  /** Without labels a block is one pass over its items. */
  lemma BlockOnce(m: Machine, b: Build, items: Items, w: World)
    requires Unlabelled(items)
    ensures ExecFrom(m, b, items, items, w) == ExecItems(m, b, items, w)
    ensures Exec(m, b, Block(items), w) == ExecItems(m, b, items, w)
  {
    var r := ExecItems(m, b, items, w);
    if r.out.Jump? { UnlabelledHasNone(items, r.out.target); }
  }

  /** What a `do { } while (0)` makes of its body's outcome. */
  function Contained(out: Outcome): Outcome
  {
    if out == Broke || out == Continued then Normal else out
  }

  lemma RunDo0(m: Machine, b: Build, items: Items, w: World)
    requires Unlabelled(items)
    ensures var r := ExecItems(m, b, items, w);
      Exec(m, b, Do0(items), w) == Result(r.w, Contained(r.out))
  {
    BlockOnce(m, b, items, w);
  }

  lemma RunOne(m: Machine, b: Build, s: Stmt, w: World)
    ensures ExecItems(m, b, One(s), w) == Exec(m, b, s, w)
  {
    var r := Exec(m, b, s, w);
    assert ExecItems(m, b, End, r.w) == Result(r.w, Normal);
  }

  lemma RunGuard(m: Machine, b: Build, c: Expr, items: Items, w: World)
    requires Unlabelled(items)
    ensures var r := Eval(m, c, w);
      && Exec(m, b, Guard(c, items), w) == (if r.v != 0 then ExecItems(m, b, items, r.w) else Result(r.w, Normal))
      && Exec(m, b, GuardElse(c, items), w) == Exec(m, b, Guard(c, items), w)
  {
    var r := Eval(m, c, w);
    BlockOnce(m, b, items, r.w);
    RunDo0(m, b, End, r.w);
    assert ExecItems(m, b, End, r.w) == Result(r.w, Normal);
  }

  lemma RunAct(m: Machine, b: Build, a: Stmt, w: World)
    ensures Unlabelled(Act(a)) && ExecItems(m, b, Act(a), w) == Exec(m, b, a, w)
  {
    RunOne(m, b, a, w);
    if !EndsInSemicolon(a) {
      var r := Exec(m, b, a, w);
      RunOne(m, b, Null, r.w);
    }
  }

  function ActItems(a: Option<Stmt>): Option<Items>
  {
    if a.Some? then Some(Act(a.value)) else None
  }

  /** The action, if there is one. */
  function RunAction(m: Machine, b: Build, a: Option<Stmt>, w: World): Result
  {
    if a.Some? then Exec(m, b, a.value, w) else Result(w, Normal)
  }

  /** A require's goto comes after a normal end of the action. */
  function Go(target: Option<Label>, out: Outcome): Outcome
  {
    if out == Normal && target.Some? then Jump(target.value) else out
  }

  lemma RunTail(m: Machine, b: Build, target: Option<Label>, a: Option<Stmt>, w: World)
    ensures Unlabelled(Tail(target, ActItems(a)))
    ensures var q := RunAction(m, b, a, w);
      ExecItems(m, b, Tail(target, ActItems(a)), w) == Result(q.w, Go(target, q.out))
  {
    if a.Some? {
      RunAct(m, b, a.value, w);
      BlockOnce(m, b, Act(a.value), w);
    }
    if target.Some? {
      RunOne(m, b, Goto(target.value), RunAction(m, b, a, w).w);
    }
  }

  lemma RunTell(m: Machine, b: Build, line: nat, text: Text, about: Option<Label>, message: Option<Expr>, code: Expr, rest: Items, w: World)
    ensures ExecItems(m, b, Tell(line, text, about, message, code, rest), w)
         == ExecItems(m, b, rest, Emit(m, text, about, message, line, Eval(m, code, w).v, w))
  {
    var w1 := Emit(m, text, about, message, line, Eval(m, code, w).v, w);
    assert ExecItems(m, b, Then(Null, rest), w1) == ExecItems(m, b, rest, w1);
  }

  /** The failure branch of any template: the report, then the tail. `v` is
      the value that failed; the forms that report an error code read it back
      from the local. */
  lemma RunFailure(m: Machine, b: Build, line: nat, d: Spec, a: Option<Stmt>, w: World, v: int)
    requires b == Debug && Declares(d) ==> Binding(w, EVAL_ONCE) == Some(v)
    ensures Unlabelled(FailureItems(b, line, d, ActItems(a)))
    ensures var q := RunAction(m, b, a, Reported(m, b, line, d, Value(v, w)));
      ExecItems(m, b, FailureItems(b, line, d, ActItems(a)), w) == Result(q.w, Go(d.target, q.out))
  {
    var w1 := Reported(m, b, line, d, Value(v, w));
    var tail := Tail(d.target, ActItems(a));
    RunTail(m, b, d.target, a, w1);
    hide Tail, Exec, ExecItems, RunAction;
    if b == Debug && !d.quiet {
      match d.arg
      case Nothing => RunTell(m, b, line, NoText, d.target, d.message, Lit(0), tail, w);
      case Assertion(e) => RunTell(m, b, line, Asserted(e), d.target, d.message, Lit(0), tail, w);
      case ErrorCode(e) => RunTell(m, b, line, ComparedToZero(e), d.target, d.message, Var(EVAL_ONCE), tail, w);
    }
  }

  // ---------------------------------------------------------------- one macro

  /** What the documentation says happens once the argument has failed. */
  function Consequence(m: Machine, b: Build, line: nat, d: Spec, a: Option<Stmt>, r: Value): Result
  {
    var q := RunAction(m, b, a, Reported(m, b, line, d, r));
    Result(q.w, Finish(b, d, q.out))
  }

  /** The expanded failure branch, by contrast, keeps or lets go of a break
      according to its braces. */
  lemma FinishContained(b: Build, d: Spec, out: Outcome)
    ensures Finish(b, d, out) == if Captures(b, d) then Contained(Go(d.target, out)) else Go(d.target, out)
  {}

  /** The condition a template tests is the documented one. */
  lemma ConditionFails(m: Machine, b: Build, d: Spec, act: Option<Items>, w: World)
    requires !d.arg.Nothing? && !(b == Debug && Declares(d))
    ensures var r, k := EvalArgument(m, b, d, w), Eval(m, Condition(b, d, act), w);
      k.w == r.w && (k.v != 0 <==> Fails(d, r.v))
  {
    var r := EvalArgument(m, b, d, w);
    ToLongBool(m, r.v == 0);
    ToLongBool(m, r.v != 0);
  }

  /** Forms that test the argument in place. */
  lemma RunInPlace(m: Machine, b: Build, line: nat, d: Spec, a: Option<Stmt>, w: World)
    requires !d.arg.Nothing? && !(b == Debug && Declares(d)) && !(b == Production && d.debugOnly)
    requires d.quiet ==> d.target.Some?
    ensures var r := EvalArgument(m, b, d, w);
      Exec(m, b, Shape(b, line, d, ActItems(a)), w)
        == if Fails(d, r.v) then Consequence(m, b, line, d, a, r) else Result(r.w, Normal)
  {
    var r := EvalArgument(m, b, d, w);
    var items, c := FailureItems(b, line, d, ActItems(a)), Condition(b, d, ActItems(a));
    ConditionFails(m, b, d, ActItems(a), w);
    RunFailure(m, b, line, d, a, r.w, r.v);
    assert Value(r.v, r.w) == r;
    RunGuard(m, b, c, items, w);
    RunOne(m, b, Guard(c, items), w);
    RunDo0(m, b, One(Guard(c, items)), w);
    FinishContained(b, d, RunAction(m, b, a, Reported(m, b, line, d, r)).out);
    hide Exec, ExecItems, FailureItems, Condition, Reported, EvalArgument;
    assert a.None? && d.target.None? ==> RunAction(m, b, a, Reported(m, b, line, d, r)).out == Normal;
  }

  /** The local's binding while its initialiser and the failure branch run,
      and its removal. */
  lemma RunOnceForm(m: Machine, b: Build, e: Expr, items: Items, w: World)
    requires Unlabelled(items)
    ensures var r := Eval(m, e, Rebind(w, EVAL_ONCE, None));
      var v := ToLong(m, r.v);
      var w1 := Rebind(r.w, EVAL_ONCE, Some(v));
      var q := if v != 0 then ExecItems(m, b, items, w1) else Result(w1, Normal);
      Exec(m, b, Once(e, items), w) == Result(Rebind(q.w, EVAL_ONCE, Binding(w, EVAL_ONCE)), Contained(q.out))
  {
    var r := Eval(m, e, Rebind(w, EVAL_ONCE, None));
    var v := ToLong(m, r.v);
    var w1 := Rebind(r.w, EVAL_ONCE, Some(v));
    var c := UnlikelyError(Var(EVAL_ONCE));
    ToLongBool(m, v != 0);
    assert Eval(m, Var(EVAL_ONCE), w1) == Value(v, w1);
    assert Eval(m, NonZero(Var(EVAL_ONCE)), w1) == Value(Bool(v != 0), w1);
    RunGuard(m, b, c, items, w1);
    RunOne(m, b, Guard(c, items), w1);
    var inner := One(Guard(c, items));
    BlockOnce(m, b, inner, w1);
    RunDo0(m, b, Local(EVAL_ONCE, e, inner), w);
    hide Exec, ExecFrom, Unlabelled, Rebind, Binding;
  }

  /** Forms that keep the error code in the local, whatever they mention: the
      code is evaluated with the local in scope and unset, the report and the
      action see the local, and the client's own variable is back afterwards. */
  lemma RunLocal(m: Machine, line: nat, d: Spec, a: Option<Stmt>, w: World)
    requires Declares(d)
    ensures var r, outer := EvalArgument(m, Debug, d, Rebind(w, EVAL_ONCE, None)), Binding(w, EVAL_ONCE);
      var inside := Value(r.v, Rebind(r.w, EVAL_ONCE, Some(r.v)));
      var q := RunAction(m, Debug, a, Reported(m, Debug, line, d, inside));
      Exec(m, Debug, Shape(Debug, line, d, ActItems(a)), w)
        == if Fails(d, r.v) then Result(Rebind(q.w, EVAL_ONCE, outer), Finish(Debug, d, q.out))
           else Result(Rebind(inside.w, EVAL_ONCE, outer), Normal)
  {
    var r := EvalArgument(m, Debug, d, Rebind(w, EVAL_ONCE, None));
    var w1 := Rebind(r.w, EVAL_ONCE, Some(r.v));
    RunFailure(m, Debug, line, d, a, w1, r.v);
    RunOnceForm(m, Debug, d.arg.e, FailureItems(Debug, line, d, ActItems(a)), w);
    FinishContained(Debug, d, RunAction(m, Debug, a, Reported(m, Debug, line, d, Value(r.v, w1))).out);
    hide Exec, ExecItems, FailureItems, Reported, Rebind;
  }

  /** The same when neither argument, message nor action mentions the local. */
  lemma RunDeclaring(m: Machine, line: nat, d: Spec, a: Option<Stmt>, w: World)
    requires Declares(d) && !NamedByArgument(EVAL_ONCE, d) && (a.Some? ==> !Free(EVAL_ONCE, a.value))
    ensures var r := EvalArgument(m, Debug, d, w);
      Exec(m, Debug, Shape(Debug, line, d, ActItems(a)), w)
        == if Fails(d, r.v) then Consequence(m, Debug, line, d, a, r) else Result(r.w, Normal)
  {
    var x, r, outer := EVAL_ONCE, EvalArgument(m, Debug, d, w), Binding(w, EVAL_ONCE);
    RunLocal(m, line, d, a, w);
    ArgumentFrame(m, Debug, line, d, w, x, None);
    ArgumentFrame(m, Debug, line, d, w, x, Some(r.v));
    RebindTwice(r.w, x, None, Some(r.v));
    hide Exec, Shape, Reported, EvalArgument, Rebind;
    // the report and the action cannot tell that the local is there
    var w2 := Reported(m, Debug, line, d, r);
    var q := RunAction(m, Debug, a, w2);
    assert RunAction(m, Debug, a, Rebind(w2, x, Some(r.v))) == Result(Rebind(q.w, x, Some(r.v)), q.out)
      by { if a.Some? { ExecFrame(m, Debug, a.value, w2, x, Some(r.v)); } }
    // and leave the outer variable as it was
    RebindTwice(q.w, x, Some(r.v), outer);
    OuterKept(m, line, d, a, w);
    RebindTwice(r.w, x, Some(r.v), outer);
    ArgumentLeaves(m, d, w, x);
  }

  lemma ArgumentLeaves(m: Machine, d: Spec, w: World, x: Name)
    requires !NamedByArgument(x, d)
    ensures var r := EvalArgument(m, Debug, d, w); Rebind(r.w, x, Binding(w, x)) == r.w
  {
    RebindSame(w, x);
    ArgumentFrame(m, Debug, 0, d, w, x, Binding(w, x));
  }

  lemma OuterKept(m: Machine, line: nat, d: Spec, a: Option<Stmt>, w: World)
    requires !NamedByArgument(EVAL_ONCE, d) && (a.Some? ==> !Free(EVAL_ONCE, a.value))
    ensures var q := RunAction(m, Debug, a, Reported(m, Debug, line, d, EvalArgument(m, Debug, d, w)));
      Rebind(q.w, EVAL_ONCE, Binding(w, EVAL_ONCE)) == q.w
  {
    var outer, r := Binding(w, EVAL_ONCE), EvalArgument(m, Debug, d, w);
    RebindSame(w, EVAL_ONCE);
    ArgumentFrame(m, Debug, line, d, w, EVAL_ONCE, outer);
    if a.Some? { ExecFrame(m, Debug, a.value, Reported(m, Debug, line, d, r), EVAL_ONCE, outer); }
  }

  /** `__Debug_String` has nothing to test. */
  lemma RunNothing(m: Machine, line: nat, d: Spec, w: World)
    requires d.arg.Nothing? && d.target.None?
    ensures Exec(m, Debug, Shape(Debug, line, d, None), w) == Consequence(m, Debug, line, d, None, Value(0, w))
  {
    RunFailure(m, Debug, line, d, None, w, 0);
    RunDo0(m, Debug, FailureItems(Debug, line, d, None), w);
    FinishContained(Debug, d, Normal);
    hide Exec, ExecItems, FailureItems, Reported;
  }

  /** A template, by its shape, with an action already expanded. */
  lemma RunShape(m: Machine, b: Build, line: nat, d: Spec, a: Option<Stmt>, w: World)
    requires !(b == Production && d.debugOnly) && (d.quiet ==> d.target.Some?)
    requires d.arg.Nothing? ==> d.debugOnly && a.None? && d.target.None?
    requires b == Debug && Declares(d) ==> !NamedByArgument(EVAL_ONCE, d) && (a.Some? ==> !Free(EVAL_ONCE, a.value))
    ensures var r := EvalArgument(m, b, d, w);
      Exec(m, b, Shape(b, line, d, ActItems(a)), w)
        == if Fails(d, r.v) then Consequence(m, b, line, d, a, r) else Result(r.w, Normal)
  {
    hide Exec, Shape, Consequence, Free, NamedByArgument;
    if d.arg.Nothing? {
      RunNothing(m, line, d, w);
    } else if b == Debug && Declares(d) {
      RunDeclaring(m, line, d, a, w);
    } else {
      RunInPlace(m, b, line, d, a, w);
    }
  }

  /** Every macro of the header, in either build, with any action: if the
      expanded action does what the action does, the template does what the
      macro is documented to do. */
  lemma MacroCorrect(m: Machine, b: Build, line: nat, macro: Macro, w: World)
    requires b == Debug ==> Hygienic(Use(line, macro))
    requires var d := Describe(macro);
      ActionOf(macro).Some? && !(b == Production && d.debugOnly) ==>
        var w1 := Reported(m, b, line, d, EvalArgument(m, b, d, w));
        Exec(m, b, Expand(b, ActionOf(macro).value), w1) == Exec(m, b, ActionOf(macro).value, w1)
    ensures Exec(m, b, Expand(b, Use(line, macro)), w) == Exec(m, b, Use(line, macro), w)
  {
    var d, a := Describe(macro), ActionOf(macro);
    var a' := if a.Some? then Some(Expand(b, a.value)) else None;
    FormsHaveShape(b, line, macro, if a.Some? then Act(Expand(b, a.value)) else End);
    assert Expand(b, Use(line, macro)) == Shape(b, line, d, ActItems(a'));
    assert (d.quiet ==> d.target.Some?) && (d.arg.Nothing? ==> d.debugOnly && a.None? && d.target.None?);
    if b == Production && d.debugOnly {
      assert Shape(b, line, d, ActItems(a')) == Null;
    } else {
      if a.Some? && b == Debug && Declares(d) { ExpandFree(b, a.value); }
      RunShape(m, b, line, d, a', w);
      var r := EvalArgument(m, b, d, w);
      assert Consequence(m, b, line, d, a', r) == Consequence(m, b, line, d, a, r);
    }
  }

  // ---------------------------------------------------------------- whole programs

  lemma {:induction false} ExpandLabels(b: Build, items: Items, l: Label)
    ensures HasLabel(ExpandItems(b, items), l) <==> HasLabel(items, l)
    ensures HasLabel(items, l) ==> From(ExpandItems(b, items), l) == ExpandItems(b, From(items, l))
    decreases ItemsSize(items)
  {
    match items
    case End =>
    case Then(_, rest) => ExpandLabels(b, rest, l);
    case Local(_, _, rest) =>
      ExpandLabels(b, rest, l);
      assert ExpandItems(b, Then(Goto(l), rest)) == Then(Goto(l), ExpandItems(b, rest));
    case Labelled(k, rest) => ExpandLabels(b, rest, l);
  }

  lemma {:induction false} HygienicFrom(items: Items, l: Label)
    requires HasLabel(items, l) && HygienicItems(items)
    ensures HygienicItems(From(items, l))
  {
    match items
    case Then(_, rest) => HygienicFrom(rest, l);
    case Local(_, _, _) =>
    case Labelled(k, rest) => if k != l { HygienicFrom(rest, l); }
  }

  /** Expansion preserves meaning: from every world, the expanded program ends
      with the same variables, the same outcome and the same observable trace of
      calls and messages as the documented meaning of the macros. Production
      builds need no condition; debug builds need the local's name left alone. */
  lemma {:induction false} ExpandCorrect(m: Machine, b: Build, s: Stmt, w: World)
    requires b == Debug ==> Hygienic(s)
    ensures Exec(m, b, Expand(b, s), w) == Exec(m, b, s, w)
    decreases w.fuel, Size(s), 2
  {
    match s
    case If(c, t) => ExpandCorrect(m, b, t, Eval(m, c, w).w);
    case IfElse(c, t, e) =>
      ExpandCorrect(m, b, t, Eval(m, c, w).w);
      ExpandCorrect(m, b, e, Eval(m, c, w).w);
    case While(_, _) => ExpandWhile(m, b, s, w);
    case DoOnce(body) => ExpandCorrect(m, b, body, w);
    case Block(items) => ExpandFrom(m, b, items, items, w);
    case Use(line, macro) =>
      var d := Describe(macro);
      if ActionOf(macro).Some? && !(b == Production && d.debugOnly) {
        ExpandCorrect(m, b, ActionOf(macro).value, Reported(m, b, line, d, EvalArgument(m, b, d, w)));
      }
      MacroCorrect(m, b, line, macro, w);
    case _ =>
  }

  lemma {:induction false} ExpandWhile(m: Machine, b: Build, s: Stmt, w: World)
    requires s.While? && (b == Debug ==> Hygienic(s))
    ensures Exec(m, b, Expand(b, s), w) == Exec(m, b, s, w)
    decreases w.fuel, Size(s), 1
  {
    hide Eval, ExecItems, ExecFrom;
    var r := Eval(m, s.c, w);
    if r.v != 0 && w.fuel > 0 {
      var w1 := r.w.(fuel := w.fuel - 1);
      ExpandCorrect(m, b, s.body, w1);
      var q := Exec(m, b, s.body, w1);
      if q.out == Normal || q.out == Continued { ExpandCorrect(m, b, s, q.w); }
    }
  }

  lemma {:induction false} ExpandPass(m: Machine, b: Build, items: Items, w: World)
    requires b == Debug ==> HygienicItems(items)
    ensures ExecItems(m, b, ExpandItems(b, items), w) == ExecItems(m, b, items, w)
    decreases w.fuel, ItemsSize(items), 0
  {
    match items
    case End =>
    case Then(s, rest) =>
      ExpandCorrect(m, b, s, w);
      var r := Exec(m, b, s, w);
      if r.out == Normal { ExpandPass(m, b, rest, r.w); }
    case Local(x, e, rest) =>
      var r := Eval(m, e, Rebind(w, x, None));
      ExpandFrom(m, b, rest, rest, Rebind(r.w, x, Some(ToLong(m, r.v))));
    case Labelled(_, rest) => ExpandPass(m, b, rest, w);
  }

  lemma {:induction false} ExpandFrom(m: Machine, b: Build, all: Items, cur: Items, w: World)
    requires b == Debug ==> HygienicItems(all) && HygienicItems(cur)
    ensures ExecFrom(m, b, ExpandItems(b, all), ExpandItems(b, cur), w) == ExecFrom(m, b, all, cur, w)
    decreases w.fuel, ItemsSize(cur), 1
  {
    hide Exec, ExecItems, HygienicItems, ExpandItems, ItemsSize;
    ExpandPass(m, b, cur, w);
    var r := ExecItems(m, b, cur, w);
    if r.out.Jump? {
      var l := r.out.target;
      ExpandLabels(b, all, l);
      if HasLabel(all, l) && r.w.fuel > 0 {
        if b == Debug { HygienicFrom(all, l); }
        ExpandFrom(m, b, all, From(all, l), r.w.(fuel := r.w.fuel - 1));
      }
    }
  }
}
