/** A condition on the text of a program under which the builds agree, and
    exactly when a single use tells them apart. */
module BuildTraps {
  import opened Wrappers
  import opened CSyntax
  import opened CSemantics
  import opened AssertMacros
  import opened MacroShapes
  import opened Hygiene
  import opened Expansion
  import opened Builds
  import opened Modular

  // ---------------------------------------------------------------- reading the text

  predicate InLong(m: Machine, v: int)
  {
    -(m.span / 2) <= v < m.span / 2
  }

  /** The variables and client functions of a type no wider than long. */
  datatype Types = Types(vars: set<Name>, funs: set<nat>)

  /** The expression's value fits in long. */
  predicate LongValued(m: Machine, t: Types, e: Expr)
  {
    match e
    case Lit(n) => InLong(m, n)
    case Var(x) => x in t.vars
    case Assign(_, a) => LongValued(m, t, a)
    case Call(f, _) => f in t.funs
    case Comma(_, b) => LongValued(m, t, b)
    case _ => true
  }

  /** What it assigns to a variable of such a type fits too. */
  predicate WellTyped(m: Machine, t: Types, e: Expr)
  {
    match e
    case Lit(_) => true
    case Var(_) => true
    case Assign(x, a) => WellTyped(m, t, a) && (x in t.vars ==> LongValued(m, t, a))
    case Call(_, a) => WellTyped(m, t, a)
    case Not(a) => WellTyped(m, t, a)
    case NonZero(a) => WellTyped(m, t, a)
    case Expect(a) => WellTyped(m, t, a)
    case And(a, b) => WellTyped(m, t, a) && WellTyped(m, t, b)
    case Comma(a, b) => WellTyped(m, t, a) && WellTyped(m, t, b)
  }

  /** No assignment inside and, if `traced`, no call. */
  predicate Pure(traced: bool, e: Expr)
  {
    match e
    case Lit(_) => true
    case Var(_) => true
    case Assign(_, _) => false
    case Call(_, a) => !traced && Pure(traced, a)
    case Not(a) => Pure(traced, a)
    case NonZero(a) => Pure(traced, a)
    case Expect(a) => Pure(traced, a)
    case And(a, b) => Pure(traced, a) && Pure(traced, b)
    case Comma(a, b) => Pure(traced, a) && Pure(traced, b)
  }

  predicate TameUse(traced: bool, m: Machine, t: Types, macro: Macro)
  {
    var d := Describe(macro);
    && (d.message.Some? ==> Pure(traced, d.message.value))
    && (!d.arg.Nothing? ==>
          && WellTyped(m, t, d.arg.e)
          && (d.debugOnly ==> Pure(traced, d.arg.e))
          && (Declares(d) && (d.target.Some? || ActionOf(macro).Some?) ==> LongValued(m, t, d.arg.e)))
  }

  /** A break or continue can leave the statement (in a production build). */
  predicate MayEscape(s: Stmt)
    decreases Size(s)
  {
    match s
    case Break => true
    case Continue => true
    case If(_, t) => MayEscape(t)
    case IfElse(_, t, e) => MayEscape(t) || MayEscape(e)
    case Block(items) => MayEscapeItems(items)
    case Use(_, m) => !Captures(Production, Describe(m)) && ActionOf(m).Some? && MayEscape(ActionOf(m).value)
    case _ => false
  }

  predicate MayEscapeItems(items: Items)
    decreases ItemsSize(items)
  {
    match items
    case End => false
    case Then(s, rest) => MayEscape(s) || MayEscapeItems(rest)
    case Local(_, _, rest) => MayEscapeItems(rest)
    case Labelled(_, rest) => MayEscapeItems(rest)
  }

  /** Check arguments and messages have no side effects, the error codes that
      decide control flow fit in long, and no break or continue is free in the
      action of a verify on an error code. */
  predicate Tame(traced: bool, m: Machine, t: Types, s: Stmt)
    decreases Size(s)
  {
    match s
    case Do(e) => WellTyped(m, t, e)
    case If(c, thn) => WellTyped(m, t, c) && Tame(traced, m, t, thn)
    case IfElse(c, thn, els) => WellTyped(m, t, c) && Tame(traced, m, t, thn) && Tame(traced, m, t, els)
    case While(c, b) => WellTyped(m, t, c) && Tame(traced, m, t, b)
    case DoOnce(b) => Tame(traced, m, t, b)
    case Block(items) => TameItems(traced, m, t, items)
    case Report(_, _, message, _, _) => message.Some? ==> WellTyped(m, t, message.value)
    case Use(_, macro) =>
      && TameUse(traced, m, t, macro)
      && (ActionOf(macro).Some? ==> Tame(traced, m, t, ActionOf(macro).value))
      && (macro.VerifyNoErrAction? ==> !MayEscape(macro.action))
    case _ => true
  }

  predicate TameItems(traced: bool, m: Machine, t: Types, items: Items)
    decreases ItemsSize(items)
  {
    match items
    case End => true
    case Then(s, rest) => Tame(traced, m, t, s) && TameItems(traced, m, t, rest)
    case Local(_, e, rest) => WellTyped(m, t, e) && TameItems(traced, m, t, rest)
    case Labelled(_, rest) => TameItems(traced, m, t, rest)
  }

  /** Client functions keep to their types, and an unset variable holds a long. */
  ghost predicate LongMachine(m: Machine, t: Types)
  {
    InLong(m, m.junk) && forall f, v :: f in t.funs ==> InLong(m, m.ext(f, v))
  }

  predicate LongVars(m: Machine, t: Types, w: World)
  {
    forall x :: x in t.vars && x in w.vars ==> InLong(m, w.vars[x])
  }

  // ---------------------------------------------------------------- evaluation

  lemma ToLongInLong(m: Machine, v: int)
    ensures InLong(m, ToLong(m, v))
    ensures InLong(m, v) ==> ToLong(m, v) == v
    ensures ToLong(m, v) == 0 <==> v % m.span == 0
  {
    assert 0 <= v % m.span < m.span;
    if InLong(m, v) {
      if v >= 0 { SmallMod(v, m.span); } else { WrapMod(v, m.span); }
    }
  }

  lemma {:induction false} EvalLong(m: Machine, t: Types, e: Expr, w: World)
    requires LongMachine(m, t) && WellTyped(m, t, e) && LongVars(m, t, w)
    ensures LongVars(m, t, Eval(m, e, w).w)
    ensures LongValued(m, t, e) ==> InLong(m, Eval(m, e, w).v)
  {
    match e
    case Lit(_) =>
    case Var(_) =>
    case Assign(_, a) => EvalLong(m, t, a, w);
    case Call(_, a) => EvalLong(m, t, a, w);
    case Not(a) => EvalLong(m, t, a, w);
    case NonZero(a) => EvalLong(m, t, a, w);
    case Expect(a) =>
      EvalLong(m, t, a, w);
      ToLongInLong(m, Eval(m, a, w).v);
    case And(a, b) =>
      EvalLong(m, t, a, w);
      EvalLong(m, t, b, Eval(m, a, w).w);
    case Comma(a, b) =>
      EvalLong(m, t, a, w);
      EvalLong(m, t, b, Eval(m, a, w).w);
  }

  lemma {:induction false} EvalPure(traced: bool, m: Machine, e: Expr, w: World)
    requires Pure(traced, e)
    ensures Same(traced, w, Eval(m, e, w).w)
  {
    match e
    case Lit(_) =>
    case Var(_) =>
    case Call(f, a) =>
      EvalPure(traced, m, a, w);
    case Not(a) => EvalPure(traced, m, a, w);
    case NonZero(a) => EvalPure(traced, m, a, w);
    case Expect(a) => EvalPure(traced, m, a, w);
    case And(a, b) =>
      EvalPure(traced, m, a, w);
      EvalPure(traced, m, b, Eval(m, a, w).w);
    case Comma(a, b) =>
      EvalPure(traced, m, a, w);
      EvalPure(traced, m, b, Eval(m, a, w).w);
  }

  lemma MessagePure(traced: bool, m: Machine, message: Option<Expr>, w: World)
    requires message.Some? ==> Pure(traced, message.value)
    ensures Same(traced, w, EvalMessage(m, message, w).1)
  {
    if message.Some? {
      var first := ComparedToNull(message.value);
      assert Pure(traced, first);
      EvalPure(traced, m, first, w);
      EvalPure(traced, m, message.value, Eval(m, first, w).w);
    }
  }

  lemma {:induction false} ComparedTyped(m: Machine, t: Types, e: Expr)
    requires WellTyped(m, t, e)
    ensures WellTyped(m, t, ComparedToNull(e)) && LongValued(m, t, ComparedToNull(e))
  {
    if e.Assign? { ComparedTyped(m, t, e.e); }
  }

  lemma MessageLong(m: Machine, t: Types, message: Option<Expr>, w: World)
    requires LongMachine(m, t) && LongVars(m, t, w) && (message.Some? ==> WellTyped(m, t, message.value))
    ensures LongVars(m, t, EvalMessage(m, message, w).1)
  {
    if message.Some? {
      var first := ComparedToNull(message.value);
      ComparedTyped(m, t, message.value);
      EvalLong(m, t, first, w);
      EvalLong(m, t, message.value, Eval(m, first, w).w);
    }
  }

  // ---------------------------------------------------------------- tame programs are clean

  /** What a tame statement's production run guarantees. */
  predicate Safe(m: Machine, t: Types, mayEscape: bool, r: Result)
  {
    LongVars(m, t, r.w) && (Escaped(r.out) ==> mayEscape)
  }

  lemma TameUseIsClean(traced: bool, m: Machine, t: Types, macro: Macro, w: World)
    requires LongMachine(m, t) && LongVars(m, t, w) && TameUse(traced, m, t, macro)
    ensures CleanUse(traced, m, macro, w)
    ensures LongVars(m, t, EvalArgument(m, Production, Describe(macro), w).w)
  {
    var d := Describe(macro);
    if !d.arg.Nothing? {
      EvalLong(m, t, d.arg.e, w);
      ToLongInLong(m, Eval(m, d.arg.e, w).v);
      if d.debugOnly { EvalPure(traced, m, d.arg.e, w); }
    }
    MessagePure(traced, m, d.message, EvalArgument(m, Debug, d, w).w);
    hide Eval, EvalMessage, Calls, WellTyped, Pure;
  }

  lemma {:induction false} TameIsClean(traced: bool, m: Machine, t: Types, s: Stmt, w: World)
    requires LongMachine(m, t) && LongVars(m, t, w) && Tame(traced, m, t, s)
    ensures Clean(traced, m, s, w) && Safe(m, t, MayEscape(s), Exec(m, Production, s, w))
    decreases w.fuel, Size(s), 2
  {
    hide Eval, EvalMessage, CleanUse, LongMachine, TameUse, ExecItems, WellTyped;
    match s
    case Null =>
    case Do(e) => EvalLong(m, t, e, w);
    case If(c, thn) =>
      EvalLong(m, t, c, w);
      TameIsClean(traced, m, t, thn, Eval(m, c, w).w);
    case IfElse(c, thn, els) =>
      EvalLong(m, t, c, w);
      TameIsClean(traced, m, t, thn, Eval(m, c, w).w);
      TameIsClean(traced, m, t, els, Eval(m, c, w).w);
    case While(_, _) => TameWhile(traced, m, t, s, w);
    case DoOnce(body) => TameIsClean(traced, m, t, body, w);
    case Block(items) => TameFrom(traced, m, t, items, items, w);
    case Break =>
    case Continue =>
    case Goto(_) =>
    case Report(_, _, message, _, _) => MessageLong(m, t, message, w);
    case Use(line, macro) =>
      var d, a := Describe(macro), ActionOf(macro);
      TameUseIsClean(traced, m, t, macro, w);
      if a.Some? {
        TameIsClean(traced, m, t, a.value, EvalArgument(m, Production, d, w).w);
        assert Captures(Debug, d) && !Captures(Production, d) ==> macro.VerifyNoErrAction?;
      }
  }

  lemma {:induction false} TameWhile(traced: bool, m: Machine, t: Types, s: Stmt, w: World)
    requires s.While? && LongMachine(m, t) && LongVars(m, t, w) && Tame(traced, m, t, s)
    ensures Clean(traced, m, s, w) && Safe(m, t, false, Exec(m, Production, s, w))
    decreases w.fuel, Size(s), 1
  {
    hide Eval, LongMachine, ExecItems, ExecFrom, WellTyped;
    EvalLong(m, t, s.c, w);
    var r := Eval(m, s.c, w);
    if r.v != 0 && w.fuel > 0 {
      var w1 := r.w.(fuel := w.fuel - 1);
      TameIsClean(traced, m, t, s.body, w1);
      var q := Exec(m, Production, s.body, w1);
      if q.out == Normal || q.out == Continued { TameIsClean(traced, m, t, s, q.w); }
    }
  }

  lemma {:induction false} TamePass(traced: bool, m: Machine, t: Types, items: Items, w: World)
    requires LongMachine(m, t) && LongVars(m, t, w) && TameItems(traced, m, t, items)
    ensures CleanItems(traced, m, items, w) && Safe(m, t, MayEscapeItems(items), ExecItems(m, Production, items, w))
    decreases w.fuel, ItemsSize(items), 0
  {
    hide Exec, ExecFrom, LongMachine;
    match items
    case End =>
    case Then(s, rest) =>
      TameIsClean(traced, m, t, s, w);
      var r := Exec(m, Production, s, w);
      if r.out == Normal { TamePass(traced, m, t, rest, r.w); }
    case Local(x, e, rest) =>
      EvalLong(m, t, e, Rebind(w, x, None));
      var r := Eval(m, e, Rebind(w, x, None));
      ToLongInLong(m, r.v);
      TameFrom(traced, m, t, rest, rest, Rebind(r.w, x, Some(ToLong(m, r.v))));
    case Labelled(_, rest) => TamePass(traced, m, t, rest, w);
  }

  lemma {:induction false} TameFrom(traced: bool, m: Machine, t: Types, all: Items, cur: Items, w: World)
    requires LongMachine(m, t) && LongVars(m, t, w)
    requires TameItems(traced, m, t, all) && TameItems(traced, m, t, cur) && (MayEscapeItems(cur) ==> MayEscapeItems(all))
    ensures CleanFrom(traced, m, all, cur, w) && Safe(m, t, MayEscapeItems(all), ExecFrom(m, Production, all, cur, w))
    decreases w.fuel, ItemsSize(cur), 1
  {
    hide Exec, ExecItems, CleanItems, LongMachine, TameItems, ItemsSize, LongVars;
    TamePass(traced, m, t, cur, w);
    var r := ExecItems(m, Production, cur, w);
    if r.out.Jump? && HasLabel(all, r.out.target) && r.w.fuel > 0 {
      TameSuffix(traced, m, t, all, r.out.target);
      var w1 := r.w.(fuel := r.w.fuel - 1);
      assert LongVars(m, t, w1) by { FuelKeepsVars(m, t, r.w, w1); }
      TameFrom(traced, m, t, all, From(all, r.out.target), w1);
    }
  }

  lemma FuelKeepsVars(m: Machine, t: Types, w: World, w': World)
    requires LongVars(m, t, w) && w.vars == w'.vars
    ensures LongVars(m, t, w')
  {}

  lemma {:induction false} TameSuffix(traced: bool, m: Machine, t: Types, items: Items, l: Label)
    requires HasLabel(items, l) && TameItems(traced, m, t, items)
    ensures TameItems(traced, m, t, From(items, l)) && (MayEscapeItems(From(items, l)) ==> MayEscapeItems(items))
  {
    match items
    case Then(_, rest) => TameSuffix(traced, m, t, rest, l);
    case Local(x, _, rest) =>
      assert !MayEscape(Goto(l)) && Tame(traced, m, t, Goto(l));
      assert TameItems(traced, m, t, Then(Goto(l), rest)) && MayEscapeItems(Then(Goto(l), rest)) == MayEscapeItems(rest);
    case Labelled(k, rest) => if k != l { TameSuffix(traced, m, t, rest, l); }
  }

  /** Build equivalence from the text alone: a program that leaves the local's
      name alone, whose check arguments and messages have no side effects, whose
      control-deciding error codes are of a type no wider than long, and whose
      verify-on-error-code actions have no free break or continue, behaves the
      same in both builds from every world; with no client call in checks and
      messages (`traced`) it also makes the same calls. */
  lemma TameBuildEquivalence(traced: bool, m: Machine, t: Types, s: Stmt, w: World)
    requires LongMachine(m, t) && LongVars(m, t, w) && Tame(traced, m, t, s) && Hygienic(s)
    ensures Agree(traced, Exec(m, Production, Expand(Production, s), w), Exec(m, Debug, Expand(Debug, s), w))
  {
    hide Exec, Expand, Clean, LongMachine;
    TameIsClean(traced, m, t, s, w);
    BuildEquivalence(traced, m, s, w);
  }

  // ---------------------------------------------------------------- one use, exactly

  /** The argument as the debug build evaluates it: where there is a local, with
      the local in scope, unset at first and then holding the converted code. */
  function Inside(m: Machine, d: Spec, w: World): Value
  {
    if Declares(d) then
      var r := EvalArgument(m, Debug, d, Rebind(w, EVAL_ONCE, None));
      Value(r.v, Rebind(r.w, EVAL_ONCE, Some(r.v)))
    else EvalArgument(m, Debug, d, w)
  }

  /** The world `w1` seen from outside the local's scope, entered from `w`. */
  function Outside(d: Spec, w: World, w1: World): World
  {
    if Declares(d) then Rebind(w1, EVAL_ONCE, Binding(w, EVAL_ONCE)) else w1
  }

  function Expanded(b: Build, a: Option<Stmt>): Option<Stmt>
  {
    if a.Some? then Some(Expand(b, a.value)) else None
  }

  /** What every debug form really does, with no condition on what its argument,
      message and action mention: all three are in the local's scope, if there is
      one, and leaving it restores the client's variable. */
  lemma DebugScope(m: Machine, line: nat, macro: Macro, w: World)
    ensures var d, q := Describe(macro), Inside(m, Describe(macro), w);
      var r := RunAction(m, Debug, Expanded(Debug, ActionOf(macro)), Reported(m, Debug, line, d, q));
      Exec(m, Debug, Expand(Debug, Use(line, macro)), w)
        == if Fails(d, q.v) then Result(Outside(d, w, r.w), Finish(Debug, d, r.out))
           else Result(Outside(d, w, q.w), Normal)
  {
    var d, a := Describe(macro), ActionOf(macro);
    var a' := Expanded(Debug, a);
    FormsHaveShape(Debug, line, macro, if a.Some? then Act(Expand(Debug, a.value)) else End);
    assert Expand(Debug, Use(line, macro)) == Shape(Debug, line, d, ActItems(a'));
    assert (d.quiet ==> d.target.Some?) && (d.arg.Nothing? ==> d.debugOnly && a.None? && d.target.None?);
    hide Exec, Expand, Shape, Describe, ActionOf, Reported;
    if d.arg.Nothing? {
      RunNothing(m, line, d, w);
    } else if Declares(d) {
      RunLocal(m, line, d, a', w);
    } else {
      RunInPlace(m, Debug, line, d, a', w);
    }
  }

  /** With an action whose own uses leave the local alone, its meaning will do. */
  lemma DebugRun(m: Machine, line: nat, macro: Macro, w: World)
    requires ActionOf(macro).Some? ==> Hygienic(ActionOf(macro).value)
    ensures var d, q := Describe(macro), Inside(m, Describe(macro), w);
      var r := RunAction(m, Debug, ActionOf(macro), Reported(m, Debug, line, d, q));
      Exec(m, Debug, Expand(Debug, Use(line, macro)), w)
        == if Fails(d, q.v) then Result(Outside(d, w, r.w), Finish(Debug, d, r.out))
           else Result(Outside(d, w, q.w), Normal)
  {
    hide Exec, Expand, Describe, Reported, Inside, Hygienic;
    DebugScope(m, line, macro, w);
    var d, a := Describe(macro), ActionOf(macro);
    if a.Some? { ExpandCorrect(m, Debug, a.value, Reported(m, Debug, line, d, Inside(m, d, w))); }
  }

  lemma ProductionRun(m: Machine, line: nat, macro: Macro, w: World)
    ensures var d, a := Describe(macro), ActionOf(macro);
      var p := EvalArgument(m, Production, d, w);
      var r := RunAction(m, Production, a, p.w);
      Exec(m, Production, Expand(Production, Use(line, macro)), w)
        == if d.debugOnly then Result(w, Normal)
           else if Fails(d, p.v) then Result(r.w, Finish(Production, d, r.out))
           else Result(p.w, Normal)
  {
    ExpandCorrect(m, Production, Use(line, macro), w);
    hide Expand, Describe, ActionOf, EvalArgument;
  }

  /** Where the debug build stands, seen from outside, when it comes to the action. */
  function Reach(m: Machine, line: nat, d: Spec, w: World): World
  {
    var q := Inside(m, d, w);
    Outside(d, w, if Fails(d, q.v) then Reported(m, Debug, line, d, q) else q.w)
  }

  /** Only production fails: what it then does must be what debug did anyhow. */
  predicate LossHarmless(traced: bool, m: Machine, d: Spec, a: Option<Stmt>, w: World, reach: World)
  {
    var r := RunAction(m, Production, a, w);
    Same(traced, r.w, reach) && Finish(Production, d, r.out) == Normal
  }

  /** Only debug fails. */
  predicate GainHarmless(traced: bool, m: Machine, d: Spec, a: Option<Stmt>, w: World, reach: World)
  {
    var r := RunAction(m, Debug, a, reach);
    Same(traced, w, r.w) && Finish(Debug, d, r.out) == Normal
  }

  /** The action starts from another world in debug, and ends all the same in
      the same one. */
  predicate ActionRepairs(traced: bool, m: Machine, d: Spec, a: Option<Stmt>, w: World, reach: World)
  {
    var r, r' := RunAction(m, Production, a, w), RunAction(m, Debug, a, reach);
    Same(traced, r.w, r'.w) && Finish(Production, d, r.out) == Finish(Debug, d, r'.out)
  }

  /** When the builds agree on one use, by its family, suffixes and argument:
      - a check: if evaluating it, and its message when it fails, leaves the
        program where it was;
      - an argument that passes in both: if it was evaluated to the same effect;
      - one that fails in production only, because its code is lost in the
        conversion to long or names the local: if the action production alone runs
        does nothing and no goto follows;
      - one that fails in debug only: the same the other way round;
      - one that fails in both, with debug in another world by then, because of its
        message or of a code that names the local: if there is an action that makes
        up for it;
      - otherwise: unless a break or continue leaves the action and only the debug
        form keeps it in. */
  predicate AgreesWhen(traced: bool, m: Machine, line: nat, macro: Macro, w: World)
  {
    var d, a := Describe(macro), ActionOf(macro);
    var p, q, reach := EvalArgument(m, Production, d, w), Inside(m, d, w), Reach(m, line, d, w);
    if d.debugOnly then Same(traced, w, reach)
    else if !Fails(d, p.v) && !Fails(d, q.v) then Same(traced, p.w, reach)
    else if !Fails(d, q.v) then LossHarmless(traced, m, d, a, p.w, reach)
    else if !Fails(d, p.v) then GainHarmless(traced, m, d, a, p.w, reach)
    else if !Same(traced, p.w, reach) then a.Some? && ActionRepairs(traced, m, d, a, p.w, reach)
    else !(Captures(Debug, d) && !Captures(Production, d) && Escaped(RunAction(m, Production, a, p.w).out))
  }

  lemma FinishDiffers(d: Spec, out: Outcome)
    ensures Finish(Production, d, out) == Finish(Debug, d, out)
       <==> !(Captures(Debug, d) && !Captures(Production, d) && Escaped(out))
  {}

  lemma DebugOnlyForms(macro: Macro)
    requires Describe(macro).debugOnly
    ensures ActionOf(macro) == None && Describe(macro).target == None && !Describe(macro).quiet
  {}

  /** An action that does not mention the local starts, as far as it can tell,
      from `Reach`. */
  lemma DebugFromReach(m: Machine, line: nat, macro: Macro, w: World)
    requires var d, a := Describe(macro), ActionOf(macro);
      a.Some? ==> Hygienic(a.value) && (Declares(d) ==> !Free(EVAL_ONCE, a.value))
    ensures var d, reach := Describe(macro), Reach(m, line, Describe(macro), w);
      var r := RunAction(m, Debug, ActionOf(macro), reach);
      Exec(m, Debug, Expand(Debug, Use(line, macro)), w)
        == if Fails(d, Inside(m, d, w).v) then Result(r.w, Finish(Debug, d, r.out)) else Result(reach, Normal)
  {
    hide Exec, Expand, Describe, Reported, Inside, Hygienic, Free, Rebind, Binding;
    DebugRun(m, line, macro, w);
    var d, a := Describe(macro), ActionOf(macro);
    if a.Some? && Declares(d) {
      ExecFrame(m, Debug, a.value, Reported(m, Debug, line, d, Inside(m, d, w)), EVAL_ONCE, Binding(w, EVAL_ONCE));
    }
  }

  /** A use in which both builds fail. */
  lemma BothFail(traced: bool, m: Machine, d: Spec, a: Option<Stmt>, w: World, reach: World)
    requires a.Some? ==> Clean(traced, m, a.value, w)
    ensures ActionRepairs(traced, m, d, a, w, reach)
       <==> if !Same(traced, w, reach) then a.Some? && ActionRepairs(traced, m, d, a, w, reach)
            else !(Captures(Debug, d) && !Captures(Production, d) && Escaped(RunAction(m, Production, a, w).out))
  {
    hide Calls, Captures;
    FinishDiffers(d, RunAction(m, Production, a, w).out);
    if a.Some? && Same(traced, w, reach) { BuildsAgree(traced, m, a.value, w, reach); }
  }

  /** Every macro of the header: with any action that leaves the local alone and
      whose own production run, if it comes to that, springs no trap, the builds
      agree on the use exactly when `AgreesWhen` says so. Argument and message
      may mention anything. */
  lemma UseAgreesExactly(traced: bool, m: Machine, line: nat, macro: Macro, w: World)
    requires var d, a := Describe(macro), ActionOf(macro);
      var p := EvalArgument(m, Production, d, w);
      a.Some? ==>
        && Hygienic(a.value)
        && (Declares(d) ==> !Free(EVAL_ONCE, a.value))
        && (Fails(d, p.v) ==> Clean(traced, m, a.value, p.w))
    ensures var s := Use(line, macro);
      Agree(traced, Exec(m, Production, Expand(Production, s), w), Exec(m, Debug, Expand(Debug, s), w))
      <==> AgreesWhen(traced, m, line, macro, w)
  {
    hide Exec, Expand, Describe, ActionOf, EvalArgument, Inside, Reach, Calls, Hygienic, Fails, Free, Clean;
    var d, a := Describe(macro), ActionOf(macro);
    var p, q := EvalArgument(m, Production, d, w), Inside(m, d, w);
    ProductionRun(m, line, macro, w);
    DebugFromReach(m, line, macro, w);
    if d.debugOnly {
      DebugOnlyForms(macro);
    } else if Fails(d, p.v) && Fails(d, q.v) {
      BothFail(traced, m, d, a, p.w, Reach(m, line, d, w));
    }
  }

  // ---------------------------------------------------------------- what an action can repair

  lemma ActionLeaves(m: Machine, b: Build, a: Stmt, w: World, x: Name)
    requires !Free(x, a)
    ensures Binding(Exec(m, b, a, w).w, x) == Binding(w, x)
  {
    hide Exec, Free;
    ExecFrame(m, b, a, w, x, Binding(w, x));
    RebindSame(w, x);
  }

  /** An action makes up only for variables it mentions: where the debug build
      comes to it with another value of one it does not, the builds differ. */
  lemma RepairNeedsMention(traced: bool, m: Machine, d: Spec, a: Stmt, w: World, reach: World, x: Name)
    requires !Free(x, a) && Binding(w, x) != Binding(reach, x)
    ensures !ActionRepairs(traced, m, d, Some(a), w, reach)
  {
    hide Exec, Free, Calls;
    ActionLeaves(m, Production, a, w, x);
    ActionLeaves(m, Debug, a, reach, x);
  }

  /** So a message, or a code that names the local, whose effect on some variable
      the action does not mention tells the builds apart, whatever the action does. */
  lemma UnmentionedEffectShows(traced: bool, m: Machine, line: nat, macro: Macro, w: World, x: Name)
    requires var d, a := Describe(macro), ActionOf(macro);
      var p := EvalArgument(m, Production, d, w);
      && a.Some? && Hygienic(a.value) && (Declares(d) ==> !Free(EVAL_ONCE, a.value)) && !Free(x, a.value)
      && Fails(d, p.v) && Fails(d, Inside(m, d, w).v) && Clean(traced, m, a.value, p.w)
      && Binding(p.w, x) != Binding(Reach(m, line, d, w), x)
    ensures var s := Use(line, macro);
      !Agree(traced, Exec(m, Production, Expand(Production, s), w), Exec(m, Debug, Expand(Debug, s), w))
  {
    hide Exec, Expand, Describe, ActionOf, EvalArgument, Inside, Reach, Calls, Hygienic, Fails, Free, Clean, ActionRepairs;
    var d, a := Describe(macro), ActionOf(macro).value;
    assert !d.debugOnly by { if d.debugOnly { DebugOnlyForms(macro); } }
    UseAgreesExactly(traced, m, line, macro, w);
    RepairNeedsMention(traced, m, d, a, EvalArgument(m, Production, d, w).w, Reach(m, line, d, w), x);
  }

  // ---------------------------------------------------------------- uses without an action

  /** Every verify and require form without an action, whatever it mentions: the
      builds agree exactly when debug ends up where evaluating the argument leaves
      production, and a require fails in both or in neither. */
  lemma ActionlessAgreesExactly(traced: bool, m: Machine, line: nat, macro: Macro, w: World)
    requires ActionOf(macro).None? && !Describe(macro).debugOnly
    ensures var s, d := Use(line, macro), Describe(macro);
      var p := EvalArgument(m, Production, d, w);
      Agree(traced, Exec(m, Production, Expand(Production, s), w), Exec(m, Debug, Expand(Debug, s), w))
      <==> && Same(traced, p.w, Reach(m, line, d, w))
           && (d.target.Some? ==> (Fails(d, p.v) <==> Fails(d, Inside(m, d, w).v)))
  {
    hide Exec, Expand, Describe, EvalArgument, Inside, Reach, Calls, Fails;
    UseAgreesExactly(traced, m, line, macro, w);
  }

  /** Where nothing names the local, it makes no difference. */
  lemma UnnamedReach(traced: bool, m: Machine, line: nat, d: Spec, w: World)
    requires !NamedByArgument(EVAL_ONCE, d)
    ensures var r := EvalArgument(m, Debug, d, w);
      && Inside(m, d, w).v == r.v
      && Same(traced, if Fails(d, r.v) && !d.quiet then EvalMessage(m, d.message, r.w).1 else r.w, Reach(m, line, d, w))
  {
    var x, r, outer := EVAL_ONCE, EvalArgument(m, Debug, d, w), Binding(w, EVAL_ONCE);
    ReportedWorld(traced, m, line, d, r);
    if Declares(d) {
      ArgumentFrame(m, Debug, line, d, w, x, None);
      ArgumentFrame(m, Debug, line, d, w, x, Some(r.v));
      ArgumentFrame(m, Debug, line, d, w, x, outer);
      RebindSame(w, x);
      RebindTwice(r.w, x, None, Some(r.v));
      RebindTwice(r.w, x, Some(r.v), outer);
      RebindTwice(Reported(m, Debug, line, d, r), x, Some(r.v), outer);
      hide EvalArgument, Reported, EvalMessage, Calls, Rebind, NamedByArgument;
    }
  }

  // ---------------------------------------------------------------- the traps, one by one

  /** A check agrees across builds exactly when evaluating its assertion leaves
      the variables as they were and, if calls count, makes none. */
  lemma CheckAgreesExactly(traced: bool, m: Machine, line: nat, n: bool, a: Expr, w: World)
    ensures var s := Use(line, Check(n, a));
      Agree(traced, Exec(m, Production, Expand(Production, s), w), Exec(m, Debug, Expand(Debug, s), w))
      <==> Same(traced, w, Eval(m, Negate(n, a), w).w)
  {
    hide Exec, Expand, Calls, Eval;
    UseAgreesExactly(traced, m, line, Check(n, a), w);
    var d := Describe(Check(n, a));
    ReportedWorld(traced, m, line, d, EvalArgument(m, Debug, d, w));
    hide Reported;
  }

  /** A require on an error code agrees exactly when the code is not a non-zero
      multiple of the range of long: such a code is an error in production and
      success in debug. */
  lemma RequireNoErrAgreesExactly(traced: bool, m: Machine, line: nat, e: Expr, l: Label, w: World)
    requires !Names(EVAL_ONCE, e)
    ensures var s, v := Use(line, RequireNoErr(e, l)), Eval(m, e, w).v;
      Agree(traced, Exec(m, Production, Expand(Production, s), w), Exec(m, Debug, Expand(Debug, s), w))
      <==> v == 0 || v % m.span != 0
  {
    hide Exec, Expand, Calls, Eval, Names, Inside, Reach;
    ActionlessAgreesExactly(traced, m, line, RequireNoErr(e, l), w);
    UnnamedReach(traced, m, line, Describe(RequireNoErr(e, l)), w);
    ToLongInLong(m, Eval(m, e, w).v);
  }

  /** The name trap without an action: `__Require_noErr(evalOnceErrorCode, l)`
      tests the client's variable in production and the local before it is set in
      debug. The builds agree exactly when both are zero or neither is. */
  lemma RequireOfTheNameExactly(traced: bool, m: Machine, line: nat, l: Label, w: World)
    ensures var s := Use(line, RequireNoErr(Var(EVAL_ONCE), l));
      Agree(traced, Exec(m, Production, Expand(Production, s), w), Exec(m, Debug, Expand(Debug, s), w))
      <==> (Eval(m, Var(EVAL_ONCE), w).v == 0 <==> ToLong(m, m.junk) == 0)
  {
    hide Exec, Expand, Calls, ToLong;
    var d := Describe(RequireNoErr(Var(EVAL_ONCE), l));
    ActionlessAgreesExactly(traced, m, line, RequireNoErr(Var(EVAL_ONCE), l), w);
    var q, outer := Inside(m, d, w), Binding(w, EVAL_ONCE);
    var unset := Rebind(w, EVAL_ONCE, None);
    assert q == Value(ToLong(m, m.junk), Rebind(unset, EVAL_ONCE, Some(ToLong(m, m.junk))));
    ReportedWorld(traced, m, line, d, q);
    hide Reported, Inside;
    OutsideSame(traced, d, w, q.w, Reported(m, Debug, line, d, q));
    RebindTwice(w, EVAL_ONCE, None, Some(q.v));
    RebindTwice(w, EVAL_ONCE, Some(q.v), outer);
    RebindSame(w, EVAL_ONCE);
  }

  lemma OutsideSame(traced: bool, d: Spec, w: World, w1: World, w2: World)
    requires Same(traced, w1, w2)
    ensures Same(traced, Outside(d, w, w1), Outside(d, w, w2))
  {}

  /** A verify on an error code with an action that the builds agree on: they
      agree on the whole exactly when a failing code's action does not end in a
      break or a continue. */
  lemma VerifyNoErrActionAgreesExactly(traced: bool, m: Machine, line: nat, e: Expr, action: Stmt, w: World)
    requires Hygienic(Use(line, VerifyNoErrAction(e, action)))
    requires var r := Eval(m, e, w);
      r.v != 0 ==> r.v % m.span != 0 && Clean(traced, m, action, r.w)
    ensures var s, r := Use(line, VerifyNoErrAction(e, action)), Eval(m, e, w);
      Agree(traced, Exec(m, Production, Expand(Production, s), w), Exec(m, Debug, Expand(Debug, s), w))
      <==> r.v == 0 || !Escaped(Exec(m, Production, action, r.w).out)
  {
    hide Exec, Expand, Calls, Eval, Clean, Inside, Reach;
    UseAgreesExactly(traced, m, line, VerifyNoErrAction(e, action), w);
    UnnamedReach(traced, m, line, Describe(VerifyNoErrAction(e, action)), w);
    ToLongInLong(m, Eval(m, e, w).v);
  }

  /** A verify with a message agrees exactly when it passes or reading the
      message, once or twice, leaves the program where it was. */
  lemma VerifyStringAgreesExactly(traced: bool, m: Machine, line: nat, n: bool, a: Expr, message: Expr, w: World)
    ensures var s, r := Use(line, VerifyString(n, a, message)), Eval(m, Negate(n, a), w);
      Agree(traced, Exec(m, Production, Expand(Production, s), w), Exec(m, Debug, Expand(Debug, s), w))
      <==> r.v != 0 || Same(traced, r.w, EvalMessage(m, Some(message), r.w).1)
  {
    hide Exec, Expand, Calls, Eval, EvalMessage;
    ActionlessAgreesExactly(traced, m, line, VerifyString(n, a, message), w);
    var d := Describe(VerifyString(n, a, message));
    ReportedWorld(traced, m, line, d, EvalArgument(m, Debug, d, w));
    hide Reported;
  }

  /** The message trap: `__Verify_String(0, x = n)` sets x in debug builds only. */
  lemma MessageTrap(m: Machine, line: nat, x: Name, n: int, w: World)
    ensures var s := Use(line, VerifyString(false, Lit(0), Assign(x, Lit(n))));
      Agree(false, Exec(m, Production, Expand(Production, s), w), Exec(m, Debug, Expand(Debug, s), w))
      <==> Binding(w, x) == Some(n)
  {
    hide Exec, Expand;
    var message := Assign(x, Lit(n));
    VerifyStringAgreesExactly(false, m, line, false, Lit(0), message, w);
    AssigningMessage(m, x, n, w);
    hide EvalMessage;
    assert w.vars == w.vars[x := n] <==> Binding(w, x) == Some(n);
  }

  /** Compared first and then assigned. */
  lemma AssigningMessage(m: Machine, x: Name, n: int, w: World)
    ensures EvalMessage(m, Some(Assign(x, Lit(n))), w).1.vars == w.vars[x := n]
  {
    var w1 := w.(vars := w.vars[x := Bool(n != 0)]);
    assert Eval(m, ComparedToNull(Assign(x, Lit(n))), w) == Value(Bool(n != 0), w1) by {
      assert ComparedToNull(Assign(x, Lit(n))) == Assign(x, NonZero(Lit(n)));
      assert Eval(m, NonZero(Lit(n)), w) == Value(Bool(n != 0), w);
    }
    assert Eval(m, Lit(n), w1) == Value(n, w1);
    assert Eval(m, Assign(x, Lit(n)), w1) == Value(n, w1.(vars := w1.vars[x := n]));
    assert w1.vars[x := n] == w.vars[x := n];
    assert n == 0 ==> w1.vars == w.vars[x := n];
  }

  // ---------------------------------------------------------------- the local's name

  /** Every form with the local whose action mentions it, or anything else: the
      builds agree exactly when the action, run in production alone, once from the
      client's world and once from the one with the local in it, ends alike when the
      client's own variable is put back. */
  lemma NameTrapExactly(traced: bool, m: Machine, line: nat, macro: Macro, w: World)
    requires var d, a := Describe(macro), ActionOf(macro);
      var q := Inside(m, d, w);
      && Declares(d) && a.Some? && Hygienic(a.value)
      && (Fails(d, q.v) ==> Clean(traced, m, a.value, Reported(m, Debug, line, d, q)))
    ensures var s, d, a := Use(line, macro), Describe(macro), ActionOf(macro).value;
      var p, q := EvalArgument(m, Production, d, w), Inside(m, d, w);
      var r := if Fails(d, p.v) then Exec(m, Production, a, p.w) else Result(p.w, Normal);
      var r' := if Fails(d, q.v) then Exec(m, Production, a, Reported(m, Debug, line, d, q)) else Result(q.w, Normal);
      Agree(traced, Exec(m, Production, Expand(Production, s), w), Exec(m, Debug, Expand(Debug, s), w))
      <==> && Same(traced, r.w, Rebind(r'.w, EVAL_ONCE, Binding(w, EVAL_ONCE)))
           && (if Fails(d, p.v) then Finish(Production, d, r.out) else Normal)
              == (if Fails(d, q.v) then Finish(Debug, d, r'.out) else Normal)
  {
    hide Exec, Expand, Describe, EvalArgument, Inside, Reported, Calls, Hygienic, Fails, Clean, Rebind, Finish;
    var d, a := Describe(macro), ActionOf(macro).value;
    var q := Inside(m, d, w);
    ProductionRun(m, line, macro, w);
    DebugRun(m, line, macro, w);
    assert d.debugOnly ==> ActionOf(macro).None? by { if d.debugOnly { DebugOnlyForms(macro); } }
    if Fails(d, q.v) {
      var last := Reported(m, Debug, line, d, q);
      BuildsAgree(traced, m, a, last, last);
      OutsideSame(traced, d, w, Exec(m, Production, a, last).w, Exec(m, Debug, a, last).w);
    }
  }

  /** One such action: reading a variable of the local's name gives the client's
      own variable in production and the error code in debug, so the builds agree
      exactly when the code passes or the two values are the same. */
  lemma NameCopied(traced: bool, m: Machine, line: nat, e: Expr, x: Name, w: World)
    requires x != EVAL_ONCE && !Names(EVAL_ONCE, e)
    requires var v := Eval(m, e, w).v; v != 0 ==> v % m.span != 0
    ensures var s, r := Use(line, VerifyNoErrAction(e, Do(Assign(x, Var(EVAL_ONCE))))), Eval(m, e, w);
      Agree(traced, Exec(m, Production, Expand(Production, s), w), Exec(m, Debug, Expand(Debug, s), w))
      <==> r.v == 0 || Eval(m, Var(EVAL_ONCE), r.w).v == ToLong(m, r.v)
  {
    var a := Do(Assign(x, Var(EVAL_ONCE)));
    var macro, r := VerifyNoErrAction(e, a), Eval(m, e, w);
    ToLongInLong(m, r.v);
    assert Exec(m, Production, a, r.w).w.vars == r.w.vars[x := Eval(m, Var(EVAL_ONCE), r.w).v];
    assert Exec(m, Production, a, r.w).out == Normal;
    ProductionRun(m, line, macro, w);
    if r.v != 0 {
      NameCopiedDebug(traced, m, line, e, x, w);
      hide Exec, Expand, Calls, Eval, ToLong;
      var p, q := r.w.vars[x := Eval(m, Var(EVAL_ONCE), r.w).v], r.w.vars[x := ToLong(m, r.v)];
      assert p == q <==> p[x] == q[x];
      assert Exec(m, Production, a, r.w).w.log == r.w.log by { CopyKeepsLog(m, x, r.w); }
    } else {
      UnnamedReach(traced, m, line, Describe(macro), w);
      DebugRun(m, line, macro, w);
      hide Exec, Expand, Calls, Eval;
    }
  }

  lemma CopyKeepsLog(m: Machine, x: Name, w: World)
    ensures Exec(m, Production, Do(Assign(x, Var(EVAL_ONCE))), w).w.log == w.log
    ensures Exec(m, Production, Do(Assign(x, Var(EVAL_ONCE))), w).w.fuel == w.fuel
  {
    assert Eval(m, Var(EVAL_ONCE), w).w == w;
  }

  lemma NameCopiedDebug(traced: bool, m: Machine, line: nat, e: Expr, x: Name, w: World)
    requires x != EVAL_ONCE && !Names(EVAL_ONCE, e) && ToLong(m, Eval(m, e, w).v) != 0
    ensures var r, k := Eval(m, e, w), ToLong(m, Eval(m, e, w).v);
      var q := Exec(m, Debug, Expand(Debug, Use(line, VerifyNoErrAction(e, Do(Assign(x, Var(EVAL_ONCE)))))), w);
      Same(traced, r.w.(vars := r.w.vars[x := k]), q.w) && q.out == Normal
  {
    var a := Do(Assign(x, Var(EVAL_ONCE)));
    var macro := VerifyNoErrAction(e, a);
    var d, r, k := Describe(macro), Eval(m, e, w), ToLong(m, Eval(m, e, w).v);
    DebugRun(m, line, macro, w);
    EvalFrame(m, e, w, EVAL_ONCE, None);
    RebindTwice(r.w, EVAL_ONCE, None, Some(k));
    var w1 := Rebind(r.w, EVAL_ONCE, Some(k));
    assert Inside(m, d, w) == Value(k, w1);
    var w2 := Reported(m, Debug, line, d, Value(k, w1));
    ReportedWorld(traced, m, line, d, Value(k, w1));
    assert w2.vars == w1.vars && w2.fuel == w1.fuel;
    assert Eval(m, Var(EVAL_ONCE), w2) == Value(k, w2);
    assert Exec(m, Debug, a, w2) == Result(w2.(vars := w2.vars[x := k]), Normal);
    // evaluating the error code left the outer variable alone
    RebindSame(w, EVAL_ONCE);
    EvalFrame(m, e, w, EVAL_ONCE, Binding(w, EVAL_ONCE));
    hide Exec, Expand, Calls, Eval, Reported;
    assert Rebind(w2.(vars := w2.vars[x := k]), EVAL_ONCE, Binding(w, EVAL_ONCE)).vars == r.w.vars[x := k];
  }

  // ---------------------------------------------------------------- a loop that does not end

  /** One round of the loop below. */
  lemma BreakTrapRound(m: Machine, line: nat, w: World)
    ensures var body := Use(line, VerifyNoErrAction(Lit(1), Break));
      && Exec(m, Production, Expand(Production, body), w).out == Broke
      && Exec(m, Debug, Expand(Debug, body), w).out == Normal
      && Exec(m, Debug, Expand(Debug, body), w).w.fuel == w.fuel
  {
    var body := Use(line, VerifyNoErrAction(Lit(1), Break));
    assert Hygienic(Break) && !Free(EVAL_ONCE, Break);
    assert Hygienic(body);
    ExpandCorrect(m, Production, body, w);
    ExpandCorrect(m, Debug, body, w);
    ToLongBool(m, true);
    hide Expand, Hygienic;
  }

  /** `while (1) __Verify_noErr_Action(1, break);` leaves its loop in production
      builds and never does in debug builds. */
  lemma {:induction false} BreakTrap(m: Machine, line: nat, w: World)
    requires w.fuel > 0
    ensures var s := While(Lit(1), Use(line, VerifyNoErrAction(Lit(1), Break)));
      && Exec(m, Production, Expand(Production, s), w).out == Normal
      && Exec(m, Debug, Expand(Debug, s), w).out == Timeout
    decreases w.fuel
  {
    var body := Use(line, VerifyNoErrAction(Lit(1), Break));
    var s := While(Lit(1), body);
    assert forall b :: Expand(b, s) == While(Lit(1), Expand(b, body));
    var w1 := w.(fuel := w.fuel - 1);
    BreakTrapRound(m, line, w1);
    var q := Exec(m, Debug, Expand(Debug, body), w1);
    hide Expand;
    if w1.fuel > 0 {
      BreakTrap(m, line, q.w);
    }
  }
}
