/** The header macro by macro: what a use of each name does, written out, and
    how the names hang together. Nothing here speaks of families and suffixes. */
module MacroNames {
  import opened Wrappers
  import opened CSyntax
  import opened CSemantics
  import opened AssertMacros
  import opened Hygiene
  import opened Expansion

  // ---------------------------------------------------------------- names for other names

  lemma ExpandUse(b: Build, line: nat, macro: Macro)
    ensures var a := ActionOf(macro);
      var act := if a.Some? then Act(Expand(b, a.value)) else End;
      Expand(b, Use(line, macro)) == if b == Production then ProductionForm(line, macro, act) else DebugForm(line, macro, act)
  {
    hide Act, ActionOf, ProductionForm, DebugForm;
  }

  /** Each `__n...` macro is its base macro with the assertion negated. */
  lemma CheckWrappersNegate(b: Build, line: nat, a: Expr, message: Expr)
    ensures Expand(b, Use(line, Check(true, a))) == Expand(b, Use(line, Check(false, Not(a))))
    ensures Expand(b, Use(line, CheckString(true, a, message))) == Expand(b, Use(line, CheckString(false, Not(a), message)))
  {
    hide Expand, Act;
    ExpandUse(b, line, Check(true, a));
    ExpandUse(b, line, Check(false, Not(a)));
    ExpandUse(b, line, CheckString(true, a, message));
    ExpandUse(b, line, CheckString(false, Not(a), message));
  }

  lemma VerifyWrappersNegate(b: Build, line: nat, a: Expr, message: Expr)
    ensures Expand(b, Use(line, Verify(true, a))) == Expand(b, Use(line, Verify(false, Not(a))))
    ensures Expand(b, Use(line, VerifyString(true, a, message))) == Expand(b, Use(line, VerifyString(false, Not(a), message)))
  {
    hide Expand, Act;
    ExpandUse(b, line, Verify(true, a));
    ExpandUse(b, line, Verify(false, Not(a)));
    ExpandUse(b, line, VerifyString(true, a, message));
    ExpandUse(b, line, VerifyString(false, Not(a), message));
  }

  lemma RequireWrappersNegate(b: Build, line: nat, a: Expr, l: Label, message: Expr)
    ensures Expand(b, Use(line, Require(true, a, l))) == Expand(b, Use(line, Require(false, Not(a), l)))
    ensures Expand(b, Use(line, RequireQuiet(true, a, l))) == Expand(b, Use(line, RequireQuiet(false, Not(a), l)))
    ensures Expand(b, Use(line, RequireString(true, a, l, message)))
         == Expand(b, Use(line, RequireString(false, Not(a), l, message)))
  {
    hide Expand, Act;
    ExpandUse(b, line, Require(true, a, l));
    ExpandUse(b, line, Require(false, Not(a), l));
    ExpandUse(b, line, RequireQuiet(true, a, l));
    ExpandUse(b, line, RequireQuiet(false, Not(a), l));
    ExpandUse(b, line, RequireString(true, a, l, message));
    ExpandUse(b, line, RequireString(false, Not(a), l, message));
  }

  lemma ActionWrappersNegate(b: Build, line: nat, a: Expr, l: Label, action: Stmt, message: Expr)
    ensures Expand(b, Use(line, RequireAction(true, a, l, action)))
         == Expand(b, Use(line, RequireAction(false, Not(a), l, action)))
    ensures Expand(b, Use(line, RequireActionQuiet(true, a, l, action)))
         == Expand(b, Use(line, RequireActionQuiet(false, Not(a), l, action)))
    ensures Expand(b, Use(line, RequireActionString(true, a, l, action, message)))
         == Expand(b, Use(line, RequireActionString(false, Not(a), l, action, message)))
  {
    hide Expand, Act;
    ExpandUse(b, line, RequireAction(true, a, l, action));
    ExpandUse(b, line, RequireAction(false, Not(a), l, action));
    ExpandUse(b, line, RequireActionQuiet(true, a, l, action));
    ExpandUse(b, line, RequireActionQuiet(false, Not(a), l, action));
    ExpandUse(b, line, RequireActionString(true, a, l, action, message));
    ExpandUse(b, line, RequireActionString(false, Not(a), l, action, message));
  }

  /** The four quiet macros have one definition for both builds. */
  lemma QuietFormsAreOne(line: nat, n: bool, a: Expr, e: Expr, l: Label, action: Stmt, act: Items)
    ensures DebugForm(line, RequireQuiet(n, a, l), act) == ProductionForm(line, RequireQuiet(n, a, l), act)
    ensures DebugForm(line, RequireActionQuiet(n, a, l, action), act)
         == ProductionForm(line, RequireActionQuiet(n, a, l, action), act)
    ensures DebugForm(line, RequireNoErrQuiet(e, l), act) == ProductionForm(line, RequireNoErrQuiet(e, l), act)
    ensures DebugForm(line, RequireNoErrActionQuiet(e, l, action), act)
         == ProductionForm(line, RequireNoErrActionQuiet(e, l, action), act)
  {}

  /** In production the check forms and the bare message are empty. */
  lemma ChecksVanish(line: nat, n: bool, a: Expr, e: Expr, message: Expr)
    ensures Expand(Production, Use(line, DebugString(message))) == Null
    ensures Expand(Production, Use(line, Check(n, a))) == Null
    ensures Expand(Production, Use(line, CheckString(n, a, message))) == Null
    ensures Expand(Production, Use(line, CheckNoErr(e))) == Null
    ensures Expand(Production, Use(line, CheckNoErrString(e, message))) == Null
  {
    hide Expand, Act;
    ExpandUse(Production, line, DebugString(message));
    ExpandUse(Production, line, Check(n, a));
    ExpandUse(Production, line, CheckString(n, a, message));
    ExpandUse(Production, line, CheckNoErr(e));
    ExpandUse(Production, line, CheckNoErrString(e, message));
  }

  /** And the string and quiet forms are the forms without. */
  lemma VerifyStringsVanish(line: nat, n: bool, a: Expr, e: Expr, message: Expr)
    ensures Expand(Production, Use(line, VerifyString(n, a, message))) == Expand(Production, Use(line, Verify(n, a)))
    ensures Expand(Production, Use(line, VerifyNoErrString(e, message))) == Expand(Production, Use(line, VerifyNoErr(e)))
  {
    hide Expand, Act;
    ExpandUse(Production, line, VerifyString(n, a, message));
    ExpandUse(Production, line, Verify(n, a));
    ExpandUse(Production, line, VerifyNoErrString(e, message));
    ExpandUse(Production, line, VerifyNoErr(e));
  }

  lemma RequireStringsVanish(line: nat, n: bool, a: Expr, l: Label, message: Expr)
    ensures Expand(Production, Use(line, RequireString(n, a, l, message))) == Expand(Production, Use(line, Require(n, a, l)))
    ensures Expand(Production, Use(line, RequireQuiet(n, a, l))) == Expand(Production, Use(line, Require(n, a, l)))
  {
    hide Expand, Act;
    ExpandUse(Production, line, RequireString(n, a, l, message));
    ExpandUse(Production, line, RequireQuiet(n, a, l));
    ExpandUse(Production, line, Require(n, a, l));
  }

  lemma CodeStringsVanish(line: nat, e: Expr, l: Label, message: Expr)
    ensures Expand(Production, Use(line, RequireNoErrString(e, l, message)))
         == Expand(Production, Use(line, RequireNoErr(e, l)))
    ensures Expand(Production, Use(line, RequireNoErrQuiet(e, l))) == Expand(Production, Use(line, RequireNoErr(e, l)))
  {
    hide Expand, Act;
    ExpandUse(Production, line, RequireNoErrString(e, l, message));
    ExpandUse(Production, line, RequireNoErrQuiet(e, l));
    ExpandUse(Production, line, RequireNoErr(e, l));
  }

  lemma ActionStringsVanish(line: nat, n: bool, a: Expr, e: Expr, l: Label, action: Stmt, message: Expr)
    ensures Expand(Production, Use(line, RequireActionString(n, a, l, action, message)))
         == Expand(Production, Use(line, RequireAction(n, a, l, action)))
    ensures Expand(Production, Use(line, RequireNoErrActionString(e, l, action, message)))
         == Expand(Production, Use(line, RequireNoErrAction(e, l, action)))
    ensures Expand(Production, Use(line, RequireActionQuiet(n, a, l, action)))
         == Expand(Production, Use(line, RequireAction(n, a, l, action)))
    ensures Expand(Production, Use(line, RequireNoErrActionQuiet(e, l, action)))
         == Expand(Production, Use(line, RequireNoErrAction(e, l, action)))
  {
    hide Expand, Act;
    ExpandUse(Production, line, RequireActionString(n, a, l, action, message));
    ExpandUse(Production, line, RequireAction(n, a, l, action));
    ExpandUse(Production, line, RequireNoErrActionString(e, l, action, message));
    ExpandUse(Production, line, RequireNoErrAction(e, l, action));
    ExpandUse(Production, line, RequireActionQuiet(n, a, l, action));
    ExpandUse(Production, line, RequireNoErrActionQuiet(e, l, action));
  }

  // ---------------------------------------------------------------- running one use

  lemma UseMeans(m: Machine, b: Build, line: nat, macro: Macro, w: World)
    requires b == Debug ==> Hygienic(Use(line, macro))
    ensures var d, a := Describe(macro), ActionOf(macro);
      var r := EvalArgument(m, b, d, w);
      Exec(m, b, Expand(b, Use(line, macro)), w)
        == if b == Production && d.debugOnly then Result(w, Normal)
           else if !Fails(d, r.v) then Result(r.w, Normal)
           else
             var q := RunAction(m, b, a, Reported(m, b, line, d, r));
             Result(q.w, Finish(b, d, q.out))
  {
    ExpandCorrect(m, b, Use(line, macro), w);
    hide Expand, Describe, ActionOf, EvalArgument, Reported, Finish;
  }

  /** How a require's action leads on: to the label after a normal end, to the
      next statement after a break or continue. */
  function ThenGoto(out: Outcome, l: Label): Outcome
  {
    match out
    case Normal => Jump(l)
    case Broke => Normal
    case Continued => Normal
    case _ => out
  }

  // ---------------------------------------------------------------- production

  /** The verify forms evaluate their argument and no more. */
  lemma ProductionVerifies(m: Machine, line: nat, a: Expr, e: Expr, w: World)
    ensures Exec(m, Production, Expand(Production, Use(line, Verify(false, a))), w) == Result(Eval(m, a, w).w, Normal)
    ensures Exec(m, Production, Expand(Production, Use(line, VerifyNoErr(e))), w) == Result(Eval(m, e, w).w, Normal)
  {
    hide Exec, Expand, Eval;
    UseMeans(m, Production, line, Verify(false, a), w);
    UseMeans(m, Production, line, VerifyNoErr(e), w);
  }

  lemma ProductionVerifyActions(m: Machine, line: nat, a: Expr, e: Expr, action: Stmt, w: World)
    ensures var r := Eval(m, a, w);
      Exec(m, Production, Expand(Production, Use(line, VerifyAction(a, action))), w)
        == if r.v != 0 then Result(r.w, Normal) else Exec(m, Production, action, r.w)
    ensures var r := Eval(m, e, w);
      Exec(m, Production, Expand(Production, Use(line, VerifyNoErrAction(e, action))), w)
        == if r.v == 0 then Result(r.w, Normal) else Exec(m, Production, action, r.w)
  {
    hide Exec, Expand, Eval;
    UseMeans(m, Production, line, VerifyAction(a, action), w);
    UseMeans(m, Production, line, VerifyNoErrAction(e, action), w);
  }

  lemma ProductionRequires(m: Machine, line: nat, a: Expr, e: Expr, l: Label, w: World)
    ensures var r := Eval(m, a, w);
      Exec(m, Production, Expand(Production, Use(line, Require(false, a, l))), w)
        == Result(r.w, if r.v != 0 then Normal else Jump(l))
    ensures var r := Eval(m, e, w);
      Exec(m, Production, Expand(Production, Use(line, RequireNoErr(e, l))), w)
        == Result(r.w, if r.v == 0 then Normal else Jump(l))
  {
    hide Exec, Expand, Eval;
    UseMeans(m, Production, line, Require(false, a, l), w);
    UseMeans(m, Production, line, RequireNoErr(e, l), w);
  }

  lemma ProductionRequireActions(m: Machine, line: nat, a: Expr, e: Expr, l: Label, action: Stmt, w: World)
    ensures var r := Eval(m, a, w);
      var q := Exec(m, Production, action, r.w);
      Exec(m, Production, Expand(Production, Use(line, RequireAction(false, a, l, action))), w)
        == if r.v != 0 then Result(r.w, Normal) else Result(q.w, ThenGoto(q.out, l))
    ensures var r := Eval(m, e, w);
      var q := Exec(m, Production, action, r.w);
      Exec(m, Production, Expand(Production, Use(line, RequireNoErrAction(e, l, action))), w)
        == if r.v == 0 then Result(r.w, Normal) else Result(q.w, ThenGoto(q.out, l))
  {
    hide Exec, Expand, Eval;
    UseMeans(m, Production, line, RequireAction(false, a, l, action), w);
    UseMeans(m, Production, line, RequireNoErrAction(e, l, action), w);
  }

  // ---------------------------------------------------------------- debug

  /** A failing assertion adds exactly one message, with the assertion's own text,
      the label if there is one, and the use's own line. */
  lemma DebugAssertions(m: Machine, line: nat, a: Expr, l: Label, w: World)
    ensures var r := Eval(m, a, w);
      var told := r.w.(log := r.w.log + [Message(Asserted(a), None, None, line, 0)]);
      && Exec(m, Debug, Expand(Debug, Use(line, Check(false, a))), w)
         == (if r.v != 0 then Result(r.w, Normal) else Result(told, Normal))
      && Exec(m, Debug, Expand(Debug, Use(line, Verify(false, a))), w)
         == (if r.v != 0 then Result(r.w, Normal) else Result(told, Normal))
    ensures var r := Eval(m, a, w);
      var told := r.w.(log := r.w.log + [Message(Asserted(a), Some(l), None, line, 0)]);
      Exec(m, Debug, Expand(Debug, Use(line, Require(false, a, l))), w)
        == if r.v != 0 then Result(r.w, Normal) else Result(told, Jump(l))
  {
    hide Exec, Expand, Eval;
    UseMeans(m, Debug, line, Check(false, a), w);
    UseMeans(m, Debug, line, Verify(false, a), w);
    UseMeans(m, Debug, line, Require(false, a, l), w);
  }

  /** The string forms add theirs with the message they are given. */
  lemma DebugStrings(m: Machine, line: nat, a: Expr, message: Expr, w: World)
    ensures var (shown, read) := EvalMessage(m, Some(message), w);
      Exec(m, Debug, Expand(Debug, Use(line, DebugString(message))), w)
        == Result(read.(log := read.log + [Message(NoText, None, shown, line, 0)]), Normal)
    ensures var r := Eval(m, a, w);
      var (shown, read) := EvalMessage(m, Some(message), r.w);
      var told := read.(log := read.log + [Message(Asserted(a), None, shown, line, 0)]);
      && Exec(m, Debug, Expand(Debug, Use(line, CheckString(false, a, message))), w)
         == (if r.v != 0 then Result(r.w, Normal) else Result(told, Normal))
      && Exec(m, Debug, Expand(Debug, Use(line, VerifyString(false, a, message))), w)
         == (if r.v != 0 then Result(r.w, Normal) else Result(told, Normal))
  {
    hide Exec, Expand, Eval, EvalMessage;
    UseMeans(m, Debug, line, DebugString(message), w);
    UseMeans(m, Debug, line, CheckString(false, a, message), w);
    UseMeans(m, Debug, line, VerifyString(false, a, message), w);
  }

  lemma DebugRequireString(m: Machine, line: nat, a: Expr, l: Label, message: Expr, w: World)
    ensures var r := Eval(m, a, w);
      var (shown, read) := EvalMessage(m, Some(message), r.w);
      var told := read.(log := read.log + [Message(Asserted(a), Some(l), shown, line, 0)]);
      Exec(m, Debug, Expand(Debug, Use(line, RequireString(false, a, l, message))), w)
        == if r.v != 0 then Result(r.w, Normal) else Result(told, Jump(l))
  {
    hide Exec, Expand, Eval, EvalMessage;
    UseMeans(m, Debug, line, RequireString(false, a, l, message), w);
  }

  /** The error-code forms add theirs with the code's text and converted value. */
  lemma DebugCodes(m: Machine, line: nat, e: Expr, l: Label, w: World)
    requires !Names(EVAL_ONCE, e)
    ensures var r, k := Eval(m, e, w), ToLong(m, Eval(m, e, w).v);
      var told := r.w.(log := r.w.log + [Message(ComparedToZero(e), None, None, line, k)]);
      && Exec(m, Debug, Expand(Debug, Use(line, CheckNoErr(e))), w)
         == (if k == 0 then Result(r.w, Normal) else Result(told, Normal))
      && Exec(m, Debug, Expand(Debug, Use(line, VerifyNoErr(e))), w)
         == (if k == 0 then Result(r.w, Normal) else Result(told, Normal))
    ensures var r, k := Eval(m, e, w), ToLong(m, Eval(m, e, w).v);
      var told := r.w.(log := r.w.log + [Message(ComparedToZero(e), Some(l), None, line, k)]);
      Exec(m, Debug, Expand(Debug, Use(line, RequireNoErr(e, l))), w)
        == if k == 0 then Result(r.w, Normal) else Result(told, Jump(l))
  {
    hide Exec, Expand, Eval, ToLong;
    UseMeans(m, Debug, line, CheckNoErr(e), w);
    UseMeans(m, Debug, line, VerifyNoErr(e), w);
    UseMeans(m, Debug, line, RequireNoErr(e, l), w);
  }

  lemma DebugCodeStrings(m: Machine, line: nat, e: Expr, l: Label, message: Expr, w: World)
    requires !Names(EVAL_ONCE, e) && !Names(EVAL_ONCE, message)
    ensures var r, k := Eval(m, e, w), ToLong(m, Eval(m, e, w).v);
      var (shown, read) := EvalMessage(m, Some(message), r.w);
      var told := read.(log := read.log + [Message(ComparedToZero(e), None, shown, line, k)]);
      && Exec(m, Debug, Expand(Debug, Use(line, CheckNoErrString(e, message))), w)
         == (if k == 0 then Result(r.w, Normal) else Result(told, Normal))
      && Exec(m, Debug, Expand(Debug, Use(line, VerifyNoErrString(e, message))), w)
         == (if k == 0 then Result(r.w, Normal) else Result(told, Normal))
    ensures var r, k := Eval(m, e, w), ToLong(m, Eval(m, e, w).v);
      var (shown, read) := EvalMessage(m, Some(message), r.w);
      var told := read.(log := read.log + [Message(ComparedToZero(e), Some(l), shown, line, k)]);
      Exec(m, Debug, Expand(Debug, Use(line, RequireNoErrString(e, l, message))), w)
        == if k == 0 then Result(r.w, Normal) else Result(told, Jump(l))
  {
    hide Exec, Expand, Eval, ToLong, EvalMessage;
    UseMeans(m, Debug, line, CheckNoErrString(e, message), w);
    UseMeans(m, Debug, line, VerifyNoErrString(e, message), w);
    UseMeans(m, Debug, line, RequireNoErrString(e, l, message), w);
  }

  /** The action comes after the message. */
  lemma DebugVerifyAction(m: Machine, line: nat, a: Expr, action: Stmt, w: World)
    requires Hygienic(action)
    ensures var r := Eval(m, a, w);
      var told := r.w.(log := r.w.log + [Message(Asserted(a), None, None, line, 0)]);
      Exec(m, Debug, Expand(Debug, Use(line, VerifyAction(a, action))), w)
        == if r.v != 0 then Result(r.w, Normal) else Exec(m, Debug, action, told)
  {
    hide Exec, Expand, Eval;
    UseMeans(m, Debug, line, VerifyAction(a, action), w);
  }

  lemma DebugRequireAction(m: Machine, line: nat, a: Expr, l: Label, action: Stmt, w: World)
    requires Hygienic(action)
    ensures var r := Eval(m, a, w);
      var q := Exec(m, Debug, action, r.w.(log := r.w.log + [Message(Asserted(a), Some(l), None, line, 0)]));
      Exec(m, Debug, Expand(Debug, Use(line, RequireAction(false, a, l, action))), w)
        == if r.v != 0 then Result(r.w, Normal) else Result(q.w, ThenGoto(q.out, l))
  {
    hide Exec, Expand, Eval;
    UseMeans(m, Debug, line, RequireAction(false, a, l, action), w);
  }

  lemma DebugRequireActionString(m: Machine, line: nat, a: Expr, l: Label, action: Stmt, message: Expr, w: World)
    requires Hygienic(action)
    ensures var r := Eval(m, a, w);
      var (shown, read) := EvalMessage(m, Some(message), r.w);
      var q := Exec(m, Debug, action, read.(log := read.log + [Message(Asserted(a), Some(l), shown, line, 0)]));
      Exec(m, Debug, Expand(Debug, Use(line, RequireActionString(false, a, l, action, message))), w)
        == if r.v != 0 then Result(r.w, Normal) else Result(q.w, ThenGoto(q.out, l))
  {
    hide Exec, Expand, Eval, EvalMessage;
    UseMeans(m, Debug, line, RequireActionString(false, a, l, action, message), w);
  }

  /** A verify on an error code keeps a break or continue of its action in. */
  lemma DebugVerifyCodeAction(m: Machine, line: nat, e: Expr, action: Stmt, w: World)
    requires Hygienic(action) && !Free(EVAL_ONCE, action) && !Names(EVAL_ONCE, e)
    ensures var r, k := Eval(m, e, w), ToLong(m, Eval(m, e, w).v);
      var q := Exec(m, Debug, action, r.w.(log := r.w.log + [Message(ComparedToZero(e), None, None, line, k)]));
      Exec(m, Debug, Expand(Debug, Use(line, VerifyNoErrAction(e, action))), w)
        == if k == 0 then Result(r.w, Normal)
           else Result(q.w, if q.out == Broke || q.out == Continued then Normal else q.out)
  {
    assert Hygienic(Use(line, VerifyNoErrAction(e, action)));
    hide Exec, Expand, Eval, ToLong;
    UseMeans(m, Debug, line, VerifyNoErrAction(e, action), w);
  }

  lemma DebugRequireCodeAction(m: Machine, line: nat, e: Expr, l: Label, action: Stmt, w: World)
    requires Hygienic(action) && !Free(EVAL_ONCE, action) && !Names(EVAL_ONCE, e)
    ensures var r, k := Eval(m, e, w), ToLong(m, Eval(m, e, w).v);
      var q := Exec(m, Debug, action, r.w.(log := r.w.log + [Message(ComparedToZero(e), Some(l), None, line, k)]));
      Exec(m, Debug, Expand(Debug, Use(line, RequireNoErrAction(e, l, action))), w)
        == if k == 0 then Result(r.w, Normal) else Result(q.w, ThenGoto(q.out, l))
  {
    assert Hygienic(Use(line, RequireNoErrAction(e, l, action)));
    hide Exec, Expand, Eval, ToLong, Hygienic;
    UseMeans(m, Debug, line, RequireNoErrAction(e, l, action), w);
  }

  lemma DebugRequireCodeActionString(m: Machine, line: nat, e: Expr, l: Label, action: Stmt, message: Expr, w: World)
    requires Hygienic(action) && !Free(EVAL_ONCE, action) && !Names(EVAL_ONCE, e) && !Names(EVAL_ONCE, message)
    ensures var r, k := Eval(m, e, w), ToLong(m, Eval(m, e, w).v);
      var (shown, read) := EvalMessage(m, Some(message), r.w);
      var q := Exec(m, Debug, action, read.(log := read.log + [Message(ComparedToZero(e), Some(l), shown, line, k)]));
      Exec(m, Debug, Expand(Debug, Use(line, RequireNoErrActionString(e, l, action, message))), w)
        == if k == 0 then Result(r.w, Normal) else Result(q.w, ThenGoto(q.out, l))
  {
    assert Hygienic(Use(line, RequireNoErrActionString(e, l, action, message)));
    hide Exec, Expand, Eval, ToLong, EvalMessage, Hygienic;
    UseMeans(m, Debug, line, RequireNoErrActionString(e, l, action, message), w);
  }

  // ---------------------------------------------------------------- wrappers and messages, in action

  lemma EvalNot(m: Machine, a: Expr, w: World)
    ensures Eval(m, Not(a), w).w == Eval(m, a, w).w && (Eval(m, Not(a), w).v != 0 <==> Eval(m, a, w).v == 0)
  {}

  /** A wrapper reports exactly when its own argument is true, with the negation
      in the text. */
  lemma WrappersReport(m: Machine, line: nat, a: Expr, l: Label, w: World)
    ensures var r := Eval(m, a, w);
      var told := r.w.(log := r.w.log + [Message(Asserted(Not(a)), None, None, line, 0)]);
      && Exec(m, Debug, Expand(Debug, Use(line, Check(true, a))), w)
         == (if r.v == 0 then Result(r.w, Normal) else Result(told, Normal))
      && Exec(m, Debug, Expand(Debug, Use(line, Verify(true, a))), w)
         == (if r.v == 0 then Result(r.w, Normal) else Result(told, Normal))
    ensures var r := Eval(m, a, w);
      var told := r.w.(log := r.w.log + [Message(Asserted(Not(a)), Some(l), None, line, 0)]);
      Exec(m, Debug, Expand(Debug, Use(line, Require(true, a, l))), w)
        == if r.v == 0 then Result(r.w, Normal) else Result(told, Jump(l))
  {
    hide Exec, Expand, Eval;
    CheckWrappersNegate(Debug, line, a, Lit(0));
    VerifyWrappersNegate(Debug, line, a, Lit(0));
    RequireWrappersNegate(Debug, line, a, l, Lit(0));
    EvalNot(m, a, w);
    DebugAssertions(m, line, Not(a), l, w);
  }

  /** And a require one leaves for its label exactly then, in either build. */
  lemma WrappersLeave(m: Machine, line: nat, a: Expr, l: Label, w: World)
    ensures var r := Eval(m, a, w);
      && Exec(m, Production, Expand(Production, Use(line, Require(true, a, l))), w)
         == Result(r.w, if r.v == 0 then Normal else Jump(l))
      && Exec(m, Debug, Expand(Debug, Use(line, RequireQuiet(true, a, l))), w)
         == Result(r.w, if r.v == 0 then Normal else Jump(l))
  {
    hide Exec, Expand, Eval;
    RequireWrappersNegate(Debug, line, a, l, Lit(0));
    RequireWrappersNegate(Production, line, a, l, Lit(0));
    EvalNot(m, a, w);
    ProductionRequires(m, line, Not(a), Lit(0), l, w);
    QuietUsesAreSilent(m, line, Not(a), Lit(0), l, w);
  }

  /** A quiet form's failing use in debug is its failing use in production. */
  lemma QuietUsesAreSilent(m: Machine, line: nat, a: Expr, e: Expr, l: Label, w: World)
    ensures var r := Eval(m, a, w);
      Exec(m, Debug, Expand(Debug, Use(line, RequireQuiet(false, a, l))), w)
        == Result(r.w, if r.v != 0 then Normal else Jump(l))
    ensures var r := Eval(m, e, w);
      Exec(m, Debug, Expand(Debug, Use(line, RequireNoErrQuiet(e, l))), w)
        == Result(r.w, if r.v == 0 then Normal else Jump(l))
  {
    hide Exec, Expand, Eval;
    UseMeans(m, Debug, line, RequireQuiet(false, a, l), w);
    UseMeans(m, Debug, line, RequireNoErrQuiet(e, l), w);
  }

  /** A message is compared and then read: a function called for it is called
      twice, or once if it gives null. */
  lemma MessageIsReadTwice(m: Machine, line: nat, f: nat, n: int, w: World)
    ensures var v := m.ext(f, n);
      Exec(m, Debug, Expand(Debug, Use(line, VerifyString(false, Lit(0), Call(f, Lit(n))))), w)
        == Result(w.(log := w.log
             + (if v == 0 then [Called(f, n)] else [Called(f, n), Called(f, n)])
             + [Message(Asserted(Lit(0)), None, Some(v), line, 0)]), Normal)
  {
    var message, v := Call(f, Lit(n)), m.ext(f, n);
    var w1 := w.(log := w.log + [Called(f, n)]);
    assert Eval(m, Lit(0), w) == Value(0, w);
    assert Eval(m, message, w) == Value(v, w1);
    assert Eval(m, NonZero(message), w) == Value(Bool(v != 0), w1);
    var w2 := w1.(log := w1.log + [Called(f, n)]);
    assert Eval(m, message, w1) == Value(v, w2);
    assert w2.log == w.log + [Called(f, n), Called(f, n)];
    hide Exec, Expand, Eval;
    DebugStrings(m, line, Lit(0), message, w);
  }
}
