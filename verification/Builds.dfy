/** The two builds compared: when a program means the same with and without
    debug code, and exactly which uses tell the builds apart. */
module Builds {
  import opened Wrappers
  import opened CSyntax
  import opened CSemantics
  import opened AssertMacros
  import opened MacroShapes
  import opened Expansion

  /** The client calls in a log, in order. */
  function Calls(log: seq<Event>): seq<Event>
  {
    if log == [] then []
    else Calls(log[..|log| - 1]) + if log[|log| - 1].Called? then [log[|log| - 1]] else []
  }

  lemma CallsSnoc(log: seq<Event>, e: Event)
    ensures Calls(log + [e]) == Calls(log) + if e.Called? then [e] else []
  {
    assert (log + [e])[..|log|] == log;
  }

  /** Worlds in which the program stands alike: the same variables and, if
      `traced`, the same client calls made so far. Messages do not count. */
  predicate Same(traced: bool, w: World, w': World)
  {
    w.vars == w'.vars && w.fuel == w'.fuel && (traced ==> Calls(w.log) == Calls(w'.log))
  }

  predicate Agree(traced: bool, r: Result, r': Result)
  {
    Same(traced, r.w, r'.w) && r.out == r'.out
  }

  // ---------------------------------------------------------------- expanded programs

  predicate MacroFree(s: Stmt)
  {
    match s
    case If(_, t) => MacroFree(t)
    case IfElse(_, t, e) => MacroFree(t) && MacroFree(e)
    case While(_, b) => MacroFree(b)
    case DoOnce(b) => MacroFree(b)
    case Block(items) => MacroFreeItems(items)
    case Use(_, _) => false
    case _ => true
  }

  predicate MacroFreeItems(items: Items)
  {
    match items
    case End => true
    case Then(s, rest) => MacroFree(s) && MacroFreeItems(rest)
    case Local(_, _, rest) => MacroFreeItems(rest)
    case Labelled(_, rest) => MacroFreeItems(rest)
  }

  /** Expansion leaves no macro use behind. */
  lemma {:induction false} ExpandIsMacroFree(b: Build, s: Stmt)
    ensures MacroFree(Expand(b, s))
    decreases Size(s)
  {
    match s
    case If(_, t) => ExpandIsMacroFree(b, t);
    case IfElse(_, t, e) => ExpandIsMacroFree(b, t); ExpandIsMacroFree(b, e);
    case While(_, body) => ExpandIsMacroFree(b, body);
    case DoOnce(body) => ExpandIsMacroFree(b, body);
    case Block(items) => ExpandItemsAreMacroFree(b, items);
    case Use(line, m) =>
      if ActionOf(m).Some? { ExpandIsMacroFree(b, ActionOf(m).value); }
      FormIsMacroFree(b, line, m, if ActionOf(m).Some? then Act(Expand(b, ActionOf(m).value)) else End);
    case _ =>
  }

  lemma {:induction false} ExpandItemsAreMacroFree(b: Build, items: Items)
    ensures MacroFreeItems(ExpandItems(b, items))
    decreases ItemsSize(items)
  {
    match items
    case End =>
    case Then(s, rest) => ExpandIsMacroFree(b, s); ExpandItemsAreMacroFree(b, rest);
    case Local(_, _, rest) => ExpandItemsAreMacroFree(b, rest);
    case Labelled(_, rest) => ExpandItemsAreMacroFree(b, rest);
  }

  lemma FormIsMacroFree(b: Build, line: nat, m: Macro, act: Items)
    requires MacroFreeItems(act)
    ensures MacroFree(if b == Production then ProductionForm(line, m, act) else DebugForm(line, m, act))
  {
    var d, a := Describe(m), if ActionOf(m).Some? then Some(act) else None;
    FormsHaveShape(b, line, m, act);
    hide Describe, ProductionForm, DebugForm, ActionOf;
    var tail, items := Tail(d.target, a), FailureItems(b, line, d, a);
    assert MacroFree(Block(act)) && MacroFreeItems(End);
    assert d.target.Some? ==> MacroFreeItems(One(Goto(d.target.value)));
    assert MacroFreeItems(tail) && MacroFreeItems(Then(Null, tail)) && MacroFreeItems(items);
    assert MacroFree(Block(items)) && MacroFree(Do0(End));
    if !d.arg.Nothing? {
      var c := if d.arg.ErrorCode? && b == Debug && !d.quiet then UnlikelyError(Var(EVAL_ONCE)) else Condition(b, d, a);
      assert MacroFree(Guard(c, items)) && MacroFreeItems(One(Guard(c, items)));
      assert MacroFreeItems(Local(EVAL_ONCE, d.arg.e, One(Guard(c, items))));
    }
  }

  /** What is left no longer depends on the build. */
  lemma {:induction false} BuildIsSettled(m: Machine, s: Stmt, w: World)
    requires MacroFree(s)
    ensures Exec(m, Production, s, w) == Exec(m, Debug, s, w)
    decreases w.fuel, Size(s), 2
  {
    match s
    case If(c, t) => BuildIsSettled(m, t, Eval(m, c, w).w);
    case IfElse(c, t, e) =>
      BuildIsSettled(m, t, Eval(m, c, w).w);
      BuildIsSettled(m, e, Eval(m, c, w).w);
    case While(c, body) =>
      var r := Eval(m, c, w);
      if r.v != 0 && w.fuel > 0 {
        var w1 := r.w.(fuel := w.fuel - 1);
        BuildIsSettled(m, body, w1);
        BuildIsSettled(m, s, Exec(m, Production, body, w1).w);
      }
    case DoOnce(body) => BuildIsSettled(m, body, w);
    case Block(items) => FromIsSettled(m, items, items, w);
    case _ =>
  }

  lemma {:induction false} PassIsSettled(m: Machine, items: Items, w: World)
    requires MacroFreeItems(items)
    ensures ExecItems(m, Production, items, w) == ExecItems(m, Debug, items, w)
    decreases w.fuel, ItemsSize(items), 0
  {
    match items
    case End =>
    case Then(s, rest) =>
      BuildIsSettled(m, s, w);
      PassIsSettled(m, rest, Exec(m, Production, s, w).w);
    case Local(x, e, rest) =>
      var r := Eval(m, e, Rebind(w, x, None));
      FromIsSettled(m, rest, rest, Rebind(r.w, x, Some(ToLong(m, r.v))));
    case Labelled(_, rest) => PassIsSettled(m, rest, w);
  }

  lemma {:induction false} FromIsSettled(m: Machine, all: Items, cur: Items, w: World)
    requires MacroFreeItems(all) && MacroFreeItems(cur)
    ensures ExecFrom(m, Production, all, cur, w) == ExecFrom(m, Debug, all, cur, w)
    decreases w.fuel, ItemsSize(cur), 1
  {
    PassIsSettled(m, cur, w);
    var r := ExecItems(m, Production, cur, w);
    if r.out.Jump? && HasLabel(all, r.out.target) && r.w.fuel > 0 {
      MacroFreeFrom(all, r.out.target);
      FromIsSettled(m, all, From(all, r.out.target), r.w.(fuel := r.w.fuel - 1));
    }
  }

  lemma {:induction false} MacroFreeFrom(items: Items, l: Label)
    requires HasLabel(items, l) && MacroFreeItems(items)
    ensures MacroFreeItems(From(items, l))
  {
    match items
    case Then(_, rest) => MacroFreeFrom(rest, l);
    case Local(_, _, _) =>
    case Labelled(k, rest) => if k != l { MacroFreeFrom(rest, l); }
  }

  // ---------------------------------------------------------------- runs that spring no trap

  /** The message, if it is read at all, leaves the program where it was. */
  predicate MessageNeutral(traced: bool, m: Machine, d: Spec, w: World)
  {
    d.quiet || Same(traced, w, EvalMessage(m, d.message, w).1)
  }

  predicate Escaped(out: Outcome) { out == Broke || out == Continued }

  /** One use: a check's argument leaves the program where it was; so does a
      message; an error code that decides control flow is not lost in the
      conversion to long. */
  predicate CleanUse(traced: bool, m: Machine, macro: Macro, w: World)
  {
    var d := Describe(macro);
    var p, q := EvalArgument(m, Production, d, w), EvalArgument(m, Debug, d, w);
    && (d.debugOnly ==> Same(traced, w, q.w))
    && (Fails(d, q.v) ==> MessageNeutral(traced, m, d, q.w))
    && (!d.debugOnly && (d.target.Some? || ActionOf(macro).Some?) ==> (Fails(d, p.v) <==> Fails(d, q.v)))
  }

  /** The production run of `s` from `w` meets only clean uses, and no break or
      continue leaves the action of a verify on an error code. */
  predicate Clean(traced: bool, m: Machine, s: Stmt, w: World)
    decreases w.fuel, Size(s), 2
  {
    match s
    case If(c, t) => var r := Eval(m, c, w); r.v != 0 ==> Clean(traced, m, t, r.w)
    case IfElse(c, t, e) =>
      var r := Eval(m, c, w);
      if r.v != 0 then Clean(traced, m, t, r.w) else Clean(traced, m, e, r.w)
    case While(c, body) =>
      var r := Eval(m, c, w);
      r.v != 0 && w.fuel > 0 ==>
        var w1 := r.w.(fuel := w.fuel - 1);
        var q := Exec(m, Production, body, w1);
        Clean(traced, m, body, w1) && (q.out == Normal || q.out == Continued ==> Clean(traced, m, s, q.w))
    case DoOnce(body) => Clean(traced, m, body, w)
    case Block(items) => CleanFrom(traced, m, items, items, w)
    case Use(_, macro) =>
      var d, a := Describe(macro), ActionOf(macro);
      var r := EvalArgument(m, Production, d, w);
      && CleanUse(traced, m, macro, w)
      && (a.Some? && Fails(d, r.v) ==>
            && Clean(traced, m, a.value, r.w)
            && (Captures(Debug, d) && !Captures(Production, d) ==> !Escaped(Exec(m, Production, a.value, r.w).out)))
    case _ => true
  }

  predicate CleanItems(traced: bool, m: Machine, items: Items, w: World)
    decreases w.fuel, ItemsSize(items), 0
  {
    match items
    case End => true
    case Then(s, rest) =>
      var r := Exec(m, Production, s, w);
      Clean(traced, m, s, w) && (r.out == Normal ==> CleanItems(traced, m, rest, r.w))
    case Local(x, e, rest) =>
      var r := Eval(m, e, Rebind(w, x, None));
      CleanFrom(traced, m, rest, rest, Rebind(r.w, x, Some(ToLong(m, r.v))))
    case Labelled(_, rest) => CleanItems(traced, m, rest, w)
  }

  predicate CleanFrom(traced: bool, m: Machine, all: Items, cur: Items, w: World)
    decreases w.fuel, ItemsSize(cur), 1
  {
    var r := ExecItems(m, Production, cur, w);
    && CleanItems(traced, m, cur, w)
    && (r.out.Jump? && HasLabel(all, r.out.target) && r.w.fuel > 0 ==>
          CleanFrom(traced, m, all, From(all, r.out.target), r.w.(fuel := r.w.fuel - 1)))
  }

  // ---------------------------------------------------------------- messages change nothing

  lemma {:induction false} EvalSame(traced: bool, m: Machine, e: Expr, w: World, w': World)
    requires Same(traced, w, w')
    ensures Eval(m, e, w).v == Eval(m, e, w').v && Same(traced, Eval(m, e, w).w, Eval(m, e, w').w)
  {
    match e
    case Lit(_) =>
    case Var(_) =>
    case Assign(_, a) => EvalSame(traced, m, a, w, w');
    case Call(f, a) =>
      EvalSame(traced, m, a, w, w');
      var r, r' := Eval(m, a, w), Eval(m, a, w');
      CallsSnoc(r.w.log, Called(f, r.v));
      CallsSnoc(r'.w.log, Called(f, r'.v));
    case Not(a) => EvalSame(traced, m, a, w, w');
    case NonZero(a) => EvalSame(traced, m, a, w, w');
    case Expect(a) => EvalSame(traced, m, a, w, w');
    case And(a, b) =>
      EvalSame(traced, m, a, w, w');
      EvalSame(traced, m, b, Eval(m, a, w).w, Eval(m, a, w').w);
    case Comma(a, b) =>
      EvalSame(traced, m, a, w, w');
      EvalSame(traced, m, b, Eval(m, a, w).w, Eval(m, a, w').w);
  }

  lemma MessageSame(traced: bool, m: Machine, message: Option<Expr>, w: World, w': World)
    requires Same(traced, w, w')
    ensures Same(traced, EvalMessage(m, message, w).1, EvalMessage(m, message, w').1)
  {
    if message.Some? {
      var first := ComparedToNull(message.value);
      EvalSame(traced, m, first, w, w');
      EvalSame(traced, m, message.value, Eval(m, first, w).w, Eval(m, first, w').w);
    }
  }

  lemma ArgumentSame(traced: bool, m: Machine, b: Build, d: Spec, w: World, w': World)
    requires Same(traced, w, w')
    ensures EvalArgument(m, b, d, w).v == EvalArgument(m, b, d, w').v
    ensures Same(traced, EvalArgument(m, b, d, w).w, EvalArgument(m, b, d, w').w)
  {
    match d.arg
    case Nothing =>
    case Assertion(e) => EvalSame(traced, m, e, w, w');
    case ErrorCode(e) => EvalSame(traced, m, e, w, w');
  }

  /** A debug report leaves the program where reading its message left it. */
  lemma EmitSame(traced: bool, m: Machine, text: Text, about: Option<Label>, message: Option<Expr>, line: nat, code: int, w: World)
    ensures Same(traced, EvalMessage(m, message, w).1, Emit(m, text, about, message, line, code, w))
  {
    var (v, w1) := EvalMessage(m, message, w);
    CallsSnoc(w1.log, Message(text, about, v, line, code));
  }

  lemma ReportedWorld(traced: bool, m: Machine, line: nat, d: Spec, r: Value)
    ensures Same(traced, if d.quiet then r.w else EvalMessage(m, d.message, r.w).1, Reported(m, Debug, line, d, r))
  {
    match d.arg
    case Nothing => EmitSame(traced, m, NoText, d.target, d.message, line, 0, r.w);
    case Assertion(e) => EmitSame(traced, m, Asserted(e), d.target, d.message, line, 0, r.w);
    case ErrorCode(e) => EmitSame(traced, m, ComparedToZero(e), d.target, d.message, line, r.v, r.w);
  }

  /** So one whose message is neutral is invisible to the program. */
  lemma ReportedSame(traced: bool, m: Machine, line: nat, d: Spec, r: Value, r': Value)
    requires Same(traced, r.w, r'.w) && MessageNeutral(traced, m, d, r.w)
    ensures Same(traced, r.w, Reported(m, Debug, line, d, r'))
  {
    MessageSame(traced, m, d.message, r.w, r'.w);
    ReportedWorld(traced, m, line, d, r');
    hide Calls, Reported, EvalMessage;
  }

  // ---------------------------------------------------------------- agreement

  /** One use, given agreement on its action. */
  lemma UseAgrees(traced: bool, m: Machine, line: nat, macro: Macro, w: World, w': World)
    requires Same(traced, w, w') && Clean(traced, m, Use(line, macro), w)
    requires var d, a := Describe(macro), ActionOf(macro);
      var p, q := EvalArgument(m, Production, d, w), EvalArgument(m, Debug, d, w');
      a.Some? && Fails(d, p.v) && Fails(d, q.v) ==>
        Agree(traced, Exec(m, Production, a.value, p.w),
              Exec(m, Debug, a.value, Reported(m, Debug, line, d, q)))
    ensures Agree(traced, Exec(m, Production, Use(line, macro), w), Exec(m, Debug, Use(line, macro), w'))
  {
    var d, a := Describe(macro), ActionOf(macro);
    assert d.debugOnly ==> a.None? && d.target.None?;
    var p, q := EvalArgument(m, Production, d, w), EvalArgument(m, Debug, d, w');
    ArgumentSame(traced, m, Debug, d, w, w');
    hide Describe, ActionOf, Eval, EvalMessage, Calls;
    assert CleanUse(traced, m, macro, w);
    assert EvalArgument(m, Debug, d, w).w == p.w;
    if Fails(d, q.v) {
      ReportedSame(traced, m, line, d, EvalArgument(m, Debug, d, w), q);
    }
  }

  lemma {:induction false} BuildsAgree(traced: bool, m: Machine, s: Stmt, w: World, w': World)
    requires Same(traced, w, w') && Clean(traced, m, s, w)
    ensures Agree(traced, Exec(m, Production, s, w), Exec(m, Debug, s, w'))
    decreases w.fuel, Size(s), 2
  {
    hide Eval, EvalMessage, Calls, ExecItems;
    match s
    case Null =>
    case Do(e) => EvalSame(traced, m, e, w, w');
    case If(c, t) =>
      EvalSame(traced, m, c, w, w');
      if Eval(m, c, w).v != 0 { BuildsAgree(traced, m, t, Eval(m, c, w).w, Eval(m, c, w').w); }
    case IfElse(c, t, e) =>
      EvalSame(traced, m, c, w, w');
      var r, r' := Eval(m, c, w), Eval(m, c, w');
      if r.v != 0 { BuildsAgree(traced, m, t, r.w, r'.w); } else { BuildsAgree(traced, m, e, r.w, r'.w); }
    case While(_, _) => WhileAgrees(traced, m, s, w, w');
    case DoOnce(body) => BuildsAgree(traced, m, body, w, w');
    case Block(items) => FromAgrees(traced, m, items, items, w, w');
    case Break =>
    case Continue =>
    case Goto(_) =>
    case Report(text, about, message, line, code) =>
      MessageSame(traced, m, message, w, w');
      EmitSame(traced, m, text, about, message, line, Eval(m, code, w).v, w);
      EmitSame(traced, m, text, about, message, line, Eval(m, code, w').v, w');
    case Use(line, macro) =>
      var d, a := Describe(macro), ActionOf(macro);
      var p, q := EvalArgument(m, Production, d, w), EvalArgument(m, Debug, d, w');
      if a.Some? && Fails(d, p.v) && Fails(d, q.v) {
        ArgumentSame(traced, m, Debug, d, w, w');
        assert CleanUse(traced, m, macro, w);
        ReportedSame(traced, m, line, d, EvalArgument(m, Debug, d, w), q);
        assert EvalArgument(m, Debug, d, w).w == p.w;
        BuildsAgree(traced, m, a.value, p.w, Reported(m, Debug, line, d, q));
      }
      UseAgrees(traced, m, line, macro, w, w');
  }

  lemma {:induction false} WhileAgrees(traced: bool, m: Machine, s: Stmt, w: World, w': World)
    requires s.While? && Same(traced, w, w') && Clean(traced, m, s, w)
    ensures Agree(traced, Exec(m, Production, s, w), Exec(m, Debug, s, w'))
    decreases w.fuel, Size(s), 1
  {
    hide Eval, ExecItems, ExecFrom, Calls;
    EvalSame(traced, m, s.c, w, w');
    var r, r' := Eval(m, s.c, w), Eval(m, s.c, w');
    if r.v != 0 && w.fuel > 0 {
      var v, v' := r.w.(fuel := w.fuel - 1), r'.w.(fuel := w'.fuel - 1);
      BuildsAgree(traced, m, s.body, v, v');
      var q := Exec(m, Production, s.body, v);
      if q.out == Normal || q.out == Continued {
        BuildsAgree(traced, m, s, q.w, Exec(m, Debug, s.body, v').w);
      }
    }
  }

  lemma {:induction false} ItemsAgree(traced: bool, m: Machine, items: Items, w: World, w': World)
    requires Same(traced, w, w') && CleanItems(traced, m, items, w)
    ensures Agree(traced, ExecItems(m, Production, items, w), ExecItems(m, Debug, items, w'))
    decreases w.fuel, ItemsSize(items), 0
  {
    hide Exec, ExecFrom, Calls;
    match items
    case End =>
    case Then(s, rest) =>
      BuildsAgree(traced, m, s, w, w');
      var r := Exec(m, Production, s, w);
      if r.out == Normal { ItemsAgree(traced, m, rest, r.w, Exec(m, Debug, s, w').w); }
    case Local(x, e, rest) =>
      EvalSame(traced, m, e, Rebind(w, x, None), Rebind(w', x, None));
      var r, r' := Eval(m, e, Rebind(w, x, None)), Eval(m, e, Rebind(w', x, None));
      FromAgrees(traced, m, rest, rest, Rebind(r.w, x, Some(ToLong(m, r.v))), Rebind(r'.w, x, Some(ToLong(m, r'.v))));
    case Labelled(_, rest) => ItemsAgree(traced, m, rest, w, w');
  }

  lemma {:induction false} FromAgrees(traced: bool, m: Machine, all: Items, cur: Items, w: World, w': World)
    requires Same(traced, w, w') && CleanFrom(traced, m, all, cur, w)
    ensures Agree(traced, ExecFrom(m, Production, all, cur, w), ExecFrom(m, Debug, all, cur, w'))
    decreases w.fuel, ItemsSize(cur), 1
  {
    hide Exec, ExecItems, CleanItems, Calls;
    ItemsAgree(traced, m, cur, w, w');
    var r, r' := ExecItems(m, Production, cur, w), ExecItems(m, Debug, cur, w');
    if r.out.Jump? && HasLabel(all, r.out.target) && r.w.fuel > 0 {
      FromAgrees(traced, m, all, From(all, r.out.target),
                 r.w.(fuel := r.w.fuel - 1), r'.w.(fuel := r'.w.fuel - 1));
    }
  }

  /** Build equivalence: for every program that leaves the local's name alone
      and whose production run springs no trap, the two expansions, run as the
      plain macro-free programs they are, end with the same variables and the
      same outcome, however macros are nested in actions. If moreover no check or
      message calls a client function (`traced`), they make the same calls with
      the same arguments in the same order: without messages the logs are equal. */
  lemma BuildEquivalence(traced: bool, m: Machine, s: Stmt, w: World)
    requires Hygienic(s) && Clean(traced, m, s, w)
    ensures forall b, b' :: Agree(traced, Exec(m, b, Expand(Production, s), w), Exec(m, b', Expand(Debug, s), w))
  {
    ExpandCorrect(m, Production, s, w);
    ExpandCorrect(m, Debug, s, w);
    BuildsAgree(traced, m, s, w, w);
    ExpandIsMacroFree(Production, s);
    ExpandIsMacroFree(Debug, s);
    BuildIsSettled(m, Expand(Production, s), w);
    BuildIsSettled(m, Expand(Debug, s), w);
    hide Exec, Expand, MacroFree, Clean, Hygienic;
    forall b, b'
      ensures Agree(traced, Exec(m, b, Expand(Production, s), w), Exec(m, b', Expand(Debug, s), w))
    {
      assert (b == Production || b == Debug) && (b' == Production || b' == Debug);
    }
  }
}
