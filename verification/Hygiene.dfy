/** Names: when a statement cannot tell what a variable holds. */
module Hygiene {
  import opened Wrappers
  import opened CSyntax
  import opened CSemantics
  import opened AssertMacros
  import opened MacroShapes

  predicate Names(x: Name, e: Expr)
  {
    match e
    case Lit(_) => false
    case Var(y) => x == y
    case Assign(y, a) => x == y || Names(x, a)
    case Call(_, a) => Names(x, a)
    case Not(a) => Names(x, a)
    case NonZero(a) => Names(x, a)
    case Expect(a) => Names(x, a)
    case And(a, b) => Names(x, a) || Names(x, b)
    case Comma(a, b) => Names(x, a) || Names(x, b)
  }

  predicate NamesIn(x: Name, e: Option<Expr>) { e.Some? && Names(x, e.value) }

  predicate NamedByArgument(x: Name, d: Spec)
  {
    || (d.arg.Assertion? && Names(x, d.arg.e))
    || (d.arg.ErrorCode? && Names(x, d.arg.e))
    || NamesIn(x, d.message)
  }

  /** The statement mentions x outside the scope of a local x. */
  predicate Free(x: Name, s: Stmt)
    decreases Size(s)
  {
    match s
    case Do(e) => Names(x, e)
    case If(c, t) => Names(x, c) || Free(x, t)
    case IfElse(c, t, e) => Names(x, c) || Free(x, t) || Free(x, e)
    case While(c, b) => Names(x, c) || Free(x, b)
    case DoOnce(b) => Free(x, b)
    case Block(items) => FreeItems(x, items)
    case Report(_, _, message, _, code) => NamesIn(x, message) || Names(x, code)
    case Use(_, m) => NamedByArgument(x, Describe(m)) || (ActionOf(m).Some? && Free(x, ActionOf(m).value))
    case _ => false
  }

  predicate FreeItems(x: Name, items: Items)
    decreases ItemsSize(items)
  {
    match items
    case End => false
    case Then(s, rest) => Free(x, s) || FreeItems(x, rest)
    case Local(y, e, rest) => x != y && (Names(x, e) || FreeItems(x, rest))
    case Labelled(_, rest) => FreeItems(x, rest)
  }

  // ---------------------------------------------------------------- rebinding

  lemma RebindTwice(w: World, x: Name, u: Option<int>, v: Option<int>)
    ensures Rebind(Rebind(w, x, u), x, v) == Rebind(w, x, v)
  {
    assert Rebind(Rebind(w, x, u), x, v).vars == Rebind(w, x, v).vars;
  }

  lemma RebindSame(w: World, x: Name)
    ensures Rebind(w, x, Binding(w, x)) == w
  {
    assert Rebind(w, x, Binding(w, x)).vars == w.vars;
  }

  lemma RebindSwap(w: World, x: Name, u: Option<int>, y: Name, v: Option<int>)
    requires x != y
    ensures Rebind(Rebind(w, x, u), y, v) == Rebind(Rebind(w, y, v), x, u)
  {
    assert Rebind(Rebind(w, x, u), y, v).vars == Rebind(Rebind(w, y, v), x, u).vars;
  }

  // ---------------------------------------------------------------- framing

  /** An expression that does not name x computes the same whatever x holds,
      and leaves x alone. */
  lemma {:induction false} EvalFrame(m: Machine, e: Expr, w: World, x: Name, v: Option<int>)
    requires !Names(x, e)
    ensures Eval(m, e, Rebind(w, x, v)) == Value(Eval(m, e, w).v, Rebind(Eval(m, e, w).w, x, v))
  {
    match e
    case Lit(_) =>
    case Var(_) =>
    case Assign(y, a) =>
      EvalFrame(m, a, w, x, v);
      var r := Eval(m, a, w);
      RebindSwap(r.w, x, v, y, Some(r.v));
    case Call(_, a) => EvalFrame(m, a, w, x, v);
    case Not(a) => EvalFrame(m, a, w, x, v);
    case NonZero(a) => EvalFrame(m, a, w, x, v);
    case Expect(a) => EvalFrame(m, a, w, x, v);
    case And(a, b) =>
      EvalFrame(m, a, w, x, v);
      EvalFrame(m, b, Eval(m, a, w).w, x, v);
    case Comma(a, b) =>
      EvalFrame(m, a, w, x, v);
      EvalFrame(m, b, Eval(m, a, w).w, x, v);
  }

  lemma {:induction false} ComparedNames(x: Name, e: Expr)
    ensures Names(x, ComparedToNull(e)) == Names(x, e)
  {
    if e.Assign? { ComparedNames(x, e.e); }
  }

  lemma EmitFrame(m: Machine, text: Text, about: Option<Label>, message: Option<Expr>, line: nat, code: int, w: World, x: Name, v: Option<int>)
    requires !NamesIn(x, message)
    ensures Emit(m, text, about, message, line, code, Rebind(w, x, v))
         == Rebind(Emit(m, text, about, message, line, code, w), x, v)
  {
    if message.Some? {
      var first := ComparedToNull(message.value);
      ComparedNames(x, message.value);
      EvalFrame(m, first, w, x, v);
      EvalFrame(m, message.value, Eval(m, first, w).w, x, v);
    }
  }

  /** The same for a macro's argument and report. */
  lemma ArgumentFrame(m: Machine, b: Build, line: nat, d: Spec, w: World, x: Name, v: Option<int>)
    requires !NamedByArgument(x, d)
    ensures EvalArgument(m, b, d, Rebind(w, x, v))
         == Value(EvalArgument(m, b, d, w).v, Rebind(EvalArgument(m, b, d, w).w, x, v))
    ensures var r := EvalArgument(m, b, d, w);
      Reported(m, b, line, d, Value(r.v, Rebind(r.w, x, v))) == Rebind(Reported(m, b, line, d, r), x, v)
  {
    var r := EvalArgument(m, b, d, w);
    match d.arg
    case Nothing => EmitFrame(m, NoText, d.target, d.message, line, 0, r.w, x, v);
    case Assertion(e) =>
      EvalFrame(m, e, w, x, v);
      EmitFrame(m, Asserted(e), d.target, d.message, line, 0, r.w, x, v);
    case ErrorCode(e) =>
      EvalFrame(m, e, w, x, v);
      EmitFrame(m, ComparedToZero(e), d.target, d.message, line, r.v, r.w, x, v);
  }

  /** A statement in which x is not free runs the same whatever x holds, and
      leaves x alone. */
  lemma {:induction false} ExecFrame(m: Machine, b: Build, s: Stmt, w: World, x: Name, v: Option<int>)
    requires !Free(x, s)
    ensures Exec(m, b, s, Rebind(w, x, v)) == Result(Rebind(Exec(m, b, s, w).w, x, v), Exec(m, b, s, w).out)
    decreases w.fuel, Size(s), 2
  {
    hide Eval, Emit, EvalArgument, Reported, Names, ExecItems, Rebind;
    match s
    case Null =>
    case Do(e) => EvalFrame(m, e, w, x, v);
    case If(c, t) =>
      EvalFrame(m, c, w, x, v);
      ExecFrame(m, b, t, Eval(m, c, w).w, x, v);
    case IfElse(c, t, e) =>
      EvalFrame(m, c, w, x, v);
      ExecFrame(m, b, t, Eval(m, c, w).w, x, v);
      ExecFrame(m, b, e, Eval(m, c, w).w, x, v);
    case While(c, body) => WhileFrame(m, b, s, w, x, v);
    case DoOnce(body) => ExecFrame(m, b, body, w, x, v);
    case Block(items) => FromFrame(m, b, items, items, w, x, v);
    case Break =>
    case Continue =>
    case Goto(_) =>
    case Report(text, about, message, line, code) =>
      EvalFrame(m, code, w, x, v);
      EmitFrame(m, text, about, message, line, Eval(m, code, w).v, w, x, v);
    case Use(line, macro) =>
      var d := Describe(macro);
      if !(b == Production && d.debugOnly) {
        ArgumentFrame(m, b, line, d, w, x, v);
        if ActionOf(macro).Some? {
          ExecFrame(m, b, ActionOf(macro).value, Reported(m, b, line, d, EvalArgument(m, b, d, w)), x, v);
        }
      }
  }

  lemma {:induction false} WhileFrame(m: Machine, b: Build, s: Stmt, w: World, x: Name, v: Option<int>)
    requires s.While? && !Free(x, s)
    ensures Exec(m, b, s, Rebind(w, x, v)) == Result(Rebind(Exec(m, b, s, w).w, x, v), Exec(m, b, s, w).out)
    decreases w.fuel, Size(s), 1
  {
    hide Eval, ExecItems, ExecFrom, Names;
    EvalFrame(m, s.c, w, x, v);
    var r := Eval(m, s.c, w);
    if r.v != 0 && w.fuel > 0 {
      var w1 := r.w.(fuel := w.fuel - 1);
      assert Rebind(r.w, x, v).(fuel := w.fuel - 1) == Rebind(w1, x, v);
      ExecFrame(m, b, s.body, w1, x, v);
      var q := Exec(m, b, s.body, w1);
      if q.out == Normal || q.out == Continued {
        ExecFrame(m, b, s, q.w, x, v);
      }
    }
  }

  lemma {:induction false} ItemsFrame(m: Machine, b: Build, items: Items, w: World, x: Name, v: Option<int>)
    requires !FreeItems(x, items)
    ensures ExecItems(m, b, items, Rebind(w, x, v))
         == Result(Rebind(ExecItems(m, b, items, w).w, x, v), ExecItems(m, b, items, w).out)
    decreases w.fuel, ItemsSize(items), 0
  {
    match items
    case End =>
    case Then(s, rest) =>
      ExecFrame(m, b, s, w, x, v);
      var r := Exec(m, b, s, w);
      if r.out == Normal { ItemsFrame(m, b, rest, r.w, x, v); }
    case Local(y, e, rest) => LocalFrame(m, b, items, w, x, v);
    case Labelled(_, rest) => ItemsFrame(m, b, rest, w, x, v);
  }

  lemma {:induction false} LocalFrame(m: Machine, b: Build, items: Items, w: World, x: Name, v: Option<int>)
    requires items.Local? && !FreeItems(x, items)
    ensures ExecItems(m, b, items, Rebind(w, x, v))
         == Result(Rebind(ExecItems(m, b, items, w).w, x, v), ExecItems(m, b, items, w).out)
    decreases w.fuel, ItemsSize(items), -1
  {
    var y, e, rest := items.x, items.e, items.rest;
    var r := Eval(m, e, Rebind(w, y, None));
    var w1 := Rebind(r.w, y, Some(ToLong(m, r.v)));
    var q := ExecFrom(m, b, rest, rest, w1);
    if x == y {
      RebindTwice(w, x, v, None);
      assert Binding(Rebind(w, x, v), x) == v;
      RebindTwice(q.w, x, Binding(w, x), v);
    } else {
      RebindSwap(w, x, v, y, None);
      EvalFrame(m, e, Rebind(w, y, None), x, v);
      RebindSwap(r.w, x, v, y, Some(ToLong(m, r.v)));
      FromFrame(m, b, rest, rest, w1, x, v);
      assert Binding(Rebind(w, x, v), y) == Binding(w, y);
      RebindSwap(q.w, x, v, y, Binding(w, y));
    }
  }

  lemma {:induction false} FromFrame(m: Machine, b: Build, all: Items, cur: Items, w: World, x: Name, v: Option<int>)
    requires !FreeItems(x, all) && !FreeItems(x, cur)
    ensures ExecFrom(m, b, all, cur, Rebind(w, x, v))
         == Result(Rebind(ExecFrom(m, b, all, cur, w).w, x, v), ExecFrom(m, b, all, cur, w).out)
    decreases w.fuel, ItemsSize(cur), 1
  {
    hide Exec, ExecItems, Free, FreeItems, ItemsSize;
    ItemsFrame(m, b, cur, w, x, v);
    var r := ExecItems(m, b, cur, w);
    if r.out.Jump? && HasLabel(all, r.out.target) && r.w.fuel > 0 {
      var w1 := r.w.(fuel := r.w.fuel - 1);
      assert Rebind(r.w, x, v).(fuel := r.w.fuel - 1) == Rebind(w1, x, v);
      FreeFrom(x, all, r.out.target);
      FromFrame(m, b, all, From(all, r.out.target), w1, x, v);
    }
  }

  lemma {:induction false} FreeFrom(x: Name, items: Items, l: Label)
    requires HasLabel(items, l) && !FreeItems(x, items)
    ensures !FreeItems(x, From(items, l))
  {
    match items
    case Then(_, rest) => FreeFrom(x, rest, l);
    case Local(_, _, rest) =>
      assert !Free(x, Goto(l));
      assert FreeItems(x, Then(Goto(l), rest)) == FreeItems(x, rest);
    case Labelled(k, rest) => if k != l { FreeFrom(x, rest, l); }
  }

  /** Expansion makes nothing free: the debug forms keep their local to themselves. */
  lemma {:induction false} ExpandFree(b: Build, s: Stmt)
    requires !Free(EVAL_ONCE, s)
    ensures !Free(EVAL_ONCE, Expand(b, s))
    decreases Size(s)
  {
    match s
    case If(_, t) => ExpandFree(b, t);
    case IfElse(_, t, e) => ExpandFree(b, t); ExpandFree(b, e);
    case While(_, body) => ExpandFree(b, body);
    case DoOnce(body) => ExpandFree(b, body);
    case Block(items) => ExpandFreeItems(b, items);
    case Use(line, m) =>
      if ActionOf(m).Some? { ExpandFree(b, ActionOf(m).value); }
      FormFree(b, line, m, if ActionOf(m).Some? then Act(Expand(b, ActionOf(m).value)) else End);
    case _ =>
  }

  lemma TailFree(x: Name, target: Option<Label>, act: Option<Items>)
    requires act.Some? ==> !FreeItems(x, act.value)
    ensures !FreeItems(x, Tail(target, act))
  {
    if target.Some? {
      var go := One(Goto(target.value));
      assert !FreeItems(x, End) && !FreeItems(x, go);
      if act.Some? {
        assert !Free(x, Block(act.value));
      }
    }
  }

  lemma FailureFree(x: Name, b: Build, line: nat, d: Spec, act: Option<Items>)
    requires !NamedByArgument(x, d) && (act.Some? ==> !FreeItems(x, act.value))
    requires d.arg.ErrorCode? ==> b == Production || d.quiet
    ensures !FreeItems(x, FailureItems(b, line, d, act))
  {
    var tail := Tail(d.target, act);
    TailFree(x, d.target, act);
    hide Tail;
    assert !FreeItems(x, Then(Null, tail));
  }

  lemma FormFree(b: Build, line: nat, m: Macro, act: Items)
    requires !NamedByArgument(EVAL_ONCE, Describe(m)) && !FreeItems(EVAL_ONCE, act)
    ensures !Free(EVAL_ONCE, if b == Production then ProductionForm(line, m, act) else DebugForm(line, m, act))
  {
    var d, a := Describe(m), if ActionOf(m).Some? then Some(act) else None;
    FormsHaveShape(b, line, m, act);
    hide Describe, ProductionForm, DebugForm, ActionOf;
    TailFree(EVAL_ONCE, d.target, a);
    var items := FailureItems(b, line, d, a);
    if d.arg.ErrorCode? && b == Debug && !d.quiet {
      assert !FreeItems(EVAL_ONCE, Local(EVAL_ONCE, d.arg.e, One(Guard(UnlikelyError(Var(EVAL_ONCE)), items))));
    } else {
      FailureFree(EVAL_ONCE, b, line, d, a);
      assert !Free(EVAL_ONCE, Block(items));
      if !d.arg.Nothing? {
        var c := Condition(b, d, a);
        assert !Names(EVAL_ONCE, c);
        assert !Free(EVAL_ONCE, Guard(c, items)) && !FreeItems(EVAL_ONCE, One(Guard(c, items)));
        assert !Free(EVAL_ONCE, Block(One(Guard(c, items))));
        assert !Free(EVAL_ONCE, Do0(End));
      }
    }
  }

  lemma {:induction false} ExpandFreeItems(b: Build, items: Items)
    requires !FreeItems(EVAL_ONCE, items)
    ensures !FreeItems(EVAL_ONCE, ExpandItems(b, items))
    decreases ItemsSize(items)
  {
    match items
    case End =>
    case Then(s, rest) => ExpandFree(b, s); ExpandFreeItems(b, rest);
    case Local(x, _, rest) => if x != EVAL_ONCE { ExpandFreeItems(b, rest); }
    case Labelled(_, rest) => ExpandFreeItems(b, rest);
  }
}
