/** The header itself: what each macro is replaced by, build by build. The
    semicolon the client writes after the use is part of the statement. */
module AssertMacros {
  import opened Wrappers
  import opened CSyntax
  import opened CSemantics

  function One(s: Stmt): Items { Then(s, End) }

  /** `do { items } while (0);` */
  function Do0(items: Items): Stmt { DoOnce(Block(items)) }

  /** `if ( c ) { items }` */
  function Guard(c: Expr, items: Items): Stmt { If(c, Block(items)) }

  /** `__builtin_expect(!(a), 0)` */
  function Unlikely(a: Expr): Expr { Expect(Not(a)) }

  /** `__builtin_expect(0 != (e), 0)` */
  function UnlikelyError(e: Expr): Expr { Expect(NonZero(e)) }

  /** `long evalOnceErrorCode = (e); if ( 0 != evalOnceErrorCode ) { items }`,
      in a `do { } while (0);` */
  function Once(e: Expr, items: Items): Stmt
  {
    Do0(Local(EVAL_ONCE, e, One(Guard(UnlikelyError(Var(EVAL_ONCE)), items))))
  }

  /** `DEBUG_ASSERT_MESSAGE( ... );` whose default definition brings a
      semicolon of its own. */
  function Tell(line: nat, text: Text, about: Option<Label>, message: Option<Expr>, code: Expr, rest: Items): Items
  {
    Then(Report(text, about, message, line, code), Then(Null, rest))
  }

  function TellAssertion(line: nat, a: Expr, about: Option<Label>, message: Option<Expr>, rest: Items): Items
  {
    Tell(line, Asserted(a), about, message, Lit(0), rest)
  }

  function TellCode(line: nat, e: Expr, about: Option<Label>, message: Option<Expr>, rest: Items): Items
  {
    Tell(line, ComparedToZero(e), about, message, Var(EVAL_ONCE), rest)
  }

  /** `{ action; } goto l;` */
  function ActThenGo(act: Items, l: Label): Items { Then(Block(act), One(Goto(l))) }

  /** `else do {} while (0);` */
  function GuardElse(c: Expr, items: Items): Stmt { IfElse(c, Block(items), Do0(End)) }

  /** DEBUG_ASSERT_PRODUCTION_CODE not zero. `act` is the action with its semicolon. */
  function ProductionForm(line: nat, m: Macro, act: Items): Stmt
  {
    match m
    case DebugString(_) => Null
    case Check(_, _) => Null
    case CheckString(_, _, _) => Null
    case CheckNoErr(_) => Null
    case CheckNoErrString(_, _) => Null
    case Verify(n, a) => Do0(One(Guard(Not(Negate(n, a)), End)))
    case VerifyString(n, a, _) => Do0(One(Guard(Not(Negate(n, a)), End)))
    case VerifyNoErr(e) => Do0(One(Guard(NonZero(e), End)))
    case VerifyNoErrString(e, _) => Do0(One(Guard(NonZero(e), End)))
    case VerifyNoErrAction(e, _) => GuardElse(NonZero(e), act)
    case VerifyAction(a, _) => GuardElse(Unlikely(a), act)
    case Require(n, a, l) => Do0(One(Guard(Unlikely(Negate(n, a)), One(Goto(l)))))
    case RequireAction(n, a, l, _) => Do0(One(Guard(Unlikely(Negate(n, a)), ActThenGo(act, l))))
    case RequireQuiet(n, a, l) => Do0(One(Guard(Unlikely(Negate(n, a)), One(Goto(l)))))
    case RequireActionQuiet(n, a, l, _) => Do0(One(Guard(Unlikely(Negate(n, a)), ActThenGo(act, l))))
    case RequireString(n, a, l, _) => Do0(One(Guard(Unlikely(Negate(n, a)), One(Goto(l)))))
    case RequireActionString(n, a, l, _, _) => Do0(One(Guard(Unlikely(Negate(n, a)), ActThenGo(act, l))))
    case RequireNoErr(e, l) => Do0(One(Guard(UnlikelyError(e), One(Goto(l)))))
    case RequireNoErrAction(e, l, _) => Do0(One(Guard(UnlikelyError(e), ActThenGo(act, l))))
    case RequireNoErrQuiet(e, l) => Do0(One(Guard(UnlikelyError(e), One(Goto(l)))))
    case RequireNoErrActionQuiet(e, l, _) => Do0(One(Guard(UnlikelyError(e), ActThenGo(act, l))))
    case RequireNoErrString(e, l, _) => Do0(One(Guard(UnlikelyError(e), One(Goto(l)))))
    case RequireNoErrActionString(e, l, _, _) => Do0(One(Guard(UnlikelyError(e), ActThenGo(act, l))))
  }

  /** DEBUG_ASSERT_PRODUCTION_CODE zero. */
  function DebugForm(line: nat, m: Macro, act: Items): Stmt
  {
    match m
    case DebugString(s) => Do0(Tell(line, NoText, None, Some(s), Lit(0), End))
    case Check(n, a) => DebugAssertion(line, Negate(n, a), None, None, End)
    case CheckString(n, a, s) => DebugAssertion(line, Negate(n, a), None, Some(s), End)
    case CheckNoErr(e) => Once(e, TellCode(line, e, None, None, End))
    case CheckNoErrString(e, s) => Once(e, TellCode(line, e, None, Some(s), End))
    case Verify(n, a) => DebugAssertion(line, Negate(n, a), None, None, End)
    case VerifyString(n, a, s) => DebugAssertion(line, Negate(n, a), None, Some(s), End)
    case VerifyNoErr(e) => Once(e, TellCode(line, e, None, None, End))
    case VerifyNoErrString(e, s) => Once(e, TellCode(line, e, None, Some(s), End))
    case VerifyNoErrAction(e, _) => Once(e, TellCode(line, e, None, None, act))
    case VerifyAction(a, _) => GuardElse(Unlikely(a), TellAssertion(line, a, None, None, act))
    case Require(n, a, l) => DebugAssertion(line, Negate(n, a), Some(l), None, One(Goto(l)))
    case RequireAction(n, a, l, _) => DebugAssertion(line, Negate(n, a), Some(l), None, ActThenGo(act, l))
    case RequireQuiet(n, a, l) => Do0(One(Guard(Unlikely(Negate(n, a)), One(Goto(l)))))
    case RequireActionQuiet(n, a, l, _) => Do0(One(Guard(Unlikely(Negate(n, a)), ActThenGo(act, l))))
    case RequireString(n, a, l, s) => DebugAssertion(line, Negate(n, a), Some(l), Some(s), One(Goto(l)))
    case RequireActionString(n, a, l, _, s) => DebugAssertion(line, Negate(n, a), Some(l), Some(s), ActThenGo(act, l))
    case RequireNoErr(e, l) => Once(e, TellCode(line, e, Some(l), None, One(Goto(l))))
    case RequireNoErrAction(e, l, _) => Once(e, TellCode(line, e, Some(l), None, ActThenGo(act, l)))
    case RequireNoErrQuiet(e, l) => Do0(One(Guard(UnlikelyError(e), One(Goto(l)))))
    case RequireNoErrActionQuiet(e, l, _) => Do0(One(Guard(UnlikelyError(e), ActThenGo(act, l))))
    case RequireNoErrString(e, l, s) => Once(e, TellCode(line, e, Some(l), Some(s), One(Goto(l))))
    case RequireNoErrActionString(e, l, _, s) => Once(e, TellCode(line, e, Some(l), Some(s), ActThenGo(act, l)))
  }

  /** `do { if ( __builtin_expect(!(a), 0) ) { DEBUG_ASSERT_MESSAGE( ... ); rest } } while (0);` */
  function DebugAssertion(line: nat, a: Expr, about: Option<Label>, message: Option<Expr>, rest: Items): Stmt
  {
    Do0(One(Guard(Unlikely(a), TellAssertion(line, a, about, message, rest))))
  }

  // ---------------------------------------------------------------- expansion

  /** Does the statement's text end in a semicolon? */
  predicate EndsInSemicolon(s: Stmt)
  {
    match s
    case Block(_) => false
    case If(_, t) => EndsInSemicolon(t)
    case IfElse(_, _, e) => EndsInSemicolon(e)
    case While(_, b) => EndsInSemicolon(b)
    case _ => true
  }

  /** `action;` where the action comes without its own final semicolon: after
      an action that ends in a brace the template's semicolon is a statement. */
  function Act(s: Stmt): Items
  {
    if EndsInSemicolon(s) then One(s) else Then(s, One(Null))
  }

  /** Macro replacement throughout a program, actions included. */
  function Expand(b: Build, s: Stmt): Stmt
    decreases Size(s)
  {
    match s
    case If(c, t) => If(c, Expand(b, t))
    case IfElse(c, t, e) => IfElse(c, Expand(b, t), Expand(b, e))
    case While(c, body) => While(c, Expand(b, body))
    case DoOnce(body) => DoOnce(Expand(b, body))
    case Block(items) => Block(ExpandItems(b, items))
    case Use(line, m) =>
      var act := if ActionOf(m).Some? then Act(Expand(b, ActionOf(m).value)) else End;
      if b == Production then ProductionForm(line, m, act) else DebugForm(line, m, act)
    case _ => s
  }

  function ExpandItems(b: Build, items: Items): Items
    decreases ItemsSize(items)
  {
    match items
    case End => End
    case Then(s, rest) => Then(Expand(b, s), ExpandItems(b, rest))
    case Local(x, e, rest) => Local(x, e, ExpandItems(b, rest))
    case Labelled(l, rest) => Labelled(l, ExpandItems(b, rest))
  }
}
