/** The fragment of C that the assertion macros are used in and expand into:
    expressions with side effects, the statements that matter for control flow,
    and the macro uses themselves. A client program may contain macro uses; an
    expanded program contains none. */
module CSyntax {
  import opened Wrappers

  type Name = string
  type Label = string

  /** The local that several debug expansions declare. */
  const EVAL_ONCE: Name := "evalOnceErrorCode"

  datatype Expr =
    | Lit(n: int)
    | Var(x: Name)
    | Assign(x: Name, e: Expr)
    | Call(f: nat, e: Expr)          // a client function, observable when called
    | Not(e: Expr)                   // !(e)
    | NonZero(e: Expr)               // 0 != (e)
    | Expect(e: Expr)                // __builtin_expect(e, 0)
    | And(left: Expr, right: Expr)
    | Comma(left: Expr, right: Expr)

  /** The text a debug message shows: the macro argument as written. */
  datatype Text = NoText | Asserted(e: Expr) | ComparedToZero(e: Expr)

  datatype Stmt =
    | Null                                       // ;
    | Do(e: Expr)
    | If(c: Expr, thn: Stmt)
    | IfElse(c: Expr, thn: Stmt, els: Stmt)
    | While(c: Expr, body: Stmt)
    | DoOnce(body: Stmt)                         // do body while (0);
    | Block(items: Items)
    | Break
    | Continue
    | Goto(target: Label)
    | Report(text: Text, about: Option<Label>, message: Option<Expr>, line: nat, code: Expr)
    | Use(line: nat, macro: Macro)

  /** What stands between braces. A local is in scope up to the closing brace. */
  datatype Items =
    | End
    | Then(s: Stmt, rest: Items)
    | Local(x: Name, e: Expr, rest: Items)       // long x = (e);
    | Labelled(mark: Label, rest: Items)

  /** A use of each macro of the header. `n` marks the __n... wrapper of the
      macro, which negates its assertion. */
  datatype Macro =
    | DebugString(message: Expr)
    | Check(n: bool, a: Expr)
    | CheckString(n: bool, a: Expr, message: Expr)
    | CheckNoErr(e: Expr)
    | CheckNoErrString(e: Expr, message: Expr)
    | Verify(n: bool, a: Expr)
    | VerifyString(n: bool, a: Expr, message: Expr)
    | VerifyNoErr(e: Expr)
    | VerifyNoErrString(e: Expr, message: Expr)
    | VerifyNoErrAction(e: Expr, action: Stmt)
    | VerifyAction(a: Expr, action: Stmt)
    | Require(n: bool, a: Expr, target: Label)
    | RequireAction(n: bool, a: Expr, target: Label, action: Stmt)
    | RequireQuiet(n: bool, a: Expr, target: Label)
    | RequireActionQuiet(n: bool, a: Expr, target: Label, action: Stmt)
    | RequireString(n: bool, a: Expr, target: Label, message: Expr)
    | RequireActionString(n: bool, a: Expr, target: Label, action: Stmt, message: Expr)
    | RequireNoErr(e: Expr, target: Label)
    | RequireNoErrAction(e: Expr, target: Label, action: Stmt)
    | RequireNoErrQuiet(e: Expr, target: Label)
    | RequireNoErrActionQuiet(e: Expr, target: Label, action: Stmt)
    | RequireNoErrString(e: Expr, target: Label, message: Expr)
    | RequireNoErrActionString(e: Expr, target: Label, action: Stmt, message: Expr)

  /** The two ways the header can be included. */
  datatype Build = Production | Debug

  function ActionOf(m: Macro): Option<Stmt>
  {
    match m
    case VerifyNoErrAction(_, a) => Some(a)
    case VerifyAction(_, a) => Some(a)
    case RequireAction(_, _, _, a) => Some(a)
    case RequireActionQuiet(_, _, _, a) => Some(a)
    case RequireActionString(_, _, _, a, _) => Some(a)
    case RequireNoErrAction(_, _, a) => Some(a)
    case RequireNoErrActionQuiet(_, _, a) => Some(a)
    case RequireNoErrActionString(_, _, a, _) => Some(a)
    case _ => None
  }

  // ---------------------------------------------------------------- sizes

  function Size(s: Stmt): nat
  {
    match s
    case If(_, t) => 1 + Size(t)
    case IfElse(_, t, e) => 1 + Size(t) + Size(e)
    case While(_, b) => 1 + Size(b)
    case DoOnce(b) => 1 + Size(b)
    case Block(items) => 1 + ItemsSize(items)
    case Use(_, m) => if ActionOf(m).Some? then 1 + Size(ActionOf(m).value) else 1
    case _ => 1
  }

  function ItemsSize(items: Items): nat
  {
    match items
    case End => 0
    case Then(s, rest) => 1 + Size(s) + ItemsSize(rest)
    case Local(_, _, rest) => 1 + ItemsSize(rest)
    case Labelled(_, rest) => 1 + ItemsSize(rest)
  }

  // ---------------------------------------------------------------- labels

  /** A label a goto can reach from anywhere in this list of items. */
  predicate HasLabel(items: Items, l: Label)
  {
    match items
    case End => false
    case Then(_, rest) => HasLabel(rest, l)
    case Local(_, _, rest) => HasLabel(rest, l)
    case Labelled(k, rest) => k == l || HasLabel(rest, l)
  }

  /** The items from the label on. A jump past a declaration enters the scope of
      the local with no value set, and goes on to the label there. */
  function From(items: Items, l: Label): Items
    requires HasLabel(items, l)
  {
    match items
    case Then(_, rest) => From(rest, l)
    case Local(x, _, rest) => Local(x, Var(x), Then(Goto(l), rest))
    case Labelled(k, rest) => if k == l then rest else From(rest, l)
  }
}
