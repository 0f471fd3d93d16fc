/** What programs do. Macro uses are run directly, by the rule the header
    documents for all of them: evaluate the argument once; if it fails, report
    it (debug builds, unless quiet), run the action, go to the label. */
module CSemantics {
  import opened Wrappers
  import opened CSyntax

  datatype MachineData = MachineData(
    span: int,                       // number of values of type long
    junk: int,                       // what reading an unset variable gives
    ext: (nat, int) -> int)          // what client functions return

  type Machine = m: MachineData | 0x1_0000_0000 <= m.span && m.span % 2 == 0
    witness MachineData(0x1_0000_0000, 0, (f, v) => 0)

  /** Conversion to long: the value modulo the number of longs. */
  function ToLong(m: Machine, v: int): int
  {
    var r := v % m.span;
    if r < m.span / 2 then r else r - m.span
  }

  datatype Event =
    | Called(f: nat, arg: int)
    | Message(text: Text, about: Option<Label>, message: Option<int>, line: nat, code: int)

  /** Variables, everything observable so far, and the loop rounds and jumps
      still allowed. Statements about all programs hold for every allowance. */
  datatype World = World(vars: map<Name, int>, log: seq<Event>, fuel: nat)

  datatype Value = Value(v: int, w: World)

  datatype Outcome = Normal | Broke | Continued | Jump(target: Label) | Timeout

  datatype Result = Result(w: World, out: Outcome)

  function Bool(b: bool): int { if b then 1 else 0 }

  function Eval(m: Machine, e: Expr, w: World): (r: Value)
    ensures r.w.fuel == w.fuel
  {
    match e
    case Lit(n) => Value(n, w)
    case Var(x) => Value(if x in w.vars then w.vars[x] else m.junk, w)
    case Assign(x, a) =>
      var r := Eval(m, a, w);
      Value(r.v, r.w.(vars := r.w.vars[x := r.v]))
    case Call(f, a) =>
      var r := Eval(m, a, w);
      Value(m.ext(f, r.v), r.w.(log := r.w.log + [Called(f, r.v)]))
    case Not(a) => var r := Eval(m, a, w); Value(Bool(r.v == 0), r.w)
    case NonZero(a) => var r := Eval(m, a, w); Value(Bool(r.v != 0), r.w)
    case Expect(a) => var r := Eval(m, a, w); Value(ToLong(m, r.v), r.w)
    case And(a, b) =>
      var r := Eval(m, a, w);
      if r.v == 0 then Value(0, r.w) else var q := Eval(m, b, r.w); Value(Bool(q.v != 0), q.w)
    case Comma(a, b) => var r := Eval(m, a, w); Eval(m, b, r.w)
  }

  /** `message!=0` as the header has it, with no parentheses around the message:
      in an assignment it is the assigned value that is compared. */
  function ComparedToNull(e: Expr): Expr
  {
    match e
    case Assign(x, a) => Assign(x, ComparedToNull(a))
    case _ => NonZero(e)
  }

  /** The default message routine compares its message argument, and reads it
      again to print it if it is not null. */
  function EvalMessage(m: Machine, message: Option<Expr>, w: World): (r: (Option<int>, World))
    ensures r.1.fuel == w.fuel
  {
    match message
    case None => (None, w)
    case Some(e) =>
      var r := Eval(m, ComparedToNull(e), w);
      if r.v == 0 then (Some(0), r.w) else var q := Eval(m, e, r.w); (Some(q.v), q.w)
  }

  function Emit(m: Machine, text: Text, about: Option<Label>, message: Option<Expr>, line: nat, code: int, w: World): (r: World)
    ensures r.fuel == w.fuel
  {
    var (v, w1) := EvalMessage(m, message, w);
    w1.(log := w1.log + [Message(text, about, v, line, code)])
  }

  // ---------------------------------------------------------------- the documented macros

  datatype Argument = Nothing | Assertion(e: Expr) | ErrorCode(e: Expr)

  /** A macro by its family and suffixes. */
  datatype Spec = Spec(
    debugOnly: bool,          // the check family: not even evaluated in production
    arg: Argument,
    message: Option<Expr>,
    target: Option<Label>,    // the require family
    quiet: bool)

  function Negate(n: bool, a: Expr): Expr { if n then Not(a) else a }

  function Describe(m: Macro): Spec
  {
    match m
    case DebugString(s) => Spec(true, Nothing, Some(s), None, false)
    case Check(n, a) => Spec(true, Assertion(Negate(n, a)), None, None, false)
    case CheckString(n, a, s) => Spec(true, Assertion(Negate(n, a)), Some(s), None, false)
    case CheckNoErr(e) => Spec(true, ErrorCode(e), None, None, false)
    case CheckNoErrString(e, s) => Spec(true, ErrorCode(e), Some(s), None, false)
    case Verify(n, a) => Spec(false, Assertion(Negate(n, a)), None, None, false)
    case VerifyString(n, a, s) => Spec(false, Assertion(Negate(n, a)), Some(s), None, false)
    case VerifyNoErr(e) => Spec(false, ErrorCode(e), None, None, false)
    case VerifyNoErrString(e, s) => Spec(false, ErrorCode(e), Some(s), None, false)
    case VerifyNoErrAction(e, _) => Spec(false, ErrorCode(e), None, None, false)
    case VerifyAction(a, _) => Spec(false, Assertion(a), None, None, false)
    case Require(n, a, l) => Spec(false, Assertion(Negate(n, a)), None, Some(l), false)
    case RequireAction(n, a, l, _) => Spec(false, Assertion(Negate(n, a)), None, Some(l), false)
    case RequireQuiet(n, a, l) => Spec(false, Assertion(Negate(n, a)), None, Some(l), true)
    case RequireActionQuiet(n, a, l, _) => Spec(false, Assertion(Negate(n, a)), None, Some(l), true)
    case RequireString(n, a, l, s) => Spec(false, Assertion(Negate(n, a)), Some(s), Some(l), false)
    case RequireActionString(n, a, l, _, s) => Spec(false, Assertion(Negate(n, a)), Some(s), Some(l), false)
    case RequireNoErr(e, l) => Spec(false, ErrorCode(e), None, Some(l), false)
    case RequireNoErrAction(e, l, _) => Spec(false, ErrorCode(e), None, Some(l), false)
    case RequireNoErrQuiet(e, l) => Spec(false, ErrorCode(e), None, Some(l), true)
    case RequireNoErrActionQuiet(e, l, _) => Spec(false, ErrorCode(e), None, Some(l), true)
    case RequireNoErrString(e, l, s) => Spec(false, ErrorCode(e), Some(s), Some(l), false)
    case RequireNoErrActionString(e, l, _, s) => Spec(false, ErrorCode(e), Some(s), Some(l), false)
  }

  /** The one evaluation of the argument. The debug forms that report an error
      code keep it in a long. */
  function EvalArgument(m: Machine, b: Build, d: Spec, w: World): (r: Value)
    ensures r.w.fuel == w.fuel
  {
    match d.arg
    case Nothing => Value(0, w)
    case Assertion(e) => Eval(m, e, w)
    case ErrorCode(e) =>
      var r := Eval(m, e, w);
      if b == Debug && !d.quiet then Value(ToLong(m, r.v), r.w) else r
  }

  predicate Fails(d: Spec, v: int)
  {
    match d.arg
    case Nothing => true
    case Assertion(_) => v == 0
    case ErrorCode(_) => v != 0
  }

  function Reported(m: Machine, b: Build, line: nat, d: Spec, r: Value): (w: World)
    ensures w.fuel == r.w.fuel
  {
    if b == Production || d.quiet then r.w
    else match d.arg
      case Nothing => Emit(m, NoText, d.target, d.message, line, 0, r.w)
      case Assertion(e) => Emit(m, Asserted(e), d.target, d.message, line, 0, r.w)
      case ErrorCode(e) => Emit(m, ComparedToZero(e), d.target, d.message, line, r.v, r.w)
  }

  /** A break or continue in the action: the require forms keep it to
      themselves in both builds, a verify on an error code in debug builds only,
      a verify on an assertion in neither. */
  predicate Captures(b: Build, d: Spec)
  {
    d.target.Some? || (b == Debug && d.arg.ErrorCode?)
  }

  /** What follows the action. */
  function Finish(b: Build, d: Spec, out: Outcome): Outcome
  {
    match out
    case Normal => if d.target.Some? then Jump(d.target.value) else Normal
    case Broke => if Captures(b, d) then Normal else Broke
    case Continued => if Captures(b, d) then Normal else Continued
    case _ => out
  }

  // ---------------------------------------------------------------- statements

  function Rebind(w: World, x: Name, v: Option<int>): (r: World)
    ensures r.fuel == w.fuel
  {
    match v
    case None => w.(vars := w.vars - {x})
    case Some(n) => w.(vars := w.vars[x := n])
  }

  function Binding(w: World, x: Name): Option<int>
  {
    if x in w.vars then Some(w.vars[x]) else None
  }

  function Exec(m: Machine, b: Build, s: Stmt, w: World): (r: Result)
    ensures r.w.fuel <= w.fuel
    decreases w.fuel, Size(s), 2
  {
    match s
    case Null => Result(w, Normal)
    case Do(e) => Result(Eval(m, e, w).w, Normal)
    case If(c, t) =>
      var r := Eval(m, c, w);
      if r.v != 0 then Exec(m, b, t, r.w) else Result(r.w, Normal)
    case IfElse(c, t, e) =>
      var r := Eval(m, c, w);
      if r.v != 0 then Exec(m, b, t, r.w) else Exec(m, b, e, r.w)
    case While(c, body) =>
      var r := Eval(m, c, w);
      if r.v == 0 then Result(r.w, Normal)
      else if w.fuel == 0 then Result(r.w, Timeout)
      else
        var q := Exec(m, b, body, r.w.(fuel := w.fuel - 1));
        if q.out == Broke then Result(q.w, Normal)
        else if q.out == Normal || q.out == Continued then Exec(m, b, s, q.w)
        else q
    case DoOnce(body) =>
      var r := Exec(m, b, body, w);
      if r.out == Broke || r.out == Continued then Result(r.w, Normal) else r
    case Block(items) => ExecFrom(m, b, items, items, w)
    case Break => Result(w, Broke)
    case Continue => Result(w, Continued)
    case Goto(l) => Result(w, Jump(l))
    case Report(text, about, message, line, code) =>
      Result(Emit(m, text, about, message, line, Eval(m, code, w).v, w), Normal)
    case Use(line, macro) =>
      var d := Describe(macro);
      if b == Production && d.debugOnly then Result(w, Normal)
      else
        var r := EvalArgument(m, b, d, w);
        if !Fails(d, r.v) then Result(r.w, Normal)
        else
          var w1 := Reported(m, b, line, d, r);
          var q := if ActionOf(macro).Some? then Exec(m, b, ActionOf(macro).value, w1) else Result(w1, Normal);
          Result(q.w, Finish(b, d, q.out))
  }

  /** One pass over the items. */
  function ExecItems(m: Machine, b: Build, items: Items, w: World): (r: Result)
    ensures r.w.fuel <= w.fuel
    decreases w.fuel, ItemsSize(items), 0
  {
    match items
    case End => Result(w, Normal)
    case Then(s, rest) =>
      var r := Exec(m, b, s, w);
      if r.out == Normal then ExecItems(m, b, rest, r.w) else r
    case Local(x, e, rest) =>
      // x is already in scope, unset, while its initialiser runs
      var r := Eval(m, e, Rebind(w, x, None));
      var q := ExecFrom(m, b, rest, rest, Rebind(r.w, x, Some(ToLong(m, r.v))));
      Result(Rebind(q.w, x, Binding(w, x)), q.out)
    case Labelled(_, rest) => ExecItems(m, b, rest, w)
  }

  /** The items `cur` of the list `all`, with jumps to the labels of `all`. */
  function ExecFrom(m: Machine, b: Build, all: Items, cur: Items, w: World): (r: Result)
    ensures r.w.fuel <= w.fuel
    decreases w.fuel, ItemsSize(cur), 1
  {
    var r := ExecItems(m, b, cur, w);
    if r.out.Jump? && HasLabel(all, r.out.target) then
      if r.w.fuel == 0 then Result(r.w, Timeout)
      else ExecFrom(m, b, all, From(all, r.out.target), r.w.(fuel := r.w.fuel - 1))
    else r
  }
}
