/** The header's forty-six templates follow one scheme: each is the template
    its family and suffixes call for. */
module MacroShapes {
  import opened Wrappers
  import opened CSyntax
  import opened CSemantics
  import opened AssertMacros

  /** Where a failing macro ends: its action, its goto, both or neither. */
  function Tail(target: Option<Label>, act: Option<Items>): Items
  {
    match (target, act)
    case (None, None) => End
    case (None, Some(items)) => items
    case (Some(l), None) => One(Goto(l))
    case (Some(l), Some(items)) => ActThenGo(items, l)
  }

  function FailureItems(b: Build, line: nat, d: Spec, act: Option<Items>): Items
  {
    var tail := Tail(d.target, act);
    if b == Production || d.quiet then tail
    else match d.arg
      case Nothing => Tell(line, NoText, d.target, d.message, Lit(0), tail)
      case Assertion(a) => TellAssertion(line, a, d.target, d.message, tail)
      case ErrorCode(e) => TellCode(line, e, d.target, d.message, tail)
  }

  /** The condition that a form without the local tests. */
  function Condition(b: Build, d: Spec, act: Option<Items>): Expr
    requires !d.arg.Nothing?
  {
    match d.arg
    case Assertion(a) => if b == Production && d.target.None? && act.None? then Not(a) else Unlikely(a)
    case ErrorCode(e) => if d.target.None? then NonZero(e) else UnlikelyError(e)
  }

  function Shape(b: Build, line: nat, d: Spec, act: Option<Items>): Stmt
  {
    var items := FailureItems(b, line, d, act);
    if b == Production && d.debugOnly then Null
    else if d.arg.Nothing? then Do0(items)
    else if d.arg.ErrorCode? && b == Debug && !d.quiet then Once(d.arg.e, items)
    else if act.Some? && d.target.None? then GuardElse(Condition(b, d, act), items)
    else Do0(One(Guard(Condition(b, d, act), items)))
  }

  /** Every template of the header is its family's. */
  lemma FormsHaveShape(b: Build, line: nat, m: Macro, act: Items)
    ensures (if b == Production then ProductionForm(line, m, act) else DebugForm(line, m, act))
         == Shape(b, line, Describe(m), if ActionOf(m).Some? then Some(act) else None)
  {}
}
