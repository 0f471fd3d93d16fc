/** Text and trees: the compiler reads the expanded text, and an `else` belongs
    to the nearest `if` that can take it. A macro must not come apart there. */
module CParsing {
  import opened Wrappers
  import opened CSyntax
  import opened CSemantics
  import opened AssertMacros
  import opened MacroShapes
  import opened Builds

  datatype Token =
    | KIf | KElse | KWhile | KDo | KBreak | KContinue | KGoto | KLong
    | Open | Close | Semi | Colon
    | Id(name: string)
    | Bare(e: Expr)         // an expression
    | Parens(e: Expr)       // an expression in parentheses
    | Fprintf(text: Text, about: Option<Label>, message: Option<Expr>, line: nat, code: Expr)

  // ---------------------------------------------------------------- printing

  /** The text of a macro-free statement. No braces are added; a comma
      expression stands in parentheses. */
  function Print(s: Stmt): seq<Token>
    requires MacroFree(s)
  {
    match s
    case Null => [Semi]
    case Do(e) => [if e.Comma? then Parens(e) else Bare(e), Semi]
    case If(c, t) => [KIf, Parens(c)] + Print(t)
    case IfElse(c, t, e) => [KIf, Parens(c)] + Print(t) + [KElse] + Print(e)
    case While(c, b) => [KWhile, Parens(c)] + Print(b)
    case DoOnce(b) => [KDo] + Print(b) + [KWhile, Parens(Lit(0)), Semi]
    case Block(items) => [Open] + PrintItems(items) + [Close]
    case Break => [KBreak, Semi]
    case Continue => [KContinue, Semi]
    case Goto(l) => [KGoto, Id(l), Semi]
    case Report(text, about, message, line, code) => [Fprintf(text, about, message, line, code), Semi]
  }

  function PrintItems(items: Items): seq<Token>
    requires MacroFreeItems(items)
  {
    match items
    case End => []
    case Then(s, rest) => Print(s) + PrintItems(rest)
    case Local(x, e, rest) => [KLong, Id(x), Parens(e), Semi] + PrintItems(rest)
    case Labelled(l, rest) => [Id(l), Colon] + PrintItems(rest)
  }

  // ---------------------------------------------------------------- parsing

  datatype Parsed<+T> = Fail | Ok(value: T, rest: seq<Token>)

  predicate Starts(ts: seq<Token>, t: Token) { ts != [] && ts[0] == t }

  /** Recursive descent; a following `else` is taken by the `if` just read. */
  function Parse(ts: seq<Token>): (r: Parsed<Stmt>)
    ensures r.Ok? ==> |r.rest| < |ts|
    decreases |ts|, 0
  {
    if ts == [] then Fail
    else match ts[0]
      case Semi => Ok(Null, ts[1..])
      case Bare(e) => if Starts(ts[1..], Semi) then Ok(Do(e), ts[2..]) else Fail
      case Parens(e) => if Starts(ts[1..], Semi) then Ok(Do(e), ts[2..]) else Fail
      case Fprintf(text, about, message, line, code) =>
        if Starts(ts[1..], Semi) then Ok(Report(text, about, message, line, code), ts[2..]) else Fail
      case KBreak => if Starts(ts[1..], Semi) then Ok(Break, ts[2..]) else Fail
      case KContinue => if Starts(ts[1..], Semi) then Ok(Continue, ts[2..]) else Fail
      case KGoto =>
        if |ts| >= 3 && ts[1].Id? && ts[2] == Semi then Ok(Goto(ts[1].name), ts[3..]) else Fail
      case KIf =>
        if |ts| < 2 || !ts[1].Parens? then Fail
        else
          var thn := Parse(ts[2..]);
          if thn.Fail? then Fail
          else if !Starts(thn.rest, KElse) then Ok(If(ts[1].e, thn.value), thn.rest)
          else
            var els := Parse(thn.rest[1..]);
            if els.Fail? then Fail else Ok(IfElse(ts[1].e, thn.value, els.value), els.rest)
      case KWhile =>
        if |ts| < 2 || !ts[1].Parens? then Fail
        else var body := Parse(ts[2..]); if body.Fail? then Fail else Ok(While(ts[1].e, body.value), body.rest)
      case KDo =>
        var body := Parse(ts[1..]);
        if body.Fail? then Fail
        else if |body.rest| >= 3 && body.rest[..3] == [KWhile, Parens(Lit(0)), Semi]
        then Ok(DoOnce(body.value), body.rest[3..])
        else Fail
      case Open =>
        var items := ParseItems(ts[1..]);
        if items.Ok? && Starts(items.rest, Close) then Ok(Block(items.value), items.rest[1..]) else Fail
      case _ => Fail
  }

  function ParseItems(ts: seq<Token>): (r: Parsed<Items>)
    ensures r.Ok? ==> |r.rest| <= |ts|
    decreases |ts|, 1
  {
    if ts == [] || ts[0] == Close then Ok(End, ts)
    else if ts[0] == KLong then
      if |ts| >= 4 && ts[1].Id? && ts[2].Parens? && ts[3] == Semi then
        var rest := ParseItems(ts[4..]);
        if rest.Fail? then Fail else Ok(Local(ts[1].name, ts[2].e, rest.value), rest.rest)
      else Fail
    else if ts[0].Id? then
      if Starts(ts[1..], Colon) then
        var rest := ParseItems(ts[2..]);
        if rest.Fail? then Fail else Ok(Labelled(ts[0].name, rest.value), rest.rest)
      else Fail
    else
      var s := Parse(ts);
      if s.Fail? then Fail
      else var rest := ParseItems(s.rest); if rest.Fail? then Fail else Ok(Then(s.value, rest.value), rest.rest)
  }

  // ---------------------------------------------------------------- nesting

  /** The text ends in an `if` that would take a following `else`. A macro use
      counts as closed. */
  predicate OpenIf(s: Stmt)
  {
    match s
    case If(_, _) => true
    case IfElse(_, _, e) => OpenIf(e)
    case While(_, b) => OpenIf(b)
    case _ => false
  }

  /** No `else` in the tree would be read as belonging to another `if`. */
  predicate WellNested(s: Stmt)
    decreases Size(s)
  {
    match s
    case If(_, t) => WellNested(t)
    case IfElse(_, t, e) => !OpenIf(t) && WellNested(t) && WellNested(e)
    case While(_, b) => WellNested(b)
    case DoOnce(b) => WellNested(b)
    case Block(items) => WellNestedItems(items)
    case Use(_, m) => ActionOf(m).Some? ==> WellNested(ActionOf(m).value)
    case _ => true
  }

  predicate WellNestedItems(items: Items)
    decreases ItemsSize(items)
  {
    match items
    case End => true
    case Then(s, rest) => WellNested(s) && WellNestedItems(rest)
    case Local(_, _, rest) => WellNestedItems(rest)
    case Labelled(_, rest) => WellNestedItems(rest)
  }

  // ---------------------------------------------------------------- what is printed is read back

  lemma PrintStart(s: Stmt)
    requires MacroFree(s)
    ensures Print(s) != [] && Print(s)[0] !in {KElse, Close, KLong} && !Print(s)[0].Id?
  {}

  lemma IfStep(c: Expr, tail: seq<Token>)
    ensures Parse([KIf, Parens(c)] + tail) == (
      var thn := Parse(tail);
      if thn.Fail? then Fail
      else if !Starts(thn.rest, KElse) then Ok(If(c, thn.value), thn.rest)
      else var els := Parse(thn.rest[1..]);
           if els.Fail? then Fail else Ok(IfElse(c, thn.value, els.value), els.rest))
  {
    assert ([KIf, Parens(c)] + tail)[2..] == tail;
  }

  lemma WhileStep(c: Expr, tail: seq<Token>)
    requires Parse(tail).Ok?
    ensures Parse([KWhile, Parens(c)] + tail) == Ok(While(c, Parse(tail).value), Parse(tail).rest)
  {
    assert ([KWhile, Parens(c)] + tail)[2..] == tail;
  }

  lemma DoStep(tail: seq<Token>, rest: seq<Token>)
    requires Parse(tail).Ok? && Parse(tail).rest == [KWhile, Parens(Lit(0)), Semi] + rest
    ensures Parse([KDo] + tail) == Ok(DoOnce(Parse(tail).value), rest)
  {
    assert ([KDo] + tail)[1..] == tail;
    var r := Parse(tail).rest;
    assert r[..3] == [KWhile, Parens(Lit(0)), Semi] && r[3..] == rest;
  }

  lemma BlockStep(tail: seq<Token>, rest: seq<Token>)
    requires ParseItems(tail).Ok? && ParseItems(tail).rest == [Close] + rest
    ensures Parse([Open] + tail) == Ok(Block(ParseItems(tail).value), rest)
  {
    assert ([Open] + tail)[1..] == tail;
    assert ([Close] + rest)[1..] == rest;
  }

  lemma LeafStep(s: Stmt, rest: seq<Token>)
    requires s.Null? || s.Do? || s.Break? || s.Continue? || s.Goto? || s.Report?
    ensures Parse(Print(s) + rest) == Ok(s, rest)
  {
    var ts := Print(s) + rest;
    if s.Null? {
      assert ts[1..] == rest;
    } else if s.Goto? {
      assert ts[3..] == rest;
    } else {
      assert ts[2..] == rest;
    }
  }

  lemma Regroup(a: seq<Token>, b: seq<Token>, c: seq<Token>, rest: seq<Token>)
    ensures a + b + rest == a + (b + rest)
    ensures a + b + c + rest == a + (b + (c + rest))
  {}

  lemma {:induction false} ParsePrinted(s: Stmt, rest: seq<Token>)
    requires MacroFree(s) && WellNested(s) && (OpenIf(s) ==> !Starts(rest, KElse))
    ensures Parse(Print(s) + rest) == Ok(s, rest)
    decreases Size(s)
  {
    hide Parse, ParseItems;
    match s
    case If(c, t) =>
      Regroup([KIf, Parens(c)], Print(t), [], rest);
      IfStep(c, Print(t) + rest);
      ParsePrinted(t, rest);
    case IfElse(c, t, e) =>
      var tail := [KElse] + (Print(e) + rest);
      Regroup([KIf, Parens(c)] + Print(t), [KElse], Print(e), rest);
      Regroup([KIf, Parens(c)], Print(t), [], tail);
      IfStep(c, Print(t) + tail);
      ParsePrinted(t, tail);
      assert tail[1..] == Print(e) + rest;
      ParsePrinted(e, rest);
    case While(c, b) =>
      Regroup([KWhile, Parens(c)], Print(b), [], rest);
      ParsePrinted(b, rest);
      WhileStep(c, Print(b) + rest);
    case DoOnce(b) =>
      var tail := [KWhile, Parens(Lit(0)), Semi] + rest;
      Regroup([KDo], Print(b), [KWhile, Parens(Lit(0)), Semi], rest);
      ParsePrinted(b, tail);
      DoStep(Print(b) + tail, rest);
    case Block(items) =>
      var tail := [Close] + rest;
      Regroup([Open], PrintItems(items), [Close], rest);
      ParsePrintedItems(items, tail);
      BlockStep(PrintItems(items) + tail, rest);
    case _ => LeafStep(s, rest);
  }

  lemma ThenStep(ts: seq<Token>)
    requires ts != [] && ts[0] !in {Close, KLong} && !ts[0].Id?
    requires Parse(ts).Ok? && ParseItems(Parse(ts).rest).Ok?
    ensures var more := ParseItems(Parse(ts).rest);
      ParseItems(ts) == Ok(Then(Parse(ts).value, more.value), more.rest)
  {}

  lemma LocalStep(x: Name, e: Expr, tail: seq<Token>)
    requires ParseItems(tail).Ok?
    ensures ParseItems([KLong, Id(x), Parens(e), Semi] + tail)
         == Ok(Local(x, e, ParseItems(tail).value), ParseItems(tail).rest)
  {
    assert ([KLong, Id(x), Parens(e), Semi] + tail)[4..] == tail;
  }

  lemma LabelStep(l: Label, tail: seq<Token>)
    requires ParseItems(tail).Ok?
    ensures ParseItems([Id(l), Colon] + tail) == Ok(Labelled(l, ParseItems(tail).value), ParseItems(tail).rest)
  {
    var ts := [Id(l), Colon] + tail;
    assert ts[1..][0] == Colon && ts[2..] == tail;
  }

  lemma {:induction false} ParsePrintedItems(items: Items, rest: seq<Token>)
    requires MacroFreeItems(items) && WellNestedItems(items) && (rest == [] || rest[0] == Close)
    ensures ParseItems(PrintItems(items) + rest) == Ok(items, rest)
    decreases ItemsSize(items)
  {
    match items
    case End => assert PrintItems(items) + rest == rest;
    case Then(s, more) =>
      hide Parse, ParseItems;
      var tail := PrintItems(more) + rest;
      assert PrintItems(items) + rest == Print(s) + tail;
      PrintStart(s);
      ItemsStart(more, rest);
      ParsePrinted(s, tail);
      ParsePrintedItems(more, rest);
      ThenStep(Print(s) + tail);
    case Local(x, e, more) =>
      hide Parse, ParseItems;
      assert PrintItems(items) + rest == [KLong, Id(x), Parens(e), Semi] + (PrintItems(more) + rest);
      ParsePrintedItems(more, rest);
      LocalStep(x, e, PrintItems(more) + rest);
    case Labelled(l, more) =>
      hide Parse, ParseItems;
      assert PrintItems(items) + rest == [Id(l), Colon] + (PrintItems(more) + rest);
      ParsePrintedItems(more, rest);
      LabelStep(l, PrintItems(more) + rest);
  }

  lemma ItemsStart(items: Items, rest: seq<Token>)
    requires MacroFreeItems(items) && (rest == [] || rest[0] == Close)
    ensures !Starts(PrintItems(items) + rest, KElse)
  {
    if items.Then? { PrintStart(items.s); }
  }

  // ---------------------------------------------------------------- only well-nested trees are read

  lemma {:induction false} ParsedIsWellNested(ts: seq<Token>)
    requires Parse(ts).Ok?
    ensures WellNested(Parse(ts).value) && (OpenIf(Parse(ts).value) ==> !Starts(Parse(ts).rest, KElse))
    decreases |ts|, 0
  {
    match ts[0]
    case KIf =>
      ParsedIsWellNested(ts[2..]);
      var thn := Parse(ts[2..]);
      if Starts(thn.rest, KElse) { ParsedIsWellNested(thn.rest[1..]); }
    case KWhile => ParsedIsWellNested(ts[2..]);
    case KDo => ParsedIsWellNested(ts[1..]);
    case Open => ParsedItemsAreWellNested(ts[1..]);
    case _ =>
  }

  lemma {:induction false} ParsedItemsAreWellNested(ts: seq<Token>)
    requires ParseItems(ts).Ok?
    ensures WellNestedItems(ParseItems(ts).value)
    decreases |ts|, 1
  {
    if ts != [] && ts[0] != Close {
      if ts[0] == KLong {
        ParsedItemsAreWellNested(ts[4..]);
      } else if ts[0].Id? {
        ParsedItemsAreWellNested(ts[2..]);
      } else {
        ParsedIsWellNested(ts);
        ParsedItemsAreWellNested(Parse(ts).rest);
      }
    }
  }

  /** Printing and reading back gives the same tree exactly when the tree is
      well nested. */
  lemma ReadBackExactly(s: Stmt)
    requires MacroFree(s)
    ensures Parse(Print(s)) == Ok(s, []) <==> WellNested(s)
  {
    if WellNested(s) {
      ParsePrinted(s, []);
      assert Print(s) + [] == Print(s);
    } else if Parse(Print(s)) == Ok(s, []) {
      ParsedIsWellNested(Print(s));
    }
  }

  // ---------------------------------------------------------------- actions

  /** The text a client passes as an action: the statement without its final
      semicolon, if it ends in one. */
  function ActionText(text: seq<Token>): seq<Token>
  {
    if text != [] && text[|text| - 1] == Semi then text[..|text| - 1] else text
  }

  lemma {:induction false} LastToken(s: Stmt)
    requires MacroFree(s)
    ensures Print(s) != [] && (Print(s)[|Print(s)| - 1] == Semi <==> EndsInSemicolon(s))
    decreases Size(s)
  {
    match s
    case If(_, t) => LastToken(t);
    case IfElse(_, _, e) => LastToken(e);
    case While(_, b) => LastToken(b);
    case _ =>
  }

  /** A token with a comma in it that no parentheses enclose. The preprocessor
      would end a macro's argument there, braces or not. */
  predicate SplitsArgument(t: Token) { t.Bare? && t.e.Comma? }

  lemma {:induction false} PrintedInOnePiece(s: Stmt)
    requires MacroFree(s)
    ensures forall t :: t in Print(s) ==> !SplitsArgument(t)
    decreases Size(s)
  {
    match s
    case If(_, t) => PrintedInOnePiece(t);
    case IfElse(_, t, e) => PrintedInOnePiece(t); PrintedInOnePiece(e);
    case While(_, b) => PrintedInOnePiece(b);
    case DoOnce(b) => PrintedInOnePiece(b);
    case Block(items) => ItemsInOnePiece(items);
    case _ =>
  }

  lemma {:induction false} ItemsInOnePiece(items: Items)
    requires MacroFreeItems(items)
    ensures forall t :: t in PrintItems(items) ==> !SplitsArgument(t)
    decreases ItemsSize(items)
  {
    match items
    case End =>
    case Then(s, rest) => PrintedInOnePiece(s); ItemsInOnePiece(rest);
    case Local(_, _, rest) => ItemsInOnePiece(rest);
    case Labelled(_, rest) => ItemsInOnePiece(rest);
  }

  /** Putting an action in a template's `action;` is what the preprocessor does
      to the text: the argument, which it takes in one piece, then the template's
      semicolon. */
  lemma ActIsTextual(s: Stmt)
    requires MacroFree(s)
    ensures MacroFreeItems(Act(s)) && PrintItems(Act(s)) == ActionText(Print(s)) + [Semi]
    ensures forall t :: t in ActionText(Print(s)) ==> !SplitsArgument(t)
  {
    PrintedInOnePiece(s);
    LastToken(s);
    var text := Print(s);
    assert PrintItems(End) == [];
    hide SplitsArgument;
    if EndsInSemicolon(s) {
      assert text == text[..|text| - 1] + [Semi];
    } else {
      assert PrintItems(One(Null)) == [Semi];
    }
  }

  // ---------------------------------------------------------------- statement closure

  lemma TailNests(target: Option<Label>, act: Option<Items>)
    ensures WellNestedItems(Tail(target, act)) <==> (act.Some? ==> WellNestedItems(act.value))
  {
    assert WellNestedItems(End);
    if target.Some? {
      assert WellNestedItems(One(Goto(target.value)));
      if act.Some? {
        assert WellNested(Block(act.value)) == WellNestedItems(act.value);
      }
    }
  }

  lemma FailureNests(b: Build, line: nat, d: Spec, act: Option<Items>)
    ensures WellNestedItems(FailureItems(b, line, d, act)) <==> (act.Some? ==> WellNestedItems(act.value))
  {
    var tail := Tail(d.target, act);
    TailNests(d.target, act);
    hide Tail;
    assert WellNestedItems(Then(Null, tail)) == WellNestedItems(tail);
  }

  lemma GuardNests(c: Expr, items: Items)
    ensures WellNested(Do0(items)) == WellNestedItems(items)
    ensures WellNested(Do0(One(Guard(c, items)))) == WellNestedItems(items)
    ensures WellNested(GuardElse(c, items)) == WellNestedItems(items)
  {
    assert WellNested(Block(items)) == WellNestedItems(items);
    assert WellNested(Guard(c, items)) == WellNestedItems(items);
    assert WellNestedItems(End) && WellNested(Block(End)) && WellNested(Do0(End));
    assert WellNested(Block(One(Guard(c, items)))) == WellNestedItems(One(Guard(c, items)));
  }

  lemma OnceNests(e: Expr, items: Items)
    ensures WellNested(Once(e, items)) == WellNestedItems(items)
  {
    var guard := One(Guard(UnlikelyError(Var(EVAL_ONCE)), items));
    assert WellNestedItems(guard) == WellNestedItems(items) by {
      assert WellNested(Block(items)) == WellNestedItems(items);
      assert WellNestedItems(End);
    }
    assert WellNestedItems(Local(EVAL_ONCE, e, guard)) == WellNestedItems(guard);
  }

  /** No template ends in an open `if`, and none nests one badly by itself,
      whatever action is put into it. */
  lemma FormIsClosed(b: Build, line: nat, m: Macro, act: Items)
    ensures var f := if b == Production then ProductionForm(line, m, act) else DebugForm(line, m, act);
      !OpenIf(f) && (WellNested(f) <==> (ActionOf(m).Some? ==> WellNestedItems(act)))
  {
    var d, a := Describe(m), if ActionOf(m).Some? then Some(act) else None;
    assert d.debugOnly ==> a.None?;
    FormsHaveShape(b, line, m, act);
    FailureNests(b, line, d, a);
    var items := FailureItems(b, line, d, a);
    hide Describe, ProductionForm, DebugForm, ActionOf, FailureItems, WellNested, WellNestedItems;
    if b == Production && d.debugOnly {
      NullNests();
    } else if d.arg.Nothing? {
      GuardNests(Lit(0), items);
    } else if d.arg.ErrorCode? && b == Debug && !d.quiet {
      OnceNests(d.arg.e, items);
    } else {
      GuardNests(Condition(b, d, a), items);
    }
  }

  lemma NullNests()
    ensures WellNested(Null)
  {}

  lemma ActNests(s: Stmt)
    ensures WellNestedItems(Act(s)) == WellNested(s)
  {
    assert WellNestedItems(End) && WellNested(Null) && WellNestedItems(One(Null));
  }

  /** Expansion neither opens nor closes an `if` of the client's. */
  lemma {:induction false} ExpandNests(b: Build, s: Stmt)
    ensures OpenIf(Expand(b, s)) == OpenIf(s) && WellNested(Expand(b, s)) == WellNested(s)
    decreases Size(s)
  {
    match s
    case If(_, t) => ExpandNests(b, t);
    case IfElse(_, t, e) => ExpandNests(b, t); ExpandNests(b, e);
    case While(_, body) => ExpandNests(b, body);
    case DoOnce(body) => ExpandNests(b, body);
    case Block(items) => ExpandItemsNest(b, items);
    case Use(line, m) =>
      if ActionOf(m).Some? {
        ExpandNests(b, ActionOf(m).value);
        ActNests(Expand(b, ActionOf(m).value));
      }
      FormIsClosed(b, line, m, if ActionOf(m).Some? then Act(Expand(b, ActionOf(m).value)) else End);
    case _ =>
  }

  lemma {:induction false} ExpandItemsNest(b: Build, items: Items)
    ensures WellNestedItems(ExpandItems(b, items)) == WellNestedItems(items)
    decreases ItemsSize(items)
  {
    match items
    case End =>
    case Then(s, rest) => ExpandNests(b, s); ExpandItemsNest(b, rest);
    case Local(_, _, rest) => ExpandItemsNest(b, rest);
    case Labelled(_, rest) => ExpandItemsNest(b, rest);
  }

  /** Statement closure: the text of the expanded program is read back as the
      program that was meant exactly when the client's own `if`s are well nested,
      counting every macro use as one closed statement, in both builds and for
      every nesting of macros in actions. */
  lemma StatementClosure(b: Build, s: Stmt)
    ensures MacroFree(Expand(b, s))
    ensures Parse(Print(Expand(b, s))) == Ok(Expand(b, s), []) <==> WellNested(s)
  {
    ExpandIsMacroFree(b, s);
    ExpandNests(b, s);
    ReadBackExactly(Expand(b, s));
  }

  /** In particular `if (c) MACRO; else rest` keeps its `else`. */
  lemma ElseStaysWithItsIf(b: Build, c: Expr, line: nat, m: Macro, rest: Stmt)
    requires WellNested(Use(line, m)) && WellNested(rest)
    ensures MacroFree(Expand(b, IfElse(c, Use(line, m), rest)))
    ensures Parse(Print(Expand(b, IfElse(c, Use(line, m), rest))))
         == Ok(IfElse(c, Expand(b, Use(line, m)), Expand(b, rest)), [])
  {
    StatementClosure(b, IfElse(c, Use(line, m), rest));
  }
}
