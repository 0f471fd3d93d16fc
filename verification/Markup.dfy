/** Reading markup: the tags of a text in order, and what one element is. A tag
    runs from `<` to the next `>` outside double quotes, and no `<` may stand in it. */
module Markup {
  import opened Wrappers

  datatype Tag = Opening(name: string) | Closing(name: string) | Empty(name: string)

  /** How far the tag goes whose text, behind its `<`, starts `s`. */
  function TagLength(s: string, quoted: bool): (n: Option<nat>)
    ensures n.Some? ==> n.value < |s|
  {
    if s == "" || s[0] == '<' then None
    else if s[0] == '>' && !quoted then Some(0)
    else
      match TagLength(s[1..], if s[0] == '"' then !quoted else quoted)
      case None => None
      case Some(n) => Some(n + 1)
  }

  /** The text up to the first space. */
  function Word(s: string): string
  {
    if s == "" || s[0] == ' ' then "" else [s[0]] + Word(s[1..])
  }

  /** What stands between `<` and `>`, read as a tag. */
  function TagOf(body: string): Tag
  {
    if body != "" && body[0] == '/' then Closing(body[1..])
    else if body != "" && body[|body| - 1] == '/' then Empty(Word(body[..|body| - 1]))
    else Opening(Word(body))
  }

  /** The tags of a text, unless one is malformed. */
  function Tags(s: string): Option<seq<Tag>>
  {
    if s == "" then Some([])
    else if s[0] != '<' then Tags(s[1..])
    else
      match TagLength(s[1..], false)
      case None => None
      case Some(n) =>
        match Tags(s[n + 2..])
        case None => None
        case Some(tags) => Some([TagOf(s[1..n + 1])] + tags)
  }

  /** Every element is closed, innermost first, and the last tag closes the
      outermost one. `open` are the elements still open. */
  predicate Nested(tags: seq<Tag>, open: seq<string>)
  {
    if tags == [] then open == []
    else match tags[0]
      case Opening(name) => Nested(tags[1..], [name] + open)
      case Empty(_) => open != [] && Nested(tags[1..], open)
      case Closing(name) =>
        open != [] && open[0] == name && (|open| == 1 <==> |tags| == 1) && Nested(tags[1..], open[1..])
  }

  predicate OneElement(s: string)
  {
    Tags(s).Some? && Tags(s).value != [] && Nested(Tags(s).value, [])
  }

  /** The value of the first attribute that begins with `key`, which ends in the
      opening quote. */
  function AttributeValue(s: string, key: string): Option<string>
  {
    if key <= s then Some(UpToQuote(s[|key|..]))
    else if s == "" then None
    else AttributeValue(s[1..], key)
  }

  function UpToQuote(s: string): string
  {
    if s == "" || s[0] == '"' then "" else [s[0]] + UpToQuote(s[1..])
  }

  // ---------------------------------------------------------------- reading piece by piece

  /** `gap<body>rest` */
  function Mark(gap: string, body: string, rest: string): string
  {
    gap + ("<" + (body + (">" + rest)))
  }

  lemma {:induction false} SkipText(gap: string, s: string)
    requires '<' !in gap
    ensures Tags(gap + s) == Tags(s)
  {
    if gap == "" {
      assert gap + s == s;
    } else {
      assert (gap + s)[1..] == gap[1..] + s;
      SkipText(gap[1..], s);
    }
  }

  /** Characters that neither end a tag nor start or end a quotation. */
  predicate Ordinary(s: string) { '<' !in s && '>' !in s && '"' !in s }

  lemma {:induction false} LengthPast(a: string, s: string)
    requires Ordinary(a)
    ensures var n := TagLength(s, false);
      TagLength(a + s, false) == if n.Some? then Some(|a| + n.value) else None
  {
    if a == "" {
      assert a + s == s;
    } else {
      assert (a + s)[1..] == a[1..] + s;
      LengthPast(a[1..], s);
    }
  }

  lemma {:induction false} LengthQuoted(v: string, s: string)
    requires '<' !in v && '"' !in v
    ensures var n := TagLength(s, false);
      TagLength(v + ("\"" + s), true) == if n.Some? then Some(|v| + 1 + n.value) else None
  {
    if v == "" {
      assert v + ("\"" + s) == "\"" + s && ("\"" + s)[1..] == s;
    } else {
      assert (v + ("\"" + s))[1..] == v[1..] + ("\"" + s);
      LengthQuoted(v[1..], s);
    }
  }

  lemma {:induction false} BrokenQuotation(v: string, s: string)
    requires '<' in v && '"' !in v
    ensures TagLength(v + s, true) == None
  {
    assert (v + s)[1..] == v[1..] + s;
    if v[0] != '<' { BrokenQuotation(v[1..], s); }
  }

  /** A tag without attributes. */
  lemma PlainLength(body: string, rest: string)
    requires Ordinary(body)
    ensures TagLength(body + (">" + rest), false) == Some(|body|)
  {
    LengthPast(body, ">" + rest);
  }

  /** A tag with one attribute. */
  lemma AttributeLength(a: string, v: string, b: string, rest: string)
    requires Ordinary(a) && '<' !in v && '"' !in v && Ordinary(b)
    ensures TagLength((a + "\"" + v + "\"" + b) + (">" + rest), false) == Some(|a + "\"" + v + "\"" + b|)
  {
    var s := b + (">" + rest);
    var quoted := v + ("\"" + s);
    PlainLength(b, rest);
    LengthQuoted(v, s);
    assert ("\"" + quoted)[1..] == quoted;
    LengthPast(a, "\"" + quoted);
    hide TagLength;
    Unfold(a, "\"", v, b, ">" + rest);
  }

  lemma Unfold(a: string, q: string, v: string, b: string, s: string)
    ensures (a + q + v + q + b) + s == a + (q + (v + (q + (b + s))))
  {
    assert (a + q + v + q + b) + s == (a + q + v + q) + (b + s);
    assert (a + q + v + q) + (b + s) == (a + q + v) + (q + (b + s));
    assert (a + q + v) + (q + (b + s)) == (a + q) + (v + (q + (b + s)));
  }

  /** One whose value has a `<` in it. */
  lemma BrokenAttribute(a: string, v: string, rest: string)
    requires Ordinary(a) && '<' in v && '"' !in v
    ensures TagLength(a + ("\"" + (v + rest)), false) == None
  {
    BrokenQuotation(v, rest);
    assert ("\"" + (v + rest))[1..] == v + rest;
    LengthPast(a, "\"" + (v + rest));
  }

  lemma ReadMark(gap: string, body: string, rest: string)
    requires '<' !in gap && TagLength(body + (">" + rest), false) == Some(|body|)
    ensures Tags(Mark(gap, body, rest))
         == match Tags(rest) case None => None case Some(tags) => Some([TagOf(body)] + tags)
  {
    var inner := body + (">" + rest);
    var s := "<" + inner;
    SkipText(gap, s);
    assert s[1..] == inner && s[1..|body| + 1] == body && s[|body| + 2..] == rest;
  }

  /** A malformed tag spoils the text. */
  lemma SpoiledMark(gap: string, inner: string)
    requires '<' !in gap && TagLength(inner, false) == None
    ensures Tags(gap + ("<" + inner)) == None
  {
    SkipText(gap, "<" + inner);
    assert ("<" + inner)[1..] == inner;
  }

  lemma {:induction false} WordBefore(a: string, b: string)
    requires ' ' !in a
    ensures Word(a) == a && Word(a + (" " + b)) == a
  {
    if a == "" {
      assert a + (" " + b) == " " + b;
    } else {
      assert (a + (" " + b))[1..] == a[1..] + (" " + b);
      WordBefore(a[1..], b);
    }
  }

  lemma {:induction false} ValueFound(a: string, key: string, s: string)
    requires key != "" && key[0] !in a
    ensures AttributeValue(a + (key + s), key) == Some(UpToQuote(s))
  {
    if a == "" {
      assert a + (key + s) == key + s;
      assert (key + s)[|key|..] == s;
    } else {
      assert (a + (key + s))[1..] == a[1..] + (key + s);
      assert (a + (key + s))[0] != key[0];
      ValueFound(a[1..], key, s);
    }
  }

  /** The value ends at its first quote. */
  lemma {:induction false} ValueExactly(v: string, s: string)
    ensures UpToQuote(v + ("\"" + s)) == v <==> '"' !in v
    ensures |UpToQuote(v + ("\"" + s))| <= |v|
  {
    if v == "" {
      assert v + ("\"" + s) == "\"" + s;
    } else {
      assert (v + ("\"" + s))[1..] == v[1..] + ("\"" + s);
      ValueExactly(v[1..], s);
      assert v == [v[0]] + v[1..];
    }
  }
}
