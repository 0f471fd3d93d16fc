/** Text files as a script sees them: newline translation on reading, lines
    with their terminators, substrings and replacement. */
module TextFiles {
  import opened Wrappers

  // ---------------------------------------------------------------- newlines

  /** Reading in text mode turns "\r\n" and "\r" into "\n". */
  function UniversalNewlines(raw: string): (text: string)
    ensures '\r' !in text
  {
    if raw == "" then ""
    else if raw[0] != '\r' then [raw[0]] + UniversalNewlines(raw[1..])
    else if |raw| > 1 && raw[1] == '\n' then "\n" + UniversalNewlines(raw[2..])
    else "\n" + UniversalNewlines(raw[1..])
  }

  /** Each of the three line ends is read as one newline. */
  lemma LineEndsRead(rest: string)
    ensures UniversalNewlines("") == ""
    ensures UniversalNewlines("\r\n" + rest) == "\n" + UniversalNewlines(rest)
    ensures rest == "" || rest[0] != '\n' ==> UniversalNewlines("\r" + rest) == "\n" + UniversalNewlines(rest)
    ensures UniversalNewlines("\n" + rest) == "\n" + UniversalNewlines(rest)
  {
    assert ("\r\n" + rest)[2..] == rest && ("\r" + rest)[1..] == rest && ("\n" + rest)[1..] == rest;
  }

  /** What comes before the first carriage return is read as it stands. */
  lemma {:induction false} PrefixReadAsIs(p: string, r: string)
    requires '\r' !in p
    ensures UniversalNewlines(p + r) == p + UniversalNewlines(r)
  {
    if p == "" {
      assert p + r == r;
    } else {
      assert (p + r)[1..] == p[1..] + r;
      PrefixReadAsIs(p[1..], r);
    }
  }

  lemma ReadAsIs(p: string)
    requires '\r' !in p
    ensures UniversalNewlines(p) == p
  {
    PrefixReadAsIs(p, "");
    assert p + "" == p;
  }

  /** How much raw text one character read takes. */
  function Step(raw: string): (k: nat)
    requires raw != ""
    ensures 1 <= k <= |raw|
  {
    if raw[0] == '\r' && |raw| > 1 && raw[1] == '\n' then 2 else 1
  }

  lemma ReadOne(raw: string)
    requires raw != ""
    ensures UniversalNewlines(raw)
         == [if raw[0] == '\r' then '\n' else raw[0]] + UniversalNewlines(raw[Step(raw)..])
  {}

  /** A text cut where no line begins is read piece by piece. */
  lemma {:induction false} ReadingSplits(a: string, b: string)
    requires b != "" && b[0] != '\n'
    ensures UniversalNewlines(a + b) == UniversalNewlines(a) + UniversalNewlines(b)
    decreases |a|
  {
    if a == "" {
      assert a + b == b;
    } else {
      hide UniversalNewlines;
      var k := Step(a);
      assert Step(a + b) == k;
      CutThenJoin(a, b, k);
      ReadOne(a);
      ReadOne(a + b);
      ReadingSplits(a[k..], b);
      Regroup([if a[0] == '\r' then '\n' else a[0]], UniversalNewlines(a[k..]), UniversalNewlines(b));
    }
  }

  lemma CutThenJoin(a: string, b: string, k: nat)
    requires k <= |a|
    ensures (a + b)[k..] == a[k..] + b
  {}

  lemma Regroup(a: string, b: string, c: string)
    ensures a + (b + c) == a + b + c
  {}

  // ---------------------------------------------------------------- lines

  /** The length of the first line, with its newline if it has one. */
  function LineLength(text: string): (n: nat)
    requires text != ""
    ensures 1 <= n <= |text|
  {
    if text[0] == '\n' || |text| == 1 then 1 else 1 + LineLength(text[1..])
  }

  function Lines(text: string): seq<string>
  {
    if text == "" then [] else [text[..LineLength(text)]] + Lines(text[LineLength(text)..])
  }

  function Concat(lines: seq<string>): string
  {
    if lines == [] then "" else lines[0] + Concat(lines[1..])
  }

  predicate Terminated(line: string) { line != "" && line[|line| - 1] == '\n' }

  /** Not empty, and no newline before the last character. */
  predicate OneLine(line: string) { line != "" && '\n' !in line[..|line| - 1] }

  /** A list of lines as a file can hold it: only the last may lack its newline. */
  predicate Listing(lines: seq<string>)
  {
    && (forall i :: 0 <= i < |lines| ==> OneLine(lines[i]))
    && (forall i :: 0 <= i < |lines| - 1 ==> Terminated(lines[i]))
  }

  lemma {:induction false} FirstLine(text: string)
    requires text != ""
    ensures OneLine(text[..LineLength(text)])
    ensures LineLength(text) < |text| ==> Terminated(text[..LineLength(text)])
  {
    if text[0] != '\n' && |text| > 1 {
      FirstLine(text[1..]);
      var n := LineLength(text[1..]);
      assert text[..1 + n][..n] == [text[0]] + text[1..][..n][..n - 1];
      assert text[..1 + n][n] == text[1..][..n][n - 1];
    }
  }

  /** Splitting a text gives a listing that concatenates to the text. */
  lemma {:induction false} LinesOfText(text: string)
    ensures Listing(Lines(text)) && Concat(Lines(text)) == text
    decreases |text|
  {
    if text != "" {
      var n := LineLength(text);
      FirstLine(text);
      LinesOfText(text[n..]);
      hide LineLength, OneLine, Terminated;
      assert text == text[..n] + text[n..];
      assert Lines(text)[1..] == Lines(text[n..]);
      if n < |text| {
        assert Lines(text[n..]) != [];
      }
    }
  }

  lemma {:induction false} LengthOfFirst(line: string, rest: string)
    requires OneLine(line) && (rest != "" ==> Terminated(line))
    ensures LineLength(line + rest) == |line|
  {
    if |line| > 1 {
      assert line[0] in line[..|line| - 1];
      assert (line + rest)[1..] == line[1..] + rest;
      assert line[..|line| - 1] == [line[0]] + line[1..][..|line| - 2];
      LengthOfFirst(line[1..], rest);
    }
  }

  /** Splitting undoes concatenation: the lines read back are the lines written. */
  lemma {:induction false} LinesOfListing(lines: seq<string>)
    requires Listing(lines)
    ensures Lines(Concat(lines)) == lines
    decreases |lines|
  {
    if lines != [] {
      var rest := Concat(lines[1..]);
      if |lines| > 1 { assert Terminated(lines[0]); } else { assert rest == ""; }
      LengthOfFirst(lines[0], rest);
      assert (lines[0] + rest)[..|lines[0]|] == lines[0];
      assert (lines[0] + rest)[|lines[0]|..] == rest;
      LinesOfListing(lines[1..]);
    }
  }

  lemma {:induction false} ConcatAppend(a: seq<string>, b: seq<string>)
    ensures Concat(a + b) == Concat(a) + Concat(b)
    decreases |a|
  {
    if a == [] {
      assert a + b == b;
    } else {
      assert (a + b)[1..] == a[1..] + b;
      ConcatAppend(a[1..], b);
    }
  }

  lemma ConcatOne(line: string)
    ensures Concat([line]) == line
  {
    assert [line][1..] == [];
    assert Concat([line]) == line + "";
  }

  lemma {:induction false} ConcatChars(lines: seq<string>, c: char)
    requires forall i :: 0 <= i < |lines| ==> c !in lines[i]
    ensures c !in Concat(lines)
    decreases |lines|
  {
    if lines != [] { ConcatChars(lines[1..], c); }
  }

  lemma {:induction false} ConcatCharsOf(lines: seq<string>, c: char)
    requires c !in Concat(lines)
    ensures forall i :: 0 <= i < |lines| ==> c !in lines[i]
    decreases |lines|
  {
    if lines != [] {
      assert Concat(lines) == lines[0] + Concat(lines[1..]);
      assert forall d :: d in lines[0] ==> d in Concat(lines);
      assert forall d :: d in Concat(lines[1..]) ==> d in Concat(lines);
      ConcatCharsOf(lines[1..], c);
      assert forall i :: 1 <= i < |lines| ==> lines[i] == lines[1..][i - 1];
    }
  }

  // ---------------------------------------------------------------- substrings

  predicate Contains(s: string, p: string)
  {
    p <= s || (s != "" && Contains(s[1..], p))
  }

  lemma {:induction false} ContainsMiddle(a: string, p: string, b: string)
    ensures Contains(a + p + b, p)
    decreases |a|
  {
    if a != "" {
      assert (a + p + b)[1..] == a[1..] + p + b;
      ContainsMiddle(a[1..], p, b);
    } else {
      assert a + p + b == p + b;
    }
  }

  lemma {:induction false} ContainsAfter(a: string, s: string, p: string)
    requires Contains(s, p)
    ensures Contains(a + s, p)
    decreases |a|
  {
    if a != "" {
      assert (a + s)[1..] == a[1..] + s;
      ContainsAfter(a[1..], s, p);
    } else {
      assert a + s == s;
    }
  }

  /** A contained string has its characters contained. */
  lemma {:induction false} ContainsChars(s: string, p: string, c: char)
    requires Contains(s, p) && c in p
    ensures c in s
    decreases |s|
  {
    if p <= s {
      var i :| 0 <= i < |p| && p[i] == c;
      assert s[i] == c;
    } else {
      ContainsChars(s[1..], p, c);
    }
  }

  /** Containment is by position. */
  lemma {:induction false} ContainsAt(s: string, p: string) returns (i: nat)
    requires Contains(s, p)
    ensures i + |p| <= |s| && s[i..i + |p|] == p
    ensures s == s[..i] + p + s[i + |p|..]
    decreases |s|
  {
    if p <= s {
      i := 0;
      assert s == s[..0] + p + s[|p|..];
    } else {
      var j := ContainsAt(s[1..], p);
      i := j + 1;
      assert s[i..i + |p|] == s[1..][j..j + |p|];
      assert s == s[..i] + s[i..i + |p|] + s[i + |p|..];
    }
  }
}
