/** The KDE places file: the script puts a bookmark block in front of the
    closing tag, unless the file already mentions the directory. */
module Places {
  import opened Wrappers
  import opened TextFiles
  import opened PlaceBlock

  const TAG: string := "</xbel>"

  // ---------------------------------------------------------------- replacement

  /** Every occurrence of `from` from left to right, none overlapping. */
  function Replace(s: string, from: string, to: string): string
    requires from != ""
    decreases |s|
  {
    if s == "" then ""
    else if from <= s then to + Replace(s[|from|..], from, to)
    else [s[0]] + Replace(s[1..], from, to)
  }

  /** The texts between those occurrences. */
  function Split(s: string, from: string): (parts: seq<string>)
    requires from != ""
    ensures parts != []
    decreases |s|
  {
    if s == "" then [""]
    else if from <= s then [""] + Split(s[|from|..], from)
    else
      var parts := Split(s[1..], from);
      [[s[0]] + parts[0]] + parts[1..]
  }

  function Join(parts: seq<string>, glue: string): string
    requires parts != []
  {
    if |parts| == 1 then parts[0] else parts[0] + glue + Join(parts[1..], glue)
  }

  lemma JoinFirst(c: char, parts: seq<string>, glue: string)
    requires parts != []
    ensures Join([[c] + parts[0]] + parts[1..], glue) == [c] + Join(parts, glue)
  {
    var more := [[c] + parts[0]] + parts[1..];
    assert more[1..] == parts[1..];
    if |parts| > 1 {
      assert more[0] + glue + Join(parts[1..], glue) == [c] + (parts[0] + glue + Join(parts[1..], glue));
    }
  }

  lemma JoinMore(parts: seq<string>, glue: string)
    requires parts != []
    ensures Join([""] + parts, glue) == glue + Join(parts, glue)
  {
    assert ([""] + parts)[1..] == parts;
    assert "" + glue == glue;
  }

  /** Splitting is undone by joining with what was split at; replacing is
      joining with something else, so it changes nothing between the
      occurrences. */
  lemma {:induction false} ReplaceIsJoin(s: string, from: string, to: string)
    requires from != ""
    ensures Replace(s, from, to) == Join(Split(s, from), to)
    ensures s == Join(Split(s, from), from)
    decreases |s|
  {
    if s != "" {
      if from <= s {
        var rest := s[|from|..];
        ReplaceIsJoin(rest, from, to);
        assert s == from + rest;
        hide Join;
        JoinMore(Split(rest, from), to);
        JoinMore(Split(rest, from), from);
      } else {
        ReplaceIsJoin(s[1..], from, to);
        assert s == [s[0]] + s[1..];
        hide Join;
        JoinFirst(s[0], Split(s[1..], from), to);
        JoinFirst(s[0], Split(s[1..], from), from);
      }
    }
  }

  /** There is more than one part exactly when the string occurs. */
  lemma {:induction false} SplitsWhereContained(s: string, from: string)
    requires from != ""
    ensures |Split(s, from)| > 1 <==> Contains(s, from)
    decreases |s|
  {
    if s != "" && !(from <= s) {
      SplitsWhereContained(s[1..], from);
    }
  }

  lemma {:induction false} FirstPartLeads(s: string, from: string)
    requires from != ""
    ensures Split(s, from)[0] <= s
    decreases |s|
  {
    if s != "" && !(from <= s) { FirstPartLeads(s[1..], from); }
  }

  /** No occurrence is left inside a part: all of them are found. */
  lemma {:induction false} PartsAreFree(s: string, from: string)
    requires from != ""
    ensures forall i :: 0 <= i < |Split(s, from)| ==> !Contains(Split(s, from)[i], from)
    decreases |s|
  {
    if s == "" {
    } else if from <= s {
      PartsAreFree(s[|from|..], from);
    } else {
      var parts := Split(s[1..], from);
      PartsAreFree(s[1..], from);
      FirstPartLeads(s[1..], from);
      var first := [s[0]] + parts[0];
      assert first <= s;
      assert first[1..] == parts[0];
    }
  }

  lemma {:induction false} JoinLength(parts: seq<string>, glue: string, other: string)
    requires parts != []
    ensures |Join(parts, glue)| - |Join(parts, other)| == (|parts| - 1) * (|glue| - |other|)
    decreases |parts|
  {
    if |parts| > 1 {
      JoinLength(parts[1..], glue, other);
      var d := |glue| - |other|;
      assert (|parts| - 1) * d == (|parts| - 2) * d + d;
    }
  }

  /** The library's scan: copy from left to right, and where `from` begins write
      `to` and go on behind it. */
  method ReplaceAll(s: string, from: string, to: string) returns (r: string)
    requires from != ""
    ensures r == Join(Split(s, from), to)
  {
    r := "";
    var i := 0;
    assert s[0..] == s && "" + Replace(s, from, to) == Replace(s, from, to);
    hide Replace, Split, Join;
    while i < |s|
      invariant 0 <= i <= |s|
      invariant r + Replace(s[i..], from, to) == Replace(s, from, to)
    {
      ReplaceStep(s, i, from, to);
      if i + |from| <= |s| && s[i..i + |from|] == from {
        Regroup(r, to, Replace(s[i + |from|..], from, to));
        r := r + to;
        i := i + |from|;
      } else {
        Regroup(r, [s[i]], Replace(s[i + 1..], from, to));
        r := r + [s[i]];
        i := i + 1;
      }
    }
    assert s[i..] == "";
    assert r + Replace("", from, to) == r by { ReplaceEmpty(r, from, to); }
    ReplaceIsJoin(s, from, to);
  }

  lemma ReplaceStep(s: string, i: nat, from: string, to: string)
    requires from != "" && i < |s|
    ensures Replace(s[i..], from, to)
         == if i + |from| <= |s| && s[i..i + |from|] == from then to + Replace(s[i + |from|..], from, to)
            else [s[i]] + Replace(s[i + 1..], from, to)
  {
    var rest := s[i..];
    assert rest[1..] == s[i + 1..];
    if i + |from| <= |s| {
      assert rest[|from|..] == s[i + |from|..];
      assert rest[..|from|] == s[i..i + |from|];
      assert from <= rest <==> rest[..|from|] == from;
    }
  }

  lemma ReplaceEmpty(r: string, from: string, to: string)
    requires from != ""
    ensures r + Replace("", from, to) == r
  {}

  // ---------------------------------------------------------------- the update

  /** The places file after the script's pass over it. */
  function Placed(raw: string, dir: string): string
  {
    var content := UniversalNewlines(raw);
    if !Contains(content, dir) && Contains(content, TAG)
    then Replace(content, TAG, NewPlace(dir) + TAG)
    else raw
  }

  // ---------------------------------------------------------------- where the block goes

  /** How many occurrences a left-to-right scan finds. */
  function Occurrences(s: string, p: string): nat
    requires p != ""
  {
    |Split(s, p)| - 1
  }

  /** The block once, in front of the last tag. */
  function InsertedOnce(s: string, tag: string, block: string): string
    requires tag != "" && Occurrences(s, tag) >= 1
  {
    var parts := Split(s, tag);
    var n := |parts| - 1;
    Join(parts[..n], tag) + block + tag + parts[n]
  }

  lemma {:induction false} JoinLast(parts: seq<string>, glue: string)
    requires |parts| > 1
    ensures Join(parts, glue) == Join(parts[..|parts| - 1], glue) + glue + parts[|parts| - 1]
    decreases |parts|
  {
    var n := |parts| - 1;
    if n == 1 {
      assert parts[..1] == [parts[0]] && parts[1..] == [parts[1]];
    } else {
      JoinLast(parts[1..], glue);
      assert parts[1..][..n - 1] == parts[..n][1..];
      assert parts[1..][n - 1] == parts[n];
      var a, b, c := Join(parts[..n][1..], glue), parts[0], parts[n];
      assert b + glue + (a + glue + c) == (b + glue + a) + glue + c;
    }
  }

  lemma MoreBlocks(n: nat, b: nat)
    requires n > 1 && b > 0
    ensures n * b > b
  {}

  lemma BlockLengths(s: string, tag: string, block: string)
    requires tag != "" && Contains(s, tag)
    ensures Occurrences(s, tag) >= 1
    ensures |Replace(s, tag, block + tag)| == |s| + Occurrences(s, tag) * |block|
    ensures |InsertedOnce(s, tag, block)| == |s| + |block|
  {
    var parts := Split(s, tag);
    SplitsWhereContained(s, tag);
    ReplaceIsJoin(s, tag, block + tag);
    JoinLength(parts, block + tag, tag);
    assert |block + tag| - |tag| == |block|;
    JoinLast(parts, tag);
    hide Split, Join, Replace, Contains;
  }

  lemma OneBlock(s: string, tag: string, block: string)
    requires tag != "" && Occurrences(s, tag) == 1
    ensures Replace(s, tag, block + tag) == InsertedOnce(s, tag, block)
  {
    var parts := Split(s, tag);
    ReplaceIsJoin(s, tag, block + tag);
    JoinLast(parts, block + tag);
    JoinOne(parts[..1], tag);
    JoinOne(parts[..1], block + tag);
    hide Split, Join, Replace;
    assert parts[0] + (block + tag) + parts[1] == parts[0] + block + tag + parts[1];
  }

  /** Replacing a tag by a block and the tag: one block a tag, nothing else
      changed, and the same as one insertion exactly when there is one tag. */
  lemma BlockBeforeEachTag(s: string, tag: string, block: string)
    requires tag != "" && block != "" && Contains(s, tag)
    ensures Occurrences(s, tag) >= 1
    ensures |Replace(s, tag, block + tag)| == |s| + Occurrences(s, tag) * |block|
    ensures Replace(s, tag, block + tag) == InsertedOnce(s, tag, block) <==> Occurrences(s, tag) == 1
  {
    BlockLengths(s, tag, block);
    hide Occurrences, InsertedOnce, Replace, Contains;
    if Occurrences(s, tag) == 1 {
      OneBlock(s, tag, block);
    } else {
      MoreBlocks(Occurrences(s, tag), |block|);
    }
  }

  lemma JoinOne(parts: seq<string>, glue: string)
    requires |parts| == 1
    ensures Join(parts, glue) == parts[0]
  {}

  /** The script writes to the file. */
  predicate Inserts(raw: string, dir: string)
  {
    var content := UniversalNewlines(raw);
    !Contains(content, dir) && Contains(content, TAG)
  }

  lemma NewPlaceStart(dir: string)
    ensures NewPlace(dir) != "" && (NewPlace(dir) + TAG)[0] == ' '
  {
    assert "    <bookmark"[0] == ' ';
    ByLines(dir);
    hide NewPlace, FromTitle;
  }

  /** The block goes in front of every closing tag: the file grows by one block
      a tag, and nothing else changes. Putting it in front of the last tag only,
      as the script's own comment has it, is what happens exactly when there is
      one tag. */
  lemma InsertedBeforeLastTagExactly(raw: string, dir: string)
    requires Inserts(raw, dir)
    ensures var content := UniversalNewlines(raw);
      && Occurrences(content, TAG) >= 1
      && content == Join(Split(content, TAG), TAG)
      && Placed(raw, dir) == Join(Split(content, TAG), NewPlace(dir) + TAG)
      && |Placed(raw, dir)| == |content| + Occurrences(content, TAG) * |NewPlace(dir)|
      && (Placed(raw, dir) == InsertedOnce(content, TAG, NewPlace(dir)) <==> Occurrences(content, TAG) == 1)
  {
    var content := UniversalNewlines(raw);
    NewPlaceStart(dir);
    hide NewPlace, Split, Join, Replace, InsertedOnce, Occurrences;
    BlockBeforeEachTag(content, TAG, NewPlace(dir));
    ReplaceIsJoin(content, TAG, NewPlace(dir) + TAG);
  }

  // ---------------------------------------------------------------- undoing it

  lemma CutOut(s: string, tag: string, block: string)
    requires tag != "" && Occurrences(s, tag) == 1
    ensures var out, at := Replace(s, tag, block + tag), |Split(s, tag)[0]|;
      && at + |block| <= |out|
      && out[at..at + |block|] == block
      && out[..at] + out[at + |block|..] == s
  {
    var parts := Split(s, tag);
    ReplaceIsJoin(s, tag, block + tag);
    var p, q := parts[0], parts[1];
    JoinLast(parts, tag);
    JoinLast(parts, block + tag);
    JoinOne(parts[..1], tag);
    JoinOne(parts[..1], block + tag);
    var out := Replace(s, tag, block + tag);
    hide Split, Join, Replace, Occurrences;
    assert s == p + tag + q && out == p + (block + tag) + q;
    CutMiddle(p, block, tag, q);
  }

  lemma CutMiddle(p: string, block: string, tag: string, q: string)
    ensures var out := p + (block + tag) + q;
      && out[|p|..|p| + |block|] == block
      && out[..|p|] + out[|p| + |block|..] == p + tag + q
  {
    var out := p + (block + tag) + q;
    assert out[..|p|] == p && out[|p| + |block|..] == tag + q;
    assert p + (tag + q) == p + tag + q;
  }

  /** With one closing tag, cutting the block out again gives the text that was
      read. */
  lemma CuttingTheBlockUndoes(raw: string, dir: string)
    requires Inserts(raw, dir) && Occurrences(UniversalNewlines(raw), TAG) == 1
    ensures var content, block, out := UniversalNewlines(raw), NewPlace(dir), Placed(raw, dir);
      var at := |Split(content, TAG)[0]|;
      && at + |block| <= |out|
      && out[at..at + |block|] == block
      && out[..at] + out[at + |block|..] == content
  {
    hide NewPlace, Split, Replace, Occurrences, Contains;
    CutOut(UniversalNewlines(raw), TAG, NewPlace(dir));
  }

  // ---------------------------------------------------------------- idempotence, exactly

  lemma GlueShows(parts: seq<string>, glue: string, x: string, p: string, y: string)
    requires |parts| > 1 && glue == x + p + y
    ensures Contains(Join(parts, glue), p)
  {
    var a, b := parts[0], Join(parts[1..], glue);
    assert Join(parts, glue) == a + glue + b;
    hide Contains, Join;
    assert a + (x + p + y) + b == (a + x) + p + (y + b);
    ContainsMiddle(a + x, p, y + b);
  }

  lemma ReplacedContains(s: string, tag: string, head: string, dir: string, rest: string)
    requires tag != "" && Contains(s, tag)
    ensures var out := Replace(s, tag, head + dir + rest + tag); Contains(out, dir) && Contains(out, tag)
  {
    var block := head + dir + rest;
    var glue := block + tag;
    assert glue == block + tag + "" == head + dir + (rest + tag);
    hide Contains;
    SplitsWhereContained(s, tag);
    ReplaceIsJoin(s, tag, glue);
    var parts := Split(s, tag);
    var out := Replace(s, tag, glue);
    GlueShows(parts, glue, block, tag, "");
    GlueShows(parts, glue, head, dir, rest + tag);
  }

  lemma PlacedContains(raw: string, dir: string)
    requires Inserts(raw, dir)
    ensures Contains(Placed(raw, dir), dir) && Contains(Placed(raw, dir), TAG)
  {
    hide Contains, Replace, FromTitle;
    var a, e := "    <bookmark" + " href=\"" + "file://", "\">\n";
    ByLines(dir);
    PathInside("    <bookmark" + " href=\"", "file://", dir, e, FromTitle());
    hide NewPlace;
    ReplacedContains(UniversalNewlines(raw), TAG, a, dir, e + FromTitle());
  }

  lemma PathInside(a: string, b: string, dir: string, e: string, x: string)
    ensures (a + (b + dir) + e) + x == (a + b) + dir + (e + x)
  {
    assert a + (b + dir) == (a + b) + dir;
  }

  lemma {:induction false} ReplaceChars(s: string, from: string, to: string, c: char)
    requires from != "" && c !in s && c !in to
    ensures c !in Replace(s, from, to)
    decreases |s|
  {
    if s != "" {
      if from <= s { ReplaceChars(s[|from|..], from, to, c); } else { ReplaceChars(s[1..], from, to, c); }
    }
  }

  lemma LineChars()
    ensures '\r' !in TITLE_LINE && '\r' !in INFO_LINE && '\r' !in METADATA_END && '\r' !in INFO_END && '\r' !in BOOKMARK_END
  {
    assert '\r' !in "        <title>" && '\r' !in "Applications (Osxie)" && '\r' !in "</title>\n";
  }

  lemma AttributeChars()
    ensures '\r' !in METADATA_LINE && '\r' !in ICON_LINE
  {
    assert '\r' !in "            <metadata" && '\r' !in " owner=\"" && '\r' !in "http://freedesktop.org" && '\r' !in "\">\n";
    assert '\r' !in "                <bookmark:icon" && '\r' !in " name=\"" && '\r' !in "applications-system" && '\r' !in "\"/>\n";
  }

  lemma EightParts(a: string, b: string, c: string, d: string, e: string, f: string, g: string, h: string, x: char)
    requires x !in a && x !in b && x !in c && x !in d && x !in e && x !in f && x !in g && x !in h
    ensures x !in a + b + c + d + e + f + g + h
  {
    assert x !in a + b + c + d;
    assert x !in a + b + c + d + e + f;
  }

  lemma BlockChars(dir: string)
    requires '\r' !in dir
    ensures '\r' !in NewPlace(dir) + TAG
  {
    assert '\r' !in BookmarkLine(dir);
    LineChars();
    AttributeChars();
    hide BookmarkLine;
    EightParts(BookmarkLine(dir), TITLE_LINE, INFO_LINE, METADATA_LINE, ICON_LINE, METADATA_END, INFO_END, BOOKMARK_END, '\r');
    assert '\r' !in TAG;
    hide NewPlace;
  }

  /** Reading keeps the closing tag. */
  lemma {:induction false} ReadingKeepsTag(s: string)
    requires Contains(s, TAG)
    ensures Contains(UniversalNewlines(s), TAG)
    decreases |s|
  {
    var i := ContainsAt(s, TAG);
    var a, b := s[..i], s[i + |TAG|..];
    ReadingSplits(a, TAG + b);
    assert s == a + (TAG + b);
    assert '\r' !in TAG;
    PrefixReadAsIs(TAG, b);
    assert UniversalNewlines(a) + (TAG + UniversalNewlines(b)) == UniversalNewlines(a) + TAG + UniversalNewlines(b);
    ContainsMiddle(UniversalNewlines(a), TAG, UniversalNewlines(b));
  }

  /** The first place where a replacement shows. */
  lemma {:induction false} FirstChange(s: string, to: string, i: nat)
    requires i < |s| && s[i] == '\n' && Contains(s, TAG) && to != "" && to[0] == ' '
    ensures var r := Replace(s, TAG, to);
      || (i < |r| && r[i] == '\n' && r[..i] == s[..i])
      || exists t: nat :: t < i && t < |r| && s[t] == '<' && r[t] == ' '
    decreases |s|
  {
    var r := Replace(s, TAG, to);
    if TAG <= s {
      assert s[0] == '<';
      assert r[0] == ' ';
    } else if i > 0 {
      FirstChange(s[1..], to, i - 1);
      var q := Replace(s[1..], TAG, to);
      assert r == [s[0]] + q;
      if t: nat :| t < i - 1 && t < |q| && s[1..][t] == '<' && q[t] == ' ' {
        assert s[t + 1] == '<' && r[t + 1] == ' ';
      } else {
        assert s[..i] == [s[0]] + s[1..][..i - 1];
        assert r[..i] == [s[0]] + q[..i - 1];
      }
    } else {
      assert r[0] == s[0];
    }
  }

  /** Up to its first carriage return a text is read as it stands; there the
      return becomes a newline. */
  lemma {:induction false} FirstReturn(s: string) returns (i: nat)
    requires '\r' in s
    ensures i < |s| && s[i] == '\r'
    ensures i < |UniversalNewlines(s)| && UniversalNewlines(s)[i] == '\n' && UniversalNewlines(s)[..i] == s[..i]
    decreases |s|
  {
    if s[0] == '\r' {
      i := 0;
    } else {
      var j := FirstReturn(s[1..]);
      i := j + 1;
      var u := UniversalNewlines(s[1..]);
      assert ([s[0]] + u)[..i] == [s[0]] + u[..j];
      assert s[..i] == [s[0]] + s[1..][..j];
    }
  }

  /** An insertion shows: where the first carriage return stood, or before it,
      the new text differs from the old; without one it is longer. */
  lemma InsertChanges(raw: string, dir: string)
    requires Inserts(raw, dir)
    ensures Placed(raw, dir) != raw
  {
    var content, glue := UniversalNewlines(raw), NewPlace(dir) + TAG;
    var out := Placed(raw, dir);
    NewPlaceStart(dir);
    assert out == Replace(content, TAG, glue);
    hide UniversalNewlines, NewPlace, Replace, Contains, Placed;
    if '\r' in raw {
      var i := FirstReturn(raw);
      FirstChange(content, glue, i);
      if t: nat :| t < i && t < |out| && content[t] == '<' && out[t] == ' ' {
        assert content[..i][t] == raw[..i][t];
      }
    } else {
      ReadAsIs(raw);
      BlockBeforeEachTag(raw, TAG, NewPlace(dir));
      Longer(Occurrences(raw, TAG), |NewPlace(dir)|);
    }
  }

  lemma Longer(n: nat, b: nat)
    requires n > 0 && b > 0
    ensures n * b > 0
  {}

  /** With a carriage return in the directory's name the script never finds its
      own block again, and a second pass inserts anew. */
  lemma ReturnsAreInsertedAgain(raw: string, dir: string)
    requires '\r' in dir && Contains(UniversalNewlines(raw), TAG)
    ensures Placed(Placed(raw, dir), dir) != Placed(raw, dir)
  {
    var content := UniversalNewlines(raw);
    if Contains(content, dir) { ContainsChars(content, dir, '\r'); assert false; }
    PlacedContains(raw, dir);
    var out := Placed(raw, dir);
    var read := UniversalNewlines(out);
    ReadingKeepsTag(out);
    if Contains(read, dir) { ContainsChars(read, dir, '\r'); assert false; }
    hide UniversalNewlines, NewPlace, Replace, Contains, Placed;
    InsertChanges(out, dir);
  }

  /** A second pass leaves the file as the first one wrote it exactly when the
      directory's name has no carriage return or there was no closing tag to
      insert at. */
  lemma PlacedTwiceExactly(raw: string, dir: string)
    ensures Placed(Placed(raw, dir), dir) == Placed(raw, dir)
       <==> ('\r' !in dir || !Contains(UniversalNewlines(raw), TAG))
  {
    var content := UniversalNewlines(raw);
    if '\r' in dir && Contains(content, TAG) {
      ReturnsAreInsertedAgain(raw, dir);
    } else if !Contains(content, dir) && Contains(content, TAG) {
      PlacedContains(raw, dir);
      BlockChars(dir);
      ReplaceChars(content, TAG, NewPlace(dir) + TAG, '\r');
      ReadAsIs(Placed(raw, dir));
    }
  }

  // ---------------------------------------------------------------- the script's pass

  /** The script's pass over a file that may not exist. The file is rewritten
      exactly when it has a closing tag and does not mention the directory; then
      the new text is what was read with the block in front of every tag, and
      mentions the directory. */
  method AddPlace(file: Option<string>, dir: string) returns (written: Option<string>)
    ensures written.Some? <==> file.Some?
    ensures written != file <==>
      file.Some? && !Contains(UniversalNewlines(file.value), dir) && Contains(UniversalNewlines(file.value), "</xbel>")
    ensures written != file ==>
      var block := ("    <bookmark" + " href=\"" + ("file://" + dir) + "\">\n")
        + ("        <title>" + "Applications (Osxie)" + "</title>\n")
        + "        <info>\n"
        + ("            <metadata" + " owner=\"" + "http://freedesktop.org" + "\">\n")
        + ("                <bookmark:icon" + " name=\"" + "applications-system" + "\"/>\n")
        + "            </metadata>\n"
        + "        </info>\n"
        + "    </bookmark>\n";
      && written.value == Join(Split(UniversalNewlines(file.value), "</xbel>"), block + "</xbel>")
      && Contains(written.value, dir)
    ensures file.Some? ==> written.value == Placed(file.value, dir)
  {
    written := file;
    if file.Some? {
      var xbelContent := UniversalNewlines(file.value);
      if !Contains(xbelContent, dir) {
        var newPlace := NewPlace(dir);
        if Contains(xbelContent, TAG) {
          ReplaceIsJoin(xbelContent, TAG, newPlace + TAG);
          PlacedContains(file.value, dir);
          InsertChanges(file.value, dir);
          xbelContent := ReplaceAll(xbelContent, TAG, newPlace + TAG);
          written := Some(xbelContent);
        }
      }
    }
  }
}
