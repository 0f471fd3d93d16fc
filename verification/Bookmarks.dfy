/** The GTK bookmarks file: the script drops every line that mentions its
    marker or its applications directory and appends one entry of its own. */
module Bookmarks {
  import opened Wrappers
  import opened TextFiles

  const MARKER: string := "Applications (Osxie)"

  function Entry(dir: string): string
  {
    "file://" + dir + " Applications (Osxie)\n"
  }

  /** The line is one the script replaces. */
  predicate Mentions(line: string, dir: string)
  {
    Contains(line, MARKER) || Contains(line, dir)
  }

  function Kept(lines: seq<string>, dir: string): seq<string>
  {
    if lines == [] then []
    else Kept(lines[..|lines| - 1], dir)
         + if Mentions(lines[|lines| - 1], dir) then [] else [lines[|lines| - 1]]
  }

  /** The lines of a file that may not exist. */
  function LinesOf(file: Option<string>): seq<string>
  {
    match file
    case None => []
    case Some(raw) => Lines(UniversalNewlines(raw))
  }

  /** The file's new text. */
  function Rewritten(file: Option<string>, dir: string): string
  {
    Concat(Kept(LinesOf(file), dir) + [Entry(dir)])
  }

  /** The script's update, with the list it builds, filters and appends to. */
  method UpdateBookmarks(file: Option<string>, dir: string) returns (text: string)
    ensures text == Concat(Kept(LinesOf(file), dir)) + ("file://" + dir + " Applications (Osxie)\n")
    ensures text == Rewritten(file, dir)
  {
    var entry := "file://" + dir + " Applications (Osxie)\n";
    var bookmarks := [];
    if file.Some? {
      var lines := Lines(UniversalNewlines(file.value));
      for i := 0 to |lines|
        invariant bookmarks == Kept(lines[..i], dir)
      {
        assert lines[..i + 1][..i] == lines[..i];
        if !Contains(lines[i], MARKER) && !Contains(lines[i], dir) {
          bookmarks := bookmarks + [lines[i]];
        }
      }
      assert lines[..|lines|] == lines;
    }
    ConcatAppend(bookmarks, [entry]);
    ConcatOne(entry);
    bookmarks := bookmarks + [entry];
    text := "";
    for i := 0 to |bookmarks|
      invariant text == Concat(bookmarks[..i])
    {
      assert bookmarks[..i + 1] == bookmarks[..i] + [bookmarks[i]];
      ConcatAppend(bookmarks[..i], [bookmarks[i]]);
      ConcatOne(bookmarks[i]);
      text := text + bookmarks[i];
    }
    assert bookmarks[..|bookmarks|] == bookmarks;
  }

  /** The file after one update for each directory, in order. */
  function AfterUpdates(file: Option<string>, dirs: seq<string>): Option<string>
  {
    if dirs == [] then file
    else Some(Rewritten(AfterUpdates(file, dirs[..|dirs| - 1]), dirs[|dirs| - 1]))
  }

  // ---------------------------------------------------------------- the kept lines

  /** A directory that fits on one line. */
  predicate Plain(dir: string)
  {
    '\n' !in dir && '\r' !in dir
  }

  lemma PlainEntryShape(dir: string)
    requires Plain(dir)
    ensures OneLine(Entry(dir)) && Terminated(Entry(dir)) && '\r' !in Entry(dir)
  {
    var e := Entry(dir);
    var front := "file://" + dir + " Applications (Osxie)";
    assert e == front + "\n" && e[..|e| - 1] == front;
  }

  lemma EntryMarked(dir: string)
    ensures Contains(Entry(dir), MARKER)
  {
    hide Contains;
    assert Entry(dir) == ("file://" + dir + " ") + MARKER + "\n";
    ContainsMiddle("file://" + dir + " ", MARKER, "\n");
  }

  /** Filtering a listing: what stays are lines of it that mention neither, all
      of them terminated except perhaps the last. */
  lemma {:induction false} KeptListing(lines: seq<string>, dir: string)
    requires Listing(lines) && forall i :: 0 <= i < |lines| ==> '\r' !in lines[i]
    ensures var k := Kept(lines, dir);
      && Listing(k)
      && (forall i :: 0 <= i < |k| ==> !Mentions(k[i], dir) && '\r' !in k[i])
      && ((forall i :: 0 <= i < |lines| ==> Terminated(lines[i])) ==> forall i :: 0 <= i < |k| ==> Terminated(k[i]))
    decreases |lines|
  {
    if lines != [] {
      var front := lines[..|lines| - 1];
      assert forall i :: 0 <= i < |front| ==> Terminated(front[i]);
      KeptListing(front, dir);
    }
  }

  lemma LinesOfFile(file: Option<string>)
    ensures Listing(LinesOf(file)) && forall i :: 0 <= i < |LinesOf(file)| ==> '\r' !in LinesOf(file)[i]
  {
    if file.Some? {
      var text := UniversalNewlines(file.value);
      LinesOfText(text);
      ConcatCharsOf(Lines(text), '\r');
    }
  }

  /** Every kept line still ends its own line. */
  predicate Closed(lines: seq<string>)
  {
    lines == [] || Terminated(lines[|lines| - 1])
  }

  function AllButLast(lines: seq<string>): seq<string>
    requires lines != []
  {
    lines[..|lines| - 1]
  }

  function Last(lines: seq<string>): string
    requires lines != []
  {
    lines[|lines| - 1]
  }

  // ---------------------------------------------------------------- reading the entry back

  /** The lines the entry is read back as: more than one if the directory's
      path has a line break in it. */
  function EntryLines(dir: string): (lines: seq<string>)
    ensures lines != []
  {
    assert Entry(dir)[0] == 'f';
    Lines(UniversalNewlines(Entry(dir)))
  }

  lemma EntryRead(dir: string)
    ensures Terminated(UniversalNewlines(Entry(dir)))
  {
    var a, b := "file://" + dir, " Applications (Osxie)\n";
    assert Entry(dir) == a + b;
    assert '\r' !in b && Terminated(b);
    hide UniversalNewlines;
    ReadingSplits(a, b);
    ReadAsIs(b);
  }

  lemma LastOfConcat(lines: seq<string>)
    requires lines != [] && Last(lines) != ""
    ensures Concat(lines) != "" && Concat(lines)[|Concat(lines)| - 1] == Last(lines)[|Last(lines)| - 1]
  {
    assert lines == AllButLast(lines) + [Last(lines)];
    ConcatAppend(AllButLast(lines), [Last(lines)]);
    ConcatOne(Last(lines));
  }

  lemma EntryLinesShape(dir: string)
    ensures var ls := EntryLines(dir);
      && Listing(ls) && Concat(ls) == UniversalNewlines(Entry(dir))
      && forall i :: 0 <= i < |ls| ==> Terminated(ls[i])
  {
    var ls := EntryLines(dir);
    EntryRead(dir);
    LinesOfText(UniversalNewlines(Entry(dir)));
    hide Entry, UniversalNewlines;
    assert OneLine(Last(ls));
    LastOfConcat(ls);
  }

  lemma PlainEntryLines(dir: string)
    requires Plain(dir)
    ensures EntryLines(dir) == [Entry(dir)]
  {
    PlainEntryShape(dir);
    ReadAsIs(Entry(dir));
    hide Entry;
    LinesOfListing([Entry(dir)]);
    ConcatOne(Entry(dir));
  }

  /** Lines written after the lines `k`: if the last of those lacks its newline,
      the first new line runs on from it. */
  function Glue(k: seq<string>, more: seq<string>): seq<string>
    requires more != []
  {
    if Closed(k) then k + more else AllButLast(k) + [Last(k) + more[0]] + more[1..]
  }

  lemma MergedLine(l: string, e: string)
    requires OneLine(l) && !Terminated(l) && OneLine(e) && Terminated(e)
    ensures OneLine(l + e) && Terminated(l + e)
  {
    var m := l + e;
    assert l == l[..|l| - 1] + [l[|l| - 1]];
    assert m[..|m| - 1] == l + e[..|e| - 1];
  }

  lemma GlueText(k: seq<string>, more: seq<string>)
    requires more != []
    ensures Concat(Glue(k, more)) == Concat(k) + Concat(more)
  {
    if Closed(k) {
      ConcatAppend(k, more);
    } else {
      var a, l := AllButLast(k), Last(k);
      assert k == a + [l] && more == [more[0]] + more[1..];
      GluedText(a, l, more[0], more[1..]);
    }
  }

  lemma GluedText(a: seq<string>, l: string, m: string, r: seq<string>)
    ensures Concat(a + [l + m] + r) == Concat(a + [l]) + Concat([m] + r)
  {
    ConcatAppend(a + [l + m], r);
    ConcatAppend(a, [l + m]);
    ConcatAppend(a, [l]);
    ConcatAppend([m], r);
    ConcatOne(l + m);
    ConcatOne(l);
    ConcatOne(m);
    hide Concat;
    FourTexts(Concat(a), l, m, Concat(r));
  }

  lemma FourTexts(a: string, b: string, c: string, d: string)
    ensures a + (b + c) + d == a + b + (c + d)
  {}

  predicate AllLines(lines: seq<string>)
  {
    forall i :: 0 <= i < |lines| ==> OneLine(lines[i]) && Terminated(lines[i])
  }

  lemma GlueListing(k: seq<string>, more: seq<string>)
    requires more != [] && Listing(k) && AllLines(more)
    ensures Listing(Glue(k, more)) && AllLines(Glue(k, more))
  {
    if Closed(k) {
      hide OneLine, Terminated;
    } else {
      MergedLine(Last(k), more[0]);
      hide OneLine, Terminated;
      var g, n := Glue(k, more), |k| - 1;
      forall i | 0 <= i < |g|
        ensures OneLine(g[i]) && Terminated(g[i])
      {
        if i < n { assert g[i] == k[i]; } else if i > n { assert g[i] == more[i - n]; }
      }
    }
  }

  /** The lines of a rewritten file, for any file and any directory. */
  lemma LinesOfRewritten(file: Option<string>, dir: string)
    ensures LinesOf(Some(Rewritten(file, dir))) == Glue(Kept(LinesOf(file), dir), EntryLines(dir))
  {
    var k, more := Kept(LinesOf(file), dir), EntryLines(dir);
    LinesOfFile(file);
    KeptListing(LinesOf(file), dir);
    EntryLinesShape(dir);
    hide Entry, UniversalNewlines, Kept, Lines, Listing, Glue;
    ConcatAppend(k, [Entry(dir)]);
    ConcatOne(Entry(dir));
    ConcatChars(k, '\r');
    PrefixReadAsIs(Concat(k), Entry(dir));
    GlueText(k, more);
    GlueListing(k, more);
    LinesOfListing(Glue(k, more));
  }

  lemma {:induction false} KeptAppend(a: seq<string>, b: seq<string>, dir: string)
    ensures Kept(a + b, dir) == Kept(a, dir) + Kept(b, dir)
    decreases |b|
  {
    if b == [] {
      assert a + b == a;
    } else {
      assert (a + b)[..|a + b| - 1] == a + b[..|b| - 1];
      KeptAppend(a, b[..|b| - 1], dir);
    }
  }

  lemma KeptOne(line: string, dir: string)
    ensures Kept([line], dir) == if Mentions(line, dir) then [] else [line]
  {
    assert [line][..0] == [];
  }

  /** Which lines stay: exactly those that contain neither the marker nor the
      directory, where they stood. */
  lemma KeepsExactly(a: seq<string>, line: string, b: seq<string>, dir: string)
    ensures Kept([], dir) == []
    ensures Kept(a + [line] + b, dir)
         == Kept(a, dir)
            + (if Contains(line, "Applications (Osxie)") || Contains(line, dir) then [] else [line])
            + Kept(b, dir)
  {
    hide Contains;
    KeptAppend(a + [line], b, dir);
    KeptAppend(a, [line], dir);
    KeptOne(line, dir);
  }

  lemma {:induction false} NoneMentioned(lines: seq<string>, dir: string)
    requires forall i :: 0 <= i < |lines| ==> !Mentions(lines[i], dir)
    ensures Kept(lines, dir) == lines
    decreases |lines|
  {
    if lines != [] { NoneMentioned(lines[..|lines| - 1], dir); }
  }

  // ---------------------------------------------------------------- one marked line

  lemma EndsWithEntry(l: string, dir: string)
    ensures Contains(l + Entry(dir), MARKER)
    ensures (l + Entry(dir))[|l|..] == Entry(dir)
  {
    EntryMarked(dir);
    hide Entry;
    ContainsAfter(l, Entry(dir), MARKER);
  }

  /** Exactly one line carries the marker, it is the last line, and it ends
      with the entry. */
  predicate MarkedLast(lines: seq<string>, marker: string, e: string)
  {
    && lines != []
    && Contains(Last(lines), marker)
    && (forall i :: 0 <= i < |lines| - 1 ==> !Contains(lines[i], marker))
    && |e| <= |Last(lines)| && Last(lines)[|Last(lines)| - |e|..] == e
  }

  lemma MarkedAfterUpdate(file: Option<string>, dir: string)
    requires Plain(dir)
    ensures MarkedLast(LinesOf(Some(Rewritten(file, dir))), MARKER, Entry(dir))
  {
    var k := Kept(LinesOf(file), dir);
    hide Entry, Contains, EntryLines, LinesOf, Rewritten, Kept;
    LinesOfRewritten(file, dir);
    PlainEntryLines(dir);
    LinesOfFile(file);
    KeptListing(LinesOf(file), dir);
    EndsWithEntry("", dir);
    assert "" + Entry(dir) == Entry(dir);
    if !Closed(k) { EndsWithEntry(Last(k), dir); }
  }

  lemma OnlyPlainEntriesFit(file: Option<string>, dir: string)
    requires MarkedLast(LinesOf(file), MARKER, Entry(dir))
    ensures Plain(dir)
  {
    var l, e := Last(LinesOf(file)), Entry(dir);
    LinesOfFile(file);
    var n := |l| - |e|;
    assert forall i :: 0 <= i < |dir| ==> e[7 + i] == dir[i] && l[n..][7 + i] == dir[i];
    forall i | 0 <= i < |dir|
      ensures dir[i] != '\n' && dir[i] != '\r'
    {
      assert l[n + 7 + i] == dir[i];
      assert l[..|l| - 1][n + 7 + i] == dir[i];
    }
  }

  /** After any non-empty series of updates, starting from any file or none and
      with any directories before the last, the file has exactly one marked line,
      the last one, ending with the entry for the last directory, exactly when
      that directory's path has no line break in it. */
  lemma OneMarkedLineExactly(file: Option<string>, dirs: seq<string>)
    requires dirs != []
    ensures var dir := dirs[|dirs| - 1];
      MarkedLast(LinesOf(AfterUpdates(file, dirs)), "Applications (Osxie)", "file://" + dir + " Applications (Osxie)\n")
      <==> '\n' !in dir && '\r' !in dir
  {
    var dir, before := dirs[|dirs| - 1], AfterUpdates(file, dirs[..|dirs| - 1]);
    if Plain(dir) {
      MarkedAfterUpdate(before, dir);
    } else if MarkedLast(LinesOf(AfterUpdates(file, dirs)), MARKER, Entry(dir)) {
      OnlyPlainEntriesFit(AfterUpdates(file, dirs), dir);
    }
  }

  // ---------------------------------------------------------------- idempotence, exactly

  /** What a second update keeps of the lines the first one left. */
  function KeptAgain(k: seq<string>, more: seq<string>, dir: string): seq<string>
    requires more != []
  {
    if Closed(k) then k + Kept(more, dir) else AllButLast(k) + Kept([Last(k) + more[0]] + more[1..], dir)
  }

  lemma KeptOfRewritten(file: Option<string>, dir: string)
    ensures Kept(LinesOf(Some(Rewritten(file, dir))), dir)
         == KeptAgain(Kept(LinesOf(file), dir), EntryLines(dir), dir)
  {
    var k, more := Kept(LinesOf(file), dir), EntryLines(dir);
    LinesOfRewritten(file, dir);
    EntryLinesShape(dir);
    LinesOfFile(file);
    KeptListing(LinesOf(file), dir);
    hide Rewritten, LinesOf, Kept, EntryLines, Mentions, Listing;
    if Closed(k) {
      KeptAppend(k, more, dir);
      NoneMentioned(k, dir);
    } else {
      var a, b := AllButLast(k), [Last(k) + more[0]] + more[1..];
      assert a + [Last(k) + more[0]] + more[1..] == a + b;
      KeptAppend(a, b, dir);
      NoneMentioned(a, dir);
    }
  }

  lemma {:induction false} KeptTerminated(lines: seq<string>, dir: string)
    requires forall i :: 0 <= i < |lines| ==> Terminated(lines[i])
    ensures forall i :: 0 <= i < |Kept(lines, dir)| ==> Terminated(Kept(lines, dir)[i])
    decreases |lines|
  {
    if lines != [] { KeptTerminated(lines[..|lines| - 1], dir); }
  }

  /** Terminated lines end in a newline, and there is text where there are lines. */
  lemma TerminatedText(lines: seq<string>)
    requires forall i :: 0 <= i < |lines| ==> Terminated(lines[i])
    ensures Concat(lines) == "" <==> lines == []
    ensures lines != [] ==> Terminated(Concat(lines))
  {
    if lines != [] { LastOfConcat(lines); }
  }

  lemma SameMiddle(a: string, x: string, y: string, e: string)
    ensures a + x + e == a + y + e <==> x == y
  {
    if a + x + e == a + y + e {
      assert |x| == |y|;
      assert (a + x + e)[|a|..|a| + |x|] == x && (a + y + e)[|a|..|a| + |y|] == y;
    }
  }

  lemma SameText(a: seq<string>, x: seq<string>, y: seq<string>, e: string)
    ensures Concat(a + x + [e]) == Concat(a + y + [e]) <==> Concat(x) == Concat(y)
  {
    ConcatAppend(a + x, [e]);
    ConcatAppend(a, x);
    ConcatAppend(a + y, [e]);
    ConcatAppend(a, y);
    SameMiddle(Concat(a), Concat(x), Concat(y), Concat([e]));
  }

  /** The lines of the path, as it is read back after its scheme, that the
      path's own line breaks end. */
  function BrokenLines(dir: string): seq<string>
  {
    var lines := Lines(UniversalNewlines("file://" + dir));
    if Closed(lines) then lines else AllButLast(lines)
  }

  /** One line break, and that at the end. */
  predicate TrailingBreak(dir: string)
  {
    dir != "" && dir[|dir| - 1] == '\n' && Plain(dir[..|dir| - 1])
  }

  /** The next update drops all of the entry: the path's only line break is a
      newline at its end, or every line its breaks end has the marker in it (as
      when there is no break). */
  predicate EntryVanishes(dir: string)
  {
    || TrailingBreak(dir)
    || forall i :: 0 <= i < |BrokenLines(dir)| ==> Contains(BrokenLines(dir)[i], MARKER)
  }

  /** Reading a text with one more line at its end. */
  lemma LinesWithOneMore(a: string, b: string)
    requires OneLine(b) && Terminated(b) && '\r' !in b && b[0] != '\n'
    ensures Lines(UniversalNewlines(a + b)) == Glue(Lines(UniversalNewlines(a)), [b])
  {
    assert b != "";
    hide UniversalNewlines, Lines, OneLine, Terminated, Glue, Listing;
    var text := UniversalNewlines(a);
    ReadingSplits(a, b);
    ReadAsIs(b);
    LinesOfText(text);
    OneListing(b);
    GlueText(Lines(text), [b]);
    ConcatOne(b);
    GlueListing(Lines(text), [b]);
    LinesOfListing(Glue(Lines(text), [b]));
  }

  lemma OneListing(b: string)
    requires OneLine(b)
    ensures Listing([b])
  {}

  lemma MarkedTail(x: string)
    ensures Contains(x + " Applications (Osxie)\n", MARKER)
  {
    hide Contains;
    assert x + " Applications (Osxie)\n" == (x + " ") + MARKER + "\n";
    ContainsMiddle(x + " ", MARKER, "\n");
  }

  /** The entry is read back as those lines and one more, with the marker. */
  lemma EntrySplit(dir: string) returns (last: string)
    ensures EntryLines(dir) == BrokenLines(dir) + [last] && Contains(last, MARKER)
  {
    hide UniversalNewlines, Contains, Lines;
    var a, b := "file://" + dir, " Applications (Osxie)\n";
    assert Entry(dir) == a + b;
    assert OneLine(b) && Terminated(b) && '\r' !in b;
    LinesWithOneMore(a, b);
    hide OneLine, Terminated, Entry;
    var lines := Lines(UniversalNewlines(a));
    last := if Closed(lines) then "" + b else Last(lines) + b;
    assert "" + b == b;
    MarkedTail(if Closed(lines) then "" else Last(lines));
  }

  lemma {:induction false} KeptNone(lines: seq<string>, dir: string)
    ensures Kept(lines, dir) == [] <==> forall i :: 0 <= i < |lines| ==> Mentions(lines[i], dir)
    decreases |lines|
  {
    if lines != [] {
      var n := |lines| - 1;
      KeptNone(lines[..n], dir);
      assert forall i :: 0 <= i < n ==> lines[..n][i] == lines[i];
    }
  }

  lemma BrokenShape(dir: string)
    ensures forall i :: 0 <= i < |BrokenLines(dir)| ==> OneLine(BrokenLines(dir)[i]) && '\r' !in BrokenLines(dir)[i]
  {
    var text := UniversalNewlines("file://" + dir);
    hide UniversalNewlines, Lines;
    LinesOfText(text);
    ConcatCharsOf(Lines(text), '\r');
  }

  lemma PlainUnbroken(dir: string)
    requires Plain(dir)
    ensures BrokenLines(dir) == []
  {
    var a := "file://" + dir;
    assert OneLine(a) && !Terminated(a) && '\r' !in a;
    hide UniversalNewlines, Lines;
    ReadAsIs(a);
    ConcatOne(a);
    LinesOfListing([a]);
  }

  lemma TrailingBreakLines(dir: string)
    requires TrailingBreak(dir)
    ensures BrokenLines(dir) == ["file://" + dir] && Contains("file://" + dir, dir)
  {
    var p, a := dir[..|dir| - 1], "file://" + dir;
    assert a == ("file://" + p) + "\n";
    BreakFree("file://" + p);
    assert '\r' !in a;
    hide UniversalNewlines, Lines, Contains, OneLine, Terminated;
    ReadAsIs(a);
    ConcatOne(a);
    LinesOfListing([a]);
    assert a == "file://" + dir + "";
    ContainsMiddle("file://", dir, "");
  }

  /** No line contains a path that goes on after a line break. */
  lemma BrokenNeverContained(line: string, dir: string)
    requires OneLine(line) && '\r' !in line && !Plain(dir) && !TrailingBreak(dir)
    ensures !Contains(line, dir)
  {
    if '\r' in dir {
      if Contains(line, dir) { ContainsChars(line, dir, '\r'); }
    } else {
      var n :| 0 <= n < |dir| && dir[n] == '\n' && n + 1 < |dir|;
      NoBreakInside(line, dir, n);
    }
  }

  lemma VanishesExactly(dir: string)
    ensures Kept(EntryLines(dir), dir) == [] <==> EntryVanishes(dir)
  {
    hide EntryLines, BrokenLines, Contains;
    var broken := BrokenLines(dir);
    var last := EntrySplit(dir);
    KeptAppend(broken, [last], dir);
    KeptOne(last, dir);
    KeptNone(broken, dir);
    BrokenShape(dir);
    hide Kept;
    if TrailingBreak(dir) {
      TrailingBreakLines(dir);
    } else if Plain(dir) {
      PlainUnbroken(dir);
    } else {
      forall i | 0 <= i < |broken|
        ensures Mentions(broken[i], dir) <==> Contains(broken[i], MARKER)
      {
        BrokenNeverContained(broken[i], dir);
      }
    }
  }

  lemma PlainVanishes(dir: string)
    requires Plain(dir)
    ensures EntryVanishes(dir)
  {
    PlainUnbroken(dir);
  }

  /** The last line is not cut short, or it goes anyway. */
  predicate EndsSafely(lines: seq<string>, dir: string)
  {
    lines == [] || Terminated(Last(lines)) || Mentions(Last(lines), dir)
  }

  lemma KeptClosedExactly(lines: seq<string>, dir: string)
    requires Listing(lines)
    ensures Closed(Kept(lines, dir)) <==> EndsSafely(lines, dir)
  {
    if lines != [] {
      var a, l := AllButLast(lines), Last(lines);
      assert lines == a + [l];
      assert forall i :: 0 <= i < |a| ==> a[i] == lines[i];
      hide Terminated, Mentions;
      KeptAppend(a, [l], dir);
      KeptOne(l, dir);
      KeptTerminated(a, dir);
    }
  }

  /** Updating twice equals updating once, for any file and any directory,
      exactly when the file's last line ends in a newline or is dropped (or there
      is none), and the path's line breaks leave nothing behind that the next
      update keeps. */
  lemma IdempotentExactly(file: Option<string>, dir: string)
    ensures Rewritten(Some(Rewritten(file, dir)), dir) == Rewritten(file, dir)
       <==> EndsSafely(LinesOf(file), dir) && EntryVanishes(dir)
  {
    var k, more := Kept(LinesOf(file), dir), EntryLines(dir);
    hide LinesOf, Entry, Kept, Concat, EntryLines, Mentions, Listing, EntryVanishes, EndsSafely;
    KeptOfRewritten(file, dir);
    EntryLinesShape(dir);
    LinesOfFile(file);
    KeptListing(LinesOf(file), dir);
    KeptClosedExactly(LinesOf(file), dir);
    VanishesExactly(dir);
    if Closed(k) {
      var x := Kept(more, dir);
      KeptTerminated(more, dir);
      TerminatedText(x);
      SameText(k, x, [], Entry(dir));
      TerminatedText([]);
      assert k + [] == k;
    } else {
      LostLine(k, more, dir);
    }
  }

  /** Both halves can fail. A file that is one line without a newline: */
  lemma UnterminatedNotIdempotent()
    ensures !EndsSafely(LinesOf(Some("x")), "/a")
  {
    ReadAsIs("x");
    ConcatOne("x");
    assert OneLine("x");
    LinesOfListing(["x"]);
    if Contains("x", MARKER) { ContainsChars("x", MARKER, 'A'); }
    if Contains("x", "/a") { ContainsChars("x", "/a", '/'); }
    hide Contains, UniversalNewlines;
  }

  /** Any path with a line break inside it and no marker before the break: */
  lemma LineBreakNotIdempotent(p: string, q: string)
    requires Plain(p) && Plain(q) && q != "" && !Contains("file://" + p + "\n", MARKER)
    ensures !EntryVanishes(p + "\n" + q)
  {
    var dir, first, second := p + "\n" + q, "file://" + p + "\n", q + " Applications (Osxie)\n";
    hide Contains, EntryLines, EntryVanishes;
    BrokenEntry(p, q);
    BreakFree("file://" + p);
    assert dir[|p|] == '\n';
    NoBreakInside(first, dir, |p|);
    hide Plain, OneLine, Terminated;
    FirstIsKept(first, second, dir);
    VanishesExactly(dir);
  }

  lemma FirstIsKept(first: string, second: string, dir: string)
    requires !Mentions(first, dir)
    ensures Kept([first] + [second], dir) != []
  {
    KeptAppend([first], [second], dir);
    KeptOne(first, dir);
  }

  /** A line contains nothing that goes on after a newline. */
  lemma {:induction false} NoBreakInside(line: string, p: string, n: nat)
    requires line != "" ==> '\n' !in line[..|line| - 1]
    requires n + 1 < |p| && p[n] == '\n'
    ensures !Contains(line, p)
    decreases |line|
  {
    if n + 1 < |line| { assert line[n] == line[..|line| - 1][n]; }
    if line != "" {
      var rest := line[1..];
      if rest != "" { assert rest[..|rest| - 1] == line[..|line| - 1][1..]; }
      NoBreakInside(rest, p, n);
    }
  }

  lemma BrokenEntry(p: string, q: string)
    requires Plain(p) && Plain(q)
    ensures EntryLines(p + "\n" + q) == ["file://" + p + "\n"] + [q + " Applications (Osxie)\n"]
  {
    var dir, first, second := p + "\n" + q, "file://" + p + "\n", q + " Applications (Osxie)\n";
    hide UniversalNewlines, Lines;
    assert Entry(dir) == first + second;
    ReadAsIs(first + second);
    BreakFree("file://" + p);
    assert second == (q + " Applications (Osxie)") + "\n";
    BreakFree(q + " Applications (Osxie)");
    TwoLines(first, second);
  }

  lemma BreakFree(a: string)
    requires '\n' !in a
    ensures OneLine(a + "\n") && Terminated(a + "\n")
  {
    assert (a + "\n")[..|a|] == a;
  }

  lemma TwoLines(a: string, b: string)
    requires OneLine(a) && Terminated(a) && OneLine(b)
    ensures Lines(a + b) == [a] + [b]
  {
    ConcatAppend([a], [b]);
    ConcatOne(a);
    ConcatOne(b);
    LinesOfListing([a] + [b]);
  }

  lemma LostLine(k: seq<string>, more: seq<string>, dir: string)
    requires !Closed(k) && Listing(k) && more != []
    requires Listing(more) && forall i :: 0 <= i < |more| ==> Terminated(more[i])
    ensures Concat(KeptAgain(k, more, dir) + [Entry(dir)]) != Concat(k + [Entry(dir)])
  {
    var a, b, l := AllButLast(k), [Last(k) + more[0]] + more[1..], Last(k);
    MergedLine(l, more[0]);
    var x := Kept(b, dir);
    KeptTerminated(b, dir);
    TerminatedText(x);
    SameText(a, x, [l], Entry(dir));
    ConcatOne(l);
    assert l != "" && !Terminated(l);
    assert k == a + [l];
  }

  // ---------------------------------------------------------------- whole series

  predicate MentionsAny(line: string, dirs: seq<string>)
  {
    Contains(line, MARKER) || exists i :: 0 <= i < |dirs| && Contains(line, dirs[i])
  }

  /** The lines that mention neither the marker nor any of the directories, in
      their original order. */
  function Untouched(lines: seq<string>, dirs: seq<string>): seq<string>
  {
    if lines == [] then []
    else Untouched(lines[..|lines| - 1], dirs)
         + if MentionsAny(lines[|lines| - 1], dirs) then [] else [lines[|lines| - 1]]
  }

  lemma {:induction false} KeptUntouched(lines: seq<string>, dirs: seq<string>, dir: string)
    ensures Kept(Untouched(lines, dirs), dir) == Untouched(lines, dirs + [dir])
    decreases |lines|
  {
    if lines != [] {
      var front, l := lines[..|lines| - 1], lines[|lines| - 1];
      KeptUntouched(front, dirs, dir);
      MentionsOneMore(l, dirs, dir);
      if MentionsAny(l, dirs) {
        assert Untouched(front, dirs) + [] == Untouched(front, dirs);
      } else {
        KeptAppend(Untouched(front, dirs), [l], dir);
        KeptOne(l, dir);
      }
    }
  }

  /** Which lines a series leaves alone, where they stood. */
  lemma {:induction false} LeavesExactly(a: seq<string>, line: string, b: seq<string>, dirs: seq<string>)
    ensures Untouched([], dirs) == []
    ensures Untouched(a + [line] + b, dirs)
         == Untouched(a, dirs)
            + (if Contains(line, "Applications (Osxie)") || exists i :: 0 <= i < |dirs| && Contains(line, dirs[i])
               then [] else [line])
            + Untouched(b, dirs)
    decreases |b|
  {
    hide Contains;
    var lines := a + [line] + b;
    if b == [] {
      assert lines[..|lines| - 1] == a;
    } else {
      assert lines[..|lines| - 1] == a + [line] + b[..|b| - 1];
      LeavesExactly(a, line, b[..|b| - 1], dirs);
    }
  }

  lemma MentionsOneMore(l: string, dirs: seq<string>, dir: string)
    ensures MentionsAny(l, dirs + [dir]) <==> MentionsAny(l, dirs) || Mentions(l, dir)
  {
    var all := dirs + [dir];
    assert all[|dirs|] == dir;
    assert forall i :: 0 <= i < |dirs| ==> all[i] == dirs[i];
  }

  lemma {:induction false} UntouchedTerminated(lines: seq<string>, dirs: seq<string>)
    requires forall i :: 0 <= i < |lines| ==> Terminated(lines[i])
    ensures forall i :: 0 <= i < |Untouched(lines, dirs)| ==> Terminated(Untouched(lines, dirs)[i])
    decreases |lines|
  {
    if lines != [] { UntouchedTerminated(lines[..|lines| - 1], dirs); }
  }

  lemma {:induction false} KeptFirst(lines: seq<string>, dir: string)
    ensures Kept(lines, dir) == Untouched(lines, [dir])
    decreases |lines|
  {
    if lines != [] {
      KeptFirst(lines[..|lines| - 1], dir);
      assert [dir][0] == dir;
    }
  }

  /** The lines to begin with that end in a newline, and the last one if it
      does not. */
  function Body(file: Option<string>): seq<string>
  {
    var lines := LinesOf(file);
    if Closed(lines) then lines else AllButLast(lines)
  }

  function Stub(file: Option<string>): seq<string>
  {
    var lines := LinesOf(file);
    if Closed(lines) then [] else [Last(lines)]
  }

  /** What follows the untouched lines after a series of updates: the last
      entry, as it is read back, glued to what is left of a last line without a
      newline and of earlier entries. */
  function Tail(stub: seq<string>, dirs: seq<string>): seq<string>
    decreases |dirs|
  {
    if dirs == [] then stub
    else Glue(Kept(Tail(stub, dirs[..|dirs| - 1]), dirs[|dirs| - 1]), EntryLines(dirs[|dirs| - 1]))
  }

  lemma GlueAfter(u: seq<string>, k: seq<string>, more: seq<string>)
    requires more != [] && forall i :: 0 <= i < |u| ==> Terminated(u[i])
    ensures Glue(u + k, more) == u + Glue(k, more)
  {
    if k == [] {
      assert u + k == u && k + more == more;
    } else if Closed(k) {
      assert Last(u + k) == Last(k);
      Reassociate(u, k, more);
    } else {
      var a, x, r := AllButLast(k), [Last(k) + more[0]], more[1..];
      assert Last(u + k) == Last(k) && AllButLast(u + k) == u + a;
      hide Terminated, Closed, AllButLast;
      Reassociate(u, a, x);
      Reassociate(u, a + x, r);
    }
  }

  lemma Reassociate(a: seq<string>, b: seq<string>, c: seq<string>)
    ensures a + b + c == a + (b + c)
  {}

  lemma BodyAndStub(file: Option<string>)
    ensures LinesOf(file) == Body(file) + Stub(file)
    ensures forall i :: 0 <= i < |Body(file)| ==> Terminated(Body(file)[i])
    ensures |Stub(file)| <= 1 && (Stub(file) != [] ==> !Closed(Stub(file)))
  {
    LinesOfFile(file);
    hide LinesOf;
  }

  /** What the last update of a series keeps. */
  lemma {:induction false} KeptInSeries(file: Option<string>, ds: seq<string>, dir: string)
    ensures Kept(LinesOf(AfterUpdates(file, ds)), dir)
         == Untouched(Body(file), ds + [dir]) + Kept(Tail(Stub(file), ds), dir)
    decreases |ds|, 1
  {
    var body, stub := Body(file), Stub(file);
    if ds == [] {
      BodyAndStub(file);
      KeptFirst(body, dir);
      KeptAppend(body, stub, dir);
      assert ds + [dir] == [dir];
    } else {
      var front, d := ds[..|ds| - 1], ds[|ds| - 1];
      assert ds == front + [d];
      SeriesOfUpdates(file, front, d);
      hide LinesOf, AfterUpdates, Untouched, Kept, Tail;
      KeptAppend(Untouched(body, ds), Tail(stub, ds), dir);
      KeptUntouched(body, ds, dir);
    }
  }

  /** Whole series of updates, for any file and any directories: the file ends
      up with exactly the lines that mention neither the marker nor any of the
      directories, in their original order; then what the last update keeps of a
      last line without a newline and of earlier entries; then the entry for the
      last directory. */
  lemma {:induction false} SeriesOfUpdates(file: Option<string>, ds: seq<string>, dir: string)
    ensures AfterUpdates(file, ds + [dir])
         == Some(Concat(Untouched(Body(file), ds + [dir]) + Kept(Tail(Stub(file), ds), dir)
                        + ["file://" + dir + " Applications (Osxie)\n"]))
    ensures LinesOf(AfterUpdates(file, ds + [dir])) == Untouched(Body(file), ds + [dir]) + Tail(Stub(file), ds + [dir])
    decreases |ds|, 2
  {
    var dirs, body, stub := ds + [dir], Body(file), Stub(file);
    assert dirs[..|dirs| - 1] == ds && dirs[|dirs| - 1] == dir;
    KeptInSeries(file, ds, dir);
    BodyAndStub(file);
    UntouchedTerminated(body, dirs);
    LinesOfRewritten(AfterUpdates(file, ds), dir);
    GlueAfter(Untouched(body, dirs), Kept(Tail(stub, ds), dir), EntryLines(dir));
    hide LinesOf, Entry, EntryLines, Untouched, Kept, Concat, Glue, Body, Stub;
  }

  predicate AllPlain(dirs: seq<string>) { forall i :: 0 <= i < |dirs| ==> Plain(dirs[i]) }

  /** Updates for directories without line breaks leave one line after the
      untouched ones, and the next update drops it. */
  lemma {:induction false} PlainTail(stub: seq<string>, dirs: seq<string>)
    requires dirs != [] && AllPlain(dirs) && |stub| <= 1 && (stub != [] ==> !Closed(stub))
    ensures |Tail(stub, dirs)| == 1 && Contains(Tail(stub, dirs)[0], MARKER)
    decreases |dirs|
  {
    var front, d := dirs[..|dirs| - 1], dirs[|dirs| - 1];
    var t := Tail(stub, front);
    PlainEntryLines(d);
    if front == [] {
      PlainTailOne(stub, d);
    } else {
      assert AllPlain(front);
      PlainTail(stub, front);
      hide Contains, Entry, EntryLines, Plain, Tail;
      PlainTailMore(t, d);
    }
  }

  lemma PlainTailOne(stub: seq<string>, dir: string)
    requires |stub| <= 1 && (stub != [] ==> !Closed(stub))
    ensures var t := Glue(Kept(stub, dir), [Entry(dir)]); |t| == 1 && Contains(t[0], MARKER)
  {
    hide Contains, Entry;
    EntryMarked(dir);
    if stub != [] {
      assert stub == [stub[0]];
      KeptOne(stub[0], dir);
      EndsWithEntry(stub[0], dir);
    }
  }

  lemma PlainTailMore(t: seq<string>, dir: string)
    requires |t| == 1 && Contains(t[0], MARKER)
    ensures Kept(t, dir) == [] && Glue(Kept(t, dir), [Entry(dir)]) == [Entry(dir)] && Contains(Entry(dir), MARKER)
  {
    hide Contains, Entry;
    assert t == [t[0]];
    KeptOne(t[0], dir);
    EntryMarked(dir);
  }

  /** The ordinary series, from any file: with no line breaks in the earlier
      directories' paths nothing of earlier entries is left. A last line without
      a newline outlives one update (unless it mentions the marker or the
      directory) and never two. */
  lemma SeriesOfPlainUpdates(file: Option<string>, ds: seq<string>, dir: string)
    requires AllPlain(ds)
    ensures AfterUpdates(file, ds + [dir])
         == Some(Concat(Untouched(Body(file), ds + [dir]) + (if ds == [] then Kept(Stub(file), dir) else [])
                        + ["file://" + dir + " Applications (Osxie)\n"]))
  {
    hide LinesOf, Entry, EntryLines, Untouched, Concat, Contains, Glue, AfterUpdates, Body, Stub, Kept, Closed;
    SeriesOfUpdates(file, ds, dir);
    if ds == [] {
      assert Tail(Stub(file), ds) == Stub(file);
    } else {
      hide Tail;
      BodyAndStub(file);
      PlainTail(Stub(file), ds);
      PlainTailMore(Tail(Stub(file), ds), dir);
    }
  }
}
