/** The block the script inserts into the places file, and how it reads. */
module PlaceBlock {
  import opened Wrappers
  import opened Markup
  import opened TextFiles

  const TITLE_LINE: string := "        <title>" + "Applications (Osxie)" + "</title>\n"
  const INFO_LINE: string := "        <info>\n"
  const METADATA_LINE: string := "            <metadata" + " owner=\"" + "http://freedesktop.org" + "\">\n"
  const ICON_LINE: string := "                <bookmark:icon" + " name=\"" + "applications-system" + "\"/>\n"
  const METADATA_END: string := "            </metadata>\n"
  const INFO_END: string := "        </info>\n"
  const BOOKMARK_END: string := "    </bookmark>\n"

  function BookmarkLine(dir: string): string
  {
    "    <bookmark" + " href=\"" + ("file://" + dir) + "\">\n"
  }

  /** The block that is inserted. */
  function NewPlace(dir: string): string
  {
    BookmarkLine(dir) + TITLE_LINE + INFO_LINE + METADATA_LINE + ICON_LINE + METADATA_END + INFO_END + BOOKMARK_END
  }

  // ---------------------------------------------------------------- line by line

  function FromInfoEnd(): string { INFO_END + BOOKMARK_END }
  function FromMetadataEnd(): string { METADATA_END + FromInfoEnd() }
  function FromIcon(): string { ICON_LINE + FromMetadataEnd() }
  function FromMetadata(): string { METADATA_LINE + FromIcon() }
  function FromInfo(): string { INFO_LINE + FromMetadata() }
  function FromTitle(): string { TITLE_LINE + FromInfo() }

  lemma ByLines(dir: string)
    ensures NewPlace(dir) == BookmarkLine(dir) + FromTitle()
  {
    var a := BookmarkLine(dir);
    hide BookmarkLine;
    ByLinesFrom(a, TITLE_LINE, INFO_LINE, METADATA_LINE, ICON_LINE, METADATA_END, INFO_END, BOOKMARK_END);
  }

  lemma ByLinesFrom(a: string, b: string, c: string, d: string, e: string, f: string, g: string, h: string)
    ensures a + b + c + d + e + f + g + h == a + (b + (c + (d + (e + (f + (g + h))))))
  {
    Regroup(a + b + c + d + e + f, g, h);
    Regroup(a + b + c + d + e, f, g + h);
    Regroup(a + b + c + d, e, f + (g + h));
    Regroup(a + b + c, d, e + (f + (g + h)));
    Regroup(a + b, c, d + (e + (f + (g + h))));
    Regroup(a, b, c + (d + (e + (f + (g + h)))));
  }

  lemma MarkLine(gap: string, body: string, x: string)
    ensures (gap + "<" + body + ">" + "\n") + x == Mark(gap, body, "\n" + x)
  {
    var s := gap + "<" + body;
    Regroup(s + ">", "\n", x);
    Regroup(s, ">", "\n" + x);
    Regroup(gap + "<", body, ">" + ("\n" + x));
    Regroup(gap, "<", body + (">" + ("\n" + x)));
  }

  /** A line with one tag without attributes. */
  lemma ReadLine(gap: string, body: string, line: string, x: string)
    requires line == gap + "<" + body + ">" + "\n" && '<' !in gap && Ordinary(body)
    ensures Tags(line + x) == match Tags(x) case None => None case Some(tags) => Some([TagOf(body)] + tags)
  {
    MarkLine(gap, body, x);
    PlainLength(body, "\n" + x);
    ReadMark(gap, body, "\n" + x);
    SkipText("\n", x);
  }

  function AttributeBody(name: string, key: string, v: string, end: string): string
  {
    (name + (" " + key)) + "\"" + v + "\"" + end
  }

  lemma AttributeTag(name: string, key: string, v: string, end: string)
    requires name != "" && ' ' !in name && name[0] != '/' && (end == "" || end == "/")
    ensures TagOf(AttributeBody(name, key, v, end)) == if end == "" then Opening(name) else Empty(name)
  {
    var rest := key + "\"" + v + "\"";
    var front := AttributeBody(name, key, v, "");
    assert front == name + (" " + rest);
    WordBefore(name, rest);
    if end == "" {
      assert front[|front| - 1] == '"';
    } else {
      assert AttributeBody(name, key, v, end) == front + "/";
      assert (front + "/")[..|front|] == front;
    }
  }

  lemma AttributeLine(gap: string, name: string, key: string, v: string, end: string)
    ensures (gap + "<" + name) + (" " + key + "\"") + v + ("\"" + end + ">" + "\n")
         == gap + "<" + AttributeBody(name, key, v, end) + ">" + "\n"
  {
    var q := "\"";
    Regroup(gap + "<", name, " " + key + q);
    Regroup(name, " " + key, q);
    var open := name + (" " + key) + q;
    Regroup(gap + "<", open, v);
    var front := gap + "<";
    Regroup(front, open + v, q + end + ">" + "\n");
    Regroup(open + v, q + end + ">", "\n");
    Regroup(open + v, q + end, ">");
    Regroup(open + v, q, end);
    var body := open + v + q + end;
    Regroup(front, body + ">", "\n");
    Regroup(front, body, ">");
    Regroup(front + body, ">", "\n");
  }

  /** A line with one tag with an attribute. */
  lemma ReadAttributeLine(gap: string, name: string, key: string, v: string, end: string, line: string, x: string)
    requires line == gap + "<" + AttributeBody(name, key, v, end) + ">" + "\n"
    requires '<' !in gap && Ordinary(name) && Ordinary(key) && Ordinary(end) && '<' !in v && '"' !in v
    ensures Tags(line + x)
         == match Tags(x) case None => None case Some(tags) => Some([TagOf(AttributeBody(name, key, v, end))] + tags)
  {
    var body := AttributeBody(name, key, v, end);
    MarkLine(gap, body, x);
    AttributeLength(name + (" " + key), v, end, "\n" + x);
    hide TagOf;
    ReadMark(gap, body, "\n" + x);
    SkipText("\n", x);
  }

  // ---------------------------------------------------------------- the block's tags

  const END_TAGS: seq<Tag> := [Closing("metadata")] + ([Closing("info")] + [Closing("bookmark")])
  const ICON_TAGS: seq<Tag> := [Empty("bookmark:icon")] + END_TAGS
  const METADATA_TAGS: seq<Tag> := [Opening("metadata")] + ICON_TAGS
  const INFO_TAGS: seq<Tag> := [Opening("info")] + METADATA_TAGS
  const TITLE_TAGS: seq<Tag> := [Opening("title")] + ([Closing("title")] + INFO_TAGS)

  /** A line with just a closing tag. */
  lemma ReadEndLine(gap: string, name: string, line: string, x: string)
    requires line == gap + "<" + ("/" + name) + ">" + "\n" && '<' !in gap && Ordinary(name)
    ensures Tags(line + x) == match Tags(x) case None => None case Some(tags) => Some([Closing(name)] + tags)
  {
    hide Tags;
    ReadLine(gap, "/" + name, line, x);
    assert ("/" + name)[1..] == name;
  }

  /** A line with just an opening tag. */
  lemma ReadOpenLine(gap: string, name: string, line: string, x: string)
    requires line == gap + "<" + name + ">" + "\n" && '<' !in gap && Ordinary(name)
    requires name != "" && ' ' !in name && '/' !in name
    ensures Tags(line + x) == match Tags(x) case None => None case Some(tags) => Some([Opening(name)] + tags)
  {
    hide Tags;
    ReadLine(gap, name, line, x);
    WordBefore(name, "");
  }

  lemma BookmarkEndTags()
    ensures Tags(BOOKMARK_END) == Some([Closing("bookmark")])
  {
    assert Tags("") == Some([]);
    hide Tags;
    assert BOOKMARK_END == "    " + "<" + ("/" + "bookmark") + ">" + "\n";
    ReadEndLine("    ", "bookmark", BOOKMARK_END, "");
    assert BOOKMARK_END + "" == BOOKMARK_END;
    assert [Closing("bookmark")] + [] == [Closing("bookmark")];
  }

  lemma InfoEndTags()
    ensures Tags(FromInfoEnd()) == Some([Closing("info")] + [Closing("bookmark")])
  {
    hide Tags;
    BookmarkEndTags();
    assert INFO_END == "        " + "<" + ("/" + "info") + ">" + "\n";
    ReadEndLine("        ", "info", INFO_END, BOOKMARK_END);
  }

  lemma MetadataEndTags()
    ensures Tags(FromMetadataEnd()) == Some(END_TAGS)
  {
    hide Tags;
    InfoEndTags();
    assert METADATA_END == "            " + "<" + ("/" + "metadata") + ">" + "\n";
    ReadEndLine("            ", "metadata", METADATA_END, FromInfoEnd());
  }

  lemma IconLineText()
    ensures ICON_LINE == "                " + "<" + AttributeBody("bookmark:icon", "name=", "applications-system", "/") + ">" + "\n"
  {
    assert "                <bookmark:icon" == "                " + "<" + "bookmark:icon";
    assert " name=\"" == " " + "name=" + "\"" && "\"/>\n" == "\"" + "/" + ">" + "\n";
    AttributeLine("                ", "bookmark:icon", "name=", "applications-system", "/");
    hide AttributeBody;
  }

  lemma ReadIconLine(x: string)
    ensures var body := AttributeBody("bookmark:icon", "name=", "applications-system", "/");
      Tags(ICON_LINE + x) == match Tags(x) case None => None case Some(tags) => Some([TagOf(body)] + tags)
  {
    hide Tags, TagOf, AttributeBody;
    IconLineText();
    ReadAttributeLine("                ", "bookmark:icon", "name=", "applications-system", "/", ICON_LINE, x);
  }

  lemma IconTags()
    ensures Tags(FromIcon()) == Some(ICON_TAGS)
  {
    hide Tags, TagOf, AttributeBody, FromMetadataEnd;
    ReadIconLine(FromMetadataEnd());
    AttributeTag("bookmark:icon", "name=", "applications-system", "/");
    MetadataEndTags();
  }

  lemma MetadataLineText()
    ensures METADATA_LINE == "            " + "<" + AttributeBody("metadata", "owner=", "http://freedesktop.org", "") + ">" + "\n"
  {
    assert "            <metadata" == "            " + "<" + "metadata";
    assert " owner=\"" == " " + "owner=" + "\"" && "\">\n" == "\"" + "" + ">" + "\n";
    AttributeLine("            ", "metadata", "owner=", "http://freedesktop.org", "");
    hide AttributeBody;
  }

  lemma MetadataTags()
    ensures Tags(FromMetadata()) == Some(METADATA_TAGS)
  {
    hide Tags, TagOf, AttributeBody, FromIcon;
    MetadataLineText();
    AttributeTag("metadata", "owner=", "http://freedesktop.org", "");
    IconTags();
    ReadAttributeLine("            ", "metadata", "owner=", "http://freedesktop.org", "", METADATA_LINE, FromIcon());
  }

  lemma InfoTags()
    ensures Tags(FromInfo()) == Some(INFO_TAGS)
  {
    hide Tags, FromMetadata;
    MetadataTags();
    assert INFO_LINE == "        " + "<" + "info" + ">" + "\n";
    ReadOpenLine("        ", "info", INFO_LINE, FromMetadata());
  }

  lemma TitleTags()
    ensures Tags(FromTitle()) == Some(TITLE_TAGS)
  {
    hide Tags, FromInfo;
    InfoTags();
    assert "        <title>" == "        " + "<" + "title" + ">";
    assert "</title>\n" == "" + "<" + ("/" + "title") + ">" + "\n";
    ReadTextLine("        ", "title", "Applications (Osxie)", "        <title>", "</title>\n", FromInfo());
  }

  /** A line with text between an opening and a closing tag. */
  lemma ReadTextLine(gap: string, name: string, text: string, a: string, c: string, x: string)
    requires a == gap + "<" + name + ">" && c == "" + "<" + ("/" + name) + ">" + "\n"
    requires '<' !in gap && '<' !in text && Ordinary(name) && name != "" && ' ' !in name && '/' !in name
    ensures Tags((a + text + c) + x)
         == match Tags(x) case None => None case Some(tags) => Some([Opening(name)] + ([Closing(name)] + tags))
  {
    hide Tags;
    Regroup(a + text, c, x);
    Regroup(a, text, c + x);
    ReadEndLine("", name, c, x);
    var rest := text + (c + x);
    SkipText(text, c + x);
    MarkStart(gap, name, rest);
    PlainLength(name, rest);
    ReadMark(gap, name, rest);
    WordBefore(name, "");
  }

  lemma MarkStart(gap: string, body: string, rest: string)
    ensures (gap + "<" + body + ">") + rest == Mark(gap, body, rest)
  {
    Regroup(gap + "<" + body, ">", rest);
    Regroup(gap + "<", body, ">" + rest);
    Regroup(gap, "<", body + (">" + rest));
  }

  lemma BookmarkLineText(dir: string)
    ensures BookmarkLine(dir) == "    " + "<" + AttributeBody("bookmark", "href=", "file://" + dir, "") + ">" + "\n"
  {
    assert "    <bookmark" == "    " + "<" + "bookmark";
    assert " href=\"" == " " + "href=" + "\"" && "\">\n" == "\"" + "" + ">" + "\n";
    AttributeLine("    ", "bookmark", "href=", "file://" + dir, "");
  }

  lemma Display(a: Tag, b: Tag, c: Tag, d: Tag, e: Tag, f: Tag, g: Tag, h: Tag, i: Tag)
    ensures [a] + ([b] + ([c] + ([d] + ([e] + ([f] + ([g] + ([h] + [i]))))))) == [a, b, c, d, e, f, g, h, i]
  {}

  /** The tags of the inserted block, for a path that can stand in an attribute. */
  lemma BlockTags(dir: string)
    requires '<' !in dir && '"' !in dir
    ensures Tags(NewPlace(dir))
         == Some([Opening("bookmark"), Opening("title"), Closing("title"), Opening("info"), Opening("metadata"),
                  Empty("bookmark:icon"), Closing("metadata"), Closing("info"), Closing("bookmark")])
  {
    hide Tags, TagOf, NewPlace, BookmarkLine, FromTitle, AttributeBody;
    ByLines(dir);
    BookmarkLineText(dir);
    AttributeTag("bookmark", "href=", "file://" + dir, "");
    TitleTags();
    ReadAttributeLine("    ", "bookmark", "href=", "file://" + dir, "", BookmarkLine(dir), FromTitle());
    Display(Opening("bookmark"), Opening("title"), Closing("title"), Opening("info"), Opening("metadata"),
            Empty("bookmark:icon"), Closing("metadata"), Closing("info"), Closing("bookmark"));
  }

  // nesting is built up from the inside

  lemma NestsClosing(name: string, tags: seq<Tag>, open: seq<string>)
    requires tags != [] && open != [] && Nested(tags, open)
    ensures Nested([Closing(name)] + tags, [name] + open)
  {
    assert ([Closing(name)] + tags)[1..] == tags && ([name] + open)[1..] == open;
  }

  lemma NestsEmpty(name: string, tags: seq<Tag>, open: seq<string>)
    requires open != [] && Nested(tags, open)
    ensures Nested([Empty(name)] + tags, open)
  {
    assert ([Empty(name)] + tags)[1..] == tags;
  }

  lemma NestsOpening(name: string, tags: seq<Tag>, open: seq<string>)
    requires Nested(tags, [name] + open)
    ensures Nested([Opening(name)] + tags, open)
  {
    assert ([Opening(name)] + tags)[1..] == tags;
  }

  lemma NestsLast(name: string)
    ensures Nested([Closing(name)], [name] + [])
  {
    assert [Closing(name)][1..] == [] && ([name] + [])[1..] == [];
    assert Nested([], []);
  }

  lemma BlockNests()
    ensures Nested([Opening("bookmark")] + TITLE_TAGS, [])
  {
    hide Nested;
    var bookmark := ["bookmark"] + [];
    var info := ["info"] + bookmark;
    NestsLast("bookmark");
    NestsClosing("info", [Closing("bookmark")], bookmark);
    NestsClosing("metadata", [Closing("info")] + [Closing("bookmark")], info);
    NestsEmpty("bookmark:icon", END_TAGS, ["metadata"] + info);
    NestsOpening("metadata", ICON_TAGS, info);
    NestsOpening("info", METADATA_TAGS, bookmark);
    NestsClosing("title", INFO_TAGS, bookmark);
    NestsOpening("title", [Closing("title")] + INFO_TAGS, bookmark);
    NestsOpening("bookmark", TITLE_TAGS, []);
  }

  // ---------------------------------------------------------------- read back, exactly

  lemma HrefFound(dir: string)
    ensures AttributeValue(NewPlace(dir), "href=\"") == Some(UpToQuote(("file://" + dir) + ("\"" + (">\n" + FromTitle()))))
  {
    hide AttributeValue, UpToQuote, FromTitle;
    ByLines(dir);
    var a, key, v, x := "    <bookmark ", "href=\"", "file://" + dir, FromTitle();
    assert "    <bookmark" + " href=\"" == a + key && "\">\n" == "\"" + ">\n";
    Regroup(a + key, v, "\"" + ">\n");
    Regroup(a + key, v + ("\"" + ">\n"), x);
    Regroup(v, "\"" + ">\n", x);
    Regroup("\"", ">\n", x);
    Regroup(a, key, v + ("\"" + (">\n" + x)));
    ValueFound(a, key, v + ("\"" + (">\n" + x)));
  }

  /** The block up to the path and from there on. */
  lemma AroundThePath(dir: string)
    ensures NewPlace(dir) == "    " + ("<" + ("bookmark href=" + ("\"" + (("file://" + dir) + ("\">\n" + FromTitle())))))
  {
    hide FromTitle;
    ByLines(dir);
    hide NewPlace;
    assert "    <bookmark" + " href=\"" == "    " + ("<" + ("bookmark href=" + "\""));
    FiveParts("    ", "<", "bookmark href=", "\"", "file://" + dir, "\">\n", FromTitle());
  }

  lemma FiveParts(a: string, b: string, c: string, d: string, v: string, e: string, x: string)
    ensures ((a + (b + (c + d))) + v + e) + x == a + (b + (c + (d + (v + (e + x)))))
  {
    var front := a + (b + (c + d));
    Regroup(front + v, e, x);
    Regroup(front, v, e + x);
    Regroup(a, b + (c + d), v + (e + x));
    Regroup(b, c + d, v + (e + x));
    Regroup(c, d, v + (e + x));
  }

  lemma BrokenBlock(dir: string)
    requires '<' in dir && '"' !in dir
    ensures Tags(NewPlace(dir)) == None
  {
    hide Tags, NewPlace, FromTitle;
    AroundThePath(dir);
    var a, v, rest := "bookmark href=", "file://" + dir, "\">\n" + FromTitle();
    BrokenAttribute(a, v, rest);
    SpoiledMark("    ", a + ("\"" + (v + rest)));
  }

  /** A reader of the block finds one element, and in its href the directory,
      exactly when the directory's path has no double quote and no `<` in it: the
      script puts the path in as it stands. */
  lemma ReadsBackExactly(dir: string)
    ensures AttributeValue(NewPlace(dir), "href=\"") == Some("file://" + dir) && OneElement(NewPlace(dir))
       <==> '"' !in dir && '<' !in dir
  {
    hide AttributeValue, UpToQuote, NewPlace, Tags, Nested;
    HrefFound(dir);
    ValueExactly("file://" + dir, ">\n" + FromTitle());
    if '"' !in dir {
      if '<' in dir {
        BrokenBlock(dir);
      } else {
        BlockTags(dir);
        BlockNests();
        Display(Opening("bookmark"), Opening("title"), Closing("title"), Opening("info"), Opening("metadata"),
                Empty("bookmark:icon"), Closing("metadata"), Closing("info"), Closing("bookmark"));
      }
    }
  }
}
