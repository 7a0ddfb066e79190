/** Whole-pipeline behaviour of commitizen/changelog.py on changelogs laid
    out like the module's own docstring: lines, then version blocks, then
    trees. */
module Scenarios {
  import opened Wrappers
  import opened Text
  import opened Patterns
  import opened Categories
  import opened Blocks
  import opened Tree

  /** A line of text as a file holds it between its line ends: not empty,
      and no '\n' at either end. */
  predicate IsTextLine(l: string)
  {
    l != [] && l[0] != '\n' && l[|l| - 1] != '\n'
  }

  /** The lines of a file holding the text lines `b`, each with its line
      end and each followed by a blank line. */
  function Page(b: seq<string>): (f: seq<string>)
    ensures |f| == 2 * |b|
  {
    if b == [] then [] else Page(b[..|b| - 1]) + [b[|b| - 1] + "\n", "\n"]
  }

  /** `strip("\n")` turns a blank line into the empty string. */
  lemma BlankLine()
    ensures StripNewlines("\n") == ""
  {
    StripLineEnd("");
    assert "" + "\n" == "\n";
  }

  /** A text line with its line end, after the lines `p`, is kept. */
  lemma {:induction false} KeepsLine(f: seq<string>, p: seq<string>, x: string)
    requires |f| >= 2 && f[..|f| - 2] == p && f[|f| - 2] == x + "\n" && IsTextLine(x)
    ensures Cleaned(f[..|f| - 1]) == Cleaned(p) + [x]
  {
    StripLineEnd(x);
    CleanedSnoc(f, |f| - 2);
  }

  /** A trailing blank line is dropped. */
  lemma {:induction false} DropsBlank(f: seq<string>)
    requires |f| >= 1 && f[|f| - 1] == "\n"
    ensures Cleaned(f) == Cleaned(f[..|f| - 1])
  {
    BlankLine();
    CleanedSnoc(f, |f| - 1);
    assert f[..|f|] == f;
  }

  lemma {:induction false} PageStep(init: seq<string>, x: string)
    requires IsTextLine(x)
    ensures Cleaned(Page(init + [x])) == Cleaned(Page(init)) + [x]
  {
    var f := Page(init + [x]);
    assert f == Page(init) + [x + "\n", "\n"] by {
      assert (init + [x])[..|init|] == init;
    }
    KeepsLine(f, Page(init), x);
    DropsBlank(f);
  }

  /** The segmenter keeps exactly the text lines of such a file: the blank
      lines vanish and the line ends are stripped. */
  lemma {:induction false} PageKept(b: seq<string>)
    requires forall k :: 0 <= k < |b| ==> IsTextLine(b[k])
    ensures Cleaned(Page(b)) == b
  {
    if b != [] {
      var init, x := b[..|b| - 1], b[|b| - 1];
      assert init + [x] == b;
      PageKept(init);
      PageStep(init, x);
    }
  }

  /** A file holding one release section (a "## " line and no other) is
      segmented into exactly one block: that section. */
  lemma SingleSection(b: seq<string>, blocks: seq<seq<string>>)
    requires forall k :: 0 <= k < |b| ==> IsTextLine(b[k])
    requires b != [] && IsVersionHeader(b[0]) && HeaderOnlyFirst(b)
    ensures IsVersionBlocks(Page(b), blocks) <==> blocks == [b]
  {
    PageKept(b);
    SingleBlock(b, blocks);
  }

  lemma RunAppend(block: seq<string>, line: string)
    ensures Run(block + [line])
            == match Run(block) case Err(e) => Err(e) case Ok(st) => Step(st, line)
  {
    assert (block + [line])[..|block|] == block;
  }

  /** A dated version header sets the header and clears the change type. */
  lemma {:induction false} VersionStep(st: Scan, version: string, date: string)
    requires version != [] && AllIn(version, VersionChars)
    requires date != [] && AllIn(date, DateChars)
    ensures Step(st, "## " + version + " (" + date + ")")
            == Ok(Scan(st.tree.(header := Some(VersionFields(version, Some(date)))), None))
  {
    VersionHeaderRoundTrip(version, date, "");
    assert "## " + version + " (" + date + ")" + "" == "## " + version + " (" + date + ")";
  }

  /** A heading in the table sets the change type it normalises to. */
  lemma {:induction false} HeadingStep(st: Scan, heading: string, changeType: string)
    requires heading != [] && AllIn(heading, ChangeTypeChars)
    requires Normalize(heading) == Ok(changeType)
    ensures Step(st, "### " + heading) == Ok(st.(changeType := Some(changeType)))
  {
    ChangeTypeRoundTrip(heading, "");
    assert "### " + heading + "" == "### " + heading;
    assert ("### " + heading)[2] == '#';
  }

  /** An unscoped entry is appended under the change type in force. */
  lemma {:induction false} EntryStep(st: Scan, message: string)
    requires message != [] && AllIn(message, MessageChars) && message[0] != '*'
    ensures Step(st, "- " + message)
            == Ok(st.(tree := st.tree.(commits := st.tree.commits
                        + [Commit(Some(MessageFields(None, message)), st.changeType)])))
  {
    PlainEntryRoundTrip(message, "");
    assert "- " + message + "" == "- " + message;
    assert ("- " + message)[0] == '-';
  }

  /** The lines of a release section shaped like the docstring's: a dated
      version header, then two headings, each with one unscoped entry. */
  function SectionLines(version: string, date: string, h1: string, m1: string, h2: string, m2: string)
    : (b: seq<string>)
    ensures |b| == 5
  {
    ["## " + version + " (" + date + ")", "### " + h1, "- " + m1, "### " + h2, "- " + m2]
  }

  /** Each field is in its pattern's character class, the headings do not
      end in '\n' and the entries do not open with '*'. */
  predicate IsSectionFields(version: string, date: string, h1: string, m1: string, h2: string, m2: string)
  {
    && version != [] && AllIn(version, VersionChars)
    && date != [] && AllIn(date, DateChars)
    && h1 != [] && AllIn(h1, ChangeTypeChars) && h1[|h1| - 1] != '\n'
    && h2 != [] && AllIn(h2, ChangeTypeChars) && h2[|h2| - 1] != '\n'
    && m1 != [] && AllIn(m1, MessageChars) && m1[0] != '*'
    && m2 != [] && AllIn(m2, MessageChars) && m2[0] != '*'
  }

  lemma TextLineOf(p: string, s: string)
    requires p != [] && p[0] != '\n' && s != [] && s[|s| - 1] != '\n'
    ensures IsTextLine(p + s)
  {
    assert (p + s)[0] == p[0] && (p + s)[|p + s| - 1] == s[|s| - 1];
  }

  /** Such a section is made of text lines. */
  lemma SectionTextLines(
      version: string, date: string, h1: string, m1: string, h2: string, m2: string,
      b: seq<string>)
    requires IsSectionFields(version, date, h1, m1, h2, m2)
    requires b == SectionLines(version, date, h1, m1, h2, m2)
    ensures forall k :: 0 <= k < |b| ==> IsTextLine(b[k])
  {
    // Message characters exclude '\n', and the last line of a heading is
    // required not to be one.
    assert InClass(m1[|m1| - 1], MessageChars) && InClass(m2[|m2| - 1], MessageChars);
    TextLineOf("## " + version + " (" + date, ")");
    TextLineOf("### ", h1);
    TextLineOf("- ", m1);
    TextLineOf("### ", h2);
    TextLineOf("- ", m2);
    assert b[0] == "## " + version + " (" + date + ")";
    forall k | 0 <= k < |b|
      ensures IsTextLine(b[k])
    {
      assert k == 0 || k == 1 || k == 2 || k == 3 || k == 4;
    }
  }

  /** Only the first line of such a section is a version header. */
  lemma SectionHeaders(
      version: string, date: string, h1: string, m1: string, h2: string, m2: string,
      b: seq<string>)
    requires IsSectionFields(version, date, h1, m1, h2, m2)
    requires b == SectionLines(version, date, h1, m1, h2, m2)
    ensures b != [] && IsVersionHeader(b[0]) && HeaderOnlyFirst(b)
  {
    HeaderLine("## ", version + " (" + date + ")");
    assert b[0] == "## " + (version + " (" + date + ")");
    OtherLine("### ", h1);
    OtherLine("- ", m1);
    OtherLine("### ", h2);
    OtherLine("- ", m2);
    forall k | 0 < k < |b|
      ensures !IsVersionHeader(b[k])
    {
      assert k == 1 || k == 2 || k == 3 || k == 4;
    }
  }

  lemma HeaderLine(p: string, s: string)
    requires p == "## "
    ensures IsVersionHeader(p + s)
  {
    assert (p + s)[..3] == p;
  }

  lemma OtherLine(p: string, s: string)
    requires |p| >= 2 && (p[0] != '#' || p[1] != '#' || (|p| >= 3 && p[2] != ' '))
    ensures !IsVersionHeader(p + s)
  {
    assert (p + s)[0] == p[0] && (p + s)[1] == p[1];
    if |p| >= 3 {
      assert (p + s)[2] == p[2];
    }
  }

  /** The tree of a release section shaped like the docstring's: a dated
      version header, then two headings, each with one entry. Each entry is
      filed under the category its heading normalises to. */
  lemma {:induction false} ReleaseSectionTree(
      version: string, date: string, h1: string, m1: string, h2: string, m2: string,
      t1: string, t2: string, b: seq<string>)
    requires IsSectionFields(version, date, h1, m1, h2, m2)
    requires Normalize(h1) == Ok(t1) && Normalize(h2) == Ok(t2)
    requires b == SectionLines(version, date, h1, m1, h2, m2)
    ensures BuildTree(b) == Ok(VersionTree(Some(VersionFields(version, Some(date))),
                                           [ Commit(Some(MessageFields(None, m1)), Some(t1)),
                                             Commit(Some(MessageFields(None, m2)), Some(t2)) ]))
  {
    var header := Some(VersionFields(version, Some(date)));
    var first := Commit(Some(MessageFields(None, m1)), Some(t1));
    var second := Commit(Some(MessageFields(None, m2)), Some(t2));
    var s0 := Scan(VersionTree(header, []), None);
    var s1 := Scan(VersionTree(header, []), Some(t1));
    var s2 := Scan(VersionTree(header, [first]), Some(t1));
    var s3 := Scan(VersionTree(header, [first]), Some(t2));
    var s4 := Scan(VersionTree(header, [first, second]), Some(t2));
    var l0, l1, l2, l3, l4 := b[0], b[1], b[2], b[3], b[4];
    assert b == [l0, l1, l2, l3, l4];
    VersionStep(Start, version, date);
    HeadingWithEntry(s0, h1, t1, m1);
    assert s0.tree.commits + [first] == [first];
    HeadingWithEntry(s2, h2, t2, m2);
    assert s2.tree.commits + [second] == [first, second];
    RunChain(b, l0, l1, l2, l3, l4, s0, s1, s2, s3, s4);
  }

  /** A heading in the table followed by an unscoped entry files the entry
      under the heading's change type. */
  lemma HeadingWithEntry(st: Scan, heading: string, changeType: string, message: string)
    requires heading != [] && AllIn(heading, ChangeTypeChars)
    requires Normalize(heading) == Ok(changeType)
    requires message != [] && AllIn(message, MessageChars) && message[0] != '*'
    ensures Step(st, "### " + heading) == Ok(st.(changeType := Some(changeType)))
    ensures Step(st.(changeType := Some(changeType)), "- " + message)
            == Ok(Scan(st.tree.(commits := st.tree.commits
                         + [Commit(Some(MessageFields(None, message)), Some(changeType))]),
                       Some(changeType)))
  {
    HeadingStep(st, heading, changeType);
    EntryStep(st.(changeType := Some(changeType)), message);
  }

  /** Five lines, each taking the loop state to the next one. */
  lemma {:induction false} RunChain(
      b: seq<string>, l0: string, l1: string, l2: string, l3: string, l4: string,
      s0: Scan, s1: Scan, s2: Scan, s3: Scan, s4: Scan)
    requires b == [l0, l1, l2, l3, l4]
    requires Step(Start, l0) == Ok(s0) && Step(s0, l1) == Ok(s1) && Step(s1, l2) == Ok(s2)
    requires Step(s2, l3) == Ok(s3) && Step(s3, l4) == Ok(s4)
    ensures BuildTree(b) == Ok(s4.tree)
  {
    RunAppend([], l0);
    assert [] + [l0] == b[..1];
    RunAppend(b[..1], l1);
    assert b[..1] + [l1] == b[..2];
    RunAppend(b[..2], l2);
    assert b[..2] + [l2] == b[..3];
    RunAppend(b[..3], l3);
    assert b[..3] + [l3] == b[..4];
    RunAppend(b[..4], l4);
    assert b[..4] + [l4] == b;
  }

  /** End to end, for such a section written out as a file: one tree and no
      error. */
  lemma ReleaseForest(
      version: string, date: string, h1: string, m1: string, h2: string, m2: string,
      t1: string, t2: string, b: seq<string>, blocks: seq<seq<string>>)
    requires IsSectionFields(version, date, h1, m1, h2, m2)
    requires Normalize(h1) == Ok(t1) && Normalize(h2) == Ok(t2)
    requires b == SectionLines(version, date, h1, m1, h2, m2)
    requires IsVersionBlocks(Page(b), blocks)
    ensures GenerateFullTree(blocks)
            == Forest([VersionTree(Some(VersionFields(version, Some(date))),
                                   [ Commit(Some(MessageFields(None, m1)), Some(t1)),
                                     Commit(Some(MessageFields(None, m2)), Some(t2)) ])], None)
  {
    SectionTextLines(version, date, h1, m1, h2, m2, b);
    SectionHeaders(version, date, h1, m1, h2, m2, b);
    SingleSection(b, blocks);
    ReleaseSectionTree(version, date, h1, m1, h2, m2, t1, t2, b);
    assert blocks[1..] == [];
  }

  /** The release section of the module's docstring, written out as a file
      with blank lines between its lines: one tree, dated 2019-07-20, with
      the username fix under "fix" and the login system under "feat". */
  lemma DocstringRelease(
      version: string, date: string, h1: string, m1: string, h2: string, m2: string,
      b: seq<string>, blocks: seq<seq<string>>)
    requires version == "1.2.1" && date == "2019-07-20"
    requires h1 == "Bug fixes" && m1 == "username validation not working"
    requires h2 == "Features" && m2 == "new login system"
    requires b == SectionLines(version, date, h1, m1, h2, m2)
    requires IsVersionBlocks(Page(b), blocks)
    ensures GenerateFullTree(blocks)
            == Forest([VersionTree(Some(VersionFields("1.2.1", Some("2019-07-20"))),
                                   [ Commit(Some(MessageFields(None, "username validation not working")), Some("fix")),
                                     Commit(Some(MessageFields(None, "new login system")), Some("feat")) ])], None)
  {
    DocstringFields(version, date, h1, m1, h2, m2);
    BugFixesHeading(h1);
    FeaturesHeading(h2);
    ReleaseForest(version, date, h1, m1, h2, m2, "fix", "feat", b, blocks);
  }

  /** The fields of the docstring's release section are in their
      patterns' character classes. */
  lemma DocstringFields(version: string, date: string, h1: string, m1: string, h2: string, m2: string)
    requires version == "1.2.1" && date == "2019-07-20"
    requires h1 == "Bug fixes" && m1 == "username validation not working"
    requires h2 == "Features" && m2 == "new login system"
    ensures IsSectionFields(version, date, h1, m1, h2, m2)
  {
  }

  /** A heading that is not in the table stops the loop with the error
      naming the captured heading. */
  lemma {:induction false} UnknownHeadingStep(st: Scan, heading: string, rest: string)
    requires heading != [] && AllIn(heading, ChangeTypeChars)
    requires rest == [] || !InClass(rest[0], ChangeTypeChars)
    requires Normalize(heading).Err?
    ensures Step(st, "### " + heading + rest) == Err(Normalize(heading).error)
  {
    ChangeTypeRoundTrip(heading, rest);
    assert ("### " + heading + rest)[2] == '#';
  }

  /** A heading outside the table aborts the block: the capture stops at the
      first '-', so the error carries "totally", and no tree is built. */
  lemma UnknownHeadingAborts(
      version: string, heading: string, rest: string, m: string, block: seq<string>)
    requires version == "1.2.1" && heading == "totally" && rest == "-unknown-stuff"
    requires m == "new login system"
    requires block == ["## " + version, "### " + heading + rest, "- " + m]
    ensures BuildTree(block) == Err(UnrecognizedCategory("totally"))
    ensures GenerateFullTree([block]) == Forest([], Some(UnrecognizedCategory("totally")))
  {
    assert AllIn(heading, ChangeTypeChars) && !InClass(rest[0], ChangeTypeChars);
    UnknownHeading(heading);
    var l0 := block[0];
    HeaderLine("## ", version);
    assert Step(Start, l0).Ok?;
    UnknownHeadingStep(Step(Start, l0).value, heading, rest);
    FailsAtSecondLine(block, UnrecognizedCategory("totally"));
    assert [block][0] == block;
  }

  /** A block whose first line passes and whose second line raises builds
      nothing. */
  lemma FailsAtSecondLine(block: seq<string>, e: Error)
    requires |block| >= 2 && Step(Start, block[0]).Ok?
    requires Step(Step(Start, block[0]).value, block[1]) == Err(e)
    ensures BuildTree(block) == Err(e)
  {
    RunAppend([], block[0]);
    assert [] + [block[0]] == block[..1];
    RunAppend(block[..1], block[1]);
    assert block[..1] + [block[1]] == block[..2];
    ErrorPersists(block, 2);
  }
}
