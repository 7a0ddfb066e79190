/** The module docstring of commitizen/changelog.py illustrates a version
    block with its category headings written "## Bug fixes" and
    "## Features", one '#' short of the "### " that `generate_block_tree`
    looks for.  Read as written, the example is not one release but three:
    every "## " line opens a version block of its own. */
module Findings {
  import opened Wrappers
  import opened Patterns
  import opened Blocks
  import opened Tree
  import opened Scenarios

  /** Five kept lines with a "## " line at positions 0, 1 and 3 only are
      segmented into exactly three blocks. */
  lemma ThreeSections(kept: seq<string>, blocks: seq<seq<string>>)
    requires |kept| == 5
    requires IsVersionHeader(kept[0]) && IsVersionHeader(kept[1]) && IsVersionHeader(kept[3])
    requires !IsVersionHeader(kept[2]) && !IsVersionHeader(kept[4])
    ensures IsSegmentation(kept, blocks) <==> blocks == [kept[..1], kept[1..3], kept[3..]]
  {
    var c := [kept[..1], kept[1..3], kept[3..]];
    assert c[..1][..0] == [];
    assert Flatten(c[..1]) == kept[..1];
    assert c[..2][..1] == c[..1];
    assert Flatten(c[..2]) == kept[..1] + kept[1..3] == kept[..3];
    assert Flatten(c) == kept[..3] + kept[3..] == kept;
    assert IsSegmentation(kept, c);
    if IsSegmentation(kept, blocks) {
      SegmentationUnique(kept, blocks, c);
    }
  }

  /** "## <version> <word>", where the word cannot open a date, matches with
      the version alone and no date. */
  lemma VersionThenWord(version: string, word: string)
    requires version != [] && AllIn(version, VersionChars)
    requires word != [] && !InClass(word[0], DateChars) && word[0] != '('
    ensures ParseMdVersion("## " + version + " " + word) == Some(VersionFields(version, None))
  {
    var line := "## " + version + " " + word;
    var e := 3 + |version|;
    assert line == "## " + version + (" " + word);
    RunEndOf("## ", version, " " + word, VersionChars);
    assert line == "## " + version + " " + [] + word;
    RunEndOf("## " + version + " ", [], word, DateChars);
    assert line[3..e] == version;
  }

  /** A block of one "## " line builds a tree with that line's groups and no
      commits. */
  lemma HeaderOnlyTree(block: seq<string>)
    requires |block| == 1 && IsVersionHeader(block[0])
    ensures BuildTree(block) == Ok(VersionTree(ParseMdVersion(block[0]), []))
  {
    var fields := ParseMdVersion(block[0]);
    assert (if fields.Some? then fields else Start.tree.header) == fields;
    assert Step(Start, block[0]) == Ok(Scan(VersionTree(fields, []), None));
    RunAppend([], block[0]);
    assert [] + [block[0]] == block;
  }

  /** A "## " line followed by one entry line builds a tree whose single
      commit has no change type: no "### " line came before the entry. */
  lemma HeaderEntryTree(block: seq<string>)
    requires |block| == 2 && IsVersionHeader(block[0]) && IsEntryLine(block[1])
    ensures BuildTree(block)
            == Ok(VersionTree(ParseMdVersion(block[0]), [Commit(ParseMdMessage(block[1]), None)]))
  {
    var fields := ParseMdVersion(block[0]);
    assert (if fields.Some? then fields else Start.tree.header) == fields;
    assert Step(Start, block[0]) == Ok(Scan(VersionTree(fields, []), None));
    RunAppend([], block[0]);
    assert [] + [block[0]] == block[..1];
    var st := Run(block[..1]).value;
    assert st == Scan(VersionTree(fields, []), None);
    RunAppend(block[..1], block[1]);
    assert block[..1] + [block[1]] == block;
    assert block[1][0] == '-';
    assert !IsVersionHeader(block[1]) && !IsChangeTypeHeader(block[1]);
    assert st.tree.commits + [Commit(ParseMdMessage(block[1]), None)] == [Commit(ParseMdMessage(block[1]), None)];
  }

  /** Three blocks that all build give three trees and no error. */
  lemma ThreeTrees(blocks: seq<seq<string>>, t0: VersionTree, t1: VersionTree, t2: VersionTree)
    requires |blocks| == 3
    requires BuildTree(blocks[0]) == Ok(t0) && BuildTree(blocks[1]) == Ok(t1) && BuildTree(blocks[2]) == Ok(t2)
    ensures GenerateFullTree(blocks) == Forest([t0, t1, t2], None)
  {
    var r2 := blocks[2..];
    assert r2[0] == blocks[2] && r2[1..] == [];
    assert GenerateFullTree(r2) == Forest([t2], None);
    var r1 := blocks[1..];
    assert r1[0] == blocks[1] && r1[1..] == r2;
  }

  /** The lines of the docstring's example as written, one '#' short on
      each category heading; the first heading is "<v1> <w1>". */
  function MisleveledLines(version: string, date: string, v1: string, w1: string, m1: string, h2: string, m2: string)
    : (b: seq<string>)
    ensures |b| == 5
  {
    ["## " + version + " (" + date + ")", "## " + v1 + " " + w1, "- " + m1, "## " + h2, "- " + m2]
  }

  /** The fields of such lines: each in its pattern's class, the first
      heading's second word unable to open a date, the entries not opening
      with '*', and no line ending in '\n'. */
  predicate IsMisleveledFields(version: string, date: string, v1: string, w1: string, m1: string, h2: string, m2: string)
  {
    && version != [] && AllIn(version, VersionChars)
    && date != [] && AllIn(date, DateChars)
    && v1 != [] && AllIn(v1, VersionChars)
    && w1 != [] && !InClass(w1[0], DateChars) && w1[0] != '(' && w1[|w1| - 1] != '\n'
    && h2 != [] && AllIn(h2, VersionChars)
    && m1 != [] && AllIn(m1, MessageChars) && m1[0] != '*'
    && m2 != [] && AllIn(m2, MessageChars) && m2[0] != '*'
  }

  /** Such lines are text lines. */
  lemma MisleveledTextLines(
      version: string, date: string, v1: string, w1: string, m1: string, h2: string, m2: string,
      b: seq<string>)
    requires IsMisleveledFields(version, date, v1, w1, m1, h2, m2)
    requires b == MisleveledLines(version, date, v1, w1, m1, h2, m2)
    ensures forall k :: 0 <= k < |b| ==> IsTextLine(b[k])
  {
    assert InClass(m1[|m1| - 1], MessageChars) && InClass(m2[|m2| - 1], MessageChars);
    assert InClass(h2[|h2| - 1], VersionChars);
    TextLineOf("## " + version + " (" + date, ")");
    TextLineOf("## " + v1 + " ", w1);
    TextLineOf("- ", m1);
    TextLineOf("## ", h2);
    TextLineOf("- ", m2);
    forall k | 0 <= k < |b|
      ensures IsTextLine(b[k])
    {
      assert k == 0 || k == 1 || k == 2 || k == 3 || k == 4;
    }
  }

  /** The "## " lines among such lines are the first, second and fourth. */
  lemma MisleveledHeaders(
      version: string, date: string, v1: string, w1: string, m1: string, h2: string, m2: string,
      b: seq<string>)
    requires b == MisleveledLines(version, date, v1, w1, m1, h2, m2)
    ensures IsVersionHeader(b[0]) && IsVersionHeader(b[1]) && IsVersionHeader(b[3])
    ensures !IsVersionHeader(b[2]) && !IsVersionHeader(b[4])
  {
    HeaderLine("## ", version + " (" + date + ")");
    assert b[0] == "## " + (version + " (" + date + ")");
    HeaderLine("## ", v1 + " " + w1);
    assert b[1] == "## " + (v1 + " " + w1);
    HeaderLine("## ", h2);
    OtherLine("- ", m1);
    OtherLine("- ", m2);
  }

  /** Such lines are cut into three blocks, one per "## " line. */
  lemma MisleveledBlocks(
      version: string, date: string, v1: string, w1: string, m1: string, h2: string, m2: string,
      b: seq<string>, blocks: seq<seq<string>>)
    requires IsMisleveledFields(version, date, v1, w1, m1, h2, m2)
    requires b == MisleveledLines(version, date, v1, w1, m1, h2, m2)
    requires IsVersionBlocks(Page(b), blocks)
    ensures blocks == [b[..1], b[1..3], b[3..]]
  {
    MisleveledTextLines(version, date, v1, w1, m1, h2, m2, b);
    PageKept(b);
    MisleveledHeaders(version, date, v1, w1, m1, h2, m2, b);
    ThreeSections(b, blocks);
  }

  /** The trees of such a file: the release keeps its version and date but
      no commits, and each heading becomes a release of its own, named by
      its first word, holding one entry with no change type. */
  lemma MisleveledForest(
      version: string, date: string, v1: string, w1: string, m1: string, h2: string, m2: string,
      b: seq<string>, blocks: seq<seq<string>>)
    requires IsMisleveledFields(version, date, v1, w1, m1, h2, m2)
    requires b == MisleveledLines(version, date, v1, w1, m1, h2, m2)
    requires IsVersionBlocks(Page(b), blocks)
    ensures GenerateFullTree(blocks)
            == Forest([ VersionTree(Some(VersionFields(version, Some(date))), []),
                        VersionTree(Some(VersionFields(v1, None)), [Commit(Some(MessageFields(None, m1)), None)]),
                        VersionTree(Some(VersionFields(h2, None)), [Commit(Some(MessageFields(None, m2)), None)]) ],
                      None)
  {
    MisleveledBlocks(version, date, v1, w1, m1, h2, m2, b, blocks);
    VersionHeaderRoundTrip(version, date, "");
    assert b[0] == "## " + version + " (" + date + ")" + "";
    HeaderOnlyTree(blocks[0]);
    VersionThenWord(v1, w1);
    PlainEntryRoundTrip(m1, "");
    assert b[2] == "- " + m1 + "";
    HeaderEntryTree(blocks[1]);
    VersionHeaderWithoutDate(h2);
    PlainEntryRoundTrip(m2, "");
    assert b[4] == "- " + m2 + "";
    HeaderEntryTree(blocks[2]);
    ThreeTrees(blocks, GenerateFullTree(blocks).trees[0], GenerateFullTree(blocks).trees[1],
               GenerateFullTree(blocks).trees[2]);
  }

  /** The docstring's example as written: three releases, "1.2.1" with no
      commits, "Bug" and "Features" with one uncategorised entry each. */
  lemma DocstringAsWritten(
      version: string, date: string, v1: string, w1: string, m1: string, h2: string, m2: string,
      b: seq<string>, blocks: seq<seq<string>>)
    requires version == "1.2.1" && date == "2019-07-20"
    requires v1 == "Bug" && w1 == "fixes" && m1 == "username validation not working"
    requires h2 == "Features" && m2 == "new login system"
    requires b == MisleveledLines(version, date, v1, w1, m1, h2, m2)
    requires IsVersionBlocks(Page(b), blocks)
    ensures |GenerateFullTree(blocks).trees| == 3
    ensures GenerateFullTree(blocks).trees[0].commits == []
    ensures GenerateFullTree(blocks).trees[1].header == Some(VersionFields("Bug", None))
    ensures GenerateFullTree(blocks).trees[2].header == Some(VersionFields("Features", None))
  {
    DocstringMisleveledFields(version, date, v1, w1, m1, h2, m2);
    MisleveledForest(version, date, v1, w1, m1, h2, m2, b, blocks);
    var trees := GenerateFullTree(blocks).trees;
    assert trees[1].header == Some(VersionFields(v1, None));
    assert trees[2].header == Some(VersionFields(h2, None));
  }

  /** These are the docstring's lines: its headings read "## Bug fixes" and
      "## Features".  (Kept apart from DocstringAsWritten: with the forest in
      scope the solver spends far more on these two string equalities.) */
  lemma DocstringHeadings(
      version: string, date: string, v1: string, w1: string, m1: string, h2: string, m2: string,
      b: seq<string>)
    requires version == "1.2.1" && date == "2019-07-20"
    requires v1 == "Bug" && w1 == "fixes" && m1 == "username validation not working"
    requires h2 == "Features" && m2 == "new login system"
    requires b == MisleveledLines(version, date, v1, w1, m1, h2, m2)
    ensures b[1] == "## Bug fixes" && b[3] == "## Features"
  {
  }

  /** The fields of the docstring's example meet IsMisleveledFields. */
  lemma DocstringMisleveledFields(version: string, date: string, v1: string, w1: string, m1: string, h2: string, m2: string)
    requires version == "1.2.1" && date == "2019-07-20"
    requires v1 == "Bug" && w1 == "fixes" && m1 == "username validation not working"
    requires h2 == "Features" && m2 == "new login system"
    ensures IsMisleveledFields(version, date, v1, w1, m1, h2, m2)
  {
  }
}
