/** `find_version_blocks` of commitizen/changelog.py: the lines of a changelog
    are grouped into version blocks, a new block starting at every "## " line.
    Opening and reading the file is not modelled; the input is the file's
    lines as the loop receives them, each possibly ending in "\n". */
module Blocks {
  import opened Text

  /** A version header line: it starts with "## ". */
  predicate IsVersionHeader(line: string)
  {
    "## " <= line
  }

  /** The lines the segmenter keeps: each line with `strip("\n")` applied,
      the ones that end up empty dropped, the rest in their original order.
      A line of spaces is kept: only "" counts as blank. */
  function Cleaned(lines: seq<string>): (r: seq<string>)
    ensures |r| <= |lines|
    ensures forall k :: 0 <= k < |r| ==> r[k] != ""
  {
    if lines == [] then []
    else
      var line := StripNewlines(lines[|lines| - 1]);
      Cleaned(lines[..|lines| - 1]) + (if line == "" then [] else [line])
  }

  /** Appending one line to the file appends its stripped form to the kept
      lines, unless that form is blank. */
  lemma CleanedSnoc(lines: seq<string>, i: nat)
    requires i < |lines|
    ensures Cleaned(lines[..i + 1])
            == Cleaned(lines[..i]) + (if StripNewlines(lines[i]) == "" then [] else [StripNewlines(lines[i])])
  {
    assert lines[..i + 1][..i] == lines[..i];
  }

  /** Line `l` is the stripped form of some line of `lines`. */
  predicate StrippedFrom(lines: seq<string>, l: string)
  {
    exists k :: 0 <= k < |lines| && StripNewlines(lines[k]) == l
  }

  /** A line stripped from a prefix of the file, or from the line after it,
      is stripped from the longer file. */
  lemma StrippedFromSnoc(lines: seq<string>, l: string)
    requires lines != []
    requires StrippedFrom(lines[..|lines| - 1], l) || StripNewlines(lines[|lines| - 1]) == l
    ensures StrippedFrom(lines, l)
  {
    var init := lines[..|lines| - 1];
    if StrippedFrom(init, l) {
      var k :| 0 <= k < |init| && StripNewlines(init[k]) == l;
      assert lines[k] == init[k];
    }
  }

  /** Every kept line is the stripped form of an input line. */
  lemma {:induction false} CleanedSound(lines: seq<string>)
    ensures forall l :: l in Cleaned(lines) ==> StrippedFrom(lines, l)
  {
    if lines != [] {
      var n := |lines| - 1;
      CleanedSound(lines[..n]);
      CleanedSnoc(lines, n);
      assert lines[..n + 1] == lines;
      forall l | l in Cleaned(lines)
        ensures StrippedFrom(lines, l)
      {
        StrippedFromSnoc(lines, l);
      }
    }
  }

  /** Every input line that is not blank after stripping is kept. */
  lemma {:induction false} CleanedComplete(lines: seq<string>, k: nat)
    requires k < |lines| && StripNewlines(lines[k]) != ""
    ensures StripNewlines(lines[k]) in Cleaned(lines)
  {
    var n := |lines| - 1;
    var init := lines[..n];
    var last := StripNewlines(lines[n]);
    var tail := if last == "" then [] else [last];
    assert Cleaned(lines) == Cleaned(init) + tail;
    if k < n {
      assert init[k] == lines[k];
      CleanedComplete(init, k);
    } else {
      assert tail == [last];
    }
  }

  /** The blocks one after the other. */
  function Flatten(blocks: seq<seq<string>>): seq<string>
  {
    if blocks == [] then [] else Flatten(blocks[..|blocks| - 1]) + blocks[|blocks| - 1]
  }

  lemma {:induction false} FlattenCons(blocks: seq<seq<string>>)
    requires blocks != []
    ensures Flatten(blocks) == blocks[0] + Flatten(blocks[1..])
  {
    if |blocks| > 1 {
      var init := blocks[..|blocks| - 1];
      FlattenCons(init);
      assert init[1..] == blocks[1..][..|blocks[1..]| - 1];
    } else {
      assert blocks[..0] == [];
    }
  }

  /** Blocks that flatten to nothing are all empty. */
  lemma {:induction false} FlattenEmpty(blocks: seq<seq<string>>)
    requires Flatten(blocks) == []
    ensures forall i :: 0 <= i < |blocks| ==> blocks[i] == []
  {
    if blocks != [] {
      FlattenEmpty(blocks[..|blocks| - 1]);
      assert forall i :: 0 <= i < |blocks| - 1 ==> blocks[..|blocks| - 1][i] == blocks[i];
    }
  }

  /** A "## " line can only open a block. */
  predicate HeaderOnlyFirst(block: seq<string>)
  {
    forall j :: 0 < j < |block| ==> !IsVersionHeader(block[j])
  }

  /** `blocks` cuts the kept lines `kept` into version blocks: they put the
      lines back together in order; there is at least one block; a "## " line
      stands only at the front of a block; every block but the first opens
      with one (the first may be a preamble); and an empty first block is the
      only block. */
  predicate IsSegmentation(kept: seq<string>, blocks: seq<seq<string>>)
  {
    && Flatten(blocks) == kept
    && |blocks| >= 1
    && (forall i :: 0 <= i < |blocks| ==> HeaderOnlyFirst(blocks[i]))
    && (forall i :: 0 < i < |blocks| ==> blocks[i] != [] && IsVersionHeader(blocks[i][0]))
    && (blocks[0] == [] ==> |blocks| == 1)
  }

  /** The blocks `find_version_blocks` yields for the lines of a file. */
  predicate IsVersionBlocks(lines: seq<string>, blocks: seq<seq<string>>)
  {
    IsSegmentation(Cleaned(lines), blocks)
  }

  /** The state of `find_version_blocks` after the kept lines `kept`: the
      blocks `done` yielded so far and the accumulator `block`. */
  predicate Scanned(kept: seq<string>, done: seq<seq<string>>, block: seq<string>)
  {
    && Flatten(done) + block == kept
    && (forall k :: 0 <= k < |done| ==> done[k] != [])
    && (forall k :: 0 <= k < |done| ==> HeaderOnlyFirst(done[k]))
    && (forall k :: 0 < k < |done| ==> IsVersionHeader(done[k][0]))
    && HeaderOnlyFirst(block)
    && (done != [] ==> block != [] && IsVersionHeader(block[0]))
  }

  /** A "## " line yields a non-empty accumulator and starts a new one. */
  lemma ScanHeader(kept: seq<string>, done: seq<seq<string>>, block: seq<string>, line: string)
    requires Scanned(kept, done, block) && IsVersionHeader(line)
    ensures Scanned(kept + [line], if |block| > 0 then done + [block] else done, [line])
  {
    var done' := if |block| > 0 then done + [block] else done;
    if |block| > 0 {
      assert (done + [block])[..|done|] == done;
    }
    assert Flatten(done') + [line] == kept + [line];
  }

  /** Any other kept line joins the accumulator. */
  lemma ScanOther(kept: seq<string>, done: seq<seq<string>>, block: seq<string>, line: string)
    requires Scanned(kept, done, block) && !IsVersionHeader(line)
    ensures Scanned(kept + [line], done, block + [line])
  {
    assert Flatten(done) + (block + [line]) == kept + [line];
  }

  /** The final accumulator is yielded whether or not it is empty. */
  lemma ScanEnd(kept: seq<string>, done: seq<seq<string>>, block: seq<string>)
    requires Scanned(kept, done, block)
    ensures IsSegmentation(kept, done + [block])
  {
    assert (done + [block])[..|done|] == done;
  }

  /** `find_version_blocks`: `done` holds the blocks yielded so far and
      `block` the accumulator, which is yielded once more at the end. */
  method FindVersionBlocks(lines: seq<string>) returns (blocks: seq<seq<string>>)
    ensures IsVersionBlocks(lines, blocks)
  {
    var done: seq<seq<string>> := [];
    var block: seq<string> := [];
    for i := 0 to |lines|
      invariant Scanned(Cleaned(lines[..i]), done, block)
    {
      CleanedSnoc(lines, i);
      var line := StripNewlines(lines[i]);
      if line == "" {
        continue;
      }
      if IsVersionHeader(line) {
        ScanHeader(Cleaned(lines[..i]), done, block, line);
        if |block| > 0 {
          done := done + [block];
        }
        block := [line];
      } else {
        ScanOther(Cleaned(lines[..i]), done, block, line);
        block := block + [line];
      }
    }
    assert lines[..|lines|] == lines;
    ScanEnd(Cleaned(lines), done, block);
    blocks := done + [block];
  }

  /** No kept line gives the single empty block; otherwise no block is
      empty. */
  lemma SegmentationShape(kept: seq<string>, blocks: seq<seq<string>>)
    requires IsSegmentation(kept, blocks)
    ensures kept == [] <==> blocks == [[]]
    ensures kept != [] ==> forall i :: 0 <= i < |blocks| ==> blocks[i] != []
  {
    if kept == [] {
      FlattenEmpty(blocks);
    } else {
      FlattenCons(blocks);
    }
  }

  /** A segmentation into one block holds all the kept lines in it. */
  lemma OneBlock(kept: seq<string>, blocks: seq<seq<string>>)
    requires IsSegmentation(kept, blocks) && |blocks| == 1
    ensures blocks == [kept]
  {
    FlattenCons(blocks);
    assert blocks[1..] == [];
    assert blocks[0] == kept;
  }

  /** The segmentation of the kept lines is unique, so IsSegmentation is a
      complete description of what `find_version_blocks` yields. */
  lemma {:induction false} SegmentationUnique(kept: seq<string>, a: seq<seq<string>>, b: seq<seq<string>>)
    requires IsSegmentation(kept, a) && IsSegmentation(kept, b)
    ensures a == b
    decreases |a|
  {
    if |a| == 1 && |b| == 1 {
      OneBlock(kept, a);
      OneBlock(kept, b);
    } else if |a| == 1 {
      OneBlock(kept, a);
      SecondBlockHeader(kept, b);
      assert false;
    } else if |b| == 1 {
      OneBlock(kept, b);
      SecondBlockHeader(kept, a);
      assert false;
    } else {
      var a', la := a[..|a| - 1], a[|a| - 1];
      var b', lb := b[..|b| - 1], b[|b| - 1];
      var pa, pb := |Flatten(a')|, |Flatten(b')|;
      assert kept == Flatten(a') + la && kept == Flatten(b') + lb;
      assert kept[pa..] == la && kept[pb..] == lb;
      assert pa == pb;
      assert la == lb;
      assert Flatten(a') == kept[..pa] == Flatten(b');
      assert a'[0] == a[0] && b'[0] == b[0];
      assert IsSegmentation(kept[..pa], a');
      assert IsSegmentation(kept[..pa], b');
      SegmentationUnique(kept[..pa], a', b');
    }
  }

  /** Kept lines that open with a "## " line and hold no other are
      segmented into exactly one block. */
  lemma SingleBlock(kept: seq<string>, blocks: seq<seq<string>>)
    requires kept != [] && IsVersionHeader(kept[0]) && HeaderOnlyFirst(kept)
    ensures IsSegmentation(kept, blocks) <==> blocks == [kept]
  {
    assert Flatten([kept]) == Flatten([kept][..0]) + kept;
    assert IsSegmentation(kept, [kept]);
    if IsSegmentation(kept, blocks) {
      SegmentationUnique(kept, blocks, [kept]);
    }
  }

  /** With two blocks or more, the second block opens with a "## " line
      that stands inside the kept lines, after the first block. */
  lemma SecondBlockHeader(kept: seq<string>, blocks: seq<seq<string>>)
    requires IsSegmentation(kept, blocks) && |blocks| >= 2
    ensures 0 < |blocks[0]| < |kept| && IsVersionHeader(kept[|blocks[0]|])
  {
    FlattenCons(blocks);
    FlattenCons(blocks[1..]);
    assert kept == blocks[0] + (blocks[1] + Flatten(blocks[2..]));
  }

  /** Segmenting, in the terms of the file's lines: a file with no line that
      is non-blank after stripping yields exactly the one empty block, and
      otherwise every block is non-empty. */
  lemma VersionBlocksShape(lines: seq<string>, blocks: seq<seq<string>>)
    requires IsVersionBlocks(lines, blocks)
    ensures (forall k :: 0 <= k < |lines| ==> StripNewlines(lines[k]) == "") <==> blocks == [[]]
    ensures blocks != [[]] ==> forall i :: 0 <= i < |blocks| ==> blocks[i] != []
  {
    SegmentationShape(Cleaned(lines), blocks);
    if Cleaned(lines) != [] {
      CleanedSound(lines);
      assert Cleaned(lines)[0] in Cleaned(lines);
    } else {
      forall k | 0 <= k < |lines|
        ensures StripNewlines(lines[k]) == ""
      {
        if StripNewlines(lines[k]) != "" {
          CleanedComplete(lines, k);
        }
      }
    }
  }
}
