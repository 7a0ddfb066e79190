/** `generate_block_tree` and `generate_full_tree` of
    commitizen/changelog.py: each version block becomes a tree holding the
    version header's fields and the block's entries, each tagged with the
    normalised change type in force where it stands. */
module Tree {
  import opened Wrappers
  import opened Patterns
  import opened Categories
  import opened Blocks

  /** A change-type header line: it starts with "### ". */
  predicate IsChangeTypeHeader(line: string)
  {
    "### " <= line
  }

  /** An entry line: it starts with "- ". */
  predicate IsEntryLine(line: string)
  {
    "- " <= line
  }

  /** One element of `tree["commits"]`: the groups of the entry line (None
      when the line did not match and the dict held only `change_type`) and
      the change type in force. */
  datatype Commit = Commit(fields: Option<MessageFields>, changeType: Option<string>)

  /** The dict `generate_block_tree` returns: the version header's groups
      (None while no header has matched: then the dict has no "version" and
      no "date" key) and `commits`. */
  datatype VersionTree = VersionTree(header: Option<VersionFields>, commits: seq<Commit>)

  /** The loop state of `generate_block_tree`. */
  datatype Scan = Scan(tree: VersionTree, changeType: Option<string>)

  const Start: Scan := Scan(VersionTree(None, []), None)

  /** One turn of the loop of `generate_block_tree` on `line`.  A failing
      normalisation is the `ValueError` that escapes the loop. */
  function Step(st: Scan, line: string): (r: Result<Scan, Error>)
    ensures r.Err? ==> IsChangeTypeHeader(line)
    ensures r.Ok? ==> st.tree.commits <= r.value.tree.commits
                      && |r.value.tree.commits| == |st.tree.commits| + (if IsEntryLine(line) then 1 else 0)
  {
    if IsVersionHeader(line) then
      // {**tree, **parse_md_version(line)}: a matching header overwrites both keys
      var fields := ParseMdVersion(line);
      var header := if fields.Some? then fields else st.tree.header;
      assert line[0] == '#';  // so not an entry line
      Ok(Scan(st.tree.(header := header), None))
    else if IsChangeTypeHeader(line) then
      assert line[0] == '#';
      match ParseMdChangeType(line)
      case None => Ok(st)
      case Some(heading) =>
        match Normalize(heading)
        case Ok(changeType) => Ok(st.(changeType := Some(changeType)))
        case Err(e) => Err(e)
    else if IsEntryLine(line) then
      var commit := Commit(ParseMdMessage(line), st.changeType);
      Ok(st.(tree := st.tree.(commits := st.tree.commits + [commit])))
    else
      // the diagnostic print: nothing changes
      Ok(st)
  }

  /** The loop state after the lines `block`, or the error that stopped it. */
  function Run(block: seq<string>): (r: Result<Scan, Error>)
    ensures r.Ok? ==> |r.value.tree.commits| <= |block|
    ensures r.Err? ==> exists j :: 0 <= j < |block| && IsChangeTypeHeader(block[j])
  {
    if block == [] then Ok(Start)
    else
      match Run(block[..|block| - 1])
      case Err(e) => Err(e)
      case Ok(st) => Step(st, block[|block| - 1])
  }

  /** What `generate_block_tree` returns or raises, as a value. */
  function BuildTree(block: seq<string>): (r: Result<VersionTree, Error>)
    ensures r.Ok? ==> |r.value.commits| <= |block|
    ensures r.Err? ==> exists j :: 0 <= j < |block| && IsChangeTypeHeader(block[j])
  {
    match Run(block)
    case Ok(st) => Ok(st.tree)
    case Err(e) => Err(e)
  }

  /** Once the loop has raised, the rest of the block is never looked at. */
  lemma {:induction false} ErrorPersists(block: seq<string>, i: nat)
    requires i <= |block| && Run(block[..i]).Err?
    ensures Run(block) == Run(block[..i])
    decreases |block|
  {
    if i < |block| {
      var init := block[..|block| - 1];
      assert init[..i] == block[..i];
      ErrorPersists(init, i);
    } else {
      assert block[..i] == block;
    }
  }

  /** `generate_block_tree`: `tree` and `changeType` are the loop's
      variables; the commit list grows by one entry per entry line. */
  method GenerateBlockTree(block: seq<string>) returns (r: Result<VersionTree, Error>)
    ensures r == BuildTree(block)
  {
    var tree := VersionTree(None, []);
    var changeType: Option<string> := None;
    for i := 0 to |block|
      invariant Run(block[..i]) == Ok(Scan(tree, changeType))
    {
      assert block[..i + 1][..i] == block[..i];
      var line := block[i];
      if IsVersionHeader(line) {
        changeType := None;
        var fields := ParseMdVersion(line);
        if fields.Some? {
          tree := tree.(header := fields);
        }
      } else if IsChangeTypeHeader(line) {
        var result := ParseMdChangeType(line);
        if result.None? {
          continue;
        }
        var normalized := TransformChangeType(result.value);
        if normalized.Err? {
          ErrorPersists(block, i + 1);
          return Err(normalized.error);
        }
        changeType := Some(normalized.value);
      } else if IsEntryLine(line) {
        tree := tree.(commits := tree.commits + [Commit(ParseMdMessage(line), changeType)]);
      }
    }
    assert block[..|block|] == block;
    return Ok(tree);
  }

  // -----------------------------------------------------------------------
  // Reference definitions, each looking back from a position in the block

  /** The number of entry lines among `lines`. */
  function EntryCount(lines: seq<string>): nat
  {
    if lines == [] then 0
    else EntryCount(lines[..|lines| - 1]) + (if IsEntryLine(lines[|lines| - 1]) then 1 else 0)
  }

  /** The change type in force after `lines`: set by the most recent
      change-type header that matched, unless a "## " line came after it. */
  function ActiveType(lines: seq<string>): Option<string>
  {
    if lines == [] then None
    else
      var line := lines[|lines| - 1];
      if IsVersionHeader(line) then None
      else if IsChangeTypeHeader(line) && ParseMdChangeType(line).Some? then
        match Normalize(ParseMdChangeType(line).value)
        case Ok(changeType) => Some(changeType)
        case Err(_) => None
      else ActiveType(lines[..|lines| - 1])
  }

  /** The groups of the most recent "## " line whose pattern matched. */
  function LastVersion(lines: seq<string>): Option<VersionFields>
  {
    if lines == [] then None
    else
      var line := lines[|lines| - 1];
      if IsVersionHeader(line) && ParseMdVersion(line).Some? then ParseMdVersion(line)
      else LastVersion(lines[..|lines| - 1])
  }

  /** A change-type header whose heading matches the pattern but no rule. */
  predicate IsUnknownHeading(line: string)
  {
    && IsChangeTypeHeader(line)
    && ParseMdChangeType(line).Some?
    && Normalize(ParseMdChangeType(line).value).Err?
  }

  /** Line `j` of `block` is the first unknown heading. */
  predicate FirstUnknownHeading(block: seq<string>, j: int)
  {
    0 <= j < |block| && IsUnknownHeading(block[j])
    && forall m :: 0 <= m < j ==> !IsUnknownHeading(block[m])
  }

  /** When the loop completes, its state is described by the reference
      definitions: the header is the last matching "## " line, the change type
      the one in force at the end, and the commits one per entry line. */
  lemma {:induction false} RunState(block: seq<string>)
    requires Run(block).Ok?
    ensures Run(block).value.tree.header == LastVersion(block)
    ensures Run(block).value.changeType == ActiveType(block)
    ensures |Run(block).value.tree.commits| == EntryCount(block)
    ensures forall j :: 0 <= j < |block| && IsEntryLine(block[j]) ==>
              EntryCount(block[..j]) < |Run(block).value.tree.commits|
              && Run(block).value.tree.commits[EntryCount(block[..j])]
                 == Commit(ParseMdMessage(block[j]), ActiveType(block[..j]))
  {
    if block != [] {
      var n := |block| - 1;
      var init := block[..n];
      RunState(init);
      var st := Run(init).value;
      var commits := Run(block).value.tree.commits;
      assert commits[..|st.tree.commits|] == st.tree.commits;
      forall j | 0 <= j < |block| && IsEntryLine(block[j])
        ensures EntryCount(block[..j]) < |commits|
                && commits[EntryCount(block[..j])] == Commit(ParseMdMessage(block[j]), ActiveType(block[..j]))
      {
        if j < n {
          assert init[j] == block[j] && init[..j] == block[..j];
        } else {
          assert block[..j] == init;
        }
      }
    }
  }

  /** The tree of a block that builds: its header is the last matching "## "
      line's groups and its commits are one per entry line, in order, each
      with the entry's groups and the change type in force at that line. */
  lemma BuildTreeContents(block: seq<string>)
    requires BuildTree(block).Ok?
    ensures BuildTree(block).value.header == LastVersion(block)
    ensures |BuildTree(block).value.commits| == EntryCount(block)
    ensures forall j :: 0 <= j < |block| && IsEntryLine(block[j]) ==>
              EntryCount(block[..j]) < |BuildTree(block).value.commits|
              && BuildTree(block).value.commits[EntryCount(block[..j])]
                 == Commit(ParseMdMessage(block[j]), ActiveType(block[..j]))
  {
    RunState(block);
  }

  /** Building fails exactly when the block holds an unknown heading, and the
      error names the first one's captured heading. */
  lemma {:induction false} BuildTreeFails(block: seq<string>)
    ensures BuildTree(block).Err? <==> exists j :: 0 <= j < |block| && IsUnknownHeading(block[j])
    ensures BuildTree(block).Err? ==>
              exists j :: FirstUnknownHeading(block, j)
                          && BuildTree(block).error == UnrecognizedCategory(ParseMdChangeType(block[j]).value)
  {
    RunFails(block);
    if Run(block).Err? {
      RunErrorNamesFirst(block);
    }
  }

  /** One turn of the loop raises exactly on an unknown heading. */
  lemma StepFails(st: Scan, line: string)
    ensures Step(st, line).Err? <==> IsUnknownHeading(line)
    ensures Step(st, line).Err? ==> Step(st, line).error == UnrecognizedCategory(ParseMdChangeType(line).value)
  {
    if IsChangeTypeHeader(line) {
      assert line[2] == '#';
      assert !IsVersionHeader(line);
    }
  }

  /** Some line of `lines` satisfies `p`. */
  predicate AnyLine(lines: seq<string>, p: string -> bool)
  {
    exists j :: 0 <= j < |lines| && p(lines[j])
  }

  lemma AnyLineSnoc(lines: seq<string>, p: string -> bool)
    requires lines != []
    ensures AnyLine(lines, p) <==> AnyLine(lines[..|lines| - 1], p) || p(lines[|lines| - 1])
  {
    var init := lines[..|lines| - 1];
    if AnyLine(lines, p) {
      var j :| 0 <= j < |lines| && p(lines[j]);
      if j < |init| {
        assert init[j] == lines[j];
      }
    }
    if AnyLine(init, p) {
      var j :| 0 <= j < |init| && p(init[j]);
      assert lines[j] == init[j];
    }
  }

  /** Some line of `block` is an unknown heading. */
  predicate HasUnknownHeading(block: seq<string>)
  {
    AnyLine(block, IsUnknownHeading)
  }

  lemma {:induction false} RunFails(block: seq<string>)
    ensures Run(block).Err? <==> HasUnknownHeading(block)
  {
    if block != [] {
      var n := |block| - 1;
      var init := block[..n];
      RunFails(init);
      AnyLineSnoc(block, IsUnknownHeading);
      if Run(init).Ok? {
        StepFails(Run(init).value, block[n]);
        assert Run(block) == Step(Run(init).value, block[n]);
      } else {
        assert Run(block) == Run(init);
      }
    }
  }

  lemma {:induction false} RunErrorNamesFirst(block: seq<string>)
    requires Run(block).Err?
    ensures exists j :: FirstUnknownHeading(block, j)
                        && Run(block).error == UnrecognizedCategory(ParseMdChangeType(block[j]).value)
  {
    var n := |block| - 1;
    var init := block[..n];
    assert forall j :: 0 <= j < n ==> init[j] == block[j];
    if Run(init).Err? {
      RunErrorNamesFirst(init);
      var j :| FirstUnknownHeading(init, j) && Run(init).error == UnrecognizedCategory(ParseMdChangeType(init[j]).value);
      assert FirstUnknownHeading(block, j);
    } else {
      RunFails(init);
      StepFails(Run(init).value, block[n]);
      assert FirstUnknownHeading(block, n);
    }
  }

  /** A block as the segmenter yields it has its "## " line, if any, in
      front: the tree's header comes from that line alone, and no "## " line
      resets the change type after it. */
  lemma {:induction false} SegmentedBlock(block: seq<string>)
    requires HeaderOnlyFirst(block)
    ensures LastVersion(block)
            == if block != [] && IsVersionHeader(block[0]) then ParseMdVersion(block[0]) else None
  {
    if |block| > 1 {
      var init := block[..|block| - 1];
      assert HeaderOnlyFirst(init) by {
        assert forall j :: 0 < j < |init| ==> init[j] == block[j];
      }
      SegmentedBlock(init);
    } else if |block| == 1 {
      assert block[..0] == [];
    }
  }

  // -----------------------------------------------------------------------
  // generate_full_tree

  /** What a caller pulling every tree from `generate_full_tree` observes:
      the trees yielded, and the error raised after them, if any. */
  datatype Forest = Forest(trees: seq<VersionTree>, failure: Option<Error>)

  /** `generate_full_tree`: one tree per block in block order, up to the
      first block whose construction raises. */
  function GenerateFullTree(blocks: seq<seq<string>>): (f: Forest)
    ensures |f.trees| <= |blocks|
    ensures forall i :: 0 <= i < |f.trees| ==> BuildTree(blocks[i]) == Ok(f.trees[i])
    ensures f.failure.None? <==> |f.trees| == |blocks|
    ensures f.failure.Some? ==> BuildTree(blocks[|f.trees|]) == Err(f.failure.value)
  {
    if blocks == [] then Forest([], None)
    else
      match BuildTree(blocks[0])
      case Err(e) => Forest([], Some(e))
      case Ok(tree) =>
        var rest := GenerateFullTree(blocks[1..]);
        Forest([tree] + rest.trees, rest.failure)
  }

  /** Partial consumption: the trees of the first `n` blocks are a prefix of
      the trees of all of them. */
  lemma {:induction false} PartialForest(blocks: seq<seq<string>>, n: nat)
    requires n <= |blocks|
    ensures GenerateFullTree(blocks[..n]).trees <= GenerateFullTree(blocks).trees
  {
    if n > 0 {
      assert blocks[..n][0] == blocks[0];
      assert blocks[..n][1..] == blocks[1..][..n - 1];
      PartialForest(blocks[1..], n - 1);
    }
  }
}
