/** The three line recognisers of commitizen/changelog.py: the compiled
    patterns MD_VERSION_RE, MD_CHANGE_TYPE_RE and MD_MESSAGE_RE, each used with
    `re.match` (anchored at the start, matched as a prefix) and read back with
    `groupdict()`.  Each pattern is written out as a deterministic recogniser:
    a greedy character class becomes the longest run of that class (RunEnd),
    an optional group becomes an Option, and "no match" (`{}`) becomes None. */
module Patterns {
  import opened Wrappers
  import opened Text

  /** The character classes the three patterns use. */
  datatype CharClass =
    | VersionChars     // [a-zA-Z0-9.+]
    | DateChars        // [0-9-]
    | ChangeTypeChars  // [a-zA-Z0-9.+\s]
    | ScopeChars       // [a-zA-Z0-9]
    | MessageChars     // .  (anything but a line feed)

  predicate InClass(c: char, cls: CharClass)
  {
    match cls
    case VersionChars => IsAsciiAlnum(c) || c == '.' || c == '+'
    case DateChars => IsDigit(c) || c == '-'
    case ChangeTypeChars => IsAsciiAlnum(c) || c == '.' || c == '+' || IsSpace(c)
    case ScopeChars => IsAsciiAlnum(c)
    case MessageChars => c != '\n'
  }

  predicate AllIn(s: string, cls: CharClass)
  {
    forall k :: 0 <= k < |s| ==> InClass(s[k], cls)
  }

  /** `s[i..j]` is a longest run of `cls` starting at `i`: what a greedy
      `[...]*` consumes there. */
  predicate IsLongestRun(s: string, i: int, j: int, cls: CharClass)
  {
    0 <= i <= j <= |s| && AllIn(s[i..j], cls) && (j == |s| || !InClass(s[j], cls))
  }

  /** End of the longest run of `cls` characters of `s` starting at `i`. */
  function RunEnd(s: string, i: nat, cls: CharClass): (j: nat)
    requires i <= |s|
    decreases |s| - i
    ensures IsLongestRun(s, i, j, cls)
  {
    if i < |s| && InClass(s[i], cls) then
      var j := RunEnd(s, i + 1, cls);
      assert s[i..j] == [s[i]] + s[i + 1..j];
      j
    else
      i
  }

  /** The run at `i` is empty exactly when no character of `cls` stands
      there. */
  lemma EmptyRun(s: string, i: nat, cls: CharClass)
    requires i <= |s|
    ensures RunEnd(s, i, cls) == i <==> i == |s| || !InClass(s[i], cls)
  {
    var j := RunEnd(s, i, cls);
    if j > i {
      assert s[i..j][0] == s[i];
    }
  }

  /** There is only one longest run starting at a given position. */
  lemma LongestRunUnique(s: string, i: int, j1: int, j2: int, cls: CharClass)
    requires IsLongestRun(s, i, j1, cls) && IsLongestRun(s, i, j2, cls)
    ensures j1 == j2
  {
    InsideRun(s, i, j1, cls);
    InsideRun(s, i, j2, cls);
  }

  /** Every position inside a run holds a character of the class. */
  lemma InsideRun(s: string, i: int, j: int, cls: CharClass)
    requires 0 <= i <= j <= |s| && AllIn(s[i..j], cls)
    ensures forall m :: i <= m < j ==> InClass(s[m], cls)
  {
    forall m | i <= m < j
      ensures InClass(s[m], cls)
    {
      assert s[i..j][m - i] == s[m];
    }
  }

  /** A run of `cls` followed by a character outside `cls` (or by the end) is
      exactly what RunEnd consumes. */
  lemma RunEndOf(prefix: string, run: string, rest: string, cls: CharClass)
    requires AllIn(run, cls)
    requires rest == [] || !InClass(rest[0], cls)
    ensures RunEnd(prefix + run + rest, |prefix|, cls) == |prefix| + |run|
  {
    var s := prefix + run + rest;
    var j := |prefix| + |run|;
    assert s[|prefix|..j] == run;
    assert j < |s| ==> s[j] == rest[0];
    assert IsLongestRun(s, |prefix|, j, cls);
    LongestRunUnique(s, |prefix|, RunEnd(s, |prefix|, cls), j, cls);
  }

  // ---------------------------------------------------------------------
  // MD_VERSION_RE = ^##\s(?P<version>[a-zA-Z0-9.+]+)\s?\(?(?P<date>[0-9-]+)?\)?

  /** The groups of a version header: `version` always participates, `date`
      may not. */
  datatype VersionFields = VersionFields(version: string, date: Option<string>)

  /** Where the date group can start once the version group ends at `e`:
      past `\s?` and then `\(?`, each of which consumes its character when it
      is there (everything after the version group is optional, so the match
      never has to give one back). */
  function DateStart(line: string, e: nat): (q: nat)
    requires e <= |line|
    ensures e <= q <= |line|
  {
    var p := if e < |line| && IsSpace(line[e]) then e + 1 else e;
    if p < |line| && line[p] == '(' then p + 1 else p
  }

  /** `parse_md_version`: None stands for the empty dict. */
  function ParseMdVersion(line: string): (r: Option<VersionFields>)
    ensures r.Some? <==>
              |line| >= 4 && line[0] == '#' && line[1] == '#' && IsSpace(line[2])
              && InClass(line[3], VersionChars)
    ensures r.Some? ==> r.value.version != [] && IsLongestRun(line, 3, 3 + |r.value.version|, VersionChars)
                        && line[3..3 + |r.value.version|] == r.value.version
    ensures r.Some? && r.value.date.Some? ==>
              r.value.date.value != [] && AllIn(r.value.date.value, DateChars)
    ensures r.Some? ==>
              var q := DateStart(line, 3 + |r.value.version|);
              && (r.value.date.None? <==> q == |line| || !InClass(line[q], DateChars))
              && (r.value.date.Some? ==>
                    IsLongestRun(line, q, q + |r.value.date.value|, DateChars)
                    && line[q..q + |r.value.date.value|] == r.value.date.value)
  {
    if |line| >= 3 && line[0] == '#' && line[1] == '#' && IsSpace(line[2]) then
      var e := RunEnd(line, 3, VersionChars);
      EmptyRun(line, 3, VersionChars);
      if e == 3 then None
      else
        var version := line[3..e];
        assert 3 + |version| == e;
        var q := DateStart(line, e);
        var d := RunEnd(line, q, DateChars);
        EmptyRun(line, q, DateChars);
        if d == q then Some(VersionFields(version, None))
        else
          var date := line[q..d];
          assert q + |date| == d;
          Some(VersionFields(version, Some(date)))
    else
      None
  }

  /** A header as the changelog writes it, "## <version> (<date>)", followed
      by anything at all, parses back to its version and date. */
  lemma VersionHeaderRoundTrip(version: string, date: string, rest: string)
    requires version != [] && AllIn(version, VersionChars)
    requires date != [] && AllIn(date, DateChars)
    ensures ParseMdVersion("## " + version + " (" + date + ")" + rest)
            == Some(VersionFields(version, Some(date)))
  {
    var line := "## " + version + " (" + date + ")" + rest;
    var e := 3 + |version|;
    var d := e + 2 + |date|;
    assert line[..3] == "## " && line[3..e] == version;
    assert line[e] == ' ' && line[e + 1] == '(';
    assert line[e + 2..d] == date && line[d] == ')';
    assert IsLongestRun(line, 3, e, VersionChars);
    LongestRunUnique(line, 3, RunEnd(line, 3, VersionChars), e, VersionChars);
    assert IsLongestRun(line, e + 2, d, DateChars);
    LongestRunUnique(line, e + 2, RunEnd(line, e + 2, DateChars), d, DateChars);
  }

  /** A header with no date, "## <version>", parses with the date group absent. */
  lemma VersionHeaderWithoutDate(version: string)
    requires version != [] && AllIn(version, VersionChars)
    ensures ParseMdVersion("## " + version) == Some(VersionFields(version, None))
  {
    var line := "## " + version;
    assert line == "## " + version + [];
    RunEndOf("## ", version, [], VersionChars);
    assert RunEnd(line, |line|, DateChars) == |line|;
    assert line[3..] == version;
  }

  /** Once the version run ends at a character that is neither whitespace
      nor '(', the date group starts right there. */
  lemma UnbracketedDate(line: string, e: int, d: int)
    requires |line| >= 3 && line[0] == '#' && line[1] == '#' && IsSpace(line[2])
    requires RunEnd(line, 3, VersionChars) == e && 3 < e < |line|
    requires !IsSpace(line[e]) && line[e] != '('
    requires RunEnd(line, e, DateChars) == d && e < d
    ensures ParseMdVersion(line) == Some(VersionFields(line[3..e], Some(line[e..d])))
  {
  }

  /** The version class has no '-', so a pre-release suffix ends the version
      and the date group then captures the '-' alone. */
  lemma PreReleaseVersion(line: string)
    requires line == "## 1.0.0-rc1"
    ensures ParseMdVersion(line) == Some(VersionFields("1.0.0", Some("-")))
  {
    assert line == "## " + "1.0.0" + "-rc1";
    RunEndOf("## ", "1.0.0", "-rc1", VersionChars);
    assert line == "## 1.0.0" + "-" + "rc1";
    RunEndOf("## 1.0.0", "-", "rc1", DateChars);
    UnbracketedDate(line, 8, 9);
    assert line[3..8] == "1.0.0" && line[8..9] == "-";
  }

  // ---------------------------------------------------------------------
  // MD_CHANGE_TYPE_RE = ^###\s(?P<change_type>[a-zA-Z0-9.+\s]+)

  /** `parse_md_change_type`: Some(heading) stands for {"change_type": heading},
      None for the empty dict. */
  function ParseMdChangeType(line: string): (r: Option<string>)
    ensures r.Some? <==>
              |line| >= 5 && line[0] == '#' && line[1] == '#' && line[2] == '#' && IsSpace(line[3])
              && InClass(line[4], ChangeTypeChars)
    ensures r.Some? ==> r.value != [] && IsLongestRun(line, 4, 4 + |r.value|, ChangeTypeChars)
                        && line[4..4 + |r.value|] == r.value
  {
    if |line| >= 4 && line[0] == '#' && line[1] == '#' && line[2] == '#' && IsSpace(line[3]) then
      var e := RunEnd(line, 4, ChangeTypeChars);
      if e == 4 then None else Some(line[4..e])
    else
      None
  }

  /** "### <heading>" parses back to the heading, whatever follows it once a
      character outside the class stops the capture. */
  lemma ChangeTypeRoundTrip(heading: string, rest: string)
    requires heading != [] && AllIn(heading, ChangeTypeChars)
    requires rest == [] || !InClass(rest[0], ChangeTypeChars)
    ensures ParseMdChangeType("### " + heading + rest) == Some(heading)
  {
    RunEndOf("### ", heading, rest, ChangeTypeChars);
    assert ("### " + heading + rest)[4..4 + |heading|] == heading;
  }

  /** The capture stops at the first '-': "### totally-unknown-stuff" captures
      "totally". */
  lemma ChangeTypeStopsAtHyphen()
    ensures ParseMdChangeType("### totally-unknown-stuff") == Some("totally")
  {
    assert "### totally-unknown-stuff" == "### " + "totally" + "-unknown-stuff";
    ChangeTypeRoundTrip("totally", "-unknown-stuff");
  }

  // ---------------------------------------------------------------------
  // MD_MESSAGE_RE = ^-\s(\*{2}(?P<scope>[a-zA-Z0-9]+)\*{2}:\s)?(?P<message>.+)

  /** The groups of an entry line: `scope` may not participate. */
  datatype MessageFields = MessageFields(scope: Option<string>, message: string)

  /** `line[2..]` opens with "**<scope>**:" and a whitespace character, and at
      least one message character follows: the optional group participates. */
  predicate ScopedAt(line: string, e: int)
  {
    && 4 < e && e + 4 < |line|
    && line[2] == '*' && line[3] == '*'
    && AllIn(line[4..e], ScopeChars)
    && line[e] == '*' && line[e + 1] == '*' && line[e + 2] == ':' && IsSpace(line[e + 3])
    && line[e + 4] != '\n'
  }

  /** `parse_md_message`: None stands for the empty dict. */
  function ParseMdMessage(line: string): (r: Option<MessageFields>)
    ensures r.Some? <==> |line| >= 3 && line[0] == '-' && IsSpace(line[1]) && line[2] != '\n'
    ensures r.Some? ==> r.value.message != [] && AllIn(r.value.message, MessageChars)
    ensures r.Some? && r.value.scope.None? ==>
              IsLongestRun(line, 2, 2 + |r.value.message|, MessageChars)
              && line[2..2 + |r.value.message|] == r.value.message
    ensures r.Some? && r.value.scope.Some? ==>
              var e := 4 + |r.value.scope.value|;
              ScopedAt(line, e) && line[4..e] == r.value.scope.value
              && IsLongestRun(line, e + 4, e + 4 + |r.value.message|, MessageChars)
              && line[e + 4..e + 4 + |r.value.message|] == r.value.message
    ensures r.Some? && r.value.scope.None? ==> forall e :: !ScopedAt(line, e)
  {
    if |line| >= 3 && line[0] == '-' && IsSpace(line[1]) && line[2] != '\n' then
      var e := if line[2] == '*' && 3 < |line| && line[3] == '*' then RunEnd(line, 4, ScopeChars) else 4;
      if e <= |line| && ScopedAt(line, e) then
        var m := RunEnd(line, e + 4, MessageChars);
        Some(MessageFields(Some(line[4..e]), line[e + 4..m]))
      else
        // the optional group is skipped and `.+` starts right after "-\s"
        OnlyScopeEnd(line);
        var m := RunEnd(line, 2, MessageChars);
        Some(MessageFields(None, line[2..m]))
    else
      None
  }

  /** The scope group can only close where the scope run ends: `*` is not a
      scope character, so a backtracking matcher has no other place to try. */
  lemma OnlyScopeEnd(line: string)
    ensures forall e :: ScopedAt(line, e) ==> e == RunEnd(line, 4, ScopeChars)
  {
    forall e | ScopedAt(line, e)
      ensures e == RunEnd(line, 4, ScopeChars)
    {
      assert IsLongestRun(line, 4, e, ScopeChars);
      LongestRunUnique(line, 4, e, RunEnd(line, 4, ScopeChars), ScopeChars);
    }
  }

  /** Once the scope run and the message run are located, the parser returns
      the two of them. */
  lemma ScopedParse(line: string, e: int, m: int)
    requires |line| >= 2 && line[0] == '-' && IsSpace(line[1]) && ScopedAt(line, e)
    requires RunEnd(line, 4, ScopeChars) == e && e + 4 <= m <= |line|
    requires RunEnd(line, e + 4, MessageChars) == m
    ensures ParseMdMessage(line) == Some(MessageFields(Some(line[4..e]), line[e + 4..m]))
  {
  }

  /** "- **<scope>**: <message>" parses back to its scope and message. */
  lemma ScopedEntryRoundTrip(scope: string, message: string, rest: string)
    requires scope != [] && AllIn(scope, ScopeChars)
    requires message != [] && AllIn(message, MessageChars)
    requires rest == [] || rest[0] == '\n'
    ensures ParseMdMessage("- **" + scope + "**: " + message + rest)
            == Some(MessageFields(Some(scope), message))
  {
    var tail := "**: " + message + rest;
    var line := "- **" + scope + "**: " + message + rest;
    assert line == "- **" + scope + tail;
    RunEndOf("- **", scope, tail, ScopeChars);
    var e := 4 + |scope|;
    var pre := "- **" + scope + "**: ";
    RunEndOf(pre, message, rest, MessageChars);
    assert line[4..e] == scope;
    assert line[e + 4..e + 4 + |message|] == message;
    assert ScopedAt(line, e);
    ScopedParse(line, e, e + 4 + |message|);
  }

  /** "- <message>" parses to the message with no scope, provided the message
      does not itself open with '*'. */
  lemma PlainEntryRoundTrip(message: string, rest: string)
    requires message != [] && AllIn(message, MessageChars) && message[0] != '*'
    requires rest == [] || rest[0] == '\n'
    ensures ParseMdMessage("- " + message + rest) == Some(MessageFields(None, message))
  {
    var line := "- " + message + rest;
    assert line[2] == message[0];
    RunEndOf("- ", message, rest, MessageChars);
    assert line[2..2 + |message|] == message;
  }

  /** A scoped entry of the docstring's format. */
  lemma ScopedEntryExample()
    ensures ParseMdMessage("- **auth**: fix login bug")
            == Some(MessageFields(Some("auth"), "fix login bug"))
  {
    var scope, message := "auth", "fix login bug";
    assert AllIn(scope, ScopeChars) && AllIn(message, MessageChars);
    assert "- **auth**: fix login bug" == "- **" + scope + "**: " + message + "";
    ScopedEntryRoundTrip(scope, message, "");
  }

  /** An unscoped entry. */
  lemma PlainEntryExample()
    ensures ParseMdMessage("- fix login bug") == Some(MessageFields(None, "fix login bug"))
  {
    var message := "fix login bug";
    assert AllIn(message, MessageChars);
    assert "- fix login bug" == "- " + message + "";
    PlainEntryRoundTrip(message, "");
  }

  /** A dated header of the docstring's format. */
  lemma DatedVersionExample()
    ensures ParseMdVersion("## 1.2.1 (2019-07-20)") == Some(VersionFields("1.2.1", Some("2019-07-20")))
  {
    var version, date := "1.2.1", "2019-07-20";
    assert AllIn(version, VersionChars) && AllIn(date, DateChars);
    assert "## 1.2.1 (2019-07-20)" == "## " + version + " (" + date + ")" + "";
    VersionHeaderRoundTrip(version, date, "");
  }

  /** A header without a date. */
  lemma UndatedVersionExample()
    ensures ParseMdVersion("## 1.2.1") == Some(VersionFields("1.2.1", None))
  {
    var version := "1.2.1";
    assert AllIn(version, VersionChars);
    assert "## 1.2.1" == "## " + version;
    VersionHeaderWithoutDate(version);
  }
}
