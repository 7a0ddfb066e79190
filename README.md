# A verified model of commitizen's changelog parser

commitizen's `changelog.py` reads an existing `CHANGELOG.md` back into data.
It has three steps:

1. `find_version_blocks` cuts the file into version blocks. A new block starts at every line beginning with `"## "`, after each line is stripped of `"\n"` at both ends and blank lines are dropped.
2. `generate_block_tree` turns one block into a tree:
   - the groups of the version header (`MD_VERSION_RE`);
   - one commit per `"- "` entry line (`MD_MESSAGE_RE`).

   Each commit carries the change type of the last `"### "` heading before it (`MD_CHANGE_TYPE_RE`). That change type is normalised by `transform_change_type` against the ordered table `CATEGORIES`.
3. `generate_full_tree` does this for every block in turn.

The project models these steps in Dafny and proves what they promise.

| file | module | models |
|---|---|---|
| `wrappers.dfy` | `Wrappers` | `Option` (a regex group that may not participate, a dict that may be empty) and `Result` (a `ValueError` that aborts). |
| `text.dfy` | `Text` | The string primitives the code leans on: Python's `\s`, `str.lower()`, `in` on strings (`re.search` with a literal token) and `str.strip("\n")`. |
| `patterns.dfy` | `Patterns` | The three compiled patterns and `parse_md_version`, `parse_md_change_type`, `parse_md_message`. Each is a deterministic recogniser: a greedy class is the longest run of that class. |
| `categories.dfy` | `Categories` | `CATEGORIES` and `transform_change_type`. The method `TransformChangeType` is proved against the function `Normalize`. |
| `blocks.dfy` | `Blocks` | `find_version_blocks`. The method `FindVersionBlocks` is proved against the predicate `IsVersionBlocks`, and that segmentation is proved unique. |
| `tree.dfy` | `Tree` | `generate_block_tree` and `generate_full_tree`. The method `GenerateBlockTree` is proved against the fold `BuildTree`. `BuildTree` is in turn described by independent reference definitions: the last header, the change type in force, the entry count, and the first unknown heading. |
| `scenarios.dfy` | `Scenarios` | The whole pipeline on changelogs laid out like the docstring's release section. |
| `findings.dfy` | `Findings` | The docstring's example as literally written (see "Findings"). |

`find_version_blocks`, `transform_change_type` and `generate_block_tree` update variables in a loop. They are modelled as methods whose loops carry invariants. The recognisers and `generate_full_tree` compute values, so they are functions.

## Model

| member | source | states |
|---|---|---|
| `Text.IsSpace` | commitizen/changelog.py:24-26 | On ASCII, `\s` holds for exactly the ten characters `str.isspace()` accepts: space, `\t`, `\n`, `\r`, `\v`, `\f` and U+001C to U+001F. |
| `Text.LowerChar` | commitizen/changelog.py:101 | The lower case of one character is never empty. It maps `A`-`Z` to `a`-`z` and keeps every other ASCII character. |
| `Text.Lower` | commitizen/changelog.py:101 | `str.lower()` never shortens the text. |
| `Text.IsSubstring` | commitizen/changelog.py:103 | A token is found only in a text at least as long as itself, and the empty token is found in every text. |
| `Text.StripNewlines` | commitizen/changelog.py:66 | `strip("\n")` never lengthens the line, and neither end of what it leaves is a `"\n"`. |
| `Text.StripNewlinesWindow` | commitizen/changelog.py:66 | What `strip("\n")` leaves is a window of the line with only `"\n"` outside it. |
| `Text.StripLineEnd` | commitizen/changelog.py:65-66 | A `"\n"`-terminated line of text whose own ends are not `"\n"` strips back to that text. |
| `Text.IsSubstringIff` | commitizen/changelog.py:103 | The recursive search for a literal token agrees with "some window of the text equals the token". |
| `Text.LowerAscii` | commitizen/changelog.py:101 | On ASCII text `str.lower()` maps character by character and keeps the length. |
| `Patterns.RunEnd` | commitizen/changelog.py:24-26 | The end of a greedy character-class repetition is a longest run of that class. |
| `Patterns.LongestRunUnique` | commitizen/changelog.py:24-26 | There is only one longest run from a given position, so a greedy capture is determined. |
| `Patterns.RunEndOf` | commitizen/changelog.py:24-26 | A run of the class followed by a character outside it, or by the end, is exactly what the repetition consumes. |
| `Patterns.ParseMdVersion` | commitizen/changelog.py:79-83 | With `MD_VERSION_RE` of line 24: matches exactly when the line opens with `"##"`, whitespace and a version character. The version group is the longest version-class run after `"## "`. The date group starts after one optional whitespace character and then one optional `(`. It is absent exactly when no `[0-9-]` character stands there. Otherwise it is the longest `[0-9-]` run from there. |
| `Patterns.VersionHeaderRoundTrip` | commitizen/changelog.py:24 | `"## <version> (<date>)"`, followed by anything, parses back to that version and date. |
| `Patterns.VersionHeaderWithoutDate` | commitizen/changelog.py:24 | `"## <version>"` parses with the date group absent. |
| `Patterns.PreReleaseVersion` | commitizen/changelog.py:24 | `"## 1.0.0-rc1"` gives version `"1.0.0"` and date `"-"`, since `-` is outside the version class and inside the date class. |
| `Patterns.DatedVersionExample` | commitizen/changelog.py:51 | The docstring's header `"## 1.2.1 (2019-07-20)"` gives version `"1.2.1"` and date `"2019-07-20"`. |
| `Patterns.UndatedVersionExample` | commitizen/changelog.py:24 | `"## 1.2.1"` gives version `"1.2.1"` and no date. |
| `Patterns.ParseMdChangeType` | commitizen/changelog.py:86-90 | With `MD_CHANGE_TYPE_RE` of line 25: matches exactly when the line opens with `"###"`, whitespace and a heading character. The capture is the longest heading-class run after `"### "`. |
| `Patterns.ChangeTypeRoundTrip` | commitizen/changelog.py:25 | `"### <heading>"` parses back to the heading once a character outside the class, or the end, follows it. |
| `Patterns.ChangeTypeStopsAtHyphen` | commitizen/changelog.py:25 | `"### totally-unknown-stuff"` captures `"totally"`. |
| `Patterns.ParseMdMessage` | commitizen/changelog.py:93-97 | With `MD_MESSAGE_RE` of line 26: matches exactly when the line opens with `"-"`, whitespace and a character other than `"\n"`. With a scope, the line holds `"**<scope>**:"` and whitespace, and the message is the longest run after it. Without one, the message is the longest run after `"- "`, and this reading is taken only when no position closes a scope group that a message could follow. |
| `Patterns.ScopedEntryRoundTrip` | commitizen/changelog.py:26 | `"- **<scope>**: <message>"` parses back to its scope and message. |
| `Patterns.PlainEntryRoundTrip` | commitizen/changelog.py:26 | `"- <message>"` parses to the message with no scope, provided the message does not open with `*`. |
| `Patterns.ScopedEntryExample` | commitizen/changelog.py:26 | `"- **auth**: fix login bug"` gives scope `"auth"` and message `"fix login bug"`. |
| `Patterns.PlainEntryExample` | commitizen/changelog.py:26 | `"- fix login bug"` gives no scope and message `"fix login bug"`. |
| `Categories.FirstHitFrom` | commitizen/changelog.py:102-104 | Returns the first rule from a given index whose token occurs in the text, or None when no later rule hits. |
| `Categories.Normalize` | commitizen/changelog.py:100-106 | A result is one of the nine labels. An error is `UnrecognizedCategory` carrying the heading it was given. |
| `Categories.NormalizeIsFirstHit` | commitizen/changelog.py:100-106 | Normalisation succeeds if and only if some token occurs in the lower-cased heading. The label is then the first such rule's output. |
| `Categories.TransformChangeType` | commitizen/changelog.py:100-106 | The loop over the table returns exactly `Normalize` of its argument: the first hit's label, or the error. |
| `Categories.EveryRuleReachable` | commitizen/changelog.py:32-42 | No rule of `CATEGORIES` is shadowed by an earlier one. Each token, taken as a heading, is normalised to its own rule's label, so every one of the nine labels can be produced. |
| `Categories.EarlierRuleWins` | commitizen/changelog.py:32-42 | Once rule `i` hits, no later rule's label is returned. |
| `Categories.FixBeforeFeat` | commitizen/changelog.py:32-42 | Any heading whose lower-cased form holds `"fix"` is normalised to `"fix"`, whatever else it holds (say "Features and fixes"). |
| `Categories.UnknownHeading` | commitizen/changelog.py:105-106 | `"totally"` holds none of the tokens and is rejected, with itself in the error. |
| `Categories.BugFixesHeading` | commitizen/changelog.py:100-104 | `"Bug fixes"` is normalised to `"fix"`. |
| `Categories.FeaturesHeading` | commitizen/changelog.py:100-104 | `"Features"` is normalised to `"feat"`. |
| `Blocks.Cleaned` | commitizen/changelog.py:65-68 | The kept lines number at most the input lines, and none of them is empty. |
| `Blocks.CleanedSound` | commitizen/changelog.py:65-68 | Every kept line is the stripped form of some input line. |
| `Blocks.CleanedComplete` | commitizen/changelog.py:65-68 | Every input line that is not blank after stripping is kept. |
| `Blocks.FindVersionBlocks` | commitizen/changelog.py:45-76 | The blocks yielded form a segmentation of the kept lines. They concatenate to those lines in order, and there is at least one block. A `"## "` line stands only at the front of a block. Every block after the first opens with one. An empty first block is the only block. |
| `Blocks.SegmentationShape` | commitizen/changelog.py:71-76 | No kept line gives the single empty block. Otherwise no block is empty. |
| `Blocks.SegmentationUnique` | commitizen/changelog.py:64-76 | Two segmentations of the same kept lines are equal, so the segmentation property fully describes the output. |
| `Blocks.SingleBlock` | commitizen/changelog.py:70-76 | Kept lines with a `"## "` line first and no other form exactly one block. |
| `Blocks.VersionBlocksShape` | commitizen/changelog.py:64-76 | A file none of whose lines survives stripping yields exactly one empty block. Otherwise every block is non-empty. |
| `Tree.Step` | commitizen/changelog.py:113-127 | One loop turn only appends to the commits: one commit on an entry line, none on any other line. It can raise only on a `"### "` line. |
| `Tree.Run` | commitizen/changelog.py:110-128 | The loop over a block leaves at most one commit per line. If it raises, the block holds a `"### "` line. |
| `Tree.BuildTree` | commitizen/changelog.py:109-128 | The tree returned has at most one commit per line of the block. If it raises, the block holds a `"### "` line. |
| `Tree.ErrorPersists` | commitizen/changelog.py:120 | Once the loop has raised, the rest of the block is not looked at. |
| `Tree.GenerateBlockTree` | commitizen/changelog.py:109-128 | The loop returns exactly `BuildTree` of the block: the fold of one loop turn per line, stopped by the first `ValueError`. |
| `Tree.RunState` | commitizen/changelog.py:110-128 | After a loop that completes, the reference definitions describe the state. The header is the last matching `"## "` line's groups. The change type is the one in force. There is one commit per entry line, each with its line's groups and the change type in force there. |
| `Tree.BuildTreeContents` | commitizen/changelog.py:109-128 | A tree that builds has the last matching header and one commit per entry line, in order. Each commit has the entry's groups and the change type in force at that line. |
| `Tree.BuildTreeFails` | commitizen/changelog.py:116-120 | Building fails if and only if the block holds a `"### "` line whose capture no rule matches. The error names the first such line's capture. |
| `Tree.StepFails` | commitizen/changelog.py:113-127 | One loop turn raises exactly on such a line, with its capture in the error. |
| `Tree.RunFails` | commitizen/changelog.py:112-128 | The loop raises if and only if some line of the block is an unknown heading. |
| `Tree.RunErrorNamesFirst` | commitizen/changelog.py:112-128 | The error raised names the capture of the first unknown heading in the block. |
| `Tree.SegmentedBlock` | commitizen/changelog.py:113-115 | In a block as the segmenter yields it, the header comes from the block's first line alone. |
| `Tree.GenerateFullTree` | commitizen/changelog.py:131-133 | Yields one tree per block, in block order, up to the first block that raises. Each tree is that block's `BuildTree`. Without an error every block has its tree. With one, the failing block is the one after the last tree. |
| `Tree.PartialForest` | commitizen/changelog.py:131-133 | The trees of the first `n` blocks are a prefix of the trees of all blocks, so consuming the generator partially sees a prefix. |
| `Scenarios.PageKept` | commitizen/changelog.py:63-68 | In a file of text lines, each with its line end and each followed by a blank line, the segmenter keeps exactly the text lines. |
| `Scenarios.SingleSection` | commitizen/changelog.py:45-76 | Such a file holding one release section is segmented into exactly that section. |
| `Scenarios.ReleaseSectionTree` | commitizen/changelog.py:109-128 | A section laid out like the docstring's builds a tree with the header's version and date. It has two commits, each filed under the label its heading normalises to. |
| `Scenarios.ReleaseForest` | commitizen/changelog.py:45-133 | End to end, such a section written as a file gives exactly one tree and no error. |
| `Scenarios.DocstringRelease` | commitizen/changelog.py:51-59 | The docstring's release with `"### "` headings gives one tree. It is dated 2019-07-20, with the username fix under `"fix"` and the login system under `"feat"`. |
| `Scenarios.UnknownHeadingAborts` | commitizen/changelog.py:109-133 | A `"### totally-unknown-stuff"` heading aborts the block with the error carrying `"totally"`. The full tree then yields no tree before the error. |
| `Findings.ThreeSections` | commitizen/changelog.py:70-76 | Five kept lines with `"## "` lines at positions 0, 1 and 3 only form exactly three blocks. |
| `Findings.VersionThenWord` | commitizen/changelog.py:24 | `"## <version> <word>"`, where the word cannot open a date, matches with that version and no date. |
| `Findings.HeaderEntryTree` | commitizen/changelog.py:113-125 | A `"## "` line followed by one entry builds a tree whose one commit has no change type. |
| `Findings.MisleveledForest` | commitizen/changelog.py:45-133 | A release whose category headings use `"## "` gives three trees. The release keeps its date but no commits. Each heading becomes a release named by its first word, holding one uncategorised entry. |
| `Findings.DocstringAsWritten` | commitizen/changelog.py:51-59 | The docstring's example as written gives three trees. `"1.2.1"` has no commits. `"Bug"` and `"Features"` appear as versions with no date. |

## Left out

- Opening and reading the file (`commitizen/changelog.py:63`): the input of `find_version_blocks` is the sequence of lines the loop receives.
- The diagnostic `print` for a line of no known kind (`commitizen/changelog.py:127`): the model only keeps its effect, which is that nothing changes.
- Generators. `find_version_blocks` and `generate_full_tree` are lazy in the source.
  - The model returns the whole list of blocks.
  - The model returns the trees yielded before the first error, together with that error, as a `Forest`.
  - `PartialForest` covers a caller that stops early. Interleaving with the caller is not modelled.
- The general regular-expression engine: each of the three patterns is written out as the recogniser it amounts to.
- `re.search` with the table's tokens is modelled as a literal substring test. No token holds a regex metacharacter.
- `str.lower()` on characters outside ASCII is the identity in the model, except for U+0130 and U+212A. Those two are the only ones whose lower case holds an ASCII letter. No other character can create or destroy a match of the ASCII tokens.
- Key order of the Python dicts and the exception message text are not modelled.
  - The tree is `VersionTree(header, commits)`.
  - A commit is `Commit(fields, changeType)`, where `fields` is None when the entry line did not match.
  - The `ValueError` is `UnrecognizedCategory` holding the argument of `transform_change_type`.
- The error of an unknown heading carries the captured group, not the whole heading text. For `"### totally-unknown-stuff"` the model gives `"totally"`, following `commitizen/changelog.py:117-120`.
- The git-log half of the design notes (`commitizen/changelog.py:1-20`), and turning a tree back into markdown, have no code in this file.

## Findings

| source | as written | input that shows it | evidently intended | confidence | as-written member | corrected member |
|---|---|---|---|---|---|---|
| commitizen/changelog.py:51-59 | The docstring's example of a version block writes its category headings as `## Bug fixes` and `## Features`. `find_version_blocks` starts a new version block at each of them, and `parse_md_version` reads `"## Bug fixes"` as version `"Bug"` with no date. | The five lines `## 1.2.1 (2019-07-20)`, `## Bug fixes`, `- username validation not working`, `## Features`, `- new login system` give three trees. `1.2.1` has no commits. The entries sit under versions `Bug` and `Features`, with no change type. | Category headings use `### `, which `generate_block_tree` looks for at line 116. The example is then one release with the fix under `fix` and the login system under `feat`. | high; not executed | `Findings.DocstringAsWritten` | `Scenarios.DocstringRelease` |
