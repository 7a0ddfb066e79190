/** `CATEGORIES` and `transform_change_type` of commitizen/changelog.py: a
    free-text change-type heading is normalised to the output of the first
    table entry whose token occurs in the lower-cased heading. */
module Categories {
  import opened Wrappers
  import opened Text

  /** One row of the table: a search token and the label it maps to. */
  datatype Rule = Rule(token: string, output: string)

  /** The table, in the order that decides precedence. */
  const Categories: seq<Rule> := [
    Rule("fix", "fix"),
    Rule("breaking", "BREAKING CHANGES"),
    Rule("feat", "feat"),
    Rule("refactor", "refactor"),
    Rule("perf", "perf"),
    Rule("test", "test"),
    Rule("build", "build"),
    Rule("ci", "ci"),
    Rule("chore", "chore")
  ]

  /** The nine labels a heading can be normalised to. */
  const Outputs: set<string> :=
    {"fix", "BREAKING CHANGES", "feat", "refactor", "perf", "test", "build", "ci", "chore"}

  /** The `ValueError` raised when no token matches; it carries the heading. */
  datatype Error = UnrecognizedCategory(changeType: string)

  /** The token of rule `k` occurs in `lowered`. */
  predicate Hits(lowered: string, k: int)
  {
    0 <= k < |Categories| && IsSubstring(Categories[k].token, lowered)
  }

  /** Rule `k` is the first rule whose token occurs in `lowered`. */
  predicate IsFirstHit(lowered: string, k: int)
  {
    Hits(lowered, k) && forall j :: 0 <= j < k ==> !Hits(lowered, j)
  }

  /** Index of the first rule, from `k` on, whose token occurs in `lowered`. */
  function FirstHitFrom(lowered: string, k: nat): (r: Option<nat>)
    requires k <= |Categories|
    decreases |Categories| - k
    ensures r.Some? ==> k <= r.value && Hits(lowered, r.value)
                        && forall j :: k <= j < r.value ==> !Hits(lowered, j)
    ensures r.None? ==> forall j :: k <= j < |Categories| ==> !Hits(lowered, j)
  {
    if k == |Categories| then None
    else if IsSubstring(Categories[k].token, lowered) then Some(k)
    else FirstHitFrom(lowered, k + 1)
  }

  /** What `transform_change_type` returns or raises, as a value. */
  function Normalize(changeType: string): (r: Result<string, Error>)
    ensures r.Ok? ==> r.value in Outputs
    ensures r.Err? ==> r.error == UnrecognizedCategory(changeType)
  {
    match FirstHitFrom(Lower(changeType), 0)
    case Some(k) => Ok(Categories[k].output)
    case None => Err(UnrecognizedCategory(changeType))
  }

  /** Normalisation succeeds exactly when some token occurs in the lower-cased
      heading, and then the first such rule decides the label. */
  lemma NormalizeIsFirstHit(changeType: string)
    ensures Normalize(changeType).Ok? ==> exists k :: Hits(Lower(changeType), k)
    ensures (exists k :: Hits(Lower(changeType), k)) ==> Normalize(changeType).Ok?
    ensures forall k :: IsFirstHit(Lower(changeType), k) ==> Normalize(changeType) == Ok(Categories[k].output)
  {
    var lowered := Lower(changeType);
    var r := FirstHitFrom(lowered, 0);
    assert Normalize(changeType).Ok? <==> r.Some?;
    if exists k :: Hits(lowered, k) {
      var k :| Hits(lowered, k);
      assert r.Some?;
    }
    if r.Some? {
      assert Hits(lowered, r.value);
    }
    forall k | IsFirstHit(lowered, k)
      ensures r == Some(k)
    {
      assert r.Some? && !(r.value < k) && !(r.value > k);
    }
  }

  /** `transform_change_type`: the loop over the table returns at the first
      token found in the lower-cased heading and raises when there is none. */
  method TransformChangeType(changeType: string) returns (r: Result<string, Error>)
    ensures r == Normalize(changeType)
  {
    var lowered := Lower(changeType);
    for i := 0 to |Categories|
      invariant forall j :: 0 <= j < i ==> !Hits(lowered, j)
    {
      if IsSubstring(Categories[i].token, lowered) {
        NormalizeIsFirstHit(changeType);
        assert IsFirstHit(lowered, i);
        return Ok(Categories[i].output);
      }
    }
    return Err(UnrecognizedCategory(changeType));
  }

  /** Precedence: once rule `i` hits, no later rule `j` decides the label. */
  lemma EarlierRuleWins(changeType: string, i: nat, j: nat)
    requires i < j < |Categories| && Hits(Lower(changeType), i)
    ensures Normalize(changeType) != Ok(Categories[j].output)
  {
    var r := FirstHitFrom(Lower(changeType), 0);
    assert r.Some? && r.value <= i;
  }

  /** No rule of the table is shadowed by an earlier one: each token, taken
      as a heading, is normalised to its own rule's label.  So every one of
      the nine labels can be produced, and the order of the table only
      matters for headings holding two tokens. */
  lemma EveryRuleReachable(k: nat)
    requires k < |Categories|
    ensures Normalize(Categories[k].token) == Ok(Categories[k].output)
  {
    var token := Categories[k].token;
    LowerOfLowercase(token);
    NoEarlierToken(k);
    assert Hits(token, k);
    FirstHitDecides(token, k);
  }

  /** No token occurs in a later one. */
  lemma NoEarlierToken(k: nat)
    requires k < |Categories|
    ensures forall j :: 0 <= j < k ==> !Hits(Categories[k].token, j)
  {
    if k < 5 {
      NoEarlierTokenLow(k);
    } else {
      NoEarlierTokenHigh(k);
    }
  }

  /** NoEarlierToken for the first five rules.  Each list gives, for every
      earlier rule, a character of its token that token k lacks ("feat" and
      "refactor" share all their characters and are settled apart). */
  lemma NoEarlierTokenLow(k: nat)
    requires k < 5
    ensures forall j :: 0 <= j < k ==> !Hits(Categories[k].token, j)
  {
    if k == 1 {
      TokensMissing(Categories[k].token, [2]);
    } else if k == 2 {
      TokensMissing(Categories[k].token, [1, 0]);
    } else if k == 3 {
      forall j | 0 <= j < 3
        ensures !Hits(Categories[k].token, j)
      {
        if j == 2 {
          FeatNotInRefactor(Categories[k].token);
          assert Categories[j].token == "feat";
        } else {
          TokensMissing(Categories[k].token, [2, 0]);
        }
      }
    } else if k == 4 {
      TokensMissing(Categories[k].token, [1, 0, 2, 6]);
    }
  }

  /** NoEarlierToken for the last four rules (split off to keep each proof
      small). */
  lemma NoEarlierTokenHigh(k: nat)
    requires 5 <= k < |Categories|
    ensures forall j :: 0 <= j < k ==> !Hits(Categories[k].token, j)
  {
    if k == 5 {
      TokensMissing(Categories[k].token, [0, 0, 0, 0, 0]);
    } else if k == 6 {
      TokensMissing(Categories[k].token, [0, 1, 0, 0, 0, 0]);
    } else if k == 7 {
      TokensMissing(Categories[k].token, [0, 0, 0, 0, 0, 0, 0]);
    } else {
      TokensMissing(Categories[k].token, [0, 0, 0, 2, 0, 0, 0, 1]);
    }
  }

  /** For the first |missing| rules, character missing[j] of token j does
      not occur in `s`, so none of those tokens occurs in it. */
  lemma TokensMissing(s: string, missing: seq<nat>)
    requires |missing| <= |Categories|
    requires forall j :: 0 <= j < |missing| ==>
               missing[j] < |Categories[j].token| && Categories[j].token[missing[j]] !in s
    ensures forall j :: 0 <= j < |missing| ==> !Hits(s, j)
  {
    forall j | 0 <= j < |missing|
      ensures !Hits(s, j)
    {
      SubstringNeedsChar(Categories[j].token, s, missing[j]);
    }
  }

  /** "feat" does not occur in "refactor": its only 'f' is followed by 'a'. */
  lemma FeatNotInRefactor(s: string)
    requires s == "refactor"
    ensures !IsSubstring("feat", s)
  {
    IsSubstringIff("feat", s);
    forall i | 0 <= i <= |s| - 4
      ensures !OccursAt("feat", s, i)
    {
      if i == 2 {
        assert s[i..i + 4][1] == 'a';
      } else {
        assert s[i..i + 4][0] != 'f';
      }
    }
  }

  /** "fix" is the first token of the table, so a text holding it goes to
      rule 0 whatever else it holds. */
  lemma FixWins(lowered: string, i: int)
    requires OccursAt("fix", lowered, i)
    ensures IsFirstHit(lowered, 0)
  {
    IsSubstringIff("fix", lowered);
  }

  /** A heading naming several categories takes the earliest rule: "fix" comes
      first in the table, so any heading whose lower-cased form holds "fix"
      (say "Features and fixes") is normalised to "fix". */
  lemma FixBeforeFeat(heading: string, i: int)
    requires OccursAt("fix", Lower(heading), i)
    ensures Normalize(heading) == Ok("fix")
  {
    FixWins(Lower(heading), i);
    NormalizeIsFirstHit(heading);
  }

  /** "totally" holds none of the tokens. */
  lemma NoTokenInTotally(lowered: string)
    requires lowered == "totally"
    ensures forall k :: 0 <= k < |Categories| ==> !Hits(lowered, k)
  {
    // a character of each token that "totally" lacks
    TokensMissing(lowered, [0, 0, 0, 0, 0, 1, 0, 0, 0]);
  }

  /** A heading holding none of the tokens is rejected, with the heading in
      the error. */
  lemma UnknownHeading(heading: string)
    requires heading == "totally"
    ensures Normalize(heading) == Err(UnrecognizedCategory(heading))
  {
    LowerOfLowercase(heading);
    NoTokenInTotally(Lower(heading));
    NormalizeIsFirstHit(heading);
  }

  /** The rule that is the first hit decides the label. */
  lemma FirstHitDecides(heading: string, k: int)
    requires IsFirstHit(Lower(heading), k)
    ensures Normalize(heading) == Ok(Categories[k].output)
  {
    NormalizeIsFirstHit(heading);
  }

  /** The headings of the changelog format's own example: "Bug fixes"... */
  lemma BugFixesHeading(heading: string)
    requires heading == "Bug fixes"
    ensures Normalize(heading) == Ok("fix")
  {
    LowerCapitalised(heading);
    var lowered := Lower(heading);
    assert lowered == "bug fixes";
    assert OccursAt("fix", lowered, 4);
    FixBeforeFeat(heading, 4);
  }

  /** "features" holds "feat" and neither "fix" nor "breaking". */
  lemma FeatFirstInFeatures(lowered: string)
    requires lowered == "features"
    ensures IsFirstHit(lowered, 2)
  {
    assert Categories[2].token <= lowered;
    TokensMissing(lowered, [2, 0]);
  }

  /** ... and "Features". */
  lemma FeaturesHeading(heading: string)
    requires heading == "Features"
    ensures Normalize(heading) == Ok("feat")
  {
    LowerCapitalised(heading);
    FeatFirstInFeatures(Lower(heading));
    FirstHitDecides(heading, 2);
  }
}
