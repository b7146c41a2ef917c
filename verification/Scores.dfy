/** The score functions of check-documentation.ts: their clamps never change a score. */
module Scores {
  import opened Collections

  datatype Issue = Sensitive | InternalPaths | SqlLike

  datatype Endpoint = Endpoint(
    hasDescription: bool, hasSummary: bool, descriptionLength: nat,
    hasBody: bool, hasParams: bool, hasQuerystring: bool, hasResponse: bool,
    statusCodes: nat, responseHasDetails: bool, hasRequiredFields: bool,
    bodyProperties: seq<bool>, queryProperties: seq<bool>,
    hasSecurity: bool, hasTags: bool, schemaComplete: bool, securityIssues: seq<Issue>)

  /** How many of the counted properties are described: one flag for each counted property. */
  function Described(properties: seq<bool>): (n: nat)
    ensures n <= |properties|
    ensures n == |properties| <==> false !in properties
  {
    if properties == [] then 0
    else
      var front, last := properties[..|properties| - 1], properties[|properties| - 1];
      assert properties == front + [last];
      Described(front) + (if last then 1 else 0)
  }

  lemma RatioBound(part: nat, whole: nat)
    requires part <= whole && whole > 0
    ensures 0.0 <= part as real / whole as real * 5.0 <= 5.0
    ensures part as real / whole as real * 5.0 == 5.0 <==> part == whole
  {
  }

  /** Everything the score asks for is there. */
  predicate FullyDocumented(e: Endpoint) {
    && e.hasDescription && e.hasSummary && e.descriptionLength > 50
    && (e.hasBody || e.hasParams || e.hasQuerystring) && e.hasResponse
    && e.statusCodes >= 4 && e.responseHasDetails && e.hasRequiredFields
    && false !in e.bodyProperties && false !in e.queryProperties
    && e.hasSecurity && e.hasTags && e.schemaComplete
  }

  function Worth(condition: bool, points: int): int {
    if condition then points else 0
  }

  /** What the conditions that hold are worth, group by group. */
  function EarnedBasics(e: Endpoint): int {
    Worth(e.hasDescription, 10) + Worth(e.hasSummary, 5) + Worth(e.descriptionLength > 50, 5)
    + Worth(e.hasBody || e.hasParams || e.hasQuerystring, 10) + Worth(e.hasResponse, 10)
  }

  function EarnedQuality(e: Endpoint): int {
    Worth(e.statusCodes >= 3, 10) + Worth(e.responseHasDetails, 10) + Worth(e.hasRequiredFields, 5)
  }

  function EarnedMetadata(e: Endpoint): int {
    Worth(e.hasSecurity, 10) + Worth(e.hasTags, 5) + Worth(e.statusCodes >= 4, 5) + Worth(e.schemaComplete, 10)
  }

  function Earned(e: Endpoint): int {
    EarnedBasics(e) + EarnedQuality(e) + EarnedMetadata(e)
  }

  /** How many flags are up. */
  function Up(flags: seq<bool>): nat {
    |set i | 0 <= i < |flags| && flags[i]|
  }

  /** Five times the share of described properties, or five if there are none. */
  predicate IsShare(e: Endpoint, share: real) {
    var total, described := |e.bodyProperties| + |e.queryProperties|, Up(e.bodyProperties) + Up(e.queryProperties);
    if total == 0 then share == 5.0 else share * total as real == 5.0 * described as real
  }

  lemma {:induction false} DescribedCounts(properties: seq<bool>)
    ensures Described(properties) == Up(properties)
    decreases |properties|
  {
    if properties != [] {
      var n := |properties| - 1;
      DescribedCounts(properties[..n]);
      var before := set i | 0 <= i < n && properties[..n][i];
      assert (set i | 0 <= i < |properties| && properties[i]) == before + (if properties[n] then {n} else {});
    }
  }

  lemma NoShare(e: Endpoint)
    ensures |e.bodyProperties| + |e.queryProperties| == 0 ==> IsShare(e, 5.0)
  {
  }

  lemma ShareOf(part: nat, whole: nat)
    requires whole > 0
    ensures (part as real / whole as real) * 5.0 * whole as real == 5.0 * part as real
  {
    var q := part as real / whole as real;
    assert q * whole as real == part as real;
  }

  lemma ShareIs(e: Endpoint, described: nat, total: nat, points: real)
    requires total == |e.bodyProperties| + |e.queryProperties| > 0
    requires described == Described(e.bodyProperties) + Described(e.queryProperties)
    requires points == (described as real / total as real) * 5.0
    ensures IsShare(e, points)
  {
    hide Up, Described;
    DescribedCounts(e.bodyProperties);
    DescribedCounts(e.queryProperties);
    ShareOf(described, total);
    assert points * total as real == 5.0 * described as real;
  }

  /** Adds points when a condition holds.  `most` is the greatest sum possible so far, reached exactly if
      `all` conditions so far held. */
  method Award(condition: bool, points: int, score: int, ghost most: int, ghost all: bool)
    returns (s: int, ghost m: int, ghost a: bool)
    requires points > 0 && 0 <= score <= most && (score == most <==> all)
    ensures s == score + Worth(condition, points)
    ensures m == most + points && a == (all && condition)
    ensures 0 <= s <= m && (s == m <==> a)
  {
    s, m, a := if condition then score + points else score, most + points, all && condition;
  }

  /** The share of described properties, out of five points; all five if there are none. */
  method PropertyPoints(e: Endpoint) returns (points: real)
    ensures 0.0 <= points <= 5.0 && IsShare(e, points)
    ensures points == 5.0 <==> false !in e.bodyProperties && false !in e.queryProperties
  {
    hide IsShare;
    var total := |e.bodyProperties| + |e.queryProperties|;
    NoShare(e);
    if total == 0 { return 5.0; }
    var described := Described(e.bodyProperties) + Described(e.queryProperties);
    RatioBound(described, total);
    points := (described as real / total as real) * 5.0;
    ShareIs(e, described, total, points);
  }

  method BasicPoints(e: Endpoint) returns (points: int, ghost all: bool)
    ensures points == EarnedBasics(e) && 0 <= points <= 40 && (points == 40 <==> all)
    ensures all <==> e.hasDescription && e.hasSummary && e.descriptionLength > 50
                     && (e.hasBody || e.hasParams || e.hasQuerystring) && e.hasResponse
  {
    ghost var most;
    points, most, all := 0, 0, true;
    points, most, all := Award(e.hasDescription, 10, points, most, all);
    points, most, all := Award(e.hasSummary, 5, points, most, all);
    points, most, all := Award(e.descriptionLength > 50, 5, points, most, all);
    points, most, all := Award(e.hasBody || e.hasParams || e.hasQuerystring, 10, points, most, all);
    points, most, all := Award(e.hasResponse, 10, points, most, all);
  }

  method QualityPoints(e: Endpoint) returns (points: int, ghost all: bool)
    ensures points == EarnedQuality(e) && 0 <= points <= 25 && (points == 25 <==> all)
    ensures all <==> e.statusCodes >= 3 && e.responseHasDetails && e.hasRequiredFields
  {
    ghost var most;
    points, most, all := 0, 0, true;
    points, most, all := Award(e.statusCodes >= 3, 10, points, most, all);
    points, most, all := Award(e.responseHasDetails, 10, points, most, all);
    points, most, all := Award(e.hasRequiredFields, 5, points, most, all);
  }

  method MetadataPoints(e: Endpoint) returns (points: int, ghost all: bool)
    ensures points == EarnedMetadata(e) && 0 <= points <= 30 && (points == 30 <==> all)
    ensures all <==> e.hasSecurity && e.hasTags && e.statusCodes >= 4 && e.schemaComplete
  {
    ghost var most;
    points, most, all := 0, 0, true;
    points, most, all := Award(e.hasSecurity, 10, points, most, all);
    points, most, all := Award(e.hasTags, 5, points, most, all);
    points, most, all := Award(e.statusCodes >= 4, 5, points, most, all);
    points, most, all := Award(e.schemaComplete, 10, points, most, all);
  }

  /** The score is what the conditions that hold are worth and the share of described properties.  The
      sum never exceeds 100, so the final clamp is never felt; it is 100 exactly for a fully documented
      endpoint. */
  method CalculateDocumentationScore(e: Endpoint) returns (clamped: real, score: real, share: real)
    ensures score == Earned(e) as real + share && IsShare(e, share)
    ensures 0.0 <= score <= 100.0 && clamped == score
    ensures score == 100.0 <==> FullyDocumented(e)
  {
    hide IsShare, EarnedBasics, EarnedQuality, EarnedMetadata;
    var basics, basic := BasicPoints(e);
    var quality, good := QualityPoints(e);
    share := PropertyPoints(e);
    var metadata, complete := MetadataPoints(e);
    score := (basics + quality + metadata) as real + share;
    clamped := if score > 100.0 then 100.0 else score;
  }

  // ---- Security issues ------------------------------------------------------------------------

  /** Each kind of issue is raised once or not at all: the first if any of its patterns matches. */
  ghost predicate Raised(issues: seq<Issue>, sensitive: seq<bool>, internalPaths: bool, sqlLike: bool) {
    && Distinct(issues)
    && (Sensitive in issues <==> true in sensitive)
    && (InternalPaths in issues <==> internalPaths)
    && (SqlLike in issues <==> sqlLike)
  }

  /** One flag for each pattern of the first kind; the loop stops at the first that matches. */
  method CheckSecurityIssues(sensitive: seq<bool>, internalPaths: bool, sqlLike: bool) returns (issues: seq<Issue>)
    ensures Raised(issues, sensitive, internalPaths, sqlLike)
  {
    issues := [];
    for i := 0 to |sensitive|
      invariant issues == [] && true !in sensitive[..i]
    {
      assert sensitive[..i + 1] == sensitive[..i] + [sensitive[i]];
      if sensitive[i] {
        issues := issues + [Sensitive];
        break;
      }
    }
    assert sensitive[..|sensitive|] == sensitive;
    assert Sensitive in issues <==> true in sensitive;
    if internalPaths { issues := issues + [InternalPaths]; }
    if sqlLike { issues := issues + [SqlLike]; }
  }

  lemma {:induction false} DistinctSize(issues: seq<Issue>)
    requires Distinct(issues)
    ensures |Elements(issues)| == |issues|
    decreases |issues|
  {
    if issues != [] {
      var n := |issues| - 1;
      DistinctSize(issues[..n]);
      assert Elements(issues) == Elements(issues[..n]) + {issues[n]};
    }
  }

  function Kinds(sensitive: bool, internalPaths: bool, sqlLike: bool): set<Issue> {
    (if sensitive then {Sensitive} else {}) + (if internalPaths then {InternalPaths} else {})
    + (if sqlLike then {SqlLike} else {})
  }

  lemma KindsSize(sensitive: bool, internalPaths: bool, sqlLike: bool)
    ensures |Kinds(sensitive, internalPaths, sqlLike)| == Worth(sensitive, 1) + Worth(internalPaths, 1)
        + Worth(sqlLike, 1)
  {
  }

  lemma KindsRaised(issues: seq<Issue>)
    ensures Elements(issues) == Kinds(Sensitive in issues, InternalPaths in issues, SqlLike in issues)
  {
    forall x: Issue
      ensures x in Elements(issues) <==> x in Kinds(Sensitive in issues, InternalPaths in issues, SqlLike in issues)
    {
      assert x == Sensitive || x == InternalPaths || x == SqlLike;
    }
  }

  /** At most three issues, one for each kind raised, and three only if every kind is. */
  lemma AtMostThree(issues: seq<Issue>)
    requires Distinct(issues)
    ensures |issues| <= 3
    ensures |issues| == Worth(Sensitive in issues, 1) + Worth(InternalPaths in issues, 1) + Worth(SqlLike in issues, 1)
    ensures |issues| == 3 <==> Sensitive in issues && InternalPaths in issues && SqlLike in issues
  {
    hide Elements, Kinds, Distinct;
    DistinctSize(issues);
    KindsRaised(issues);
    KindsSize(Sensitive in issues, InternalPaths in issues, SqlLike in issues);
  }

  /** The score lies between 10 and 100 for the issues that can be raised: the clamp at zero is
      never felt. */
  method CalculateSecurityScore(e: Endpoint, sensitive: seq<bool>, internalPaths: bool, sqlLike: bool)
    returns (clamped: int, score: int)
    requires Raised(e.securityIssues, sensitive, internalPaths, sqlLike)
    ensures score == 100 - Worth(true in sensitive, 20) - Worth(internalPaths, 20) - Worth(sqlLike, 20)
                         - Worth(!e.hasSecurity, 30)
    ensures 10 <= score <= 100 && clamped == score
    ensures score == 10 <==> true in sensitive && internalPaths && sqlLike && !e.hasSecurity
    ensures score == 100 <==> true !in sensitive && !internalPaths && !sqlLike && e.hasSecurity
  {
    AtMostThree(e.securityIssues);
    if e.securityIssues != [] {
      var issue := e.securityIssues[0];
      assert issue in e.securityIssues && (issue == Sensitive || issue == InternalPaths || issue == SqlLike);
    }
    score := 100;
    score := score - |e.securityIssues| * 20;
    if !e.hasSecurity { score := score - 30; }
    clamped := if score < 0 then 0 else score;
  }
}
