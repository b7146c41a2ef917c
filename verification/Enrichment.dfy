/** What the enrichment loop does to one operation, and why doing it twice is doing it once. */
module Enrichment {
  import opened Collections
  import opened Text
  import opened OperationIds
  import opened OpenApi

  // ---- Summary and description -------------------------------------------------------

  function Action(verb: string): string {
    if verb == "get" then "Retrieve"
    else if verb == "post" then "Create or execute"
    else if verb == "put" || verb == "patch" then "Update"
    else if verb == "delete" then "Delete"
    else if verb == "options" || verb == "head" then "Inspect"
    else if verb == "trace" then "Trace"
    else "Execute"
  }

  /** Braces dropped, hyphens and underscores as blanks. */
  function CleanSegment(seg: string): string {
    if seg == "" then ""
    else
      var c := seg[0];
      (if c == '{' || c == '}' then "" else if c == '-' || c == '_' then " " else [c]) + CleanSegment(seg[1..])
  }

  function CleanSegments(segs: seq<string>): seq<string> {
    if segs == [] then []
    else (if CleanSegment(segs[0]) == "" then [] else [CleanSegment(segs[0])]) + CleanSegments(segs[1..])
  }

  function FunctionalSummary(verb: string, routePath: string): string {
    var stripped := StripV1Prefix(routePath);
    var bare := if StartsWith(stripped, "/") then stripped[1..] else stripped;
    var resource := Trim(Join(CleanSegments(Split(bare, '/')), " "));
    Action(verb) + " " + (if resource == "" then "root resource" else resource)
  }

  /** The wording after the summary is fixed text around the path; only its first lines are kept. */
  function FunctionalDescription(summary: string, routePath: string): string {
    summary + ".\n\nEnterprise contract notes:\n- Purpose: exposes " + routePath
    + " as a governed API capability inside the CI Fabric."
  }

  predicate IsHyphenOrSpace(c: char) { c == '-' || IsSpace(c) }

  function Lower(c: char): char {
    if 'A' <= c <= 'Z' then ((c as int) + 32) as char else c
  }

  function LowerAll(s: string): string {
    if s == "" then "" else [Lower(s[0])] + LowerAll(s[1..])
  }

  /** `/^auto[-\s]/i` */
  predicate AutoPrefixed(s: string) {
    |s| >= 5 && LowerAll(s[..4]) == "auto" && IsHyphenOrSpace(s[4])
  }

  /** `/^VERB\s+\//` for one upper-case verb. */
  predicate VerbAndPath(s: string, verb: string) {
    && StartsWith(s, verb)
    && |s| > |verb| && IsSpace(s[|verb|])
    && StartsWith(TrimLeft(s[|verb|..]), "/")
  }

  predicate GenericSummary(s: string) {
    || s == ""
    || VerbAndPath(s, "GET") || VerbAndPath(s, "POST") || VerbAndPath(s, "PUT") || VerbAndPath(s, "PATCH")
    || VerbAndPath(s, "DELETE") || VerbAndPath(s, "HEAD") || VerbAndPath(s, "OPTIONS") || VerbAndPath(s, "TRACE")
    || AutoPrefixed(s)
  }

  /** `/^this endpoint/i` */
  predicate ThisEndpoint(s: string) {
    |s| >= 13 && LowerAll(s[..13]) == "this endpoint"
  }

  predicate GenericDescription(s: string) {
    s == "" || AutoPrefixed(s) || ThisEndpoint(s)
  }

  function EnrichedSummary(op: Operation, slot: Slot): string {
    var current := if op.summary.Some? then Trim(op.summary.value) else "";
    if GenericSummary(current) || op.summary.None? then FunctionalSummary(slot.key, slot.path) else op.summary.value
  }

  function EnrichedDescription(op: Operation, summary: string, slot: Slot): string {
    var current := if op.description.Some? then Trim(op.description.value) else "";
    if GenericDescription(current) || op.description.None? then FunctionalDescription(summary, slot.path)
    else op.description.value
  }

  lemma SummaryStart(verb: string, routePath: string)
    ensures var s := FunctionalSummary(verb, routePath);
            |s| >= 5 && s[0] in {'R', 'C', 'U', 'D', 'I', 'T', 'E'} && IsLower(s[1])
  {
    var a := Action(verb);
    assert |a| >= 5 && a[0] in {'R', 'C', 'U', 'D', 'I', 'T', 'E'} && IsLower(a[1]);
  }

  lemma NotAuto(t: string)
    requires |t| >= 1 && t[0] in {'R', 'C', 'U', 'D', 'I', 'T', 'E'}
    ensures !AutoPrefixed(t)
  {
    if |t| >= 5 {
      assert LowerAll(t[..4])[0] == Lower(t[0]) != 'a';
    }
  }

  lemma NotAVerb(t: string, verb: string)
    requires |t| >= 2 && IsLower(t[1]) && |verb| >= 2 && 'A' <= verb[1] <= 'Z'
    ensures !VerbAndPath(t, verb)
  {
  }

  /** A generated summary never counts as generic. */
  lemma GeneratedSummaryIsSpecific(verb: string, routePath: string)
    ensures !GenericSummary(Trim(FunctionalSummary(verb, routePath)))
  {
    SummaryStart(verb, routePath);
    hide FunctionalSummary, VerbAndPath, AutoPrefixed;
    var s := FunctionalSummary(verb, routePath);
    TrimKeepsStart(s);
    var t := Trim(s);
    NotAVerb(t, "GET"); NotAVerb(t, "POST"); NotAVerb(t, "PUT"); NotAVerb(t, "PATCH");
    NotAVerb(t, "DELETE"); NotAVerb(t, "HEAD"); NotAVerb(t, "OPTIONS"); NotAVerb(t, "TRACE");
    NotAuto(t);
  }

  // ---- Security requirements ---------------------------------------------------------------

  const DEFAULT_SECURITY: seq<SecurityEntry> :=
    [Requirement(map["bearerAuth" := Scopes([])]), Requirement(map["apiKeyAuth" := Scopes([])])]

  /** The legacy scheme name `apiKey` becomes `apiKeyAuth`. */
  function NormalizedEntry(e: SecurityEntry): SecurityEntry {
    match e
    case NotAnObject => Requirement(map[])
    case Requirement(m) =>
      if "apiKey" in m then
        Requirement((m - {"apiKey"})["apiKeyAuth" := if m["apiKey"].Scopes? then m["apiKey"] else Scopes([])])
      else e
  }

  function NormalizedSecurity(security: Option<seq<SecurityEntry>>): seq<SecurityEntry> {
    match security
    case None => DEFAULT_SECURITY
    case Some(entries) => seq(|entries|, i requires 0 <= i < |entries| => NormalizedEntry(entries[i]))
  }

  /** No requirement mentions the legacy scheme, and every one is an object. */
  predicate CleanSecurity(entries: seq<SecurityEntry>) {
    forall i :: 0 <= i < |entries| ==> entries[i].Requirement? && "apiKey" !in entries[i].schemes
  }

  lemma SecurityIsClean(security: Option<seq<SecurityEntry>>)
    ensures CleanSecurity(NormalizedSecurity(security))
    ensures security.Some? && CleanSecurity(security.value) ==> NormalizedSecurity(security) == security.value
  {
  }

  // ---- Path parameters ----------------------------------------------------------------------

  /** Position of the first closing brace at or after `i`, or the length. */
  function NextClose(p: string, i: nat): (j: nat)
    requires i <= |p|
    ensures i <= j <= |p| && (j < |p| ==> p[j] == '}')
    ensures forall k :: i <= k < j ==> p[k] != '}'
    decreases |p| - i
  {
    if i == |p| || p[i] == '}' then i else NextClose(p, i + 1)
  }

  /** The matches of `/\{([^}]+)\}/g` from position `i` on. */
  function PathParamNames(p: string, i: nat): seq<string>
    requires i <= |p|
    decreases |p| - i
  {
    if i == |p| then []
    else if p[i] != '{' then PathParamNames(p, i + 1)
    else
      var j := NextClose(p, i + 1);
      if j == |p| || j == i + 1 then PathParamNames(p, i + 1)
      else [p[i + 1..j]] + PathParamNames(p, j + 1)
  }

  predicate DeclaresPathParam(params: seq<Param>, name: string) {
    exists i :: 0 <= i < |params| && params[i].location == Some("path") && params[i].name == Some(name)
  }

  /** The required parameters among `names` that `current` does not declare, in order. */
  function MissingParams(current: seq<Param>, names: seq<string>): seq<Param> {
    if names == [] then []
    else
      var front := MissingParams(current, names[..|names| - 1]);
      var name := names[|names| - 1];
      if DeclaresPathParam(current, name) then front else front + [Param(Some(name), Some("path"), true)]
  }

  function EnrichedParameters(parameters: Option<seq<Param>>, routePath: string): Option<seq<Param>> {
    var names := PathParamNames(routePath, 0);
    if names == [] then parameters
    else
      var current := if parameters.Some? then parameters.value else [];
      Some(current + MissingParams(current, names))
  }

  lemma {:induction false} MissingDeclaresAll(current: seq<Param>, names: seq<string>, name: string)
    requires name in names
    ensures DeclaresPathParam(current + MissingParams(current, names), name)
    decreases |names|
  {
    var front, last := names[..|names| - 1], names[|names| - 1];
    var all := current + MissingParams(current, names);
    if name == last {
      if DeclaresPathParam(current, name) {
        var i :| 0 <= i < |current| && current[i].location == Some("path") && current[i].name == Some(name);
        assert all[i] == current[i];
      } else {
        assert all[|all| - 1] == Param(Some(name), Some("path"), true);
      }
    } else {
      assert name in front by { var i :| 0 <= i < |names| && names[i] == name; assert front[i] == name; }
      MissingDeclaresAll(current, front, name);
      var before := current + MissingParams(current, front);
      var i :| 0 <= i < |before| && before[i].location == Some("path") && before[i].name == Some(name);
      assert all[i] == before[i];
    }
  }

  lemma {:induction false} NothingMissing(current: seq<Param>, names: seq<string>)
    requires forall name :: name in names ==> DeclaresPathParam(current, name)
    ensures MissingParams(current, names) == []
    decreases |names|
  {
    if names != [] {
      NothingMissing(current, names[..|names| - 1]);
    }
  }

  /** Every templated part of the path is declared as a path parameter (section 4.7.12 of the
      OpenAPI Specification 3.0.3); what was declared before keeps its place; and a second pass
      adds nothing. */
  lemma ParametersComplete(parameters: Option<seq<Param>>, routePath: string)
    ensures var r := EnrichedParameters(parameters, routePath);
            && (forall name :: name in PathParamNames(routePath, 0) ==> r.Some? && DeclaresPathParam(r.value, name))
            && (parameters.Some? ==> r.Some? && parameters.value <= r.value)
            && EnrichedParameters(r, routePath) == r
  {
    var names := PathParamNames(routePath, 0);
    var r := EnrichedParameters(parameters, routePath);
    if names != [] {
      var current := if parameters.Some? then parameters.value else [];
      forall name | name in names ensures DeclaresPathParam(r.value, name) {
        MissingDeclaresAll(current, names, name);
      }
      NothingMissing(r.value, names);
      assert r.value + [] == r.value;
    }
  }

  // ---- Responses ------------------------------------------------------------------------------

  const ERROR_RESPONSES: map<string, Response> := map[
    "400" := Ref("#/components/responses/BadRequest"),
    "401" := Ref("#/components/responses/Unauthorized"),
    "403" := Ref("#/components/responses/Forbidden"),
    "404" := Ref("#/components/responses/NotFound"),
    "409" := Ref("#/components/responses/Conflict"),
    "422" := Ref("#/components/responses/UnprocessableEntity"),
    "429" := Ref("#/components/responses/TooManyRequests"),
    "500" := Ref("#/components/responses/InternalServerError")]

  const DEFAULT_200 := Inline("Successful operation.")

  /** `/^2\d\d$/` */
  predicate IsSuccessCode(code: string) {
    |code| == 3 && code[0] == '2' && IsDigit(code[1]) && IsDigit(code[2])
  }

  function EnrichedResponses(responses: Option<map<string, Response>>): map<string, Response> {
    var current := if responses.Some? then responses.value else map[];
    (if exists code :: code in current && IsSuccessCode(code) then current else current["200" := DEFAULT_200])
    + ERROR_RESPONSES
  }

  lemma ResponsesComplete(responses: Option<map<string, Response>>)
    ensures var r := EnrichedResponses(responses);
            && (exists code :: code in r && IsSuccessCode(code))
            && (forall code :: code in ERROR_RESPONSES ==> code in r && r[code] == ERROR_RESPONSES[code])
            && EnrichedResponses(Some(r)) == r
  {
    var current := if responses.Some? then responses.value else map[];
    var r := EnrichedResponses(responses);
    if code :| code in current && IsSuccessCode(code) {
      assert code in r;
    } else {
      assert IsSuccessCode("200") && "200" in r;
    }
    assert r + ERROR_RESPONSES == r;
  }

  // ---- The whole operation ---------------------------------------------------------------------

  function DefaultCi(verb: string): CiField {
    CiBlock(if verb == "get" || verb == "head" || verb == "options" then "signal-consumer"
            else if verb == "delete" then "governance" else "signal-producer")
  }

  /** `tagFor` stands for the tag table and the document's own tag list, applied to the path. */
  function EnrichedOperation(op: Operation, slot: Slot, id: string, tagFor: string -> string): Operation {
    var summary := EnrichedSummary(op, slot);
    op.(operationId := Some(id),
        tags := if op.tags.None? || op.tags.value == [] then Some([tagFor(slot.path)]) else op.tags,
        summary := Some(summary),
        description := Some(EnrichedDescription(op, summary, slot)),
        ci := if op.ci.CiBlock? then op.ci else DefaultCi(slot.key),
        security := Some(NormalizedSecurity(op.security)),
        parameters := EnrichedParameters(op.parameters, slot.path),
        responses := Some(EnrichedResponses(op.responses)))
  }

  /** Enriching an enriched operation under its own id changes nothing. */
  lemma EnrichTwice(op: Operation, slot: Slot, id: string, tagFor: string -> string)
    ensures var e := EnrichedOperation(op, slot, id, tagFor); EnrichedOperation(e, slot, id, tagFor) == e
  {
    var e := EnrichedOperation(op, slot, id, tagFor);
    GeneratedSummaryIsSpecific(slot.key, slot.path);
    assert EnrichedSummary(e, slot) == e.summary.value;
    assert EnrichedDescription(e, e.summary.value, slot) == e.description.value;
    SecurityIsClean(op.security);
    SecurityIsClean(e.security);
    ParametersComplete(op.parameters, slot.path);
    ResponsesComplete(op.responses);
  }
}
