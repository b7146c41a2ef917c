/** What the output says about each operation, compared with what the document said before. */
module Contents {
  import opened Collections
  import opened Text
  import opened OpenApi
  import opened OperationIds
  import opened Enrichment
  import opened HandWritten
  import opened AddEndpoints
  import opened ReportPaths
  import opened Aliases
  import opened Synchroniser
  import opened Outcome
  import opened Acceptance
  import opened Coverage

  // ---- Responses -------------------------------------------------------------------------

  predicate ErrorCode(code: string) {
    || code == "400" || code == "401" || code == "403" || code == "404"
    || code == "409" || code == "422" || code == "429" || code == "500"
  }

  predicate SomeSuccess(responses: map<string, Response>) {
    exists code :: code in responses && |code| == 3 && code[0] == '2' && '0' <= code[1] <= '9' && '0' <= code[2] <= '9'
  }

  function Declared(responses: Option<map<string, Response>>): map<string, Response> {
    if responses.Some? then responses.value else map[]
  }

  /** The shared response an error code refers to. */
  function SharedError(code: string): string {
    if code == "400" then "#/components/responses/BadRequest"
    else if code == "401" then "#/components/responses/Unauthorized"
    else if code == "403" then "#/components/responses/Forbidden"
    else if code == "404" then "#/components/responses/NotFound"
    else if code == "409" then "#/components/responses/Conflict"
    else if code == "422" then "#/components/responses/UnprocessableEntity"
    else if code == "429" then "#/components/responses/TooManyRequests"
    else "#/components/responses/InternalServerError"
  }

  /** Declared responses stay, but for the eight error codes, which refer to the shared ones; "200" is
      new only if no success was declared; no other code is new. */
  ghost predicate ResponsesFrom(before: Option<map<string, Response>>, after: Option<map<string, Response>>) {
    var said := Declared(before);
    && after.Some?
    && (forall code :: code in after.value <==>
        code in said || ErrorCode(code) || (code == "200" && !SomeSuccess(said)))
    && (forall code :: code in said && !ErrorCode(code) ==> code in after.value && after.value[code] == said[code])
    && (forall code :: ErrorCode(code) ==> code in after.value && after.value[code] == Ref(SharedError(code)))
    && (!SomeSuccess(said) ==> "200" in after.value && after.value["200"] == Inline("Successful operation."))
  }

  lemma ErrorCodesIff(code: string)
    ensures code in ERROR_RESPONSES <==> ErrorCode(code)
    ensures ErrorCode(code) ==> ERROR_RESPONSES[code] == Ref(SharedError(code))
  {
  }

  lemma SuccessIff(responses: map<string, Response>)
    ensures SomeSuccess(responses) <==> exists code :: code in responses && IsSuccessCode(code)
  {
  }

  lemma SuccessIsNoError()
    ensures IsSuccessCode("200") && !ErrorCode("200")
  {
  }

  lemma ResponsesAre(before: Option<map<string, Response>>)
    ensures ResponsesFrom(before, Some(EnrichedResponses(before)))
  {
    hide ERROR_RESPONSES, ErrorCode, SharedError, SomeSuccess, IsSuccessCode;
    var said := Declared(before);
    SuccessIff(said);
    SuccessIsNoError();
    forall code
      ensures code in ERROR_RESPONSES <==> ErrorCode(code)
      ensures ErrorCode(code) ==> ERROR_RESPONSES[code] == Ref(SharedError(code))
    {
      ErrorCodesIff(code);
    }
    assert SomeSuccess(said) ==> forall code :: code in said && IsSuccessCode(code) ==> code in said;
  }

  // ---- Security ------------------------------------------------------------------------------

  /** One requirement: a non-object becomes the empty one, the legacy scheme becomes `apiKeyAuth` with
      its scopes, and everything else stays. */
  ghost predicate RequirementFrom(before: SecurityEntry, after: SecurityEntry) {
    match before
    case NotAnObject => after == Requirement(map[])
    case Requirement(m) =>
      if "apiKey" !in m then after == before
      else
        && after.Requirement? && "apiKey" !in after.schemes
        && "apiKeyAuth" in after.schemes
        && after.schemes["apiKeyAuth"] == (if m["apiKey"].Scopes? then m["apiKey"] else Scopes([]))
        && forall k :: k != "apiKey" && k != "apiKeyAuth" ==>
             (k in after.schemes <==> k in m) && (k in m ==> after.schemes[k] == m[k])
  }

  ghost predicate SecurityFrom(before: Option<seq<SecurityEntry>>, after: Option<seq<SecurityEntry>>) {
    && after.Some?
    && if before.None?
       then after.value == [Requirement(map["bearerAuth" := Scopes([])]), Requirement(map["apiKeyAuth" := Scopes([])])]
       else |after.value| == |before.value|
            && forall i :: 0 <= i < |before.value| ==> RequirementFrom(before.value[i], after.value[i])
  }

  lemma SecurityIs(before: Option<seq<SecurityEntry>>)
    ensures SecurityFrom(before, Some(NormalizedSecurity(before)))
  {
    if before.Some? {
      forall i | 0 <= i < |before.value| ensures RequirementFrom(before.value[i], NormalizedEntry(before.value[i])) {
        assert "apiKey" != "apiKeyAuth" by { assert |"apiKey"| != |"apiKeyAuth"|; }
      }
    }
  }

  // ---- Parameters -------------------------------------------------------------------------------

  predicate DeclaresInPath(params: seq<Param>, name: string) {
    Some(name) in seq(|params|,
        i requires 0 <= i < |params| => if params[i].location == Some("path") then params[i].name else None)
  }

  /** `added` are required path parameters for the names that `current` does not declare, in order;
      `at` are the positions of those names. */
  ghost predicate AddsUndeclared(current: seq<Param>, names: seq<string>, added: seq<Param>, at: seq<nat>) {
    && |at| == |added|
    && (forall j :: 0 <= j < |at| ==>
          && at[j] < |names| && !DeclaresInPath(current, names[at[j]])
          && added[j] == Param(Some(names[at[j]]), Some("path"), true))
    && (forall j, k :: 0 <= j < k < |at| ==> at[j] < at[k])
    && (forall i :: 0 <= i < |names| && !DeclaresInPath(current, names[i]) ==> i in at)
  }

  lemma DeclaresIff(params: seq<Param>, name: string)
    ensures DeclaresPathParam(params, name) <==> DeclaresInPath(params, name)
  {
    var names := seq(|params|,
        i requires 0 <= i < |params| => if params[i].location == Some("path") then params[i].name else None);
    if DeclaresPathParam(params, name) {
      var i :| 0 <= i < |params| && params[i].location == Some("path") && params[i].name == Some(name);
      assert names[i] == Some(name);
    }
  }

  lemma {:induction false} MissingAre(current: seq<Param>, names: seq<string>) returns (at: seq<nat>)
    ensures AddsUndeclared(current, names, MissingParams(current, names), at)
    decreases |names|
  {
    hide DeclaresInPath;
    if names == [] {
      at := [];
    } else {
      var n := |names| - 1;
      at := MissingAre(current, names[..n]);
      DeclaresIff(current, names[n]);
      if !DeclaresPathParam(current, names[n]) { at := at + [n]; }
    }
  }

  ghost predicate ParametersFrom(before: Option<seq<Param>>, names: seq<string>, after: Option<seq<Param>>) {
    var said := if before.Some? then before.value else [];
    if names == [] then after == before
    else after.Some? && said <= after.value && exists at :: AddsUndeclared(said, names, after.value[|said|..], at)
  }

  lemma ParametersAre(before: Option<seq<Param>>, path: string)
    ensures ParametersFrom(before, PathParamNames(path, 0), EnrichedParameters(before, path))
  {
    var names, said := PathParamNames(path, 0), if before.Some? then before.value else [];
    if names != [] {
      var at := MissingAre(said, names);
      assert (said + MissingParams(said, names))[|said|..] == MissingParams(said, names);
    }
  }

  lemma {:induction false} CloseShift(p: string, k: nat, i: nat)
    requires k <= i <= |p|
    ensures NextClose(p, i) == NextClose(p[k..], i - k) + k
    decreases |p| - i
  {
    if i < |p| && p[i] != '}' { CloseShift(p, k, i + 1); }
  }

  lemma NoNamesAtEnd(p: string)
    ensures PathParamNames(p, |p|) == []
  {
  }

  lemma SkipPlain(p: string, i: nat)
    requires i < |p| && p[i] != '{'
    ensures PathParamNames(p, i) == PathParamNames(p, i + 1)
  {
  }

  lemma TakeName(p: string, i: nat)
    requires i < |p| && p[i] == '{' && i + 1 < NextClose(p, i + 1) < |p|
    ensures PathParamNames(p, i) == [p[i + 1..NextClose(p, i + 1)]] + PathParamNames(p, NextClose(p, i + 1) + 1)
  {
  }

  lemma SkipBrace(p: string, i: nat)
    requires i < |p| && p[i] == '{' && NextClose(p, i + 1) in {i + 1, |p|}
    ensures PathParamNames(p, i) == PathParamNames(p, i + 1)
  {
  }

  /** What is found from a position on depends on the rest of the path only. */
  lemma {:induction false} NamesShift(p: string, k: nat, i: nat)
    requires k <= i <= |p|
    ensures PathParamNames(p, i) == PathParamNames(p[k..], i - k)
    decreases |p| - i
  {
    hide PathParamNames, NextClose;
    if i == |p| {
      NoNamesAtEnd(p);
      NoNamesAtEnd(p[k..]);
    } else if p[i] != '{' {
      NamesShift(p, k, i + 1);
      SkipPlain(p, i);
      SkipPlain(p[k..], i - k);
    } else if i < |p| {
      CloseShift(p, k, i + 1);
      var j := NextClose(p, i + 1);
      if j == |p| || j == i + 1 {
        NamesShift(p, k, i + 1);
        SkipBrace(p, i);
        SkipBrace(p[k..], i - k);
      } else {
        NamesShift(p, k, j + 1);
        TakeName(p, i);
        TakeName(p[k..], i - k);
        assert p[k..][i + 1 - k..j - k] == p[i + 1..j];
      }
    }
  }

  lemma {:induction false} CloseAt(p: string, i: nat, j: nat)
    requires i <= j < |p| && p[j] == '}' && forall k :: i <= k < j ==> p[k] != '}'
    ensures NextClose(p, i) == j
    decreases j - i
  {
    if i < j { CloseAt(p, i + 1, j); }
  }

  lemma {:induction false} NoNamesBefore(p: string, i: nat, j: nat)
    requires i <= j <= |p| && forall k :: i <= k < j ==> p[k] != '{'
    ensures PathParamNames(p, i) == PathParamNames(p, j)
    decreases j - i
  {
    if i < j { NoNamesBefore(p, i + 1, j); }
  }

  lemma TemplateLayout(a: string, name: string, b: string)
    ensures var p, i, j := a + "{" + name + "}" + b, |a|, |a| + 1 + |name|;
            && j < |p| && p[..i] == a && p[i] == '{' && p[i + 1..j] == name && p[j] == '}' && p[j + 1..] == b
  {
  }

  /** The templated names of a path, from left to right. */
  lemma TemplateNames(a: string, name: string, b: string)
    requires '{' !in a && name != "" && '}' !in name
    ensures PathParamNames(a, 0) == []
    ensures PathParamNames(a + "{" + name + "}" + b, 0) == [name] + PathParamNames(b, 0)
  {
    hide PathParamNames, NextClose;
    NoNamesBefore(a, 0, |a|);
    NoNamesAtEnd(a);
    TemplateLayout(a, name, b);
    var p, i, j := a + "{" + name + "}" + b, |a|, |a| + 1 + |name|;
    forall k | 0 <= k < i ensures p[k] != '{' { assert p[..i][k] == p[k]; }
    forall k | i + 1 <= k < j ensures p[k] != '}' { assert p[i + 1..j][k - i - 1] == p[k]; }
    NoNamesBefore(p, 0, i);
    CloseAt(p, i + 1, j);
    TakeName(p, i);
    NamesShift(p, j + 1, j + 1);
  }

  // ---- Tags and block -----------------------------------------------------------------------------

  predicate TagsFrom(before: Option<seq<string>>, after: Option<seq<string>>, tag: string) {
    if before.Some? && before.value != [] then after == before else after == Some([tag])
  }

  predicate BlockFrom(before: CiField, after: CiField, verb: string) {
    if before.CiBlock? then after == before
    else if verb == "get" || verb == "head" || verb == "options" then after == CiBlock("signal-consumer")
    else if verb == "delete" then after == CiBlock("governance")
    else after == CiBlock("signal-producer")
  }

  // ---- One operation --------------------------------------------------------------------------------

  /** What the operation at `s` says after enrichment, field by field, given what it said before. */
  ghost predicate ContentFrom(before: Operation, after: Operation, s: Slot, tagFor: string -> string) {
    && after.operationId.Some?
    && TagsFrom(before.tags, after.tags, tagFor(s.path))
    && (if WrittenSummary(before.summary) then after.summary == before.summary
        else after.summary == Some(FunctionalSummary(s.key, s.path)))
    && (if WrittenDescription(before.description) then after.description == before.description
        else after.description == Some(FunctionalDescription(after.summary.value, s.path)))
    && BlockFrom(before.ci, after.ci, s.key)
    && SecurityFrom(before.security, after.security)
    && ParametersFrom(before.parameters, PathParamNames(s.path, 0), after.parameters)
    && ResponsesFrom(before.responses, after.responses)
    && after.hide == before.hide
  }

  lemma NothingIsGeneric()
    ensures GenericSummary("") && GenericDescription("")
  {
  }

  lemma EnrichedContent(op: Operation, s: Slot, id: string, tagFor: string -> string)
    ensures ContentFrom(op, EnrichedOperation(op, s, id, tagFor), s, tagFor)
  {
    hide GenericSummary, GenericDescription, RequestLike, AutoLike, EndpointLike, FunctionalSummary,
        FunctionalDescription;
    hide SecurityFrom, ParametersFrom, ResponsesFrom, NormalizedSecurity, EnrichedParameters, EnrichedResponses, Trim;
    ResponsesAre(op.responses);
    SecurityIs(op.security);
    ParametersAre(op.parameters, s.path);
    if op.summary.Some? { GenericIff(Trim(op.summary.value)); }
    if op.description.Some? { GenericIff(Trim(op.description.value)); }
    NothingIsGeneric();
  }

  // ---- Every operation of the output -----------------------------------------------------------------

  /** An operation of which nothing is said. */
  const SILENT := Operation(None, None, None, None, CiMissing, None, None, None, false)

  lemma NewIsEnriched(s: Slot, id: string, tagFor: string -> string)
    ensures NewOperation(s, id, tagFor) == EnrichedOperation(SILENT, s, id, tagFor)
  {
    hide FunctionalSummary, FunctionalDescription, EnrichedParameters, EnrichedResponses;
    assert Trim("") == "";
  }

  lemma EnrichOver(op: Operation, s: Slot, id: string, id2: string, tagFor: string -> string)
    ensures EnrichedOperation(EnrichedOperation(op, s, id, tagFor), s, id2, tagFor) ==
        EnrichedOperation(op, s, id2, tagFor)
  {
    hide FunctionalSummary, FunctionalDescription, EnrichedParameters, EnrichedResponses, NormalizedSecurity;
    hide GenericSummary, GenericDescription, Trim;
    EnrichTwice(op, s, id, tagFor);
  }

  ghost predicate IsNewAt(e: Entry, s: Slot, tagFor: string -> string) {
    exists id :: e == Object(NewOperation(s, id, tagFor))
  }

  lemma GrownKeeps(a: Added, b: Added, s: Slot)
    requires Grown(a, b) && s in a.doc.entries
    ensures s in b.doc.entries && b.doc.entries[s] == a.doc.entries[s]
  {
  }

  lemma {:induction false} AddedAreNew(a: Added, report: seq<string>, s: Slot, tagFor: string -> string)
    requires Valid(a.doc) && Covered(a.doc, a.used) && s !in a.doc.entries
    requires s in AddAll(a, report, tagFor).doc.entries
    ensures IsNewAt(AddAll(a, report, tagFor).doc.entries[s], s, tagFor)
    decreases |report|
  {
    hide Valid, Covered, Grown, NewOperation, FreshId, Target;
    if report != [] {
      var front, last := report[..|report| - 1], report[|report| - 1];
      var m := AddAll(a, front, tagFor);
      AddAllKeeps(a, front, tagFor);
      AddOneKeeps(m, last, tagFor);
      if s in m.doc.entries {
        AddedAreNew(a, front, s, tagFor);
        GrownKeeps(m, AddOne(m, last, tagFor), s);
      }
    }
  }

  /** What the document said about `s` before: nothing, if it was not there. */
  function Before(d: Doc, s: Slot): Operation {
    if s in d.entries && d.entries[s].Object? then d.entries[s].op else SILENT
  }

  /** Every operation of the output, old or new, says what its old content requires, field by field. */
  lemma OutputContent(d: Doc, report: seq<string>, s: Slot, tagFor: string -> string)
    requires Valid(d) && IsOperation(Synchronised(d, report, tagFor).entries, s)
    ensures var e := Synchronised(d, report, tagFor).entries[s];
            e.Object? && ContentFrom(Before(d, s), e.op, s, tagFor)
  {
    hide Distinct, Covered, Grown, NewDiffer, EnrichedAndPruned, Enriched, EnrichedOperation, ContentFrom;
    hide AddAll, Live, VisitsUpTo, FinalId, NewOperation;
    var start, a := Added(d, StartIds(d)), AfterReport(d, report, tagFor);
    StartIdsCover(d);
    AfterReportGrown(d, report, tagFor);
    PrunedEntries(a.doc, a.used, s, tagFor);
    var n := Index(a.doc, s);
    OutputEntry(a.doc, a.used, n, tagFor);
    var id := FinalId(a.doc, a.used, n);
    EnrichedContent(Before(d, s), s, id, tagFor);
    if s in d.entries {
      GrownKeeps(start, a, s);
    } else {
      AddedAreNew(start, report, s, tagFor);
      var id0 :| a.doc.entries[s] == Object(NewOperation(s, id0, tagFor));
      NewIsEnriched(s, id0, tagFor);
      EnrichOver(SILENT, s, id0, id, tagFor);
    }
  }

  /** What is not an operation is in the output as it was. */
  lemma OutputOther(d: Doc, report: seq<string>, s: Slot, tagFor: string -> string)
    requires Valid(d) && !IsMethod(s.key) && s in Synchronised(d, report, tagFor).entries
    ensures s in d.entries && Synchronised(d, report, tagFor).entries[s] == d.entries[s]
  {
    hide Distinct, Covered, NewDiffer, EnrichedAndPruned, Enriched, AddAll, Live, VisitsUpTo;
    var start, a := Added(d, StartIds(d)), AfterReport(d, report, tagFor);
    AfterReportGrown(d, report, tagFor);
    OutputStray(a.doc, a.used, s, tagFor);
  }

  // ---- What stays private -------------------------------------------------------------------------------

  predicate PrivatePath(p: string) {
    || (|p| >= 10 && p[..10] == "/internal/")
    || p == "/health/startup" || p == "/health/live" || p == "/health/ready" || p == "/metrics"
    || p == "/auth/test-db" || p == "/v1/auth/test-db"
    || p == "/billing/webhooks/stripe" || p == "/v1/billing/webhooks/stripe"
  }

  lemma ExcludedIff(p: string)
    ensures Excluded(p) <==> PrivatePath(p)
  {
    assert |"/internal/"| == 10 && "/internal/jwks/status"[..10] == "/internal/";
  }

  lemma TargetIsPublic(d: Doc, raw: string)
    requires Target(d, raw).Some?
    ensures !Excluded(Target(d, raw).value.path)
  {
  }

  /** No operation on a private path enters the output from a report. */
  lemma NothingPrivateEnters(d: Doc, report: seq<string>, s: Slot, tagFor: string -> string)
    requires Valid(d) && s in Synchronised(d, report, tagFor).entries && s !in d.entries
    ensures !PrivatePath(s.path)
  {
    hide Distinct, Covered, Synchronised, LiveAfter, Destination, Reportable, Excluded, PrivatePath;
    OutputExactly(d, report, s, tagFor);
    var k :| 0 <= k < |report| && BroughtBy(d.paths, report, k, s);
    StartIdsCover(d);
    TargetIsDestination(Added(d, StartIds(d)), report, k, tagFor);
    TargetIsPublic(AddAll(Added(d, StartIds(d)), report[..k], tagFor).doc, report[k]);
    ExcludedIff(s.path);
  }

  /** Any other line with a known method and a path is acted on, when neither form is private. */
  lemma PublicIsReportable(paths: seq<string>, raw: string)
    requires IsMethod(ReportedVerb(raw)) && ReportedPath(raw) != ""
    requires !PrivatePath(ReportedPath(raw)) && !PrivatePath(Alternative(ReportedPath(raw)))
    ensures Reportable(paths, raw)
  {
    ExcludedIff(ReportedPath(raw));
    ExcludedIff(Alternative(ReportedPath(raw)));
  }
}
