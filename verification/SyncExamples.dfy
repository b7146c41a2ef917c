/** Families of small documents on which the synchroniser's promises fail, one for each condition
    of the theorems. */
module SyncExamples {
  import opened Collections
  import T = Text
  import L = TextLaws
  import opened OpenApi
  import opened OperationIds
  import opened Enrichment
  import opened EnrichAll
  import opened AssignedIds
  import opened VisitOrder
  import opened Aliases
  import opened AddEndpoints
  import opened ReportPaths
  import opened Synchroniser
  import opened Validator
  import opened Outcome
  import opened Acceptance
  import opened Idempotence
  import opened Coverage

  function Op(id: Option<string>): Operation {
    Operation(id, None, None, None, CiMissing, None, None, None, false)
  }

  // ---- Two path items -----------------------------------------------------------------

  /** A document of two operations on different paths, and nothing else. */
  ghost predicate IsPair(d: Doc, s: Slot, t: Slot) {
    && Valid(d) && s.path != t.path && IsMethod(s.key) && IsMethod(t.key)
    && Visits(d) == [s, t] && PathSet(d) == {s.path, t.path} && d.entries.Keys == {s, t}
  }

  lemma PairExists(s: Slot, t: Slot, id: Option<string>, id2: Option<string>) returns (d: Doc)
    requires s.path != t.path && IsMethod(s.key) && IsMethod(t.key)
    ensures IsPair(d, s, t) && IdAt(d.entries, s) == id && IdAt(d.entries, t) == id2
  {
    d := Doc([s.path, t.path], map[s.path := [s.key], t.path := [t.key]],
             map[s := Object(Op(id)), t := Object(Op(id2))]);
    assert VisitsUpTo(d, 0) == [];
    assert ItemVisits(s.path, [s.key], 1) == ItemVisits(s.path, [s.key], 0) + [s];
    assert ItemVisits(t.path, [t.key], 1) == ItemVisits(t.path, [t.key], 0) + [t];
    assert VisitsUpTo(d, 1) == [s];
    assert VisitsUpTo(d, 2) == [s, t];
  }

  /** Every id of such a document that is not blank is kept: the duplicate test looks at one path
      item at a time. */
  lemma PairKeeps(d: Doc, s: Slot, t: Slot, u: Slot)
    requires IsPair(d, s, t) && (u == s || u == t)
    ensures Keeps(d, u) <==> IdAt(d.entries, u).Some? && !T.Blank(IdAt(d.entries, u).value)
  {
  }

  lemma PairLives(d: Doc, s: Slot, t: Slot)
    requires IsPair(d, s, t) && AllSlash(PathSet(d)) && Survivors(PathSet(d)) == PathSet(d)
    ensures s.path in Live(d) && t.path in Live(d)
  {
    SweepIsSurvivors(d.paths, PathSet(d));
  }

  /** One id on two paths is not repaired, nor are two ids that differ in outer white space only:
      the validator, which trims, rejects the output. */
  lemma SharedOrUntrimmedRejected(d: Doc, s: Slot, t: Slot, used: set<string>, tagFor: string -> string)
    requires IsPair(d, s, t) && Covered(d, used)
    requires AllSlash(PathSet(d)) && Survivors(PathSet(d)) == PathSet(d)
    requires IdAt(d.entries, s).Some? && IdAt(d.entries, t).Some? && !T.Blank(IdAt(d.entries, s).value)
    requires T.Trim(IdAt(d.entries, s).value) == T.Trim(IdAt(d.entries, t).value)
    ensures !ContractHolds(EnrichedAndPruned(d, used, tagFor))
  {
    hide Keeps, Shaped, Sweep, VisitsUpTo, Visits, ContractHolds, EnrichedAndPruned;
    PairKeeps(d, s, t, s);
    PairKeeps(d, s, t, t);
    PairLives(d, s, t);
    KeptAlikeRejected(d, used, s, t, tagFor);
  }

  lemma TrimLeadingSpace(x: string)
    ensures T.Trim(" " + x) == T.Trim(x)
  {
  }

  /** An id kept with a space before it, and a generated id that is its trimmed form. */
  lemma GeneratedMeetsUntrimmed(d: Doc, s: Slot, t: Slot, tagFor: string -> string)
    requires IsPair(d, s, t) && AllSlash(PathSet(d)) && Survivors(PathSet(d)) == PathSet(d)
    requires IdAt(d.entries, s) == Some(" " + BaseId(t.key, t.path)) && IdAt(d.entries, t) == None
    ensures Covered(d, StartIds(d)) && !ContractHolds(EnrichedAndPruned(d, StartIds(d), tagFor))
  {
    hide Keeps, KeepsId, Distinct, Sweep, VisitsUpTo, ContractHolds, EnrichedAndPruned, BaseId;
    var x, w := BaseId(t.key, t.path), Work(d.entries, StartIds(d));
    StartIdsCover(d);
    MethodIsClean(t.key);
    FreshIdIsClean(t.key, t.path, {});
    TrimLeadingSpace(x);
    PairKeeps(d, s, t, s);
    PairKeeps(d, s, t, t);
    PairLives(d, s, t);
    KeepsIff(d, 0);
    KeepsIff(d, 1);
    assert StartIds(d) == {" " + x};
    assert UsedAt(w, Visits(d), 0) == {" " + x};
    assert UsedAt(w, Visits(d), 1) == {" " + x};
    assert |" " + x| != |x|;
    assert FinalId(d, StartIds(d), 1) == x;
    GeneratedAlikeRejected(d, StartIds(d), s, 1, tagFor);
  }

  /** Removing an alias drops every operation its versioned twin does not have. */
  lemma AliasRemovalLosesOperation(d: Doc, s: Slot, t: Slot, used: set<string>, tagFor: string -> string)
    requires IsPair(d, s, t) && AllSlash(PathSet(d)) && !Exempt(s.path)
    requires t.path == Twin(s.path) && s.key != t.key
    ensures s in d.entries
    ensures s !in EnrichedAndPruned(d, used, tagFor).entries
    ensures Slot(Twin(s.path), s.key) !in EnrichedAndPruned(d, used, tagFor).entries
  {
    hide VisitsUpTo, EnrichedAndPruned, Visits;
    SweepIsSurvivors(d.paths, PathSet(d));
    LostExactly(d, used, s, tagFor);
  }

  // ---- A stray id ----------------------------------------------------------------------

  /** One path item with one operation without id, and an extension field `t` that carries the id
      that will be generated for it. */
  ghost predicate IsStray(d: Doc, s: Slot, t: Slot) {
    && Valid(d) && Visits(d) == [s] && PathSet(d) == {s.path} && s.path == t.path && s in d.entries && t in d.entries
    && IsMethod(s.key) && !IsMethod(t.key) && IdAt(d.entries, s) == None
    && IdAt(d.entries, t) == Some(BaseId(s.key, s.path))
  }

  lemma StrayExists(p: string) returns (d: Doc)
    ensures IsStray(d, Slot(p, "get"), Slot(p, "x-meta"))
  {
    d := Doc([p], map[p := ["get", "x-meta"]],
             map[Slot(p, "get") := Object(Op(None)), Slot(p, "x-meta") := Object(Op(Some(BaseId("get", p))))]);
    assert ItemVisits(p, ["get", "x-meta"], 1) == ItemVisits(p, ["get", "x-meta"], 0) + [Slot(p, "get")];
    assert VisitsUpTo(d, 0) == [];
  }

  /** Not idempotent: the generated id repeats the stray one, so a second run renames it. */
  lemma StrayIdBreaksIdempotence(d: Doc, s: Slot, t: Slot, tagFor: string -> string)
    requires IsStray(d, s, t) && s.path != "" && s.path[0] == '/'
    ensures Valid(Synchronised(d, [], tagFor))
    ensures Synchronised(Synchronised(d, [], tagFor), [], tagFor) != Synchronised(d, [], tagFor)
  {
    hide VisitsUpTo, EnrichedAndPruned, Synchronised, BaseId, Precedes;
    assert |Twin(s.path)| > |s.path|;
    SweepIsSurvivors(d.paths, PathSet(d));
    assert StartIds(d) == {};
    assert AfterReport(d, [], tagFor) == Added(d, {});
    assert FinalId(d, {}, 0) == BaseId(s.key, s.path);
    assert StrayCollision(d, {}, 0, t, s);
    SynchroniseTwiceIff(d, [], tagFor);
  }

  // ---- The root --------------------------------------------------------------------------

  function GetLine(p: string): string {
    "GET " + p
  }

  function PostLine(p: string): string {
    "POST " + p
  }

  lemma MethodsAreLowered()
    ensures LowerAll("GET") == "get" && LowerAll("POST") == "post"
  {
    assert LowerAll("ST") == "st";
  }

  lemma GetLineNames(p: string)
    requires p != "" && forall c :: c in p ==> !T.IsSpace(c)
    ensures ReportedVerb(GetLine(p)) == "get" && ReportedPath(GetLine(p)) == p && Names(GetLine(p), p)
  {
    L.SplitWord("GET", p, ' ');
    L.SplitWord(p, "", ' ');
    assert GetLine(p) == "GET" + " " + p;
    MethodsAreLowered();
    assert p[0] in p && p[|p| - 1] in p;
    var parts := ["GET"] + [p];
    assert T.Split(GetLine(p), ' ') == parts && parts[0] == "GET" && parts[1..] == [p];
  }

  lemma PostLineNames(p: string)
    requires p != "" && forall c :: c in p ==> !T.IsSpace(c)
    ensures ReportedVerb(PostLine(p)) == "post" && ReportedPath(PostLine(p)) == p && Names(PostLine(p), p)
  {
    L.SplitWord("POST", p, ' ');
    L.SplitWord(p, "", ' ');
    assert PostLine(p) == "POST" + " " + p;
    MethodsAreLowered();
    assert p[0] in p && p[|p| - 1] in p;
    var parts := ["POST"] + [p];
    assert T.Split(PostLine(p), ' ') == parts && parts[0] == "POST" && parts[1..] == [p];
  }

  const EMPTY := Doc([], map[], map[])

  lemma EmptyIsValid()
    ensures Valid(EMPTY)
  {
  }

  lemma RootsNamed(report: seq<string>)
    requires |report| == 2 && Names(report[0], "/") && Names(report[1], "/v1")
    ensures NamedFirst(report, "/") && NamedFirst(report, "/v1") && SlashReport(report)
  {
  }

  lemma RootIsRemoved(report: seq<string>, tagFor: string -> string)
    requires Valid(EMPTY) && SlashReport(report)
    requires var paths := PathsAfter([], report);
             "/" in paths && "/v1" in paths && "/v1/" !in paths && "/v1/v1" !in paths
    ensures Slot("/", "get") !in Synchronised(EMPTY, report, tagFor).entries
    ensures Slot("/v1/", "get") !in Synchronised(EMPTY, report, tagFor).entries
  {
    hide Synchronised, PathsAfter, Brought, LiveAfter;
    LiveAfterClosed(EMPTY, report, "/");
    LiveAfterClosed(EMPTY, report, "/v1/");
    OutputExactly(EMPTY, report, Slot("/", "get"), tagFor);
    OutputExactly(EMPTY, report, Slot("/v1/", "get"), tagFor);
    assert !Exempt("/") && Twin("/") == "/v1";
  }

  lemma NoGetOfV1(report: seq<string>)
    requires |report| == 2 && ReportedPath(report[0]) == "/" && ReportedVerb(report[1]) == "post"
    ensures !Brought([], report, Slot("/v1", "get"))
  {
    hide ReportedPath, ReportedVerb, PathsAfter;
    RootsAreFree();
    assert |"/"| == 1 && |"/v1"| == 3 && |"/v1/"| == 4 && |"get"| == 3 && |"post"| == 4;
  }

  lemma RootsPresent(report: seq<string>)
    requires NamedFirst(report, "/") && NamedFirst(report, "/v1") && SlashReport(report)
    ensures var paths := PathsAfter([], report);
            "/" in paths && "/v1" in paths && "/v1/" !in paths && "/v1/v1" !in paths
  {
    RootsAreFree();
    NotBothFirst(report, "/", "/v1/");
    NotBothFirst(report, "/v1", "/v1/v1");
    PresentIff([], report, "/", "/v1/");
    PresentIff([], report, "/v1/", "/");
    PresentIff([], report, "/v1", "/v1/v1");
    PresentIff([], report, "/v1/v1", "/v1");
  }

  /** An empty document and a report of `GET /` and `POST /v1`: both come in, and then the first is
      removed as an alias of the second.  The endpoint just reported is in the output in no form. */
  lemma RootReportIsLost(tagFor: string -> string)
    ensures var report := [GetLine("/"), PostLine("/v1")];
            && Valid(EMPTY) && AliasFree(PathSet(EMPTY)) && SlashReport(report) && RootPairComes(EMPTY.paths, report)
            && Reportable(EMPTY.paths, GetLine("/"))
            && !Documented(Synchronised(EMPTY, report, tagFor), GetLine("/"))
            && Slot(Twin("/"), "get") !in Synchronised(EMPTY, report, tagFor).entries
  {
    hide GetLine, PostLine, Names, ReportedPath, ReportedVerb, Synchronised, PathsAfter, Excluded, Shaped, Brought;
    var report := [GetLine("/"), PostLine("/v1")];
    EmptyIsValid();
    assert |"/"| == 1 && |"/v1"| == 3 && |"/v1/"| == 4;
    GetLineNames("/");
    PostLineNames("/v1");
    RootsAreFree();
    RootsNamed(report);
    RootsPresent(report);
    RootIsRemoved(report, tagFor);
    assert "get" != "post" by { assert |"get"| == 3 && |"post"| == 4; }
    NoGetOfV1(report);
    OutputExactly(EMPTY, report, Slot("/v1", "get"), tagFor);
  }

  // ---- A reported alias -------------------------------------------------------------------

  /** A document holds a path and its versioned twin, and the report names the former with a method
      the twin lacks: the endpoint is added and removed again in the same run. */
  lemma AliasReportIsLost(d: Doc, raw: string, tagFor: string -> string)
    requires Valid(d) && AllSlash(PathSet(d)) && Reportable(d.paths, raw)
    requires var p := ReportedPath(raw);
             && p in d.paths && p != "/" && !Exempt(p)
             && Twin(p) in d.paths && Slot(Twin(p), ReportedVerb(raw)) !in d.entries
    ensures Brought(d.paths, [raw], Slot(ReportedPath(raw), ReportedVerb(raw)))
    ensures !Documented(Synchronised(d, [raw], tagFor), raw)
    ensures Slot(Twin(ReportedPath(raw)), ReportedVerb(raw)) !in Synchronised(d, [raw], tagFor).entries
  {
    hide Synchronised, ReportedPath, ReportedVerb, Shaped, LiveAfter, Reportable, Excluded;
    var p, verb := ReportedPath(raw), ReportedVerb(raw);
    assert p in PathSet(d) && Twin(p) == Alternative(p) && [raw][..0] == [];
    assert PathsAfter(d.paths, []) == d.paths && PathsAfter(d.paths, [raw]) == d.paths;
    assert Destination(d.paths, [raw], raw) == Slot(p, verb);
    assert BroughtBy(d.paths, [raw], 0, Slot(p, verb));
    LiveAfterClosed(d, [raw], p);
    OutputExactly(d, [raw], Slot(p, verb), tagFor);
    OutputExactly(d, [raw], Slot(Twin(p), verb), tagFor);
  }

  /** There are such documents and lines for every public path that can be removed. */
  lemma AliasReportExists(p: string) returns (d: Doc)
    requires p != "" && p[0] == '/' && p != "/" && !Exempt(p) && !Excluded(p) && forall c :: c in p ==> !T.IsSpace(c)
    ensures Valid(d) && AllSlash(PathSet(d)) && Reportable(d.paths, PostLine(p)) && ReportedPath(PostLine(p)) == p
    ensures p in d.paths && Twin(p) in d.paths && Slot(Twin(p), ReportedVerb(PostLine(p))) !in d.entries
  {
    hide ReportedPath, ReportedVerb, VisitsUpTo, Visits;
    PostLineNames(p);
    assert |Twin(p)| > |p| && |"get"| != |"post"|;
    d := PairExists(Slot(p, "get"), Slot(Twin(p), "get"), None, None);
    assert p in PathSet(d) && Twin(p) in PathSet(d);
  }
}
