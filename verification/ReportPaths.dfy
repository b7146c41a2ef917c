/** Which paths and endpoints the add loop of sync-openapi-from-diff.ts leads to, read off the
    document and the report before the loop. */
module ReportPaths {
  import opened Collections
  import opened OpenApi
  import opened Aliases
  import opened AddEndpoints
  import opened OperationIds

  /** The other form of a path: without the version prefix if it has one, else with it. */
  lemma OtherForm(p: string)
    requires p != "" && p[0] == '/'
    ensures if |p| >= 4 && p[..4] == "/v1/" then "/v1" + Alternative(p) == p && Alternative(p)[0] == '/'
            else Alternative(p) == "/v1" + p
  {
    if |p| >= 4 && p[..4] == "/v1/" {
      assert p[..4][3] == '/' && p[..3] == p[..4][..3] == "/v1";
    }
  }

  // ---- The paths after the loop --------------------------------------------------------

  /** A line with a known method that names `p`. */
  predicate Names(raw: string, p: string) {
    IsMethod(ReportedVerb(raw)) && ReportedPath(raw) == p
  }

  /** The line brings in its path, when `paths` are there before. */
  predicate BringsPath(paths: seq<string>, raw: string) {
    var p := ReportedPath(raw);
    IsMethod(ReportedVerb(raw)) && p != "" && !Excluded(p) && p !in paths && Alternative(p) !in paths
  }

  /** The paths after the report, from the paths before and nothing else. */
  function PathsAfter(paths: seq<string>, report: seq<string>): seq<string> {
    if report == [] then paths
    else
      var before := PathsAfter(paths, report[..|report| - 1]);
      if BringsPath(before, report[|report| - 1]) then before + [ReportedPath(report[|report| - 1])] else before
  }

  lemma OneLinePaths(a: Added, raw: string, tagFor: string -> string)
    requires Valid(a.doc)
    ensures AddOne(a, raw, tagFor).doc.paths ==
            if BringsPath(a.doc.paths, raw) then a.doc.paths + [ReportedPath(raw)] else a.doc.paths
  {
    hide NewOperation, FreshId, ReportedVerb, ReportedPath, Excluded, Alternative, IsMethod, Distinct;
    assert forall s :: s in a.doc.entries ==> s.path in a.doc.paths;
  }

  /** The loop's paths are those, in that order. */
  lemma {:induction false} PathsAfterExact(a: Added, report: seq<string>, tagFor: string -> string)
    requires Valid(a.doc) && Covered(a.doc, a.used)
    ensures AddAll(a, report, tagFor).doc.paths == PathsAfter(a.doc.paths, report)
    decreases |report|
  {
    if report != [] {
      var front := report[..|report| - 1];
      PathsAfterExact(a, front, tagFor);
      AddAllKeeps(a, front, tagFor);
      OneLinePaths(AddAll(a, front, tagFor), report[|report| - 1], tagFor);
    }
  }

  lemma {:induction false} PathsStay(paths: seq<string>, report: seq<string>, p: string)
    requires p in paths
    ensures p in PathsAfter(paths, report)
    decreases |report|
  {
    if report != [] { PathsStay(paths, report[..|report| - 1], p); }
  }

  /** An excluded path is never brought in, nor is one whose other form was there without it. */
  lemma {:induction false} NeverBroughtIn(paths: seq<string>, report: seq<string>, p: string)
    requires p !in paths && (Excluded(p) || Alternative(p) in paths)
    ensures p !in PathsAfter(paths, report)
    decreases |report|
  {
    if report != [] {
      NeverBroughtIn(paths, report[..|report| - 1], p);
      if Alternative(p) in paths { PathsStay(paths, report[..|report| - 1], Alternative(p)); }
    }
  }

  // ---- Presence, read off document and report ---------------------------------------------

  /** Of the lines that name `p` or its other form, the first names `p`. */
  ghost predicate NamedFirst(report: seq<string>, p: string) {
    exists k :: 0 <= k < |report| && Names(report[k], p) && forall i :: 0 <= i < k ==> !Names(report[i], Alternative(p))
  }

  /** `p` is there already, or it is named first and its other form is not there. */
  ghost predicate WillBePresent(paths: seq<string>, report: seq<string>, p: string) {
    p in paths || (Alternative(p) !in paths && NamedFirst(report, p))
  }

  /** Two public paths that are each other's other form. */
  predicate FreePair(p: string, q: string) {
    Alternative(p) == q && Alternative(q) == p && p != "" && q != "" && p != q && !Excluded(p) && !Excluded(q)
  }

  lemma {:induction false} OneIsFirst(report: seq<string>, p: string, q: string, i: nat)
    requires Alternative(p) == q && Alternative(q) == p && i < |report| && Names(report[i], p)
    ensures NamedFirst(report, p) || NamedFirst(report, q)
    decreases i
  {
    if j :| 0 <= j < i && Names(report[j], q) { OneIsFirst(report, q, p, j); }
  }

  lemma FirstOfLonger(report: seq<string>, p: string, q: string)
    requires report != [] && Alternative(p) == q && Alternative(q) == p && p != q
    ensures var front, last := report[..|report| - 1], report[|report| - 1];
            NamedFirst(report, p) <==>
              NamedFirst(front, p) || (Names(last, p) && !NamedFirst(front, p) && !NamedFirst(front, q))
  {
    hide Names, Alternative;
    var front, last := report[..|report| - 1], report[|report| - 1];
    if NamedFirst(report, p) {
      var k :| 0 <= k < |report| && Names(report[k], p) && forall i :: 0 <= i < k ==> !Names(report[i], q);
      if k < |front| { assert Names(front[k], p); }
      assert forall i :: 0 <= i < k ==> report[i] == front[i];
    }
    if NamedFirst(front, p) {
      var k :| 0 <= k < |front| && Names(front[k], p) && forall i :: 0 <= i < k ==> !Names(front[i], q);
      assert Names(report[k], p) && forall i :: 0 <= i < k ==> report[i] == front[i];
    } else if Names(last, p) && !NamedFirst(front, q) {
      forall i | 0 <= i < |front| ensures !Names(report[i], q) {
        if Names(front[i], q) { OneIsFirst(front, q, p, i); }
      }
      assert Names(report[|front|], p);
    }
  }

  lemma NotBothFirst(report: seq<string>, p: string, q: string)
    requires Alternative(p) == q && Alternative(q) == p && p != q
    ensures !(NamedFirst(report, p) && NamedFirst(report, q))
  {
  }

  /** A path of a free pair is in the document after the report exactly if it was before, or if
      its other form was not and the report names it first. */
  lemma {:induction false} PresentIff(paths: seq<string>, report: seq<string>, p: string, q: string)
    requires FreePair(p, q)
    ensures p in PathsAfter(paths, report) <==> WillBePresent(paths, report, p)
    decreases |report|
  {
    if report != [] {
      var front := report[..|report| - 1];
      PresentIff(paths, front, p, q);
      PresentIff(paths, front, q, p);
      FirstOfLonger(report, p, q);
      NotBothFirst(report, p, q);
      NotBothFirst(front, p, q);
    }
  }

  // ---- Every reported endpoint is there --------------------------------------------------------

  ghost predicate Documented(d: Doc, raw: string) {
    || Slot(ReportedPath(raw), ReportedVerb(raw)) in d.entries
    || Slot(Alternative(ReportedPath(raw)), ReportedVerb(raw)) in d.entries
  }

  /** The line is not skipped: a known method, a path that is not excluded, and not one of which
      only the other form is documented while that one is excluded. */
  predicate Reportable(paths: seq<string>, raw: string) {
    var p := ReportedPath(raw);
    && IsMethod(ReportedVerb(raw)) && p != "" && !Excluded(p)
    && !(Excluded(Alternative(p)) && Alternative(p) in paths && p !in paths)
  }

  /** Whenever the line's turn comes, the loop acts on it if and only if it is reportable. */
  lemma {:induction false} ActedOnIff(a: Added, before: seq<string>, raw: string, tagFor: string -> string)
    requires Valid(a.doc) && Covered(a.doc, a.used)
    ensures Target(AddAll(a, before, tagFor).doc, raw).Some? <==> Reportable(a.doc.paths, raw)
  {
    var p := ReportedPath(raw);
    var paths := a.doc.paths;
    PathsAfterExact(a, before, tagFor);
    if p in paths {
      PathsStay(paths, before, p);
    } else if Alternative(p) in paths {
      PathsStay(paths, before, Alternative(p));
      NeverBroughtIn(paths, before, p);
    } else if Excluded(Alternative(p)) {
      NeverBroughtIn(paths, before, Alternative(p));
    }
  }

  // ---- The endpoints after the loop --------------------------------------------------------------

  /** Where the endpoint of a reportable line ends up. */
  function Destination(paths: seq<string>, report: seq<string>, raw: string): Slot {
    var p := ReportedPath(raw);
    Slot(if p in PathsAfter(paths, report) then p else Alternative(p), ReportedVerb(raw))
  }

  lemma {:induction false} PathsAfterSplit(paths: seq<string>, report: seq<string>, k: nat)
    requires k <= |report|
    ensures PathsAfter(paths, report) == PathsAfter(PathsAfter(paths, report[..k]), report[k..])
    decreases |report|
  {
    if k == |report| {
      assert report[..k] == report;
    } else {
      var front := report[..|report| - 1];
      PathsAfterSplit(paths, front, k);
      assert front[..k] == report[..k] && report[k..][..|report[k..]| - 1] == front[k..];
    }
  }

  lemma BroughtInAt(before: seq<string>, rest: seq<string>)
    requires rest != [] && BringsPath(before, rest[0])
    ensures ReportedPath(rest[0]) in PathsAfter(before, rest)
  {
    PathsAfterSplit(before, rest, 1);
    assert rest[..1][..0] == [];
    PathsStay(PathsAfter(before, rest[..1]), rest[1..], ReportedPath(rest[0]));
  }

  /** Whenever a reportable line's turn comes, the loop puts its endpoint where it will be found. */
  lemma TargetIsDestination(a: Added, report: seq<string>, k: nat, tagFor: string -> string)
    requires Valid(a.doc) && Covered(a.doc, a.used) && k < |report| && Reportable(a.doc.paths, report[k])
    ensures Target(AddAll(a, report[..k], tagFor).doc, report[k]) == Some(Destination(a.doc.paths, report, report[k]))
  {
    hide Valid, Covered, Excluded, ReportedPath, ReportedVerb, Alternative, PathsAfter, IsMethod;
    var p, before := ReportedPath(report[k]), PathsAfter(a.doc.paths, report[..k]);
    ActedOnIff(a, report[..k], report[k], tagFor);
    PathsAfterExact(a, report[..k], tagFor);
    PathsAfterSplit(a.doc.paths, report, k);
    if p in before {
      PathsStay(before, report[k..], p);
    } else if Alternative(p) in before {
      NeverBroughtIn(before, report[k..], p);
    } else {
      BroughtInAt(before, report[k..]);
    }
  }

  ghost predicate TargetedBy(a: Added, report: seq<string>, k: nat, s: Slot, tagFor: string -> string)
    requires k < |report|
  {
    Target(AddAll(a, report[..k], tagFor).doc, report[k]) == Some(s)
  }

  lemma {:induction false} TargetsAreAdded(a: Added, report: seq<string>, s: Slot, tagFor: string -> string)
    requires Valid(a.doc) && Covered(a.doc, a.used)
    ensures s in AddAll(a, report, tagFor).doc.entries <==>
              s in a.doc.entries || exists k :: 0 <= k < |report| && TargetedBy(a, report, k, s, tagFor)
    decreases |report|
  {
    hide Valid, Covered, Grown, AddOne, Target;
    if report != [] {
      var n := |report| - 1;
      var front, m := report[..n], AddAll(a, report[..n], tagFor);
      TargetsAreAdded(a, front, s, tagFor);
      AddAllKeeps(a, front, tagFor);
      AddOneKeeps(m, report[n], tagFor);
      forall k | 0 <= k < n ensures TargetedBy(a, report, k, s, tagFor) <==> TargetedBy(a, front, k, s, tagFor) {
        assert front[..k] == report[..k] && front[k] == report[k];
      }
      assert TargetedBy(a, report, n, s, tagFor) <==> Target(m.doc, report[n]) == Some(s);
      assert s in AddAll(a, report, tagFor).doc.entries <==> s in m.doc.entries || Target(m.doc, report[n]) == Some(s);
    }
  }

  ghost predicate BroughtBy(paths: seq<string>, report: seq<string>, k: nat, s: Slot)
    requires k < |report|
  {
    Reportable(paths, report[k]) && s == Destination(paths, report, report[k])
  }

  /** The report brings in the entry `s`, read off the paths before and the report. */
  ghost predicate Brought(paths: seq<string>, report: seq<string>, s: Slot) {
    exists k :: 0 <= k < |report| && BroughtBy(paths, report, k, s)
  }

  /** The entries after the loop are those before and the destinations of the reportable lines. */
  lemma EntriesAfterExactly(a: Added, report: seq<string>, s: Slot, tagFor: string -> string)
    requires Valid(a.doc) && Covered(a.doc, a.used)
    ensures s in AddAll(a, report, tagFor).doc.entries <==> s in a.doc.entries || Brought(a.doc.paths, report, s)
  {
    hide Valid, Covered, AddAll, Target, Reportable, Destination;
    TargetsAreAdded(a, report, s, tagFor);
    forall k | 0 <= k < |report|
      ensures TargetedBy(a, report, k, s, tagFor) <==> BroughtBy(a.doc.paths, report, k, s)
    {
      ActedOnIff(a, report[..k], report[k], tagFor);
      if Reportable(a.doc.paths, report[k]) { TargetIsDestination(a, report, k, tagFor); }
    }
  }

  // ---- Every reported endpoint is there ----------------------------------------------------------

  /** Every endpoint the report names, unless skipped as excluded, is documented afterwards under
      its own path or under the versioned or unversioned form of it. */
  lemma ReportedAreDocumented(a: Added, report: seq<string>, raw: string, tagFor: string -> string)
    requires Valid(a.doc) && Covered(a.doc, a.used) && raw in report && Reportable(a.doc.paths, raw)
    ensures Documented(AddAll(a, report, tagFor).doc, raw)
  {
    hide Valid, Covered, AddAll, Reportable, PathsAfter;
    var k :| 0 <= k < |report| && report[k] == raw;
    assert BroughtBy(a.doc.paths, report, k, Destination(a.doc.paths, report, raw));
    EntriesAfterExactly(a, report, Destination(a.doc.paths, report, raw), tagFor);
  }

  // ---- No alias pair is created, but for the root ------------------------------------------------

  predicate AliasFree(paths: set<string>) {
    forall p :: p in paths && !Exempt(p) ==> Twin(p) !in paths
  }

  ghost predicate OnlyRootPair(paths: seq<string>) {
    && (forall p :: p in paths ==> p != "" && p[0] == '/')
    && forall p :: p in paths && !Exempt(p) && Twin(p) in paths ==> p == "/"
  }

  /** The paths the report names start with a slash. */
  predicate SlashReport(report: seq<string>) {
    forall raw :: raw in report && ReportedPath(raw) != "" ==> ReportedPath(raw)[0] == '/'
  }

  lemma NewPathOnlyRoot(paths: seq<string>, q: string)
    requires OnlyRootPair(paths) && q !in paths && q != "" && q[0] == '/' && Alternative(q) !in paths
    ensures OnlyRootPair(paths + [q])
  {
  }

  lemma {:induction false} AddKeepsOnlyRoot(paths: seq<string>, report: seq<string>)
    requires OnlyRootPair(paths) && SlashReport(report)
    ensures OnlyRootPair(PathsAfter(paths, report))
    decreases |report|
  {
    if report != [] {
      var front, last := report[..|report| - 1], report[|report| - 1];
      assert report == front + [last];
      AddKeepsOnlyRoot(paths, front);
      if BringsPath(PathsAfter(paths, front), last) {
        NewPathOnlyRoot(PathsAfter(paths, front), ReportedPath(last));
      }
    }
  }

  lemma RootsAreFree()
    ensures FreePair("/", "/v1/") && FreePair("/v1", "/v1/v1")
  {
    assert |"/"| == 1 && |"/v1/"| == 4 && |"/v1"| == 3 && |"/v1/v1"| == 6;
    assert "/v1/"[..4] == "/v1/" && "/v1/"[3..] == "/";
    assert "/v1/v1"[..4] == "/v1/" && "/v1/v1"[3..] == "/v1";
  }

  /** The document and the report lead to both `/` and `/v1`. */
  ghost predicate RootPairComes(paths: seq<string>, report: seq<string>) {
    WillBePresent(paths, report, "/") && WillBePresent(paths, report, "/v1")
  }

  lemma PathsAfterFree(a: Added, report: seq<string>)
    requires AllSlash(PathSet(a.doc)) && AliasFree(PathSet(a.doc)) && SlashReport(report)
    ensures AliasFree(Elements(PathsAfter(a.doc.paths, report))) <==> !RootPairComes(a.doc.paths, report)
  {
    assert forall p :: p in a.doc.paths <==> p in PathSet(a.doc);
    AddKeepsOnlyRoot(a.doc.paths, report);
    RootsAreFree();
    PresentIff(a.doc.paths, report, "/", "/v1/");
    PresentIff(a.doc.paths, report, "/v1", "/v1/v1");
    assert Twin("/") == "/v1" && !Exempt("/");
  }

  /** For a document without alias pairs, whose paths and report start with a slash, the add loop
      creates an alias pair if and only if document and report lead to both `/` and `/v1`. */
  lemma AddCreatesPairIff(a: Added, report: seq<string>, tagFor: string -> string)
    requires Valid(a.doc) && Covered(a.doc, a.used)
    requires AllSlash(PathSet(a.doc)) && AliasFree(PathSet(a.doc)) && SlashReport(report)
    ensures AliasFree(PathSet(AddAll(a, report, tagFor).doc)) <==> !RootPairComes(a.doc.paths, report)
  {
    PathsAfterExact(a, report, tagFor);
    PathsAfterFree(a, report);
    assert Elements(PathsAfter(a.doc.paths, report)) == PathSet(AddAll(a, report, tagFor).doc);
  }

  /** In particular none is created when neither document nor report mentions `/`. */
  lemma {:induction false} NoRootNoPair(paths: seq<string>, report: seq<string>)
    requires "/" !in paths && forall raw :: raw in report ==> ReportedPath(raw) != "/"
    ensures !RootPairComes(paths, report)
  {
    assert !NamedFirst(report, "/");
  }
}
