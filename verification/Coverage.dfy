/** Which endpoints reach the output of the synchroniser. */
module Coverage {
  import opened Collections
  import opened OpenApi
  import opened VisitOrder
  import opened Aliases
  import opened AddEndpoints
  import opened ReportPaths
  import opened Synchroniser
  import opened Outcome
  import opened Acceptance

  // ---- Exactly which entries the output has -----------------------------------------------

  /** The entry is there before, or the report brings it in. */
  ghost predicate Present(d: Doc, report: seq<string>, s: Slot) {
    s in d.entries || Brought(d.paths, report, s)
  }

  /** The output of the whole script has exactly the entries that were there or are brought in by the
      report, on paths that survive; all of it read off document and report. */
  lemma OutputExactly(d: Doc, report: seq<string>, s: Slot, tagFor: string -> string)
    requires Valid(d)
    ensures s in Synchronised(d, report, tagFor).entries <==> s.path in LiveAfter(d, report) && Present(d, report, s)
  {
    hide Shaped, Covered, Grown, NewDiffer, Extends, Brought, LiveAfter, Live, EnrichedAndPruned, Enriched, AddAll;
    StartIdsCover(d);
    AfterReportGrown(d, report, tagFor);
    var a := AfterReport(d, report, tagFor);
    LiveAfterExact(d, report, tagFor);
    EntriesAfterExactly(Added(d, StartIds(d)), report, s, tagFor);
    PrunedEntries(a.doc, a.used, s, tagFor);
  }

  lemma OutputPaths(d: Doc, report: seq<string>, tagFor: string -> string)
    requires Valid(d)
    ensures PathSet(Synchronised(d, report, tagFor)) == LiveAfter(d, report)
  {
    hide Shaped, Covered, Grown, NewDiffer, Extends, LiveAfter, Sweep, AddAll;
    AfterReportGrown(d, report, tagFor);
    var a := AfterReport(d, report, tagFor);
    LiveAfterExact(d, report, tagFor);
    EnrichedValid(a.doc, a.used, tagFor);
    RestrictPaths(Enriched(a.doc, a.used, tagFor), Live(a.doc));
  }

  lemma {:induction false} PathsAfterSlash(paths: seq<string>, report: seq<string>)
    requires Distinct(paths) && SlashReport(report) && forall p :: p in paths ==> p != "" && p[0] == '/'
    ensures Distinct(PathsAfter(paths, report))
    ensures forall p :: p in PathsAfter(paths, report) ==> p != "" && p[0] == '/'
    decreases |report|
  {
    if report != [] {
      var front := report[..|report| - 1];
      assert report == front + [report[|report| - 1]];
      PathsAfterSlash(paths, front);
    }
  }

  /** The surviving paths in closed form. */
  lemma LiveAfterClosed(d: Doc, report: seq<string>, p: string)
    requires Valid(d) && AllSlash(PathSet(d)) && SlashReport(report)
    ensures p in LiveAfter(d, report) <==>
              var paths := PathsAfter(d.paths, report); Stays(paths, Elements(paths), p)
  {
    assert forall q :: q in d.paths ==> q in PathSet(d);
    PathsAfterSlash(d.paths, report);
    SweepExactly(PathsAfter(d.paths, report), Elements(PathsAfter(d.paths, report)), p);
  }

  lemma LiveIsAfter(d: Doc, report: seq<string>, p: string)
    ensures p in LiveAfter(d, report) ==> p in PathsAfter(d.paths, report)
  {
  }

  /** A reported endpoint that is not skipped is in the output, under its own path or the other form,
      if and only if the path it goes to survives, or the other form has the method and survives. */
  lemma ReportedReachesIff(d: Doc, report: seq<string>, raw: string, tagFor: string -> string)
    requires Valid(d) && raw in report && Reportable(d.paths, raw)
    ensures Documented(Synchronised(d, report, tagFor), raw) <==>
              var s, alt := Destination(d.paths, report, raw), Slot(Alternative(ReportedPath(raw)), ReportedVerb(raw));
              s.path in LiveAfter(d, report) || (alt.path in LiveAfter(d, report) && Present(d, report, alt))
  {
    hide Shaped, Reportable, PathsAfter, LiveAfter, Synchronised, ReportedPath, ReportedVerb, Alternative;
    var k :| 0 <= k < |report| && report[k] == raw;
    var s := Destination(d.paths, report, raw);
    assert BroughtBy(d.paths, report, k, s);
    OutputExactly(d, report, s, tagFor);
    OutputExactly(d, report, Slot(ReportedPath(raw), ReportedVerb(raw)), tagFor);
    OutputExactly(d, report, Slot(Alternative(ReportedPath(raw)), ReportedVerb(raw)), tagFor);
    LiveIsAfter(d, report, ReportedPath(raw));
  }

  // ---- Documents without alias pairs --------------------------------------------------------------

  lemma NothingSwept(d: Doc, report: seq<string>)
    requires Valid(d) && AllSlash(PathSet(d)) && AliasFree(PathSet(d)) && SlashReport(report)
    requires !RootPairComes(d.paths, report)
    ensures LiveAfter(d, report) == Elements(PathsAfter(d.paths, report))
  {
    hide PathsAfter, RootPairComes;
    StartIdsCover(d);
    PathsAfterFree(Added(d, StartIds(d)), report);
    var paths := PathsAfter(d.paths, report);
    CleanSweep(paths, Elements(paths));
  }

  lemma EntryHasPath(d: Doc, s: Slot)
    requires Shaped(d) && s in d.entries
    ensures s.path in d.paths
  {
  }

  lemma DestinationIsAfter(d: Doc, report: seq<string>, raw: string, tagFor: string -> string)
    requires Valid(d) && raw in report && Reportable(d.paths, raw)
    ensures Destination(d.paths, report, raw).path in PathsAfter(d.paths, report)
  {
    hide Shaped, Reportable, PathsAfter, Covered, Extends, Grown, NewDiffer;
    var k :| 0 <= k < |report| && report[k] == raw;
    var start, s := Added(d, StartIds(d)), Destination(d.paths, report, raw);
    assert BroughtBy(d.paths, report, k, s);
    StartIdsCover(d);
    AfterReportGrown(d, report, tagFor);
    EntriesAfterExactly(start, report, s, tagFor);
    PathsAfterExact(start, report, tagFor);
    EntryHasPath(AfterReport(d, report, tagFor).doc, s);
  }

  /** For a document without alias pairs, and paths that start with a slash: unless document and
      report lead to both `/` and `/v1`, alias removal deletes nothing, and every old entry and every
      reported endpoint that is not skipped is in the output, the latter under its own path or the
      other form. */
  lemma ReportedReachOutput(d: Doc, report: seq<string>, raw: string, tagFor: string -> string)
    requires Valid(d) && AllSlash(PathSet(d)) && AliasFree(PathSet(d)) && SlashReport(report)
    requires !RootPairComes(d.paths, report)
    ensures PathSet(Synchronised(d, report, tagFor)) == Elements(PathsAfter(d.paths, report))
    ensures raw in report && Reportable(d.paths, raw) ==> Documented(Synchronised(d, report, tagFor), raw)
    ensures forall s :: s in d.entries ==> s in Synchronised(d, report, tagFor).entries
  {
    hide RootPairComes, Reportable, Documented, Synchronised, PathsAfter, AliasFree, SlashReport, LiveAfter;
    NothingSwept(d, report);
    OutputPaths(d, report, tagFor);
    if raw in report && Reportable(d.paths, raw) {
      ReportedReachesIff(d, report, raw, tagFor);
      DestinationIsAfter(d, report, raw, tagFor);
    }
    forall s | s in d.entries ensures s in Synchronised(d, report, tagFor).entries {
      OutputExactly(d, report, s, tagFor);
      PathsStay(d.paths, report, s.path);
    }
  }

  /** In particular when neither document nor report mentions `/`. */
  lemma RootlessReachOutput(d: Doc, report: seq<string>, raw: string, tagFor: string -> string)
    requires Valid(d) && AllSlash(PathSet(d)) && AliasFree(PathSet(d)) && SlashReport(report)
    requires "/" !in d.paths && forall r :: r in report ==> ReportedPath(r) != "/"
    ensures PathSet(Synchronised(d, report, tagFor)) == Elements(PathsAfter(d.paths, report))
    ensures raw in report && Reportable(d.paths, raw) ==> Documented(Synchronised(d, report, tagFor), raw)
    ensures forall s :: s in d.entries ==> s in Synchronised(d, report, tagFor).entries
  {
    NoRootNoPair(d.paths, report);
    ReportedReachOutput(d, report, raw, tagFor);
  }

  // ---- What alias removal costs ---------------------------------------------------------------------

  /** What alias removal costs, in any order: an operation is lost exactly if its path is removed,
      and its endpoint is then served by the versioned twin exactly if the twin had the method and
      is not removed itself, which happens to the root in the triangle only. */
  lemma LostExactly(d: Doc, used: set<string>, s: Slot, tagFor: string -> string)
    requires Valid(d) && AllSlash(PathSet(d)) && IsOperation(d.entries, s)
    ensures var o, twin := EnrichedAndPruned(d, used, tagFor).entries, Slot(Twin(s.path), s.key);
            && (s in o <==> s.path in Live(d))
            && (s !in o ==> (twin in o <==> twin in d.entries && !(s.path == "/" && Triangle(PathSet(d)))))
  {
    hide Enriched, EnrichedAndPruned, Sweep;
    PrunedEntries(d, used, s, tagFor);
    PrunedEntries(d, used, Slot(Twin(s.path), s.key), tagFor);
    assert s.path in d.paths && forall p :: p in d.paths <==> p in PathSet(d);
    if s.path !in Live(d) { TwinSurvives(d.paths, PathSet(d), s.path); }
  }
}
