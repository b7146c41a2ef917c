/** When the validator accepts what the synchroniser writes. */
module Acceptance {
  import opened Collections
  import T = Text
  import opened OpenApi
  import opened Enrichment
  import opened EnrichAll
  import opened AssignedIds
  import opened VisitOrder
  import opened Aliases
  import opened AddEndpoints
  import opened ReportPaths
  import opened Synchroniser
  import opened Validator
  import opened Outcome

  // ---- Collisions, read off the document before enrichment ---------------------------------

  function TrimmedId(d: Doc, s: Slot): string {
    var id := IdAt(d.entries, s);
    if id.Some? then T.Trim(id.value) else ""
  }

  /** Two operations on paths in `live` keep ids that are equal after trimming. */
  ghost predicate KeptAlike(d: Doc, live: set<string>, s: Slot, t: Slot) {
    s != t && s.path in live && t.path in live && Keeps(d, s) && Keeps(d, t) && TrimmedId(d, s) == TrimmedId(d, t)
  }

  /** The `n`-th operation gets a generated id, which is the trimmed form of an id that is kept. */
  ghost predicate GeneratedAlike(d: Doc, used: set<string>, s: Slot, n: nat)
    requires Valid(d) && n < |Visits(d)|
  {
    && s.path in Live(d) && Visits(d)[n].path in Live(d)
    && Keeps(d, s) && !Keeps(d, Visits(d)[n]) && FinalId(d, used, n) == TrimmedId(d, s)
  }

  ghost predicate Collides(d: Doc, used: set<string>)
    requires Valid(d)
  {
    || (exists s, t :: KeptAlike(d, Live(d), s, t))
    || (exists s, n :: 0 <= n < |Visits(d)| && GeneratedAlike(d, used, s, n))
  }

  lemma KeptIsFinal(d: Doc, used: set<string>, n: nat)
    requires Valid(d) && n < |Visits(d)| && Keeps(d, Visits(d)[n])
    ensures IdAt(d.entries, Visits(d)[n]) == Some(FinalId(d, used, n))
  {
    hide Keeps;
    KeepsIff(d, n);
    assert KeepsId(d.entries, Visits(d), n);
  }

  lemma GeneratedIsClean(d: Doc, used: set<string>, n: nat)
    requires Valid(d) && Covered(d, used) && n < |Visits(d)| && !Keeps(d, Visits(d)[n])
    ensures FinalId(d, used, n) !in used && T.AllAlnum(FinalId(d, used, n))
    ensures T.Trim(FinalId(d, used, n)) == FinalId(d, used, n)
  {
    hide Keeps, Distinct, VisitsUpTo;
    KeepsIff(d, n);
    VisitsExact(d);
    assert Visits(d)[n] in Visits(d);
    GeneratedIsFresh(Work(d.entries, used), Visits(d), n);
  }

  /** Two operations of the output whose ids the validator cannot tell apart. */
  lemma AlikeRejected(o: Doc, s: Slot, t: Slot)
    requires Checked(o, s) && Checked(o, t) && s != t
    requires IdAt(o.entries, s).Some? && IdAt(o.entries, t).Some?
    requires T.Trim(IdAt(o.entries, s).value) == T.Trim(IdAt(o.entries, t).value)
    ensures !ContractHolds(o)
  {
  }

  /** For every document: if two surviving operations keep ids that are equal after trimming, the
      validator rejects the output. */
  lemma KeptAlikeRejected(d: Doc, used: set<string>, s: Slot, t: Slot, tagFor: string -> string)
    requires Valid(d) && Covered(d, used) && KeptAlike(d, Live(d), s, t)
    ensures !ContractHolds(EnrichedAndPruned(d, used, tagFor))
  {
    hide Distinct, VisitsUpTo, Sweep, FinalId, Enriched, EnrichedAndPruned, EnrichedOperation, TwiceFrom, ContractHolds;
    var m := Index(d, s);
    var n := Index(d, t);
    OutputEntry(d, used, m, tagFor);
    OutputEntry(d, used, n, tagFor);
    KeptIsFinal(d, used, m);
    KeptIsFinal(d, used, n);
    AlikeRejected(EnrichedAndPruned(d, used, tagFor), s, t);
  }

  lemma GeneratedAlikeRejected(d: Doc, used: set<string>, s: Slot, n: nat, tagFor: string -> string)
    requires Valid(d) && Covered(d, used) && n < |Visits(d)| && GeneratedAlike(d, used, s, n)
    ensures !ContractHolds(EnrichedAndPruned(d, used, tagFor))
  {
    hide Distinct, VisitsUpTo, Sweep, FinalId, Enriched, EnrichedAndPruned, EnrichedOperation, TwiceFrom, ContractHolds;
    var m := Index(d, s);
    OutputEntry(d, used, m, tagFor);
    OutputEntry(d, used, n, tagFor);
    KeptIsFinal(d, used, m);
    GeneratedIsClean(d, used, n);
    AlikeRejected(EnrichedAndPruned(d, used, tagFor), s, Visits(d)[n]);
  }

  lemma DistinctAt(v: seq<Slot>, m: nat, n: nat)
    requires Distinct(v) && m < |v| && n < |v| && m != n
    ensures v[m] != v[n]
  {
  }

  /** Final ids that collide after trimming come from one of the two cases. */
  lemma FinalIdsCollide(d: Doc, used: set<string>, m: nat, n: nat)
    requires Valid(d) && Covered(d, used) && m < |Visits(d)| && n < |Visits(d)| && m != n
    requires Visits(d)[m].path in Live(d) && Visits(d)[n].path in Live(d)
    requires T.Trim(FinalId(d, used, m)) == T.Trim(FinalId(d, used, n))
    ensures Collides(d, used)
  {
    hide Distinct, VisitsUpTo, Sweep, AssignedId, Keeps;
    var s, t := Visits(d)[m], Visits(d)[n];
    VisitsExact(d);
    assert s != t by { DistinctAt(Visits(d), m, n); }
    if Keeps(d, s) { KeptIsFinal(d, used, m); } else { GeneratedIsClean(d, used, m); }
    if Keeps(d, t) { KeptIsFinal(d, used, n); } else { GeneratedIsClean(d, used, n); }
    if Keeps(d, s) && Keeps(d, t) {
      assert KeptAlike(d, Live(d), s, t);
    } else if Keeps(d, s) {
      assert GeneratedAlike(d, used, s, n);
    } else if Keeps(d, t) {
      assert GeneratedAlike(d, used, t, m);
    } else {
      KeepsIff(d, m);
      CoveredVisits(d, used);
      GeneratedDiffers(Work(d.entries, used), Visits(d), m, n);
    }
  }

  /** The output's operations are complete. */
  lemma OutputComplete(d: Doc, used: set<string>, s: Slot, tagFor: string -> string) returns (n: nat)
    requires Valid(d) && Covered(d, used) && Checked(EnrichedAndPruned(d, used, tagFor), s)
    ensures n < |Visits(d)| && Visits(d)[n] == s && s.path in Live(d)
    ensures var op := EnrichedAndPruned(d, used, tagFor).entries[s].op;
            HasId(op) && HasTags(op) && op.ci.CiBlock? && op.operationId == Some(FinalId(d, used, n))
  {
    hide Distinct, VisitsUpTo, Sweep, FinalId, Enriched, EnrichedAndPruned;
    PrunedEntries(d, used, s, tagFor);
    n := Index(d, s);
    OutputEntry(d, used, n, tagFor);
  }

  lemma NoCollisionAccepts(d: Doc, used: set<string>, tagFor: string -> string)
    requires Valid(d) && Covered(d, used) && !Collides(d, used)
    ensures ContractHolds(EnrichedAndPruned(d, used, tagFor))
  {
    hide Distinct, VisitsUpTo, Sweep, FinalId, Enriched, EnrichedAndPruned, Collides, Valid, Covered;
    var o := EnrichedAndPruned(d, used, tagFor);
    forall s | Checked(o, s)
      ensures HasId(o.entries[s].op) && HasTags(o.entries[s].op) && !o.entries[s].op.ci.CiMissing?
    {
      var n := OutputComplete(d, used, s, tagFor);
    }
    forall s, t | Checked(o, s) && Checked(o, t) && s != t
      ensures T.Trim(o.entries[s].op.operationId.value) != T.Trim(o.entries[t].op.operationId.value)
    {
      var m := OutputComplete(d, used, s, tagFor);
      var n := OutputComplete(d, used, t, tagFor);
      if T.Trim(FinalId(d, used, m)) == T.Trim(FinalId(d, used, n)) { FinalIdsCollide(d, used, m, n); }
    }
  }

  /** For every document: the validator accepts what enrichment and alias removal make of it if and
      only if no two surviving operations keep ids that are equal after trimming, and no generated
      id is the trimmed form of one that is kept. */
  lemma AcceptedIff(d: Doc, used: set<string>, tagFor: string -> string)
    requires Valid(d) && Covered(d, used)
    ensures ContractHolds(EnrichedAndPruned(d, used, tagFor)) <==> !Collides(d, used)
  {
    if !Collides(d, used) {
      NoCollisionAccepts(d, used, tagFor);
    } else if s, t :| KeptAlike(d, Live(d), s, t) {
      KeptAlikeRejected(d, used, s, t, tagFor);
    } else {
      var s, n :| 0 <= n < |Visits(d)| && GeneratedAlike(d, used, s, n);
      GeneratedAlikeRejected(d, used, s, n, tagFor);
    }
  }

  // ---- The whole script, read off document and report -------------------------------------------

  /** The trimmed form of every id in the document that is not blank is in use itself, so that it
      is never generated.  Trimmed ids are a case of this. */
  ghost predicate TrimmedFormsUsed(d: Doc, used: set<string>) {
    forall s :: IsOperation(d.entries, s) && IdAt(d.entries, s).Some? && !T.Blank(IdAt(d.entries, s).value)
      ==> TrimmedId(d, s) in used
  }

  /** Then a generated id is never in the way. */
  lemma GeneratedNeverAlike(d: Doc, used: set<string>, s: Slot, n: nat)
    requires Valid(d) && Covered(d, used) && TrimmedFormsUsed(d, used) && n < |Visits(d)|
    ensures !GeneratedAlike(d, used, s, n)
  {
    hide FinalId, Sweep, TwiceFrom, Distinct, VisitsUpTo;
    if GeneratedAlike(d, used, s, n) { GeneratedIsClean(d, used, n); }
  }

  /** The paths left by the whole script. */
  function LiveAfter(d: Doc, report: seq<string>): set<string> {
    var paths := PathsAfter(d.paths, report);
    Sweep(paths, Elements(paths))
  }

  lemma LiveAfterExact(d: Doc, report: seq<string>, tagFor: string -> string)
    requires Valid(d)
    ensures Live(AfterReport(d, report, tagFor).doc) == LiveAfter(d, report)
  {
    StartIdsCover(d);
    PathsAfterExact(Added(d, StartIds(d)), report, tagFor);
    assert Elements(PathsAfter(d.paths, report)) == PathSet(AfterReport(d, report, tagFor).doc);
  }

  lemma OneLineExtends(a: Added, raw: string, tagFor: string -> string)
    requires Valid(a.doc)
    ensures Extends(a.doc, AddOne(a, raw, tagFor).doc)
  {
    hide NewOperation, ReportedVerb, ReportedPath, Excluded, Alternative, Distinct;
  }

  lemma {:induction false} ReportExtends(a: Added, report: seq<string>, tagFor: string -> string)
    requires Valid(a.doc) && Covered(a.doc, a.used)
    ensures Extends(a.doc, AddAll(a, report, tagFor).doc)
    decreases |report|
  {
    hide AddOne, Valid, Covered, Grown;
    if report != [] {
      var front := report[..|report| - 1];
      ReportExtends(a, front, tagFor);
      AddAllKeeps(a, front, tagFor);
      OneLineExtends(AddAll(a, front, tagFor), report[|report| - 1], tagFor);
    }
  }

  /** The document and used ids after the report, and what the report left alone. */
  lemma AfterReportGrown(d: Doc, report: seq<string>, tagFor: string -> string)
    requires Valid(d)
    ensures var start, a := Added(d, StartIds(d)), AfterReport(d, report, tagFor);
            && Valid(a.doc) && Covered(a.doc, a.used) && Grown(start, a) && NewDiffer(start, a) && Extends(d, a.doc)
  {
    hide Valid, Covered, Grown, NewDiffer, Extends;
    StartIdsCover(d);
    AddAllKeeps(Added(d, StartIds(d)), report, tagFor);
    AddedIdsDiffer(Added(d, StartIds(d)), report, tagFor);
    ReportExtends(Added(d, StartIds(d)), report, tagFor);
  }

  lemma TrimmedFormsStay(start: Added, a: Added)
    requires Grown(start, a) && TrimmedFormsUsed(start.doc, start.used)
    ensures TrimmedFormsUsed(a.doc, a.used)
  {
    forall s | IsOperation(a.doc.entries, s) && IdAt(a.doc.entries, s).Some? && !T.Blank(IdAt(a.doc.entries, s).value)
      ensures TrimmedId(a.doc, s) in a.used
    {
      if s in start.doc.entries { assert IsOperation(start.doc.entries, s); }
    }
  }

  /** An added operation is like no other, even after trimming. */
  lemma AddedIsUnlike(start: Added, a: Added, s: Slot, t: Slot)
    requires Covered(start.doc, start.used) && Grown(start, a) && NewDiffer(start, a)
    requires TrimmedFormsUsed(start.doc, start.used)
    requires s !in start.doc.entries && s != t && IsOperation(a.doc.entries, s) && IsOperation(a.doc.entries, t)
    requires IdAt(a.doc.entries, t).Some? && !T.Blank(IdAt(a.doc.entries, t).value)
    ensures TrimmedId(a.doc, s) != TrimmedId(a.doc, t)
  {
    if t in start.doc.entries {
      assert IsOperation(start.doc.entries, t) && TrimmedId(start.doc, t) in start.used;
    }
  }

  lemma KeepsStays(start: Added, a: Added, s: Slot)
    requires Valid(start.doc) && Valid(a.doc) && Covered(start.doc, start.used) && Grown(start, a)
    requires Extends(start.doc, a.doc) && s in start.doc.entries
    ensures Keeps(a.doc, s) <==> Keeps(start.doc, s)
    ensures TrimmedId(a.doc, s) == TrimmedId(start.doc, s)
  {
    hide Shaped, TwiceFrom, Extends;
    if IsOperation(start.doc.entries, s) && IdAt(start.doc.entries, s).Some? {
      KeepsExtends(start.doc, a.doc, s);
    }
  }

  lemma KeptAlikeAfter(start: Added, a: Added, live: set<string>, s: Slot, t: Slot)
    requires Valid(start.doc) && Valid(a.doc) && Covered(start.doc, start.used) && Grown(start, a)
        && NewDiffer(start, a)
    requires Extends(start.doc, a.doc) && TrimmedFormsUsed(start.doc, start.used)
    ensures KeptAlike(a.doc, live, s, t) <==> KeptAlike(start.doc, live, s, t)
  {
    if s in start.doc.entries && t in start.doc.entries {
      KeepsStays(start, a, s);
      KeepsStays(start, a, t);
    } else if KeptAlike(a.doc, live, s, t) {
      if s !in start.doc.entries { AddedIsUnlike(start, a, s, t); } else { AddedIsUnlike(start, a, t, s); }
    }
  }

  /** The whole script, on every document and report: accepted exactly if nothing collides once the
      report's endpoints are in. */
  lemma SynchronisedAcceptedIff(d: Doc, report: seq<string>, tagFor: string -> string)
    requires Valid(d)
    ensures var a := AfterReport(d, report, tagFor);
            && Valid(a.doc)
            && (ContractHolds(Synchronised(d, report, tagFor)) <==> !Collides(a.doc, a.used))
  {
    hide Valid, Covered, Grown, NewDiffer, Extends, Collides, ContractHolds, EnrichedAndPruned;
    AfterReportGrown(d, report, tagFor);
    var a := AfterReport(d, report, tagFor);
    AcceptedIff(a.doc, a.used, tagFor);
  }

  lemma KeptAlikeAfterReport(d: Doc, report: seq<string>, tagFor: string -> string)
    requires Valid(d) && TrimmedFormsUsed(d, StartIds(d))
    ensures var a := AfterReport(d, report, tagFor);
            && Valid(a.doc) && Covered(a.doc, a.used) && TrimmedFormsUsed(a.doc, a.used)
            && forall s, t, live :: KeptAlike(a.doc, live, s, t) <==> KeptAlike(d, live, s, t)
  {
    hide Valid, Covered, Grown, NewDiffer, Extends, KeptAlike, TrimmedFormsUsed, AfterReport;
    var start, a := Added(d, StartIds(d)), AfterReport(d, report, tagFor);
    StartIdsCover(d);
    AfterReportGrown(d, report, tagFor);
    TrimmedFormsStay(start, a);
    forall s, t, live ensures KeptAlike(a.doc, live, s, t) <==> KeptAlike(d, live, s, t) {
      KeptAlikeAfter(start, a, live, s, t);
    }
  }

  lemma CollidesIffKept(d: Doc, used: set<string>)
    requires Valid(d) && Covered(d, used) && TrimmedFormsUsed(d, used)
    ensures Collides(d, used) <==> exists s, t :: KeptAlike(d, Live(d), s, t)
  {
    hide Covered, KeptAlike, GeneratedAlike, TrimmedFormsUsed, Sweep, VisitsUpTo, Distinct;
    forall s, n | 0 <= n < |Visits(d)| ensures !GeneratedAlike(d, used, s, n) {
      GeneratedNeverAlike(d, used, s, n);
    }
  }

  /** Read off the script's input: if the trimmed form of every id is in use itself, the output is
      accepted if and only if no two operations of the document, on paths that survive the whole
      script, keep ids that are equal after trimming. */
  lemma SynchronisedAcceptedIffKept(d: Doc, report: seq<string>, tagFor: string -> string)
    requires Valid(d) && TrimmedFormsUsed(d, StartIds(d))
    ensures ContractHolds(Synchronised(d, report, tagFor)) <==>
              !exists s, t :: KeptAlike(d, LiveAfter(d, report), s, t)
  {
    hide Valid, Covered, Grown, NewDiffer, Extends, ContractHolds, KeptAlike, Collides, TrimmedFormsUsed;
    hide Sweep, PathsAfter, Synchronised, AfterReport;
    var a := AfterReport(d, report, tagFor);
    SynchronisedAcceptedIff(d, report, tagFor);
    KeptAlikeAfterReport(d, report, tagFor);
    LiveAfterExact(d, report, tagFor);
    CollidesIffKept(a.doc, a.used);
  }

  // ---- Producer and validator --------------------------------------------------------------------

  /** Ids are trimmed, unless blank. */
  ghost predicate TrimmedIds(d: Doc) {
    forall s :: IsOperation(d.entries, s) && IdAt(d.entries, s).Some? && !T.Blank(IdAt(d.entries, s).value)
      ==> T.Trim(IdAt(d.entries, s).value) == IdAt(d.entries, s).value
  }

  /** No id belongs to operations of two different path items. */
  ghost predicate NoSharedIds(d: Doc) {
    forall s, t :: && IsOperation(d.entries, s) && IsOperation(d.entries, t) && s.path != t.path
                   && IdAt(d.entries, s).Some? && !T.Blank(IdAt(d.entries, s).value)
      ==> IdAt(d.entries, s) != IdAt(d.entries, t)
  }

  /** Of one path item, no two operations keep the same id. */
  lemma KeptDifferInItem(d: Doc, s: Slot, t: Slot)
    requires Shaped(d) && s != t && s.path == t.path && Keeps(d, s) && Keeps(d, t)
    ensures IdAt(d.entries, s) != IdAt(d.entries, t)
  {
  }

  /** For every document whose ids are trimmed and not shared between path items, and every report,
      the validator accepts the synchroniser's output. */
  lemma SynchronisedIsAccepted(d: Doc, report: seq<string>, tagFor: string -> string)
    requires Valid(d) && TrimmedIds(d) && NoSharedIds(d)
    ensures ContractHolds(Synchronised(d, report, tagFor))
  {
    StartIdsCover(d);
    forall s, t ensures !KeptAlike(d, LiveAfter(d, report), s, t) {
      if KeptAlike(d, LiveAfter(d, report), s, t) && s.path == t.path { KeptDifferInItem(d, s, t); }
    }
    SynchronisedAcceptedIffKept(d, report, tagFor);
  }
}
