/** What enrichment and alias removal leave of a document, entry by entry. */
module Outcome {
  import opened Collections
  import T = Text
  import opened OpenApi
  import opened Enrichment
  import opened EnrichAll
  import opened AssignedIds
  import opened Aliases
  import opened AddEndpoints
  import opened Synchroniser

  lemma CoveredVisits(d: Doc, used: set<string>)
    requires Valid(d) && Covered(d, used)
    ensures Visitable(d.entries, Visits(d)) && Distinct(Visits(d)) && UsedCovers(Work(d.entries, used), Visits(d))
  {
    VisitsAreVisitable(d);
    VisitsExact(d);
    forall k | 0 <= k < |Visits(d)| && IdAt(d.entries, Visits(d)[k]).Some?
      ensures IdAt(d.entries, Visits(d)[k]).value in used
    {
      assert Visits(d)[k] in Visits(d);
    }
  }

  lemma Index(d: Doc, s: Slot) returns (n: nat)
    requires Valid(d) && IsOperation(d.entries, s)
    ensures n < |Visits(d)| && Visits(d)[n] == s
  {
    VisitsExact(d);
    n :| 0 <= n < |Visits(d)| && Visits(d)[n] == s;
  }

  /** The paths alias removal leaves. */
  function Live(d: Doc): set<string> {
    Sweep(d.paths, PathSet(d))
  }

  /** The id the `n`-th operation ends with. */
  ghost function FinalId(d: Doc, used: set<string>, n: nat): string
    requires Valid(d) && n < |Visits(d)|
  {
    AssignedId(Work(d.entries, used), Visits(d), n)
  }

  lemma AssignedIsNotBlank(w: Work, v: seq<Slot>, n: nat)
    requires n < |v| && IsMethod(v[n].key)
    ensures !T.Blank(AssignedId(w, v, n))
  {
    if !KeepsId(w.entries, v, n) { GeneratedIsFresh(w, v, n); }
  }

  lemma EnrichedKeepsId(op: Operation, s: Slot, tagFor: string -> string)
    ensures forall id: string :: EnrichedOperation(op, s, id, tagFor).operationId == Some(id)
  {
  }

  /** Each operation is enriched once, under its assigned id. */
  lemma EnrichedEntry(d: Doc, used: set<string>, n: nat, tagFor: string -> string)
    requires Valid(d) && Covered(d, used) && n < |Visits(d)|
    ensures var s, e, id := Visits(d)[n], Enriched(d, used, tagFor).entries, FinalId(d, used, n);
            && IsOperation(d.entries, s) && d.entries[s].Object? && s in e && !T.Blank(id)
            && e[s] == Object(EnrichedOperation(d.entries[s].op, s, id, tagFor))
  {
    hide Distinct, VisitsUpTo, Clash, AssignedId, EnrichedOperation;
    var v, w := Visits(d), Work(d.entries, used);
    CoveredVisits(d, used);
    assert v[..|v|] == v && v[n] in v;
    AssignedExactly(w, v, n, tagFor);
    AssignedIsNotBlank(w, v, n);
    Settled(w, v, n, |v|, tagFor);
    AtNext(w, v, n, tagFor);
    Unvisited(v, n, n);
    assert At(w, v, n, tagFor).entries[v[n]] == d.entries[v[n]];
    EnrichedKeepsId(d.entries[v[n]].op, v[n], tagFor);
  }

  lemma StrayUntouched(d: Doc, used: set<string>, s: Slot, tagFor: string -> string)
    requires Valid(d) && !IsMethod(s.key) && s in d.entries
    ensures s in Enriched(d, used, tagFor).entries && Enriched(d, used, tagFor).entries[s] == d.entries[s]
  {
    VisitsAreVisitable(d);
    VisitsExact(d);
    assert s !in Visits(d);
  }

  lemma PrunedEntries(d: Doc, used: set<string>, s: Slot, tagFor: string -> string)
    requires Valid(d)
    ensures var o, e := EnrichedAndPruned(d, used, tagFor).entries, Enriched(d, used, tagFor).entries;
            && (s in o <==> s in d.entries && s.path in Live(d))
            && (s in o ==> s in e && o[s] == e[s])
  {
  }

  /** The operation at the `n`-th visit, in the output. */
  lemma OutputEntry(d: Doc, used: set<string>, n: nat, tagFor: string -> string)
    requires Valid(d) && Covered(d, used) && n < |Visits(d)|
    ensures var s, o, id := Visits(d)[n], EnrichedAndPruned(d, used, tagFor).entries, FinalId(d, used, n);
            && IsOperation(d.entries, s) && d.entries[s].Object? && !T.Blank(id)
            && (s in o <==> s.path in Live(d))
            && (s in o ==> o[s] == Object(EnrichedOperation(d.entries[s].op, s, id, tagFor)) && IdAt(o, s) == Some(id))
  {
    hide Distinct, VisitsUpTo, Sweep, FinalId, Enriched, EnrichedAndPruned, EnrichedOperation;
    EnrichedEntry(d, used, n, tagFor);
    EnrichedKeepsId(d.entries[Visits(d)[n]].op, Visits(d)[n], tagFor);
    PrunedEntries(d, used, Visits(d)[n], tagFor);
  }

  /** What is not an operation stays as it was, if its path does. */
  lemma OutputStray(d: Doc, used: set<string>, s: Slot, tagFor: string -> string)
    requires Valid(d) && !IsMethod(s.key)
    ensures var o := EnrichedAndPruned(d, used, tagFor).entries;
            (s in o <==> s in d.entries && s.path in Live(d)) && (s in o ==> o[s] == d.entries[s])
  {
    hide Distinct, VisitsUpTo, Sweep, Enriched, EnrichedAndPruned;
    PrunedEntries(d, used, s, tagFor);
    if s in d.entries { StrayUntouched(d, used, s, tagFor); }
  }

  lemma OutputValid(d: Doc, used: set<string>, tagFor: string -> string)
    requires Valid(d)
    ensures Valid(EnrichedAndPruned(d, used, tagFor))
  {
    EnrichedValid(d, used, tagFor);
    RestrictValid(Enriched(d, used, tagFor), Sweep(d.paths, PathSet(d)));
  }

  lemma BothKept(w: Work, v: seq<Slot>, m: nat, n: nat)
    requires Visitable(w.entries, v) && Distinct(v) && m < n < |v| && v[m].path == v[n].path
    requires KeepsId(w.entries, v, m) && KeepsId(w.entries, v, n)
    ensures AssignedId(w, v, m) != AssignedId(w, v, n)
  {
  }

  /** Assigned ids of one path item differ. */
  lemma FinalIdsDiffer(d: Doc, used: set<string>, m: nat, n: nat)
    requires Valid(d) && Covered(d, used) && m < |Visits(d)| && n < |Visits(d)| && m != n
    requires Visits(d)[m].path == Visits(d)[n].path
    ensures FinalId(d, used, m) != FinalId(d, used, n)
  {
    hide Distinct, VisitsUpTo, KeepsId;
    var v, w := Visits(d), Work(d.entries, used);
    CoveredVisits(d, used);
    if !KeepsId(w.entries, v, m) {
      GeneratedDiffers(w, v, m, n);
    } else if !KeepsId(w.entries, v, n) {
      GeneratedDiffers(w, v, n, m);
    } else if m < n {
      BothKept(w, v, m, n);
    } else {
      BothKept(w, v, n, m);
    }
  }

  lemma PrunedUnique(d: Doc, used: set<string>, s: Slot, t: Slot, tagFor: string -> string)
    requires Valid(d) && Covered(d, used) && s != t && s.path == t.path
    requires var o := EnrichedAndPruned(d, used, tagFor).entries; IsOperation(o, s) && IsOperation(o, t)
    ensures var o := EnrichedAndPruned(d, used, tagFor).entries; IdAt(o, s).Some? && IdAt(o, s) != IdAt(o, t)
  {
    hide Distinct, VisitsUpTo, Sweep, FinalId, Enriched, EnrichedAndPruned, EnrichedOperation;
    PrunedEntries(d, used, s, tagFor);
    PrunedEntries(d, used, t, tagFor);
    var m := Index(d, s);
    var n := Index(d, t);
    OutputEntry(d, used, m, tagFor);
    OutputEntry(d, used, n, tagFor);
    FinalIdsDiffer(d, used, m, n);
  }

  /** With no assumption on the ids: in the output, operations of one path item have different
      ids, and every operation has one. */
  lemma OutputUniqueInItem(d: Doc, report: seq<string>, s: Slot, t: Slot, tagFor: string -> string)
    requires Valid(d) && s != t && s.path == t.path
    requires var o := Synchronised(d, report, tagFor).entries; IsOperation(o, s) && IsOperation(o, t)
    ensures var o := Synchronised(d, report, tagFor).entries; IdAt(o, s).Some? && IdAt(o, s) != IdAt(o, t)
  {
    StartIdsCover(d);
    AddAllKeeps(Added(d, StartIds(d)), report, tagFor);
    var a := AfterReport(d, report, tagFor);
    PrunedUnique(a.doc, a.used, s, t, tagFor);
  }
}
