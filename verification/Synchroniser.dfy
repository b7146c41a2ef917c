/** sync-openapi-from-diff.ts as a whole: its loops over the document, and the function they
    compute. */
module Synchroniser {
  import opened Collections
  import T = Text
  import opened OpenApi
  import opened OperationIds
  import opened Enrichment
  import opened EnrichAll
  import opened Aliases
  import opened AddEndpoints

  // ---- The function ------------------------------------------------------------------

  ghost function IdsOf(entries: map<Slot, Entry>, v: seq<Slot>): set<string> {
    set s | s in v && IdAt(entries, s).Some? :: IdAt(entries, s).value
  }

  lemma NoIdsYet(d: Doc)
    requires Valid(d)
    ensures IdsOf(d.entries, VisitsUpTo(d, 0)) == {}
  {
  }

  lemma IdsStep(entries: map<Slot, Entry>, v: seq<Slot>, s: Slot)
    ensures IdsOf(entries, v + [s]) == IdsOf(entries, v)
        + (if IdAt(entries, s).Some? then {IdAt(entries, s).value} else {})
  {
  }

  /** The ids in use when the script starts. */
  ghost function StartIds(d: Doc): set<string>
    requires Valid(d)
  {
    IdsOf(d.entries, Visits(d))
  }

  lemma VisitsAreVisitable(d: Doc)
    requires Valid(d)
    ensures Visitable(d.entries, Visits(d)) && Distinct(Visits(d))
  {
    VisitsExact(d);
    forall k | 0 <= k < |Visits(d)| ensures IsOperation(d.entries, Visits(d)[k]) && d.entries[Visits(d)[k]].Object? {
      assert Visits(d)[k] in Visits(d);
    }
  }

  /** The enrichment loop, from a document and the ids in use. */
  ghost function Enriched(d: Doc, used: set<string>, tagFor: string -> string): Doc
    requires Valid(d)
  {
    VisitsAreVisitable(d);
    d.(entries := Enrich(Work(d.entries, used), Visits(d), tagFor).entries)
  }

  ghost function EnrichedAndPruned(d: Doc, used: set<string>, tagFor: string -> string): Doc
    requires Valid(d)
  {
    WithoutAliases(Enriched(d, used, tagFor))
  }

  lemma StartIdsCover(d: Doc)
    requires Valid(d)
    ensures Covered(d, StartIds(d))
  {
    VisitsExact(d);
  }

  ghost function AfterReport(d: Doc, report: seq<string>, tagFor: string -> string): Added
    requires Valid(d)
  {
    AddAll(Added(d, StartIds(d)), report, tagFor)
  }

  ghost function Synchronised(d: Doc, report: seq<string>, tagFor: string -> string): Doc
    requires Valid(d)
  {
    StartIdsCover(d);
    AddAllKeeps(Added(d, StartIds(d)), report, tagFor);
    var a := AfterReport(d, report, tagFor);
    EnrichedAndPruned(a.doc, a.used, tagFor)
  }

  // ---- Visiting in two nested loops -----------------------------------------------------

  /** The visits made when the loops are at key `j` of path `i`. */
  ghost function Done(d: Doc, i: nat, j: nat): seq<Slot>
    requires Valid(d) && i < |d.paths| && j <= |d.keys[d.paths[i]]|
  {
    VisitsUpTo(d, i) + ItemVisits(d.paths[i], d.keys[d.paths[i]], j)
  }

  lemma DoneRow(d: Doc, i: nat)
    requires Valid(d) && i < |d.paths|
    ensures Done(d, i, 0) == VisitsUpTo(d, i)
    ensures Done(d, i, |d.keys[d.paths[i]]|) == VisitsUpTo(d, i + 1)
  {
  }

  lemma DoneStep(d: Doc, i: nat, j: nat)
    requires Valid(d) && i < |d.paths| && j < |d.keys[d.paths[i]]|
    ensures var s := Slot(d.paths[i], d.keys[d.paths[i]][j]);
            && s in d.entries
            && Done(d, i, j + 1) == if IsMethod(s.key) then Done(d, i, j) + [s] else Done(d, i, j)
  {
  }

  /** The enrichment loops have visited `v` of the document `d`, and counted the visits. */
  ghost predicate EnrichAt(d: Doc, start: Work, w: Work, v: seq<Slot>, count: nat, tagFor: string -> string) {
    Valid(d) && start.entries == d.entries && Visitable(start.entries, v) && w == Enrich(start, v, tagFor)
        && count == |v|
  }

  lemma EnrichStarts(d: Doc, start: Work, tagFor: string -> string)
    requires Valid(d) && start.entries == d.entries
    ensures EnrichAt(d, start, start, VisitsUpTo(d, 0), 0, tagFor)
  {
  }

  lemma EnrichStep(w: Work, v: seq<Slot>, s: Slot, tagFor: string -> string)
    requires Visitable(w.entries, v) && IsOperation(w.entries, s) && w.entries[s].Object?
    ensures Visitable(w.entries, v + [s])
    ensures Enrich(w, v + [s], tagFor) == EnrichOne(Enrich(w, v, tagFor), s, tagFor)
  {
  }

  lemma EnrichTurn(d: Doc, start: Work, w: Work, v: seq<Slot>, s: Slot, count: nat, tagFor: string -> string)
    requires EnrichAt(d, start, w, v, count, tagFor) && IsOperation(d.entries, s)
    ensures s in w.entries && w.entries[s].Object?
    ensures EnrichAt(d, start, EnrichOne(w, s, tagFor), v + [s], count + 1, tagFor)
  {
    EnrichStep(start, v, s, tagFor);
  }

  lemma EnrichEnds(d: Doc, start: Work, w: Work, count: nat, tagFor: string -> string)
    requires Valid(d) && EnrichAt(d, start, w, Visits(d), count, tagFor)
    ensures d.(entries := w.entries) == Enriched(d, start.used, tagFor) && count == |Visits(d)|
  {
  }

  lemma AddAllOneMore(start: Added, report: seq<string>, i: nat, tagFor: string -> string)
    requires i < |report|
    ensures AddAll(start, report[..i + 1], tagFor) == AddOne(AddAll(start, report[..i], tagFor), report[i], tagFor)
  {
    hide AddOne;
    assert report[..i + 1][..i] == report[..i];
  }

  lemma AddOneCounts(a: Added, raw: string, tagFor: string -> string)
    requires Valid(a.doc) && Covered(a.doc, a.used)
    ensures |AddOne(a, raw, tagFor).doc.entries.Keys| == |a.doc.entries.Keys| + (if Adds(a.doc, raw) then 1 else 0)
  {
    hide Valid, Covered, AddOne, Grown;
    AddOneKeeps(a, raw, tagFor);
  }

  lemma AddAllStep(start: Added, report: seq<string>, i: nat, tagFor: string -> string)
    requires Valid(start.doc) && Covered(start.doc, start.used) && i < |report|
    ensures var a := AddAll(start, report[..i], tagFor);
            && AddAll(start, report[..i + 1], tagFor) == AddOne(a, report[i], tagFor)
            && |AddOne(a, report[i], tagFor).doc.entries.Keys| == |a.doc.entries.Keys|
                + (if Adds(a.doc, report[i]) then 1 else 0)
  {
    hide Valid, Covered, AddOne, Grown;
    AddAllOneMore(start, report, i, tagFor);
    AddAllKeeps(start, report[..i], tagFor);
    AddOneCounts(AddAll(start, report[..i], tagFor), report[i], tagFor);
  }

  // ---- Deleting while looping ------------------------------------------------------------

  /** The document `e` is what is left of `d`, and the paths in `rest` are still to be visited. */
  ghost predicate SweepAt(d: Doc, e: Doc, rest: seq<string>) {
    && Valid(d) && Valid(e)
    && PathSet(e) <= PathSet(d) && e == Restrict(d, PathSet(e))
    && Distinct(rest) && (forall p :: p in rest ==> p in e.paths)
    && Sweep(d.paths, PathSet(d)) == Sweep(rest, PathSet(e))
  }

  lemma SweepStarts(d: Doc)
    requires Valid(d)
    ensures SweepAt(d, d, d.paths[0..])
  {
    assert d.paths[0..] == d.paths;
    RestrictAll(d, PathSet(d));
  }

  /** What the loop may rely on, and what it keeps at a path that stays. */
  lemma SweepSkips(d: Doc, e: Doc, rest: seq<string>)
    requires SweepAt(d, e, rest) && rest != []
    ensures Valid(e) && rest[0] in e.paths
    ensures Exempt(rest[0]) || Twin(rest[0]) !in e.paths ==> SweepAt(d, e, rest[1..])
  {
  }

  lemma SweepEnds(d: Doc, e: Doc, rest: seq<string>)
    requires SweepAt(d, e, rest) && rest == []
    ensures e == WithoutAliases(d)
  {
  }

  lemma SweepRest(rest: seq<string>, e: Doc, live: set<string>)
    requires rest != [] && Distinct(rest) && (forall p :: p in rest ==> p in e.paths) && live == PathSet(e) - {rest[0]}
    ensures Distinct(rest[1..]) && forall p :: p in rest[1..] ==> p in live
  {
  }

  lemma RestrictPaths(e: Doc, live: set<string>)
    requires Shaped(e) && live <= PathSet(e)
    ensures Shaped(Restrict(e, live)) && (Valid(e) ==> Valid(Restrict(e, live)))
    ensures PathSet(Restrict(e, live)) == live
    ensures forall p :: p in Restrict(e, live).paths <==> p in live
  {
    RestrictValid(e, live);
    FilterExact(e.paths, live);
  }

  lemma SweepDeletes(d: Doc, e: Doc, rest: seq<string>)
    requires SweepAt(d, e, rest) && rest != [] && !Exempt(rest[0]) && Twin(rest[0]) in e.paths
    ensures SweepAt(d, Restrict(e, PathSet(e) - {rest[0]}), rest[1..])
    ensures |PathSet(Restrict(e, PathSet(e) - {rest[0]}))| == |PathSet(e)| - 1
  {
    var live := PathSet(e) - {rest[0]};
    RestrictRestrict(d, PathSet(e), live);
    assert PathSet(e) * live == live;
    RestrictPaths(e, live);
    assert rest[0] in rest && rest[0] in PathSet(e);
    SweepRest(rest, e, live);
  }

  // ---- The script -----------------------------------------------------------------------------

  lemma EnrichedValid(d: Doc, used: set<string>, tagFor: string -> string)
    requires Valid(d)
    ensures Valid(Enriched(d, used, tagFor))
  {
  }

  class SpecFile {
    var doc: Doc
    const used: UsedIds
    const tagFor: string -> string

    constructor (doc: Doc, tagFor: string -> string)
      ensures this.doc == doc && this.tagFor == tagFor && fresh(used) && used.ids == {}
    {
      this.doc, this.tagFor := doc, tagFor;
      used := new UsedIds();
    }

    method CollectOperationIds()
      requires Valid(doc) && used.ids == {}
      modifies used
      ensures used.ids == StartIds(doc)
    {
      hide Distinct, IdsOf, VisitsUpTo, Done;
      NoIdsYet(doc);
      for i := 0 to |doc.paths|
        invariant used.ids == IdsOf(doc.entries, VisitsUpTo(doc, i))
      {
        var p := doc.paths[i];
        assert p in doc.paths;
        DoneRow(doc, i);
        for j := 0 to |doc.keys[p]|
          invariant used.ids == IdsOf(doc.entries, Done(doc, i, j))
        {
          var s := Slot(p, doc.keys[p][j]);
          DoneStep(doc, i, j);
          if IsMethod(s.key) {
            IdsStep(doc.entries, Done(doc, i, j), s);
            var op := doc.entries[s].op;
            if op.operationId.Some? {
              used.Add(op.operationId.value);
            }
          }
        }
      }
    }

    /** One line of the report. */
    method AddReported(raw: string) returns (added: bool)
      modifies this`doc, used
      ensures Added(doc, used.ids) == AddOne(Added(old(doc), old(used.ids)), raw, tagFor)
      ensures added <==> Adds(old(doc), raw)
    {
      added := false;
      var verb := ReportedVerb(raw);
      if !IsMethod(verb) { return; }
      var rawPath := ReportedPath(raw);
      if rawPath == "" || Excluded(rawPath) { return; }
      var routePath := NormalizePath(rawPath, PathSet(doc));
      if Excluded(routePath) { return; }
      var slot := Slot(routePath, verb);
      if slot in doc.entries { return; }
      var id := used.MakeOperationId(verb, routePath);
      doc := Insert(doc, slot, Object(NewOperation(slot, id, tagFor)));
      added := true;
    }

    /** Endpoints the report names and the document lacks. */
    method AddMissing(report: seq<string>) returns (addedEndpoints: nat)
      requires Valid(doc) && Covered(doc, used.ids)
      modifies this`doc, used
      ensures Added(doc, used.ids) == AddAll(Added(old(doc), old(used.ids)), report, tagFor)
      ensures addedEndpoints == |doc.entries.Keys| - |old(doc).entries.Keys|
    {
      addedEndpoints := 0;
      ghost var start := Added(doc, used.ids);
      assert report[..0] == [];
      for i := 0 to |report|
        invariant Added(doc, used.ids) == AddAll(start, report[..i], tagFor)
        invariant addedEndpoints == |doc.entries.Keys| - |start.doc.entries.Keys|
      {
        AddAllStep(start, report, i, tagFor);
        var added := AddReported(report[i]);
        if added { addedEndpoints := addedEndpoints + 1; }
      }
      assert report[..|report|] == report;
    }

    /** Tags, summary and description. */
    static method EnrichTexts(op: Operation, s: Slot, tagFor: string -> string) returns (r: Operation)
      ensures r == op.(tags := if op.tags.None? || op.tags.value == [] then Some([tagFor(s.path)]) else op.tags,
                       summary := Some(EnrichedSummary(op, s)),
                       description := Some(EnrichedDescription(op, EnrichedSummary(op, s), s)))
    {
      r := op;
      if r.tags.None? || r.tags.value == [] {
        r := r.(tags := Some([tagFor(s.path)]));
      }
      var currentSummary := if r.summary.Some? then T.Trim(r.summary.value) else "";
      if GenericSummary(currentSummary) || r.summary.None? {
        r := r.(summary := Some(FunctionalSummary(s.key, s.path)));
      }
      var currentDescription := if r.description.Some? then T.Trim(r.description.value) else "";
      if GenericDescription(currentDescription) || r.description.None? {
        r := r.(description := Some(FunctionalDescription(r.summary.value, s.path)));
      }
    }

    /** The id an operation gets. */
    method ChooseId(current: Option<string>, s: Slot) returns (id: string)
      modifies used
      ensures var w := Work(doc.entries, old(used.ids));
              id == (if Renames(w, current) then FreshId(s.key, s.path, w.used) else current.value)
      ensures used.ids == old(used.ids) + {id}
    {
      if current.None? || T.Blank(current.value) {
        id := used.MakeOperationId(s.key, s.path);
      } else if current.value in used.ids && DupSomewhere(doc.entries, current.value) {
        id := used.MakeOperationId(s.key, s.path);
      } else {
        id := current.value;
        used.Add(id);
      }
    }

    /** One turn of the enrichment loop. */
    method EnrichOperation(s: Slot)
      requires s in doc.entries && doc.entries[s].Object?
      modifies this`doc, used
      ensures Work(doc.entries, used.ids) == EnrichOne(Work(old(doc).entries, old(used.ids)), s, tagFor)
      ensures doc == old(doc).(entries := doc.entries)
    {
      var op := doc.entries[s].op;
      var texts := EnrichTexts(op, s, tagFor);
      var id := ChooseId(op.operationId, s);
      var r := texts.(operationId := Some(id));
      if !r.ci.CiBlock? {
        r := r.(ci := DefaultCi(s.key));
      }
      r := r.(security := Some(NormalizedSecurity(r.security)));
      r := r.(parameters := EnrichedParameters(r.parameters, s.path));
      r := r.(responses := Some(EnrichedResponses(r.responses)));
      assert r == EnrichedOperation(op, s, id, tagFor);
      doc := doc.(entries := doc.entries[s := Object(r)]);
    }

    method EnrichOperations() returns (normalizedOperations: nat)
      requires Valid(doc)
      modifies this`doc, used
      ensures doc == Enriched(old(doc), old(used.ids), tagFor)
      ensures normalizedOperations == |Visits(old(doc))|
    {
      hide EnrichAt, Distinct, Done, VisitsUpTo, Enrich, EnrichOne;
      normalizedOperations := 0;
      ghost var d := doc;
      ghost var start := Work(doc.entries, used.ids);
      EnrichStarts(d, start, tagFor);
      for i := 0 to |doc.paths|
        invariant doc == d.(entries := doc.entries)
        invariant EnrichAt(d, start, Work(doc.entries, used.ids), VisitsUpTo(d, i), normalizedOperations, tagFor)
      {
        var p := doc.paths[i];
        assert p in d.paths;
        DoneRow(d, i);
        for j := 0 to |doc.keys[p]|
          invariant doc == d.(entries := doc.entries)
          invariant EnrichAt(d, start, Work(doc.entries, used.ids), Done(d, i, j), normalizedOperations, tagFor)
        {
          var s := Slot(p, doc.keys[p][j]);
          DoneStep(d, i, j);
          if IsMethod(s.key) {
            EnrichTurn(d, start, Work(doc.entries, used.ids), Done(d, i, j), s, normalizedOperations, tagFor);
            EnrichOperation(s);
            normalizedOperations := normalizedOperations + 1;
          }
        }
      }
      EnrichEnds(d, start, Work(doc.entries, used.ids), normalizedOperations, tagFor);
    }

    method DeletePath(p: string)
      requires Valid(doc)
      modifies this`doc
      ensures doc == Restrict(old(doc), PathSet(old(doc)) - {p})
    {
      doc := Restrict(doc, PathSet(doc) - {p});
    }

    /** Deletes while looping over the list of paths taken before. */
    method RemoveNonVersionedAliases() returns (removed: nat)
      requires Valid(doc)
      modifies this`doc
      ensures doc == WithoutAliases(old(doc))
      ensures removed == |PathSet(old(doc))| - |PathSet(doc)|
    {
      hide SweepAt, Restrict;
      removed := 0;
      ghost var d := doc;
      var order := doc.paths;
      SweepStarts(d);
      for i := 0 to |order|
        invariant SweepAt(d, doc, order[i..]) && removed == |PathSet(d)| - |PathSet(doc)|
      {
        var routePath := order[i];
        assert order[i..][0] == routePath && order[i..][1..] == order[i + 1..];
        SweepSkips(d, doc, order[i..]);
        if routePath == JWKS || T.StartsWith(routePath, "/v1/") { continue; }
        if Twin(routePath) in doc.paths {
          SweepDeletes(d, doc, order[i..]);
          DeletePath(routePath);
          removed := removed + 1;
        }
      }
      SweepEnds(d, doc, order[|order|..]);
    }

    method Synchronise(report: seq<string>)
      requires Valid(doc) && used.ids == {}
      modifies this`doc, used
      ensures doc == Synchronised(old(doc), report, tagFor)
    {
      CollectOperationIds();
      StartIdsCover(doc);
      AddAllKeeps(Added(doc, used.ids), report, tagFor);
      var added := AddMissing(report);
      var normalized := EnrichOperations();
      EnrichedValid(AfterReport(old(doc), report, tagFor).doc, AfterReport(old(doc), report, tagFor).used, tagFor);
      var removed := RemoveNonVersionedAliases();
    }
  }
}
