/** The first loop of sync-openapi-from-diff.ts: endpoints named in the diff report are added to
    the document. */
module AddEndpoints {
  import opened Collections
  import opened Text
  import opened OpenApi
  import opened OperationIds
  import opened Enrichment
  import opened Aliases

  // ---- Reading the report ------------------------------------------------------------

  function ReportedVerb(raw: string): string {
    LowerAll(Split(raw, ' ')[0])
  }

  function ReportedPath(raw: string): string {
    Trim(Join(Split(raw, ' ')[1..], " "))
  }

  predicate Excluded(routePath: string) {
    || routePath in {"/internal/jwks/status", "/health/startup", "/health/live", "/health/ready", "/metrics",
                     "/auth/test-db", "/v1/auth/test-db", "/billing/webhooks/stripe", "/v1/billing/webhooks/stripe"}
    || StartsWith(routePath, "/internal/")
  }

  function Alternative(routePath: string): string {
    if StartsWith(routePath, "/v1/") then (if routePath[3..] == "" then "/" else routePath[3..]) else "/v1" + routePath
  }

  function NormalizePath(routePath: string, existing: set<string>): (r: string)
    ensures r == Alternative(routePath) != routePath ==> r in existing && routePath !in existing
    ensures routePath !in existing && Alternative(routePath) in existing ==> r == Alternative(routePath)
    ensures r == routePath || r == Alternative(routePath)
  {
    if routePath in existing then routePath
    else if Alternative(routePath) in existing then Alternative(routePath)
    else routePath
  }

  // ---- Adding one endpoint ---------------------------------------------------------------

  function NewOperation(slot: Slot, id: string, tagFor: string -> string): Operation {
    var summary := FunctionalSummary(slot.key, slot.path);
    Operation(Some(id), Some([tagFor(slot.path)]), Some(summary), Some(FunctionalDescription(summary, slot.path)),
              DefaultCi(slot.key), Some(DEFAULT_SECURITY), EnrichedParameters(None, slot.path),
              Some(EnrichedResponses(None)), false)
  }

  /** A new key goes to the end of its item, a new path to the end of the document. */
  function Insert(d: Doc, slot: Slot, e: Entry): Doc {
    if slot.path in d.keys then
      d.(keys := d.keys[slot.path := d.keys[slot.path] + [slot.key]], entries := d.entries[slot := e])
    else
      Doc(d.paths + [slot.path], d.keys[slot.path := [slot.key]], d.entries[slot := e])
  }

  /** Where a reported endpoint goes, unless the report line is ignored. */
  function Target(d: Doc, raw: string): Option<Slot> {
    var verb, path := ReportedVerb(raw), ReportedPath(raw);
    if !IsMethod(verb) || path == "" || Excluded(path) then None
    else
      var routePath := NormalizePath(path, PathSet(d));
      if Excluded(routePath) then None else Some(Slot(routePath, verb))
  }

  datatype Added = Added(doc: Doc, used: set<string>)

  function AddOne(a: Added, raw: string, tagFor: string -> string): Added {
    match Target(a.doc, raw)
    case None => a
    case Some(slot) =>
      if slot in a.doc.entries then a
      else
        var id := FreshId(slot.key, slot.path, a.used);
        Added(Insert(a.doc, slot, Object(NewOperation(slot, id, tagFor))), a.used + {id})
  }

  function AddAll(a: Added, report: seq<string>, tagFor: string -> string): Added {
    if report == [] then a else AddOne(AddAll(a, report[..|report| - 1], tagFor), report[|report| - 1], tagFor)
  }

  // ---- What adding keeps --------------------------------------------------------------------

  lemma InsertValid(d: Doc, slot: Slot, e: Entry)
    requires Valid(d) && slot !in d.entries && e.Object?
    ensures Valid(Insert(d, slot, e))
    ensures PathSet(Insert(d, slot, e)) == PathSet(d) + {slot.path}
  {
    if slot.path in d.keys {
      assert slot.key !in d.keys[slot.path];
    } else {
      assert slot.path !in d.paths;
    }
  }

  /** Every operation's id, if it has one, is in the used set. */
  ghost predicate Covered(d: Doc, used: set<string>) {
    forall s :: IsOperation(d.entries, s) && IdAt(d.entries, s).Some? ==> IdAt(d.entries, s).value in used
  }

  /** Entries are only added, and an added one is an operation whose id was unused before. */
  ghost predicate Grown(a: Added, b: Added) {
    && a.used <= b.used && PathSet(a.doc) <= PathSet(b.doc)
    && (forall s :: s in a.doc.entries ==> s in b.doc.entries && b.doc.entries[s] == a.doc.entries[s])
    && (forall s :: s in b.doc.entries && s !in a.doc.entries ==>
          && IsMethod(s.key) && IdAt(b.doc.entries, s).Some? && IdAt(b.doc.entries, s).value !in a.used
          && IdAt(b.doc.entries, s).value in b.used
          && Trim(IdAt(b.doc.entries, s).value) == IdAt(b.doc.entries, s).value)
  }

  lemma InsertKeeps(a: Added, slot: Slot, op: Operation, id: string)
    requires Valid(a.doc) && Covered(a.doc, a.used) && slot !in a.doc.entries && IsMethod(slot.key)
    requires op.operationId == Some(id) && id !in a.used && Trim(id) == id
    ensures var b := Added(Insert(a.doc, slot, Object(op)), a.used + {id});
            && Valid(b.doc) && Covered(b.doc, b.used) && Grown(a, b)
            && PathSet(b.doc) == PathSet(a.doc) + {slot.path}
            && b.doc.entries.Keys == a.doc.entries.Keys + {slot}
  {
    InsertValid(a.doc, slot, Object(op));
    var b := Added(Insert(a.doc, slot, Object(op)), a.used + {id});
    assert b.doc.entries == a.doc.entries[slot := Object(op)];
    forall s | IsOperation(b.doc.entries, s) && IdAt(b.doc.entries, s).Some?
      ensures IdAt(b.doc.entries, s).value in b.used
    {
      if s != slot { assert IsOperation(a.doc.entries, s); }
    }
  }

  /** The endpoint a report line adds, if it adds one. */
  predicate Adds(d: Doc, raw: string) {
    Target(d, raw).Some? && Target(d, raw).value !in d.entries
  }

  lemma AddOneKeeps(a: Added, raw: string, tagFor: string -> string)
    requires Valid(a.doc) && Covered(a.doc, a.used)
    ensures var b := AddOne(a, raw, tagFor);
            && Valid(b.doc) && Covered(b.doc, b.used) && Grown(a, b)
            && (if Adds(a.doc, raw) then PathSet(b.doc) == PathSet(a.doc) + {Target(a.doc, raw).value.path}
                                         && b.doc.entries.Keys == a.doc.entries.Keys + {Target(a.doc, raw).value}
                else b == a)
  {
    if Adds(a.doc, raw) {
      var slot := Target(a.doc, raw).value;
      var id := FreshId(slot.key, slot.path, a.used);
      MethodIsClean(slot.key);
      FreshIdIsClean(slot.key, slot.path, a.used);
      InsertKeeps(a, slot, NewOperation(slot, id, tagFor), id);
    }
  }

  lemma GrownTrans(a: Added, b: Added, c: Added)
    requires Grown(a, b) && Grown(b, c)
    ensures Grown(a, c)
  {
  }

  /** The whole loop: nothing already documented changes, and added ids are new and trimmed. */
  lemma {:induction false} AddAllKeeps(a: Added, report: seq<string>, tagFor: string -> string)
    requires Valid(a.doc) && Covered(a.doc, a.used)
    ensures var b := AddAll(a, report, tagFor); Valid(b.doc) && Covered(b.doc, b.used) && Grown(a, b)
    decreases |report|
  {
    if report != [] {
      var front := report[..|report| - 1];
      AddAllKeeps(a, front, tagFor);
      AddOneKeeps(AddAll(a, front, tagFor), report[|report| - 1], tagFor);
      GrownTrans(a, AddAll(a, front, tagFor), AddAll(a, report, tagFor));
    }
  }

  /** An operation that came in between `a` and `b` shares its id with no operation of `a`. */
  lemma NewIdIsNew(a: Added, b: Added, s: Slot, t: Slot)
    requires Covered(a.doc, a.used) && Grown(a, b)
    requires s in b.doc.entries && s !in a.doc.entries && IsOperation(a.doc.entries, t)
    ensures IdAt(b.doc.entries, s) != IdAt(b.doc.entries, t)
  {
  }

  /** All operations have pairwise different ids, except where both were there from the start. */
  ghost predicate NewDiffer(a: Added, b: Added) {
    forall s, t :: IsOperation(b.doc.entries, s) && IsOperation(b.doc.entries, t) && s != t && s !in a.doc.entries
      ==> IdAt(b.doc.entries, s) != IdAt(b.doc.entries, t)
  }

  lemma PairDiffers(a: Added, m: Added, b: Added, s: Slot, t: Slot)
    requires Covered(m.doc, m.used) && NewDiffer(a, m) && Grown(m, b)
    requires IsOperation(b.doc.entries, s) && IsOperation(b.doc.entries, t) && s != t && s !in a.doc.entries
    requires s in m.doc.entries || t in m.doc.entries
    ensures IdAt(b.doc.entries, s) != IdAt(b.doc.entries, t)
  {
    if s !in m.doc.entries {
      NewIdIsNew(m, b, s, t);
    } else if t !in m.doc.entries {
      NewIdIsNew(m, b, t, s);
    } else {
      assert IdAt(b.doc.entries, s) == IdAt(m.doc.entries, s) && IdAt(b.doc.entries, t) == IdAt(m.doc.entries, t);
    }
  }

  lemma StepDiffers(a: Added, m: Added, raw: string, tagFor: string -> string)
    requires Valid(m.doc) && Covered(m.doc, m.used) && Grown(a, m) && NewDiffer(a, m)
    ensures NewDiffer(a, AddOne(m, raw, tagFor))
  {
    hide Valid, Covered, AddOne, Adds;
    AddOneKeeps(m, raw, tagFor);
    if Adds(m.doc, raw) {
      var b := AddOne(m, raw, tagFor);
      forall s, t | IsOperation(b.doc.entries, s) && IsOperation(b.doc.entries, t) && s != t && s !in a.doc.entries
        ensures IdAt(b.doc.entries, s) != IdAt(b.doc.entries, t)
      {
        PairDiffers(a, m, b, s, t);
      }
    }
  }

  /** An added operation shares its id with no other operation. */
  lemma {:induction false} AddedIdsDiffer(a: Added, report: seq<string>, tagFor: string -> string)
    requires Valid(a.doc) && Covered(a.doc, a.used)
    ensures NewDiffer(a, AddAll(a, report, tagFor))
    decreases |report|
  {
    if report != [] {
      var front := report[..|report| - 1];
      AddedIdsDiffer(a, front, tagFor);
      AddAllKeeps(a, front, tagFor);
      StepDiffers(a, AddAll(a, front, tagFor), report[|report| - 1], tagFor);
    }
  }
}
