/** When a second run of the synchroniser changes nothing. */
module Idempotence {
  import T = Text
  import opened Collections
  import opened OpenApi
  import opened Enrichment
  import opened EnrichAll
  import opened AssignedIds
  import opened VisitOrder
  import opened Aliases
  import opened AddEndpoints
  import opened Synchroniser
  import opened Validator
  import opened Outcome
  import opened Acceptance

  /** Every operation is already enriched under its own id. */
  ghost predicate AllEnriched(d: Doc, tagFor: string -> string) {
    && Valid(d)
    && (forall s :: IsOperation(d.entries, s) ==>
          && HasId(d.entries[s].op)
          && EnrichedOperation(d.entries[s].op, s, d.entries[s].op.operationId.value, tagFor) == d.entries[s].op)
  }

  /** No path item holds the id of an operation twice. */
  ghost predicate NoRepeatedId(d: Doc) {
    forall s :: IsOperation(d.entries, s) && IdAt(d.entries, s).Some? ==>
        !DupSomewhere(d.entries, IdAt(d.entries, s).value)
  }

  lemma {:induction false} UnchangedWhileUnrepeated(d: Doc, used: set<string>, v: seq<Slot>, tagFor: string -> string)
    requires AllEnriched(d, tagFor) && Visitable(d.entries, v)
    requires forall k :: 0 <= k < |v| ==> !DupSomewhere(d.entries, IdAt(d.entries, v[k]).value)
    ensures Enrich(Work(d.entries, used), v, tagFor).entries == d.entries
    decreases |v|
  {
    if v != [] {
      UnchangedWhileUnrepeated(d, used, v[..|v| - 1], tagFor);
      var w, s := Enrich(Work(d.entries, used), v[..|v| - 1], tagFor), v[|v| - 1];
      assert IsOperation(d.entries, s);
      assert !Renames(w, d.entries[s].op.operationId);
      assert d.entries[s := d.entries[s]] == d.entries;
    }
  }

  lemma PrefixUnchanged(d: Doc, used: set<string>, v: seq<Slot>, n: nat, tagFor: string -> string)
    requires AllEnriched(d, tagFor) && Visitable(d.entries, v) && n <= |v|
    requires forall k :: 0 <= k < n ==> !DupSomewhere(d.entries, IdAt(d.entries, v[k]).value)
    ensures At(Work(d.entries, used), v, n, tagFor).entries == d.entries
  {
    UnchangedWhileUnrepeated(d, used, v[..n], tagFor);
  }

  /** The first operation in the way of a repeated id is renamed. */
  lemma DupIsRenamed(w: Work, v: seq<Slot>, n: nat, x: string, tagFor: string -> string)
    requires Visitable(w.entries, v) && Distinct(v) && UsedCovers(w, v) && n < |v|
    requires IdAt(w.entries, v[n]) == Some(x) && DupSomewhere(At(w, v, n, tagFor).entries, x)
    ensures IdAt(Enrich(w, v, tagFor).entries, v[n]) != Some(x)
  {
    DupIsClash(w, v, n, x, tagFor);
    KeptExactly(w, v, n, x, tagFor);
  }

  lemma {:induction false} FirstRepeated(d: Doc, v: seq<Slot>, n: nat) returns (k: nat)
    requires n < |v| && (forall i :: 0 <= i < |v| ==> IdAt(d.entries, v[i]).Some?)
    requires DupSomewhere(d.entries, IdAt(d.entries, v[n]).value)
    ensures k <= n && DupSomewhere(d.entries, IdAt(d.entries, v[k]).value)
    ensures forall i :: 0 <= i < k ==> !DupSomewhere(d.entries, IdAt(d.entries, v[i]).value)
    decreases n
  {
    if i :| 0 <= i < n && DupSomewhere(d.entries, IdAt(d.entries, v[i]).value) {
      k := FirstRepeated(d, v, i);
    } else {
      k := n;
    }
  }

  lemma VisitsHaveIds(d: Doc, tagFor: string -> string)
    requires AllEnriched(d, tagFor)
    ensures forall i :: 0 <= i < |Visits(d)| ==>
        IsOperation(d.entries, Visits(d)[i]) && IdAt(d.entries, Visits(d)[i]).Some?
  {
    VisitsExact(d);
    forall i | 0 <= i < |Visits(d)|
        ensures IsOperation(d.entries, Visits(d)[i]) && IdAt(d.entries, Visits(d)[i]).Some? {
      assert Visits(d)[i] in Visits(d);
    }
  }

  lemma UnrepeatedUnchanged(d: Doc, used: set<string>, tagFor: string -> string)
    requires AllEnriched(d, tagFor) && NoRepeatedId(d)
    ensures Enriched(d, used, tagFor) == d
  {
    VisitsAreVisitable(d);
    VisitsHaveIds(d, tagFor);
    UnchangedWhileUnrepeated(d, used, Visits(d), tagFor);
  }

  lemma FirstRepeatedVisit(d: Doc, tagFor: string -> string) returns (k: nat)
    requires AllEnriched(d, tagFor) && !NoRepeatedId(d)
    ensures k < |Visits(d)| && forall i :: 0 <= i <= k ==> IdAt(d.entries, Visits(d)[i]).Some?
    ensures DupSomewhere(d.entries, IdAt(d.entries, Visits(d)[k]).value)
    ensures forall i :: 0 <= i < k ==> !DupSomewhere(d.entries, IdAt(d.entries, Visits(d)[i]).value)
  {
    hide VisitsUpTo, DupSomewhere, Distinct;
    VisitsHaveIds(d, tagFor);
    VisitsExact(d);
    var s :| IsOperation(d.entries, s) && IdAt(d.entries, s).Some? && DupSomewhere(d.entries, IdAt(d.entries, s).value);
    assert s in Visits(d);
    var n :| 0 <= n < |Visits(d)| && Visits(d)[n] == s;
    k := FirstRepeated(d, Visits(d), n);
  }

  lemma FirstRepeatedChanges(d: Doc, used: set<string>, k: nat, tagFor: string -> string)
    requires AllEnriched(d, tagFor) && Covered(d, used) && k < |Visits(d)|
    requires IdAt(d.entries, Visits(d)[k]).Some? && DupSomewhere(d.entries, IdAt(d.entries, Visits(d)[k]).value)
    requires forall i :: 0 <= i < k ==>
               IdAt(d.entries, Visits(d)[i]).Some? && !DupSomewhere(d.entries, IdAt(d.entries, Visits(d)[i]).value)
    ensures IdAt(Enriched(d, used, tagFor).entries, Visits(d)[k]) != IdAt(d.entries, Visits(d)[k])
  {
    CoveredVisits(d, used);
    VisitsHaveIds(d, tagFor);
    PrefixUnchanged(d, used, Visits(d), k, tagFor);
    DupIsRenamed(Work(d.entries, used), Visits(d), k, IdAt(d.entries, Visits(d)[k]).value, tagFor);
  }

  lemma RepeatedChanged(d: Doc, used: set<string>, tagFor: string -> string)
    requires AllEnriched(d, tagFor) && Covered(d, used) && !NoRepeatedId(d) && WithoutAliases(d) == d
    ensures EnrichedAndPruned(d, used, tagFor) != d
  {
    hide Distinct, Sweep, Enrich, VisitsUpTo, EnrichedAndPruned, Enriched, DupSomewhere, EnrichedOperation;
    var k := FirstRepeatedVisit(d, tagFor);
    FirstRepeatedChanges(d, used, k, tagFor);
    PrunedEntries(d, used, Visits(d)[k], tagFor);
  }

  /** A second run leaves an enriched, alias-free document alone if and only if no path item in it
      holds the id of an operation twice. */
  lemma RerunIff(d: Doc, tagFor: string -> string)
    requires AllEnriched(d, tagFor) && WithoutAliases(d) == d
    ensures Synchronised(d, [], tagFor) == d <==> NoRepeatedId(d)
  {
    StartIdsCover(d);
    assert Synchronised(d, [], tagFor) == EnrichedAndPruned(d, StartIds(d), tagFor);
    if NoRepeatedId(d) {
      UnrepeatedUnchanged(d, StartIds(d), tagFor);
    } else {
      RepeatedChanged(d, StartIds(d), tagFor);
    }
  }

  // ---- The output is enriched and free of aliases ---------------------------------------------

  lemma OutputOperationStable(d: Doc, used: set<string>, s: Slot, tagFor: string -> string)
    requires Valid(d) && Covered(d, used) && IsOperation(EnrichedAndPruned(d, used, tagFor).entries, s)
    ensures var e := EnrichedAndPruned(d, used, tagFor).entries[s];
            e.Object? && HasId(e.op) && EnrichedOperation(e.op, s, e.op.operationId.value, tagFor) == e.op
  {
    hide Distinct, Sweep, Enrich, VisitsUpTo, EnrichedAndPruned, Enriched, EnrichedOperation;
    PrunedEntries(d, used, s, tagFor);
    var n := Index(d, s);
    OutputEntry(d, used, n, tagFor);
    EnrichTwice(d.entries[s].op, s, FinalId(d, used, n), tagFor);
  }

  lemma OutputEnriched(d: Doc, used: set<string>, tagFor: string -> string)
    requires Valid(d) && Covered(d, used)
    ensures AllEnriched(EnrichedAndPruned(d, used, tagFor), tagFor)
    ensures WithoutAliases(EnrichedAndPruned(d, used, tagFor)) == EnrichedAndPruned(d, used, tagFor)
  {
    var o := EnrichedAndPruned(d, used, tagFor);
    OutputValid(d, used, tagFor);
    EnrichedValid(d, used, tagFor);
    WithoutAliasesTwice(Enriched(d, used, tagFor));
    forall s | IsOperation(o.entries, s)
      ensures var op := o.entries[s].op; HasId(op) && EnrichedOperation(op, s, op.operationId.value, tagFor) == op
    {
      OutputOperationStable(d, used, s, tagFor);
    }
  }

  // ---- Where a repeated id can come from ---------------------------------------------------------

  /** An entry of a path item that is not an operation, with an operation id. */
  ghost predicate Stray(d: Doc, t: Slot, x: string) {
    t in d.entries && !IsMethod(t.key) && t.path in Live(d) && IdAt(d.entries, t) == Some(x)
  }

  /** The id generated for the `n`-th operation is the one of a stray entry `t` beside it, or of `t`
      and another stray entry beside `t`. */
  ghost predicate StrayCollision(d: Doc, used: set<string>, n: nat, t: Slot, u: Slot)
    requires Valid(d) && n < |Visits(d)|
  {
    && Visits(d)[n].path in Live(d) && !Keeps(d, Visits(d)[n])
    && Stray(d, t, FinalId(d, used, n)) && u != t && u.path == t.path
    && (u == Visits(d)[n] || Stray(d, u, FinalId(d, used, n)))
  }

  lemma CollisionRepeats(d: Doc, used: set<string>, n: nat, t: Slot, u: Slot, tagFor: string -> string)
    requires Valid(d) && Covered(d, used) && n < |Visits(d)| && StrayCollision(d, used, n, t, u)
    ensures !NoRepeatedId(EnrichedAndPruned(d, used, tagFor))
  {
    hide Distinct, VisitsUpTo, Sweep, FinalId, Enriched, EnrichedAndPruned, EnrichedOperation, Keeps;
    var o, x := EnrichedAndPruned(d, used, tagFor), FinalId(d, used, n);
    OutputEntry(d, used, n, tagFor);
    OutputStray(d, used, t, tagFor);
    if u != Visits(d)[n] { OutputStray(d, used, u, tagFor); }
    assert IdAt(o.entries, t) == Some(x) && IdAt(o.entries, u) == Some(x);
    assert IsOperation(o.entries, Visits(d)[n]) && DupSomewhere(o.entries, x);
  }

  /** A stray entry with the id `x`, or an operation that keeps it. */
  ghost predicate Holder(d: Doc, a: Slot, x: string) {
    Stray(d, a, x) || (Keeps(d, a) && IdAt(d.entries, a) == Some(x))
  }

  /** An entry of the output with the `n`-th operation's id is that operation, or a stray entry with
      that id, or the operation keeps its id and so does the entry. */
  lemma HolderOfFinalId(d: Doc, used: set<string>, n: nat, a: Slot, tagFor: string -> string)
    requires Valid(d) && Covered(d, used) && n < |Visits(d)|
    requires IdAt(EnrichedAndPruned(d, used, tagFor).entries, a) == Some(FinalId(d, used, n))
    ensures a == Visits(d)[n] || Stray(d, a, FinalId(d, used, n))
            || (Keeps(d, Visits(d)[n]) && Holder(d, a, FinalId(d, used, n)))
  {
    hide Distinct, VisitsUpTo, Sweep, Enriched, EnrichedAndPruned, EnrichedOperation, Keeps, KeepsId;
    PrunedEntries(d, used, a, tagFor);
    if !IsMethod(a.key) {
      OutputStray(d, used, a, tagFor);
    } else if a != Visits(d)[n] {
      var k := Index(d, a);
      OutputEntry(d, used, k, tagFor);
      CoveredVisits(d, used);
      KeepsIff(d, k);
      KeepsIff(d, n);
      if !Keeps(d, Visits(d)[n]) {
        GeneratedDiffers(Work(d.entries, used), Visits(d), n, k);
      } else if !Keeps(d, a) {
        GeneratedDiffers(Work(d.entries, used), Visits(d), k, n);
      } else {
        KeptIsFinal(d, used, k);
      }
    }
  }

  /** A kept id is not repeated in the output. */
  lemma KeptNotRepeated(d: Doc, s: Slot, a: Slot, b: Slot, x: string)
    requires Shaped(d) && Keeps(d, s) && IdAt(d.entries, s) == Some(x) && a != b && a.path == b.path
    ensures !(Holder(d, a, x) && Holder(d, b, x))
  {
    hide Precedes, Shaped, Sweep;
    if Precedes(d, a, a) { PrecedesOneWay(d, a, a); }
    if Precedes(d, b, b) { PrecedesOneWay(d, b, b); }
    if Keeps(d, a) && Keeps(d, b) { KeptDifferInItem(d, a, b); }
  }

  lemma RepeatIsCollision(d: Doc, used: set<string>, n: nat, a: Slot, b: Slot, tagFor: string -> string)
    requires Valid(d) && Covered(d, used) && n < |Visits(d)| && Visits(d)[n].path in Live(d)
    requires a != b && a.path == b.path
    requires IdAt(EnrichedAndPruned(d, used, tagFor).entries, a) == Some(FinalId(d, used, n))
    requires IdAt(EnrichedAndPruned(d, used, tagFor).entries, b) == Some(FinalId(d, used, n))
    ensures StrayCollision(d, used, n, a, b) || StrayCollision(d, used, n, b, a)
  {
    hide Distinct, VisitsUpTo, Sweep, Enriched, EnrichedAndPruned, EnrichedOperation, Keeps, FinalId, Stray;
    HolderOfFinalId(d, used, n, a, tagFor);
    HolderOfFinalId(d, used, n, b, tagFor);
    if Keeps(d, Visits(d)[n]) {
      KeptIsFinal(d, used, n);
      KeptNotRepeated(d, Visits(d)[n], a, b, FinalId(d, used, n));
    }
  }

  /** The output repeats an operation's id within some path item exactly if a generated id collides
      with stray entries. */
  lemma RepeatIff(d: Doc, used: set<string>, tagFor: string -> string)
    requires Valid(d) && Covered(d, used)
    ensures NoRepeatedId(EnrichedAndPruned(d, used, tagFor)) <==>
              forall n, t, u :: 0 <= n < |Visits(d)| ==> !StrayCollision(d, used, n, t, u)
  {
    hide Distinct, VisitsUpTo, Sweep, Enriched, EnrichedAndPruned, EnrichedOperation, FinalId, StrayCollision;
    var o := EnrichedAndPruned(d, used, tagFor);
    if n, t, u :| 0 <= n < |Visits(d)| && StrayCollision(d, used, n, t, u) {
      CollisionRepeats(d, used, n, t, u, tagFor);
    } else if !NoRepeatedId(o) {
      var s, x :| IsOperation(o.entries, s) && IdAt(o.entries, s) == Some(x) && DupSomewhere(o.entries, x);
      var a, b :| && a in o.entries && b in o.entries && a.path == b.path && a != b
                  && IdAt(o.entries, a) == Some(x) && IdAt(o.entries, b) == Some(x);
      PrunedEntries(d, used, s, tagFor);
      var n := Index(d, s);
      OutputEntry(d, used, n, tagFor);
      RepeatIsCollision(d, used, n, a, b, tagFor);
    }
  }

  // ---- Twice --------------------------------------------------------------------------------------

  /** Running the synchroniser again on its own output, with nothing new to report, changes nothing
      (no summary, description, tag, id, security entry, parameter, response or path) if and only
      if, when the report's endpoints are in, no id that is generated collides with stray entries. */
  lemma SynchroniseTwiceIff(d: Doc, report: seq<string>, tagFor: string -> string)
    requires Valid(d)
    ensures var a, o := AfterReport(d, report, tagFor), Synchronised(d, report, tagFor);
            && Valid(a.doc) && Valid(o)
            && (Synchronised(o, [], tagFor) == o <==>
                  forall n, t, u :: 0 <= n < |Visits(a.doc)| ==> !StrayCollision(a.doc, a.used, n, t, u))
  {
    hide Shaped, Covered, Grown, NewDiffer, Extends, StrayCollision, EnrichedAndPruned, EnrichedOperation, NoRepeatedId;
    AfterReportGrown(d, report, tagFor);
    var a := AfterReport(d, report, tagFor);
    OutputEnriched(a.doc, a.used, tagFor);
    RerunIff(EnrichedAndPruned(a.doc, a.used, tagFor), tagFor);
    RepeatIff(a.doc, a.used, tagFor);
  }

  /** The operation ids of entries that are not operations are in use by operations as well, or have
      some character that is neither a letter nor a digit: they are never generated. */
  ghost predicate StraysHarmless(d: Doc)
    requires Valid(d)
  {
    forall t :: t in d.entries && !IsMethod(t.key) && IdAt(d.entries, t).Some? ==>
        IdAt(d.entries, t).value in StartIds(d) || !T.AllAlnum(IdAt(d.entries, t).value)
  }

  lemma HarmlessStay(d: Doc, a: Added, n: nat, t: Slot, u: Slot)
    requires Valid(d) && Valid(a.doc) && Covered(a.doc, a.used) && StraysHarmless(d) && n < |Visits(a.doc)|
    requires Extends(d, a.doc) && StartIds(d) <= a.used
    ensures !StrayCollision(a.doc, a.used, n, t, u)
  {
    hide Distinct, VisitsUpTo, Sweep, Keeps, FinalId, StartIds;
    if StrayCollision(a.doc, a.used, n, t, u) {
      GeneratedIsClean(a.doc, a.used, n);
    }
  }

  /** In particular it changes nothing, in any iteration order, for every document in which operation
      ids outside operations are never generated. */
  lemma SynchroniseTwice(d: Doc, report: seq<string>, tagFor: string -> string)
    requires Valid(d) && StraysHarmless(d)
    ensures Valid(Synchronised(d, report, tagFor))
    ensures Synchronised(Synchronised(d, report, tagFor), [], tagFor) == Synchronised(d, report, tagFor)
  {
    hide Distinct, Covered, NewDiffer, Extends, StrayCollision, Synchronised, StartIds, AfterReport;
    AfterReportGrown(d, report, tagFor);
    SynchroniseTwiceIff(d, report, tagFor);
    var a := AfterReport(d, report, tagFor);
    forall n, t, u | 0 <= n < |Visits(a.doc)| ensures !StrayCollision(a.doc, a.used, n, t, u) {
      HarmlessStay(d, a, n, t, u);
    }
  }
}
