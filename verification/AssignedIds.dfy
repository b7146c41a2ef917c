/** The id every operation ends with, computed from the document before the enrichment loop. */
module AssignedIds {
  import opened Collections
  import opened OpenApi
  import opened OperationIds
  import opened EnrichAll
  import T = Text

  /** The `n`-th operation keeps its id: it has one, not blank, and no path item holds it twice
      among the operations from there on and the entries that are not operations. */
  ghost predicate KeepsId(entries: map<Slot, Entry>, v: seq<Slot>, n: nat)
    requires n < |v|
  {
    var id := IdAt(entries, v[n]);
    id.Some? && !T.Blank(id.value) && !Clash(entries, v, n, id.value)
  }

  /** The ids in use when the loop reaches the `n`-th operation. */
  ghost function UsedAt(w: Work, v: seq<Slot>, n: nat): (used: set<string>)
    requires n <= |v|
    ensures w.used <= used
  {
    if n == 0 then w.used
    else
      var before := UsedAt(w, v, n - 1);
      before + {if KeepsId(w.entries, v, n - 1) then IdAt(w.entries, v[n - 1]).value
                else FreshId(v[n - 1].key, v[n - 1].path, before)}
  }

  ghost function AssignedId(w: Work, v: seq<Slot>, n: nat): string
    requires n < |v|
  {
    if KeepsId(w.entries, v, n) then IdAt(w.entries, v[n]).value else FreshId(v[n].key, v[n].path, UsedAt(w, v, n))
  }

  lemma TurnAssigns(w: Work, v: seq<Slot>, n: nat, tagFor: string -> string)
    requires Visitable(w.entries, v) && Distinct(v) && UsedCovers(w, v) && n < |v|
    requires At(w, v, n, tagFor).used == UsedAt(w, v, n)
    ensures IdAt(At(w, v, n + 1, tagFor).entries, v[n]) == Some(AssignedId(w, v, n))
    ensures At(w, v, n + 1, tagFor).used == UsedAt(w, v, n + 1)
  {
    hide Enrich, Clash, DupSomewhere, Distinct;
    AtNext(w, v, n, tagFor);
    Unvisited(v, n, n);
    Untouched(w, v, n, v[n], tagFor);
    var id := IdAt(w.entries, v[n]);
    if id.Some? {
      DupIsClash(w, v, n, id.value, tagFor);
      assert id.value in UsedAt(w, v, n);
    }
    assert Renames(At(w, v, n, tagFor), id) <==> !KeepsId(w.entries, v, n);
  }

  lemma {:induction false} UsedExactly(w: Work, v: seq<Slot>, n: nat, tagFor: string -> string)
    requires Visitable(w.entries, v) && Distinct(v) && UsedCovers(w, v) && n <= |v|
    ensures At(w, v, n, tagFor).used == UsedAt(w, v, n)
    decreases n
  {
    hide EnrichOne, KeepsId, FreshId, Distinct;
    if n == 0 {
      assert v[..0] == [];
    } else {
      UsedExactly(w, v, n - 1, tagFor);
      TurnAssigns(w, v, n - 1, tagFor);
    }
  }

  /** The loop, which tests for duplicates in the document it is changing, leaves every operation
      with the id computed beforehand. */
  lemma AssignedExactly(w: Work, v: seq<Slot>, n: nat, tagFor: string -> string)
    requires Visitable(w.entries, v) && Distinct(v) && UsedCovers(w, v) && n < |v|
    ensures IdAt(Enrich(w, v, tagFor).entries, v[n]) == Some(AssignedId(w, v, n))
  {
    hide Distinct, Enrich, UsedAt, AssignedId;
    UsedExactly(w, v, n, tagFor);
    TurnAssigns(w, v, n, tagFor);
    Settled(w, v, n, |v|, tagFor);
    assert v[..|v|] == v;
  }

  /** A generated id was not in use; it is made of letters and digits, and so neither blank nor in
      need of trimming. */
  lemma GeneratedIsFresh(w: Work, v: seq<Slot>, n: nat)
    requires n < |v| && !KeepsId(w.entries, v, n) && IsMethod(v[n].key)
    ensures AssignedId(w, v, n) !in w.used
    ensures T.AllAlnum(AssignedId(w, v, n)) && !T.Blank(AssignedId(w, v, n))
    ensures T.Trim(AssignedId(w, v, n)) == AssignedId(w, v, n)
  {
    MethodIsClean(v[n].key);
    FreshIdIsClean(v[n].key, v[n].path, UsedAt(w, v, n));
  }

  lemma {:induction false} UsedLater(w: Work, v: seq<Slot>, m: nat, n: nat)
    requires m < n <= |v|
    ensures AssignedId(w, v, m) in UsedAt(w, v, n)
    decreases n
  {
    hide KeepsId, FreshId;
    if m < n - 1 { UsedLater(w, v, m, n - 1); }
  }

  lemma KeptWasUsed(w: Work, v: seq<Slot>, n: nat)
    requires UsedCovers(w, v) && n < |v| && KeepsId(w.entries, v, n)
    ensures AssignedId(w, v, n) in w.used
  {
  }

  /** A generated id is the id of no other operation. */
  lemma GeneratedDiffers(w: Work, v: seq<Slot>, m: nat, n: nat)
    requires Visitable(w.entries, v) && UsedCovers(w, v) && m < |v| && n < |v| && m != n
    requires !KeepsId(w.entries, v, m)
    ensures AssignedId(w, v, m) != AssignedId(w, v, n)
  {
    hide KeepsId;
    if n < m {
      UsedLater(w, v, n, m);
    } else if !KeepsId(w.entries, v, n) {
      UsedLater(w, v, m, n);
    } else {
      KeptWasUsed(w, v, n);
      GeneratedIsFresh(w, v, m);
    }
  }
}
