/** The enrichment loop over a whole document: which operations keep their id, which are
    renamed, and when two can end up alike. */
module EnrichAll {
  import opened Collections
  import opened OpenApi
  import opened OperationIds
  import opened Enrichment
  import T = Text

  /** Two different entries of one path item hold the id `x`, for some path item. */
  predicate DupSomewhere(entries: map<Slot, Entry>, x: string) {
    exists s, t :: && s in entries && t in entries && s.path == t.path && s != t
                   && IdAt(entries, s) == Some(x) && IdAt(entries, t) == Some(x)
  }

  /** The entries and the used ids, as the loop goes on. */
  datatype Work = Work(entries: map<Slot, Entry>, used: set<string>)

  predicate Renames(w: Work, id: Option<string>) {
    id.None? || T.Blank(id.value) || (id.value in w.used && DupSomewhere(w.entries, id.value))
  }

  /** One turn of the loop. */
  function EnrichOne(w: Work, s: Slot, tagFor: string -> string): Work
    requires s in w.entries && w.entries[s].Object?
  {
    var op := w.entries[s].op;
    var id := if Renames(w, op.operationId) then FreshId(s.key, s.path, w.used) else op.operationId.value;
    Work(w.entries[s := Object(EnrichedOperation(op, s, id, tagFor))], w.used + {id})
  }

  ghost predicate Visitable(entries: map<Slot, Entry>, v: seq<Slot>) {
    forall k :: 0 <= k < |v| ==> IsOperation(entries, v[k]) && entries[v[k]].Object?
  }

  ghost function Enrich(w: Work, v: seq<Slot>, tagFor: string -> string): (r: Work)
    requires Visitable(w.entries, v)
    ensures r.entries.Keys == w.entries.Keys && w.used <= r.used
    ensures forall s :: s in w.entries && w.entries[s].Object? ==> r.entries[s].Object?
    ensures forall s :: s in w.entries && s !in v ==> r.entries[s] == w.entries[s]
    decreases |v|
  {
    if v == [] then w
    else
      var before := Enrich(w, v[..|v| - 1], tagFor);
      EnrichOne(before, v[|v| - 1], tagFor)
  }

  /** The state the loop is in when it reaches the `n`-th visit. */
  ghost function At(w: Work, v: seq<Slot>, n: nat, tagFor: string -> string): Work
    requires Visitable(w.entries, v) && n <= |v|
  {
    Enrich(w, v[..n], tagFor)
  }

  lemma AtNext(w: Work, v: seq<Slot>, n: nat, tagFor: string -> string)
    requires Visitable(w.entries, v) && n < |v|
    ensures At(w, v, n, tagFor).entries.Keys == w.entries.Keys && At(w, v, n, tagFor).entries[v[n]].Object?
    ensures At(w, v, n + 1, tagFor) == EnrichOne(At(w, v, n, tagFor), v[n], tagFor)
  {
    assert v[..n + 1][..n] == v[..n];
    assert v[..n + 1][n] == v[n];
  }

  lemma OneFrame(w: Work, s: Slot, t: Slot, tagFor: string -> string)
    requires s in w.entries && w.entries[s].Object?
    ensures t in w.entries && t != s ==> EnrichOne(w, s, tagFor).entries[t] == w.entries[t]
    ensures w.used <= EnrichOne(w, s, tagFor).used
  {
  }

  lemma {:induction false} LaterTurns(w: Work, v: seq<Slot>, n: nat, t: Slot, tagFor: string -> string)
    requires Visitable(w.entries, v) && n <= |v| && t in w.entries && t !in v[n..]
    ensures Enrich(w, v, tagFor).entries[t] == Enrich(w, v[..n], tagFor).entries[t]
    ensures Enrich(w, v[..n], tagFor).used <= Enrich(w, v, tagFor).used
    decreases |v|
  {
    if n == |v| {
      assert v[..n] == v;
    } else {
      var u, last := v[..|v| - 1], v[|v| - 1];
      assert u[..n] == v[..n] && last in v[n..];
      assert t !in u[n..] by { assert v[n..] == u[n..] + [last]; }
      LaterTurns(w, u, n, t, tagFor);
      OneFrame(Enrich(w, u, tagFor), last, t, tagFor);
    }
  }

  /** A visited entry never changes again; used ids only grow. */
  lemma Settled(w: Work, v: seq<Slot>, n: nat, m: nat, tagFor: string -> string)
    requires Visitable(w.entries, v) && Distinct(v) && n < m <= |v|
    ensures At(w, v, m, tagFor).entries[v[n]] == At(w, v, n + 1, tagFor).entries[v[n]]
    ensures At(w, v, n + 1, tagFor).used <= At(w, v, m, tagFor).used
  {
    assert v[..m][..n + 1] == v[..n + 1];
    assert v[n] !in v[..m][n + 1..];
    LaterTurns(w, v[..m], n + 1, v[n], tagFor);
  }

  /** An entry not visited yet is as it was. */
  lemma Untouched(w: Work, v: seq<Slot>, n: nat, s: Slot, tagFor: string -> string)
    requires Visitable(w.entries, v) && n <= |v| && s !in v[..n]
    ensures IdAt(At(w, v, n, tagFor).entries, s) == IdAt(w.entries, s)
  {
  }

  lemma Unvisited(v: seq<Slot>, m: nat, n: nat)
    requires Distinct(v) && m <= n < |v|
    ensures v[n] !in v[..m]
  {
  }

  // ---- Kept ids -----------------------------------------------------------------------

  ghost predicate KeepsAtTurn(w: Work, v: seq<Slot>, n: nat, x: string, tagFor: string -> string)
    requires Visitable(w.entries, v) && n < |v|
  {
    IdAt(w.entries, v[n]) == Some(x) && !T.Blank(x) && !DupSomewhere(At(w, v, n, tagFor).entries, x)
  }

  /** Every id an operation starts with is in the used set. */
  ghost predicate UsedCovers(w: Work, v: seq<Slot>) {
    forall k :: 0 <= k < |v| && IdAt(w.entries, v[k]).Some? ==> IdAt(w.entries, v[k]).value in w.used
  }

  /** At the time of a visit, and for good: an operation keeps its id, or gets one that nobody
      had and nobody will get. */
  lemma IdAfter(w: Work, v: seq<Slot>, n: nat, m: nat, tagFor: string -> string)
    requires Visitable(w.entries, v) && Distinct(v) && n < m <= |v| && UsedCovers(w, v)
    ensures var id := IdAt(At(w, v, m, tagFor).entries, v[n]);
            && id.Some?
            && id.value in At(w, v, m, tagFor).used
            && (KeepsAtTurn(w, v, n, id.value, tagFor)
                || (id.value == FreshId(v[n].key, v[n].path, At(w, v, n, tagFor).used)
                    && id.value !in At(w, v, n, tagFor).used))
    ensures forall x :: KeepsAtTurn(w, v, n, x, tagFor) ==> IdAt(At(w, v, m, tagFor).entries, v[n]) == Some(x)
  {
    AtNext(w, v, n, tagFor);
    Settled(w, v, n, m, tagFor);
    Unvisited(v, n, n);
    Untouched(w, v, n, v[n], tagFor);
  }

  lemma UsedGrows(w: Work, v: seq<Slot>, n: nat, m: nat, tagFor: string -> string)
    requires Visitable(w.entries, v) && n < m <= |v| && Distinct(v)
    ensures w.used <= At(w, v, n, tagFor).used <= At(w, v, m, tagFor).used
  {
    Settled(w, v, n, m, tagFor);
    AtNext(w, v, n, tagFor);
    OneFrame(At(w, v, n, tagFor), v[n], v[n], tagFor);
  }

  /** Two operations end with the same id only if both kept it from the start. */
  lemma EqualIdsAreKept(w: Work, v: seq<Slot>, m: nat, n: nat, x: string, tagFor: string -> string)
    requires Visitable(w.entries, v) && Distinct(v) && UsedCovers(w, v) && m < n < |v|
    requires IdAt(Enrich(w, v, tagFor).entries, v[m]) == Some(x) && IdAt(Enrich(w, v, tagFor).entries, v[n]) == Some(x)
    ensures KeepsAtTurn(w, v, m, x, tagFor) && KeepsAtTurn(w, v, n, x, tagFor)
  {
    assert v[..|v|] == v;
    IdAfter(w, v, m, |v|, tagFor);
    IdAfter(w, v, n, |v|, tagFor);
    IdAfter(w, v, m, n, tagFor);
    Settled(w, v, m, n, tagFor);
    Settled(w, v, m, |v|, tagFor);
    UsedGrows(w, v, m, n, tagFor);
    assert IdAt(At(w, v, n, tagFor).entries, v[m]) == Some(x);
    assert x in At(w, v, n, tagFor).used;
    assert KeepsAtTurn(w, v, n, x, tagFor);
    assert x in w.used;
  }

  // ---- Which operations keep their id, read off the document --------------------------------

  /** Some path item has two entries with id `x` among those not visited before turn `n`. */
  ghost predicate Clash(entries: map<Slot, Entry>, v: seq<Slot>, n: nat, x: string)
    requires n <= |v|
  {
    exists s, t :: && s in entries && t in entries && s.path == t.path && s != t
                   && s !in v[..n] && t !in v[..n]
                   && IdAt(entries, s) == Some(x) && IdAt(entries, t) == Some(x)
  }

  /** An operation visited while another entry of its item still held `x` does not end with `x`. */
  lemma NoEarlierHolder(w: Work, v: seq<Slot>, n: nat, m: nat, t: Slot, x: string, tagFor: string -> string)
    requires Visitable(w.entries, v) && Distinct(v) && UsedCovers(w, v) && m < n <= |v| && x in w.used
    requires t in w.entries && t != v[m] && t.path == v[m].path && t !in v[..m]
    requires IdAt(w.entries, t) == Some(x)
    ensures IdAt(At(w, v, n, tagFor).entries, v[m]) != Some(x)
  {
    IdAfter(w, v, m, n, tagFor);
    assert w.used <= At(w, v, m, tagFor).used;
    if IdAt(w.entries, v[m]) == Some(x) {
      Unvisited(v, m, m);
      Untouched(w, v, m, v[m], tagFor);
      Untouched(w, v, m, t, tagFor);
      assert DupSomewhere(At(w, v, m, tagFor).entries, x);
    }
  }

  /** An id in use at the start is held at turn `n` only by entries that held it at the start. */
  lemma HolderIsOriginal(w: Work, v: seq<Slot>, n: nat, s: Slot, x: string, tagFor: string -> string)
    requires Visitable(w.entries, v) && Distinct(v) && UsedCovers(w, v) && n <= |v| && x in w.used
    requires s in w.entries && IdAt(At(w, v, n, tagFor).entries, s) == Some(x)
    ensures IdAt(w.entries, s) == Some(x)
  {
    if s in v[..n] {
      var m :| 0 <= m < n && v[m] == s;
      IdAfter(w, v, m, n, tagFor);
      assert w.used <= At(w, v, m, tagFor).used;
    } else {
      Untouched(w, v, n, s, tagFor);
    }
  }

  lemma DupMeansClash(w: Work, v: seq<Slot>, n: nat, s: Slot, t: Slot, x: string, tagFor: string -> string)
    requires Visitable(w.entries, v) && Distinct(v) && UsedCovers(w, v) && n <= |v| && x in w.used
    requires s in w.entries && t in w.entries && s.path == t.path && s != t
    requires IdAt(At(w, v, n, tagFor).entries, s) == Some(x) && IdAt(At(w, v, n, tagFor).entries, t) == Some(x)
    ensures s !in v[..n] && t !in v[..n]
  {
    HolderIsOriginal(w, v, n, s, x, tagFor);
    HolderIsOriginal(w, v, n, t, x, tagFor);
    if s in v[..n] {
      var a :| 0 <= a < n && v[a] == s;
      if t in v[..a] {
        var b :| 0 <= b < a && v[b] == t;
        assert s !in v[..b];
        NoEarlierHolder(w, v, n, b, s, x, tagFor);
      } else {
        NoEarlierHolder(w, v, n, a, t, x, tagFor);
      }
    } else if t in v[..n] {
      var b :| 0 <= b < n && v[b] == t;
      assert s !in v[..b];
      NoEarlierHolder(w, v, n, b, s, x, tagFor);
    }
  }

  /** The duplicate test of the loop, at turn `n`, answers a question about the document as it
      was before the loop. */
  lemma DupIsClash(w: Work, v: seq<Slot>, n: nat, x: string, tagFor: string -> string)
    requires Visitable(w.entries, v) && Distinct(v) && UsedCovers(w, v) && n <= |v| && x in w.used
    ensures DupSomewhere(At(w, v, n, tagFor).entries, x) <==> Clash(w.entries, v, n, x)
  {
    var e := At(w, v, n, tagFor).entries;
    if DupSomewhere(e, x) {
      var s, t :| && s in e && t in e && s.path == t.path && s != t && IdAt(e, s) == Some(x) && IdAt(e, t) == Some(x);
      DupMeansClash(w, v, n, s, t, x, tagFor);
      HolderIsOriginal(w, v, n, s, x, tagFor);
      HolderIsOriginal(w, v, n, t, x, tagFor);
    }
    if Clash(w.entries, v, n, x) {
      var s, t :| && s in w.entries && t in w.entries && s.path == t.path && s != t && s !in v[..n] && t !in v[..n]
                  && IdAt(w.entries, s) == Some(x) && IdAt(w.entries, t) == Some(x);
      Untouched(w, v, n, s, tagFor);
      Untouched(w, v, n, t, tagFor);
    }
  }

  /** The `n`-th operation visited keeps its id if and only if it has a non-blank one and no path
      item has two entries with that id among the operations still to come (itself included)
      and the entries the loop never visits. */
  lemma KeptExactly(w: Work, v: seq<Slot>, n: nat, x: string, tagFor: string -> string)
    requires Visitable(w.entries, v) && Distinct(v) && UsedCovers(w, v) && n < |v|
    requires IdAt(w.entries, v[n]) == Some(x)
    ensures IdAt(Enrich(w, v, tagFor).entries, v[n]) == Some(x) <==> !T.Blank(x) && !Clash(w.entries, v, n, x)
  {
    assert v[..|v|] == v;
    DupIsClash(w, v, n, x, tagFor);
    IdAfter(w, v, n, |v|, tagFor);
    assert w.used <= At(w, v, n, tagFor).used;
  }

  /** No two operations of one path item end with the same id, whatever they started with. */
  lemma UniqueInItem(w: Work, v: seq<Slot>, m: nat, n: nat, tagFor: string -> string)
    requires Visitable(w.entries, v) && Distinct(v) && UsedCovers(w, v) && m < n < |v|
    requires v[m].path == v[n].path
    ensures IdAt(Enrich(w, v, tagFor).entries, v[m]).Some?
    ensures IdAt(Enrich(w, v, tagFor).entries, v[m]) != IdAt(Enrich(w, v, tagFor).entries, v[n])
  {
    assert v[..|v|] == v;
    IdAfter(w, v, m, |v|, tagFor);
    IdAfter(w, v, n, |v|, tagFor);
    var y := IdAt(Enrich(w, v, tagFor).entries, v[n]).value;
    if y in w.used {
      HolderIsOriginal(w, v, |v|, v[n], y, tagFor);
      Unvisited(v, m, n);
      NoEarlierHolder(w, v, |v|, m, v[n], y, tagFor);
    } else if IdAt(Enrich(w, v, tagFor).entries, v[m]) == Some(y) {
      EqualIdsAreKept(w, v, m, n, y, tagFor);
    }
  }

  /** Fewer entries are left at a later turn, so what does not clash now will not clash then. */
  lemma ClashShrinks(entries: map<Slot, Entry>, v: seq<Slot>, m: nat, n: nat, x: string)
    requires m <= n <= |v|
    ensures Clash(entries, v, n, x) ==> Clash(entries, v, m, x)
  {
  }

  /** Two operations of different items end with the same id exactly when both start with it and
      both keep it. */
  lemma SharedExactly(w: Work, v: seq<Slot>, m: nat, n: nat, x: string, tagFor: string -> string)
    requires Visitable(w.entries, v) && Distinct(v) && UsedCovers(w, v) && m < n < |v|
    ensures IdAt(Enrich(w, v, tagFor).entries, v[m]) == Some(x) && IdAt(Enrich(w, v, tagFor).entries, v[n]) == Some(x)
       <==> (IdAt(w.entries, v[m]) == Some(x) && IdAt(w.entries, v[n]) == Some(x) && !T.Blank(x)
             && !Clash(w.entries, v, m, x))
  {
    if IdAt(Enrich(w, v, tagFor).entries, v[m]) == Some(x) && IdAt(Enrich(w, v, tagFor).entries, v[n]) == Some(x) {
      EqualIdsAreKept(w, v, m, n, x, tagFor);
    }
    if IdAt(w.entries, v[m]) == Some(x) && IdAt(w.entries, v[n]) == Some(x) {
      KeptExactly(w, v, m, x, tagFor);
      KeptExactly(w, v, n, x, tagFor);
      ClashShrinks(w.entries, v, m, n, x);
    }
  }
}
