/** Two-phase seeding of the capability ontology, statement by statement, as in
    hcra-sprint1-bootstrap.ts and hcra-reseed-ontology.ts.  Nothing is transactional: a run can
    stop after any statement. */
module Ontology {
  import opened Collections

  datatype SeedEntry = SeedEntry(
    slug: string, preferredLabel: string, labels: string, synonyms: seq<string>, description: string, category: string,
    broader: seq<string>, narrower: seq<string>)

  /** A row of `capability_ontology`; its key is the uri. */
  datatype Concept = Concept(
    version: nat, preferredLabel: string, labels: string, synonyms: seq<string>, description: string,
    broader: seq<string>, narrower: seq<string>, category: string, status: string)

  type Table = map<string, Concept>

  const URI_PREFIX := "http://ailin.dev/cap/v1/"

  function Uri(slug: string): string {
    URI_PREFIX + slug
  }

  // ---- Statements ----------------------------------------------------------------------

  /** Phase one writes rows and leaves the edges of existing rows alone; phase two writes edges. */
  datatype Statement = Upsert(entry: SeedEntry) | SetEdges(entry: SeedEntry)

  function Exec(t: Table, stmt: Statement): Table {
    var e := stmt.entry;
    var u := Uri(e.slug);
    match stmt
    case Upsert(_) =>
      t[u := if u in t
             then t[u].(preferredLabel := e.preferredLabel, labels := e.labels, synonyms := e.synonyms,
                        description := e.description, category := e.category)
             else Concept(1, e.preferredLabel, e.labels, e.synonyms, e.description, [], [], e.category, "active")]
    case SetEdges(_) =>
      if u in t then t[u := t[u].(broader := e.broader, narrower := e.narrower)] else t
  }

  /** The `k`-th statement of a run. */
  function StatementAt(seed: seq<SeedEntry>, k: nat): Statement
    requires k < 2 * |seed|
  {
    if k < |seed| then Upsert(seed[k]) else SetEdges(seed[k - |seed|])
  }

  /** The table after the first `k` statements. */
  function Run(t: Table, seed: seq<SeedEntry>, k: nat): Table
    requires k <= 2 * |seed|
  {
    if k == 0 then t else Exec(Run(t, seed, k - 1), StatementAt(seed, k - 1))
  }

  // ---- What a complete run leaves behind --------------------------------------------------

  /** The last seed entry for `u` among the first `n`, which is the one whose values stay. */
  function LastFor(seed: seq<SeedEntry>, n: nat, u: string): (r: Option<SeedEntry>)
    requires n <= |seed|
    ensures r.Some? ==> Uri(r.value.slug) == u && r.value in seed[..n]
    ensures r.None? ==> forall e :: e in seed[..n] ==> Uri(e.slug) != u
  {
    if n == 0 then None
    else if Uri(seed[n - 1].slug) == u then assert seed[n - 1] in seed[..n]; Some(seed[n - 1])
    else
      assert seed[..n] == seed[..n - 1] + [seed[n - 1]];
      LastFor(seed, n - 1, u)
  }

  /** The row for a seeded uri: the seed's fields and edges; version and status as before, or
      the defaults of a new row. */
  function SeededRow(t: Table, u: string, e: SeedEntry): Concept {
    Concept(if u in t then t[u].version else 1, e.preferredLabel, e.labels, e.synonyms, e.description,
            e.broader, e.narrower, e.category, if u in t then t[u].status else "active")
  }

  function Lookup(t: Table, u: string): Option<Concept> {
    if u in t then Some(t[u]) else None
  }

  /** What is stored under `u` once the fields of `fields` and the edges of `edges` are written. */
  function Row(t: Table, u: string, fields: Option<SeedEntry>, edges: Option<SeedEntry>): Option<Concept> {
    if fields.None? then Lookup(t, u)
    else Some(SeededRow(t, u, fields.value).(
                broader := if edges.Some? then edges.value.broader else if u in t then t[u].broader else [],
                narrower := if edges.Some? then edges.value.narrower else if u in t then t[u].narrower else []))
  }

  lemma UnwrittenRow(t: Table, u: string)
    ensures Row(t, u, None, None) == Lookup(t, u)
  {
  }

  lemma UpsertRow(t: Table, r: Table, u: string, fields: Option<SeedEntry>, e: SeedEntry)
    requires Lookup(r, u) == Row(t, u, fields, None)
    ensures Lookup(Exec(r, Upsert(e)), u) == Row(t, u, if Uri(e.slug) == u then Some(e) else fields, None)
  {
  }

  lemma EdgesRow(t: Table, r: Table, u: string, fields: Option<SeedEntry>, edges: Option<SeedEntry>, e: SeedEntry)
    requires Lookup(r, u) == Row(t, u, fields, edges) && (Uri(e.slug) == u ==> fields.Some?)
    ensures Lookup(Exec(r, SetEdges(e)), u) == Row(t, u, fields, if Uri(e.slug) == u then Some(e) else edges)
  {
  }

  function Min(a: nat, b: nat): nat {
    if a <= b then a else b
  }

  lemma EntryIsFound(seed: seq<SeedEntry>, i: nat)
    requires i < |seed|
    ensures LastFor(seed, |seed|, Uri(seed[i].slug)).Some?
  {
  }

  /** Every row while the fields are being written. */
  lemma {:induction false} FieldRows(t: Table, seed: seq<SeedEntry>, k: nat, u: string)
    requires k <= |seed|
    ensures Lookup(Run(t, seed, k), u) == Row(t, u, LastFor(seed, k, u), None)
    decreases k
  {
    hide Row, Exec;
    UnwrittenRow(t, u);
    if k > 0 {
      FieldRows(t, seed, k - 1, u);
      UpsertRow(t, Run(t, seed, k - 1), u, LastFor(seed, k - 1, u), seed[k - 1]);
    }
  }

  /** Every row while the edges are being written. */
  lemma {:induction false} EdgeRows(t: Table, seed: seq<SeedEntry>, j: nat, u: string)
    requires j <= |seed|
    ensures Lookup(Run(t, seed, |seed| + j), u) == Row(t, u, LastFor(seed, |seed|, u), LastFor(seed, j, u))
    decreases j
  {
    hide Row, Exec;
    if j == 0 {
      FieldRows(t, seed, |seed|, u);
    } else {
      EdgeRows(t, seed, j - 1, u);
      EntryIsFound(seed, j - 1);
      EdgesRow(t, Run(t, seed, |seed| + j - 1), u, LastFor(seed, |seed|, u), LastFor(seed, j - 1, u), seed[j - 1]);
    }
  }

  /** Every row of the table after the first `k` statements. */
  lemma RunRows(t: Table, seed: seq<SeedEntry>, k: nat, u: string)
    requires k <= 2 * |seed|
    ensures Lookup(Run(t, seed, k), u) ==
            Row(t, u, LastFor(seed, Min(k, |seed|), u), LastFor(seed, k - Min(k, |seed|), u))
  {
    hide Row, Run, LastFor;
    if k <= |seed| { FieldRows(t, seed, k, u); } else { EdgeRows(t, seed, k - |seed|, u); }
  }

  /** The table after an uninterrupted run. */
  function Seeded(t: Table, seed: seq<SeedEntry>): Table {
    Run(t, seed, 2 * |seed|)
  }

  /** Seeded rows carry the seed's fields and edges, all other rows are unchanged, and nothing
      else appears; for a repeated slug the last entry counts. */
  lemma SeededExactly(t: Table, seed: seq<SeedEntry>, u: string)
    ensures var e := LastFor(seed, |seed|, u);
            Lookup(Seeded(t, seed), u) == if e.Some? then Some(SeededRow(t, u, e.value)) else Lookup(t, u)
  {
    RunRows(t, seed, 2 * |seed|, u);
  }

  lemma UriInjective(a: string, b: string)
    ensures Uri(a) == Uri(b) <==> a == b
  {
    assert Uri(a)[|URI_PREFIX|..] == a && Uri(b)[|URI_PREFIX|..] == b;
  }

  lemma {:induction false} LastIs(seed: seq<SeedEntry>, n: nat, i: nat)
    requires i < n <= |seed| && forall j, k :: 0 <= j < k < |seed| ==> seed[j].slug != seed[k].slug
    ensures LastFor(seed, n, Uri(seed[i].slug)) == Some(seed[i])
    decreases n
  {
    if i < n - 1 {
      UriInjective(seed[i].slug, seed[n - 1].slug);
      LastIs(seed, n - 1, i);
    }
  }

  /** For distinct slugs, entry by entry: under the entry's uri stands a row with the entry's fields and
      edges, with the version and status it had, or version 1 and active if it is new. */
  lemma SeededBySlug(t: Table, seed: seq<SeedEntry>, i: nat)
    requires i < |seed| && forall j, k :: 0 <= j < k < |seed| ==> seed[j].slug != seed[k].slug
    ensures var e, u, r := seed[i], "http://ailin.dev/cap/v1/" + seed[i].slug, Seeded(t, seed);
            && u in r
            && r[u].preferredLabel == e.preferredLabel && r[u].labels == e.labels && r[u].synonyms == e.synonyms
            && r[u].description == e.description && r[u].category == e.category
            && r[u].broader == e.broader && r[u].narrower == e.narrower
            && r[u].version == (if u in t then t[u].version else 1)
            && r[u].status == (if u in t then t[u].status else "active")
  {
    LastIs(seed, |seed|, i);
    SeededExactly(t, seed, Uri(seed[i].slug));
  }

  lemma {:induction false} NoneLast(seed: seq<SeedEntry>, n: nat, u: string)
    requires n <= |seed| && forall i :: 0 <= i < |seed| ==> u != "http://ailin.dev/cap/v1/" + seed[i].slug
    ensures LastFor(seed, n, u).None?
    decreases n
  {
    if n > 0 { NoneLast(seed, n - 1, u); }
  }

  /** And every other row is as it was, or absent as it was. */
  lemma UnseededUntouched(t: Table, seed: seq<SeedEntry>, u: string)
    requires forall i :: 0 <= i < |seed| ==> u != "http://ailin.dev/cap/v1/" + seed[i].slug
    ensures u in Seeded(t, seed) <==> u in t
    ensures u in t ==> Seeded(t, seed)[u] == t[u]
  {
    SeededExactly(t, seed, u);
    NoneLast(seed, |seed|, u);
  }

  // ---- Crashes ------------------------------------------------------------------------------

  lemma {:induction false} LastForMonotone(seed: seq<SeedEntry>, m: nat, n: nat, u: string)
    requires m <= n <= |seed| && LastFor(seed, m, u).Some?
    ensures LastFor(seed, n, u).Some?
    decreases n
  {
  }

  /** A run stopped after any statement and then repeated in full ends like one that was never
      stopped. */
  lemma CrashThenRerun(t: Table, seed: seq<SeedEntry>, k: nat)
    requires k <= 2 * |seed|
    ensures Seeded(Run(t, seed, k), seed) == Seeded(t, seed)
  {
    var r := Run(t, seed, k);
    var a, b := Seeded(r, seed), Seeded(t, seed);
    forall u ensures Lookup(a, u) == Lookup(b, u) {
      RunRows(t, seed, k, u);
      SeededExactly(r, seed, u);
      SeededExactly(t, seed, u);
      if LastFor(seed, Min(k, |seed|), u).Some? { LastForMonotone(seed, Min(k, |seed|), |seed|, u); }
    }
    assert forall u :: (u in a <==> Lookup(a, u).Some?) && (u in b <==> Lookup(b, u).Some?);
    assert forall u :: u in a ==> Lookup(a, u) == Some(a[u]) && Lookup(b, u) == Some(b[u]);
    assert a == b;
  }

  /** Any number of stopped runs, one after the other. */
  function Interrupted(t: Table, seed: seq<SeedEntry>, stops: seq<nat>): Table {
    if stops == [] then t
    else
      var before := Interrupted(t, seed, stops[..|stops| - 1]);
      var k := stops[|stops| - 1];
      Run(before, seed, Min(k, 2 * |seed|))
  }

  /** However often seeding was interrupted, and wherever, one complete run repairs it; and a
      complete run after a complete run changes nothing. */
  lemma {:induction false} SeedingConverges(t: Table, seed: seq<SeedEntry>, stops: seq<nat>)
    ensures Seeded(Interrupted(t, seed, stops), seed) == Seeded(t, seed)
    ensures Seeded(Seeded(t, seed), seed) == Seeded(t, seed)
    decreases |stops|
  {
    CrashThenRerun(t, seed, 2 * |seed|);
    if stops != [] {
      var before := Interrupted(t, seed, stops[..|stops| - 1]);
      var k := stops[|stops| - 1];
      SeedingConverges(t, seed, stops[..|stops| - 1]);
      CrashThenRerun(before, seed, Min(k, 2 * |seed|));
    }
  }

  /** At every intermediate step the edges of a row that was there before are the old ones or
      those of a seed entry for it: they are never emptied on the way. */
  lemma {:induction false} EdgesNeverEmptied(t: Table, seed: seq<SeedEntry>, k: nat, u: string)
    requires k <= 2 * |seed| && u in t
    ensures var r := Run(t, seed, k);
            && u in r
            && ((r[u].broader == t[u].broader && r[u].narrower == t[u].narrower)
                || exists e :: e in seed && Uri(e.slug) == u && r[u].broader == e.broader
                    && r[u].narrower == e.narrower)
  {
    RunRows(t, seed, k, u);
    var n := k - Min(k, |seed|);
    var edges := LastFor(seed, n, u);
    if edges.Some? {
      assert edges.value in seed[..n] && edges.value in seed;
      var i :| 0 <= i < n && seed[i] == edges.value;
      EntryIsFound(seed, i);
    }
  }

  // ---- The loops ---------------------------------------------------------------------------------

  function EdgeCount(seed: seq<SeedEntry>, n: nat): nat
    requires n <= |seed|
  {
    if n == 0 then 0 else EdgeCount(seed, n - 1) + |seed[n - 1].broader| + |seed[n - 1].narrower|
  }

  class OntologyTable {
    var rows: Table

    constructor (rows: Table)
      ensures this.rows == rows
    {
      this.rows := rows;
    }

    method Query(stmt: Statement)
      modifies this
      ensures rows == Exec(old(rows), stmt)
    {
      rows := Exec(rows, stmt);
    }

    /** Phase one, stopping after `budget` statements. */
    method UpsertRows(seed: seq<SeedEntry>, budget: nat) returns (completed: bool)
      modifies this
      ensures completed <==> budget >= |seed|
      ensures rows == Run(old(rows), seed, Min(budget, |seed|))
    {
      for i := 0 to |seed|
        invariant i <= budget && rows == Run(old(rows), seed, i)
      {
        if i == budget { return false; }
        Query(Upsert(seed[i]));
      }
      return true;
    }

    /** Phase two, stopping after `budget` statements. */
    method RefreshEdges(seed: seq<SeedEntry>, budget: nat, ghost start: Table) returns (completed: bool, edges: nat)
      requires rows == Run(start, seed, |seed|)
      modifies this
      ensures completed <==> budget >= |seed|
      ensures rows == Run(start, seed, |seed| + Min(budget, |seed|))
      ensures completed ==> edges == EdgeCount(seed, |seed|)
    {
      edges := 0;
      for i := 0 to |seed|
        invariant i <= budget && rows == Run(start, seed, |seed| + i)
        invariant edges == EdgeCount(seed, i)
      {
        if i == budget { return false, edges; }
        edges := edges + |seed[i].broader| + |seed[i].narrower|;
        Query(SetEdges(seed[i]));
      }
      return true, edges;
    }

    /** Both phases; stops after `budget` statements if the run is longer than that. */
    method SeedOntology(seed: seq<SeedEntry>, budget: nat) returns (completed: bool, edges: nat)
      modifies this
      ensures completed <==> budget >= 2 * |seed|
      ensures rows == Run(old(rows), seed, Min(budget, 2 * |seed|))
      ensures completed ==> rows == Seeded(old(rows), seed) && edges == EdgeCount(seed, |seed|)
    {
      edges := 0;
      completed := UpsertRows(seed, budget);
      if completed {
        completed, edges := RefreshEdges(seed, budget - |seed|, old(rows));
      }
    }
  }
}
