/** The assertion backfill of hcra-sprint1-bootstrap.ts: delete the rows of earlier runs, then
    page through the models by uid, inserting assertions and updating the projection.  Nothing is
    transactional: a run can stop after any statement. */
module Backfill {
  import opened Collections
  import O = Ontology

  // ---- Tables --------------------------------------------------------------------------

  /** A row of `model_capability_assertions`, without its id and time stamp. */
  datatype Assertion = Assertion(modelUid: string, uri: string, source: string, origin: Option<string>,
                                 confidence: real, ttlDays: nat)

  /** One element of a model's legacy capability list. */
  datatype Legacy = Text(slug: string) | NotText

  /** A row of `models`: the legacy list (`None` if it is not an array) and the projection. */
  datatype Model = Model(capabilities: Option<seq<Legacy>>, uris: seq<string>,
                         sources: map<string, seq<string>>, confidence: map<string, real>)

  datatype Db = Db(assertions: seq<Assertion>, models: map<string, Model>)

  const ORIGIN := "sprint1-backfill"
  const SOURCE := "name-regex"
  const CONFIDENCE: real := 0.2
  const TTL_DAYS := 90
  const BATCH := 500

  predicate Ours(a: Assertion) {
    a.source == SOURCE && a.origin == Some(ORIGIN)
  }

  function Foreign(rows: seq<Assertion>): seq<Assertion> {
    if rows == [] then []
    else Foreign(rows[..|rows| - 1]) + (if Ours(rows[|rows| - 1]) then [] else [rows[|rows| - 1]])
  }

  // ---- One model -----------------------------------------------------------------------

  function TextsOf(items: seq<Legacy>): seq<string> {
    if items == [] then []
    else TextsOf(items[..|items| - 1]) + (if items[|items| - 1].Text? then [items[|items| - 1].slug] else [])
  }

  function Slugs(capabilities: Option<seq<Legacy>>): seq<string> {
    if capabilities.None? then [] else TextsOf(capabilities.value)
  }

  predicate Mapped(mapping: map<string, string>, slug: string) {
    slug in mapping && mapping[slug] != ""
  }

  function UrisOf(mapping: map<string, string>, slugs: seq<string>): seq<string> {
    if slugs == [] then []
    else
      var last := slugs[|slugs| - 1];
      UrisOf(mapping, slugs[..|slugs| - 1]) + (if Mapped(mapping, last) then [mapping[last]] else [])
  }

  function UnmappedOf(mapping: map<string, string>, slugs: seq<string>): multiset<string> {
    if slugs == [] then multiset{}
    else
      var last := slugs[|slugs| - 1];
      UnmappedOf(mapping, slugs[..|slugs| - 1]) + (if Mapped(mapping, last) then multiset{} else multiset{last})
  }

  function ModelUris(mapping: map<string, string>, m: Model): seq<string> {
    UrisOf(mapping, Slugs(m.capabilities))
  }

  function NewRows(uid: string, uris: seq<string>): seq<Assertion> {
    seq(|uris|, i requires 0 <= i < |uris| => Assertion(uid, uris[i], SOURCE, Some(ORIGIN), CONFIDENCE, TTL_DAYS))
  }

  function Projected(m: Model, uris: seq<string>): Model {
    m.(uris := uris, sources := map u | u in uris :: [SOURCE], confidence := map u | u in uris :: CONFIDENCE)
  }

  // ---- Statements ------------------------------------------------------------------------

  datatype Statement = DeleteOld | InsertRows(uid: string, uris: seq<string>) | Project(uid: string, uris: seq<string>)

  function Exec(db: Db, stmt: Statement): Db {
    match stmt
    case DeleteOld => db.(assertions := Foreign(db.assertions))
    case InsertRows(uid, uris) => db.(assertions := db.assertions + NewRows(uid, uris))
    case Project(uid, uris) =>
      if uid in db.models then db.(models := db.models[uid := Projected(db.models[uid], uris)]) else db
  }

  function Run(db: Db, stmts: seq<Statement>): Db {
    if stmts == [] then db else Exec(Run(db, stmts[..|stmts| - 1]), stmts[|stmts| - 1])
  }

  function ModelPlan(mapping: map<string, string>, uid: string, m: Model): seq<Statement> {
    var uris := ModelUris(mapping, m);
    if uris == [] then [] else [InsertRows(uid, uris), Project(uid, uris)]
  }

  /** `order` is the list of model uids in the order of the paged query. */
  ghost predicate Listing(order: seq<string>, models: map<string, Model>) {
    Distinct(order) && forall u :: u in order <==> u in models
  }

  /** The statements of a run up to and including the first `n` models. */
  function Plan(mapping: map<string, string>, order: seq<string>, models: map<string, Model>, n: nat): seq<Statement>
    requires n <= |order| && forall u :: u in order ==> u in models
  {
    if n == 0 then [DeleteOld]
    else Plan(mapping, order, models, n - 1) + ModelPlan(mapping, order[n - 1], models[order[n - 1]])
  }

  // ---- What a complete run leaves behind ----------------------------------------------------

  function RowsUpTo(mapping: map<string, string>, order: seq<string>, models: map<string, Model>,
                    n: nat): seq<Assertion>
    requires n <= |order| && forall u :: u in order ==> u in models
  {
    if n == 0 then []
    else RowsUpTo(mapping, order, models, n - 1) + NewRows(order[n - 1], ModelUris(mapping, models[order[n - 1]]))
  }

  /** The model row after its turn. */
  function Refreshed(mapping: map<string, string>, m: Model): Model {
    if ModelUris(mapping, m) == [] then m else Projected(m, ModelUris(mapping, m))
  }

  function ModelsUpTo(mapping: map<string, string>, order: seq<string>, models: map<string, Model>,
                      n: nat): map<string, Model>
    requires n <= |order|
  {
    map u | u in models :: if u in order[..n] then Refreshed(mapping, models[u]) else models[u]
  }

  lemma {:induction false} RunAppend(db: Db, a: seq<Statement>, b: seq<Statement>)
    ensures Run(db, a + b) == Run(Run(db, a), b)
    decreases |b|
  {
    if b == [] {
      assert a + b == a;
    } else {
      assert (a + b)[..|a + b| - 1] == a + b[..|b| - 1];
      RunAppend(db, a, b[..|b| - 1]);
    }
  }

  lemma RunsJoin(db: Db, a: seq<Statement>, b: seq<Statement>, mid: Db, end: Db)
    requires Run(db, a) == mid && Run(mid, b) == end
    ensures Run(db, a + b) == end
  {
    RunAppend(db, a, b);
  }

  lemma RunPair(db: Db, s: Statement, t: Statement)
    ensures Run(db, [s, t]) == Exec(Exec(db, s), t)
  {
    assert [s, t][..1] == [s] && [s][..0] == [];
    assert Run(db, []) == db;
    assert Run(db, [s]) == Exec(db, s);
  }

  /** The effect of one model's statements. */
  lemma ModelPlanEffect(mapping: map<string, string>, uid: string, m: Model, db: Db)
    requires uid in db.models && db.models[uid] == m
    ensures Run(db, ModelPlan(mapping, uid, m)) ==
            Db(db.assertions + NewRows(uid, ModelUris(mapping, m)), db.models[uid := Refreshed(mapping, m)])
  {
    var uris := ModelUris(mapping, m);
    if uris == [] {
      assert db.assertions + NewRows(uid, uris) == db.assertions;
      assert db.models[uid := m] == db.models;
    } else {
      RunPair(db, InsertRows(uid, uris), Project(uid, uris));
    }
  }

  lemma ModelsStep(mapping: map<string, string>, order: seq<string>, models: map<string, Model>, n: nat)
    requires Listing(order, models) && n < |order|
    ensures ModelsUpTo(mapping, order, models, n + 1)
         == ModelsUpTo(mapping, order, models, n)[order[n] := Refreshed(mapping, models[order[n]])]
    ensures order[n] in models && ModelsUpTo(mapping, order, models, n)[order[n]] == models[order[n]]
  {
  }

  /** The database after the delete and the turns of the first `n` models. */
  function Expected(mapping: map<string, string>, order: seq<string>, db: Db, n: nat): Db
    requires n <= |order| && forall u :: u in order ==> u in db.models
  {
    Db(Foreign(db.assertions) + RowsUpTo(mapping, order, db.models, n), ModelsUpTo(mapping, order, db.models, n))
  }

  lemma ExpectedStep(mapping: map<string, string>, order: seq<string>, db: Db, n: nat)
    requires Listing(order, db.models) && n < |order|
    ensures order[n] in db.models
    ensures Run(Expected(mapping, order, db, n), ModelPlan(mapping, order[n], db.models[order[n]]))
         == Expected(mapping, order, db, n + 1)
  {
    hide ModelUris, Foreign, Refreshed, NewRows, ModelPlan;
    ModelsStep(mapping, order, db.models, n);
    var e := Expected(mapping, order, db, n);
    var rows := NewRows(order[n], ModelUris(mapping, db.models[order[n]]));
    ModelPlanEffect(mapping, order[n], db.models[order[n]], e);
    assert e.assertions + rows == Foreign(db.assertions) + (RowsUpTo(mapping, order, db.models, n) + rows);
  }

  lemma DeleteEffect(mapping: map<string, string>, order: seq<string>, db: Db)
    requires forall u :: u in order ==> u in db.models
    ensures Run(db, [DeleteOld]) == Expected(mapping, order, db, 0)
  {
  }

  /** The statements of a run up to a model compute exactly that. */
  lemma {:induction false} PlanEffect(mapping: map<string, string>, order: seq<string>, db: Db, n: nat)
    requires Listing(order, db.models) && n <= |order|
    ensures Run(db, Plan(mapping, order, db.models, n)) == Expected(mapping, order, db, n)
    decreases n
  {
    hide ModelUris, Foreign, ModelPlan, Refreshed, NewRows, ModelsUpTo, RowsUpTo, Run, Expected;
    if n == 0 {
      DeleteEffect(mapping, order, db);
    } else {
      var done, turn := Plan(mapping, order, db.models, n - 1),
          ModelPlan(mapping, order[n - 1], db.models[order[n - 1]]);
      var mid, end := Expected(mapping, order, db, n - 1), Expected(mapping, order, db, n);
      assert Run(db, done) == mid by { PlanEffect(mapping, order, db, n - 1); }
      assert Run(mid, turn) == end by { ExpectedStep(mapping, order, db, n - 1); }
      assert Run(db, done + turn) == end by { RunsJoin(db, done, turn, mid, end); }
    }
  }

  function FullPlan(mapping: map<string, string>, order: seq<string>, models: map<string, Model>): seq<Statement>
    requires forall u :: u in order ==> u in models
  {
    Plan(mapping, order, models, |order|)
  }

  function Backfilled(mapping: map<string, string>, order: seq<string>, db: Db): Db
    requires forall u :: u in order ==> u in db.models
  {
    Run(db, FullPlan(mapping, order, db.models))
  }

  // ---- Crashes -----------------------------------------------------------------------------------

  /** `r` differs from `db` in rows of earlier backfills and in projections the next run rewrites. */
  ghost predicate Resumable(mapping: map<string, string>, db: Db, r: Db) {
    && Foreign(r.assertions) == Foreign(db.assertions)
    && r.models.Keys == db.models.Keys
    && (forall u :: u in db.models ==>
          && r.models[u].capabilities == db.models[u].capabilities
          && (ModelUris(mapping, db.models[u]) == [] ==> r.models[u] == db.models[u]))
  }

  lemma {:induction false} ForeignAppend(a: seq<Assertion>, b: seq<Assertion>)
    ensures Foreign(a + b) == Foreign(a) + Foreign(b)
    decreases |b|
  {
    if b == [] {
      assert a + b == a;
    } else {
      assert (a + b)[..|a + b| - 1] == a + b[..|b| - 1];
      ForeignAppend(a, b[..|b| - 1]);
    }
  }

  lemma {:induction false} ForeignOfOurs(rows: seq<Assertion>)
    requires forall i :: 0 <= i < |rows| ==> Ours(rows[i])
    ensures Foreign(rows) == []
    decreases |rows|
  {
    if rows != [] { ForeignOfOurs(rows[..|rows| - 1]); }
  }

  lemma {:induction false} ForeignForeign(rows: seq<Assertion>)
    ensures Foreign(Foreign(rows)) == Foreign(rows)
    ensures forall i :: 0 <= i < |Foreign(rows)| ==> !Ours(Foreign(rows)[i])
    decreases |rows|
  {
    if rows != [] {
      var front, last := rows[..|rows| - 1], rows[|rows| - 1];
      ForeignForeign(front);
      if !Ours(last) {
        ForeignAppend(Foreign(front), [last]);
        assert [last][..0] == [];
        assert Foreign([last]) == Foreign([]) + [last] == [last];
        assert Foreign(rows) == Foreign(front) + [last];
      } else {
        assert Foreign(rows) == Foreign(front);
      }
    }
  }

  /** Any statement of the plan keeps the database resumable. */
  lemma ExecResumable(mapping: map<string, string>, db: Db, r: Db, stmt: Statement)
    requires Resumable(mapping, db, r)
    requires !stmt.DeleteOld? ==> stmt.uid in db.models && stmt.uris == ModelUris(mapping, db.models[stmt.uid]) != []
    ensures Resumable(mapping, db, Exec(r, stmt))
  {
    match stmt
    case DeleteOld => ForeignForeign(r.assertions);
    case InsertRows(uid, uris) =>
      ForeignAppend(r.assertions, NewRows(uid, uris));
      ForeignOfOurs(NewRows(uid, uris));
    case Project(uid, uris) =>
  }

  lemma {:induction false} PlanStatements(mapping: map<string, string>, order: seq<string>, models: map<string, Model>,
                                          n: nat, k: nat)
    requires Listing(order, models) && n <= |order| && k < |Plan(mapping, order, models, n)|
    ensures var stmt := Plan(mapping, order, models, n)[k];
            !stmt.DeleteOld? ==> stmt.uid in models && stmt.uris == ModelUris(mapping, models[stmt.uid]) != []
    decreases n
  {
    hide ModelUris;
    if n > 0 && k < |Plan(mapping, order, models, n - 1)| {
      PlanStatements(mapping, order, models, n - 1, k);
    }
  }

  lemma {:induction false} PrefixResumable(mapping: map<string, string>, order: seq<string>, db: Db, k: nat)
    requires Listing(order, db.models) && k <= |FullPlan(mapping, order, db.models)|
    ensures Resumable(mapping, db, Run(db, FullPlan(mapping, order, db.models)[..k]))
    decreases k
  {
    var p := FullPlan(mapping, order, db.models);
    if k > 0 {
      PrefixResumable(mapping, order, db, k - 1);
      assert p[..k][..k - 1] == p[..k - 1];
      PlanStatements(mapping, order, db.models, |order|, k - 1);
      ExecResumable(mapping, db, Run(db, p[..k - 1]), p[k - 1]);
    }
  }

  lemma {:induction false} SameRows(mapping: map<string, string>, order: seq<string>, a: map<string, Model>,
                                    b: map<string, Model>, n: nat)
    requires n <= |order| && (forall u :: u in order ==> u in a && u in b && a[u].capabilities == b[u].capabilities)
    ensures RowsUpTo(mapping, order, a, n) == RowsUpTo(mapping, order, b, n)
    decreases n
  {
    if n > 0 { SameRows(mapping, order, a, b, n - 1); }
  }

  lemma SameModels(mapping: map<string, string>, order: seq<string>, db: Db, r: Db)
    requires Listing(order, db.models) && Resumable(mapping, db, r)
    ensures ModelsUpTo(mapping, order, r.models, |order|) == ModelsUpTo(mapping, order, db.models, |order|)
  {
  }

  lemma ResumableOutcome(mapping: map<string, string>, order: seq<string>, db: Db, r: Db)
    requires Listing(order, db.models) && Resumable(mapping, db, r)
    ensures Listing(order, r.models) && Backfilled(mapping, order, r) == Backfilled(mapping, order, db)
  {
    assert forall u :: u in r.models <==> u in r.models.Keys;
    assert forall u :: u in db.models <==> u in db.models.Keys;
    PlanEffect(mapping, order, r, |order|);
    PlanEffect(mapping, order, db, |order|);
    SameRows(mapping, order, r.models, db.models, |order|);
    SameModels(mapping, order, db, r);
  }

  /** A run stopped after any statement, even right after the delete, and then repeated in full
      ends with the same assertions and projections as one that was never stopped. */
  lemma CrashThenRerun(mapping: map<string, string>, order: seq<string>, db: Db, k: nat)
    requires Listing(order, db.models) && k <= |FullPlan(mapping, order, db.models)|
    ensures var r := Run(db, FullPlan(mapping, order, db.models)[..k]);
            Listing(order, r.models) && Backfilled(mapping, order, r) == Backfilled(mapping, order, db)
  {
    PrefixResumable(mapping, order, db, k);
    ResumableOutcome(mapping, order, db, Run(db, FullPlan(mapping, order, db.models)[..k]));
  }

  ghost predicate StoppedRun(mapping: map<string, string>, order: seq<string>, db: Db, r: Db) {
    && Listing(order, db.models)
    && exists k: nat :: && k <= |FullPlan(mapping, order, db.models)|
                        && r == Run(db, FullPlan(mapping, order, db.models)[..k])
  }

  /** A chain of runs on the same models, each stopped after some statement. */
  ghost predicate InterruptedRuns(mapping: map<string, string>, order: seq<string>, dbs: seq<Db>) {
    && |dbs| > 0
    && (forall i :: 0 <= i < |dbs| ==> Listing(order, dbs[i].models))
    && forall i :: 0 <= i < |dbs| - 1 ==> StoppedRun(mapping, order, dbs[i], dbs[i + 1])
  }

  lemma StoppedOutcome(mapping: map<string, string>, order: seq<string>, db: Db, r: Db)
    requires StoppedRun(mapping, order, db, r)
    ensures Listing(order, r.models) && Backfilled(mapping, order, r) == Backfilled(mapping, order, db)
  {
    var k: nat :| k <= |FullPlan(mapping, order, db.models)| && r == Run(db, FullPlan(mapping, order, db.models)[..k]);
    CrashThenRerun(mapping, order, db, k);
  }

  /** After any number of stopped runs, one complete run reaches what the first would have. */
  lemma {:induction false} BackfillConverges(mapping: map<string, string>, order: seq<string>, dbs: seq<Db>)
    requires InterruptedRuns(mapping, order, dbs)
    ensures Backfilled(mapping, order, dbs[|dbs| - 1]) == Backfilled(mapping, order, dbs[0])
    decreases |dbs|
  {
    hide Plan, Exec, Run, Listing, Backfilled;
    if |dbs| > 1 {
      var n := |dbs| - 1;
      BackfillConverges(mapping, order, dbs[..n]);
      assert StoppedRun(mapping, order, dbs[n - 1], dbs[n]);
      StoppedOutcome(mapping, order, dbs[n - 1], dbs[n]);
    }
  }

  /** Rows of other origins or sources stay as they are, in their order, at every moment. */
  lemma ForeignRowsKept(mapping: map<string, string>, order: seq<string>, db: Db, k: nat)
    requires Listing(order, db.models) && k <= |FullPlan(mapping, order, db.models)|
    ensures Foreign(Run(db, FullPlan(mapping, order, db.models)[..k]).assertions) == Foreign(db.assertions)
  {
    PrefixResumable(mapping, order, db, k);
  }

  // ---- Counting ------------------------------------------------------------------------------

  /** What the run reports; `unmapped` counts slugs by occurrence. */
  datatype Stats = Stats(processed: nat, skipped: nat, written: nat, unmapped: multiset<string>)

  function ModelStats(mapping: map<string, string>, m: Model): Stats {
    var uris := ModelUris(mapping, m);
    Stats(if uris == [] then 0 else 1, if uris == [] then 1 else 0, |uris|, UnmappedOf(mapping, Slugs(m.capabilities)))
  }

  function StatsUpTo(mapping: map<string, string>, order: seq<string>, models: map<string, Model>, n: nat): Stats
    requires n <= |order| && forall u :: u in order ==> u in models
  {
    if n == 0 then Stats(0, 0, 0, multiset{})
    else
      var a, b := StatsUpTo(mapping, order, models, n - 1), ModelStats(mapping, models[order[n - 1]]);
      Stats(a.processed + b.processed, a.skipped + b.skipped, a.written + b.written, a.unmapped + b.unmapped)
  }

  function TotalSlugs(order: seq<string>, models: map<string, Model>, n: nat): nat
    requires n <= |order| && forall u :: u in order ==> u in models
  {
    if n == 0 then 0 else TotalSlugs(order, models, n - 1) + |Slugs(models[order[n - 1]].capabilities)|
  }

  lemma {:induction false} SlugsSplit(mapping: map<string, string>, slugs: seq<string>)
    ensures |UrisOf(mapping, slugs)| + |UnmappedOf(mapping, slugs)| == |slugs|
    decreases |slugs|
  {
    if slugs != [] { SlugsSplit(mapping, slugs[..|slugs| - 1]); }
  }

  /** Nothing is counted twice or lost: every model is processed or skipped, every legacy slug is
      written as an assertion or reported as unmapped. */
  lemma {:induction false} StatsConserve(mapping: map<string, string>, order: seq<string>, models: map<string, Model>,
                                         n: nat)
    requires n <= |order| && forall u :: u in order ==> u in models
    ensures var s := StatsUpTo(mapping, order, models, n);
            && s.processed + s.skipped == n
            && s.written + |s.unmapped| == TotalSlugs(order, models, n)
            && s.written == |RowsUpTo(mapping, order, models, n)|
    decreases n
  {
    hide Slugs, UrisOf, UnmappedOf;
    if n > 0 {
      StatsConserve(mapping, order, models, n - 1);
      SlugsSplit(mapping, Slugs(models[order[n - 1]].capabilities));
    }
  }

  // ---- After seeding, no insert dangles --------------------------------------------------------

  /** LEGACY_CAPABILITY_TO_URI of seed.ts. */
  function LegacyMapping(seed: seq<O.SeedEntry>): map<string, string> {
    map e | e in seed :: e.slug := O.Uri(e.slug)
  }

  lemma {:induction false} UrisAreMapped(mapping: map<string, string>, slugs: seq<string>, u: string)
    requires u in UrisOf(mapping, slugs)
    ensures exists slug :: slug in mapping && mapping[slug] == u
    decreases |slugs|
  {
    var last := slugs[|slugs| - 1];
    if u in UrisOf(mapping, slugs[..|slugs| - 1]) {
      UrisAreMapped(mapping, slugs[..|slugs| - 1], u);
    } else {
      assert last in mapping && mapping[last] == u;
    }
  }

  /** Every uri the backfill inserts for a model has a row in the ontology once seeding completed,
      however the seeding was interrupted before: the foreign key never refuses an insert. */
  lemma SeededUrisExist(t: O.Table, seed: seq<O.SeedEntry>, m: Model, u: string)
    requires u in ModelUris(LegacyMapping(seed), m)
    ensures u in O.Seeded(t, seed)
  {
    UrisAreMapped(LegacyMapping(seed), Slugs(m.capabilities), u);
    var slug :| slug in LegacyMapping(seed) && LegacyMapping(seed)[slug] == u;
    var e :| e in seed && e.slug == slug;
    var i :| 0 <= i < |seed| && seed[i] == e;
    O.EntryIsFound(seed, i);
    O.SeededExactly(t, seed, u);
  }

  // ---- The loops -----------------------------------------------------------------------------

  class Database {
    var assertions: seq<Assertion>
    var models: map<string, Model>

    ghost function Contents(): Db
      reads this
    {
      Db(assertions, models)
    }

    constructor (assertions: seq<Assertion>, models: map<string, Model>)
      ensures Contents() == Db(assertions, models)
    {
      this.assertions, this.models := assertions, models;
    }

    method Query(stmt: Statement)
      modifies this
      ensures Contents() == Exec(old(Contents()), stmt)
    {
      var db := Exec(Db(assertions, models), stmt);
      assertions, models := db.assertions, db.models;
    }
  }

  /** The string slugs of a model, their uris and the unmapped ones, in one pass each. */
  method Classify(mapping: map<string, string>, m: Model)
    returns (legacy: seq<string>, uris: seq<string>, unmapped: multiset<string>)
    ensures legacy == Slugs(m.capabilities) && uris == ModelUris(mapping, m) && unmapped == UnmappedOf(mapping, legacy)
  {
    legacy, uris, unmapped := [], [], multiset{};
    if m.capabilities.Some? {
      var items := m.capabilities.value;
      for i := 0 to |items|
        invariant legacy == TextsOf(items[..i])
      {
        assert items[..i + 1][..i] == items[..i];
        if items[i].Text? { legacy := legacy + [items[i].slug]; }
      }
      assert items[..|items|] == items;
    }
    for i := 0 to |legacy|
      invariant uris == UrisOf(mapping, legacy[..i]) && unmapped == UnmappedOf(mapping, legacy[..i])
    {
      assert legacy[..i + 1][..i] == legacy[..i];
      if !Mapped(mapping, legacy[i]) {
        unmapped := unmapped + multiset{legacy[i]};
      } else {
        uris := uris + [mapping[legacy[i]]];
      }
    }
    assert legacy[..|legacy|] == legacy;
  }

  /** Where a run stands after the first `i` models, with `left` statements to go before it is
      stopped. */
  ghost predicate StandsAt(mapping: map<string, string>, order: seq<string>, start: Db, db: Db, i: nat,
                           stats: Stats, budget: nat, left: nat) {
    && Listing(order, start.models) && i <= |order|
    && db == Run(start, Plan(mapping, order, start.models, i))
    && stats == StatsUpTo(mapping, order, start.models, i)
    && budget == |Plan(mapping, order, start.models, i)| + left
  }

  lemma TurnOver(mapping: map<string, string>, order: seq<string>, start: Db, db: Db, i: nat, stats: Stats,
                 budget: nat, left: nat)
    requires StandsAt(mapping, order, start, db, i, stats, budget, left) && i < |order|
    ensures order[i] in start.models && order[i] in db.models
    ensures db.models[order[i]] == start.models[order[i]]
  {
    PlanEffect(mapping, order, start, i);
    ModelsStep(mapping, order, start.models, i);
  }

  /** A model's turn leads to the next position, if the budget lasts. */
  lemma TurnEnds(mapping: map<string, string>, order: seq<string>, start: Db, db: Db, i: nat, stats: Stats,
                 budget: nat, left: nat)
    requires StandsAt(mapping, order, start, db, i, stats, budget, left) && i < |order| && order[i] in start.models
    ensures var p, b := ModelPlan(mapping, order[i], start.models[order[i]]),
        ModelStats(mapping, start.models[order[i]]);
            left >= |p| ==> StandsAt(mapping, order, start, Run(db, p), i + 1,
              Stats(stats.processed + b.processed, stats.skipped + b.skipped, stats.written + b.written,
                  stats.unmapped + b.unmapped),
              budget, left - |p|)
  {
    RunAppend(start, Plan(mapping, order, start.models, i), ModelPlan(mapping, order[i], start.models[order[i]]));
  }

  lemma {:induction false} PlanPrefix(mapping: map<string, string>, order: seq<string>, models: map<string, Model>,
                                      i: nat, n: nat)
    requires i <= n <= |order| && forall u :: u in order ==> u in models
    ensures Plan(mapping, order, models, i) <= Plan(mapping, order, models, n)
    decreases n
  {
    hide ModelPlan;
    if i < n { PlanPrefix(mapping, order, models, i, n - 1); }
  }

  /** Stopped inside a model's turn: the statements done are a prefix of the plan. */
  lemma StoppedInTurn(mapping: map<string, string>, order: seq<string>, start: Db, db: Db, i: nat, stats: Stats,
                      budget: nat, left: nat)
    requires StandsAt(mapping, order, start, db, i, stats, budget, left) && i < |order|
    requires order[i] in start.models && left < |ModelPlan(mapping, order[i], start.models[order[i]])|
    ensures budget < |FullPlan(mapping, order, start.models)|
    ensures Run(db, ModelPlan(mapping, order[i], start.models[order[i]])[..left])
         == Run(start, FullPlan(mapping, order, start.models)[..budget])
  {
    hide ModelPlan, Run, StatsUpTo;
    var done, turn := Plan(mapping, order, start.models, i), ModelPlan(mapping, order[i], start.models[order[i]]);
    RunAppend(start, done, turn[..left]);
    PlanPrefix(mapping, order, start.models, i + 1, |order|);
    var full := FullPlan(mapping, order, start.models);
    assert full[..|done + turn|] == done + turn;
    assert full[..budget] == (done + turn)[..budget] == done + turn[..left];
  }

  /** One model: insert its assertions, then update its projection. */
  method BackfillModel(d: Database, mapping: map<string, string>, uid: string, m: Model, stats: Stats, left: nat)
    returns (next: Stats, rest: nat, stopped: bool)
    modifies d
    ensures var p, b := ModelPlan(mapping, uid, m), ModelStats(mapping, m);
            && stopped == (left < |p|)
            && d.Contents() == Run(old(d.Contents()), p[..if stopped then left else |p|])
            && (!stopped ==>
                  && rest == left - |p|
                  && next == Stats(stats.processed + b.processed, stats.skipped + b.skipped,
                                   stats.written + b.written, stats.unmapped + b.unmapped))
  {
    var legacy, uris, unmapped := Classify(mapping, m);
    next := stats.(unmapped := stats.unmapped + unmapped);
    if uris == [] {
      return next.(skipped := next.skipped + 1), left, false;
    }
    ghost var p := ModelPlan(mapping, uid, m);
    assert p[..0] == [] && p[..1] == [p[0]] && p[..2] == p;
    assert [p[0]][..0] == [] && Run(d.Contents(), []) == d.Contents();
    if left == 0 { return next, 0, true; }
    d.Query(InsertRows(uid, uris));
    assert d.Contents() == Run(old(d.Contents()), [p[0]]);
    if left == 1 { return next, 0, true; }
    d.Query(Project(uid, uris));
    RunPair(old(d.Contents()), p[0], p[1]);
    return next.(processed := next.processed + 1, written := next.written + |uris|), left - 2, false;
  }

  /** The run ended early: what was done is a proper prefix of the plan. */
  ghost predicate Stopped(mapping: map<string, string>, order: seq<string>, start: Db, db: Db, budget: nat) {
    && Listing(order, start.models)
    && budget < |FullPlan(mapping, order, start.models)|
    && db == Run(start, FullPlan(mapping, order, start.models)[..budget])
  }

  /** One turn of the loop over a page. */
  method Turn(d: Database, mapping: map<string, string>, uid: string, stats: Stats, left: nat,
              ghost order: seq<string>, ghost start: Db, ghost i: nat, ghost budget: nat)
    returns (next: Stats, rest: nat, stopped: bool)
    requires StandsAt(mapping, order, start, d.Contents(), i, stats, budget, left) && i < |order| && uid == order[i]
    modifies d
    ensures !stopped ==> StandsAt(mapping, order, start, d.Contents(), i + 1, next, budget, rest)
    ensures stopped ==> Stopped(mapping, order, start, d.Contents(), budget)
  {
    TurnOver(mapping, order, start, d.Contents(), i, stats, budget, left);
    TurnEnds(mapping, order, start, d.Contents(), i, stats, budget, left);
    var m := d.models[uid];
    ghost var plan := ModelPlan(mapping, uid, m);
    if left < |plan| {
      StoppedInTurn(mapping, order, start, d.Contents(), i, stats, budget, left);
    }
    assert plan[..|plan|] == plan;
    next, rest, stopped := BackfillModel(d, mapping, uid, m, stats, left);
  }

  lemma Begins(mapping: map<string, string>, order: seq<string>, start: Db, budget: nat)
    requires Listing(order, start.models)
    ensures budget == 0 ==> Stopped(mapping, order, start, start, budget)
    ensures budget > 0 ==>
              StandsAt(mapping, order, start, Exec(start, DeleteOld), 0, Stats(0, 0, 0, multiset{}), budget, budget - 1)
  {
    var full := FullPlan(mapping, order, start.models);
    PlanPrefix(mapping, order, start.models, 0, |order|);
    assert full[..0] == [] && Run(start, []) == start;
    assert [DeleteOld][..0] == [];
    assert Run(start, [DeleteOld]) == Exec(start, DeleteOld);
  }

  /** One page of the query, in its order. */
  method BackfillPage(d: Database, mapping: map<string, string>, page: seq<string>, before: Stats, allowed: nat,
                      ghost order: seq<string>, ghost start: Db, ghost offset: nat, ghost budget: nat)
    returns (stats: Stats, left: nat, stopped: bool)
    requires StandsAt(mapping, order, start, d.Contents(), offset, before, budget, allowed)
    requires offset + |page| <= |order| && page == order[offset..offset + |page|]
    modifies d
    ensures !stopped ==> StandsAt(mapping, order, start, d.Contents(), offset + |page|, stats, budget, left)
    ensures stopped ==> Stopped(mapping, order, start, d.Contents(), budget)
  {
    hide StandsAt, Stopped;
    stats, left, stopped := before, allowed, false;
    for r := 0 to |page|
      invariant StandsAt(mapping, order, start, d.Contents(), offset + r, stats, budget, left)
    {
      stats, left, stopped := Turn(d, mapping, page[r], stats, left, order, start, offset + r, budget);
      if stopped { return; }
    }
    stopped := false;
  }

  lemma Finishes(mapping: map<string, string>, order: seq<string>, start: Db, db: Db, stats: Stats, budget: nat,
                 left: nat)
    requires StandsAt(mapping, order, start, db, |order|, stats, budget, left)
    ensures db == Backfilled(mapping, order, start)
    ensures stats == StatsUpTo(mapping, order, start.models, |order|)
    ensures budget >= |FullPlan(mapping, order, start.models)|
  {
  }

  /** The whole run over pages of `BATCH` models, stopped after `budget` statements if it is longer.
      `order` stands for the order of the query. */
  method Backfill(d: Database, mapping: map<string, string>, order: seq<string>, budget: nat)
    returns (stats: Stats, completed: bool)
    requires Listing(order, d.models)
    modifies d
    ensures completed ==> d.Contents() == Backfilled(mapping, order, old(d.Contents()))
    ensures completed ==> stats == StatsUpTo(mapping, order, old(d.models), |order|)
    ensures completed ==> budget >= |FullPlan(mapping, order, old(d.models))|
    ensures !completed ==> Stopped(mapping, order, old(d.Contents()), d.Contents(), budget)
  {
    hide StandsAt, Stopped;
    ghost var start := d.Contents();
    stats := Stats(0, 0, 0, multiset{});
    Begins(mapping, order, start, budget);
    if budget == 0 { return stats, false; }
    d.Query(DeleteOld);
    var left: nat := budget - 1;
    var offset := 0;
    while true
      invariant offset <= |order|
      invariant StandsAt(mapping, order, start, d.Contents(), offset, stats, budget, left)
      decreases |order| - offset
    {
      var page := order[offset..if offset + BATCH <= |order| then offset + BATCH else |order|];
      if |page| == 0 { break; }
      var stopped;
      stats, left, stopped := BackfillPage(d, mapping, page, stats, left, order, start, offset, budget);
      if stopped { return stats, false; }
      offset := offset + |page|;
      if |page| < BATCH { break; }
    }
    Finishes(mapping, order, start, d.Contents(), stats, budget, left);
    return stats, true;
  }
}
