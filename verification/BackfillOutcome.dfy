/** What a complete backfill leaves behind, row by row and model by model, read off the models'
    capability lists. */
module BackfillOutcome {
  import opened Collections
  import opened Backfill
  import O = Ontology

  // ---- Capability lists ------------------------------------------------------------------

  function ItemsOf(m: Model): seq<Legacy> {
    if m.capabilities.Some? then m.capabilities.value else []
  }

  /** The element is a string slug that the mapping takes to `u`. */
  predicate MapsTo(mapping: map<string, string>, item: Legacy, u: string) {
    item.Text? && item.slug in mapping && mapping[item.slug] == u && u != ""
  }

  predicate IsMapped(mapping: map<string, string>, item: Legacy) {
    item.Text? && item.slug in mapping && mapping[item.slug] != ""
  }

  /** How many elements of the list map to `u`. */
  function Occurrences(mapping: map<string, string>, items: seq<Legacy>, u: string): nat {
    |set i | 0 <= i < |items| && MapsTo(mapping, items[i], u)|
  }

  /** `uris` are the mapped elements' uris, in the order of the list; `at` are their positions. */
  ghost predicate InListOrder(mapping: map<string, string>, items: seq<Legacy>, uris: seq<string>, at: seq<nat>) {
    && |at| == |uris|
    && (forall j :: 0 <= j < |at| ==> at[j] < |items| && MapsTo(mapping, items[at[j]], uris[j]))
    && (forall j, k :: 0 <= j < k < |at| ==> at[j] < at[k])
    && (forall i :: 0 <= i < |items| && IsMapped(mapping, items[i]) ==> i in at)
  }

  lemma UrisStep(mapping: map<string, string>, front: seq<Legacy>, last: Legacy)
    ensures UrisOf(mapping, TextsOf(front + [last])) ==
            UrisOf(mapping, TextsOf(front)) + (if IsMapped(mapping, last) then [mapping[last.slug]] else [])
  {
    assert (front + [last])[..|front|] == front;
    if last.Text? {
      var texts := TextsOf(front);
      assert (texts + [last.slug])[..|texts|] == texts;
      assert TextsOf(front + [last]) == texts + [last.slug];
    } else {
      assert TextsOf(front + [last]) == TextsOf(front);
    }
  }

  lemma {:induction false} UrisInListOrder(mapping: map<string, string>, items: seq<Legacy>) returns (at: seq<nat>)
    ensures InListOrder(mapping, items, UrisOf(mapping, TextsOf(items)), at)
    decreases |items|
  {
    if items == [] {
      at := [];
    } else {
      var n := |items| - 1;
      var front, last := items[..n], items[n];
      at := UrisInListOrder(mapping, front);
      UrisStep(mapping, front, last);
      assert items == front + [last];
      if IsMapped(mapping, last) { at := at + [n]; }
    }
  }

  lemma OccurrencesStep(mapping: map<string, string>, front: seq<Legacy>, last: Legacy, u: string)
    ensures Occurrences(mapping, front + [last], u) ==
            Occurrences(mapping, front, u) + (if MapsTo(mapping, last, u) then 1 else 0)
  {
    var items, n := front + [last], |front|;
    var before := set i | 0 <= i < n && MapsTo(mapping, front[i], u);
    var after := set i | 0 <= i < |items| && MapsTo(mapping, items[i], u);
    assert after == before + (if MapsTo(mapping, last, u) then {n} else {});
  }

  lemma {:induction false} UrisCount(mapping: map<string, string>, items: seq<Legacy>, u: string)
    ensures multiset(UrisOf(mapping, TextsOf(items)))[u] == Occurrences(mapping, items, u)
    decreases |items|
  {
    if items != [] {
      var front, last := items[..|items| - 1], items[|items| - 1];
      assert items == front + [last];
      UrisCount(mapping, front, u);
      UrisStep(mapping, front, last);
      OccurrencesStep(mapping, front, last, u);
    }
  }

  lemma ModelUrisAre(mapping: map<string, string>, m: Model)
    ensures ModelUris(mapping, m) == UrisOf(mapping, TextsOf(ItemsOf(m)))
  {
  }

  // ---- Rows ---------------------------------------------------------------------------------

  /** The row carries the source and the origin of the backfill. */
  predicate FromBackfill(a: Assertion) {
    a.source == "name-regex" && a.origin == Some("sprint1-backfill")
  }

  predicate Shape(a: Assertion) {
    FromBackfill(a) && a.confidence == 0.2 && a.ttlDays == 90
  }

  lemma {:induction false} CountForeign(rows: seq<Assertion>, a: Assertion)
    ensures multiset(Foreign(rows))[a] == if FromBackfill(a) then 0 else multiset(rows)[a]
    decreases |rows|
  {
    if rows != [] {
      var front, last := rows[..|rows| - 1], rows[|rows| - 1];
      assert rows == front + [last];
      CountForeign(front, a);
    }
  }

  lemma {:induction false} CountNewRows(uid: string, uris: seq<string>, a: Assertion)
    ensures multiset(NewRows(uid, uris))[a] == if Shape(a) && a.modelUid == uid then multiset(uris)[a.uri] else 0
    decreases |uris|
  {
    if uris != [] {
      var front, last := uris[..|uris| - 1], uris[|uris| - 1];
      assert uris == front + [last];
      CountNewRows(uid, front, a);
      assert NewRows(uid, uris) == NewRows(uid, front) + [NewRows(uid, uris)[|uris| - 1]];
    }
  }

  lemma {:induction false} CountRows(mapping: map<string, string>, order: seq<string>, models: map<string, Model>,
                                     n: nat, a: Assertion)
    requires Listing(order, models) && n <= |order|
    ensures multiset(RowsUpTo(mapping, order, models, n))[a] ==
            if Shape(a) && a.modelUid in order[..n]
            then multiset(ModelUris(mapping, models[a.modelUid]))[a.uri] else 0
    decreases n
  {
    hide ModelUris, NewRows, Shape;
    if n > 0 {
      CountRows(mapping, order, models, n - 1, a);
      CountNewRows(order[n - 1], ModelUris(mapping, models[order[n - 1]]), a);
      assert order[..n] == order[..n - 1] + [order[n - 1]];
      assert order[n - 1] !in order[..n - 1];
    }
  }

  /** After a complete backfill, every row is there exactly as often as this: a row of the backfill's
      source and origin, with confidence 0.2 and 90 days, once for each element of its model's list
      that maps to its uri, and otherwise not at all; any other row as often as before. */
  lemma RowsExactly(mapping: map<string, string>, order: seq<string>, db: Db, a: Assertion)
    requires Listing(order, db.models)
    ensures multiset(Backfilled(mapping, order, db).assertions)[a] ==
            if !FromBackfill(a) then multiset(db.assertions)[a]
            else if a.confidence == 0.2 && a.ttlDays == 90 && a.modelUid in db.models
            then Occurrences(mapping, ItemsOf(db.models[a.modelUid]), a.uri) else 0
  {
    hide Foreign, RowsUpTo, ModelUris, Run, Plan, ModelsUpTo;
    PlanEffect(mapping, order, db, |order|);
    CountForeign(db.assertions, a);
    CountRows(mapping, order, db.models, |order|, a);
    assert order[..|order|] == order;
    if a.modelUid in db.models {
      ModelUrisAre(mapping, db.models[a.modelUid]);
      UrisCount(mapping, ItemsOf(db.models[a.modelUid]), a.uri);
    }
  }

  // ---- Projections --------------------------------------------------------------------------------

  /** The model `r` is `m` with exactly the mapped uris of its list, in its order, each with this source
      and this confidence; or `m` itself if nothing in the list is mapped. */
  ghost predicate ProjectedAs(mapping: map<string, string>, m: Model, r: Model, at: seq<nat>) {
    var items := ItemsOf(m);
    if exists i :: 0 <= i < |items| && IsMapped(mapping, items[i]) then
      && r.capabilities == m.capabilities && InListOrder(mapping, items, r.uris, at)
      && (forall u :: u in r.sources <==> Occurrences(mapping, items, u) > 0)
      && (forall u :: u in r.confidence <==> Occurrences(mapping, items, u) > 0)
      && (forall u :: u in r.sources ==> r.sources[u] == ["name-regex"])
      && (forall u :: u in r.confidence ==> r.confidence[u] == 0.2)
    else r == m
  }

  lemma MappedOrNone(mapping: map<string, string>, items: seq<Legacy>, uris: seq<string>, at: seq<nat>)
    requires InListOrder(mapping, items, uris, at)
    ensures uris == [] <==> !exists i :: 0 <= i < |items| && IsMapped(mapping, items[i])
  {
    if uris != [] { assert IsMapped(mapping, items[at[0]]); }
  }

  lemma RefreshedIs(mapping: map<string, string>, m: Model) returns (at: seq<nat>)
    ensures ProjectedAs(mapping, m, Refreshed(mapping, m), at)
  {
    hide Occurrences, InListOrder, ModelUris;
    var items, uris := ItemsOf(m), ModelUris(mapping, m);
    ModelUrisAre(mapping, m);
    at := UrisInListOrder(mapping, items);
    forall u ensures u in uris <==> Occurrences(mapping, items, u) > 0 {
      UrisCount(mapping, items, u);
      assert u in uris <==> u in multiset(uris);
    }
    MappedOrNone(mapping, items, uris, at);
  }

  lemma BackfilledModels(mapping: map<string, string>, order: seq<string>, db: Db, uid: string)
    requires Listing(order, db.models) && uid in db.models
    ensures var r := Backfilled(mapping, order, db).models;
            r.Keys == db.models.Keys && r[uid] == Refreshed(mapping, db.models[uid])
  {
    hide Foreign, RowsUpTo, ModelUris, Run, Plan, Refreshed;
    PlanEffect(mapping, order, db, |order|);
    assert order[..|order|] == order;
  }

  /** After a complete backfill, every model's projection is that of its list; no list changes. */
  lemma ProjectionExactly(mapping: map<string, string>, order: seq<string>, db: Db, uid: string) returns (at: seq<nat>)
    requires Listing(order, db.models) && uid in db.models
    ensures Backfilled(mapping, order, db).models.Keys == db.models.Keys
    ensures ProjectedAs(mapping, db.models[uid], Backfilled(mapping, order, db).models[uid], at)
  {
    hide ProjectedAs, Backfilled, Refreshed, Listing;
    BackfilledModels(mapping, order, db, uid);
    at := RefreshedIs(mapping, db.models[uid]);
  }

  // ---- Slugs without a uri --------------------------------------------------------------------------

  /** How many elements of the list are the slug, which has no uri. */
  function Misses(mapping: map<string, string>, items: seq<Legacy>, slug: string): nat {
    |set i | 0 <= i < |items| && items[i] == Text(slug) && !IsMapped(mapping, items[i])|
  }

  lemma UnmappedStep(mapping: map<string, string>, front: seq<Legacy>, last: Legacy)
    ensures UnmappedOf(mapping, TextsOf(front + [last])) ==
            UnmappedOf(mapping, TextsOf(front))
                + (if last.Text? && !IsMapped(mapping, last) then multiset{last.slug} else multiset{})
  {
    assert (front + [last])[..|front|] == front;
    if last.Text? {
      var texts := TextsOf(front);
      assert (texts + [last.slug])[..|texts|] == texts;
      assert TextsOf(front + [last]) == texts + [last.slug];
    } else {
      assert TextsOf(front + [last]) == TextsOf(front);
    }
  }

  lemma MissesStep(mapping: map<string, string>, front: seq<Legacy>, last: Legacy, slug: string)
    ensures Misses(mapping, front + [last], slug) ==
            Misses(mapping, front, slug) + (if last == Text(slug) && !IsMapped(mapping, last) then 1 else 0)
  {
    var items, n := front + [last], |front|;
    var before := set i | 0 <= i < n && front[i] == Text(slug) && !IsMapped(mapping, front[i]);
    var after := set i | 0 <= i < |items| && items[i] == Text(slug) && !IsMapped(mapping, items[i]);
    assert after == before + (if last == Text(slug) && !IsMapped(mapping, last) then {n} else {});
  }

  lemma NothingUnmapped(mapping: map<string, string>, slug: string)
    ensures UnmappedOf(mapping, TextsOf([]))[slug] == 0 == Misses(mapping, [], slug)
  {
  }

  /** The unmapped slugs of a model are counted exactly. */
  lemma {:induction false} UnmappedExactly(mapping: map<string, string>, items: seq<Legacy>, slug: string)
    ensures UnmappedOf(mapping, TextsOf(items))[slug] == Misses(mapping, items, slug)
    decreases |items|
  {
    hide Misses, UnmappedOf, IsMapped;
    if items == [] {
      NothingUnmapped(mapping, slug);
    } else {
      var front, last := items[..|items| - 1], items[|items| - 1];
      assert items == front + [last];
      UnmappedExactly(mapping, front, slug);
      UnmappedStep(mapping, front, last);
      MissesStep(mapping, front, last, slug);
    }
  }

  /** The mapping from legacy slugs to uris: the seed's slugs, each under the prefix of all uris. */
  lemma LegacyMappingExactly(seed: seq<O.SeedEntry>, slug: string)
    ensures slug in LegacyMapping(seed) <==> exists i :: 0 <= i < |seed| && seed[i].slug == slug
    ensures slug in LegacyMapping(seed) ==> LegacyMapping(seed)[slug] == "http://ailin.dev/cap/v1/" + slug
  {
    if i :| 0 <= i < |seed| && seed[i].slug == slug { assert seed[i] in seed; }
  }
}
