/** The last two passes of extract-openapi-from-server.ts: hiding, then alias removal. */
module Extractor {
  import opened Collections
  import opened OpenApi
  import opened Aliases
  import opened Synchroniser

  predicate IsHidden(d: Doc, s: Slot) {
    s in d.entries && d.entries[s].Object? && d.entries[s].op.hide
  }

  function HiddenPaths(d: Doc): set<string> {
    set s | s in d.entries && IsHidden(d, s) :: s.path
  }

  /** One hidden operation hides its whole path. */
  function Shown(d: Doc): Doc {
    Restrict(d, PathSet(d) - HiddenPaths(d))
  }

  function Published(d: Doc): Doc {
    WithoutAliases(Shown(d))
  }

  // ---- The loop ----------------------------------------------------------------------

  /** Position of the first hidden entry among the keys from `j` on, or the number of keys. */
  function FirstHidden(d: Doc, p: string, keys: seq<string>, j: nat): (k: nat)
    requires j <= |keys|
    ensures j <= k <= |keys|
    ensures k < |keys| ==> IsHidden(d, Slot(p, keys[k]))
    ensures forall i :: j <= i < k ==> !IsHidden(d, Slot(p, keys[i]))
    decreases |keys| - j
  {
    if j == |keys| || IsHidden(d, Slot(p, keys[j])) then j else FirstHidden(d, p, keys, j + 1)
  }

  lemma HiddenIffFound(d: Doc, p: string)
    requires Shaped(d) && p in d.keys
    ensures p in HiddenPaths(d) <==> FirstHidden(d, p, d.keys[p], 0) < |d.keys[p]|
  {
  }

  /** What was hidden so far, one hidden entry for each path that is gone. */
  ghost predicate Names(d: Doc, hidden: seq<Slot>, gone: set<string>) {
    && |hidden| == |gone|
    && (forall p :: p in gone <==> exists k :: 0 <= k < |hidden| && hidden[k].path == p)
    && (forall k :: 0 <= k < |hidden| ==> IsHidden(d, hidden[k]))
  }

  ghost function GoneUpTo(d: Doc, i: nat): set<string>
    requires i <= |d.paths|
  {
    set p | p in d.paths[..i] && p in HiddenPaths(d)
  }

  /** They are in the order of the paths, and each is the first hidden entry of its path. */
  ghost predicate FirstOnes(d: Doc, hidden: seq<Slot>) {
    && (forall j, k :: 0 <= j < k < |hidden| ==> Earlier(d.paths, hidden[j].path, hidden[k].path))
    && (forall k :: 0 <= k < |hidden| ==>
          && hidden[k].path in d.keys
          && forall key :: Earlier(d.keys[hidden[k].path], key, hidden[k].key) ==>
              !IsHidden(d, Slot(hidden[k].path, key)))
  }

  /** Where the hiding loop stands after `i` paths of `d`. */
  ghost predicate HideAt(d: Doc, e: Doc, i: nat, hidden: seq<Slot>) {
    && Shaped(d) && i <= |d.paths|
    && e == Restrict(d, PathSet(d) - GoneUpTo(d, i))
    && Names(d, hidden, GoneUpTo(d, i)) && FirstOnes(d, hidden)
  }

  lemma GoneStep(d: Doc, i: nat)
    requires Shaped(d) && i < |d.paths|
    ensures d.paths[i] !in GoneUpTo(d, i)
    ensures GoneUpTo(d, i + 1) == GoneUpTo(d, i) + (if d.paths[i] in HiddenPaths(d) then {d.paths[i]} else {})
  {
  }

  lemma HidingStarts(d: Doc)
    requires Shaped(d)
    ensures HideAt(d, d, 0, [])
  {
    assert GoneUpTo(d, 0) == {};
    RestrictAll(d, PathSet(d) - GoneUpTo(d, 0));
  }

  lemma HideNothing(d: Doc, e: Doc, i: nat, hidden: seq<Slot>)
    requires HideAt(d, e, i, hidden) && i < |d.paths| && d.paths[i] !in HiddenPaths(d)
    ensures HideAt(d, e, i + 1, hidden)
  {
    GoneStep(d, i);
  }

  lemma AllGone(d: Doc)
    requires Shaped(d)
    ensures GoneUpTo(d, |d.paths|) == HiddenPaths(d)
  {
  }

  lemma HidingEnds(d: Doc, e: Doc, hidden: seq<Slot>)
    requires HideAt(d, e, |d.paths|, hidden)
    ensures e == Shown(d) && Names(d, hidden, HiddenPaths(d)) && FirstOnes(d, hidden)
  {
    AllGone(d);
  }

  lemma HideRestricts(d: Doc, e: Doc, gone: set<string>, p: string)
    requires Shaped(d) && e == Restrict(d, PathSet(d) - gone)
    ensures Restrict(e, PathSet(e) - {p}) == Restrict(d, PathSet(d) - (gone + {p}))
  {
    var live := PathSet(d) - gone;
    RestrictPaths(d, live);
    assert PathSet(e) == live;
    RestrictRestrict(d, live, live - {p});
    assert live * (live - {p}) == PathSet(d) - (gone + {p});
  }

  lemma NamesMore(d: Doc, hidden: seq<Slot>, gone: set<string>, s: Slot)
    requires Names(d, hidden, gone) && IsHidden(d, s) && s.path !in gone
    ensures Names(d, hidden + [s], gone + {s.path})
  {
    var all := hidden + [s];
    forall p ensures p in gone + {s.path} <==> exists k :: 0 <= k < |all| && all[k].path == p {
      if p in gone {
        var k :| 0 <= k < |hidden| && hidden[k].path == p;
        assert all[k].path == p;
      }
      if p == s.path { assert all[|hidden|].path == p; }
      if k :| 0 <= k < |all| && all[k].path == p {
        if k < |hidden| { assert hidden[k].path == p; }
      }
    }
  }

  lemma FirstOnesMore(d: Doc, i: nat, hidden: seq<Slot>, n: nat)
    requires i < |d.paths| && Shaped(d) && FirstOnes(d, hidden) && Names(d, hidden, GoneUpTo(d, i))
    requires d.paths[i] in d.keys && n < |d.keys[d.paths[i]]|
    requires forall k :: 0 <= k < n ==> !IsHidden(d, Slot(d.paths[i], d.keys[d.paths[i]][k]))
    ensures FirstOnes(d, hidden + [Slot(d.paths[i], d.keys[d.paths[i]][n])])
  {
    hide IsHidden, HiddenPaths;
    var p, keys := d.paths[i], d.keys[d.paths[i]];
    forall j | 0 <= j < |hidden| ensures Earlier(d.paths, hidden[j].path, p) {
      assert hidden[j].path in GoneUpTo(d, i);
      var k :| 0 <= k < i && d.paths[k] == hidden[j].path;
    }
    forall key | Earlier(keys, key, keys[n]) ensures !IsHidden(d, Slot(p, key)) {
      var a, b :| 0 <= a < b < |keys| && keys[a] == key && keys[b] == keys[n];
      assert b == n;
    }
  }

  lemma HideStep(d: Doc, e: Doc, i: nat, hidden: seq<Slot>, n: nat)
    requires HideAt(d, e, i, hidden) && i < |d.paths| && d.paths[i] in d.keys && n < |d.keys[d.paths[i]]|
    requires IsHidden(d, Slot(d.paths[i], d.keys[d.paths[i]][n]))
    requires forall k :: 0 <= k < n ==> !IsHidden(d, Slot(d.paths[i], d.keys[d.paths[i]][k]))
    ensures HideAt(d, Restrict(e, PathSet(e) - {d.paths[i]}), i + 1, hidden + [Slot(d.paths[i], d.keys[d.paths[i]][n])])
  {
    hide FirstOnes, Names;
    var p, key := d.paths[i], d.keys[d.paths[i]][n];
    FirstOnesMore(d, i, hidden, n);
    assert p in HiddenPaths(d) by { assert Slot(p, key) in d.entries; }
    GoneStep(d, i);
    HideRestricts(d, e, GoneUpTo(d, i), p);
    NamesMore(d, hidden, GoneUpTo(d, i), Slot(p, key));
  }

  class Spec {
    var doc: Doc

    constructor (doc: Doc)
      ensures this.doc == doc
    {
      this.doc := doc;
    }

    /** Deletes a path at its first hidden entry; returns what was hidden. */
    method HideExplicitlyHiddenOperations() returns (hidden: seq<Slot>)
      requires Shaped(doc)
      modifies this
      ensures doc == Shown(old(doc))
      ensures Names(old(doc), hidden, HiddenPaths(old(doc))) && FirstOnes(old(doc), hidden)
    {
      hide HiddenPaths, HideAt, Restrict, Names, FirstOnes, IsHidden;
      hidden := [];
      var before := doc;
      HidingStarts(before);
      for i := 0 to |before.paths|
        invariant HideAt(before, doc, i, hidden)
      {
        var routePath := before.paths[i];
        assert routePath in before.paths;
        var keys := before.keys[routePath];
        var j := 0;
        while j < |keys| && !IsHidden(before, Slot(routePath, keys[j]))
          invariant j <= |keys| && FirstHidden(before, routePath, keys, 0) == FirstHidden(before, routePath, keys, j)
          invariant forall k :: 0 <= k < j ==> !IsHidden(before, Slot(routePath, keys[k]))
        {
          j := j + 1;
        }
        HiddenIffFound(before, routePath);
        if j < |keys| {
          HideStep(before, doc, i, hidden, j);
          hidden := hidden + [Slot(routePath, keys[j])];
          doc := Restrict(doc, PathSet(doc) - {routePath});
        } else {
          HideNothing(before, doc, i, hidden);
        }
      }
      HidingEnds(before, doc, hidden);
    }
  }

  // ---- What is published ---------------------------------------------------------------------

  /** No hidden operation is published, in any iteration order. */
  lemma NothingHiddenPublished(d: Doc, s: Slot)
    requires Shaped(d)
    ensures s in Published(d).entries && Published(d).entries[s].Object? ==> !Published(d).entries[s].op.hide
  {
  }

  lemma ShownPaths(d: Doc)
    requires Shaped(d)
    ensures Shaped(Shown(d)) && PathSet(Shown(d)) == PathSet(d) - HiddenPaths(d)
  {
    RestrictPaths(d, PathSet(d) - HiddenPaths(d));
  }

  /** Hiding leaves exactly the paths under none of whose keys, method or not, stands an object that asks
      for it. */
  lemma ShownExactly(d: Doc, p: string)
    requires Shaped(d)
    ensures p in PathSet(Shown(d)) <==>
              && p in PathSet(d)
              && forall key :: Slot(p, key) in d.entries && d.entries[Slot(p, key)].Object?
                               ==> !d.entries[Slot(p, key)].op.hide
  {
    ShownPaths(d);
    if p in HiddenPaths(d) {
      var s :| s in d.entries && IsHidden(d, s) && s.path == p;
      assert s == Slot(p, s.key);
    }
    if key :| Slot(p, key) in d.entries && d.entries[Slot(p, key)].Object? && d.entries[Slot(p, key)].op.hide {
      assert IsHidden(d, Slot(p, key));
    }
  }

  /** The published paths, in any order and for every document whose paths start with a slash. */
  lemma PublishedPaths(d: Doc, p: string)
    requires Shaped(d) && AllSlash(PathSet(d))
    ensures p in PathSet(Published(d)) <==> Stays(d.paths, PathSet(d) - HiddenPaths(d), p)
  {
    hide Sweep, HiddenPaths, Exempt;
    ShownPaths(d);
    var shown, live := Shown(d), PathSet(d) - HiddenPaths(d);
    RestrictPaths(shown, Sweep(shown.paths, PathSet(shown)));
    SweepExactly(shown.paths, PathSet(shown), p);
    if "/" in live && "/v1" in live { FilterKeepsOrder(d.paths, live, "/v1", "/"); }
    assert Twin("/") == "/v1";
  }

  lemma HiddenAmongSurvivors(d: Doc, live: set<string>, p: string)
    requires Shaped(d) && p in live
    ensures p in HiddenPaths(Restrict(d, live)) <==> p in HiddenPaths(d)
  {
    if p in HiddenPaths(d) {
      var s :| s in d.entries && IsHidden(d, s) && s.path == p;
      assert IsHidden(Restrict(d, live), s);
    }
  }

  /** Had the aliases been removed before hiding. */
  lemma OtherOrderPaths(d: Doc, p: string)
    requires Shaped(d) && AllSlash(PathSet(d))
    ensures p in PathSet(Shown(WithoutAliases(d))) <==> Stays(d.paths, PathSet(d), p) && p !in HiddenPaths(d)
  {
    hide Sweep, HiddenPaths, Exempt;
    var live := Sweep(d.paths, PathSet(d));
    SweepExactly(d.paths, PathSet(d), p);
    RestrictPaths(d, live);
    ShownPaths(WithoutAliases(d));
    if p in live { HiddenAmongSurvivors(d, live, p); }
  }

  /** A visible alias of a hidden versioned path, removable if aliases go first. */
  ghost predicate OutlivesHiddenTwin(d: Doc, p: string) {
    && p in PathSet(d) && p !in HiddenPaths(d) && Twin(p) in HiddenPaths(d)
    && !Stays(d.paths, PathSet(d), p)
  }

  /** The visible root, whose twin `/v1` would itself go before it if `/v1/v1` were not hidden. */
  ghost predicate RootFalls(d: Doc) {
    && "/" in PathSet(d) && "/v1" in PathSet(d) && "/" !in HiddenPaths(d) && "/v1" !in HiddenPaths(d)
    && "/v1/v1" in HiddenPaths(d) && Earlier(d.paths, "/v1", "/")
  }

  lemma HiddenArePaths(d: Doc)
    requires Shaped(d)
    ensures HiddenPaths(d) <= PathSet(d)
  {
    forall p | p in HiddenPaths(d) ensures p in PathSet(d) {
      var s :| s in d.entries && IsHidden(d, s) && s.path == p;
      assert s.path in d.keys;
    }
  }

  lemma OrdersDiffer(d: Doc, p: string)
    requires Shaped(d) && AllSlash(PathSet(d))
    ensures p in PathSet(Published(d)) <==>
              OutlivesHiddenTwin(d, p) || (p in PathSet(Shown(WithoutAliases(d))) && !(p == "/" && RootFalls(d)))
  {
    hide HiddenPaths, Published, Shown, WithoutAliases;
    PublishedPaths(d, p);
    OtherOrderPaths(d, p);
    HiddenArePaths(d);
    assert Twin("/") == "/v1" && !Exempt("/") by { assert |"/"| == 1 && |JWKS| > 1; }
  }

  /** Hiding first publishes the visible aliases of hidden paths on top of what the other order
      would publish, and not the root if it falls as above; the two orders agree if and only if
      there is neither. */
  lemma HidingFirstCompared(d: Doc)
    requires Shaped(d) && AllSlash(PathSet(d))
    ensures PathSet(Published(d)) ==
              PathSet(Shown(WithoutAliases(d))) + (set p | p in PathSet(d) && OutlivesHiddenTwin(d, p))
              - (if RootFalls(d) then {"/"} else {})
    ensures PathSet(Published(d)) == PathSet(Shown(WithoutAliases(d))) <==>
              !RootFalls(d) && forall p :: !OutlivesHiddenTwin(d, p)
  {
    hide HiddenPaths, Exempt, Published, Shown, WithoutAliases;
    var other := PathSet(Shown(WithoutAliases(d)));
    forall p ensures p in PathSet(Published(d)) <==>
                       OutlivesHiddenTwin(d, p) || (p in other && !(p == "/" && RootFalls(d)))
    {
      OrdersDiffer(d, p);
    }
    OtherOrderPaths(d, "/");
    HiddenArePaths(d);
    assert RootFalls(d) ==> Stays(d.paths, PathSet(d), "/") && !OutlivesHiddenTwin(d, "/");
    forall p | OutlivesHiddenTwin(d, p) ensures p !in PathSet(Shown(WithoutAliases(d))) {
      OtherOrderPaths(d, p);
    }
  }

  function PlainOperation(hidden: bool): Operation {
    Operation(None, None, None, None, CiMissing, None, None, None, hidden)
  }

  /** There are such documents: any removable path, with a hidden operation on its twin. */
  lemma HiddenTwinExists(p: string) returns (d: Doc)
    requires p != "" && p[0] == '/' && !Exempt(p)
    ensures Shaped(d) && AllSlash(PathSet(d)) && OutlivesHiddenTwin(d, p)
  {
    var s, t := Slot(p, "get"), Slot(Twin(p), "get");
    d := Doc([p, Twin(p)], map[p := ["get"], Twin(p) := ["get"]],
             map[s := Object(PlainOperation(false)), t := Object(PlainOperation(true))]);
    assert |Twin(p)| > |p|;
    assert PathSet(d) == {p, Twin(p)};
    assert IsHidden(d, t) && HiddenPaths(d) == {Twin(p)};
    assert |"/v1/v1"| == 6 && |Twin("/")| == 3;
  }

  /** And documents whose root falls. */
  lemma FallingRootExists() returns (d: Doc)
    ensures Shaped(d) && AllSlash(PathSet(d)) && RootFalls(d)
  {
    var a, b, c := Slot("/v1", "get"), Slot("/", "get"), Slot("/v1/v1", "get");
    assert |"/v1"| == 3 && |"/"| == 1 && |"/v1/v1"| == 6;
    d := Doc(["/v1", "/", "/v1/v1"], map["/v1" := ["get"], "/" := ["get"], "/v1/v1" := ["get"]],
             map[a := Object(PlainOperation(false)), b := Object(PlainOperation(false)),
                 c := Object(PlainOperation(true))]);
    assert PathSet(d) == {"/v1", "/", "/v1/v1"};
    assert IsHidden(d, c) && HiddenPaths(d) == {"/v1/v1"};
    assert d.paths[0] == "/v1" && d.paths[1] == "/";
  }
}
