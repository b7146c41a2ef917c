/** Removal of unversioned aliases, the same loop in sync-openapi-from-diff.ts and
    extract-openapi-from-server.ts. */
module Aliases {
  import opened Collections
  import opened Text
  import opened OpenApi

  const JWKS := "/.well-known/jwks.json"

  function Twin(p: string): string {
    if p == "/" then "/v1" else "/v1" + p
  }

  predicate Exempt(p: string) {
    p == JWKS || StartsWith(p, "/v1/")
  }

  /** The paths left after visiting `order`, from the paths `live` present before. */
  function Sweep(order: seq<string>, live: set<string>): (r: set<string>)
    ensures r <= live
  {
    if order == [] then live
    else
      var p := order[0];
      Sweep(order[1..], if !Exempt(p) && Twin(p) in live then live - {p} else live)
  }

  predicate AllSlash(paths: set<string>) {
    forall p :: p in paths ==> p != "" && p[0] == '/'
  }

  // ---- The result in closed form -------------------------------------------------------

  /** The key-set path, the versioned paths, and the paths without a versioned twin. */
  function Survivors(paths: set<string>): set<string> {
    set p | p in paths && (Exempt(p) || Twin(p) !in paths)
  }

  /** The one configuration in which a path that is itself removed decides about another. */
  predicate Triangle(paths: set<string>) {
    "/" in paths && "/v1" in paths && "/v1/v1" in paths
  }

  /** The twin of a path that is subject to removal is not itself removable. */
  ghost predicate NoChain(paths: set<string>) {
    forall p :: p in paths && !Exempt(p) && Twin(p) in paths ==> Twin(p) in Survivors(paths)
  }

  lemma NoTriangleNoChain(paths: set<string>)
    requires AllSlash(paths) && !Triangle(paths)
    ensures NoChain(paths)
  {
    forall p | p in paths && !Exempt(p) && Twin(p) in paths ensures Twin(p) in Survivors(paths) {
      if p == "/" {
        assert Twin("/v1") == "/v1/v1";
      } else {
        assert Twin(p)[..4] == "/v1/";
      }
    }
  }

  lemma {:induction false} SweepTo(order: seq<string>, live: set<string>, paths: set<string>)
    requires NoChain(paths) && Survivors(paths) <= live <= paths
    requires forall p :: p in paths && p !in order ==> (p in live <==> p in Survivors(paths))
    ensures Sweep(order, live) == Survivors(paths)
    decreases |order|
  {
    if order != [] {
      var p := order[0];
      var live' := if !Exempt(p) && Twin(p) in live then live - {p} else live;
      forall q | q in paths && q !in order[1..] ensures q in live' <==> q in Survivors(paths) {
        if q == p {
          assert Exempt(p) || (Twin(p) in live <==> Twin(p) in paths);
        } else {
          assert q !in order by { assert order == [p] + order[1..]; }
        }
      }
      SweepTo(order[1..], live', paths);
    }
  }

  /** Without the triangle the loop computes the survivors, whatever the order. */
  lemma SweepIsSurvivors(order: seq<string>, paths: set<string>)
    requires AllSlash(paths) && !Triangle(paths) && Lists(order, paths)
    ensures Sweep(order, paths) == Survivors(paths)
  {
    NoTriangleNoChain(paths);
    SweepTo(order, paths, paths);
  }

  // ---- When the order matters ----------------------------------------------------------------

  lemma {:induction false} SweepKeeps(order: seq<string>, live: set<string>, p: string)
    requires p in live && (p !in order || Exempt(p) || Twin(p) !in live)
    ensures p in Sweep(order, live)
    decreases |order|
  {
    if order != [] {
      var q := order[0];
      assert p !in order ==> p != q;
      assert p !in order ==> p !in order[1..];
      SweepKeeps(order[1..], if !Exempt(q) && Twin(q) in live then live - {q} else live, p);
    }
  }

  lemma {:induction false} ListingExists(s: set<string>) returns (order: seq<string>)
    ensures Lists(order, s)
    decreases s
  {
    if s == {} {
      order := [];
    } else {
      var p :| p in s;
      var rest := ListingExists(s - {p});
      order := [p] + rest;
      forall q ensures q in order <==> q in s {
        if q in order && q != p { assert q in rest; }
      }
    }
  }

  lemma ListsPair(paths: set<string>, p: string, q: string, rest: seq<string>)
    requires p in paths && q in paths && p != q && Lists(rest, paths - {p, q})
    ensures Lists([p, q] + rest, paths)
  {
  }

  lemma TriangleOrders(paths: set<string>) returns (a: seq<string>, b: seq<string>)
    requires Triangle(paths)
    ensures Lists(a, paths) && Lists(b, paths)
    ensures "/" in Sweep(a, paths) && "/" !in Sweep(b, paths)
  {
    var rest := ListingExists(paths - {"/", "/v1"});
    a, b := ["/v1", "/"] + rest, ["/", "/v1"] + rest;
    assert Twin("/v1") == "/v1/v1" && !Exempt("/v1") && !Exempt("/");
    assert a[1..] == ["/"] + rest && b[1..] == ["/v1"] + rest;
    assert a[1..][1..] == rest;
    assert Sweep(a, paths) == Sweep(a[1..], paths - {"/v1"});
    SweepKeeps(a[1..], paths - {"/v1"}, "/");
    assert Sweep(b, paths) == Sweep(b[1..], paths - {"/"});
    ListsPair(paths, "/v1", "/", rest);
    ListsPair(paths, "/", "/v1", rest);
  }

  /** Alias removal is independent of the iteration order exactly when the root, its versioned
      form and that one's versioned form are not all present. */
  lemma OrderIndependentIff(paths: set<string>)
    requires AllSlash(paths)
    ensures (forall a, b :: Lists(a, paths) && Lists(b, paths) ==> Sweep(a, paths) == Sweep(b, paths)) <==>
        !Triangle(paths)
  {
    if Triangle(paths) {
      var a, b := TriangleOrders(paths);
      assert Sweep(a, paths) != Sweep(b, paths);
    } else {
      forall a, b | Lists(a, paths) && Lists(b, paths) ensures Sweep(a, paths) == Sweep(b, paths) {
        SweepIsSurvivors(a, paths);
        SweepIsSurvivors(b, paths);
      }
    }
  }

  /** In any order, with or without the triangle, what is left has no alias pair: a second
      removal finds nothing. */
  lemma {:induction false} SweepIsClean(order: seq<string>, live: set<string>, p: string)
    requires p in order && p in Sweep(order, live) && !Exempt(p)
    ensures Twin(p) !in Sweep(order, live)
    decreases |order|
  {
    var q := order[0];
    var live' := if !Exempt(q) && Twin(q) in live then live - {q} else live;
    if p in order[1..] {
      SweepIsClean(order[1..], live', p);
    } else {
      assert p == q by { assert order == [q] + order[1..]; }
      assert Twin(p) !in live';
    }
  }

  lemma {:induction false} CleanSweep(order: seq<string>, live: set<string>)
    requires forall p :: p in order && p in live && !Exempt(p) ==> Twin(p) !in live
    requires forall p :: p in order ==> p in live
    ensures Sweep(order, live) == live
    decreases |order|
  {
    if order != [] {
      assert order[0] in order;
      assert forall p :: p in order[1..] ==> p in order;
      CleanSweep(order[1..], live);
    }
  }

  lemma SweepTwice(order: seq<string>, again: seq<string>, paths: set<string>)
    requires Lists(order, paths) && Lists(again, Sweep(order, paths))
    ensures Sweep(again, Sweep(order, paths)) == Sweep(order, paths)
  {
    forall p | p in again && !Exempt(p) ensures Twin(p) !in Sweep(order, paths) {
      SweepIsClean(order, paths, p);
    }
    CleanSweep(again, Sweep(order, paths));
  }

  /** A removed path leaves its versioned twin behind, in any order, unless it is the root and the
      triangle is there: then `/v1` is removed as well. */
  lemma TwinSurvives(order: seq<string>, paths: set<string>, p: string)
    requires AllSlash(paths) && Lists(order, paths)
    requires p in paths && p !in Sweep(order, paths)
    ensures Twin(p) in Sweep(order, paths) <==> !(p == "/" && Triangle(paths))
  {
    assert Twin("/v1") == "/v1/v1";
    if Exempt(p) || Twin(p) !in paths { SweepKeeps(order, paths, p); }
    if p != "/" {
      assert Twin(p)[..4] == "/v1/";
      SweepKeeps(order, paths, Twin(p));
    } else if Triangle(paths) {
      SweepKeeps(order, paths, "/v1/v1");
      if "/v1" in Sweep(order, paths) { SweepIsClean(order, paths, "/v1"); }
    } else {
      SweepKeeps(order, paths, "/v1");
    }
  }

  /** What the loop leaves, in any order and with the triangle or without: exempt paths, paths without
      a twin, and the root if the triangle is there and `/v1` comes before it. */
  ghost predicate Stays(order: seq<string>, paths: set<string>, p: string) {
    && p in paths
    && (Exempt(p) || Twin(p) !in paths || (p == "/" && "/v1/v1" in paths && Earlier(order, "/v1", "/")))
  }

  lemma EarlierInRest(s: seq<string>, x: string, y: string)
    requires s != [] && s[0] != x
    ensures Earlier(s, x, y) <==> Earlier(s[1..], x, y)
  {
    if Earlier(s, x, y) {
      var i, j :| 0 <= i < j < |s| && s[i] == x && s[j] == y;
      assert s[1..][i - 1] == x && s[1..][j - 1] == y;
    }
    if Earlier(s[1..], x, y) {
      var i, j :| 0 <= i < j < |s[1..]| && s[1..][i] == x && s[1..][j] == y;
      assert s[i + 1] == x && s[j + 1] == y;
    }
  }

  lemma {:induction false} RootByOrder(order: seq<string>, live: set<string>)
    requires Distinct(order) && "/" in order && "/v1" in order && Triangle(live)
    ensures "/" in Sweep(order, live) <==> Earlier(order, "/v1", "/")
    decreases |order|
  {
    var q, rest := order[0], order[1..];
    assert Twin("/") == "/v1" && Twin("/v1") == "/v1/v1" && !Exempt("/") && !Exempt("/v1") && Exempt("/v1/v1");
    if q == "/" {
      assert "/" !in Sweep(rest, live - {q});
    } else if q == "/v1" {
      var j :| 0 <= j < |order| && order[j] == "/";
      SweepKeeps(rest, live - {q}, "/");
    } else {
      RootByOrder(rest, if !Exempt(q) && Twin(q) in live then live - {q} else live);
      EarlierInRest(order, "/v1", "/");
    }
  }

  /** The loop in closed form, for every set of paths that start with a slash and every order. */
  lemma SweepExactly(order: seq<string>, paths: set<string>, p: string)
    requires AllSlash(paths) && Lists(order, paths)
    ensures p in Sweep(order, paths) <==> Stays(order, paths, p)
  {
    assert Twin("/") == "/v1" && Twin("/v1") == "/v1/v1" && !Exempt("/") && !Exempt("/v1");
    if p in paths {
      if Exempt(p) || Twin(p) !in paths {
        SweepKeeps(order, paths, p);
      } else if p != "/" {
        assert Twin(p)[..4] == "/v1/";
        SweepKeeps(order, paths, Twin(p));
        if p in Sweep(order, paths) { SweepIsClean(order, paths, p); }
      } else if "/v1/v1" in paths {
        RootByOrder(order, paths);
      } else {
        SweepKeeps(order, paths, "/v1");
        if p in Sweep(order, paths) { SweepIsClean(order, paths, p); }
      }
    }
  }

  /** The same, path by path: the key-set path, versioned paths, the root as said, and any other path
      whose versioned form is not there. */
  lemma StaysPlainly(order: seq<string>, paths: set<string>, p: string)
    requires p != ""
    ensures Stays(order, paths, p) <==>
              && p in paths
              && (|| p == "/.well-known/jwks.json" || (|p| >= 4 && p[..4] == "/v1/")
                  || (p == "/" && ("/v1" !in paths || ("/v1/v1" in paths && Earlier(order, "/v1", "/"))))
                  || (p != "/" && "/v1" + p !in paths))
  {
  }

  // ---- On documents -----------------------------------------------------------------------------

  function FilterPaths(paths: seq<string>, live: set<string>): seq<string> {
    if paths == [] then []
    else FilterPaths(paths[..|paths| - 1], live) + (if paths[|paths| - 1] in live then [paths[|paths| - 1]] else [])
  }

  function PathSet(d: Doc): set<string> {
    set p | p in d.paths
  }

  /** The document with only the paths in `live`. */
  function Restrict(d: Doc, live: set<string>): Doc {
    Doc(FilterPaths(d.paths, live),
        map p | p in d.keys && p in live :: d.keys[p],
        map s | s in d.entries && s.path in live :: d.entries[s])
  }

  function WithoutAliases(d: Doc): Doc {
    Restrict(d, Sweep(d.paths, PathSet(d)))
  }

  lemma {:induction false} FilterExact(paths: seq<string>, live: set<string>)
    requires Distinct(paths)
    ensures Distinct(FilterPaths(paths, live))
    ensures forall p :: p in FilterPaths(paths, live) <==> p in paths && p in live
    decreases |paths|
  {
    if paths != [] {
      var front, last := paths[..|paths| - 1], paths[|paths| - 1];
      FilterExact(front, live);
      assert paths == front + [last] && last !in front;
      assert last !in FilterPaths(front, live);
    }
  }

  lemma RestrictValid(d: Doc, live: set<string>)
    requires Shaped(d)
    ensures Shaped(Restrict(d, live)) && (Valid(d) ==> Valid(Restrict(d, live)))
  {
    FilterExact(d.paths, live);
  }

  lemma {:induction false} FilterFilter(paths: seq<string>, a: set<string>, b: set<string>)
    ensures FilterPaths(FilterPaths(paths, a), b) == FilterPaths(paths, a * b)
    decreases |paths|
  {
    if paths != [] {
      var front, last := paths[..|paths| - 1], paths[|paths| - 1];
      FilterFilter(front, a, b);
      if last in a {
        assert FilterPaths(paths, a)[..|FilterPaths(paths, a)| - 1] == FilterPaths(front, a);
      } else {
        assert FilterPaths(paths, a) == FilterPaths(front, a);
      }
    }
  }

  lemma EarlierWithLast(front: seq<string>, last: string, x: string, y: string)
    ensures Earlier(front + [last], x, y) <==> Earlier(front, x, y) || (x in front && y == last)
  {
    var s := front + [last];
    if Earlier(front, x, y) {
      var i, j :| 0 <= i < j < |front| && front[i] == x && front[j] == y;
      assert s[i] == x && s[j] == y;
    } else if x in front && y == last {
      var i :| 0 <= i < |front| && front[i] == x;
      assert s[i] == x && s[|front|] == y;
    }
  }

  lemma {:induction false} FilterKeepsOrder(paths: seq<string>, live: set<string>, x: string, y: string)
    requires x in live && y in live
    ensures Earlier(FilterPaths(paths, live), x, y) <==> Earlier(paths, x, y)
    ensures x in FilterPaths(paths, live) <==> x in paths
    decreases |paths|
  {
    if paths != [] {
      var front, last := paths[..|paths| - 1], paths[|paths| - 1];
      FilterKeepsOrder(front, live, x, y);
      EarlierWithLast(front, last, x, y);
      EarlierWithLast(FilterPaths(front, live), last, x, y);
      assert paths == front + [last];
    }
  }

  lemma RestrictRestrict(d: Doc, a: set<string>, b: set<string>)
    ensures Restrict(Restrict(d, a), b) == Restrict(d, a * b)
  {
    FilterFilter(d.paths, a, b);
  }

  lemma {:induction false} FilterAll(paths: seq<string>, live: set<string>)
    requires forall p :: p in paths ==> p in live
    ensures FilterPaths(paths, live) == paths
    decreases |paths|
  {
    if paths != [] {
      FilterAll(paths[..|paths| - 1], live);
    }
  }

  lemma RestrictAll(d: Doc, live: set<string>)
    requires forall p :: p in d.paths || p in d.keys ==> p in live
    requires forall s :: s in d.entries ==> s.path in live
    ensures Restrict(d, live) == d
  {
    FilterAll(d.paths, live);
    assert (map p | p in d.keys && p in live :: d.keys[p]) == d.keys;
    assert (map s | s in d.entries && s.path in live :: d.entries[s]) == d.entries;
  }

  /** Removing aliases a second time changes nothing. */
  lemma WithoutAliasesTwice(d: Doc)
    requires Valid(d)
    ensures WithoutAliases(WithoutAliases(d)) == WithoutAliases(d)
  {
    var live := Sweep(d.paths, PathSet(d));
    var e := WithoutAliases(d);
    RestrictValid(d, live);
    FilterExact(d.paths, live);
    assert PathSet(e) == live;
    SweepTwice(d.paths, e.paths, PathSet(d));
    assert Valid(e) && forall p :: p in e.paths ==> p in live;
    RestrictAll(e, live);
  }
}
