/** The order in which the loops visit operations, read off the lists of paths and keys, and how
    it survives the growth of a document. */
module VisitOrder {
  import opened Collections
  import opened OpenApi
  import opened AssignedIds
  import T = Text

  /** `s` stands before `t`: in an earlier path item, or in the same one under an earlier key. */
  ghost predicate Precedes(d: Doc, s: Slot, t: Slot) {
    || Earlier(d.paths, s.path, t.path)
    || (s.path == t.path && s.path in d.keys && Earlier(d.keys[s.path], s.key, t.key))
  }

  lemma PrecedesOneWay(d: Doc, s: Slot, t: Slot)
    requires Shaped(d) && Precedes(d, s, t)
    ensures s != t && !Precedes(d, t, s)
  {
  }

  // ---- The visits are in this order ---------------------------------------------------------

  ghost predicate Ordered(d: Doc, v: seq<Slot>) {
    forall a, b {:trigger v[a], v[b]} :: 0 <= a < b < |v| ==> Precedes(d, v[a], v[b])
  }

  lemma {:induction false} ItemOrdered(d: Doc, p: string, j: nat)
    requires Shaped(d) && p in d.keys && j <= |d.keys[p]|
    ensures Ordered(d, ItemVisits(p, d.keys[p], j))
    decreases j
  {
    if j > 0 {
      ItemOrdered(d, p, j - 1);
      var keys, v := d.keys[p], ItemVisits(p, d.keys[p], j - 1);
      var w := ItemVisits(p, keys, j);
      forall a, b | 0 <= a < b < |w| ensures Precedes(d, w[a], w[b]) {
        assert w[a] == v[a];
        if b < |v| {
          assert w[b] == v[b];
        } else {
          assert v[a].key in keys[..j - 1] && w[b].key == keys[j - 1];
        }
      }
    }
  }

  lemma {:induction false} UpToOrdered(d: Doc, i: nat)
    requires Valid(d) && i <= |d.paths|
    ensures Ordered(d, VisitsUpTo(d, i))
    decreases i
  {
    if i > 0 {
      var p := d.paths[i - 1];
      var front, item := VisitsUpTo(d, i - 1), ItemVisits(p, d.keys[p], |d.keys[p]|);
      UpToOrdered(d, i - 1);
      ItemOrdered(d, p, |d.keys[p]|);
      VisitsUpToExact(d, i - 1);
      var v := VisitsUpTo(d, i);
      assert v == front + item;
      forall a, b | 0 <= a < b < |v| ensures Precedes(d, v[a], v[b]) {
        if a < |front| <= b {
          assert front[a] in front && front[a].path in d.paths[..i - 1];
          assert v[b] == item[b - |front|];
        }
      }
    }
  }

  lemma VisitsOrdered(d: Doc)
    requires Valid(d)
    ensures Ordered(d, Visits(d))
  {
    UpToOrdered(d, |d.paths|);
  }

  /** An operation is visited before the `n`-th one exactly if it stands before it. */
  lemma VisitedBeforeIff(d: Doc, n: nat, t: Slot)
    requires Valid(d) && n < |Visits(d)|
    ensures t in Visits(d)[..n] <==> IsOperation(d.entries, t) && Precedes(d, t, Visits(d)[n])
  {
    hide Precedes, VisitsUpTo;
    VisitsOrdered(d);
    VisitsExact(d);
    var v := Visits(d);
    if t in v[..n] {
      assert t in v;
    }
    if IsOperation(d.entries, t) && Precedes(d, t, v[n]) {
      var k :| 0 <= k < |v| && v[k] == t;
      PrecedesOneWay(d, t, v[n]);
      assert v[..n][k] == t;
    }
  }

  // ---- Keeping an id, without mention of the loop ------------------------------------------------

  ghost predicate Before(d: Doc, t: Slot, s: Slot) {
    IsOperation(d.entries, t) && Precedes(d, t, s)
  }

  /** Some path item holds `x` twice, leaving out operations that stand before `s`. */
  ghost predicate TwiceFrom(d: Doc, s: Slot, x: string) {
    exists t, u :: && t in d.entries && u in d.entries && t.path == u.path && t != u
                   && !Before(d, t, s) && !Before(d, u, s)
                   && IdAt(d.entries, t) == Some(x) && IdAt(d.entries, u) == Some(x)
  }

  /** The operation at `s` keeps its id through the enrichment loop. */
  ghost predicate Keeps(d: Doc, s: Slot) {
    && IsOperation(d.entries, s) && IdAt(d.entries, s).Some?
    && !T.Blank(IdAt(d.entries, s).value) && !TwiceFrom(d, s, IdAt(d.entries, s).value)
  }

  lemma KeepsIff(d: Doc, n: nat)
    requires Valid(d) && n < |Visits(d)|
    ensures KeepsId(d.entries, Visits(d), n) <==> Keeps(d, Visits(d)[n])
  {
    hide Precedes, VisitsUpTo, Distinct;
    VisitsExact(d);
    assert Visits(d)[n] in Visits(d);
    forall t ensures t in Visits(d)[..n] <==> Before(d, t, Visits(d)[n]) {
      VisitedBeforeIff(d, n, t);
    }
  }

  // ---- Growth -------------------------------------------------------------------------------------

  /** `e` has the entries of `d`, in the same order, and more operations at the ends of path items
      and of the document. */
  ghost predicate Extends(d: Doc, e: Doc) {
    && d.paths <= e.paths
    && (forall p :: p in d.keys ==> p in e.keys && d.keys[p] <= e.keys[p])
    && (forall s :: s in d.entries ==> s in e.entries && e.entries[s] == d.entries[s])
    && (forall s :: s in e.entries && s !in d.entries ==> IsMethod(s.key))
  }

  lemma PrecedesExtends(d: Doc, e: Doc, s: Slot, t: Slot)
    requires Shaped(d) && Shaped(e) && Extends(d, e) && s in d.entries && t in d.entries
    ensures Precedes(d, s, t) <==> Precedes(e, s, t)
  {
  }

  /** Whether an operation keeps its id does not depend on operations added with other ids. */
  lemma KeepsExtends(d: Doc, e: Doc, s: Slot)
    requires Shaped(d) && Shaped(e) && Extends(d, e) && s in d.entries
    requires forall t :: t in e.entries && t !in d.entries ==> IdAt(e.entries, t) != IdAt(d.entries, s)
    ensures Keeps(d, s) <==> Keeps(e, s)
  {
    hide Precedes, Shaped;
    forall t | t in d.entries ensures Before(d, t, s) <==> Before(e, t, s) {
      PrecedesExtends(d, e, t, s);
    }
    assert forall t :: t in e.entries && IdAt(e.entries, t) == IdAt(d.entries, s) ==>
      t in d.entries && IdAt(d.entries, t) == IdAt(d.entries, s);
  }
}
