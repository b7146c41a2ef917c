/** The part of an OpenAPI document the synchroniser and the validator work on. */
module OpenApi {
  import opened Collections
  import opened Text

  // ---- One operation ---------------------------------------------------------------

  /** A security requirement's scopes: an array, or something else. */
  datatype Scopes = Scopes(names: seq<string>) | NotAnArray

  datatype SecurityEntry = Requirement(schemes: map<string, Scopes>) | NotAnObject

  datatype Response = Ref(target: string) | Inline(text: string)

  /** `name` and `location` are `None` when the field is absent or not a string. */
  datatype Param = Param(name: Option<string>, location: Option<string>, required: bool)

  /** The `x-collective-intelligence` field: absent, present without being an object, or a block. */
  datatype CiField = CiMissing | CiScalar | CiBlock(text: string)

  /** Every `None` stands for a field that is absent or not of the type the code tests for.
      `hide` is the test the extractor makes; the synchroniser leaves it alone. */
  datatype Operation = Operation(
    operationId: Option<string>,
    tags: Option<seq<string>>,
    summary: Option<string>,
    description: Option<string>,
    ci: CiField,
    security: Option<seq<SecurityEntry>>,
    parameters: Option<seq<Param>>,
    responses: Option<map<string, Response>>,
    hide: bool)

  // ---- The paths object --------------------------------------------------------------

  /** The value under one key of a path item. */
  datatype Entry = Object(op: Operation) | NonObject

  datatype Slot = Slot(path: string, key: string)

  /** `spec.paths`: the paths and each item's keys in iteration order, and the values.  Any order
      is possible. */
  datatype Doc = Doc(paths: seq<string>, keys: map<string, seq<string>>, entries: map<Slot, Entry>)

  predicate IsMethod(key: string) {
    key in {"get", "post", "put", "patch", "delete", "options", "head", "trace"}
  }

  lemma MethodIsClean(key: string)
    requires IsMethod(key)
    ensures key != "" && AllAlnum(key)
  {
  }

  /** Paths and keys are listed once each and account for exactly the stored entries. */
  ghost predicate Shaped(d: Doc) {
    && Distinct(d.paths)
    && (forall p :: p in d.keys <==> p in d.paths)
    && (forall p :: p in d.keys ==> Distinct(d.keys[p]))
    && (forall s :: s in d.entries <==> s.path in d.keys && s.key in d.keys[s.path])
  }

  /** Moreover the entry under a method key is an object (section 4.7.9 of the OpenAPI
      Specification 3.0.3). */
  ghost predicate Valid(d: Doc) {
    && Shaped(d)
    && (forall s :: s in d.entries && IsMethod(s.key) ==> d.entries[s].Object?)
  }

  function EntryId(e: Entry): Option<string> {
    if e.Object? then e.op.operationId else None
  }

  /** The id under a slot, if there is one and it is a string. */
  function IdAt(entries: map<Slot, Entry>, s: Slot): Option<string> {
    if s in entries then EntryId(entries[s]) else None
  }

  ghost predicate IsOperation(entries: map<Slot, Entry>, s: Slot) {
    s in entries && IsMethod(s.key)
  }

  // ---- Iteration order -----------------------------------------------------------------

  /** The operations among the first `j` keys of path `p`. */
  function ItemVisits(p: string, keys: seq<string>, j: nat): (v: seq<Slot>)
    requires j <= |keys|
    ensures forall k :: 0 <= k < |v| ==> v[k].path == p && IsMethod(v[k].key) && v[k].key in keys[..j]
  {
    if j == 0 then []
    else ItemVisits(p, keys, j - 1) + (if IsMethod(keys[j - 1]) then [Slot(p, keys[j - 1])] else [])
  }

  /** The operations of the first `i` paths, in the order of the two nested loops. */
  function VisitsUpTo(d: Doc, i: nat): seq<Slot>
    requires i <= |d.paths| && forall p :: p in d.paths ==> p in d.keys
  {
    if i == 0 then []
    else
      var p := d.paths[i - 1];
      VisitsUpTo(d, i - 1) + ItemVisits(p, d.keys[p], |d.keys[p]|)
  }

  function Visits(d: Doc): seq<Slot>
    requires forall p :: p in d.paths ==> p in d.keys
  {
    VisitsUpTo(d, |d.paths|)
  }

  lemma {:induction false} ItemVisitsExact(p: string, keys: seq<string>, j: nat)
    requires j <= |keys| && Distinct(keys)
    ensures Distinct(ItemVisits(p, keys, j))
    ensures forall k :: k in keys[..j] && IsMethod(k) ==> Slot(p, k) in ItemVisits(p, keys, j)
    decreases j
  {
    if j > 0 {
      ItemVisitsExact(p, keys, j - 1);
      var v := ItemVisits(p, keys, j - 1);
      assert keys[..j] == keys[..j - 1] + [keys[j - 1]];
      assert keys[j - 1] !in keys[..j - 1];
      if IsMethod(keys[j - 1]) {
        assert Slot(p, keys[j - 1]) !in v;
        assert Slot(p, keys[j - 1]) in v + [Slot(p, keys[j - 1])];
      }
    }
  }

  lemma {:induction false} VisitsUpToExact(d: Doc, i: nat)
    requires Valid(d) && i <= |d.paths|
    ensures Distinct(VisitsUpTo(d, i))
    ensures forall s :: s in VisitsUpTo(d, i) <==> IsOperation(d.entries, s) && s.path in d.paths[..i]
    decreases i
  {
    if i > 0 {
      var p := d.paths[i - 1];
      var front, item := VisitsUpTo(d, i - 1), ItemVisits(p, d.keys[p], |d.keys[p]|);
      VisitsUpToExact(d, i - 1);
      ItemVisitsExact(p, d.keys[p], |d.keys[p]|);
      assert d.keys[p][..|d.keys[p]|] == d.keys[p];
      assert d.paths[..i] == d.paths[..i - 1] + [p];
      forall s ensures s in front + item <==> IsOperation(d.entries, s) && s.path in d.paths[..i] {
        if s.path == p && IsOperation(d.entries, s) { assert s == Slot(p, s.key); }
      }
      forall a, b | 0 <= a < b < |front + item| ensures (front + item)[a] != (front + item)[b] {
        if a < |front| <= b {
          assert front[a] in front && front[a].path in d.paths[..i - 1];
          assert item[b - |front|].path == p;
        }
      }
    }
  }

  /** The loops visit every operation exactly once. */
  lemma VisitsExact(d: Doc)
    requires Valid(d)
    ensures Distinct(Visits(d))
    ensures forall s :: s in Visits(d) <==> IsOperation(d.entries, s)
  {
    VisitsUpToExact(d, |d.paths|);
    assert d.paths[..|d.paths|] == d.paths;
  }
}
