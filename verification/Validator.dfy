/** validate-collective-contract.ts: one pass with a first-seen map and four issue lists. */
module Validator {
  import opened Collections
  import opened Text
  import opened OpenApi

  /** An operation the validator looks at. */
  predicate Checked(d: Doc, s: Slot) {
    s in d.entries && IsMethod(s.key) && d.entries[s].Object?
  }

  predicate HasId(op: Operation) {
    op.operationId.Some? && !Blank(op.operationId.value)
  }

  predicate HasTags(op: Operation) {
    op.tags.Some? && op.tags.value != []
  }

  /** The contract: every operation has a non-blank id, tags and the collective block, and no two
      ids are equal after trimming (unique ids: section 4.7.10 of the OpenAPI Specification 3.0.3). */
  ghost predicate ContractHolds(d: Doc) {
    && (forall s :: Checked(d, s) ==>
          var op := d.entries[s].op;
          && op.operationId.Some? && Trim(op.operationId.value) != ""
          && op.tags.Some? && |op.tags.value| > 0 && op.ci != CiMissing)
    && (forall s, t :: Checked(d, s) && Checked(d, t) && s != t ==>
          Trim(d.entries[s].op.operationId.value) != Trim(d.entries[t].op.operationId.value))
  }

  datatype Duplicate = Duplicate(id: string, first: Slot, second: Slot)

  const METHODS := ["get", "post", "put", "patch", "delete", "head", "options", "trace"]

  lemma MethodsAreMethods(key: string)
    ensures key in METHODS <==> IsMethod(key)
  {
  }

  datatype Findings = Findings(
    missingIds: seq<Slot>,
    missingTags: seq<Slot>,
    missingMetadata: seq<Slot>,
    firstSeen: map<string, Slot>,
    duplicates: seq<Duplicate>)
  {
    predicate Clean() {
      missingIds == [] && missingTags == [] && missingMetadata == [] && duplicates == []
    }
  }

  /** Each issue list names exactly the operations with that issue. */
  ghost predicate ListsOk(d: Doc, seen: set<Slot>, r: Findings) {
    && (forall s :: s in seen ==> Checked(d, s))
    && (forall s :: s in r.missingIds <==>
          s in seen && (d.entries[s].op.operationId.None? || Trim(d.entries[s].op.operationId.value) == ""))
    && (forall s :: s in r.missingTags <==>
          s in seen && (d.entries[s].op.tags.None? || |d.entries[s].op.tags.value| == 0))
    && (forall s :: s in r.missingMetadata <==> s in seen && d.entries[s].op.ci.CiMissing?)
  }

  ghost predicate HoldsTrimmed(d: Doc, seen: set<Slot>, s: Slot, x: string) {
    s in seen && Checked(d, s) && HasId(d.entries[s].op) && Trim(d.entries[s].op.operationId.value) == x
  }

  /** The first-seen map knows every id, and without a reported duplicate every id is unique. */
  ghost predicate IdsOk(d: Doc, seen: set<Slot>, r: Findings) {
    && (forall s, x :: HoldsTrimmed(d, seen, s, x) ==> x in r.firstSeen)
    && (forall x :: x in r.firstSeen ==> HoldsTrimmed(d, seen, r.firstSeen[x], x))
    && (r.duplicates == [] ==> forall s, t, x :: HoldsTrimmed(d, seen, s, x) && HoldsTrimmed(d, seen, t, x) ==> s == t)
  }

  /** `s` is looked at before `t`. */
  ghost predicate Comes(d: Doc, s: Slot, t: Slot) {
    Earlier(d.paths, s.path, t.path) || (s.path == t.path && Earlier(METHODS, s.key, t.key))
  }

  /** The first-seen map names the first holder of each id, and every other holder is reported with it. */
  ghost predicate FirstOk(d: Doc, seen: set<Slot>, r: Findings) {
    forall s, x :: HoldsTrimmed(d, seen, s, x) && x in r.firstSeen && s != r.firstSeen[x] ==>
        Comes(d, r.firstSeen[x], s) && Duplicate(x, r.firstSeen[x], s) in r.duplicates
  }

  /** Every reported duplicate is one, against the first holder. */
  ghost predicate DuplicatesOk(d: Doc, seen: set<Slot>, r: Findings) {
    forall k :: 0 <= k < |r.duplicates| ==>
      && r.duplicates[k].id in r.firstSeen && r.duplicates[k].first == r.firstSeen[r.duplicates[k].id]
      && r.duplicates[k].first != r.duplicates[k].second
      && HoldsTrimmed(d, seen, r.duplicates[k].first, r.duplicates[k].id)
      && HoldsTrimmed(d, seen, r.duplicates[k].second, r.duplicates[k].id)
  }

  /** What the validator knows after looking at the operations in `seen`. */
  ghost predicate Sound(d: Doc, seen: set<Slot>, r: Findings) {
    && ListsOk(d, seen, r) && IdsOk(d, seen, r) && DuplicatesOk(d, seen, r) && FirstOk(d, seen, r)
    && |seen| == |r.missingIds| + |r.firstSeen| + |r.duplicates|
  }

  /** One operation's turn. */
  function Inspect(r: Findings, s: Slot, op: Operation): Findings {
    var r1 := r.(missingTags := if HasTags(op) then r.missingTags else r.missingTags + [s],
                 missingMetadata := if op.ci.CiMissing? then r.missingMetadata + [s] else r.missingMetadata);
    if !HasId(op) then r1.(missingIds := r.missingIds + [s])
    else
      var id := Trim(op.operationId.value);
      if id in r.firstSeen then r1.(duplicates := r.duplicates + [Duplicate(id, r.firstSeen[id], s)])
      else r1.(firstSeen := r.firstSeen[id := s])
  }

  lemma HoldsMore(d: Doc, seen: set<Slot>, s: Slot, t: Slot, x: string)
    requires Checked(d, s)
    ensures HoldsTrimmed(d, seen + {s}, t, x) <==>
              HoldsTrimmed(d, seen, t, x)
                  || (t == s && HasId(d.entries[s].op) && Trim(d.entries[s].op.operationId.value) == x)
  {
  }

  lemma InspectLists(d: Doc, seen: set<Slot>, r: Findings, s: Slot)
    requires ListsOk(d, seen, r) && Checked(d, s)
    ensures ListsOk(d, seen + {s}, Inspect(r, s, d.entries[s].op))
  {
  }

  lemma InspectIds(d: Doc, seen: set<Slot>, r: Findings, s: Slot)
    requires IdsOk(d, seen, r) && Checked(d, s)
    ensures IdsOk(d, seen + {s}, Inspect(r, s, d.entries[s].op))
  {
    forall t, x
      ensures HoldsTrimmed(d, seen + {s}, t, x) <==>
                HoldsTrimmed(d, seen, t, x)
                    || (t == s && HasId(d.entries[s].op) && Trim(d.entries[s].op.operationId.value) == x)
    {
      HoldsMore(d, seen, s, t, x);
    }
  }

  lemma InspectDuplicates(d: Doc, seen: set<Slot>, r: Findings, s: Slot)
    requires IdsOk(d, seen, r) && DuplicatesOk(d, seen, r) && Checked(d, s) && s !in seen
    ensures DuplicatesOk(d, seen + {s}, Inspect(r, s, d.entries[s].op))
  {
  }

  lemma InspectFirst(d: Doc, seen: set<Slot>, r: Findings, s: Slot)
    requires IdsOk(d, seen, r) && FirstOk(d, seen, r) && Checked(d, s) && s !in seen
    requires forall t :: t in seen ==> Comes(d, t, s)
    ensures FirstOk(d, seen + {s}, Inspect(r, s, d.entries[s].op))
  {
    hide Comes;
    var r' := Inspect(r, s, d.entries[s].op);
    forall t, x | HoldsTrimmed(d, seen + {s}, t, x) && x in r'.firstSeen && t != r'.firstSeen[x]
      ensures Comes(d, r'.firstSeen[x], t) && Duplicate(x, r'.firstSeen[x], t) in r'.duplicates
    {
      HoldsMore(d, seen, s, t, x);
    }
  }

  lemma InspectCount(r: Findings, s: Slot, op: Operation)
    ensures var r' := Inspect(r, s, op);
            |r'.missingIds| + |r'.firstSeen| + |r'.duplicates| == |r.missingIds| + |r.firstSeen| + |r.duplicates| + 1
  {
  }

  lemma InspectSound(d: Doc, seen: set<Slot>, r: Findings, s: Slot)
    requires Sound(d, seen, r) && Checked(d, s) && s !in seen
    requires forall t :: t in seen ==> Comes(d, t, s)
    ensures Sound(d, seen + {s}, Inspect(r, s, d.entries[s].op))
  {
    InspectCount(r, s, d.entries[s].op);
    InspectLists(d, seen, r, s);
    InspectIds(d, seen, r, s);
    InspectDuplicates(d, seen, r, s);
    InspectFirst(d, seen, r, s);
  }

  ghost function AllChecked(d: Doc): set<Slot> {
    set s | s in d.entries && Checked(d, s)
  }

  /** The operations looked at once the first `i` paths and `j` methods of the next are done. */
  ghost function SeenUpTo(d: Doc, i: nat, j: nat): set<Slot>
    requires i <= |d.paths| && j <= |METHODS|
  {
    set s | s in d.entries && Checked(d, s)
        && (s.path in d.paths[..i] || (i < |d.paths| && s.path == d.paths[i] && s.key in METHODS[..j]))
  }

  lemma SeenBefore(d: Doc, i: nat, j: nat, t: Slot)
    requires i < |d.paths| && j < |METHODS| && t in SeenUpTo(d, i, j)
    ensures Comes(d, t, Slot(d.paths[i], METHODS[j]))
  {
    if t.path in d.paths[..i] {
      var k :| 0 <= k < i && d.paths[k] == t.path;
    } else {
      var k :| 0 <= k < j && METHODS[k] == t.key;
    }
  }

  lemma SeenStep(d: Doc, i: nat, j: nat)
    requires Shaped(d) && i < |d.paths| && j < |METHODS|
    ensures var s := Slot(d.paths[i], METHODS[j]);
            && s !in SeenUpTo(d, i, j)
            && SeenUpTo(d, i, j + 1) == SeenUpTo(d, i, j) + (if Checked(d, s) then {s} else {})
  {
  }

  lemma SeenRow(d: Doc, i: nat)
    requires i < |d.paths|
    ensures SeenUpTo(d, i + 1, 0) == SeenUpTo(d, i, |METHODS|)
  {
    assert d.paths[..i + 1] == d.paths[..i] + [d.paths[i]];
    assert METHODS[..|METHODS|] == METHODS;
    forall s | s in d.entries && Checked(d, s) ensures s.key in METHODS {
      MethodsAreMethods(s.key);
    }
  }

  /** The lists are empty exactly when the contract holds; every operation is counted once, as
      missing an id, as first holder of one, or as a duplicate. */
  lemma CleanIffContract(d: Doc, r: Findings)
    requires Shaped(d) && Sound(d, SeenUpTo(d, |d.paths|, 0), r)
    ensures r.Clean() <==> ContractHolds(d)
  {
    var seen := SeenUpTo(d, |d.paths|, 0);
    assert d.paths[..|d.paths|] == d.paths;
    assert forall s :: Checked(d, s) <==> s in seen;
    if r.Clean() {
      forall s | Checked(d, s)
        ensures HasId(d.entries[s].op) && HasTags(d.entries[s].op) && !d.entries[s].op.ci.CiMissing?
      {
        assert s !in r.missingIds && s !in r.missingTags && s !in r.missingMetadata;
      }
      forall s, t | Checked(d, s) && Checked(d, t) && s != t
        ensures Trim(d.entries[s].op.operationId.value) != Trim(d.entries[t].op.operationId.value)
      {
        assert HoldsTrimmed(d, seen, s, Trim(d.entries[s].op.operationId.value));
        assert HoldsTrimmed(d, seen, t, Trim(d.entries[t].op.operationId.value));
      }
    }
    if !r.Clean() {
      assert r.missingIds != [] ==> r.missingIds[0] in r.missingIds;
      assert r.missingTags != [] ==> r.missingTags[0] in r.missingTags;
      assert r.missingMetadata != [] ==> r.missingMetadata[0] in r.missingMetadata;
      assert r.duplicates != [] ==> HoldsTrimmed(d, seen, r.duplicates[0].first, r.duplicates[0].id);
    }
  }

  ghost predicate Progress(d: Doc, i: nat, j: nat, r: Findings, total: nat) {
    i <= |d.paths| && j <= |METHODS| && Sound(d, SeenUpTo(d, i, j), r) && total == |SeenUpTo(d, i, j)|
  }

  lemma Turn(d: Doc, i: nat, j: nat, r: Findings, total: nat)
    requires Shaped(d) && i < |d.paths| && j < |METHODS| && Progress(d, i, j, r, total)
    ensures var s := Slot(d.paths[i], METHODS[j]);
            if s in d.entries && d.entries[s].Object?
            then Progress(d, i, j + 1, Inspect(r, s, d.entries[s].op), total + 1)
            else Progress(d, i, j + 1, r, total)
  {
    hide Sound, SeenUpTo, Shaped, IsMethod, Inspect, Comes;
    var s := Slot(d.paths[i], METHODS[j]);
    SeenStep(d, i, j);
    MethodsAreMethods(METHODS[j]);
    if Checked(d, s) {
      forall t | t in SeenUpTo(d, i, j) ensures Comes(d, t, s) { SeenBefore(d, i, j, t); }
      InspectSound(d, SeenUpTo(d, i, j), r, s);
    }
  }

  lemma NextRow(d: Doc, i: nat, r: Findings, total: nat)
    requires i < |d.paths| && Progress(d, i, |METHODS|, r, total)
    ensures Progress(d, i + 1, 0, r, total)
  {
    SeenRow(d, i);
  }

  lemma NoneSeen(d: Doc)
    ensures Progress(d, 0, 0, Findings([], [], [], map[], []), 0)
  {
  }

  lemma AllSeen(d: Doc, r: Findings, total: nat)
    requires Shaped(d) && Progress(d, |d.paths|, 0, r, total)
    ensures Sound(d, AllChecked(d), r) && total == |AllChecked(d)|
    ensures total == |r.missingIds| + |r.firstSeen| + |r.duplicates|
    ensures r.Clean() <==> ContractHolds(d)
  {
    CleanIffContract(d, r);
    assert d.paths[..|d.paths|] == d.paths;
    assert SeenUpTo(d, |d.paths|, 0) == AllChecked(d);
  }

  method Validate(d: Doc) returns (passed: bool, r: Findings, totalOperations: nat)
    requires Shaped(d)
    ensures passed <==> ContractHolds(d)
    ensures totalOperations == |AllChecked(d)|
    ensures totalOperations == |r.missingIds| + |r.firstSeen| + |r.duplicates|
    ensures Sound(d, AllChecked(d), r)
  {
    hide Progress, Sound, ContractHolds, Inspect, AllChecked;
    r := Findings([], [], [], map[], []);
    totalOperations := 0;
    NoneSeen(d);
    for i := 0 to |d.paths|
      invariant Progress(d, i, 0, r, totalOperations)
    {
      for j := 0 to |METHODS|
        invariant Progress(d, i, j, r, totalOperations)
      {
        var s := Slot(d.paths[i], METHODS[j]);
        Turn(d, i, j, r, totalOperations);
        if s in d.entries && d.entries[s].Object? {
          totalOperations := totalOperations + 1;
          r := Inspect(r, s, d.entries[s].op);
        }
      }
      NextRow(d, i, r, totalOperations);
    }
    AllSeen(d, r, totalOperations);
    passed := r.Clean();
  }
}
