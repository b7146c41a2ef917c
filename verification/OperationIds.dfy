/** makeOperationId of sync-openapi-from-diff.ts: a base derived from method and path, then the
    first free numbered variant. */
module OperationIds {
  import opened Text

  function StripV1Prefix(routePath: string): string {
    if routePath == "/v1" then "/"
    else if StartsWith(routePath, "/v1/") then routePath[3..] else routePath
  }

  // ---- The base of an id --------------------------------------------------------------

  /** What one path segment contributes. */
  function SegmentToken(seg: string): (t: string)
    ensures AllAlnum(t)
  {
    if seg == "" then ""
    else if seg[0] == '{' && seg[|seg| - 1] == '}' then "By" + Capitalize(KeepAlnum(seg[1..|seg| - 1]))
    else Capitalize(KeepAlnum(seg))
  }

  function SegmentTokens(segs: seq<string>): (t: string)
    ensures AllAlnum(t)
  {
    if segs == [] then "" else SegmentToken(segs[0]) + SegmentTokens(segs[1..])
  }

  function BaseId(verb: string, routePath: string): string {
    var tokens := SegmentTokens(Split(StripV1Prefix(routePath), '/'));
    verb + (if tokens == "" then "Root" else tokens)
  }

  // ---- The suffix search -----------------------------------------------------------------

  /** The numbered variants already tried before `base + k`. */
  ghost function Tried(base: string, k: nat): set<string> {
    set i: nat | 2 <= i < k :: base + Decimal(i)
  }

  /** Numbered variants never repeat, so each used one tried leaves fewer used ids to run into:
      the search ends. */
  lemma SearchProgress(base: string, k: nat, used: set<string>)
    requires k >= 2 && base + Decimal(k) in used
    ensures used - Tried(base, k + 1) < used - Tried(base, k)
  {
    var x := base + Decimal(k);
    forall i: nat | 2 <= i < k ensures base + Decimal(i) != x {
      if base + Decimal(i) == x {
        assert (base + Decimal(i))[|base|..] == Decimal(i) && x[|base|..] == Decimal(k);
        DecimalInjective(i, k);
      }
    }
    assert x !in Tried(base, k);
    assert Tried(base, k + 1) == Tried(base, k) + {x};
  }

  function FirstFree(base: string, k: nat, used: set<string>): (id: string)
    requires k >= 2
    ensures id !in used
    ensures exists n: nat :: n >= k && id == base + Decimal(n) && forall i :: k <= i < n ==> base + Decimal(i) in used
    decreases used - Tried(base, k)
  {
    if base + Decimal(k) !in used then base + Decimal(k)
    else
      SearchProgress(base, k, used);
      FirstFree(base, k + 1, used)
  }

  function FreshId(verb: string, routePath: string, used: set<string>): (id: string)
    ensures id !in used
  {
    var base := BaseId(verb, routePath);
    if base !in used then base else FirstFree(base, 2, used)
  }

  lemma BaseIsAlnum(verb: string, routePath: string)
    requires verb != "" && AllAlnum(verb)
    ensures BaseId(verb, routePath) != "" && AllAlnum(BaseId(verb, routePath))
  {
  }

  /** A generated id is made of letters and digits; it is not blank and never needs trimming. */
  lemma FreshIdIsClean(verb: string, routePath: string, used: set<string>)
    requires verb != "" && AllAlnum(verb)
    ensures var id := FreshId(verb, routePath, used); AllAlnum(id) && !Blank(id) && Trim(id) == id
  {
    var base, id := BaseId(verb, routePath), FreshId(verb, routePath, used);
    BaseIsAlnum(verb, routePath);
    hide BaseId;
    if id != base {
      var n: nat :| id == base + Decimal(n);
    }
    assert AllAlnum(id) && id != "";
    AlnumIsTrimmed(id);
  }

  /** The mutable set of ids the synchroniser hands around. */
  class UsedIds {
    var ids: set<string>

    constructor ()
      ensures ids == {}
    {
      ids := {};
    }

    method Add(id: string)
      modifies this
      ensures ids == old(ids) + {id}
    {
      ids := ids + {id};
    }

    /** Ends for every finite set, returns an id that was not in it, and adds exactly that id. */
    method MakeOperationId(verb: string, routePath: string) returns (id: string)
      modifies this
      ensures id == FreshId(verb, routePath, old(ids))
      ensures id !in old(ids) && ids == old(ids) + {id}
    {
      var base := BaseId(verb, routePath);
      if base !in ids {
        ids := ids + {base};
        return base;
      }
      var suffix := 2;
      while base + Decimal(suffix) in ids
        invariant suffix >= 2 && ids == old(ids)
        invariant FirstFree(base, 2, ids) == FirstFree(base, suffix, ids)
        decreases ids - Tried(base, suffix)
      {
        SearchProgress(base, suffix, ids);
        suffix := suffix + 1;
      }
      id := base + Decimal(suffix);
      ids := ids + {id};
    }
  }
}
