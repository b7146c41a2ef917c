/** Which summaries and descriptions the synchroniser takes for hand-written, character by
    character. */
module HandWritten {
  import opened Collections
  import opened Text
  import opened TextLaws
  import opened OpenApi
  import opened Enrichment

  // ---- Hand-written texts ----------------------------------------------------------------

  ghost predicate Requests(t: string, verb: string) {
    exists gap, rest :: gap != "" && AllSpace(gap) && t == verb + gap + "/" + rest
  }

  /** A method in capitals, white space, and a path. */
  ghost predicate RequestLike(t: string) {
    || Requests(t, "GET") || Requests(t, "POST") || Requests(t, "PUT") || Requests(t, "PATCH")
    || Requests(t, "DELETE") || Requests(t, "HEAD") || Requests(t, "OPTIONS") || Requests(t, "TRACE")
  }

  predicate AutoLike(t: string) {
    && |t| >= 5 && (t[0] == 'a' || t[0] == 'A') && (t[1] == 'u' || t[1] == 'U') && (t[2] == 't' || t[2] == 'T')
    && (t[3] == 'o' || t[3] == 'O') && (t[4] == '-' || t[4] in WHITE)
  }

  /** "This endpoint", in any mixture of capitals and small letters. */
  predicate EndpointLike(t: string) {
    |t| >= 13 && forall i :: 0 <= i < 13 ==> t[i] == "this endpoint"[i] || t[i] == "THIS ENDPOINT"[i]
  }

  ghost predicate WrittenSummary(summary: Option<string>) {
    summary.Some? && (var t := Trim(summary.value); t != "" && !RequestLike(t) && !AutoLike(t))
  }

  predicate WrittenDescription(description: Option<string>) {
    description.Some? && (var t := Trim(description.value); t != "" && !AutoLike(t) && !EndpointLike(t))
  }

  lemma {:induction false} TrimLeftStops(gap: string, rest: string)
    requires AllSpace(gap)
    ensures TrimLeft(gap + "/" + rest) == "/" + rest
    decreases |gap|
  {
    hide WHITE;
    if gap != "" {
      SpaceIsWhite(gap[0]);
      TrimLeftStops(gap[1..], rest);
      assert (gap + "/" + rest)[1..] == gap[1..] + "/" + rest;
    } else {
      assert gap + "/" + rest == "/" + rest;
      assert !IsSpace('/');
    }
  }

  lemma RequestsIff(t: string, verb: string)
    ensures VerbAndPath(t, verb) <==> Requests(t, verb)
  {
    hide WHITE;
    if VerbAndPath(t, verb) {
      var tail := t[|verb|..];
      var gap := TrimLeftSplits(tail);
      var rest := TrimLeft(tail)[1..];
      assert TrimLeft(tail) == "/" + rest;
      assert t == verb + gap + "/" + rest;
      SpaceIsWhite(tail[0]);
      assert gap != "" by { assert tail[0] == t[|verb|] && !IsSpace('/'); }
    }
    if Requests(t, verb) {
      var gap, rest :| gap != "" && AllSpace(gap) && t == verb + gap + "/" + rest;
      assert t[|verb|..] == gap + "/" + rest && t[|verb|] == gap[0];
      TrimLeftStops(gap, rest);
      SpaceIsWhite(gap[0]);
    }
  }

  lemma {:induction false} LowerAllAt(s: string, i: nat)
    requires i < |s|
    ensures |LowerAll(s)| == |s| && LowerAll(s)[i] == Lower(s[i])
    decreases |s|
  {
    if i > 0 {
      LowerAllAt(s[1..], i - 1);
    } else if |s| > 1 {
      LowerAllAt(s[1..], 0);
    }
  }

  lemma LowerAllIs(s: string, t: string)
    requires |s| == |t|
    ensures LowerAll(s) == t <==> forall i :: 0 <= i < |s| ==> Lower(s[i]) == t[i]
  {
    forall i | 0 <= i < |s| ensures |LowerAll(s)| == |s| && LowerAll(s)[i] == Lower(s[i]) { LowerAllAt(s, i); }
    if s == "" { assert LowerAll(s) == ""; }
  }

  lemma AutoIff(t: string)
    ensures AutoPrefixed(t) <==> AutoLike(t)
  {
    hide WHITE, IsSpace;
    if |t| >= 5 {
      LowerAllIs(t[..4], "auto");
      SpaceIsWhite(t[4]);
      assert "auto"[0] == 'a' && "auto"[1] == 'u' && "auto"[2] == 't' && "auto"[3] == 'o';
    }
  }

  lemma CapitalOf(i: nat)
    requires i < 13
    ensures var c := "this endpoint"[i];
            "THIS ENDPOINT"[i] == if 'a' <= c <= 'z' then ((c as int) - 32) as char else c
    ensures !('A' <= "this endpoint"[i] <= 'Z')
  {
  }

  lemma EndpointIff(t: string)
    ensures ThisEndpoint(t) <==> EndpointLike(t)
  {
    if |t| >= 13 {
      LowerAllIs(t[..13], "this endpoint");
      forall i | 0 <= i < 13
        ensures Lower(t[i]) == "this endpoint"[i] <==> t[i] == "this endpoint"[i] || t[i] == "THIS ENDPOINT"[i]
      {
        CapitalOf(i);
      }
    }
  }

  lemma GenericIff(t: string)
    ensures GenericSummary(t) <==> t == "" || RequestLike(t) || AutoLike(t)
    ensures GenericDescription(t) <==> t == "" || AutoLike(t) || EndpointLike(t)
  {
    hide VerbAndPath, Requests, AutoPrefixed, AutoLike, ThisEndpoint, EndpointLike;
    RequestsIff(t, "GET"); RequestsIff(t, "POST"); RequestsIff(t, "PUT"); RequestsIff(t, "PATCH");
    RequestsIff(t, "DELETE"); RequestsIff(t, "HEAD"); RequestsIff(t, "OPTIONS"); RequestsIff(t, "TRACE");
    AutoIff(t);
    EndpointIff(t);
  }
}
