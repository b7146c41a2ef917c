/** Which id a path gets when none is in use, from the shape of the path alone. */
module IdShapes {
  import opened Text
  import opened TextLaws
  import opened OperationIds

  /** The id for a method and a path when no id is in use. */
  function FirstId(verb: string, path: string): string {
    FreshId(verb, path, {})
  }

  /** The first id, unless in use; then the first number from two on that makes an unused one. */
  lemma NumberedIfUsed(verb: string, path: string, used: set<string>)
    ensures FirstId(verb, path) !in used ==> FreshId(verb, path, used) == FirstId(verb, path)
    ensures FirstId(verb, path) in used ==>
              exists n: nat :: && n >= 2 && FreshId(verb, path, used) == FirstId(verb, path) + Decimal(n)
                               && FirstId(verb, path) + Decimal(n) !in used
                               && forall i :: 2 <= i < n ==> FirstId(verb, path) + Decimal(i) in used
  {
    if FirstId(verb, path) in used {
      var id := FirstFree(FirstId(verb, path), 2, used);
      var n: nat :| n >= 2 && id == FirstId(verb, path) + Decimal(n)
                    && forall i :: 2 <= i < n ==> FirstId(verb, path) + Decimal(i) in used;
    }
  }

  predicate Versioned(p: string) {
    p == "/v1" || (|p| >= 4 && p[..4] == "/v1/")
  }

  function Upper(c: char): char {
    if 'a' <= c <= 'z' then ((c as int) - ('a' as int) + ('A' as int)) as char else c
  }

  predicate LetterOrDigit(c: char) {
    'a' <= c <= 'z' || 'A' <= c <= 'Z' || '0' <= c <= '9'
  }

  predicate Word(s: string) {
    s != "" && forall i :: 0 <= i < |s| ==> LetterOrDigit(s[i])
  }

  // ---- The tokens of a path ---------------------------------------------------------------

  function Tokens(p: string): string {
    SegmentTokens(Split(StripV1Prefix(p), '/'))
  }

  lemma FirstIdIs(verb: string, p: string)
    ensures FirstId(verb, p) == verb + (if Tokens(p) == "" then "Root" else Tokens(p))
  {
  }

  lemma {:induction false} TokensAppend(a: seq<string>, b: seq<string>)
    ensures SegmentTokens(a + b) == SegmentTokens(a) + SegmentTokens(b)
    decreases |a|
  {
    hide SegmentToken;
    if a == [] {
      assert a + b == b;
    } else {
      TokensAppend(a[1..], b);
      assert (a + b)[1..] == a[1..] + b;
      var x, y, z := SegmentToken(a[0]), SegmentTokens(a[1..]), SegmentTokens(b);
      assert x + (y + z) == (x + y) + z;
    }
  }

  lemma TokensOfOne(seg: string)
    ensures SegmentTokens([seg]) == SegmentToken(seg)
  {
    assert [seg][1..] == [];
  }

  lemma StripExtends(p: string, seg: string)
    requires p != "" && p[0] == '/' && p != "/v1" && '/' !in seg
    ensures StripV1Prefix(p + "/" + seg) == StripV1Prefix(p) + "/" + seg
  {
    var q := p + "/" + seg;
    assert |q| >= 2;
    if |p| >= 4 {
      assert q[..4] == p[..4] && q[3..] == p[3..] + "/" + seg;
    } else {
      assert q[|p|] == '/' && forall i :: 0 <= i < |p| ==> q[i] == p[i];
    }
  }

  lemma TokensExtend(p: string, seg: string)
    requires p != "" && p[0] == '/' && p != "/v1" && '/' !in seg
    ensures Tokens(p + "/" + seg) == Tokens(p) + SegmentToken(seg)
  {
    StripExtends(p, seg);
    SplitLast(StripV1Prefix(p), seg, '/');
    TokensAppend(Split(StripV1Prefix(p), '/'), [seg]);
    TokensOfOne(seg);
  }

  // ---- The version prefix -------------------------------------------------------------------

  lemma {:induction false} SplitStartsEmpty(p: string)
    requires p != "" && p[0] == '/'
    ensures Split(p, '/') == [""] + Split(p[1..], '/')
  {
  }

  lemma TokenOfWord(seg: string)
    requires Word(seg)
    ensures SegmentToken(seg) == [Upper(seg[0])] + seg[1..]
  {
    KeepAlnumOfAlnum(seg);
  }

  lemma EmptyTokens()
    ensures SegmentToken("") == "" && Split("", '/') == [""] && SegmentTokens([""]) == ""
    ensures SegmentToken("v1") == "V1"
  {
    TokensOfOne("");
    TokenOfWord("v1");
  }

  lemma VersionToken(p: string, rest: string)
    requires Versioned(p) && rest == if p == "/v1" then "/" else p[3..]
    ensures SegmentTokens(Split(p, '/')) == "V1" + SegmentTokens(Split(rest, '/'))
  {
    hide SegmentToken, Split;
    var tail := if p == "/v1" then "" else p[4..];
    SplitStartsEmpty(p);
    SplitStartsEmpty(rest);
    assert rest[1..] == tail;
    SplitWord("v1", tail, '/');
    assert p[1..] == if p == "/v1" then "v1" else "v1" + "/" + tail;
    TokensOfOne("v1");
    TokensOfOne("");
    TokenOfWord("v1");
    TokensAppend([""], Split(p[1..], '/'));
    TokensAppend([""], Split(tail, '/'));
    TokensAppend(["v1"], Split(tail, '/'));
    EmptyTokens();
  }

  /** A path and its versioned form get the same id, unless the path is versioned itself. */
  lemma VersionedFormIff(verb: string, p: string)
    requires p != "" && p[0] == '/'
    ensures FirstId(verb, "/v1" + p) == FirstId(verb, p) <==> !Versioned(p)
  {
    FirstIdIs(verb, p);
    FirstIdIs(verb, "/v1" + p);
    var q := "/v1" + p;
    assert q[..4] == "/v1/" && q[3..] == p && q != "/v1";
    assert StripV1Prefix(q) == p;
    if Versioned(p) {
      var rest := if p == "/v1" then "/" else p[3..];
      assert StripV1Prefix(p) == rest;
      VersionToken(p, rest);
      assert Tokens(q) == "V1" + Tokens(p);
    }
  }

  // ---- Segments -------------------------------------------------------------------------------

  lemma TokenOfTemplate(name: string)
    ensures SegmentToken("{" + name + "}") == "By"
        + (var k := KeepAlnum(name); if k == "" then "" else [Upper(k[0])] + k[1..])
  {
    var seg := "{" + name + "}";
    assert seg[1..|seg| - 1] == name;
  }

  /** The root. */
  lemma RootId(verb: string)
    ensures FirstId(verb, "/") == verb + "Root" && FirstId(verb, "/v1") == verb + "Root"
  {
    FirstIdIs(verb, "/");
    FirstIdIs(verb, "/v1");
    SplitStartsEmpty("/");
    assert Split("", '/') == [""];
    TokensAppend([""], [""]);
    TokensOfOne("");
  }

  /** Some letter or digit stands in the path, apart from its version prefix. */
  predicate Named(p: string) {
    var q := if |p| >= 4 && p[..4] == "/v1/" then p[3..] else p;
    p != "/v1" && exists i :: 0 <= i < |q| && LetterOrDigit(q[i])
  }

  lemma {:induction false} PartWith(s: string, i: nat) returns (k: nat)
    requires i < |s| && LetterOrDigit(s[i])
    ensures k < |Split(s, '/')| && exists j :: 0 <= j < |Split(s, '/')[k]| && LetterOrDigit(Split(s, '/')[k][j])
    decreases |s|
  {
    var parts, rest := Split(s, '/'), Split(s[1..], '/');
    if s[0] == '/' {
      k := PartWith(s[1..], i - 1);
      k := k + 1;
      assert parts[k] == rest[k - 1];
    } else if i == 0 {
      k := 0;
      assert parts[0][0] == s[0];
    } else {
      k := PartWith(s[1..], i - 1);
      if k == 0 {
        var j :| 0 <= j < |rest[0]| && LetterOrDigit(rest[0][j]);
        assert parts[0][j + 1] == rest[0][j];
      } else {
        assert parts[k] == rest[k];
      }
    }
  }

  lemma KeepsLetter(seg: string, j: nat)
    requires j < |seg| && LetterOrDigit(seg[j])
    ensures KeepAlnum(seg) != ""
  {
    assert seg == seg[..j] + ([seg[j]] + seg[j + 1..]);
    KeepAlnumAppend(seg[..j], [seg[j]] + seg[j + 1..]);
    KeepAlnumAppend([seg[j]], seg[j + 1..]);
    KeepAlnumOfAlnum([seg[j]]);
  }

  lemma {:induction false} PartToken(parts: seq<string>, k: nat)
    requires k < |parts| && exists j :: 0 <= j < |parts[k]| && LetterOrDigit(parts[k][j])
    ensures SegmentTokens(parts) != ""
    decreases |parts|
  {
    if k > 0 {
      PartToken(parts[1..], k - 1);
    } else {
      var j :| 0 <= j < |parts[0]| && LetterOrDigit(parts[0][j]);
      KeepsLetter(parts[0], j);
    }
  }

  lemma {:induction false} AlnumGivesToken(s: string, i: nat)
    requires i < |s| && LetterOrDigit(s[i])
    ensures SegmentTokens(Split(s, '/')) != ""
    decreases |s|
  {
    SplitExactly(s, '/');
    var k := PartWith(s, i);
    PartToken(Split(s, '/'), k);
  }

  lemma NamedHasTokens(p: string)
    requires Named(p)
    ensures Tokens(p) != ""
  {
    var q := if |p| >= 4 && p[..4] == "/v1/" then p[3..] else p;
    assert StripV1Prefix(p) == q;
    var i :| 0 <= i < |q| && LetterOrDigit(q[i]);
    AlnumGivesToken(q, i);
  }

  lemma NotBareVersion(p: string)
    requires Named(p)
    ensures p != "/v1"
  {
  }

  lemma NoSlash(seg: string)
    requires Word(seg)
    ensures '/' !in seg
  {
  }

  /** One more plain segment is appended with its first letter in upper case. */
  lemma SegmentExtendsId(verb: string, p: string, seg: string)
    requires p != "" && p[0] == '/' && Named(p) && Word(seg)
    ensures FirstId(verb, p + "/" + seg) == FirstId(verb, p) + [Upper(seg[0])] + seg[1..]
  {
    hide SegmentToken, StripV1Prefix, Named, FirstId, Tokens;
    NamedHasTokens(p);
    NoSlash(seg);
    NotBareVersion(p);
    TokensExtend(p, seg);
    TokenOfWord(seg);
    FirstIdIs(verb, p);
    FirstIdIs(verb, p + "/" + seg);
  }

  /** One more templated segment is appended as `By` and the capitalised name. */
  lemma TemplateExtendsId(verb: string, p: string, name: string)
    requires p != "" && p[0] == '/' && Named(p) && Word(name)
    ensures FirstId(verb, p + "/{" + name + "}") == FirstId(verb, p) + "By" + [Upper(name[0])] + name[1..]
  {
    hide SegmentToken, StripV1Prefix, Named, KeepAlnum, FirstId, Tokens;
    NamedHasTokens(p);
    NoSlash(name);
    NotBareVersion(p);
    var seg := "{" + name + "}";
    TokensExtend(p, seg);
    TokenOfTemplate(name);
    KeepAlnumOfAlnum(name);
    assert p + "/{" + name + "}" == p + "/" + seg;
    FirstIdIs(verb, p);
    FirstIdIs(verb, p + "/" + seg);
  }

  lemma OneSegment(seg: string)
    requires '/' !in seg && seg != "v1"
    ensures Tokens("/" + seg) == SegmentToken(seg)
  {
    var p := "/" + seg;
    assert p != "/v1" by { assert p[1..] == seg; }
    assert |p| >= 4 ==> p[..4][3] == p[3] == seg[2];
    assert StripV1Prefix(p) == p;
    SplitStartsEmpty(p);
    SplitWord(seg, "", '/');
    assert p[1..] == seg;
    TokensAppend([""], [seg]);
    TokensOfOne("");
    TokensOfOne(seg);
  }

  /** The first segment under the root. */
  lemma FirstSegmentId(verb: string, seg: string)
    requires Word(seg) && seg != "v1"
    ensures FirstId(verb, "/" + seg) == verb + [Upper(seg[0])] + seg[1..]
    ensures FirstId(verb, "/{" + seg + "}") == verb + "By" + [Upper(seg[0])] + seg[1..]
  {
    hide FirstId, Tokens, SegmentToken, KeepAlnum;
    FirstIdIs(verb, "/" + seg);
    FirstIdIs(verb, "/{" + seg + "}");
    NoSlash(seg);
    KeepAlnumOfAlnum(seg);
    OneSegment(seg);
    OneSegment("{" + seg + "}");
    TokenOfWord(seg);
    TokenOfTemplate(seg);
    assert "/{" + seg + "}" == "/" + ("{" + seg + "}");
  }

  lemma NoBraceToken(seg: string)
    requires '{' !in seg
    ensures SegmentToken(seg) == Capitalize(KeepAlnum(seg))
  {
    assert seg != "" ==> seg[0] in seg;
  }

  lemma DropsOne(c: char)
    requires !LetterOrDigit(c)
    ensures KeepAlnum([c]) == ""
  {
    assert [c][1..] == "";
  }

  /** Any other character of a plain segment plays no part. */
  lemma PunctuationIsDropped(verb: string, p: string, a: string, c: char, b: string)
    requires p != "" && p[0] == '/' && p != "/v1" && !LetterOrDigit(c)
    requires forall x :: x in a + [c] + b ==> x != '/' && x != '{' && x != '}'
    ensures FirstId(verb, p + "/" + (a + [c] + b)) == FirstId(verb, p + "/" + (a + b))
  {
    hide StripV1Prefix, SegmentToken, KeepAlnum, Tokens, SegmentTokens;
    var s, t := a + [c] + b, a + b;
    assert forall x :: x in t ==> x in s;
    assert c in s;
    TokensExtend(p, s);
    TokensExtend(p, t);
    assert s == a + ([c] + b);
    KeepAlnumAppend(a, [c] + b);
    KeepAlnumAppend([c], b);
    KeepAlnumAppend(a, b);
    DropsOne(c);
    NoBraceToken(s);
    NoBraceToken(t);
    FirstIdIs(verb, p + "/" + s);
    FirstIdIs(verb, p + "/" + t);
  }
}
