/** Blocks as trees, their printed form, and the round trip through the scanners. */
module BlockPrinter {
  import opened Collections
  import opened Scanner

  /** One element of a string literal: a plain character, or a backslash and any character. */
  datatype LitChar = Raw(c: char) | Esc(c: char)

  datatype Item = Plain(c: char) | Literal(quote: char, chars: seq<LitChar>) | Nested(body: Body)
  datatype Body = Nil | Cons(head: Item, tail: Body)

  // ---- Well-formed literals and blocks ------------------------------------------

  predicate ValidLiteral(quote: char, chars: seq<LitChar>) {
    && (quote == '"' || quote == '\'' || quote == '`')
    && forall k :: 0 <= k < |chars| && chars[k].Raw? ==> chars[k].c != quote && chars[k].c != '\\'
  }

  /** The literals the scanners do not see the end of. */
  predicate EndsInEscapedBackslash(chars: seq<LitChar>) {
    |chars| > 0 && chars[|chars| - 1] == Esc('\\')
  }

  predicate ValidItem(item: Item) {
    match item
    case Plain(c) => c != '"' && c != '\'' && c != '`' && c != '{' && c != '}'
    case Literal(q, chars) => ValidLiteral(q, chars) && !EndsInEscapedBackslash(chars)
    case Nested(body) => ValidBody(body)
  }

  predicate ValidBody(body: Body) {
    match body
    case Nil => true
    case Cons(item, rest) => ValidItem(item) && ValidBody(rest)
  }

  // ---- Printing -----------------------------------------------------------------

  function PrintChars(chars: seq<LitChar>): string {
    if chars == [] then ""
    else
      var last := chars[|chars| - 1];
      PrintChars(chars[..|chars| - 1]) + (if last.Raw? then [last.c] else ['\\', last.c])
  }

  function PrintItem(item: Item): string
    decreases item, 1
  {
    match item
    case Plain(c) => [c]
    case Literal(q, chars) => [q] + PrintChars(chars) + [q]
    case Nested(body) => PrintBlock(body)
  }

  function PrintBody(body: Body): string
    decreases body, 0
  {
    match body
    case Nil => ""
    case Cons(item, rest) => PrintItem(item) + PrintBody(rest)
  }

  function PrintBlock(body: Body): string
    decreases body, 1
  {
    ['{'] + PrintBody(body) + ['}']
  }

  // ---- Scanning a printed segment -------------------------------------------------

  ghost predicate Holds(s: string, i: nat, t: string) {
    i + |t| <= |s| && s[i..i + |t|] == t
  }

  lemma HoldsParts(s: string, i: nat, t: string, u: string)
    ensures Holds(s, i, t + u) <==> Holds(s, i, t) && Holds(s, i + |t|, u)
  {
    if Holds(s, i, t + u) {
      assert s[i..i + |t|] == (t + u)[..|t|] == t;
      assert s[i + |t|..i + |t| + |u|] == (t + u)[|t|..] == u;
    }
    if Holds(s, i, t) && Holds(s, i + |t|, u) {
      assert s[i..i + |t| + |u|] == s[i..i + |t|] + s[i + |t|..i + |t| + |u|];
    }
  }

  lemma HoldsOne(s: string, i: nat, c: char)
    requires Holds(s, i, [c])
    ensures s[i] == c
  {
  }

  /** Reading from `i` to `j` starts and ends in code state, changes the depth by nothing and
      never takes it below where it was. */
  ghost predicate Neutral(s: string, a: nat, i: nat, j: nat) {
    && a <= i <= j <= |s|
    && ModeAt(s, a, j) == Code
    && Depth(s, a, j, '{', '}') == Depth(s, a, i, '{', '}')
    && forall q :: i <= q <= j ==> Depth(s, a, q, '{', '}') >= Depth(s, a, i, '{', '}')
  }

  /** Inside a literal the depth stands still. */
  ghost predicate Still(s: string, a: nat, i: nat, j: nat) {
    && a <= i <= j <= |s|
    && forall q :: i <= q <= j ==> Depth(s, a, q, '{', '}') == Depth(s, a, i, '{', '}')
  }

  lemma {:induction false} CharsKeepString(s: string, a: nat, i: nat, q: char, chars: seq<LitChar>)
    requires ValidLiteral(q, chars)
    requires a < i && Holds(s, i, PrintChars(chars))
    requires ModeAt(s, a, i) == InString(q) && s[i - 1] == q
    ensures ModeAt(s, a, i + |PrintChars(chars)|) == InString(q)
    ensures Still(s, a, i, i + |PrintChars(chars)|)
    ensures s[i + |PrintChars(chars)| - 1] == '\\' <==> EndsInEscapedBackslash(chars)
    decreases |chars|
  {
    if chars != [] {
      var front, last := chars[..|chars| - 1], chars[|chars| - 1];
      var tail := if last.Raw? then [last.c] else ['\\', last.c];
      HoldsParts(s, i, PrintChars(front), tail);
      CharsKeepString(s, a, i, q, front);
      var j := i + |PrintChars(front)|;
      assert s[j..j + |tail|] == tail;
      assert s[j] == s[j..j + |tail|][0] == tail[0];
      assert ModeAt(s, a, j + 1) == Next(s, j, InString(q));
      assert Depth(s, a, j + 1, '{', '}') == Depth(s, a, j, '{', '}');
      if last.Esc? {
        assert s[j + 1] == s[j..j + |tail|][1] == last.c;
        assert ModeAt(s, a, j + 2) == Next(s, j + 1, Escaped(q)) == InString(q);
        assert Depth(s, a, j + 2, '{', '}') == Depth(s, a, j + 1, '{', '}');
      }
    }
  }

  lemma StillJoin(s: string, a: nat, i: nat, j: nat)
    requires a <= i < j < |s| && Still(s, a, i + 1, j)
    requires Depth(s, a, i + 1, '{', '}') == Depth(s, a, i, '{', '}')
    requires Depth(s, a, j + 1, '{', '}') == Depth(s, a, j, '{', '}')
    ensures Still(s, a, i, j + 1)
  {
  }

  lemma LiteralLayout(s: string, i: nat, q: char, chars: seq<LitChar>)
    requires Holds(s, i, PrintItem(Literal(q, chars)))
    ensures i + 2 + |PrintChars(chars)| <= |s| && |PrintItem(Literal(q, chars))| == 2 + |PrintChars(chars)|
    ensures s[i] == q && s[i + 1 + |PrintChars(chars)|] == q
    ensures Holds(s, i + 1, PrintChars(chars))
  {
    var body := PrintChars(chars);
    assert PrintItem(Literal(q, chars)) == [q] + (body + [q]);
    HoldsParts(s, i, [q], body + [q]);
    HoldsParts(s, i + 1, body, [q]);
    HoldsOne(s, i, q);
    HoldsOne(s, i + 1 + |body|, q);
  }

  /** A printed literal is left in code state exactly when it does not end in an escaped
      backslash; braces inside it never count. */
  lemma LiteralScan(s: string, a: nat, i: nat, q: char, chars: seq<LitChar>)
    requires ValidLiteral(q, chars)
    requires a <= i && Holds(s, i, PrintItem(Literal(q, chars))) && ModeAt(s, a, i) == Code
    ensures var j := i + |PrintItem(Literal(q, chars))|;
            && Still(s, a, i, j)
            && (ModeAt(s, a, j) == Code <==> !EndsInEscapedBackslash(chars))
            && (EndsInEscapedBackslash(chars) ==> ModeAt(s, a, j) == InString(q))
  {
    LiteralLayout(s, i, q, chars);
    var j := i + 1 + |PrintChars(chars)|;
    assert ModeAt(s, a, i + 1) == Next(s, i, Code) == InString(q);
    assert Depth(s, a, i + 1, '{', '}') == Depth(s, a, i, '{', '}');
    CharsKeepString(s, a, i + 1, q, chars);
    assert ModeAt(s, a, j + 1) == Next(s, j, InString(q));
    assert Depth(s, a, j + 1, '{', '}') == Depth(s, a, j, '{', '}');
    StillJoin(s, a, i, j);
  }

  lemma NeutralJoin(s: string, a: nat, i: nat, j: nat, k: nat)
    requires Neutral(s, a, i, j) && Neutral(s, a, j, k)
    ensures Neutral(s, a, i, k)
  {
  }

  lemma {:induction false} ItemScan(s: string, a: nat, i: nat, item: Item)
    requires ValidItem(item)
    requires a <= i && Holds(s, i, PrintItem(item)) && ModeAt(s, a, i) == Code
    ensures Neutral(s, a, i, i + |PrintItem(item)|)
    decreases item, 1
  {
    match item
    case Plain(c) =>
      HoldsOne(s, i, c);
      assert ModeAt(s, a, i + 1) == Next(s, i, Code) == Code;
    case Literal(q, chars) =>
      LiteralScan(s, a, i, q, chars);
    case Nested(body) =>
      NestedScan(s, a, i, body);
  }

  lemma {:induction false} BodyScan(s: string, a: nat, i: nat, body: Body)
    requires ValidBody(body)
    requires a <= i && Holds(s, i, PrintBody(body)) && ModeAt(s, a, i) == Code
    ensures Neutral(s, a, i, i + |PrintBody(body)|)
    decreases body, 0
  {
    match body
    case Nil =>
    case Cons(item, rest) =>
      HoldsParts(s, i, PrintItem(item), PrintBody(rest));
      ItemScan(s, a, i, item);
      BodyScan(s, a, i + |PrintItem(item)|, rest);
      NeutralJoin(s, a, i, i + |PrintItem(item)|, i + |PrintBody(body)|);
  }

  /** The braces around a body: one level up just after the first, back just after the last. */
  lemma {:induction false} NestedScan(s: string, a: nat, i: nat, body: Body)
    requires ValidBody(body)
    requires a <= i && Holds(s, i, PrintBlock(body)) && ModeAt(s, a, i) == Code
    ensures Neutral(s, a, i, i + |PrintBlock(body)|)
    ensures forall q :: i < q < i + |PrintBlock(body)| ==> Depth(s, a, q, '{', '}') > Depth(s, a, i, '{', '}')
    decreases body, 1
  {
    var text := PrintBody(body);
    assert PrintBlock(body) == ['{'] + (text + ['}']);
    HoldsParts(s, i, ['{'], text + ['}']);
    HoldsParts(s, i + 1, text, ['}']);
    HoldsOne(s, i, '{');
    HoldsOne(s, i + 1 + |text|, '}');
    assert ModeAt(s, a, i + 1) == Next(s, i, Code) == Code;
    assert Depth(s, a, i + 1, '{', '}') == Depth(s, a, i, '{', '}') + 1;
    BodyScan(s, a, i + 1, body);
    var j := i + 1 + |text|;
    assert ModeAt(s, a, j + 1) == Next(s, j, Code) == Code;
    assert Depth(s, a, j + 1, '{', '}') == Depth(s, a, j, '{', '}') - 1;
  }

  // ---- Round trip -------------------------------------------------------------------

  /** Whatever stands before and after a printed block, a scan from its opening brace closes
      at its last brace. */
  lemma PrintedBlockCloses(pre: string, body: Body, suf: string)
    requires ValidBody(body)
    ensures FirstZero(pre + PrintBlock(body) + suf, |pre|, |pre| + 1 + |PrintBody(body)|)
  {
    var s := pre + PrintBlock(body) + suf;
    assert s[|pre|..|pre| + |PrintBlock(body)|] == PrintBlock(body);
    NestedScan(s, |pre|, |pre|, body);
  }

  lemma PrintedBlockLayout(pre: string, body: Body, suf: string)
    ensures var s := pre + PrintBlock(body) + suf;
            && s[|pre|] == '{'
            && s[|pre| + 1..|pre| + 1 + |PrintBody(body)|] == PrintBody(body)
  {
  }

  /** Once the first zero is known, nothing else can be returned. */
  lemma OnlyResult(s: string, start: nat, p: nat, a: Option<Block>, b: Option<string>)
    requires FirstZero(s, start, p) && s[start] == '{'
    requires BalancedResult(s, start, '{', '}', a) && ContentResult(s, start, b)
    ensures a == Some(Block(s[start + 1..p], p + 1)) && b == Some(s[start + 1..p])
  {
    FirstCloseIsFirstZero(s, start, p);
    assert ClosesAt(s, start, p, '{', '}');
    FirstCloseIsFirstZero(s, start, a.value.endPos - 1);
    FirstZeroUnique(s, start, p, a.value.endPos - 1);
    var q: nat :| FirstZero(s, start, q) && b.value == s[start + 1..q];
    FirstZeroUnique(s, start, p, q);
  }

  /** The result both scanners must return on a printed block: its body, and the position just
      past its closing brace. */
  lemma RoundTrip(pre: string, body: Body, suf: string, a: Option<Block>, b: Option<string>)
    requires ValidBody(body)
    requires BalancedResult(pre + PrintBlock(body) + suf, |pre|, '{', '}', a)
    requires ContentResult(pre + PrintBlock(body) + suf, |pre|, b)
    ensures a == Some(Block(PrintBody(body), |pre| + |PrintBlock(body)|))
    ensures b == Some(PrintBody(body))
  {
    var s := pre + PrintBlock(body) + suf;
    var p := |pre| + 1 + |PrintBody(body)|;
    PrintedBlockCloses(pre, body, suf);
    PrintedBlockLayout(pre, body, suf);
    OnlyResult(s, |pre|, p, a, b);
  }

  lemma StillStringAtEnd(s: string, q: char, j: nat)
    requires IsQuote(q) && j + 1 == |s| && s[j] == '}' && ModeAt(s, 0, j) == InString(q)
    ensures Depth(s, 0, j + 1, '{', '}') == Depth(s, 0, j, '{', '}')
  {
  }

  /** A literal ending in an escaped backslash swallows the closing brace after it. */
  lemma UnclosedLiteralHidesBrace(s: string, q: char, chars: seq<LitChar>, p: nat)
    requires ValidLiteral(q, chars) && EndsInEscapedBackslash(chars)
    requires s == ['{'] + PrintItem(Literal(q, chars)) + ['}']
    ensures !FirstZero(s, 0, p)
  {
    var text := PrintItem(Literal(q, chars));
    assert s[1..1 + |text|] == text;
    assert ModeAt(s, 0, 1) == Next(s, 0, ModeAt(s, 0, 0)) == Code;
    assert Depth(s, 0, 1, '{', '}') == Depth(s, 0, 0, '{', '}') + Delta(s, 0, 0, '{', '}') == 1;
    LiteralScan(s, 0, 1, q, chars);
    StillStringAtEnd(s, q, 1 + |text|);
    if 0 < p < |s| {
      assert Depth(s, 0, p + 1, '{', '}') == 1;
    }
  }

  /** The excluded literals are exactly the ones that break the round trip: a block holding one
      literal is seen to close if and only if the literal does not end in an escaped backslash. */
  lemma LiteralBlockClosesIff(s: string, q: char, chars: seq<LitChar>)
    requires ValidLiteral(q, chars) && s == PrintBlock(Cons(Literal(q, chars), Nil))
    ensures (exists p: nat :: FirstZero(s, 0, p)) <==> !EndsInEscapedBackslash(chars)
  {
    var body := Cons(Literal(q, chars), Nil);
    var text := PrintItem(Literal(q, chars));
    assert PrintBody(body) == text + PrintBody(Nil) == text;
    assert s == ['{'] + text + ['}'];
    if EndsInEscapedBackslash(chars) {
      forall p: nat ensures !FirstZero(s, 0, p) {
        UnclosedLiteralHidesBrace(s, q, chars, p);
      }
    } else {
      PrintedBlockCloses([], body, []);
      assert [] + s + [] == s;
      assert FirstZero(s, 0, 1 + |text|);
    }
  }
}
