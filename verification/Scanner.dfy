/** The two brace scanners of check-documentation.ts, proved against one declarative
    specification: the position where the code-level depth first returns to zero. */
module Scanner {
  import opened Collections

  // ---- Lexical state ----------------------------------------------------------

  /** `inString`, `stringChar` and `escapeNext` as one value: the escape flag is only ever
      set inside a string. */
  datatype Mode = Code | InString(quote: char) | Escaped(quote: char)

  predicate IsQuote(c: char) {
    c == '"' || c == '\'' || c == '`'
  }

  /** The state after reading `s[i]`, when `m` is the state before it.  A closing quote
      counts only if the character before it is not a backslash. */
  function Next(s: string, i: nat, m: Mode): Mode
    requires i < |s|
  {
    match m
    case Escaped(q) => InString(q)
    case Code => if IsQuote(s[i]) then InString(s[i]) else Code
    case InString(q) =>
      if s[i] == q && !(i > 0 && s[i - 1] == '\\') then Code
      else if s[i] == '\\' then Escaped(q)
      else InString(q)
  }

  /** The state before reading `s[i]`, for a scan started at `start`. */
  function ModeAt(s: string, start: nat, i: nat): Mode
    requires start <= i <= |s|
    decreases i
  {
    if i == start then Code else Next(s, i - 1, ModeAt(s, start, i - 1))
  }

  /** What reading `s[i]` adds to the depth: only characters that leave the scan in code
      state count. */
  function Delta(s: string, start: nat, i: nat, open: char, close: char): int
    requires start <= i < |s|
  {
    if ModeAt(s, start, i + 1) != Code then 0
    else (if s[i] == open then 1 else 0) - (if s[i] == close then 1 else 0)
  }

  function Depth(s: string, start: nat, i: nat, open: char, close: char): int
    requires start <= i <= |s|
    decreases i
  {
    if i == start then 0 else Depth(s, start, i - 1, open, close) + Delta(s, start, i - 1, open, close)
  }

  // ---- Specification ----------------------------------------------------------

  /** `p` holds a closing character, read in code state, that brings the depth to zero. */
  ghost predicate ClosesAt(s: string, start: nat, p: nat, open: char, close: char) {
    start <= p < |s| && s[p] == close && ModeAt(s, start, p + 1) == Code && Depth(s, start, p + 1, open, close) == 0
  }

  ghost predicate FirstClose(s: string, start: nat, p: nat, open: char, close: char) {
    && ClosesAt(s, start, p, open, close)
    && forall q :: start <= q < p ==> !ClosesAt(s, start, q, open, close)
  }

  /** Braces only, and without mentioning the character at `p`: the depth is positive strictly
      after the opening brace and first zero just past `p`. */
  ghost predicate FirstZero(s: string, start: nat, p: nat) {
    && start < p < |s|
    && Depth(s, start, p + 1, '{', '}') == 0
    && forall q :: start < q <= p ==> Depth(s, start, q, '{', '}') > 0
  }

  /** JavaScript's `substring`, which swaps its arguments when they are out of order. */
  function Substring(s: string, a: nat, b: nat): string
    requires a <= |s| && b <= |s|
  {
    if a <= b then s[a..b] else s[b..a]
  }

  datatype Block = Block(content: string, endPos: nat)

  ghost predicate BalancedResult(s: string, start: nat, open: char, close: char, r: Option<Block>) {
    && (r.None? ==> start >= |s| || s[start] != open || forall p :: !ClosesAt(s, start, p, open, close))
    && (r.Some? ==>
          && start < |s| && s[start] == open
          && r.value.endPos > 0
          && FirstClose(s, start, r.value.endPos - 1, open, close)
          && r.value.content == Substring(s, start + 1, r.value.endPos - 1))
  }

  ghost predicate ContentResult(s: string, start: nat, r: Option<string>) {
    && (r.None? ==> forall p: nat :: !FirstZero(s, start, p))
    && (r.Some? ==> exists p: nat :: FirstZero(s, start, p) && r.value == s[start + 1..p])
  }

  // ---- The two loops ----------------------------------------------------------

  method ExtractBalanced(content: string, position: nat, open: char, close: char) returns (r: Option<Block>)
    ensures BalancedResult(content, position, open, close, r)
  {
    if position >= |content| || content[position] != open {
      return None;
    }
    var depth := 0;
    var pos := position;
    var inString, stringChar, escapeNext := false, ' ', false;
    while pos < |content|
      invariant position <= pos <= |content|
      invariant escapeNext ==> inString
      invariant ModeAt(content, position, pos) ==
                if escapeNext then Escaped(stringChar) else if inString then InString(stringChar) else Code
      invariant inString ==> IsQuote(stringChar)
      invariant depth == Depth(content, position, pos, open, close)
      invariant forall q :: position <= q < pos ==> !ClosesAt(content, position, q, open, close)
    {
      var ch := content[pos];
      if escapeNext {
        escapeNext := false;
        pos := pos + 1;
        continue;
      }
      if !inString && IsQuote(ch) {
        inString, stringChar := true, ch;
      } else if inString && ch == stringChar && !(pos > 0 && content[pos - 1] == '\\') {
        inString, stringChar := false, ' ';
      } else if ch == '\\' && inString {
        escapeNext := true;
      }
      if !inString {
        if ch == open { depth := depth + 1; }
        if ch == close {
          depth := depth - 1;
          if depth == 0 {
            assert FirstClose(content, position, pos, open, close);
            return Some(Block(Substring(content, position + 1, pos), pos + 1));
          }
        }
      }
      pos := pos + 1;
    }
    return None;
  }

  /** `startPos` is the position of the brace the start pattern ends with. */
  method ExtractBalancedContent(content: string, startPos: nat) returns (r: Option<string>)
    requires startPos < |content| && content[startPos] == '{'
    ensures ContentResult(content, startPos, r)
  {
    var depth := 1;
    var pos := startPos + 1;
    var inString, stringChar, escapeNext := false, ' ', false;
    assert ModeAt(content, startPos, pos) == Next(content, startPos, ModeAt(content, startPos, startPos)) == Code;
    while pos < |content| && depth > 0
      invariant startPos < pos <= |content|
      invariant escapeNext ==> inString
      invariant ModeAt(content, startPos, pos) ==
                if escapeNext then Escaped(stringChar) else if inString then InString(stringChar) else Code
      invariant inString ==> IsQuote(stringChar)
      invariant depth == Depth(content, startPos, pos, '{', '}') >= 0
      invariant forall q :: startPos < q < pos ==> Depth(content, startPos, q, '{', '}') > 0
      invariant depth == 0 ==> startPos + 1 < pos
    {
      var ch := content[pos];
      if escapeNext {
        escapeNext := false;
        pos := pos + 1;
        continue;
      }
      if !inString && IsQuote(ch) {
        inString, stringChar := true, ch;
      } else if inString && ch == stringChar && !(pos > 0 && content[pos - 1] == '\\') {
        inString, stringChar := false, ' ';
      } else if ch == '\\' && inString {
        escapeNext := true;
      }
      if !inString {
        if ch == '{' { depth := depth + 1; } else if ch == '}' { depth := depth - 1; }
      }
      pos := pos + 1;
    }
    if depth == 0 {
      assert FirstZero(content, startPos, pos - 1);
      return Some(content[startPos + 1..pos - 1]);
    }
    return None;
  }

  // ---- One specification ------------------------------------------------------

  lemma DepthStepsByOne(s: string, start: nat, i: nat)
    requires start <= i < |s|
    ensures -1 <= Depth(s, start, i + 1, '{', '}') - Depth(s, start, i, '{', '}') <= 1
    ensures Depth(s, start, i + 1, '{', '}') < Depth(s, start, i, '{', '}') ==>
              s[i] == '}' && ModeAt(s, start, i + 1) == Code
  {
  }

  lemma {:induction false} PositiveUntilClose(s: string, start: nat, i: nat)
    requires start < i <= |s| && s[start] == '{'
    requires forall q :: start <= q < i ==> !ClosesAt(s, start, q, '{', '}')
    ensures Depth(s, start, i, '{', '}') > 0
    decreases i
  {
    assert ModeAt(s, start, start + 1) == Next(s, start, ModeAt(s, start, start)) == Code;
    assert Depth(s, start, start + 1, '{', '}') == Depth(s, start, start, '{', '}')
        + Delta(s, start, start, '{', '}') == 1;
    if i > start + 1 {
      PositiveUntilClose(s, start, i - 1);
      DepthStepsByOne(s, start, i - 1);
      assert !ClosesAt(s, start, i - 1, '{', '}');
    }
  }

  /** Both scanners stop at the same place: the first close is the first zero of the depth. */
  lemma FirstCloseIsFirstZero(s: string, start: nat, p: nat)
    requires start < |s| && s[start] == '{'
    ensures FirstClose(s, start, p, '{', '}') <==> FirstZero(s, start, p)
  {
    assert ModeAt(s, start, start + 1) == Next(s, start, ModeAt(s, start, start)) == Code;
    assert Depth(s, start, start + 1, '{', '}') == Depth(s, start, start, '{', '}')
        + Delta(s, start, start, '{', '}') == 1;
    if FirstClose(s, start, p, '{', '}') {
      forall q | start < q <= p ensures Depth(s, start, q, '{', '}') > 0 {
        PositiveUntilClose(s, start, q);
      }
    }
    if FirstZero(s, start, p) {
      DepthStepsByOne(s, start, p);
      forall q | start <= q < p ensures !ClosesAt(s, start, q, '{', '}') {
        assert Depth(s, start, q + 1, '{', '}') > 0;
      }
    }
  }

  lemma FirstZeroUnique(s: string, start: nat, p: nat, q: nat)
    requires FirstZero(s, start, p) && FirstZero(s, start, q)
    ensures p == q
  {
  }

  /** On every text and every opening brace the scanners agree: both fail or both return the
      same body. */
  lemma ScannersAgree(s: string, start: nat, a: Option<Block>, b: Option<string>)
    requires start < |s| && s[start] == '{'
    requires BalancedResult(s, start, '{', '}', a) && ContentResult(s, start, b)
    ensures a.None? <==> b.None?
    ensures a.Some? ==> a.value.content == b.value
  {
    if a.Some? {
      FirstCloseIsFirstZero(s, start, a.value.endPos - 1);
    }
    if b.Some? {
      var p: nat :| FirstZero(s, start, p) && b.value == s[start + 1..p];
      FirstCloseIsFirstZero(s, start, p);
      if a.Some? {
        FirstZeroUnique(s, start, p, a.value.endPos - 1);
      }
    }
  }

  /** Asked for one and the same character on both sides, the first scanner returns it. */
  lemma SameDelimiters(s: string, start: nat, c: char, r: Option<Block>)
    requires start < |s| && s[start] == c && c != '"' && c != '\'' && c != '`'
    requires BalancedResult(s, start, c, c, r)
    ensures r == Some(Block([c], start + 1))
  {
    assert ModeAt(s, start, start + 1) == Next(s, start, ModeAt(s, start, start)) == Code;
    assert Depth(s, start, start + 1, c, c) == Depth(s, start, start, c, c) + Delta(s, start, start, c, c) == 0;
    assert ClosesAt(s, start, start, c, c);
    assert s[start..start + 1] == [c];
  }

  // ---- Locality of the nested scan ---------------------------------------------

  /** A scan restarted in code state sees the same lexical states from there on, and its
      depth differs by a constant. */
  lemma {:induction false} RestartShifts(s: string, a: nat, b: nat, i: nat)
    requires a <= b <= i <= |s| && ModeAt(s, a, b) == Code
    ensures ModeAt(s, b, i) == ModeAt(s, a, i)
    ensures Depth(s, a, i, '{', '}') == Depth(s, a, b, '{', '}') + Depth(s, b, i, '{', '}')
    decreases i
  {
    if i > b {
      RestartShifts(s, a, b, i - 1);
    }
  }

  /** A depth that starts positive and ends at or below zero, in steps of at most one,
      passes zero for a first time. */
  lemma {:induction false} FirstZeroExists(s: string, b: nat, i: nat) returns (q: nat)
    requires b + 1 < i <= |s| && s[b] == '{'
    requires Depth(s, b, i, '{', '}') <= 0
    ensures q < i && FirstZero(s, b, q)
    decreases i
  {
    assert ModeAt(s, b, b + 1) == Next(s, b, ModeAt(s, b, b)) == Code;
    assert Depth(s, b, b + 1, '{', '}') == Depth(s, b, b, '{', '}') + Delta(s, b, b, '{', '}') == 1;
    if j :| b + 1 < j < i && Depth(s, b, j, '{', '}') <= 0 {
      q := FirstZeroExists(s, b, j);
    } else {
      q := i - 1;
      assert b < q by { DepthStepsByOne(s, b, i - 1); }
      DepthStepsByOne(s, b, q);
    }
  }

  /** Nested extraction: if the outer scan from `a` closes at `p`, then the scan restarted at an
      inner brace that the outer scan read in code state closes strictly before `p`. */
  lemma NestedScanStaysInside(s: string, a: nat, b: nat, p: nat) returns (q: nat)
    requires FirstZero(s, a, p) && a < b < p
    requires s[b] == '{' && ModeAt(s, a, b) == Code
    ensures b < q < p && FirstZero(s, b, q)
  {
    RestartShifts(s, a, b, p);
    RestartShifts(s, a, b, p + 1);
    assert Depth(s, a, b, '{', '}') > 0;
    DepthStepsByOne(s, a, p);
    assert Depth(s, a, p, '{', '}') == 1;
    assert Depth(s, b, p, '{', '}') <= 0;
    assert ModeAt(s, b, b + 1) == Next(s, b, ModeAt(s, b, b)) == Code;
    assert Depth(s, b, b + 1, '{', '}') == Depth(s, b, b, '{', '}') + Delta(s, b, b, '{', '}') == 1;
    q := FirstZeroExists(s, b, p);
  }

  lemma NestedResult(s: string, a: nat, b: nat, p: nat, r: Option<Block>)
    requires FirstZero(s, a, p) && a < b < p && s[b] == '{' && ModeAt(s, a, b) == Code
    requires BalancedResult(s, b, '{', '}', r)
    ensures r.Some? && b < r.value.endPos - 1 < p && r.value.content == s[b + 1..r.value.endPos - 1]
  {
    hide ModeAt, Depth;
    var q := NestedScanStaysInside(s, a, b, p);
    FirstCloseIsFirstZero(s, b, q);
    assert ClosesAt(s, b, q, '{', '}');
    FirstCloseIsFirstZero(s, b, r.value.endPos - 1);
    FirstZeroUnique(s, b, q, r.value.endPos - 1);
  }

  /** The schema block of a route: the route's object is extracted, a brace is looked up in it (by
      `find`), and the first scan is restarted at that brace in the whole text.  If the brace is
      read in code state the schema is found, lies in the route's object and ends before it. */
  method ExtractNested(content: string, position: nat, find: string -> Option<nat>)
    returns (outer: Option<Block>, inner: Option<Block>)
    requires forall t: string, k: nat :: find(t) == Some(k) ==> k < |t| && t[k] == '{'
    ensures BalancedResult(content, position, '{', '}', outer)
    ensures outer.None? || find(outer.value.content).None? ==> inner.None?
    ensures outer.Some? && find(outer.value.content).Some? ==>
              var k := find(outer.value.content).value;
              && position + 1 + k < outer.value.endPos - 1 <= |content|
              && BalancedResult(content, position + 1 + k, '{', '}', inner)
              && (ModeAt(content, position, position + 1 + k) == Code ==>
                    && inner.Some? && position + 1 + k < inner.value.endPos - 1 < outer.value.endPos - 1
                    && inner.value.content == outer.value.content[k + 1..inner.value.endPos - 2 - position])
  {
    hide ModeAt, Depth, FirstZero;
    outer := ExtractBalanced(content, position, '{', '}');
    if outer.None? { return outer, None; }
    var p := outer.value.endPos - 1;
    FirstCloseIsFirstZero(content, position, p);
    var found := find(outer.value.content);
    if found.None? { return outer, None; }
    var k := found.value;
    var schemaPos := position + 1 + k;
    inner := ExtractBalanced(content, schemaPos, '{', '}');
    if ModeAt(content, position, schemaPos) == Code {
      NestedResult(content, position, schemaPos, p, inner);
    }
  }

  /** The condition is needed: `{"{"}` closes, but the brace inside its string does not. */
  lemma NestedScanInStringCanFail()
    ensures FirstZero("{\"{\"}", 0, 4)
    ensures forall q: nat :: !FirstZero("{\"{\"}", 2, q)
  {
  }

  /** Any text of this shape: a block with a string that holds a brace, then an opened string that
      holds a closing brace. */
  lemma OverrunningShape(s: string)
    requires |s| == 11 && s[0] == s[2] == '{' && s[1] == s[4] == s[9] == '"' && s[5] == s[10] == '}'
    requires s[3] == s[6] == s[8] == ' ' && s[7] == 'x'
    ensures FirstZero(s, 0, 5) && FirstZero(s, 2, 10)
  {
  }

  /** Or it closes past the outer block: the outer block closes at 5, and the scan restarted at the
      brace inside the string closes at 10. */
  lemma NestedScanInStringCanOverrun()
    ensures FirstZero("{\"{ \"} x \"}", 0, 5)
    ensures FirstZero("{\"{ \"} x \"}", 2, 10)
  {
    hide FirstZero;
    OverrunningShape("{\"{ \"} x \"}");
  }
}
