/** The JavaScript string operations the OpenAPI scripts use. */
module Text {

  // ---- White space and trimming ----------------------------------------------------

  /** What `trim` removes and `\s` matches. */
  predicate IsSpace(c: char) {
    var n := c as int;
    || 0x09 <= n <= 0x0D || n == 0x20 || n == 0xA0 || n == 0x1680 || 0x2000 <= n <= 0x200A
    || n == 0x2028 || n == 0x2029 || n == 0x202F || n == 0x205F || n == 0x3000 || n == 0xFEFF
  }

  function TrimLeft(s: string): string {
    if s != [] && IsSpace(s[0]) then TrimLeft(s[1..]) else s
  }

  function TrimRight(s: string): string {
    if s != [] && IsSpace(s[|s| - 1]) then TrimRight(s[..|s| - 1]) else s
  }

  function Trim(s: string): string {
    TrimRight(TrimLeft(s))
  }

  predicate Blank(s: string) {
    Trim(s) == ""
  }

  lemma {:induction false} TrimRightKeepsPrefix(s: string, k: nat)
    requires k < |s| && !IsSpace(s[k])
    ensures k < |TrimRight(s)| && TrimRight(s)[..k + 1] == s[..k + 1]
    decreases |s|
  {
    if IsSpace(s[|s| - 1]) {
      TrimRightKeepsPrefix(s[..|s| - 1], k);
      assert s[..|s| - 1][..k + 1] == s[..k + 1];
    }
  }

  /** Trimming keeps the first two characters when neither is white space. */
  lemma TrimKeepsStart(s: string)
    requires |s| >= 2 && !IsSpace(s[0]) && !IsSpace(s[1])
    ensures |Trim(s)| >= 2 && Trim(s)[0] == s[0] && Trim(s)[1] == s[1]
  {
    TrimRightKeepsPrefix(s, 1);
    assert Trim(s)[..2][0] == s[..2][0] && Trim(s)[..2][1] == s[..2][1];
  }

  // ---- Prefixes, splitting, joining ---------------------------------------------------

  predicate StartsWith(s: string, prefix: string) {
    |prefix| <= |s| && s[..|prefix|] == prefix
  }

  function Split(s: string, sep: char): (parts: seq<string>)
    ensures |parts| > 0
  {
    if s == "" then [""]
    else if s[0] == sep then [""] + Split(s[1..], sep)
    else
      var rest := Split(s[1..], sep);
      [[s[0]] + rest[0]] + rest[1..]
  }

  function Join(parts: seq<string>, sep: string): string {
    if parts == [] then "" else if |parts| == 1 then parts[0] else parts[0] + sep + Join(parts[1..], sep)
  }

  // ---- Letters and digits ---------------------------------------------------------------

  predicate IsLower(c: char) { 'a' <= c <= 'z' }
  predicate IsDigit(c: char) { '0' <= c <= '9' }
  predicate IsAlnum(c: char) { IsLower(c) || 'A' <= c <= 'Z' || IsDigit(c) }

  predicate AllAlnum(s: string) {
    forall i :: 0 <= i < |s| ==> IsAlnum(s[i])
  }

  /** `replace(/[^a-zA-Z0-9]/g, '')` */
  function KeepAlnum(s: string): (r: string)
    ensures AllAlnum(r)
  {
    if s == "" then "" else (if IsAlnum(s[0]) then [s[0]] else "") + KeepAlnum(s[1..])
  }

  function ToUpper(c: char): char {
    if IsLower(c) then ((c as int) - 32) as char else c
  }

  function Capitalize(s: string): (r: string)
    ensures AllAlnum(s) ==> AllAlnum(r)
    ensures |r| == |s|
  {
    if s == "" then s else [ToUpper(s[0])] + s[1..]
  }

  lemma AlnumIsTrimmed(s: string)
    requires s != "" && AllAlnum(s)
    ensures !Blank(s) && Trim(s) == s
  {
    assert !IsSpace(s[0]) && !IsSpace(s[|s| - 1]);
  }

  // ---- Decimal numerals ------------------------------------------------------------------

  function Digit(d: nat): char
    requires d < 10
  {
    (('0' as int) + d) as char
  }

  function Decimal(n: nat): (s: string)
    ensures s != "" && AllAlnum(s)
  {
    if n < 10 then [Digit(n)] else Decimal(n / 10) + [Digit(n % 10)]
  }

  /** Different numbers have different numerals. */
  lemma {:induction false} DecimalInjective(m: nat, n: nat)
    requires Decimal(m) == Decimal(n)
    ensures m == n
    decreases m
  {
    var a, b := Decimal(m), Decimal(n);
    if m >= 10 && n >= 10 {
      assert a[..|a| - 1] == Decimal(m / 10) && b[..|b| - 1] == Decimal(n / 10);
      assert a[|a| - 1] == Digit(m % 10) && b[|b| - 1] == Digit(n % 10);
      DecimalInjective(m / 10, n / 10);
    } else {
      assert a[|a| - 1] == b[|b| - 1];
      assert m >= 10 ==> |a| > 1;
      assert n >= 10 ==> |b| > 1;
    }
  }
}
