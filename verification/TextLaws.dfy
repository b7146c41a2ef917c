/** What the string operations mean, apart from how they are computed. */
module TextLaws {
  import opened Text

  /** White space in JavaScript, character by character. */
  const WHITE := "\t\n\U{000B}\U{000C}\r \U{00A0}\U{1680}\U{2000}\U{2001}\U{2002}\U{2003}\U{2004}\U{2005}\U{2006}"
    + "\U{2007}\U{2008}\U{2009}\U{200A}\U{2028}\U{2029}\U{202F}\U{205F}\U{3000}\U{FEFF}"

  lemma SpaceIsWhite(c: char)
    ensures IsSpace(c) <==> c in WHITE
  {
  }

  ghost predicate AllSpace(s: string) {
    forall i :: 0 <= i < |s| ==> s[i] in WHITE
  }

  /** Trimming takes white space off both ends, and all of it. */
  ghost predicate IsTrimmed(s: string, t: string) {
    && (exists a, b :: s == a + t + b && AllSpace(a) && AllSpace(b))
    && (t != "" ==> t[0] !in WHITE && t[|t| - 1] !in WHITE)
  }

  lemma {:induction false} TrimLeftSplits(s: string) returns (a: string)
    ensures s == a + TrimLeft(s) && AllSpace(a)
    ensures TrimLeft(s) != "" ==> TrimLeft(s)[0] !in WHITE
    decreases |s|
  {
    hide WHITE, IsSpace;
    a := "";
    if s != "" {
      SpaceIsWhite(s[0]);
      if IsSpace(s[0]) {
        var rest := TrimLeftSplits(s[1..]);
        a := [s[0]] + rest;
      }
    }
  }

  lemma {:induction false} TrimRightSplits(s: string) returns (b: string)
    ensures s == TrimRight(s) + b && AllSpace(b)
    ensures TrimRight(s) != "" ==> TrimRight(s)[|TrimRight(s)| - 1] !in WHITE && TrimRight(s)[0] == s[0]
    decreases |s|
  {
    hide WHITE, IsSpace;
    b := "";
    if s != "" {
      SpaceIsWhite(s[|s| - 1]);
      if IsSpace(s[|s| - 1]) {
        var rest := TrimRightSplits(s[..|s| - 1]);
        b := rest + [s[|s| - 1]];
      }
    }
  }

  lemma TrimExactly(s: string)
    ensures IsTrimmed(s, Trim(s))
  {
    hide WHITE, TrimLeft, TrimRight;
    var a := TrimLeftSplits(s);
    var b := TrimRightSplits(TrimLeft(s));
    assert s == a + Trim(s) + b;
  }

  /** Splitting cuts at every separator and nowhere else: the parts hold none, and joined by it they
      give the text back. */
  lemma {:induction false} SplitExactly(s: string, sep: char)
    ensures Join(Split(s, sep), [sep]) == s
    ensures forall part :: part in Split(s, sep) ==> sep !in part
    decreases |s|
  {
    if s != "" {
      SplitExactly(s[1..], sep);
      var rest := Split(s[1..], sep);
      if s[0] != sep {
        var parts := Split(s, sep);
        assert parts[0] == [s[0]] + rest[0] && parts[1..] == rest[1..];
      } else {
        assert Split(s, sep)[1..] == rest;
      }
    }
  }

  lemma {:induction false} SplitWord(a: string, b: string, sep: char)
    requires sep !in a
    ensures Split(a, sep) == [a] && Split(a + [sep] + b, sep) == [a] + Split(b, sep)
    decreases |a|
  {
    if a == "" {
      assert ("" + [sep] + b)[1..] == b;
    } else {
      SplitWord(a[1..], b, sep);
      assert (a + [sep] + b)[1..] == a[1..] + [sep] + b;
      assert [a[0]] + a[1..] == a;
    }
  }

  /** A last part. */
  lemma {:induction false} SplitLast(a: string, b: string, sep: char)
    requires sep !in b
    ensures Split(a + [sep] + b, sep) == Split(a, sep) + [b]
    decreases |a|
  {
    SplitWord(b, "", sep);
    if a == "" {
      SplitWord("", b, sep);
    } else {
      SplitLast(a[1..], b, sep);
      assert (a + [sep] + b)[1..] == a[1..] + [sep] + b;
    }
  }

  lemma {:induction false} KeepAlnumAppend(a: string, b: string)
    ensures KeepAlnum(a + b) == KeepAlnum(a) + KeepAlnum(b)
    decreases |a|
  {
    if a == "" {
      assert a + b == b;
    } else {
      KeepAlnumAppend(a[1..], b);
      assert (a + b)[1..] == a[1..] + b;
    }
  }

  /** Letters and digits stay, in order. */
  lemma {:induction false} KeepAlnumOfAlnum(a: string)
    requires forall i :: 0 <= i < |a| ==> 'a' <= a[i] <= 'z' || 'A' <= a[i] <= 'Z' || '0' <= a[i] <= '9'
    ensures KeepAlnum(a) == a
    decreases |a|
  {
    if a != "" { KeepAlnumOfAlnum(a[1..]); }
  }

  /** The number a numeral stands for, digit by digit. */
  function NumberOf(s: string): int {
    if s == "" then 0 else 10 * NumberOf(s[..|s| - 1]) + (s[|s| - 1] as int - '0' as int)
  }

  /** A decimal numeral stands for its number, in digits. */
  lemma {:induction false} DecimalValue(n: nat)
    ensures NumberOf(Decimal(n)) == n && forall i :: 0 <= i < |Decimal(n)| ==> '0' <= Decimal(n)[i] <= '9'
    decreases n
  {
    if n >= 10 {
      DecimalValue(n / 10);
      assert Decimal(n)[..|Decimal(n)| - 1] == Decimal(n / 10);
    } else {
      assert Decimal(n)[..0] == "";
    }
  }
}
