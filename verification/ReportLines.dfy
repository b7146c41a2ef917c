/** How a line of the diff report is read. */
module ReportLines {
  import opened Text
  import opened TextLaws
  import opened HandWritten
  import opened AddEndpoints

  lemma {:induction false} JoinSplit(s: string)
    ensures Join(Split(s, ' '), " ") == s
  {
    SplitExactly(s, ' ');
    assert [' '] == " ";
  }

  lemma VerbIs(a: string, line: string)
    requires Split(line, ' ')[0] == a
    ensures |ReportedVerb(line)| == |a|
    ensures forall i :: 0 <= i < |a| ==>
              ReportedVerb(line)[i] == if 'A' <= a[i] <= 'Z' then ((a[i] as int) + 32) as char else a[i]
  {
    assert a == "" ==> ReportedVerb(line) == "";
    forall i | 0 <= i < |a|
      ensures |ReportedVerb(line)| == |a|
      ensures ReportedVerb(line)[i] == if 'A' <= a[i] <= 'Z' then ((a[i] as int) + 32) as char else a[i]
    {
      LowerAllAt(a, i);
    }
  }

  /** Up to the first blank stands the method, in any case; all the rest, trimmed, is the path. */
  lemma LineReads(a: string, b: string)
    requires ' ' !in a
    ensures var line := a + " " + b;
            && IsTrimmed(b, ReportedPath(line)) && |ReportedVerb(line)| == |a|
            && forall i :: 0 <= i < |a| ==>
                 ReportedVerb(line)[i] == if 'A' <= a[i] <= 'Z' then ((a[i] as int) + 32) as char else a[i]
  {
    hide IsTrimmed, Trim;
    var line := a + " " + b;
    SplitWord(a, b, ' ');
    assert line == a + [' '] + b;
    assert ([a] + Split(b, ' '))[1..] == Split(b, ' ');
    JoinSplit(b);
    TrimExactly(b);
    VerbIs(a, line);
  }

  /** A line without a blank has no path. */
  lemma LineWithoutPath(a: string)
    requires ' ' !in a
    ensures ReportedPath(a) == ""
  {
    SplitWord(a, "", ' ');
    assert [a][1..] == [];
  }
}
