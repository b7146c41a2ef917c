/** The per-rule lint gate of lint-no-regression.ts and its property over whole histories. */
module LintRatchet {
  import opened Collections

  datatype LintResult = LintResult(rules: seq<Option<string>>, errors: nat, fatalErrors: nat, warnings: nat,
                                   strict: bool)

  datatype Regression = Regression(rule: string, current: int, baseline: int, delta: int)
  datatype Reduction = Reduction(rule: string, reduction: int)

  /** `strict` in a result says that its file is on a strict path or under a strict prefix. */
  datatype Baseline = Baseline(errors: int, warnings: int, rules: map<string, int>)

  // ---- Counting ----------------------------------------------------------------------

  function RuleKey(ruleId: Option<string>): string {
    if ruleId.Some? then ruleId.value else "__no_rule__"
  }

  function MessageKeys(rules: seq<Option<string>>): multiset<string> {
    if rules == [] then multiset{}
    else MessageKeys(rules[..|rules| - 1]) + multiset{RuleKey(rules[|rules| - 1])}
  }

  function AllKeys(results: seq<LintResult>): multiset<string> {
    if results == [] then multiset{}
    else AllKeys(results[..|results| - 1]) + MessageKeys(results[|results| - 1].rules)
  }

  /** A rule has a counter exactly when some message carries it, and the counter is its number. */
  ghost predicate Counts(counts: map<string, int>, keys: multiset<string>) {
    forall r :: (r in counts <==> r in keys) && (r in counts ==> counts[r] == keys[r])
  }

  function Count(m: map<string, int>, rule: string): int {
    if rule in m then m[rule] else 0
  }

  lemma CountOneMore(counts: map<string, int>, keys: multiset<string>, key: string)
    requires Counts(counts, keys)
    ensures Counts(counts[key := Count(counts, key) + 1], keys + multiset{key})
  {
  }

  /** The counters when the first `i` results and `j` messages of the next are done. */
  ghost predicate CountedUpTo(counts: map<string, int>, results: seq<LintResult>, i: nat, j: nat) {
    && i <= |results| && (i < |results| ==> j <= |results[i].rules|)
    && Counts(counts, AllKeys(results[..i]) + if i < |results| then MessageKeys(results[i].rules[..j]) else multiset{})
  }

  lemma NextMessage(counts: map<string, int>, results: seq<LintResult>, i: nat, j: nat)
    requires CountedUpTo(counts, results, i, j) && i < |results| && j < |results[i].rules|
    ensures var key := RuleKey(results[i].rules[j]);
            CountedUpTo(counts[key := Count(counts, key) + 1], results, i, j + 1)
  {
    hide Counts;
    var messages := results[i].rules;
    var before, key := AllKeys(results[..i]), RuleKey(messages[j]);
    assert messages[..j + 1][..j] == messages[..j];
    CountOneMore(counts, before + MessageKeys(messages[..j]), key);
    assert before + MessageKeys(messages[..j + 1]) == before + MessageKeys(messages[..j]) + multiset{key};
  }

  lemma NextResult(counts: map<string, int>, results: seq<LintResult>, i: nat)
    requires i < |results| && CountedUpTo(counts, results, i, |results[i].rules|)
    ensures CountedUpTo(counts, results, i + 1, 0)
  {
    var messages := results[i].rules;
    assert messages[..|messages|] == messages;
    assert results[..i + 1][..i] == results[..i];
    assert AllKeys(results[..i + 1]) + multiset{} == AllKeys(results[..i]) + MessageKeys(messages);
    assert i + 1 < |results| ==> MessageKeys(results[i + 1].rules[..0]) == multiset{};
  }

  lemma NoneCounted(results: seq<LintResult>)
    ensures CountedUpTo(map[], results, 0, 0)
  {
  }

  lemma AllCounted(counts: map<string, int>, results: seq<LintResult>)
    requires CountedUpTo(counts, results, |results|, 0)
    ensures Counts(counts, AllKeys(results))
  {
    assert results[..|results|] == results;
  }

  /** One counter per rule; messages without a rule are counted under a name of their own. */
  method CalculateRuleCounts(results: seq<LintResult>) returns (counts: map<string, int>)
    ensures Counts(counts, AllKeys(results))
  {
    hide CountedUpTo, Counts;
    counts := map[];
    NoneCounted(results);
    for i := 0 to |results|
      invariant CountedUpTo(counts, results, i, 0)
    {
      var messages := results[i].rules;
      for j := 0 to |messages|
        invariant CountedUpTo(counts, results, i, j)
      {
        NextMessage(counts, results, i, j);
        var key := RuleKey(messages[j]);
        counts := counts[key := Count(counts, key) + 1];
      }
      NextResult(counts, results, i);
    }
    AllCounted(counts, results);
  }

  /** The message carries the rule; one without a rule counts under a name of its own. */
  predicate Carries(ruleId: Option<string>, rule: string) {
    ruleId == Some(rule) || (ruleId == None && rule == "__no_rule__")
  }

  function Carriers(results: seq<LintResult>, rule: string): set<(int, int)> {
    set i, j | 0 <= i < |results| && 0 <= j < |results[i].rules| && Carries(results[i].rules[j], rule) :: (i, j)
  }

  function CarriersIn(rules: seq<Option<string>>, i: int, rule: string): set<(int, int)> {
    set j | 0 <= j < |rules| && Carries(rules[j], rule) :: (i, j)
  }

  lemma CarriesIff(ruleId: Option<string>, rule: string)
    ensures Carries(ruleId, rule) <==> RuleKey(ruleId) == rule
  {
  }

  lemma {:induction false} MessagesCounted(rules: seq<Option<string>>, i: int, rule: string)
    ensures MessageKeys(rules)[rule] == |CarriersIn(rules, i, rule)|
    decreases |rules|
  {
    hide Carries, RuleKey;
    if rules != [] {
      var n := |rules| - 1;
      MessagesCounted(rules[..n], i, rule);
      assert CarriersIn(rules, i, rule) ==
             CarriersIn(rules[..n], i, rule) + (if Carries(rules[n], rule) then {(i, n)} else {});
      assert (i, n) !in CarriersIn(rules[..n], i, rule);
      CarriesIff(rules[n], rule);
    }
  }

  /** The count of a rule is the number of messages, over all results, that carry it. */
  lemma {:induction false} KeysCounted(results: seq<LintResult>, rule: string)
    ensures AllKeys(results)[rule] == |Carriers(results, rule)|
    decreases |results|
  {
    hide Carries;
    if results != [] {
      var n := |results| - 1;
      KeysCounted(results[..n], rule);
      MessagesCounted(results[n].rules, n, rule);
      var before, more := Carriers(results[..n], rule), CarriersIn(results[n].rules, n, rule);
      assert Carriers(results, rule) == before + more;
      assert before * more == {};
    }
  }

  // ---- Sorting, largest first ------------------------------------------------------------

  function Insert<T>(s: seq<T>, x: T, key: T -> int): seq<T> {
    if s == [] || key(s[|s| - 1]) >= key(x) then s + [x] else Insert(s[..|s| - 1], x, key) + [s[|s| - 1]]
  }

  function Sorted<T>(s: seq<T>, key: T -> int): seq<T> {
    if s == [] then [] else Insert(Sorted(s[..|s| - 1], key), s[|s| - 1], key)
  }

  function Sum<T>(s: seq<T>, key: T -> int): int {
    if s == [] then 0 else Sum(s[..|s| - 1], key) + key(s[|s| - 1])
  }

  ghost predicate Descending<T>(s: seq<T>, key: T -> int) {
    forall i, j :: 0 <= i < j < |s| ==> key(s[i]) >= key(s[j])
  }

  lemma {:induction false} InsertKeepsElements<T>(s: seq<T>, x: T, key: T -> int)
    ensures multiset(Insert(s, x, key)) == multiset(s) + multiset{x}
        && Sum(Insert(s, x, key), key) == Sum(s, key) + key(x)
    decreases |s|
  {
    if s == [] || key(s[|s| - 1]) >= key(x) {
      assert (s + [x])[..|s|] == s;
    } else {
      var front, last := s[..|s| - 1], s[|s| - 1];
      assert s == front + [last];
      InsertKeepsElements(front, x, key);
      var t := Insert(front, x, key);
      assert (t + [last])[..|t|] == t;
    }
  }

  lemma {:induction false} InsertKeepsOrder<T>(s: seq<T>, x: T, key: T -> int)
    requires Descending(s, key)
    ensures Descending(Insert(s, x, key), key)
    decreases |s|
  {
    if s != [] && key(s[|s| - 1]) < key(x) {
      var front, last := s[..|s| - 1], s[|s| - 1];
      InsertKeepsOrder(front, x, key);
      InsertKeepsElements(front, x, key);
      var t := Insert(front, x, key);
      forall i | 0 <= i < |t| ensures key(t[i]) >= key(last) {
        assert t[i] in multiset(t);
        assert t[i] == x || t[i] in front;
      }
    }
  }

  lemma NothingToSort<T>(s: seq<T>, key: T -> int)
    requires s == []
    ensures Descending(s, key)
  {
  }

  /** Sorting reorders and no more. */
  lemma {:induction false} SortedIsPermutation<T>(s: seq<T>, key: T -> int)
    ensures multiset(Sorted(s, key)) == multiset(s) && Sum(Sorted(s, key), key) == Sum(s, key)
        && Descending(Sorted(s, key), key)
    ensures forall x :: x in Sorted(s, key) <==> x in s
    decreases |s|
  {
    hide Insert, Descending;
    if s == [] {
      NothingToSort(s, key);
    } else {
      var front, last := s[..|s| - 1], s[|s| - 1];
      assert s == front + [last];
      SortedIsPermutation(front, key);
      InsertKeepsElements(Sorted(front, key), last, key);
      InsertKeepsOrder(Sorted(front, key), last, key);
    }
    assert forall x :: x in Sorted(s, key) <==> x in multiset(Sorted(s, key));
  }

  function WithKey<T>(s: seq<T>, key: T -> int, v: int): seq<T> {
    if s == [] then [] else WithKey(s[..|s| - 1], key, v) + (if key(s[|s| - 1]) == v then [s[|s| - 1]] else [])
  }

  lemma {:induction false} NoneWithKey<T>(s: seq<T>, key: T -> int, v: int)
    ensures (forall i :: 0 <= i < |s| ==> key(s[i]) != v) ==> WithKey(s, key, v) == []
    decreases |s|
  {
    if s != [] { NoneWithKey(s[..|s| - 1], key, v); }
  }

  lemma WithKeyOneMore<T>(s: seq<T>, x: T, key: T -> int, v: int)
    ensures WithKey(s + [x], key, v) == WithKey(s, key, v) + (if key(x) == v then [x] else [])
  {
    assert (s + [x])[..|s|] == s;
  }

  lemma {:induction false} InsertIsStable<T>(s: seq<T>, x: T, key: T -> int, v: int)
    requires Descending(s, key)
    ensures WithKey(Insert(s, x, key), key, v) == WithKey(s, key, v) + (if key(x) == v then [x] else [])
    decreases |s|
  {
    if s == [] || key(s[|s| - 1]) >= key(x) {
      WithKeyOneMore(s, x, key, v);
    } else {
      var front, last := s[..|s| - 1], s[|s| - 1];
      assert s == front + [last];
      InsertIsStable(front, x, key, v);
      if key(x) == v { NoneWithKey(s, key, v); }
      hide WithKey, Descending;
      WithKeyOneMore(front, last, key, v);
      WithKeyOneMore(Insert(front, x, key), last, key, v);
    }
  }

  /** Elements with equal keys stay in their order. */
  lemma {:induction false} SortedIsStable<T>(s: seq<T>, key: T -> int, v: int)
    ensures WithKey(Sorted(s, key), key, v) == WithKey(s, key, v)
    decreases |s|
  {
    if s != [] {
      var front := s[..|s| - 1];
      SortedIsStable(front, key, v);
      SortedIsPermutation(front, key);
      InsertIsStable(Sorted(front, key), s[|s| - 1], key, v);
    }
  }

  // ---- Comparing -----------------------------------------------------------------------

  function Rise(current: map<string, int>, baseline: map<string, int>, rule: string): int {
    if Count(current, rule) > Count(baseline, rule) then Count(current, rule) - Count(baseline, rule) else 0
  }

  function Delta(r: Regression): int { r.delta }
  function Drop(r: Reduction): int { r.reduction }

  /** Sum over a list of rules of how far each rose. */
  function RiseSum(rules: seq<string>, current: map<string, int>, baseline: map<string, int>): int {
    if rules == [] then 0
    else RiseSum(rules[..|rules| - 1], current, baseline) + Rise(current, baseline, rules[|rules| - 1])
  }

  function Report(rule: string, current: map<string, int>, baseline: map<string, int>): Regression {
    Regression(rule, Count(current, rule), Count(baseline, rule), Rise(current, baseline, rule))
  }

  /** Exactly the rules of the listing that grew are reported, each with its two counts. */
  ghost predicate ReportsRises(s: seq<Regression>, rules: seq<string>, current: map<string, int>,
                               baseline: map<string, int>)
  {
    forall x :: x in s <==> x.rule in rules && x.delta > 0 && x == Report(x.rule, current, baseline)
  }

  lemma ReportOneMore(s: seq<Regression>, rules: seq<string>, r: Regression, current: map<string, int>,
                      baseline: map<string, int>)
    requires ReportsRises(s, rules, current, baseline) && r.delta > 0 && r == Report(r.rule, current, baseline)
    ensures ReportsRises(s + [r], rules + [r.rule], current, baseline)
  {
  }

  ghost predicate ReportsFalls(s: seq<Reduction>, rules: seq<string>, current: map<string, int>,
                               baseline: map<string, int>)
  {
    forall x :: x in s <==> x.rule in rules && x.reduction > 0 && x.reduction == Rise(baseline, current, x.rule)
  }

  /** `allRules` lists the rules of either side once each. */
  method FindRuleRegressions(current: map<string, int>, baseline: map<string, int>, allRules: seq<string>)
    returns (s: seq<Regression>)
    ensures ReportsRises(s, allRules, current, baseline) && Descending(s, Delta)
    ensures Sum(s, Delta) == RiseSum(allRules, current, baseline)
  {
    s := [];
    for i := 0 to |allRules|
      invariant ReportsRises(s, allRules[..i], current, baseline)
      invariant Sum(s, Delta) == RiseSum(allRules[..i], current, baseline)
    {
      var rule := allRules[i];
      assert allRules[..i + 1] == allRules[..i] + [rule];
      var c, b := Count(current, rule), Count(baseline, rule);
      if c > b {
        var r := Regression(rule, c, b, c - b);
        assert (s + [r])[..|s|] == s;
        ReportOneMore(s, allRules[..i], r, current, baseline);
        s := s + [r];
      }
    }
    assert allRules[..|allRules|] == allRules;
    SortedIsPermutation(s, Delta);
    s := Sorted(s, Delta);
  }

  /** Only rules of the baseline can have gone down. */
  method FindReductions(current: map<string, int>, baseline: map<string, int>, baselineRules: seq<string>)
    returns (s: seq<Reduction>)
    ensures ReportsFalls(s, baselineRules, current, baseline) && Descending(s, Drop)
    ensures Sum(s, Drop) == RiseSum(baselineRules, baseline, current)
  {
    s := [];
    for i := 0 to |baselineRules|
      invariant ReportsFalls(s, baselineRules[..i], current, baseline)
      invariant Sum(s, Drop) == RiseSum(baselineRules[..i], baseline, current)
    {
      var rule := baselineRules[i];
      assert baselineRules[..i + 1] == baselineRules[..i] + [rule];
      var c, b := Count(current, rule), Count(baseline, rule);
      if c < b {
        var r := Reduction(rule, b - c);
        assert (s + [r])[..|s|] == s;
        s := s + [r];
      }
    }
    assert baselineRules[..|baselineRules|] == baselineRules;
    SortedIsPermutation(s, Drop);
    s := Sorted(s, Drop);
  }

  // ---- A rise cannot hide behind a fall ----------------------------------------------------

  function CountSum(rules: seq<string>, m: map<string, int>): int {
    if rules == [] then 0 else CountSum(rules[..|rules| - 1], m) + Count(m, rules[|rules| - 1])
  }

  lemma {:induction false} RisesBalance(rules: seq<string>, a: map<string, int>, b: map<string, int>)
    ensures CountSum(rules, a) - CountSum(rules, b) == RiseSum(rules, a, b) - RiseSum(rules, b, a)
    decreases |rules|
  {
    if rules != [] { RisesBalance(rules[..|rules| - 1], a, b); }
  }

  lemma {:induction false} RiseSumWithout(rules: seq<string>, i: nat, a: map<string, int>, b: map<string, int>)
    requires i < |rules|
    ensures RiseSum(rules, a, b) == RiseSum(rules[..i] + rules[i + 1..], a, b) + Rise(a, b, rules[i])
    decreases |rules|
  {
    var n := |rules| - 1;
    if i == n {
      assert rules[..i] + rules[i + 1..] == rules[..n];
    } else {
      RiseSumWithout(rules[..n], i, a, b);
      var rest := rules[..i] + rules[i + 1..];
      assert rest[..|rest| - 1] == rules[..n][..i] + rules[..n][i + 1..];
      assert rest[|rest| - 1] == rules[n];
    }
  }

  lemma RemoveAt(s: seq<string>, i: nat)
    requires Distinct(s) && i < |s|
    ensures Distinct(s[..i] + s[i + 1..])
    ensures forall r :: r in s[..i] + s[i + 1..] <==> r in s && r != s[i]
  {
  }

  /** Two listings of rules give the same sum if they differ only in rules that did not rise. */
  lemma {:induction false} RiseSumSame(xs: seq<string>, ys: seq<string>, a: map<string, int>, b: map<string, int>)
    requires Distinct(xs) && Distinct(ys) && forall r :: r in ys ==> r in xs
    requires forall r :: r in xs && r !in ys ==> Rise(a, b, r) == 0
    ensures RiseSum(xs, a, b) == RiseSum(ys, a, b)
    decreases |xs|
  {
    assert ys != [] ==> ys[0] in xs;
    if xs != [] {
      var n := |xs| - 1;
      assert xs[..n] + xs[n + 1..] == xs[..n];
      RemoveAt(xs, n);
      assert forall r :: r in xs[..n] <==> r in xs && r != xs[n];
      if xs[n] in ys {
        var i :| 0 <= i < |ys| && ys[i] == xs[n];
        RiseSumWithout(ys, i, a, b);
        RemoveAt(ys, i);
        RiseSumSame(xs[..n], ys[..i] + ys[i + 1..], a, b);
      } else {
        assert xs[n] in xs;
        RiseSumSame(xs[..n], ys, a, b);
      }
    }
  }

  /** The difference of the totals is the sum of what was reported as risen less the sum of what
      was reported as fallen: with no rise reported, a total can only go down. */
  lemma {:induction false} ReportsBalance(current: map<string, int>, keys: multiset<string>, baseline: map<string, int>,
                       allRules: seq<string>, baselineRules: seq<string>, up: seq<Regression>, down: seq<Reduction>)
    requires Lists(allRules, current.Keys + baseline.Keys) && Lists(baselineRules, baseline.Keys)
    requires Counts(current, keys)
    requires Sum(up, Delta) == RiseSum(allRules, current, baseline)
    requires Sum(down, Drop) == RiseSum(baselineRules, baseline, current)
    ensures CountSum(allRules, current) - CountSum(allRules, baseline) == Sum(up, Delta) - Sum(down, Drop)
  {
    RisesBalance(allRules, current, baseline);
    forall r | r in allRules && r !in baselineRules ensures Rise(baseline, current, r) == 0 {
      assert r !in baseline.Keys;
    }
    assert forall r :: r in baselineRules ==> r in allRules;
    RiseSumSame(allRules, baselineRules, baseline, current);
  }

  // ---- The gate over time --------------------------------------------------------------------

  function Issues(r: LintResult): nat { r.errors + r.fatalErrors + r.warnings }

  function Errors(results: seq<LintResult>): nat {
    if results == [] then 0
    else Errors(results[..|results| - 1]) + results[|results| - 1].errors + results[|results| - 1].fatalErrors
  }

  function Warnings(results: seq<LintResult>): nat {
    if results == [] then 0 else Warnings(results[..|results| - 1]) + results[|results| - 1].warnings
  }

  predicate StrictClean(results: seq<LintResult>) {
    forall i :: 0 <= i < |results| && results[i].strict ==>
        results[i].errors == 0 && results[i].fatalErrors == 0 && results[i].warnings == 0
  }

  ghost predicate Within(results: seq<LintResult>, baseline: Baseline) {
    && Errors(results) <= baseline.errors && Warnings(results) <= baseline.warnings
    && forall rule :: AllKeys(results)[rule] <= Count(baseline.rules, rule)
  }

  /** What the gate is for: no total and no single rule above the baseline, strict files clean. */
  ghost predicate Passes(results: seq<LintResult>, baseline: Baseline) {
    StrictClean(results) && Within(results, baseline)
  }

  method CalculateTotals(results: seq<LintResult>) returns (errors: nat, warnings: nat)
    ensures errors == Errors(results) && warnings == Warnings(results)
  {
    errors, warnings := 0, 0;
    for i := 0 to |results|
      invariant errors == Errors(results[..i]) && warnings == Warnings(results[..i])
    {
      assert results[..i + 1][..i] == results[..i];
      errors := errors + results[i].errors + results[i].fatalErrors;
      warnings := warnings + results[i].warnings;
    }
    assert results[..|results|] == results;
  }

  lemma NoRegressionsIff(results: seq<LintResult>, counts: map<string, int>, baseline: map<string, int>,
                         allRules: seq<string>, up: seq<Regression>)
    requires Counts(counts, AllKeys(results)) && Lists(allRules, counts.Keys + baseline.Keys)
    requires ReportsRises(up, allRules, counts, baseline)
    ensures up == [] <==> forall rule :: AllKeys(results)[rule] <= Count(baseline, rule)
  {
    assert forall rule :: Count(counts, rule) == AllKeys(results)[rule];
    if up != [] {
      assert up[0] in up;
      assert AllKeys(results)[up[0].rule] > Count(baseline, up[0].rule);
    } else {
      forall rule ensures AllKeys(results)[rule] <= Count(baseline, rule) {
        if rule in allRules {
          assert Report(rule, counts, baseline) !in up;
        }
      }
    }
  }

  ghost predicate Recorded(results: seq<LintResult>, b: Baseline) {
    b.errors == Errors(results) && b.warnings == Warnings(results) && Counts(b.rules, AllKeys(results))
  }

  /** The files on strict paths that have any issue, by position. */
  method ListStrictViolations(results: seq<LintResult>) returns (violations: seq<nat>)
    ensures forall i: nat :: i in violations <==> i < |results| && results[i].strict && Issues(results[i]) > 0
    ensures violations == [] <==> StrictClean(results)
  {
    violations := [];
    for i := 0 to |results|
      invariant forall k: nat :: k in violations <==> k < i && results[k].strict && Issues(results[k]) > 0
    {
      if results[i].strict && Issues(results[i]) > 0 { violations := violations + [i]; }
    }
    assert violations != [] ==> violations[0] in violations;
  }

  /** One run of the script.  With the update flag the results become the baseline unconditionally;
      otherwise the exit code says exactly whether the results pass, and the baseline stays.
      `order` is the enumeration of the rules of either side. */
  method Gate(results: seq<LintResult>, baseline: Baseline, update: bool, order: set<string> -> seq<string>)
    returns (exit: int, written: Baseline)
    requires forall s: set<string> :: Lists(order(s), s)
    ensures update ==> exit == 0 && Recorded(results, written)
    ensures !update ==> written == baseline && (exit == 0 <==> Passes(results, baseline)) && (exit != 0 ==> exit == 1)
  {
    var errors, warnings := CalculateTotals(results);
    var counts := CalculateRuleCounts(results);
    if update { return 0, Baseline(errors, warnings, counts); }
    var allRules := order(counts.Keys + baseline.rules.Keys);
    var up := FindRuleRegressions(counts, baseline.rules, allRules);
    NoRegressionsIff(results, counts, baseline.rules, allRules, up);
    var violations := ListStrictViolations(results);
    var failed := errors > baseline.errors || warnings > baseline.warnings || |violations| > 0 || |up| > 0;
    exit, written := if failed then 1 else 0, baseline;
  }

  // ---- The ratchet ------------------------------------------------------------------------------

  /** At each step the baseline is kept or rewritten from that step's results. */
  ghost predicate Series(baselines: seq<Baseline>, runs: seq<seq<LintResult>>) {
    && |baselines| == |runs| + 1
    && forall k :: 0 <= k < |runs| ==> baselines[k + 1] == baselines[k] || Recorded(runs[k], baselines[k + 1])
  }

  /** A series in which the gate passes at each step, before the baseline is rewritten. */
  ghost predicate History(baselines: seq<Baseline>, runs: seq<seq<LintResult>>) {
    Series(baselines, runs) && forall k :: 0 <= k < |runs| ==> Passes(runs[k], baselines[k])
  }

  ghost predicate NoHigher(b: Baseline, c: Baseline) {
    b.errors <= c.errors && b.warnings <= c.warnings && forall rule :: Count(b.rules, rule) <= Count(c.rules, rule)
  }

  lemma RecordedCounts(results: seq<LintResult>, b: Baseline, c: Baseline)
    requires Recorded(results, b)
    ensures NoHigher(b, c) <==> Within(results, c)
  {
  }

  lemma NoHigherTrans(a: Baseline, b: Baseline, c: Baseline)
    requires NoHigher(a, b) && NoHigher(b, c)
    ensures NoHigher(a, c)
  {
  }

  lemma {:induction false} NeverRises(baselines: seq<Baseline>, j: nat, k: nat)
    requires j <= k < |baselines| && forall i :: 0 <= i < |baselines| - 1 ==> NoHigher(baselines[i + 1], baselines[i])
    ensures NoHigher(baselines[k], baselines[j])
    decreases k
  {
    if j < k {
      NeverRises(baselines, j, k - 1);
      NoHigherTrans(baselines[k], baselines[k - 1], baselines[j]);
    }
  }

  lemma NoHigherSelf(b: Baseline)
    ensures NoHigher(b, b)
  {
  }

  /** In any series of runs, with the baseline rewritten whenever one likes: no figure of the
      baseline ever rises if and only if every rewriting was done with results within the baseline
      it replaced. */
  lemma RatchetIff(baselines: seq<Baseline>, runs: seq<seq<LintResult>>)
    requires Series(baselines, runs)
    ensures (forall j, k :: 0 <= j <= k < |baselines| ==> NoHigher(baselines[k], baselines[j]))
       <==> forall k :: 0 <= k < |runs| && baselines[k + 1] != baselines[k] ==> Within(runs[k], baselines[k])
  {
    hide NoHigher, Within, Recorded;
    forall k | 0 <= k < |runs| && baselines[k + 1] != baselines[k]
      ensures NoHigher(baselines[k + 1], baselines[k]) <==> Within(runs[k], baselines[k])
    {
      RecordedCounts(runs[k], baselines[k + 1], baselines[k]);
    }
    if forall k :: 0 <= k < |runs| && baselines[k + 1] != baselines[k] ==> Within(runs[k], baselines[k]) {
      forall i | 0 <= i < |runs| ensures NoHigher(baselines[i + 1], baselines[i]) {
        if baselines[i + 1] == baselines[i] { NoHigherSelf(baselines[i]); }
      }
      forall j, k | 0 <= j <= k < |baselines| ensures NoHigher(baselines[k], baselines[j]) {
        NeverRises(baselines, j, k);
      }
    }
  }

  /** Along any history no rule's count, and no total, ever exceeds the first baseline. */
  lemma RatchetHolds(baselines: seq<Baseline>, runs: seq<seq<LintResult>>, k: nat)
    requires History(baselines, runs) && k <= |runs|
    ensures NoHigher(baselines[k], baselines[0])
    ensures k < |runs| ==> Passes(runs[k], baselines[0])
  {
    RatchetIff(baselines, runs);
    if k < |runs| {
      forall rule ensures AllKeys(runs[k])[rule] <= Count(baselines[0].rules, rule) {
        assert AllKeys(runs[k])[rule] <= Count(baselines[k].rules, rule) <= Count(baselines[0].rules, rule);
      }
    }
  }
}
