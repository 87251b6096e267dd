/** The score, the letter grade and the summary counts of tests.py over a result list. */
module Scoring {
  import opened Results

  /** `sum(r.score for r in results)`, added up from the front as Python does. */
  function TotalScore(rs: seq<TestResult>): real
    decreases |rs|
  {
    if rs == [] then 0.0 else TotalScore(rs[..|rs| - 1]) + rs[|rs| - 1].Score()
  }

  /** `sum(r.weight for r in results if r.status != SKIP)`. */
  function MaxScore(rs: seq<TestResult>): real
    decreases |rs|
  {
    if rs == [] then 0.0
    else MaxScore(rs[..|rs| - 1]) + (if rs[|rs| - 1].status == Skip then 0.0 else rs[|rs| - 1].weight)
  }

  /** The percentage of `get_score`: 0 when the maximum is 0, otherwise total over maximum. */
  function Percentage(total: real, max: real): real {
    if max == 0.0 then 0.0 else total / max * 100.0
  }

  /** The letter grade for a percentage, by inclusive thresholds. */
  function Grade(percentage: real): string {
    if percentage >= 95.0 then "A+"
    else if percentage >= 90.0 then "A"
    else if percentage >= 85.0 then "B+"
    else if percentage >= 80.0 then "B"
    else if percentage >= 75.0 then "C+"
    else if percentage >= 70.0 then "C"
    else if percentage >= 60.0 then "D"
    else "F"
  }

  /** The position of a grade from "F" (0) to "A+" (7). */
  function GradeRank(g: string): nat {
    if g == "A+" then 7 else if g == "A" then 6 else if g == "B+" then 5 else if g == "B" then 4
    else if g == "C+" then 3 else if g == "C" then 2 else if g == "D" then 1 else 0
  }

  datatype Score = Score(total: real, max: real, grade: string)

  /** `get_score`. */
  function GetScore(rs: seq<TestResult>): (s: Score)
    ensures s.total == TotalScore(rs) && s.max == MaxScore(rs)
    ensures s.max == 0.0 ==> s.grade == "F"
    ensures s.grade == Grade(Percentage(TotalScore(rs), MaxScore(rs)))
  {
    Score(TotalScore(rs), MaxScore(rs), Grade(Percentage(TotalScore(rs), MaxScore(rs))))
  }

  predicate NonNegativeWeights(rs: seq<TestResult>) {
    forall k :: 0 <= k < |rs| ==> rs[k].weight >= 0.0
  }

  // ---------------------------------------------------------------------
  // Properties of the score
  // ---------------------------------------------------------------------

  lemma {:induction false} TotalScoreAppend(a: seq<TestResult>, b: seq<TestResult>)
    ensures TotalScore(a + b) == TotalScore(a) + TotalScore(b)
    decreases |b|
  {
    if b == [] {
      assert a + b == a;
    } else {
      var init := b[..|b| - 1];
      TotalScoreAppend(a, init);
      assert (a + b)[..|a + b| - 1] == a + init;
    }
  }

  lemma {:induction false} MaxScoreAppend(a: seq<TestResult>, b: seq<TestResult>)
    ensures MaxScore(a + b) == MaxScore(a) + MaxScore(b)
    decreases |b|
  {
    if b == [] {
      assert a + b == a;
    } else {
      var init := b[..|b| - 1];
      MaxScoreAppend(a, init);
      assert (a + b)[..|a + b| - 1] == a + init;
    }
  }

  /** A SKIP result changes neither the score, nor the maximum, nor the grade. */
  lemma SkipIsNeutral(rs: seq<TestResult>, r: TestResult)
    requires r.status == Skip
    ensures GetScore(rs + [r]) == GetScore(rs)
  {
    assert (rs + [r])[..|rs|] == rs;
  }

  /** Appending a result adds its score to the total and, unless it is a SKIP, its weight to the maximum. */
  lemma AppendOne(rs: seq<TestResult>, r: TestResult)
    ensures TotalScore(rs + [r]) == TotalScore(rs) + r.Score()
    ensures MaxScore(rs + [r]) == MaxScore(rs) + (if r.status == Skip then 0.0 else r.weight)
  {
    assert (rs + [r])[..|rs|] == rs;
  }

  /** With non-negative weights the total lies between 0 and the maximum. */
  lemma {:induction false} ScoreBounds(rs: seq<TestResult>)
    requires NonNegativeWeights(rs)
    ensures 0.0 <= TotalScore(rs) <= MaxScore(rs)
    decreases |rs|
  {
    if rs != [] {
      ScoreBounds(rs[..|rs| - 1]);
      assert rs[|rs| - 1].weight >= 0.0;
    }
  }

  /** With non-negative weights the percentage lies between 0 and 100. */
  lemma PercentageBounds(rs: seq<TestResult>)
    requires NonNegativeWeights(rs)
    ensures 0.0 <= Percentage(TotalScore(rs), MaxScore(rs)) <= 100.0
  {
    ScoreBounds(rs);
    var t, m := TotalScore(rs), MaxScore(rs);
    if m != 0.0 {
      RatioBounds(t, m);
    }
  }

  lemma RatioBounds(t: real, m: real)
    requires 0.0 <= t <= m && m > 0.0
    ensures 0.0 <= t / m <= 1.0
  {
  }

  /** A higher percentage never earns a lower grade. */
  lemma GradeMonotone(p: real, q: real)
    requires p <= q
    ensures GradeRank(Grade(p)) <= GradeRank(Grade(q))
  {
  }

  /** The thresholds are inclusive: exactly 90 is an A, just below is a B+. */
  lemma GradeBoundaries()
    ensures Grade(95.0) == "A+" && Grade(90.0) == "A" && Grade(89.99) == "B+"
    ensures Grade(60.0) == "D" && Grade(59.99) == "F"
  {
  }

  /** Turning a FAIL into a PASS raises the total by the result's weight and keeps the maximum. */
  lemma {:induction false} FailToPass(rs: seq<TestResult>, i: nat)
    requires i < |rs| && rs[i].status == Fail
    ensures TotalScore(rs[i := rs[i].(status := Pass)]) == TotalScore(rs) + rs[i].weight
    ensures MaxScore(rs[i := rs[i].(status := Pass)]) == MaxScore(rs)
  {
    var r := rs[i];
    var up := rs[i := r.(status := Pass)];
    assert rs == rs[..i] + [r] + rs[i + 1..];
    assert up == rs[..i] + [r.(status := Pass)] + rs[i + 1..];
    TotalScoreAppend(rs[..i] + [r], rs[i + 1..]);
    TotalScoreAppend(rs[..i] + [r.(status := Pass)], rs[i + 1..]);
    MaxScoreAppend(rs[..i] + [r], rs[i + 1..]);
    MaxScoreAppend(rs[..i] + [r.(status := Pass)], rs[i + 1..]);
    AppendOne(rs[..i], r);
    AppendOne(rs[..i], r.(status := Pass));
  }

  /** Turning a WARN into a PASS raises the total by half the result's weight. */
  lemma {:induction false} WarnToPass(rs: seq<TestResult>, i: nat)
    requires i < |rs| && rs[i].status == Warn
    ensures TotalScore(rs[i := rs[i].(status := Pass)]) == TotalScore(rs) + rs[i].weight * 0.5
    ensures MaxScore(rs[i := rs[i].(status := Pass)]) == MaxScore(rs)
  {
    var r := rs[i];
    var up := rs[i := r.(status := Pass)];
    assert rs == rs[..i] + [r] + rs[i + 1..];
    assert up == rs[..i] + [r.(status := Pass)] + rs[i + 1..];
    TotalScoreAppend(rs[..i] + [r], rs[i + 1..]);
    TotalScoreAppend(rs[..i] + [r.(status := Pass)], rs[i + 1..]);
    MaxScoreAppend(rs[..i] + [r], rs[i + 1..]);
    MaxScoreAppend(rs[..i] + [r.(status := Pass)], rs[i + 1..]);
    AppendOne(rs[..i], r);
    AppendOne(rs[..i], r.(status := Pass));
  }

  // ---------------------------------------------------------------------
  // The summary
  // ---------------------------------------------------------------------

  /** The number of results with status `s`. */
  function CountStatus(rs: seq<TestResult>, s: Status): (n: nat)
    ensures n <= |rs|
    decreases |rs|
  {
    if rs == [] then 0
    else CountStatus(rs[..|rs| - 1], s) + (if rs[|rs| - 1].status == s then 1 else 0)
  }

  /** Every result has exactly one of the four statuses. */
  lemma {:induction false} StatusCountsPartition(rs: seq<TestResult>)
    ensures CountStatus(rs, Pass) + CountStatus(rs, Fail) + CountStatus(rs, Warn) + CountStatus(rs, Skip) == |rs|
    decreases |rs|
  {
    if rs != [] {
      StatusCountsPartition(rs[..|rs| - 1]);
    }
  }

  /** The four counters of one category. */
  datatype Counts = Counts(pass: nat, fail: nat, warn: nat, skip: nat) {
    function Total(): nat {
      pass + fail + warn + skip
    }

    /** The counters with the one for `s` incremented. */
    function Add(s: Status): (c: Counts)
      ensures c.Total() == Total() + 1
    {
      match s
      case Pass => this.(pass := pass + 1)
      case Fail => this.(fail := fail + 1)
      case Warn => this.(warn := warn + 1)
      case Skip => this.(skip := skip + 1)
    }
  }

  /** The results whose category has the value `key`, in order. */
  function OfCategory(rs: seq<TestResult>, key: string): (sub: seq<TestResult>)
    ensures |sub| <= |rs|
    ensures forall r :: r in sub <==> r in rs && CategoryValue(r.category) == key
    decreases |rs|
  {
    if rs == [] then []
    else
      assert rs == rs[..|rs| - 1] + [rs[|rs| - 1]];
      OfCategory(rs[..|rs| - 1], key)
      + (if CategoryValue(rs[|rs| - 1].category) == key then [rs[|rs| - 1]] else [])
  }

  /** Selecting a category distributes over concatenation, so the order of the results is kept. */
  lemma {:induction false} OfCategoryAppend(a: seq<TestResult>, b: seq<TestResult>, key: string)
    ensures OfCategory(a + b, key) == OfCategory(a, key) + OfCategory(b, key)
    decreases |b|
  {
    if b == [] {
      assert a + b == a;
    } else {
      var init := b[..|b| - 1];
      assert (a + b)[..|a + b| - 1] == a + init;
      assert (a + b)[|a + b| - 1] == b[|b| - 1];
      OfCategoryAppend(a, init, key);
    }
  }

  /** The counters after one more result of status `s` in category `key`. */
  function Bump(m: map<string, Counts>, key: string, s: Status): map<string, Counts> {
    m[key := Current(m, key).Add(s)]
  }

  /** The counters of `key` so far: zero for a key not seen yet. */
  function Current(m: map<string, Counts>, key: string): Counts {
    if key in m then m[key] else Counts(0, 0, 0, 0)
  }

  /** The counters of a result list, by status. */
  function CountsOf(rs: seq<TestResult>): (c: Counts)
    ensures c.Total() == |rs|
  {
    StatusCountsPartition(rs);
    Counts(CountStatus(rs, Pass), CountStatus(rs, Fail), CountStatus(rs, Warn), CountStatus(rs, Skip))
  }

  /** One more result increments exactly the counter of its status. */
  lemma CountsOfAppend(rs: seq<TestResult>, r: TestResult)
    ensures CountsOf(rs + [r]) == CountsOf(rs).Add(r.status)
  {
    assert (rs + [r])[..|rs|] == rs;
  }

  /** Counting under one key leaves the other keys alone. */
  lemma BumpOther(m: map<string, Counts>, key: string, s: Status, other: string)
    requires other != key
    ensures other in Bump(m, key, s) <==> other in m
    ensures other in m ==> Bump(m, key, s)[other] == m[other]
  {
  }

  /** Counting under a key increments that key's counters, starting from zero for a new key. */
  lemma BumpKey(m: map<string, Counts>, key: string, s: Status)
    ensures key in Bump(m, key, s)
    ensures Bump(m, key, s)[key] == Current(m, key).Add(s)
  {
  }

  lemma CountsOfEmpty()
    ensures CountsOf([]) == Counts(0, 0, 0, 0)
  {
  }

  lemma OfCategorySnoc(init: seq<TestResult>, last: TestResult, key: string)
    ensures OfCategory(init + [last], key)
            == OfCategory(init, key) + (if CategoryValue(last.category) == key then [last] else [])
  {
    var rs := init + [last];
    assert rs[..|rs| - 1] == init && rs[|rs| - 1] == last;
  }

  /**
    `by_category` is right for `rs` when it holds exactly the categories that
    occur in `rs`, each with the status counts of that category's results.
   */
  ghost predicate CategoryCounters(m: map<string, Counts>, rs: seq<TestResult>) {
    && (forall key :: key in m <==> |OfCategory(rs, key)| > 0)
    && (forall key :: key in m ==> m[key] == CountsOf(OfCategory(rs, key)))
  }

  lemma CategoryCountersEmpty()
    ensures CategoryCounters(map[], [])
  {
  }

  /** Counting one more result under its category keeps the counters right. */
  lemma CategoryCountersStep(m: map<string, Counts>, init: seq<TestResult>, last: TestResult)
    requires CategoryCounters(m, init)
    ensures CategoryCounters(Bump(m, CategoryValue(last.category), last.status), init + [last])
  {
    var cat := CategoryValue(last.category);
    forall key {
      CounterStep(m, init, last, key);
    }
  }

  /** The step of `CategoryCountersStep` for one key. */
  lemma CounterStep(m: map<string, Counts>, init: seq<TestResult>, last: TestResult, key: string)
    requires key in m <==> |OfCategory(init, key)| > 0
    requires key in m ==> m[key] == CountsOf(OfCategory(init, key))
    ensures var m' := Bump(m, CategoryValue(last.category), last.status);
      && (key in m' <==> |OfCategory(init + [last], key)| > 0)
      && (key in m' ==> m'[key] == CountsOf(OfCategory(init + [last], key)))
  {
    var cat := CategoryValue(last.category);
    OfCategorySnoc(init, last, key);
    if key == cat {
      var sub := OfCategory(init, key);
      assert OfCategory(init + [last], key) == sub + [last];
      BumpKey(m, key, last.status);
      CountsOfAppend(sub, last);
      if key !in m {
        assert sub == [];
        CountsOfEmpty();
        assert Current(m, key) == CountsOf(sub);
      } else {
        assert Current(m, key) == CountsOf(sub);
      }
    } else {
      assert OfCategory(init + [last], key) == OfCategory(init, key);
      BumpOther(m, cat, last.status, key);
    }
  }

  datatype Summary = Summary(
    total: nat,
    passed: nat,
    failed: nat,
    warned: nat,
    skipped: nat,
    score: real,
    maxScore: real,
    percentage: real,
    grade: string,
    byCategory: map<string, Counts>)

  /** The percentage of `get_summary`, which tests `max_score > 0` rather than `== 0`. */
  function SummaryPercentage(total: real, max: real): real {
    if max > 0.0 then total / max * 100.0 else 0.0
  }

  /** The two percentage formulas agree whenever no weight is negative. */
  lemma PercentagesAgree(rs: seq<TestResult>)
    requires NonNegativeWeights(rs)
    ensures SummaryPercentage(TotalScore(rs), MaxScore(rs)) == Percentage(TotalScore(rs), MaxScore(rs))
  {
    ScoreBounds(rs);
  }

  /** `get_summary`, with `by_category` supplied by the loop that builds it. */
  function MakeSummary(rs: seq<TestResult>, byCategory: map<string, Counts>): (s: Summary)
    ensures s.passed + s.failed + s.warned + s.skipped == s.total == |rs|
    ensures s.score == GetScore(rs).total && s.maxScore == GetScore(rs).max && s.grade == GetScore(rs).grade
    ensures s.failed == 0 <==> forall k :: 0 <= k < |rs| ==> rs[k].status != Fail
  {
    StatusCountsPartition(rs);
    NoFailCount(rs);
    var score := GetScore(rs);
    Summary(|rs|, CountStatus(rs, Pass), CountStatus(rs, Fail), CountStatus(rs, Warn), CountStatus(rs, Skip),
            score.total, score.max, SummaryPercentage(score.total, score.max), score.grade, byCategory)
  }

  /** No result of a status exactly when its count is 0. */
  lemma {:induction false} NoFailCount(rs: seq<TestResult>)
    ensures CountStatus(rs, Fail) == 0 <==> forall k :: 0 <= k < |rs| ==> rs[k].status != Fail
    decreases |rs|
  {
    if rs != [] {
      var init := rs[..|rs| - 1];
      NoFailCount(init);
      assert forall k :: 0 <= k < |init| ==> init[k] == rs[k];
    }
  }

  /** The `by_category` loop of `get_summary`: one pass over the results, in order. */
  method CountByCategory(rs: seq<TestResult>) returns (byCategory: map<string, Counts>)
    ensures CategoryCounters(byCategory, rs)
  {
    byCategory := map[];
    CategoryCountersEmpty();
    for i := 0 to |rs|
      invariant CategoryCounters(byCategory, rs[..i])
    {
      var r := rs[i];
      var cat := CategoryValue(r.category);
      assert rs[..i + 1] == rs[..i] + [r];
      CategoryCountersStep(byCategory, rs[..i], r);
      // A category seen for the first time starts from four zero counters.
      byCategory := byCategory[cat := Current(byCategory, cat).Add(r.status)];
    }
    assert rs[..|rs|] == rs;
  }
}
