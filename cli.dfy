/**
  The pure helpers of the command-line front end: the colour and icon of a
  status, the colour of a grade, the truncation of long messages, the list of
  critical failures and the process exit code of a test run.
 */
module Cli {
  import opened Results
  import opened Scoring
  import Text

  // ANSI escape sequences of the `Colors` table (before `--no-color` blanks them).
  const ResetColor := "\U{1B}[0m"
  const RedColor := "\U{1B}[91m"
  const GreenColor := "\U{1B}[92m"
  const YellowColor := "\U{1B}[93m"
  const CyanColor := "\U{1B}[96m"
  const GrayColor := "\U{1B}[90m"

  /** `status_color`: each status has its own colour. */
  function StatusColor(s: Status): string {
    match s
    case Pass => GreenColor
    case Fail => RedColor
    case Warn => YellowColor
    case Skip => GrayColor
  }

  /** `status_icon`: a check mark, a cross, a warning sign or a circle. */
  function StatusIcon(s: Status): string {
    match s
    case Pass => "\U{2713}"
    case Fail => "\U{2717}"
    case Warn => "\U{26A0}"
    case Skip => "\U{25CB}"
  }

  /** A status can be told from its colour alone, and from its icon alone. */
  lemma StatusRenderingInjective(s: Status, t: Status)
    ensures StatusColor(s) == StatusColor(t) ==> s == t
    ensures StatusIcon(s) == StatusIcon(t) ==> s == t
  {
    if StatusColor(s) == StatusColor(t) {
      assert StatusColor(s)[3] == StatusColor(t)[3];
    }
    if StatusIcon(s) == StatusIcon(t) {
      assert StatusIcon(s)[0] == StatusIcon(t)[0];
    }
  }

  /** `grade_color`: decided by the first letter of the grade. */
  function GradeColor(grade: string): (c: string)
    ensures Text.StartsWith(grade, "A") ==> c == GreenColor
    ensures Text.StartsWith(grade, "B") ==> c == CyanColor
    ensures Text.StartsWith(grade, "C") ==> c == YellowColor
    ensures !Text.StartsWith(grade, "A") && !Text.StartsWith(grade, "B") && !Text.StartsWith(grade, "C") ==> c == RedColor
  {
    if Text.StartsWith(grade, "A") then GreenColor
    else if Text.StartsWith(grade, "B") then CyanColor
    else if Text.StartsWith(grade, "C") then YellowColor
    else RedColor
  }

  /**
    On the grades `get_score` produces, green means at least 90 percent, cyan
    80 to 90, yellow 70 to 80, and red below 70 ("D" and "F" alike).
   */
  lemma GradeColorOfPercentage(p: real)
    ensures GradeColor(Grade(p)) == GreenColor <==> p >= 90.0
    ensures GradeColor(Grade(p)) == CyanColor <==> 80.0 <= p < 90.0
    ensures GradeColor(Grade(p)) == YellowColor <==> 70.0 <= p < 80.0
    ensures GradeColor(Grade(p)) == RedColor <==> p < 70.0
  {
    var g := Grade(p);
    assert GreenColor[3] == '2' && CyanColor[3] == '6' && YellowColor[3] == '3' && RedColor[3] == '1';
    if p >= 90.0 {
      assert g[..1] == "A";
    } else if p >= 80.0 {
      assert g[..1] == "B";
    } else if p >= 70.0 {
      assert g[..1] == "C";
    } else {
      assert g == "D" || g == "F";
      assert g[0] != 'A' && g[0] != 'B' && g[0] != 'C';
    }
  }

  /** The longest message shown, and the prefix kept of a longer one. */
  const MessageWidth := 60
  const KeptPrefix := 57

  /** The truncation of a message in the interactive report. */
  function Truncate(msg: string): (shown: string)
    ensures |msg| <= MessageWidth ==> shown == msg
    ensures |msg| > MessageWidth ==> |shown| == MessageWidth && shown == msg[..KeptPrefix] + "..."
  {
    if |msg| > MessageWidth then msg[..KeptPrefix] + "..." else msg
  }

  /** A shown message never exceeds the width, and truncating twice changes nothing more. */
  lemma TruncateIdempotent(msg: string)
    ensures |Truncate(msg)| <= MessageWidth
    ensures Truncate(Truncate(msg)) == Truncate(msg)
    ensures Truncate(msg) == msg <==> |msg| <= MessageWidth
  {
  }

  /** A critical failure is a FAIL of weight at least 1.5. */
  predicate IsCritical(r: TestResult) {
    r.status == Fail && r.weight >= 1.5
  }

  /** The critical failures of a run, in the order the results were recorded. */
  function CriticalFailures(rs: seq<TestResult>): (cs: seq<TestResult>)
    ensures |cs| <= |rs|
    ensures forall r :: r in cs <==> r in rs && IsCritical(r)
    decreases |rs|
  {
    if rs == [] then []
    else
      var init := CriticalFailures(rs[..|rs| - 1]);
      assert forall r :: r in rs <==> r in rs[..|rs| - 1] || r == rs[|rs| - 1];
      if IsCritical(rs[|rs| - 1]) then init + [rs[|rs| - 1]] else init
  }

  /** Every critical failure is one of the failures the summary counts. */
  lemma {:induction false} CriticalAreCountedFailures(rs: seq<TestResult>)
    ensures |CriticalFailures(rs)| <= CountStatus(rs, Fail)
    decreases |rs|
  {
    if rs != [] {
      CriticalAreCountedFailures(rs[..|rs| - 1]);
    }
  }

  /** The process exit status of a finished run. */
  function ExitCode(s: Summary): int {
    if s.failed == 0 then 0 else 1
  }

  /**
    The run exits with 0 exactly when no result failed, and with 1 otherwise; in
    particular any critical failure makes the run exit with 1.
   */
  lemma ExitCodeRule(rs: seq<TestResult>, byCategory: map<string, Counts>)
    ensures ExitCode(MakeSummary(rs, byCategory)) == 0 <==> forall k :: 0 <= k < |rs| ==> rs[k].status != Fail
    ensures ExitCode(MakeSummary(rs, byCategory)) != 0 ==> ExitCode(MakeSummary(rs, byCategory)) == 1
    ensures CriticalFailures(rs) != [] ==> ExitCode(MakeSummary(rs, byCategory)) == 1
  {
    var s := MakeSummary(rs, byCategory);
    if CriticalFailures(rs) != [] {
      var c := CriticalFailures(rs)[0];
      assert c in CriticalFailures(rs);
      var k :| 0 <= k < |rs| && rs[k] == c;
      assert rs[k].status == Fail;
    }
  }

  // ---------------------------------------------------------------------
  // How a run is started (see the Findings of the README)
  // ---------------------------------------------------------------------

  /** The keyword arguments `TestSuite.__init__` accepts besides the tester. */
  const SuiteKeywords: set<string> := {"verbose"}

  /** The keyword arguments `run_json_output` and `run_interactive` pass when they build the suite. */
  const CliKeywords: set<string> := {"verbose", "full_scan", "max_items"}

  /** The exit status of the `except Exception` handlers. */
  const ErrorExit := 2

  /**
    The exit status of a run whose suite is built with `keywords`: an
    unexpected keyword raises `TypeError` before any test runs, and the
    handler exits with 2; otherwise the run ends with `ExitCode` of its summary.
   */
  function RunExitCode(keywords: set<string>, s: Summary): int {
    if keywords <= SuiteKeywords then ExitCode(s) else ErrorExit
  }

  /**
    As written, both front ends pass `full_scan` and `max_items`, which the
    suite does not accept, so every run exits with 2, even one that recorded
    no failure and would have exited with 0.
   */
  lemma ExitCodeAsWritten(rs: seq<TestResult>, byCategory: map<string, Counts>)
    ensures RunExitCode(CliKeywords, MakeSummary(rs, byCategory)) == ErrorExit
    ensures RunExitCode(CliKeywords, MakeSummary([], byCategory)) != ExitCode(MakeSummary([], byCategory))
  {
    assert "full_scan" in CliKeywords && "full_scan" !in SuiteKeywords;
    ExitCodeRule([], byCategory);
  }

  /** Built with the keywords it accepts, the suite runs and the exit code follows `ExitCodeRule`. */
  lemma ExitCodeAsIntended(rs: seq<TestResult>, byCategory: map<string, Counts>)
    ensures RunExitCode(SuiteKeywords, MakeSummary(rs, byCategory)) == 0
            <==> forall k :: 0 <= k < |rs| ==> rs[k].status != Fail
    ensures RunExitCode(SuiteKeywords, MakeSummary(rs, byCategory)) != 0
            ==> RunExitCode(SuiteKeywords, MakeSummary(rs, byCategory)) == 1
  {
    ExitCodeRule(rs, byCategory);
  }
}
