/** The figures and labels of the exported HTML report: the statistics over
    all results, the status of a file section, and the style of a finding
    by severity. The HTML text around them is not modelled. */
module ExportUtils {
  import opened Text
  import opened Issues
  import opened Collections
  import HomeScreen

  // ----- report statistics -----

  datatype ReportStatistics = ReportStatistics(
    totalFiles: nat, totalIssues: nat, safeFiles: nat, riskFiles: nat,
    highRiskCount: nat, mediumRiskCount: nat, lowRiskCount: nat)

  function IssueCount(r: AnalysisResult): nat {
    |r.issues|
  }

  predicate HasNoIssues(r: AnalysisResult) {
    |r.issues| == 0
  }

  predicate HasIssues(r: AnalysisResult) {
    |r.issues| > 0
  }

  /** `issues.count { it.severity == severity }` of one result. */
  function SeverityCountOf(severity: Severity): AnalysisResult -> nat {
    (r: AnalysisResult) => Count(r.issues, HomeScreen.SeverityIs(severity))
  }

  /** The figures `generateHtmlReport` computes before rendering. */
  function Statistics(results: seq<AnalysisResult>): ReportStatistics {
    ReportStatistics(
      |results|,
      SumOf(results, IssueCount),
      Count(results, HasNoIssues),
      Count(results, HasIssues),
      SumOf(results, SeverityCountOf(HIGH)),
      SumOf(results, SeverityCountOf(MEDIUM)),
      SumOf(results, SeverityCountOf(LOW)))
  }

  /** Each finding has one of three severities. */
  lemma SeveritySplit(issues: seq<SecurityIssue>)
    ensures Count(issues, HomeScreen.SeverityIs(HIGH)) + Count(issues, HomeScreen.SeverityIs(MEDIUM))
      + Count(issues, HomeScreen.SeverityIs(LOW)) == |issues|
  {
    HomeScreen.SeverityCountsAddUp(issues);
    FilterCount(issues, HomeScreen.SeverityIs(HIGH));
    FilterCount(issues, HomeScreen.SeverityIs(MEDIUM));
    FilterCount(issues, HomeScreen.SeverityIs(LOW));
  }

  /** The statistics agree with each other: every file is safe or at risk,
      every finding is high, medium or low, and there is a risk file exactly
      when there is a finding. */
  lemma StatisticsConsistent(results: seq<AnalysisResult>)
    ensures var st := Statistics(results);
      st.safeFiles + st.riskFiles == st.totalFiles
      && st.highRiskCount + st.mediumRiskCount + st.lowRiskCount == st.totalIssues
      && (st.riskFiles == 0 <==> st.totalIssues == 0)
  {
    CountComplementary(results, HasNoIssues, HasIssues);
    var high, medium, low := SeverityCountOf(HIGH), SeverityCountOf(MEDIUM), SeverityCountOf(LOW);
    var highOrMedium := (r: AnalysisResult) => high(r) + medium(r);
    forall i | 0 <= i < |results|
      ensures IssueCount(results[i]) == highOrMedium(results[i]) + low(results[i])
    {
      SeveritySplit(results[i].issues);
    }
    SumOfAdd(results, highOrMedium, low, IssueCount);
    SumOfAdd(results, high, medium, highOrMedium);
    CountZero(results, HasIssues);
    SumOfZero(results, IssueCount);
  }

  /** An encrypted or failed result reports nothing, so it is counted as a
      safe file. */
  lemma ShortCircuitedCountAsSafe(results: seq<AnalysisResult>)
    requires forall i | 0 <= i < |results| :: ShortCircuitIsEmpty(results[i])
    ensures Count(results, (r: AnalysisResult) => r.encrypted || r.error.Some?) <= Statistics(results).safeFiles
  {
    CountMonotone(results, (r: AnalysisResult) => r.encrypted || r.error.Some?, HasNoIssues);
  }

  /** A file that could not be read, wherever it stands in the list, is
      counted as a safe file both on the results screen and in the report,
      and adds no finding and no risk file to either. */
  lemma FailedFileCountsAsSafe(before: seq<AnalysisResult>, after: seq<AnalysisResult>, fileName: string, message: string)
    ensures var rest, all := before + after, before + [ErrorResult(fileName, message)] + after;
      HomeScreen.SafeFiles(all) == HomeScreen.SafeFiles(rest) + 1
      && HomeScreen.RiskFiles(all) == HomeScreen.RiskFiles(rest)
      && Statistics(all).safeFiles == Statistics(rest).safeFiles + 1
      && Statistics(all).riskFiles == Statistics(rest).riskFiles
      && Statistics(all).totalIssues == Statistics(rest).totalIssues
  {
    var failed := ErrorResult(fileName, message);
    var one := [failed];
    assert ShortCircuitIsEmpty(failed) && failed.error.Some?;
    assert HomeScreen.LooksSafe(failed) && !HomeScreen.HasRisk(failed);
    assert one[..0] == [];
    CountConcat(before + one, after, HomeScreen.LooksSafe);
    CountConcat(before, one, HomeScreen.LooksSafe);
    CountConcat(before, after, HomeScreen.LooksSafe);
    CountConcat(before + one, after, HomeScreen.HasRisk);
    CountConcat(before, one, HomeScreen.HasRisk);
    CountConcat(before, after, HomeScreen.HasRisk);
    CountConcat(before + one, after, HasNoIssues);
    CountConcat(before, one, HasNoIssues);
    CountConcat(before, after, HasNoIssues);
    CountConcat(before + one, after, HasIssues);
    CountConcat(before, one, HasIssues);
    CountConcat(before, after, HasIssues);
    SumOfConcat(before + one, after, IssueCount);
    SumOfConcat(before, one, IssueCount);
    SumOfConcat(before, after, IssueCount);
  }

  /** A file at risk on the results screen has findings, so the screen never
      shows more risk files than the report. */
  lemma ScreenRiskWithinReport(results: seq<AnalysisResult>)
    ensures HomeScreen.RiskFiles(results) <= Statistics(results).riskFiles
  {
    CountMonotone(results, HomeScreen.HasRisk, HasIssues);
  }

  // ----- file sections -----

  const RiskSuffix: string := " 个风险项"

  /** The CSS class and the text of a file's status. */
  function FileStatus(result: AnalysisResult): (string, string) {
    if |result.issues| == 0 then ("status-safe", "安全")
    else ("status-risk", Decimal(|result.issues|) + RiskSuffix)
  }

  /** A file is shown as safe exactly when it has no findings; otherwise
      its status reads the number of findings followed by the suffix. */
  lemma FileStatusMeaning(result: AnalysisResult)
    ensures FileStatus(result).0 == "status-safe" <==> |result.issues| == 0
    ensures FileStatus(result).1 == "安全" <==> |result.issues| == 0
    ensures |result.issues| > 0 ==>
      var text := FileStatus(result).1;
      |text| > |RiskSuffix| && text[|text| - |RiskSuffix|..] == RiskSuffix
      && var count := text[..|text| - |RiskSuffix|];
         (forall i | 0 <= i < |count| :: IsDigit(count[i])) && DigitsValue(count) == |result.issues|
  {
    if |result.issues| > 0 {
      var digits := Decimal(|result.issues|);
      var text := digits + RiskSuffix;
      assert text[..|digits|] == digits;
      assert text[|digits|..] == RiskSuffix;
      assert text != "安全" by {
        assert |"安全"| == 2 < |text|;
      }
    }
  }

  // ----- finding styles -----

  /** The level class, the level text and the badge class of a finding. */
  function SeverityStyle(severity: Severity): (string, string, string) {
    match severity
    case HIGH => ("issue-high", "高风险", "level-high")
    case MEDIUM => ("issue-medium", "中风险", "level-medium")
    case LOW => ("issue-low", "低风险", "level-low")
  }

  /** Different severities are told apart by each of the three parts of
      their style. */
  lemma SeverityStyleInjective(a: Severity, b: Severity)
    requires a != b
    ensures SeverityStyle(a).0 != SeverityStyle(b).0
    ensures SeverityStyle(a).1 != SeverityStyle(b).1
    ensures SeverityStyle(a).2 != SeverityStyle(b).2
  {
    var s := [SeverityStyle(HIGH), SeverityStyle(MEDIUM), SeverityStyle(LOW)];
    assert s[0].0[6] == 'h' && s[1].0[6] == 'm' && s[2].0[6] == 'l';
    assert s[0].1[0] == '高' && s[1].1[0] == '中' && s[2].1[0] == '低';
    assert s[0].2[6] == 'h' && s[1].2[6] == 'm' && s[2].2[6] == 'l';
  }
}
