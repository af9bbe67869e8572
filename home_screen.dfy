/** The tallies of the results screen: which findings count as safe, how
    many files are at risk or safe, how a file card splits its findings, and
    the per-severity summary it shows. */
module HomeScreen {
  import opened Text
  import opened Issues
  import opened Collections

  // ----- safe findings -----

  /** Command names that are harmless on their own. */
  const SafeCommands: seq<string> := [
    "ls", "df", "du", "ps", "top", "free", "uptime",
    "cp", "mv", "sort", "uniq", "head", "tail", "less", "more",
    "ping", "ping6", "traceroute", "tracepath", "netstat", "ifconfig", "ip",
    "date", "hwclock", "timedatectl", "export", "source", "alias", "unalias"
  ]

  /** The command text holds none of the fragments that make a safe name
      unsafe, tested in the order the screen tests them. */
  predicate ClearOfDangerousText(command: string) {
    !Contains(command, "rm") && !Contains(command, "dd") && !Contains(command, "mkfs")
    && !Contains(command, ">") && !Contains(command, ">>")
    && !Contains(command, "<") && !Contains(command, "<<")
    && !Contains(command, "tee")
  }

  /** `isSafeCommand`: a low-severity finding whose command text contains
      one of the safe names and none of the dangerous fragments. */
  predicate IsSafeCommand(issue: SecurityIssue) {
    issue.severity == LOW
    && exists i | 0 <= i < |SafeCommands| :: Contains(issue.command, SafeCommands[i]) && ClearOfDangerousText(issue.command)
  }

  /** The fragments that rule a command out; `>>` and `<<` add nothing to
      `>` and `<`. */
  const DangerousText: seq<string> := ["rm", "dd", "mkfs", ">", "<", "tee"]

  /** A finding is safe exactly when it is of low severity, its command
      contains a safe name, and it contains none of the six dangerous
      fragments. */
  lemma SafeCommandMeaning(issue: SecurityIssue)
    ensures IsSafeCommand(issue) <==>
      issue.severity == LOW
      && (exists i | 0 <= i < |SafeCommands| :: Contains(issue.command, SafeCommands[i]))
      && (forall j | 0 <= j < |DangerousText| :: !Contains(issue.command, DangerousText[j]))
  {
    var c := issue.command;
    assert OccursAt(">>", ">", 0) && OccursAt("<<", "<", 0);
    if Contains(c, ">>") {
      ContainsTransitive(c, ">>", ">");
    }
    if Contains(c, "<<") {
      ContainsTransitive(c, "<<", "<");
    }
    var d := DangerousText;
    if forall j | 0 <= j < |d| :: !Contains(c, d[j]) {
      assert !Contains(c, d[0]) && !Contains(c, d[1]) && !Contains(c, d[2]);
      assert !Contains(c, d[3]) && !Contains(c, d[4]) && !Contains(c, d[5]);
    }
  }

  /** A command containing a dangerous fragment is never safe, whatever its
      severity. */
  lemma DangerousTextIsNeverSafe(issue: SecurityIssue, j: nat)
    requires j < |DangerousText| && Contains(issue.command, DangerousText[j])
    ensures !IsSafeCommand(issue)
  {
    SafeCommandMeaning(issue);
  }

  // ----- the file counts of the results screen -----

  /** Some finding of the file is not safe. */
  predicate HasRisk(r: AnalysisResult) {
    exists i | 0 <= i < |r.issues| :: !IsSafeCommand(r.issues[i])
  }

  /** Every finding of the file is safe, or there is none. */
  predicate LooksSafe(r: AnalysisResult) {
    (forall i | 0 <= i < |r.issues| :: IsSafeCommand(r.issues[i])) || |r.issues| == 0
  }

  /** `riskFiles`: the files with a finding that is not safe. */
  function RiskFiles(results: seq<AnalysisResult>): nat {
    Count(results, HasRisk)
  }

  /** `safeFiles`: the files whose findings are all safe. */
  function SafeFiles(results: seq<AnalysisResult>): nat {
    Count(results, LooksSafe)
  }

  /** Every file is counted exactly once, as a risk file or as a safe file. */
  lemma FileCountsPartition(results: seq<AnalysisResult>)
    ensures forall i | 0 <= i < |results| :: HasRisk(results[i]) != LooksSafe(results[i])
    ensures RiskFiles(results) + SafeFiles(results) == |results|
  {
    CountComplementary(results, HasRisk, LooksSafe);
  }

  // ----- the findings of a file card -----

  /** `safeCommands` of a file card. */
  function SafeIssues(issues: seq<SecurityIssue>): seq<SecurityIssue> {
    Filter(issues, IsSafeCommand)
  }

  predicate IsRisky(issue: SecurityIssue) {
    !IsSafeCommand(issue)
  }

  /** `riskIssues` of a file card. */
  function RiskIssues(issues: seq<SecurityIssue>): seq<SecurityIssue> {
    Filter(issues, IsRisky)
  }

  /** The safe and the risky findings of a card split its findings: each
      list holds only findings of its kind and together they hold them all. */
  lemma CardPartition(issues: seq<SecurityIssue>)
    ensures |SafeIssues(issues)| + |RiskIssues(issues)| == |issues|
    ensures forall j | 0 <= j < |SafeIssues(issues)| :: IsSafeCommand(SafeIssues(issues)[j])
    ensures forall j | 0 <= j < |RiskIssues(issues)| :: !IsSafeCommand(RiskIssues(issues)[j])
  {
    FilterCount(issues, IsSafeCommand);
    FilterCount(issues, IsRisky);
    CountComplementary(issues, IsSafeCommand, IsRisky);
  }

  /** The findings of `severity` among `issues`. */
  function OfSeverity(issues: seq<SecurityIssue>, severity: Severity): seq<SecurityIssue> {
    Filter(issues, SeverityIs(severity))
  }

  function SeverityIs(severity: Severity): SecurityIssue -> bool {
    (issue: SecurityIssue) => issue.severity == severity
  }

  /** The three severity lists of a card together hold all its risky
      findings. */
  lemma SeverityCountsAddUp(issues: seq<SecurityIssue>)
    ensures |OfSeverity(issues, HIGH)| + |OfSeverity(issues, MEDIUM)| + |OfSeverity(issues, LOW)| == |issues|
  {
    var high, medium, low := SeverityIs(HIGH), SeverityIs(MEDIUM), SeverityIs(LOW);
    var notHigh := (issue: SecurityIssue) => issue.severity != HIGH;
    FilterCount(issues, high);
    FilterCount(issues, medium);
    FilterCount(issues, low);
    CountComplementary(issues, high, notHigh);
    var rest := Filter(issues, notHigh);
    FilterCount(issues, notHigh);
    FilterCount(rest, medium);
    FilterCount(rest, low);
    CountComplementary(rest, medium, low);
    FilterFilter(issues, notHigh, medium, medium);
    FilterFilter(issues, notHigh, low, low);
  }

  /** Safe findings are of low severity, so every high and every medium
      finding of a card is among its risky ones. */
  lemma RiskKeepsHighAndMedium(issues: seq<SecurityIssue>)
    ensures OfSeverity(RiskIssues(issues), HIGH) == OfSeverity(issues, HIGH)
    ensures OfSeverity(RiskIssues(issues), MEDIUM) == OfSeverity(issues, MEDIUM)
  {
    FilterFilter(issues, IsRisky, SeverityIs(HIGH), SeverityIs(HIGH));
    FilterFilter(issues, IsRisky, SeverityIs(MEDIUM), SeverityIs(MEDIUM));
  }

  /** The detail dialog's groups: the risky findings of one severity. */
  function RiskyOfSeverity(severity: Severity): SecurityIssue -> bool {
    (issue: SecurityIssue) => issue.severity == severity && !IsSafeCommand(issue)
  }

  /** The detail dialog groups the same findings as the card's per-severity
      lists, and its three groups and its safe list together hold every
      finding of the file. */
  lemma DialogGroupsPartition(issues: seq<SecurityIssue>)
    ensures forall severity :: Filter(issues, RiskyOfSeverity(severity)) == OfSeverity(RiskIssues(issues), severity)
    ensures |Filter(issues, RiskyOfSeverity(HIGH))| + |Filter(issues, RiskyOfSeverity(MEDIUM))|
      + |Filter(issues, RiskyOfSeverity(LOW))| + |SafeIssues(issues)| == |issues|
  {
    forall severity
      ensures Filter(issues, RiskyOfSeverity(severity)) == OfSeverity(RiskIssues(issues), severity)
    {
      FilterFilter(issues, IsRisky, SeverityIs(severity), RiskyOfSeverity(severity));
    }
    SeverityCountsAddUp(RiskIssues(issues));
    CardPartition(issues);
  }

  /** The summary line of a card, `高风险: n 中风险: n 低风险: n`, with the
      parts for absent severities left out. */
  function RiskText(risk: seq<SecurityIssue>): string {
    var high := |OfSeverity(risk, HIGH)|;
    var medium := |OfSeverity(risk, MEDIUM)|;
    var low := |OfSeverity(risk, LOW)|;
    (if high > 0 then "高风险: " + Decimal(high) + " " else "")
    + (if medium > 0 then "中风险: " + Decimal(medium) + " " else "")
    + (if low > 0 then "低风险: " + Decimal(low) else "")
  }

  /** The summary line is empty exactly when there are no risky findings, so
      the card, which shows it only for risky findings, never shows it
      empty. */
  lemma RiskTextEmpty(risk: seq<SecurityIssue>)
    ensures RiskText(risk) == "" <==> |risk| == 0
  {
    SeverityCountsAddUp(risk);
  }
}
