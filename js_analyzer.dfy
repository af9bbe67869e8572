/** `analyzeShellScript` of the JavaScript variant: the specification
    functions that say what the analysis of one file is, and the imperative
    function that computes it the way the script does. Unlike the Android
    app, it labels a finding by a cleaned-up pattern text, keeps every
    matching rule (a repeated pattern is reported again), and lets the
    exception of `hasRenamedVariables` escape. */
module JsAnalyzer {
  import opened Text
  import opened Issues
  import opened Tiers
  import opened JsHeuristics
  import Heuristics
  import KotlinAnalyzer
  import JsRules

  // ----- the finding label -----

  /** The characters the regular-expression `.` does not match. */
  predicate IsLineTerminator(c: char) {
    c == '\n' || c == '\r' || c == '\U{2028}' || c == '\U{2029}'
  }

  /** The first line terminator at or after `i`, or the end of `s`. */
  function LineEnd(s: string, i: nat): (e: nat)
    requires i <= |s|
    ensures i <= e <= |s|
    ensures forall k | i <= k < e :: !IsLineTerminator(s[k])
    ensures e < |s| ==> IsLineTerminator(s[e])
    decreases |s| - i
  {
    if i == |s| || IsLineTerminator(s[i]) then i else LineEnd(s, i + 1)
  }

  /** The position of the last `)` in `s[lo..hi]`, if there is one. */
  function LastClose(s: string, lo: nat, hi: nat): (k: Option<nat>)
    requires lo <= hi <= |s|
    ensures k.Some? ==> lo <= k.value < hi && s[k.value] == ')'
    ensures k.Some? ==> forall j | k.value < j < hi :: s[j] != ')'
    ensures k.None? ==> forall j | lo <= j < hi :: s[j] != ')'
    decreases hi - lo
  {
    if hi == lo then None
    else if s[hi - 1] == ')' then Some(hi - 1)
    else LastClose(s, lo, hi - 1)
  }

  /** Where a match of `\(\?!.*\)` that starts at `i` ends: `(?!` followed by
      the longest run of non-terminators that ends in `)`. */
  function LookaheadEnd(s: string, i: nat): (e: Option<nat>)
    requires i <= |s|
    ensures e.Some? ==> i + 4 <= e.value <= |s| && s[e.value - 1] == ')'
  {
    if OccursAt(s, "(?!", i) then
      match LastClose(s, i + 3, LineEnd(s, i + 3))
      case Some(k) => Some(k + 1)
      case None => None
    else None
  }

  /** `command.replace(/\\\*|\(\?!.*\)/g, '')` from position `i` on: scanning
      left to right, an escaped star is removed, a negative lookahead group
      is removed up to the last `)` on its line, and any other character is
      kept. */
  function StripFrom(s: string, i: nat): (r: string)
    requires i <= |s|
    ensures |r| <= |s| - i
    decreases |s| - i
  {
    if i == |s| then ""
    else if s[i] == '\\' && i + 1 < |s| && s[i + 1] == '*' then StripFrom(s, i + 2)
    else
      match LookaheadEnd(s, i)
      case Some(e) => StripFrom(s, e)
      case None => [s[i]] + StripFrom(s, i + 1)
  }

  /** The label of a finding: the pattern text with its escaped stars and
      negative lookaheads removed. */
  function StripLabel(pattern: string): string {
    StripFrom(pattern, 0)
  }

  // ----- the explanation of a finding -----

  /** `COMMAND_EXPLANATIONS[label] || default`: the table's text for the
      label, unless there is none or it is empty. */
  function Explanation(table: map<string, string>, key: string, severity: Severity): string {
    if key in table && table[key] != "" then table[key]
    // the script's three default texts (safety-check-improvement.js:487, 501, 515) are the app's
    else KotlinAnalyzer.DefaultExplanation(severity)
  }

  // ----- whole-content findings -----

  const CompressedText: string :=
    "代码可能被压缩，增加了代码的可读性难度。除脚本项有做定义外，任何将脚本命令内容变种的行为都将视为不可靠，⚠️除非您非常信任脚本来源，否则我们强烈不建议你去执行！"

  const RenamedText: string :=
    "代码中的变量名可能被重命名，增加了代码的可读性难度。除脚本项有做定义外，任何将脚本命令内容变种的行为都将视为不可靠，⚠️除非您非常信任脚本来源，否则我们强烈不建议你去执行！"

  const EscapeText: string :=
    "代码中包含过多转义序列，可能是混淆代码。除脚本项有做定义外，任何将脚本命令内容变种的行为都将视为不可靠，⚠️除非您非常信任脚本来源，否则我们强烈不建议你去执行！"

  function CompressedIssue(content: string): SecurityIssue {
    SecurityIssue(0, "代码压缩", content, MEDIUM, CompressedText)
  }

  function RenamedIssue(content: string): SecurityIssue {
    SecurityIssue(0, "变量重命名", content, MEDIUM, RenamedText)
  }

  function EscapeIssue(content: string): SecurityIssue {
    SecurityIssue(0, "过多转义序列", content, MEDIUM, EscapeText)
  }

  /** The line-0 findings in the order the checks run (compressed code,
      renamed variables, excessive escapes), or the exception the
      renamed-variable check throws, in which case the escape check never
      runs. */
  function HeuristicOutcome(content: string): (o: Outcome<seq<SecurityIssue>>)
    ensures o.Threw? <==> RenamedOutcome(content).Threw?
    ensures o.Threw? ==> o == Threw(RenamedOutcome(content).error)
    ensures o.Returned? ==>
      |o.value| == (if Heuristics.IsCompressedCode(content) then 1 else 0)
                   + (if RenamedOutcome(content) == Returned(true) then 1 else 0)
                   + (if ExcessiveEscapes(content) then 1 else 0)
    ensures o.Returned? && Heuristics.IsCompressedCode(content) ==> o.value[0] == CompressedIssue(content)
    ensures o.Returned? && ExcessiveEscapes(content) ==> o.value[|o.value| - 1] == EscapeIssue(content)
    ensures o.Returned? ==> forall i | 0 <= i < |o.value| ::
      o.value[i].line == 0 && o.value[i].severity == MEDIUM && o.value[i].lineContent == content
  {
    var none: seq<SecurityIssue> := [];
    var compressed := if Heuristics.IsCompressedCode(content) then none + [CompressedIssue(content)] else none;
    match RenamedOutcome(content)
    case Threw(e) => Threw(e)
    case Returned(renamed) =>
      var withRenamed := if renamed then compressed + [RenamedIssue(content)] else compressed;
      Returned(if ExcessiveEscapes(content) then withRenamed + [EscapeIssue(content)] else withRenamed)
  }

  // ----- per-line findings -----

  /** The rules among the first `m`, by index in evaluation order, whose
      pattern `new RegExp(pattern).test(line)` accepts. */
  function MatchIndices(test: (string, string) -> bool, line: string, rules: seq<Rule>, m: nat): (ks: seq<nat>)
    requires m <= |rules|
    ensures forall a | 0 <= a < |ks| :: ks[a] < m
  {
    if m == 0 then []
    else if test(rules[m - 1].1, line) then MatchIndices(test, line, rules, m - 1) + [m - 1]
    else MatchIndices(test, line, rules, m - 1)
  }

  /** The finding for one rule on line number `index + 1`. */
  function MakeIssue(table: map<string, string>, index: nat, line: string, rule: Rule): SecurityIssue {
    var command := StripLabel(rule.1);
    SecurityIssue(index + 1, command, line, rule.0, Explanation(table, command, rule.0))
  }

  /** The report of every finding on the line with 0-based index `index`. */
  function Reporter(table: map<string, string>, index: nat, line: string): Rule -> SecurityIssue {
    rule => MakeIssue(table, index, line, rule)
  }

  /** The findings of the line with 0-based index `index`. */
  function LineIssues(test: (string, string) -> bool, table: map<string, string>, rules: seq<Rule>,
                      index: nat, line: string): seq<SecurityIssue> {
    // the script's skip test (safety-check-improvement.js:476) is the app's (SecurityAnalyzer.kt:692)
    if KotlinAnalyzer.Skipped(line) then []
    else IssuesAt(Reporter(table, index, line), rules, MatchIndices(test, line, rules, |rules|))
  }

  /** The findings of all lines, line by line. */
  function AllLineIssues(test: (string, string) -> bool, table: map<string, string>, rules: seq<Rule>,
                         lines: seq<string>): seq<SecurityIssue> {
    if |lines| == 0 then []
    else
      var n := |lines| - 1;
      AllLineIssues(test, table, rules, lines[..n]) + LineIssues(test, table, rules, n, lines[n])
  }

  /** The analysis of one file against a rule table and an explanation
      table: the result, or the exception that escapes. */
  function Analyze(test: (string, string) -> bool, tiers: seq<Tier>, table: map<string, string>,
                   fileName: string, content: string): Outcome<AnalysisResult> {
    var lines := Lines(content);
    // the script's three markers (safety-check-improvement.js:408-412) are the app's (SecurityAnalyzer.kt:633-637)
    if KotlinAnalyzer.IsEncrypted(lines) then Returned(AnalysisResult(fileName, true, [], content, None))
    else
      match HeuristicOutcome(content)
      case Threw(e) => Threw(e)
      case Returned(h) =>
        Returned(AnalysisResult(fileName, false, h + AllLineIssues(test, table, Rules(tiers), lines), content, None))
  }

  // ----- the analyzer as the script runs it -----

  /** `analyzeShellScript` with the rule table, the explanation table and the
      regular-expression test as parameters. */
  method AnalyzeShellScriptWith(test: (string, string) -> bool, tiers: seq<Tier>, table: map<string, string>,
                                fileName: string, content: string) returns (r: Outcome<AnalysisResult>)
    ensures r == Analyze(test, tiers, table, fileName, content)
  {
    var issues: seq<SecurityIssue> := [];
    var lines := Lines(content);
    // the same marker test as the app's
    if KotlinAnalyzer.IsEncrypted(lines) {
      return Returned(AnalysisResult(fileName, true, [], content, None));
    }
    if Heuristics.IsCompressedCode(content) {
      issues := issues + [CompressedIssue(content)];
    }
    var renamed := HasRenamedVariables(content);
    if renamed.Threw? {
      return Threw(renamed.error);
    }
    if renamed.value {
      issues := issues + [RenamedIssue(content)];
    }
    var escapes := HasExcessiveEscapes(content);
    if escapes {
      issues := issues + [EscapeIssue(content)];
    }
    issues := ScanLines(test, tiers, table, lines, issues);
    r := Returned(AnalysisResult(fileName, false, issues, content, None));
  }

  /** The loop over the lines (`lines.forEach`), appending each line's
      findings. */
  method ScanLines(test: (string, string) -> bool, tiers: seq<Tier>, table: map<string, string>,
                   lines: seq<string>, issues0: seq<SecurityIssue>) returns (issues: seq<SecurityIssue>)
    ensures issues == issues0 + AllLineIssues(test, table, Rules(tiers), lines)
  {
    issues := issues0;
    ghost var rules := Rules(tiers);
    var index := 0;
    while index < |lines|
      invariant 0 <= index <= |lines|
      invariant issues == issues0 + AllLineIssues(test, table, rules, lines[..index])
    {
      ghost var done := AllLineIssues(test, table, rules, lines[..index]);
      ghost var found := LineIssues(test, table, rules, index, lines[index]);
      issues := ScanLine(test, tiers, table, index, lines[index], issues);
      assert lines[..index + 1][..index] == lines[..index];
      assert AllLineIssues(test, table, rules, lines[..index + 1]) == done + found;
      AppendAssoc(issues0, done, found);
      index := index + 1;
    }
    assert lines[..index] == lines;
  }

  /** The body of the loop over the lines: a blank or comment line adds
      nothing, any other line is tested against every rule. */
  method ScanLine(test: (string, string) -> bool, tiers: seq<Tier>, table: map<string, string>,
                  index: nat, line: string, issues0: seq<SecurityIssue>) returns (issues: seq<SecurityIssue>)
    ensures issues == issues0 + LineIssues(test, table, Rules(tiers), index, line)
  {
    // the same skip test as the app's
    if KotlinAnalyzer.Skipped(line) {
      return issues0;
    }
    issues := ScanTiers(test, tiers, Reporter(table, index, line), line, issues0);
  }

  /** The three `forEach` loops over the tiers, in order. */
  method ScanTiers(test: (string, string) -> bool, tiers: seq<Tier>, report: Rule -> SecurityIssue,
                   line: string, issues0: seq<SecurityIssue>) returns (issues: seq<SecurityIssue>)
    ensures issues == issues0 + IssuesAt(report, Rules(tiers), MatchIndices(test, line, Rules(tiers), |Rules(tiers)|))
  {
    issues := issues0;
    ghost var rules := Rules(tiers);
    ghost var m := 0;
    var ti := 0;
    while ti < |tiers|
      invariant 0 <= ti <= |tiers|
      invariant m == |RulesUpTo(tiers, ti)| <= |rules|
      invariant Scanned(test, report, line, rules, m, issues, issues0)
    {
      issues := ScanTierOf(test, tiers, report, line, ti, rules, m, issues, issues0);
      m := |RulesUpTo(tiers, ti + 1)|;
      ti := ti + 1;
    }
  }

  /** The scan of tier `ti`, placed among the rules of all tiers. */
  method ScanTierOf(test: (string, string) -> bool, tiers: seq<Tier>, report: Rule -> SecurityIssue, line: string,
                    ti: nat, ghost rules: seq<Rule>, ghost m: nat,
                    issues0: seq<SecurityIssue>, ghost prefix: seq<SecurityIssue>)
    returns (issues: seq<SecurityIssue>)
    requires ti < |tiers| && rules == Rules(tiers) && m == |RulesUpTo(tiers, ti)| <= |rules|
    requires Scanned(test, report, line, rules, m, issues0, prefix)
    ensures |RulesUpTo(tiers, ti + 1)| <= |rules|
    ensures Scanned(test, report, line, rules, |RulesUpTo(tiers, ti + 1)|, issues, prefix)
  {
    RulesUpToLength(tiers, ti + 1);
    forall i | 0 <= i < |tiers[ti].patterns|
      ensures rules[m + i] == (tiers[ti].severity, tiers[ti].patterns[i])
    {
      TierRuleAt(tiers, ti, i);
    }
    issues := ScanTier(test, report, line, tiers[ti], rules, m, |RulesUpTo(tiers, ti + 1)|, issues0, prefix);
  }

  /** One `forEach` over the patterns of a tier: every pattern that matches
      is reported, whether or not it was reported before on this line. */
  method ScanTier(test: (string, string) -> bool, report: Rule -> SecurityIssue, line: string, tier: Tier,
                  ghost rules: seq<Rule>, ghost m0: nat, ghost m1: nat,
                  issues0: seq<SecurityIssue>, ghost prefix: seq<SecurityIssue>)
    returns (issues: seq<SecurityIssue>)
    requires m1 == m0 + |tier.patterns| <= |rules|
    requires forall i | 0 <= i < |tier.patterns| :: rules[m0 + i] == (tier.severity, tier.patterns[i])
    requires Scanned(test, report, line, rules, m0, issues0, prefix)
    ensures Scanned(test, report, line, rules, m1, issues, prefix)
  {
    issues := issues0;
    var severity := tier.severity;
    var patterns := tier.patterns;
    ghost var m := m0;
    var pi := 0;
    while pi < |patterns|
      invariant 0 <= pi <= |patterns|
      invariant m == m0 + pi
      invariant Scanned(test, report, line, rules, m, issues, prefix)
    {
      var pattern := patterns[pi];
      assert rules[m] == (severity, pattern);
      if test(pattern, line) {
        ghost var ks := MatchIndices(test, line, rules, m);
        IssuesAtSnoc(report, rules, ks, m);
        AppendAssoc(prefix, IssuesAt(report, rules, ks), [report(rules[m])]);
        issues := issues + [report((severity, pattern))];
      }
      m := m + 1;
      pi := pi + 1;
    }
    assert m == m1;
  }

  /** The scan of a line has tested the first `m` rules: `issues` extends
      `prefix` by the findings of those among them that match. */
  ghost predicate Scanned(test: (string, string) -> bool, report: Rule -> SecurityIssue, line: string,
                          rules: seq<Rule>, m: nat, issues: seq<SecurityIssue>, prefix: seq<SecurityIssue>)
    requires m <= |rules|
  {
    issues == prefix + IssuesAt(report, rules, MatchIndices(test, line, rules, m))
  }

  /** `analyzeShellScript` with the script's own tables. */
  method AnalyzeShellScript(test: (string, string) -> bool, fileName: string, content: string)
    returns (r: Outcome<AnalysisResult>)
    ensures r == Analyze(test, JsRules.DangerousCommands, JsRules.CommandExplanations, fileName, content)
  {
    r := AnalyzeShellScriptWith(test, JsRules.DangerousCommands, JsRules.CommandExplanations, fileName, content);
  }
}
