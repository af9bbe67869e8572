/** `SecurityAnalyzer.analyzeShellScript` of the Android app: the
    specification functions that say what the analysis of one file is, and
    the imperative method that computes it the way the app does. */
module KotlinAnalyzer {
  import opened Text
  import opened Issues
  import opened OrderedTable
  import opened Heuristics
  import opened Tiers
  import KotlinRules

  /** The regular-expression engine, left abstract: `find(p, line)` tells
      whether `Pattern.compile(p).matcher(line).find()` succeeds and
      `group0(p, line)` is the text of that first match. */
  datatype Engine = Engine(find: (string, string) -> bool, group0: (string, string) -> string)

  // ----- encryption markers -----

  predicate HasEncryptionMarker(line: string) {
    Contains(line, "ENC[") || Contains(line, "openssl enc") || Contains(line, "gpg --encrypt")
  }

  /** `lines.any { ... }` over the lines of the content. */
  predicate IsEncrypted(lines: seq<string>) {
    exists line | line in lines :: HasEncryptionMarker(line)
  }

  /** No marker spans a line break, so testing line by line is testing the
      whole content. */
  lemma EncryptedIffContentHasMarker(content: string)
    ensures IsEncrypted(Lines(content)) <==> HasEncryptionMarker(content)
  {
    var lines := Lines(content);
    var markers := ["ENC[", "openssl enc", "gpg --encrypt"];
    forall m | m in markers
      ensures Contains(content, m) <==> exists p :: p in lines && Contains(p, m)
    {
      assert forall j | 0 <= j < |m| :: !IsNewline(m[j]);
      ContainsIffSomePartContains(content, IsNewline, m);
    }
    assert Contains(content, "ENC[") <==> exists p :: p in lines && Contains(p, "ENC[");
    assert Contains(content, "openssl enc") <==> exists p :: p in lines && Contains(p, "openssl enc");
    assert Contains(content, "gpg --encrypt") <==> exists p :: p in lines && Contains(p, "gpg --encrypt");
  }

  // ----- whole-content findings -----

  function CompressedIssue(content: string): SecurityIssue {
    SecurityIssue(0, "代码压缩", content, MEDIUM,
      "代码可能被压缩，增加了代码的可读性难度。除非您非常信任脚本来源，否则强烈不建议执行！")
  }

  function EscapeIssue(content: string): SecurityIssue {
    SecurityIssue(0, "过多转义序列", content, MEDIUM,
      "代码中包含过多转义序列，可能是混淆代码。除非您非常信任脚本来源，否则强烈不建议执行！")
  }

  function RenamedIssue(content: string): SecurityIssue {
    SecurityIssue(0, "变量重命名", content, MEDIUM,
      "代码中使用了重命名的变量，可能是混淆代码。除非您非常信任脚本来源，否则强烈不建议执行！")
  }

  function Base58Issue(content: string): SecurityIssue {
    SecurityIssue(0, "Base58编码", content, HIGH,
      "代码中包含Base58编码内容，可能隐藏恶意代码。除非您非常信任脚本来源，否则强烈不建议执行！")
  }

  /** The line-0 findings, in the order the heuristics run: one for
      compressed code, then one for excessive escapes, both of medium
      severity; the renamed-variable and Base58 placeholders never report. */
  function HeuristicIssues(content: string): (h: seq<SecurityIssue>)
    ensures |h| == (if IsCompressedCode(content) then 1 else 0) + (if HasExcessiveEscapes(content) then 1 else 0)
    ensures IsCompressedCode(content) ==> h[0] == CompressedIssue(content)
    ensures HasExcessiveEscapes(content) ==> h[|h| - 1] == EscapeIssue(content)
    ensures forall i | 0 <= i < |h| :: h[i].line == 0 && h[i].severity == MEDIUM && h[i].lineContent == content
  {
    var none: seq<SecurityIssue> := [];
    var compressed := if IsCompressedCode(content) then none + [CompressedIssue(content)] else none;
    var escapes := if HasExcessiveEscapes(content) then compressed + [EscapeIssue(content)] else compressed;
    var renamed := if HasRenamedVariables(content) then escapes + [RenamedIssue(content)] else escapes;
    if HasBase58Encoded(content) then renamed + [Base58Issue(content)] else renamed
  }

  // ----- per-line findings -----

  /** Blank lines and comment lines are not examined. */
  predicate Skipped(line: string) {
    |Trim(line)| == 0 || StartsWith(Trim(line), "#")
  }

  function DefaultExplanation(severity: Severity): string {
    match severity
    case HIGH => "高风险命令，极易可能导致系统损坏或数据丢失"
    case MEDIUM => "中风险命令，有一定风险影响系统配置或安全"
    case LOW => "低风险命令，不至于损坏设备，但可能会影响系统正常运行"
  }

  /** The value of the first table entry whose key occurs in the pattern
      text, or the default of the severity. */
  function Explanation(table: seq<(string, string)>, pattern: string, severity: Severity): string {
    match FindContained(table, pattern)
    case Some(e) => e
    case None => DefaultExplanation(severity)
  }

  predicate IsBlank(s: string) {
    forall i | 0 <= i < |s| :: IsWhitespace(s[i])
  }

  /** `extractMatchedCommand`: the trimmed match when it is not blank,
      otherwise the first whitespace-separated token of the trimmed line.
      The label is never empty on a line that is not blank, has no
      whitespace at either end, and is part of the match or of the line. */
  function ExtractMatchedCommand(engine: Engine, line: string, pattern: string): (command: string)
    ensures !IsBlank(engine.group0(pattern, line)) ==> command == Trim(engine.group0(pattern, line))
    ensures IsBlank(engine.group0(pattern, line)) ==> command == FirstToken(Trim(line))
    ensures |Trim(line)| > 0 ==> |command| > 0
    ensures |command| > 0 ==> !IsWhitespace(command[0]) && !IsWhitespace(command[|command| - 1])
    ensures Contains(engine.group0(pattern, line), command) || Contains(line, command)
  {
    var matched := engine.group0(pattern, line);
    if !IsBlank(matched) then
      Trim(matched)
    else
      var parts := Words(Trim(line));
      CommandFallback(line);
      if |parts| > 0 then parts[0] else "未知命令"
  }

  /** The fallback label is the first token of the trimmed line. */
  lemma CommandFallback(line: string)
    ensures Words(Trim(line))[0] == FirstToken(Trim(line))
    ensures |Trim(line)| > 0 ==> |FirstToken(Trim(line))| > 0
    ensures Contains(line, FirstToken(Trim(line)))
    ensures |FirstToken(Trim(line))| > 0 ==> !IsWhitespace(FirstToken(Trim(line))[|FirstToken(Trim(line))| - 1])
  {
    var t := Trim(line);
    var tok := FirstToken(t);
    FirstWordIsFirstToken(t);
    assert OccursAt(t, tok, 0);
    ContainsTransitive(line, t, tok);
  }

  /** The `k`-th rule is the first one in the list with its pattern text. */
  predicate FirstOccurrence(rules: seq<Rule>, k: int)
    requires 0 <= k < |rules|
  {
    forall j | 0 <= j < k :: rules[j].1 != rules[k].1
  }

  /** The rules among the first `m`, by index in evaluation order, that
      report on `line`: those whose pattern finds a match and was not listed
      earlier. */
  function HitIndices(engine: Engine, line: string, rules: seq<Rule>, m: nat): (ks: seq<nat>)
    requires m <= |rules|
    ensures forall a | 0 <= a < |ks| :: ks[a] < m
  {
    if m == 0 then []
    else if engine.find(rules[m - 1].1, line) && FirstOccurrence(rules, m - 1) then
      HitIndices(engine, line, rules, m - 1) + [m - 1]
    else
      HitIndices(engine, line, rules, m - 1)
  }

  /** The pattern texts among the first `m` rules that find a match on
      `line`, gathered rule by rule. */
  function Detected(engine: Engine, line: string, rules: seq<Rule>, m: nat): set<string>
    requires m <= |rules|
  {
    if m == 0 then {}
    else if engine.find(rules[m - 1].1, line) then
      Detected(engine, line, rules, m - 1) + {rules[m - 1].1}
    else
      Detected(engine, line, rules, m - 1)
  }

  /** A pattern is detected exactly when some rule with that pattern matches. */
  lemma {:induction false} DetectedMembers(engine: Engine, line: string, rules: seq<Rule>, m: nat, p: string)
    requires m <= |rules|
    ensures p in Detected(engine, line, rules, m)
      <==> exists k | 0 <= k < m :: rules[k].1 == p && engine.find(p, line)
  {
    if m > 0 {
      DetectedMembers(engine, line, rules, m - 1, p);
    }
  }

  /** The finding for one rule on line number `index + 1`. */
  function MakeIssue(engine: Engine, table: seq<(string, string)>, index: nat, line: string, rule: Rule): SecurityIssue {
    SecurityIssue(index + 1, ExtractMatchedCommand(engine, line, rule.1), line, rule.0,
      Explanation(table, rule.1, rule.0))
  }

  /** The report of every finding on the line with 0-based index `index`. */
  function Reporter(engine: Engine, table: seq<(string, string)>, index: nat, line: string): Rule -> SecurityIssue {
    rule => MakeIssue(engine, table, index, line, rule)
  }

  /** The findings of the line with 0-based index `index`. */
  function LineIssues(engine: Engine, table: seq<(string, string)>, rules: seq<Rule>,
                      index: nat, line: string): seq<SecurityIssue> {
    if Skipped(line) then []
    else IssuesAt(Reporter(engine, table, index, line), rules, HitIndices(engine, line, rules, |rules|))
  }

  /** The findings of all lines, line by line. */
  function AllLineIssues(engine: Engine, table: seq<(string, string)>, rules: seq<Rule>,
                         lines: seq<string>): seq<SecurityIssue> {
    if |lines| == 0 then []
    else
      var n := |lines| - 1;
      AllLineIssues(engine, table, rules, lines[..n]) + LineIssues(engine, table, rules, n, lines[n])
  }

  /** The analysis of one file against a rule table and an explanation table. */
  function Analyze(engine: Engine, tiers: seq<Tier>, table: seq<(string, string)>,
                   fileName: string, content: string): AnalysisResult {
    var lines := Lines(content);
    if IsEncrypted(lines) then AnalysisResult(fileName, true, [], content, None)
    else AnalysisResult(fileName, false,
      HeuristicIssues(content) + AllLineIssues(engine, table, Rules(tiers), lines), content, None)
  }

  // ----- the analyzer as the app runs it -----

  /** One step of the per-line scan: the set of patterns already reported
      decides exactly what the first-occurrence rule decides. */
  lemma ScanStep(engine: Engine, line: string, rules: seq<Rule>, m: nat)
    requires m < |rules|
    ensures var p := rules[m].1;
      (engine.find(p, line) && FirstOccurrence(rules, m))
      <==> (p !in Detected(engine, line, rules, m) && engine.find(p, line))
  {
    var p := rules[m].1;
    DetectedMembers(engine, line, rules, m, p);
    if p in Detected(engine, line, rules, m) {
      var k :| 0 <= k < m && rules[k].1 == p && engine.find(p, line);
      assert !FirstOccurrence(rules, m);
    }
  }

  /** `analyzeShellScript` with the rule table, the explanation table and the
      regular-expression engine as parameters. */
  method AnalyzeShellScriptWith(engine: Engine, tiers: seq<Tier>, table: seq<(string, string)>,
                                fileName: string, content: string) returns (r: AnalysisResult)
    ensures r == Analyze(engine, tiers, table, fileName, content)
  {
    var lines := Lines(content);
    if IsEncrypted(lines) {
      return AnalysisResult(fileName, true, [], content, None);
    }
    var issues: seq<SecurityIssue> := [];
    if IsCompressedCode(content) {
      issues := issues + [CompressedIssue(content)];
    }
    if HasExcessiveEscapes(content) {
      issues := issues + [EscapeIssue(content)];
    }
    if HasRenamedVariables(content) {
      issues := issues + [RenamedIssue(content)];
    }
    if HasBase58Encoded(content) {
      issues := issues + [Base58Issue(content)];
    }
    issues := ScanLines(engine, tiers, table, lines, issues);
    r := AnalysisResult(fileName, false, issues, content, None);
  }

  /** The loop over the lines (`lines.forEachIndexed`), appending each line's
      findings. */
  method ScanLines(engine: Engine, tiers: seq<Tier>, table: seq<(string, string)>,
                   lines: seq<string>, issues0: seq<SecurityIssue>) returns (issues: seq<SecurityIssue>)
    ensures issues == issues0 + AllLineIssues(engine, table, Rules(tiers), lines)
  {
    issues := issues0;
    ghost var rules := Rules(tiers);
    var index := 0;
    while index < |lines|
      invariant 0 <= index <= |lines|
      invariant issues == issues0 + AllLineIssues(engine, table, rules, lines[..index])
    {
      ghost var done := AllLineIssues(engine, table, rules, lines[..index]);
      ghost var found := LineIssues(engine, table, rules, index, lines[index]);
      issues := ScanLine(engine, tiers, table, index, lines[index], issues);
      assert lines[..index + 1][..index] == lines[..index];
      assert AllLineIssues(engine, table, rules, lines[..index + 1]) == done + found;
      AppendAssoc(issues0, done, found);
      index := index + 1;
    }
    assert lines[..index] == lines;
  }

  /** The body of the loop over the lines: a blank or comment line adds
      nothing, any other line is tested against the rules. */
  method ScanLine(engine: Engine, tiers: seq<Tier>, table: seq<(string, string)>,
                  index: nat, line: string, issues0: seq<SecurityIssue>) returns (issues: seq<SecurityIssue>)
    ensures issues == issues0 + LineIssues(engine, table, Rules(tiers), index, line)
  {
    if Skipped(line) {
      return issues0;
    }
    issues := ScanTiers(engine, tiers, Reporter(engine, table, index, line), line, issues0);
  }

  /** Test every pattern of every tier in order, keeping the set of patterns
      already reported on this line, and append a finding for each new
      pattern that matches. */
  method ScanTiers(engine: Engine, tiers: seq<Tier>, report: Rule -> SecurityIssue,
                   line: string, issues0: seq<SecurityIssue>) returns (issues: seq<SecurityIssue>)
    ensures issues == issues0 + IssuesAt(report, Rules(tiers),
      HitIndices(engine, line, Rules(tiers), |Rules(tiers)|))
  {
    issues := issues0;
    ghost var rules := Rules(tiers);
    var detected: set<string> := {};
    ghost var m := 0;
    var ti := 0;
    while ti < |tiers|
      invariant 0 <= ti <= |tiers|
      invariant m == |RulesUpTo(tiers, ti)| <= |rules|
      invariant Scanned(engine, report, line, rules, m, detected, issues, issues0)
    {
      detected, issues := ScanTierOf(engine, tiers, report, line, ti, rules, m, detected, issues, issues0);
      m := |RulesUpTo(tiers, ti + 1)|;
      ti := ti + 1;
    }
  }

  /** The scan of tier `ti`, placed among the rules of all tiers. */
  method ScanTierOf(engine: Engine, tiers: seq<Tier>, report: Rule -> SecurityIssue, line: string,
                    ti: nat, ghost rules: seq<Rule>, ghost m: nat, detected0: set<string>,
                    issues0: seq<SecurityIssue>, ghost prefix: seq<SecurityIssue>)
    returns (detected: set<string>, issues: seq<SecurityIssue>)
    requires ti < |tiers| && rules == Rules(tiers) && m == |RulesUpTo(tiers, ti)| <= |rules|
    requires Scanned(engine, report, line, rules, m, detected0, issues0, prefix)
    ensures |RulesUpTo(tiers, ti + 1)| <= |rules|
    ensures Scanned(engine, report, line, rules, |RulesUpTo(tiers, ti + 1)|, detected, issues, prefix)
  {
    RulesUpToLength(tiers, ti + 1);
    forall i | 0 <= i < |tiers[ti].patterns|
      ensures rules[m + i] == (tiers[ti].severity, tiers[ti].patterns[i])
    {
      TierRuleAt(tiers, ti, i);
    }
    detected, issues := ScanTier(engine, report, line, tiers[ti], rules, m, |RulesUpTo(tiers, ti + 1)|,
      detected0, issues0, prefix);
  }

  /** The loop over the patterns of one tier, continuing the scan of a line
      from the `m0` rules already tested: a pattern already reported on this
      line is passed over, and a new one that matches is reported and
      remembered. */
  method ScanTier(engine: Engine, report: Rule -> SecurityIssue, line: string, tier: Tier,
                  ghost rules: seq<Rule>, ghost m0: nat, ghost m1: nat, detected0: set<string>,
                  issues0: seq<SecurityIssue>, ghost prefix: seq<SecurityIssue>)
    returns (detected: set<string>, issues: seq<SecurityIssue>)
    requires m1 == m0 + |tier.patterns| <= |rules|
    requires forall i | 0 <= i < |tier.patterns| :: rules[m0 + i] == (tier.severity, tier.patterns[i])
    requires Scanned(engine, report, line, rules, m0, detected0, issues0, prefix)
    ensures Scanned(engine, report, line, rules, m1, detected, issues, prefix)
  {
    detected, issues := detected0, issues0;
    var severity := tier.severity;
    var patterns := tier.patterns;
    ghost var m := m0;
    var pi := 0;
    while pi < |patterns|
      invariant 0 <= pi <= |patterns|
      invariant m == m0 + pi
      invariant Scanned(engine, report, line, rules, m, detected, issues, prefix)
    {
      var pattern := patterns[pi];
      assert rules[m] == (severity, pattern);
      if pattern !in detected {
        if engine.find(pattern, line) {
          ReportStep(engine, report, line, rules, m, detected, issues, prefix);
          detected := detected + {pattern};
          issues := issues + [report((severity, pattern))];
        } else {
          PassStep(engine, report, line, rules, m, detected, issues, prefix);
        }
      } else {
        PassStep(engine, report, line, rules, m, detected, issues, prefix);
      }
      m := m + 1;
      pi := pi + 1;
    }
    assert m == m1;
  }

  /** The scan of a line has tested the first `m` rules: `detected` holds the
      patterns among them that matched, and `issues` extends `prefix` by the
      findings of the first occurrences among them. */
  ghost predicate Scanned(engine: Engine, report: Rule -> SecurityIssue, line: string,
                          rules: seq<Rule>, m: nat, detected: set<string>,
                          issues: seq<SecurityIssue>, prefix: seq<SecurityIssue>)
    requires m <= |rules|
  {
    detected == Detected(engine, line, rules, m)
    && issues == prefix + IssuesAt(report, rules, HitIndices(engine, line, rules, m))
  }

  /** A pattern not yet reported that matches is reported and remembered. */
  lemma ReportStep(engine: Engine, report: Rule -> SecurityIssue, line: string,
                   rules: seq<Rule>, m: nat, detected: set<string>,
                   issues: seq<SecurityIssue>, prefix: seq<SecurityIssue>)
    requires m < |rules|
    requires Scanned(engine, report, line, rules, m, detected, issues, prefix)
    requires rules[m].1 !in detected && engine.find(rules[m].1, line)
    ensures Scanned(engine, report, line, rules, m + 1, detected + {rules[m].1},
      issues + [report(rules[m])], prefix)
  {
    ScanStep(engine, line, rules, m);
    var hits := HitIndices(engine, line, rules, m);
    IssuesAtSnoc(report, rules, hits, m);
    AppendAssoc(prefix, IssuesAt(report, rules, hits), [report(rules[m])]);
  }

  /** A pattern already reported, or one that does not match, changes nothing. */
  lemma PassStep(engine: Engine, report: Rule -> SecurityIssue, line: string,
                 rules: seq<Rule>, m: nat, detected: set<string>,
                 issues: seq<SecurityIssue>, prefix: seq<SecurityIssue>)
    requires m < |rules|
    requires Scanned(engine, report, line, rules, m, detected, issues, prefix)
    requires !(rules[m].1 !in detected && engine.find(rules[m].1, line))
    ensures Scanned(engine, report, line, rules, m + 1, detected, issues, prefix)
  {
    ScanStep(engine, line, rules, m);
    var p := rules[m].1;
    if engine.find(p, line) {
      assert p in detected;
      assert Detected(engine, line, rules, m + 1) == detected + {p} == detected;
    }
  }

  /** `SecurityAnalyzer.analyzeShellScript` with the app's own tables. */
  method AnalyzeShellScript(engine: Engine, fileName: string, content: string) returns (r: AnalysisResult)
    ensures r == Analyze(engine, KotlinRules.DangerousCommands, KotlinRules.CommandExplanations, fileName, content)
  {
    r := AnalyzeShellScriptWith(engine, KotlinRules.DangerousCommands, KotlinRules.CommandExplanations, fileName, content);
  }
}
