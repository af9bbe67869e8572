/** What the JavaScript analysis of one file promises: how a finding is
    labelled and explained, which rules report on a line (every matching
    one, repeats included), how the findings are laid out, and when the
    analysis throws instead of returning. */
module JsProperties {
  import opened Text
  import opened Issues
  import opened Tiers
  import opened Collections
  import opened JsHeuristics
  import opened JsAnalyzer
  import KotlinAnalyzer
  import JsRules

  // ----- labels -----

  /** No match of the label regex starts at position `k`: neither an escaped
      star nor a negative lookahead opens there. */
  predicate NoStripAt(s: string, k: nat)
    requires k < |s|
  {
    !(s[k] == '\\' && k + 1 < |s| && s[k + 1] == '*') && !OccursAt(s, "(?!", k)
  }

  /** A text holding neither an escaped star nor the opening of a negative
      lookahead. */
  predicate Plain(t: string) {
    !Contains(t, "\\*") && !Contains(t, "(?!")
  }

  /** Nothing is removed from a stretch without an escaped star and without
      the start of a negative lookahead. */
  lemma {:induction false} StripKeeps(s: string, i: nat, j: nat)
    requires i <= j <= |s|
    requires forall k | i <= k < j :: NoStripAt(s, k)
    ensures StripFrom(s, i) == s[i..j] + StripFrom(s, j)
    decreases j - i
  {
    if i < j {
      assert NoStripAt(s, i);
      assert LookaheadEnd(s, i).None?;
      StripKeeps(s, i + 1, j);
      assert s[i..j] == [s[i]] + s[i + 1..j];
      AppendAssoc([s[i]], s[i + 1..j], StripFrom(s, j));
    }
  }

  /** A plain text followed by a backslash or an opening parenthesis holds
      no match start: a match cannot begin inside it and run on past it. */
  lemma PlainPrefix(s: string, pre: string)
    requires StartsWith(s, pre) && |pre| < |s| && (s[|pre|] == '\\' || s[|pre|] == '(')
    requires Plain(pre)
    ensures forall k | 0 <= k < |pre| :: NoStripAt(s, k)
  {
    forall k | 0 <= k < |pre| ensures NoStripAt(s, k) {
      assert s[k] == pre[k];
      if s[k] == '\\' && k + 1 < |s| && s[k + 1] == '*' {
        assert k + 1 < |pre| && pre[k + 1] == '*';
        assert OccursAt(pre, "\\*", k);
      }
      if OccursAt(s, "(?!", k) {
        assert s[k..k + 3] == "(?!";
        if k + 3 <= |pre| {
          assert pre[k..k + 3] == s[k..k + 3];
          assert OccursAt(pre, "(?!", k);
        }
      }
    }
  }

  /** A plain text that ends the string holds no match start. */
  lemma PlainSuffix(s: string, off: nat, post: string)
    requires off <= |s| && s[off..] == post && Plain(post)
    ensures forall k | off <= k < |s| :: NoStripAt(s, k)
  {
    forall k | off <= k < |s| ensures NoStripAt(s, k) {
      assert s[k] == post[k - off];
      if s[k] == '\\' && k + 1 < |s| && s[k + 1] == '*' {
        assert post[k - off + 1] == '*';
        assert OccursAt(post, "\\*", k - off);
      }
      if OccursAt(s, "(?!", k) {
        assert post[k - off..k - off + 3] == s[k..k + 3];
        assert OccursAt(post, "(?!", k - off);
      }
    }
  }

  /** A pattern with no escaped star and no negative lookahead is its own
      label. */
  lemma StripLabelPlain(pattern: string)
    requires Plain(pattern)
    ensures StripLabel(pattern) == pattern
  {
    PlainSuffix(pattern, 0, pattern);
    StripKeeps(pattern, 0, |pattern|);
    assert pattern[0..|pattern|] == pattern;
  }

  /** An escaped star between plain texts is removed and nothing else is. */
  lemma StripEscapedStar(pre: string, post: string)
    requires Plain(pre) && Plain(post)
    ensures StripLabel(pre + "\\*" + post) == pre + post
  {
    var s := pre + "\\*" + post;
    var n := |pre|;
    assert s[..n] == pre && s[n] == '\\' && s[n + 1] == '*';
    assert s[n + 2..] == post;
    PlainPrefix(s, pre);
    StripKeeps(s, 0, n);
    PlainSuffix(s, n + 2, post);
    StripKeeps(s, n + 2, |s|);
    assert s[0..n] == pre && s[n + 2..|s|] == post;
  }

  /** When nothing is removed before `n` nor from `e` on, and the label
      skips from `n` straight to `e`, the label is the text around them. */
  lemma StripAround(s: string, n: nat, e: nat)
    requires n < e <= |s|
    requires forall k | 0 <= k < n :: NoStripAt(s, k)
    requires forall k | e <= k < |s| :: NoStripAt(s, k)
    requires StripFrom(s, n) == StripFrom(s, e)
    ensures StripLabel(s) == s[..n] + s[e..]
  {
    StripKeeps(s, 0, n);
    StripKeeps(s, e, |s|);
    assert s[0..n] == s[..n] && s[e..|s|] == s[e..];
  }

  /** A lookahead group that opens at `n` ends after the `)` at `c` when the
      group stays on one line and no `)` comes later in the string. */
  lemma LookaheadGroupEnd(s: string, n: nat, c: nat)
    requires OccursAt(s, "(?!", n) && n + 3 <= c < |s| && s[c] == ')'
    requires forall k | n + 3 <= k < c :: !IsLineTerminator(s[k])
    requires forall k | c < k < |s| :: s[k] != ')'
    ensures LookaheadEnd(s, n) == Some(c + 1)
  {
    var e := LineEnd(s, n + 3);
    assert c < e;
    match LastClose(s, n + 3, e)
    case None =>
      assert false;
    case Some(k) =>
      assert k == c;
  }

  /** A negative lookahead group between plain texts is removed whole,
      through its `)`, whatever it holds (escaped stars, nested groups, other
      `)`), as long as it stays on one line and no `)` follows it. */
  lemma StripLookahead(pre: string, inner: string, post: string)
    requires Plain(pre) && Plain(post)
    requires forall k | 0 <= k < |inner| :: !IsLineTerminator(inner[k])
    requires forall k | 0 <= k < |post| :: post[k] != ')'
    ensures StripLabel(pre + "(?!" + inner + ")" + post) == pre + post
  {
    var s := pre + "(?!" + inner + ")" + post;
    var n := |pre|;
    var c := n + 3 + |inner|;
    assert s[..n] == pre && s[n] == '(';
    assert s[n..n + 3] == "(?!";
    assert s[c] == ')' && s[c + 1..] == post;
    forall k | n + 3 <= k < c ensures !IsLineTerminator(s[k]) {
      assert s[k] == inner[k - n - 3];
    }
    forall k | c < k < |s| ensures s[k] != ')' {
      assert s[k] == post[k - c - 1];
    }
    LookaheadGroupEnd(s, n, c);
    PlainPrefix(s, pre);
    PlainSuffix(s, c + 1, post);
    StripAround(s, n, c + 1);
  }

  /** A text without `?` and without an escaped star is plain. */
  lemma PlainWithoutQuestionMark(t: string)
    requires forall k | 0 <= k < |t| :: t[k] != '?' && !(t[k] == '\\' && k + 1 < |t| && t[k + 1] == '*')
    ensures Plain(t)
  {
    forall k | 0 <= k <= |t| - 2
      ensures !OccursAt(t, "\\*", k)
    {
      assert t[k..k + 2][0] == t[k] && t[k..k + 2][1] == t[k + 1];
    }
    forall k | 0 <= k <= |t| - 3
      ensures !OccursAt(t, "(?!", k)
    {
      assert t[k..k + 3][1] == t[k + 1];
    }
  }

  /** The first high-tier pattern, `rm -rf(?! /data/adb/\*)\b` after the
      anchor, written here as its pieces: the escaped star inside its
      lookahead goes with the group, and the label is the anchor followed
      by `rm -rf\b`. */
  lemma RmRfLabel()
    ensures StripLabel(JsRules.Anchor + "rm -rf" + "(?!" + " /data/adb/\\*" + ")" + "\\b")
      == JsRules.Anchor + "rm -rf" + "\\b"
  {
    PlainWithoutQuestionMark(JsRules.Anchor + "rm -rf");
    PlainWithoutQuestionMark("\\b");
    StripLookahead(JsRules.Anchor + "rm -rf", " /data/adb/\\*", "\\b");
  }

  /** The common anchor of the script's patterns survives into the label. */
  lemma StripLabelKeepsAnchor(body: string)
    ensures StartsWith(StripLabel(JsRules.Anchor + body), JsRules.Anchor)
  {
    var s := JsRules.Anchor + body;
    var n := |JsRules.Anchor|;
    forall k | 0 <= k < n
      ensures !(s[k] == '\\' && k + 1 < |s| && s[k + 1] == '*') && !OccursAt(s, "(?!", k)
    {
      assert s[k] == JsRules.Anchor[k];
      if k + 1 < n {
        assert s[k + 1] == JsRules.Anchor[k + 1];
      }
    }
    StripKeeps(s, 0, n);
    assert s[0..n] == JsRules.Anchor;
  }

  /** The script's only explanation key is not a label of an anchored
      pattern, so every anchored pattern gets the default of its severity. */
  lemma AnchoredGetsDefault(body: string, severity: Severity)
    ensures Explanation(JsRules.CommandExplanations, StripLabel(JsRules.Anchor + body), severity)
      == KotlinAnalyzer.DefaultExplanation(severity)
  {
    StripLabelKeepsAnchor(body);
    var command := StripLabel(JsRules.Anchor + body);
    assert command[..2] == "^(";
    assert "netstat"[..2] != "^(";
  }

  // ----- the rules that report on one line -----

  /** A rule reports on a line exactly when its pattern matches there. */
  lemma {:induction false} MatchIndicesMembers(test: (string, string) -> bool, line: string, rules: seq<Rule>,
                                               m: nat, k: nat)
    requires m <= |rules|
    ensures k in MatchIndices(test, line, rules, m) <==> k < m && test(rules[k].1, line)
  {
    if m > 0 {
      MatchIndicesMembers(test, line, rules, m - 1, k);
    }
  }

  /** The reporting rules are listed in evaluation order, each once. */
  lemma {:induction false} MatchIndicesIncreasing(test: (string, string) -> bool, line: string, rules: seq<Rule>, m: nat)
    requires m <= |rules|
    ensures Increasing(MatchIndices(test, line, rules, m))
  {
    if m > 0 {
      MatchIndicesIncreasing(test, line, rules, m - 1);
      var prev := MatchIndices(test, line, rules, m - 1);
      var ks := MatchIndices(test, line, rules, m);
      if test(rules[m - 1].1, line) {
        forall a, b | 0 <= a < b < |ks| ensures ks[a] < ks[b] {
          if b < |prev| {
            assert ks[a] == prev[a] && ks[b] == prev[b];
          } else {
            assert ks[a] == prev[a] && ks[b] == m - 1;
          }
        }
      }
    }
  }

  /** The indices of the first `m` rules whose pattern matches. */
  function MatchingRules(test: (string, string) -> bool, line: string, rules: seq<Rule>, m: nat): set<nat>
    requires m <= |rules|
  {
    set k | 0 <= k < m && test(rules[k].1, line)
  }

  /** As many rules report as there are matching rules. */
  lemma {:induction false} MatchCount(test: (string, string) -> bool, line: string, rules: seq<Rule>, m: nat)
    requires m <= |rules|
    ensures |MatchIndices(test, line, rules, m)| == |MatchingRules(test, line, rules, m)|
  {
    if m == 0 {
      assert MatchingRules(test, line, rules, 0) == {};
    } else {
      MatchCount(test, line, rules, m - 1);
      var prev := MatchingRules(test, line, rules, m - 1);
      if test(rules[m - 1].1, line) {
        assert MatchingRules(test, line, rules, m) == prev + {m - 1};
        assert m - 1 !in prev;
      } else {
        assert MatchingRules(test, line, rules, m) == prev;
      }
    }
  }

  // ----- the findings of one line -----

  /** Every finding of a line carries its 1-based line number and its text. */
  lemma LineFindingsPlace(test: (string, string) -> bool, table: map<string, string>, rules: seq<Rule>,
                          index: nat, line: string)
    ensures var issues := LineIssues(test, table, rules, index, line);
      forall i | 0 <= i < |issues| :: issues[i].line == index + 1 && issues[i].lineContent == line
  {
    var issues := LineIssues(test, table, rules, index, line);
    if !KotlinAnalyzer.Skipped(line) {
      var report := Reporter(table, index, line);
      var ks := MatchIndices(test, line, rules, |rules|);
      forall i | 0 <= i < |issues| ensures issues[i].line == index + 1 && issues[i].lineContent == line {
        IssuesAtElements(report, rules, ks, i);
      }
    }
  }

  /** A blank or comment line has no findings; on any other line every
      finding is the report of a rule whose pattern matches. */
  lemma LineFindingsMatch(test: (string, string) -> bool, table: map<string, string>, rules: seq<Rule>,
                          index: nat, line: string)
    ensures KotlinAnalyzer.Skipped(line) ==> LineIssues(test, table, rules, index, line) == []
    ensures var issues := LineIssues(test, table, rules, index, line);
      forall i | 0 <= i < |issues| :: exists k | 0 <= k < |rules| ::
        test(rules[k].1, line) && issues[i] == MakeIssue(table, index, line, rules[k])
  {
    var issues := LineIssues(test, table, rules, index, line);
    if !KotlinAnalyzer.Skipped(line) {
      var report := Reporter(table, index, line);
      var ks := MatchIndices(test, line, rules, |rules|);
      forall i | 0 <= i < |issues| ensures exists k | 0 <= k < |rules| ::
        test(rules[k].1, line) && issues[i] == MakeIssue(table, index, line, rules[k])
      {
        IssuesAtElements(report, rules, ks, i);
        MatchIndicesMembers(test, line, rules, |rules|, ks[i]);
      }
    }
  }

  /** On a line that is examined, every matching rule is reported. */
  lemma LineFindingsComplete(test: (string, string) -> bool, table: map<string, string>, rules: seq<Rule>,
                             index: nat, line: string, k: nat)
    requires !KotlinAnalyzer.Skipped(line) && k < |rules| && test(rules[k].1, line)
    ensures MakeIssue(table, index, line, rules[k]) in LineIssues(test, table, rules, index, line)
  {
    var ks := MatchIndices(test, line, rules, |rules|);
    MatchIndicesMembers(test, line, rules, |rules|, k);
    var a :| 0 <= a < |ks| && ks[a] == k;
    IssuesAtElements(Reporter(table, index, line), rules, ks, a);
  }

  /** On a line that is examined there are exactly as many findings as
      matching rules. */
  lemma LineFindingsCount(test: (string, string) -> bool, table: map<string, string>, rules: seq<Rule>,
                          index: nat, line: string)
    requires !KotlinAnalyzer.Skipped(line)
    ensures |LineIssues(test, table, rules, index, line)| == |MatchingRules(test, line, rules, |rules|)|
  {
    MatchCount(test, line, rules, |rules|);
  }

  /** Findings are not merged: a rule listed twice whose pattern matches is
      reported twice, at two positions, earlier listing first. */
  lemma RepeatedRuleReportedTwice(test: (string, string) -> bool, table: map<string, string>, rules: seq<Rule>,
                                  index: nat, line: string, k1: nat, k2: nat)
    requires !KotlinAnalyzer.Skipped(line)
    requires k1 < k2 < |rules| && rules[k1] == rules[k2] && test(rules[k1].1, line)
    ensures var issues := LineIssues(test, table, rules, index, line);
      exists a, b | 0 <= a < b < |issues| ::
        issues[a] == issues[b] == MakeIssue(table, index, line, rules[k1])
  {
    var ks := MatchIndices(test, line, rules, |rules|);
    RepeatedMatchPositions(test, line, rules, k1, k2);
    var a, b :| 0 <= a < b < |ks| && ks[a] == k1 && ks[b] == k2;
    var report := Reporter(table, index, line);
    var issues := LineIssues(test, table, rules, index, line);
    assert issues == IssuesAt(report, rules, ks);
    IssuesAtRepeated(report, rules, ks, a, b);
    assert issues[a] == issues[b] == MakeIssue(table, index, line, rules[k1]);
  }

  /** Two matching rules are both selected, the earlier one first. */
  lemma RepeatedMatchPositions(test: (string, string) -> bool, line: string, rules: seq<Rule>, k1: nat, k2: nat)
    requires k1 < k2 < |rules| && test(rules[k1].1, line) && test(rules[k2].1, line)
    ensures var ks := MatchIndices(test, line, rules, |rules|);
      exists a, b | 0 <= a < b < |ks| :: ks[a] == k1 && ks[b] == k2
  {
    var ks := MatchIndices(test, line, rules, |rules|);
    MatchIndicesMembers(test, line, rules, |rules|, k1);
    MatchIndicesMembers(test, line, rules, |rules|, k2);
    MatchIndicesIncreasing(test, line, rules, |rules|);
    var a :| 0 <= a < |ks| && ks[a] == k1;
    var b :| 0 <= b < |ks| && ks[b] == k2;
    assert a < b;
  }

  /** With the rules visited from the most to the least severe, the
      findings of a line are ordered that way too. */
  lemma LineFindingsRankSorted(test: (string, string) -> bool, table: map<string, string>, rules: seq<Rule>,
                               index: nat, line: string)
    requires forall a, b | 0 <= a < b < |rules| :: Rank(rules[a].0) <= Rank(rules[b].0)
    ensures var issues := LineIssues(test, table, rules, index, line);
      forall a, b | 0 <= a < b < |issues| :: Rank(issues[a].severity) <= Rank(issues[b].severity)
  {
    var issues := LineIssues(test, table, rules, index, line);
    if !KotlinAnalyzer.Skipped(line) {
      var report := Reporter(table, index, line);
      var ks := MatchIndices(test, line, rules, |rules|);
      MatchIndicesIncreasing(test, line, rules, |rules|);
      forall a, b | 0 <= a < b < |issues| ensures Rank(issues[a].severity) <= Rank(issues[b].severity) {
        IssuesAtElements(report, rules, ks, a);
        IssuesAtElements(report, rules, ks, b);
      }
    }
  }

  /** Every pattern of every tier starts with the common anchor. */
  predicate AllAnchored(tiers: seq<Tier>) {
    forall t, i | 0 <= t < |tiers| && 0 <= i < |tiers[t].patterns| :: StartsWith(tiers[t].patterns[i], JsRules.Anchor)
  }

  /** Every rule drawn from anchored tiers has an anchored pattern. */
  lemma RuleAnchored(tiers: seq<Tier>, k: nat)
    requires AllAnchored(tiers) && k < |Rules(tiers)|
    ensures StartsWith(Rules(tiers)[k].1, JsRules.Anchor)
  {
    RulesProvenance(tiers, |tiers|);
    assert RulesUpTo(tiers, |tiers|) == Rules(tiers);
    assert FromTierBefore(Rules(tiers)[k], tiers, |tiers|);
  }

  /** The finding for an anchored pattern, explained from the script's
      table, is labelled by a text that begins with the anchor and carries
      the default explanation of its severity. */
  lemma AnchoredFinding(index: nat, line: string, rule: Rule)
    requires StartsWith(rule.1, JsRules.Anchor)
    ensures var issue := MakeIssue(JsRules.CommandExplanations, index, line, rule);
      StartsWith(issue.command, JsRules.Anchor)
      && issue.explanation == KotlinAnalyzer.DefaultExplanation(issue.severity)
  {
    var body := rule.1[|JsRules.Anchor|..];
    assert rule.1 == JsRules.Anchor + body;
    StripLabelKeepsAnchor(body);
    AnchoredGetsDefault(body, rule.0);
  }

  /** With the script's explanation table and anchored patterns, every
      finding is labelled by a text that begins with the anchor and carries
      the default explanation of its severity. */
  lemma LineFindingsExplainedByDefault(test: (string, string) -> bool, tiers: seq<Tier>, index: nat, line: string)
    requires AllAnchored(tiers)
    ensures var issues := LineIssues(test, JsRules.CommandExplanations, Rules(tiers), index, line);
      forall i | 0 <= i < |issues| ::
        StartsWith(issues[i].command, JsRules.Anchor)
        && issues[i].explanation == KotlinAnalyzer.DefaultExplanation(issues[i].severity)
  {
    var table := JsRules.CommandExplanations;
    var rules := Rules(tiers);
    var issues := LineIssues(test, table, rules, index, line);
    LineFindingsMatch(test, table, rules, index, line);
    forall i | 0 <= i < |issues|
      ensures StartsWith(issues[i].command, JsRules.Anchor)
      ensures issues[i].explanation == KotlinAnalyzer.DefaultExplanation(issues[i].severity)
    {
      var k :| 0 <= k < |rules| && test(rules[k].1, line) && issues[i] == MakeIssue(table, index, line, rules[k]);
      RuleAnchored(tiers, k);
      AnchoredFinding(index, line, rules[k]);
    }
  }

  /** The script's rule tiers are anchored. */
  lemma ScriptTiersAnchored()
    ensures AllAnchored(JsRules.DangerousCommands)
  {
    forall bodies: seq<string>, i | 0 <= i < |bodies|
      ensures StartsWith(JsRules.Anchored(bodies)[i], JsRules.Anchor)
    {
      assert JsRules.Anchored(bodies)[i][..|JsRules.Anchor|] == JsRules.Anchor;
    }
  }

  /** With the script's own tables, no finding gets a table explanation:
      each carries the default text of its severity. */
  lemma ScriptFindingsExplainedByDefault(test: (string, string) -> bool, index: nat, line: string)
    ensures var issues := LineIssues(test, JsRules.CommandExplanations, Rules(JsRules.DangerousCommands), index, line);
      forall i | 0 <= i < |issues| :: issues[i].explanation == KotlinAnalyzer.DefaultExplanation(issues[i].severity)
  {
    ScriptTiersAnchored();
    LineFindingsExplainedByDefault(test, JsRules.DangerousCommands, index, line);
  }

  // ----- the findings of all lines -----

  /** Every per-line finding names a line of the file by its 1-based number
      and carries that line's text, and the findings come line by line. */
  lemma {:induction false} AllLineFindings(test: (string, string) -> bool, table: map<string, string>,
                                           rules: seq<Rule>, lines: seq<string>)
    ensures OnTheirLines(AllLineIssues(test, table, rules, lines), lines)
    ensures InLineOrder(AllLineIssues(test, table, rules, lines))
  {
    if |lines| > 0 {
      var n := |lines| - 1;
      AllLineFindings(test, table, rules, lines[..n]);
      LineFindingsPlace(test, table, rules, n, lines[n]);
      AppendLine(AllLineIssues(test, table, rules, lines[..n]), LineIssues(test, table, rules, n, lines[n]), lines);
    }
  }

  // ----- the analysis of a file -----

  /** The analysis throws exactly when the text holds no encryption marker
      and the renamed-variable check throws, and the exception is the
      reference to the undeclared variable. */
  lemma AnalyzeThrows(test: (string, string) -> bool, tiers: seq<Tier>, table: map<string, string>,
                      fileName: string, content: string)
    ensures var o := Analyze(test, tiers, table, fileName, content);
      (o.Threw? <==> !KotlinAnalyzer.HasEncryptionMarker(content) && RenamedOutcome(content).Threw?)
      && (o.Threw? ==> o.error == ShortVarsError)
  {
    KotlinAnalyzer.EncryptedIffContentHasMarker(content);
  }

  /** A text of ten or more one-letter words separated by spaces and no
      encryption marker makes the analysis throw. */
  lemma ShortNamesMakeAnalysisThrow(test: (string, string) -> bool, tiers: seq<Tier>, table: map<string, string>,
                                    fileName: string, content: string)
    requires SpacedLetters(content) && |content| >= 19 && !KotlinAnalyzer.HasEncryptionMarker(content)
    ensures Analyze(test, tiers, table, fileName, content) == Threw(ShortVarsError)
  {
    ShortNamesThrow(content);
    AnalyzeThrows(test, tiers, table, fileName, content);
  }

  /** When the analysis returns, it keeps the file's name and text and sets
      no error; it is marked encrypted exactly when the text holds an
      encryption marker, and then reports nothing; otherwise the
      whole-content findings (line 0) come first and the per-line findings
      follow in line order, each on a line of the file and carrying that
      line's text. */
  lemma AnalyzeShape(test: (string, string) -> bool, tiers: seq<Tier>, table: map<string, string>,
                     fileName: string, content: string)
    requires Analyze(test, tiers, table, fileName, content).Returned?
    ensures var r := Analyze(test, tiers, table, fileName, content).value;
      r.fileName == fileName && r.content == content && r.error == None
      && (r.encrypted <==> KotlinAnalyzer.HasEncryptionMarker(content))
      && ShortCircuitIsEmpty(r)
      && InLineOrder(r.issues)
      && (!r.encrypted ==> var h := HeuristicOutcome(content).value;
            |h| <= |r.issues|
            && (forall i | 0 <= i < |r.issues| :: r.issues[i].line == 0 <==> i < |h|)
            && OnTheirLines(r.issues[|h|..], Lines(content)))
  {
    KotlinAnalyzer.EncryptedIffContentHasMarker(content);
    var r := Analyze(test, tiers, table, fileName, content).value;
    if !r.encrypted {
      var h := HeuristicOutcome(content).value;
      var rest := AllLineIssues(test, table, Rules(tiers), Lines(content));
      AllLineFindings(test, table, Rules(tiers), Lines(content));
      HeuristicsFirst(h, rest, Lines(content));
      assert r.issues == h + rest;
      assert r.issues[|h|..] == rest;
    }
  }

  /** On a text with an encryption marker the script and the app return the
      same result. */
  lemma EncryptedAgreesWithApp(test: (string, string) -> bool, tiers: seq<Tier>, table: map<string, string>,
                               engine: KotlinAnalyzer.Engine, appTiers: seq<Tier>, appTable: seq<(string, string)>,
                               fileName: string, content: string)
    requires KotlinAnalyzer.HasEncryptionMarker(content)
    ensures Analyze(test, tiers, table, fileName, content)
      == Returned(KotlinAnalyzer.Analyze(engine, appTiers, appTable, fileName, content))
  {
    KotlinAnalyzer.EncryptedIffContentHasMarker(content);
  }
}
