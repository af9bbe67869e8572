/** What the analysis of one file promises: which rules report on a line, in
    which order, how the findings of all lines are laid out, and how the
    explanation of a finding is looked up. */
module KotlinProperties {
  import opened Text
  import opened Issues
  import opened OrderedTable
  import opened Tiers
  import opened Collections
  import opened KotlinAnalyzer
  import KotlinRules

  // ----- the rules that report on one line -----

  /** A rule reports on a line exactly when its pattern matches there and no
      earlier rule has the same pattern. */
  lemma {:induction false} HitIndicesMembers(engine: Engine, line: string, rules: seq<Rule>, m: nat, k: nat)
    requires m <= |rules|
    ensures k in HitIndices(engine, line, rules, m)
      <==> k < m && engine.find(rules[k].1, line) && FirstOccurrence(rules, k)
  {
    if m > 0 {
      HitIndicesMembers(engine, line, rules, m - 1, k);
    }
  }

  /** The reporting rules are listed in evaluation order, each once. */
  lemma {:induction false} HitIndicesIncreasing(engine: Engine, line: string, rules: seq<Rule>, m: nat)
    requires m <= |rules|
    ensures Increasing(HitIndices(engine, line, rules, m))
  {
    if m > 0 {
      HitIndicesIncreasing(engine, line, rules, m - 1);
      var prev := HitIndices(engine, line, rules, m - 1);
      var ks := HitIndices(engine, line, rules, m);
      if engine.find(rules[m - 1].1, line) && FirstOccurrence(rules, m - 1) {
        forall a, b | 0 <= a < b < |ks| ensures ks[a] < ks[b] {
          assert ks[a] == prev[a];
          if b < |prev| {
            assert ks[b] == prev[b];
          }
        }
      }
    }
  }

  /** No two reporting rules share a pattern. */
  lemma HitPatternsDistinct(engine: Engine, line: string, rules: seq<Rule>, m: nat)
    requires m <= |rules|
    ensures var ks := HitIndices(engine, line, rules, m);
      forall a, b | 0 <= a < b < |ks| :: rules[ks[a]].1 != rules[ks[b]].1
  {
    var ks := HitIndices(engine, line, rules, m);
    HitIndicesIncreasing(engine, line, rules, m);
    forall a, b | 0 <= a < b < |ks| ensures rules[ks[a]].1 != rules[ks[b]].1 {
      HitIndicesMembers(engine, line, rules, m, ks[b]);
    }
  }

  /** The first rule, among the first `m`, whose pattern is `p`. */
  lemma {:induction false} FirstWithPattern(rules: seq<Rule>, m: nat, p: string) returns (k: nat)
    requires m <= |rules| && exists j | 0 <= j < m :: rules[j].1 == p
    ensures k < m && rules[k].1 == p && FirstOccurrence(rules, k)
  {
    var j :| 0 <= j < m && rules[j].1 == p;
    if exists i | 0 <= i < j :: rules[i].1 == p {
      k := FirstWithPattern(rules, j, p);
    } else {
      k := j;
    }
  }

  /** Every pattern that matches on the line is reported by one rule. */
  lemma HitPatternsComplete(engine: Engine, line: string, rules: seq<Rule>, m: nat, p: string)
    requires m <= |rules|
    requires exists j | 0 <= j < m :: rules[j].1 == p && engine.find(p, line)
    ensures var ks := HitIndices(engine, line, rules, m);
      exists a | 0 <= a < |ks| :: rules[ks[a]].1 == p
  {
    var k := FirstWithPattern(rules, m, p);
    HitIndicesMembers(engine, line, rules, m, k);
  }

  /** As many rules report as there are distinct matching patterns. */
  lemma {:induction false} HitCount(engine: Engine, line: string, rules: seq<Rule>, m: nat)
    requires m <= |rules|
    ensures |HitIndices(engine, line, rules, m)| == |Detected(engine, line, rules, m)|
  {
    if m > 0 {
      HitCount(engine, line, rules, m - 1);
      ScanStep(engine, line, rules, m - 1);
      var p := rules[m - 1].1;
      var d := Detected(engine, line, rules, m - 1);
      if engine.find(p, line) {
        if FirstOccurrence(rules, m - 1) {
          assert p !in d;
          AddNew(d, p);
        } else {
          assert p in d;
          AddOld(d, p);
        }
      }
    }
  }

  lemma AddNew(d: set<string>, p: string)
    requires p !in d
    ensures |d + {p}| == |d| + 1
  {
  }

  lemma AddOld(d: set<string>, p: string)
    requires p in d
    ensures d + {p} == d
  {
  }

  // ----- the findings of one line -----

  /** Every finding of a line carries the line's 1-based number and its
      text. */
  lemma LineFindingsPlace(engine: Engine, table: seq<(string, string)>, rules: seq<Rule>, index: nat, line: string)
    ensures var issues := LineIssues(engine, table, rules, index, line);
      forall i | 0 <= i < |issues| :: issues[i].line == index + 1 && issues[i].lineContent == line
  {
    var issues := LineIssues(engine, table, rules, index, line);
    if !Skipped(line) {
      var report := Reporter(engine, table, index, line);
      var ks := HitIndices(engine, line, rules, |rules|);
      forall i | 0 <= i < |issues| ensures issues[i].line == index + 1 && issues[i].lineContent == line {
        IssuesAtElements(report, rules, ks, i);
      }
    }
  }

  /** Every finding of a line is the report of a rule whose pattern matches
      on it. */
  lemma LineFindingsMatch(engine: Engine, table: seq<(string, string)>, rules: seq<Rule>, index: nat, line: string)
    ensures var issues := LineIssues(engine, table, rules, index, line);
      forall i | 0 <= i < |issues| :: exists k | 0 <= k < |rules| ::
        engine.find(rules[k].1, line) && issues[i] == MakeIssue(engine, table, index, line, rules[k])
  {
    var issues := LineIssues(engine, table, rules, index, line);
    if !Skipped(line) {
      var report := Reporter(engine, table, index, line);
      var ks := HitIndices(engine, line, rules, |rules|);
      forall i | 0 <= i < |issues| ensures exists k | 0 <= k < |rules| ::
        engine.find(rules[k].1, line) && issues[i] == MakeIssue(engine, table, index, line, rules[k])
      {
        IssuesAtElements(report, rules, ks, i);
        HitIndicesMembers(engine, line, rules, |rules|, ks[i]);
        assert issues[i] == report(rules[ks[i]]);
      }
    }
  }

  /** A blank or comment line reports nothing; any other line reports once
      per distinct matching pattern. */
  lemma LineFindingsCount(engine: Engine, table: seq<(string, string)>, rules: seq<Rule>, index: nat, line: string)
    ensures Skipped(line) ==> LineIssues(engine, table, rules, index, line) == []
    ensures !Skipped(line) ==>
      |LineIssues(engine, table, rules, index, line)| == |Detected(engine, line, rules, |rules|)|
  {
    HitCount(engine, line, rules, |rules|);
  }

  /** On a line that is examined, the first rule of every matching pattern
      is reported. */
  lemma LineFindingsComplete(engine: Engine, table: seq<(string, string)>, rules: seq<Rule>, index: nat, line: string, k: nat)
    requires !Skipped(line) && k < |rules|
    requires engine.find(rules[k].1, line) && FirstOccurrence(rules, k)
    ensures MakeIssue(engine, table, index, line, rules[k]) in LineIssues(engine, table, rules, index, line)
  {
    var report := Reporter(engine, table, index, line);
    var ks := HitIndices(engine, line, rules, |rules|);
    HitIndicesMembers(engine, line, rules, |rules|, k);
    var a :| 0 <= a < |ks| && ks[a] == k;
    IssuesAtElements(report, rules, ks, a);
    assert LineIssues(engine, table, rules, index, line)[a] == report(rules[k]);
  }

  /** With the rules visited from the most to the least severe, the
      findings of a line are ordered that way too. */
  lemma LineFindingsRankSorted(engine: Engine, table: seq<(string, string)>, rules: seq<Rule>, index: nat, line: string)
    requires forall a, b | 0 <= a < b < |rules| :: Rank(rules[a].0) <= Rank(rules[b].0)
    ensures var issues := LineIssues(engine, table, rules, index, line);
      forall a, b | 0 <= a < b < |issues| :: Rank(issues[a].severity) <= Rank(issues[b].severity)
  {
    var issues := LineIssues(engine, table, rules, index, line);
    if !Skipped(line) {
      var report := Reporter(engine, table, index, line);
      var ks := HitIndices(engine, line, rules, |rules|);
      HitIndicesIncreasing(engine, line, rules, |rules|);
      forall a, b | 0 <= a < b < |issues| ensures Rank(issues[a].severity) <= Rank(issues[b].severity) {
        IssuesAtElements(report, rules, ks, a);
        IssuesAtElements(report, rules, ks, b);
      }
    }
  }

  // ----- the findings of all lines -----

  /** Every per-line finding names a line of the file by its 1-based number
      and carries that line's text, and the findings come line by line. */
  lemma {:induction false} AllLineFindings(engine: Engine, table: seq<(string, string)>, rules: seq<Rule>, lines: seq<string>)
    ensures OnTheirLines(AllLineIssues(engine, table, rules, lines), lines)
    ensures InLineOrder(AllLineIssues(engine, table, rules, lines))
  {
    if |lines| > 0 {
      var n := |lines| - 1;
      AllLineFindings(engine, table, rules, lines[..n]);
      LineFindingsPlace(engine, table, rules, n, lines[n]);
      AppendLine(AllLineIssues(engine, table, rules, lines[..n]), LineIssues(engine, table, rules, n, lines[n]), lines);
    }
  }

  /** The analysis keeps the file's name and text and sets no error; it is
      marked encrypted exactly when the text holds an encryption marker, and
      then reports nothing; otherwise the whole-content findings (line 0)
      come first and the per-line findings follow in line order, each on a
      line of the file and carrying that line's text. */
  lemma AnalyzeShape(engine: Engine, tiers: seq<Tier>, table: seq<(string, string)>, fileName: string, content: string)
    ensures var r := Analyze(engine, tiers, table, fileName, content);
      r.fileName == fileName && r.content == content && r.error == None
      && (r.encrypted <==> HasEncryptionMarker(content))
      && ShortCircuitIsEmpty(r)
      && InLineOrder(r.issues)
      && (forall i | 0 <= i < |r.issues| :: r.issues[i].line == 0 <==> i < |HeuristicIssues(content)|)
      && (!r.encrypted ==>
            |HeuristicIssues(content)| <= |r.issues|
            && OnTheirLines(r.issues[|HeuristicIssues(content)|..], Lines(content)))
  {
    EncryptedIffContentHasMarker(content);
    var r := Analyze(engine, tiers, table, fileName, content);
    if !r.encrypted {
      var h := HeuristicIssues(content);
      var rest := AllLineIssues(engine, table, Rules(tiers), Lines(content));
      AllLineFindings(engine, table, Rules(tiers), Lines(content));
      HeuristicsFirst(h, rest, Lines(content));
      assert r.issues == h + rest;
      assert r.issues[|h|..] == rest;
    }
  }

  // ----- explanations -----

  /** With the table built by `mapOf(decls)`, a pattern's explanation is the
      last value declared for the key of the first declaration whose key
      occurs in the pattern, and the severity's default when none does. */
  lemma ExplanationFromDeclarations(decls: seq<(string, string)>, pattern: string, severity: Severity, i0: int)
    requires i0 == -1 || (0 <= i0 < |decls| && Contains(pattern, decls[i0].0))
    requires forall i | 0 <= i < |decls| && (i0 == -1 || i < i0) :: !Contains(pattern, decls[i].0)
    ensures i0 == -1 ==> Explanation(MapOf(decls), pattern, severity) == DefaultExplanation(severity)
    ensures i0 >= 0 ==>
      LastKeyIndex(decls, decls[i0].0) >= 0 && Explanation(MapOf(decls), pattern, severity) == decls[LastKeyIndex(decls, decls[i0].0)].1
  {
    FindContainedInDeclarationOrder(decls, pattern);
  }

  // ----- the app's own rule table -----

  /** The app lists its tiers from high to medium to low, so on every line
      its high findings come before its medium ones and those before its low
      ones. */
  lemma KotlinLineFindingsRankSorted(engine: Engine, table: seq<(string, string)>, index: nat, line: string)
    ensures var issues := LineIssues(engine, table, Rules(KotlinRules.DangerousCommands), index, line);
      forall a, b | 0 <= a < b < |issues| :: Rank(issues[a].severity) <= Rank(issues[b].severity)
  {
    assert RankSorted(KotlinRules.DangerousCommands);
    RulesRankSorted(KotlinRules.DangerousCommands);
    LineFindingsRankSorted(engine, table, Rules(KotlinRules.DangerousCommands), index, line);
  }
}
