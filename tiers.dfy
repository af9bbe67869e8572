/** A tiered rule table read in evaluation order: tier by tier, and within a
    tier pattern by pattern. */
module Tiers {
  import opened Issues

  /** A pattern together with the severity of the tier it belongs to. */
  type Rule = (Severity, string)

  function TierRules(t: Tier): (rs: seq<Rule>)
    ensures |rs| == |t.patterns|
    ensures forall i | 0 <= i < |rs| :: rs[i] == (t.severity, t.patterns[i])
  {
    seq(|t.patterns|, i requires 0 <= i < |t.patterns| => (t.severity, t.patterns[i]))
  }

  /** The rules of the first `n` tiers, in the order the analyzers visit
      them. */
  function RulesUpTo(tiers: seq<Tier>, n: nat): seq<Rule>
    requires n <= |tiers|
  {
    if n == 0 then [] else RulesUpTo(tiers, n - 1) + TierRules(tiers[n - 1])
  }

  /** The rules of all tiers. */
  function Rules(tiers: seq<Tier>): seq<Rule> {
    RulesUpTo(tiers, |tiers|)
  }

  /** The rule `r` belongs to one of the first `n` tiers, with that tier's
      severity. */
  predicate FromTierBefore(r: Rule, tiers: seq<Tier>, n: nat)
    requires n <= |tiers|
  {
    exists i | 0 <= i < n :: r.0 == tiers[i].severity && r.1 in tiers[i].patterns
  }

  /** Every rule of the first `n` tiers comes from one of them, with that
      tier's severity. */
  lemma {:induction false} RulesProvenance(tiers: seq<Tier>, n: nat)
    requires n <= |tiers|
    ensures forall k | 0 <= k < |RulesUpTo(tiers, n)| :: FromTierBefore(RulesUpTo(tiers, n)[k], tiers, n)
  {
    if n > 0 {
      RulesProvenance(tiers, n - 1);
      var prev := RulesUpTo(tiers, n - 1);
      var rs := RulesUpTo(tiers, n);
      forall k | 0 <= k < |rs| ensures FromTierBefore(rs[k], tiers, n) {
        if k < |prev| {
          assert rs[k] == prev[k] && FromTierBefore(prev[k], tiers, n - 1);
        } else {
          assert rs[k] == TierRules(tiers[n - 1])[k - |prev|];
          assert rs[k].1 == tiers[n - 1].patterns[k - |prev|];
        }
      }
    }
  }

  /** The rules of the first `n` tiers are the first rules of all tiers. */
  lemma {:induction false} RulesPrefixAt(tiers: seq<Tier>, n: nat, k: nat)
    requires n <= |tiers| && k < |RulesUpTo(tiers, n)|
    ensures k < |Rules(tiers)| && Rules(tiers)[k] == RulesUpTo(tiers, n)[k]
    decreases |tiers| - n
  {
    if n < |tiers| {
      RulesPrefixAt(tiers, n + 1, k);
    }
  }

  /** The `i`-th pattern of tier `ti` is rule number `|RulesUpTo(tiers, ti)| + i`. */
  lemma TierRuleAt(tiers: seq<Tier>, ti: nat, i: nat)
    requires ti < |tiers| && i < |tiers[ti].patterns|
    ensures |RulesUpTo(tiers, ti)| + i < |Rules(tiers)|
    ensures Rules(tiers)[|RulesUpTo(tiers, ti)| + i] == (tiers[ti].severity, tiers[ti].patterns[i])
  {
    RulesPrefixAt(tiers, ti + 1, |RulesUpTo(tiers, ti)| + i);
  }

  /** The rules of the first `n` tiers are no more than all the rules. */
  lemma {:induction false} RulesUpToLength(tiers: seq<Tier>, n: nat)
    requires n <= |tiers|
    ensures |RulesUpTo(tiers, n)| <= |Rules(tiers)|
    decreases |tiers| - n
  {
    if n < |tiers| {
      RulesUpToLength(tiers, n + 1);
    }
  }

  /** The tiers are listed from most to least severe. */
  predicate RankSorted(tiers: seq<Tier>) {
    forall i, j | 0 <= i < j < |tiers| :: Rank(tiers[i].severity) <= Rank(tiers[j].severity)
  }

  /** With the tiers sorted by rank, so are the rules of the first `n`. */
  lemma {:induction false} RulesUpToRankSorted(tiers: seq<Tier>, n: nat)
    requires n <= |tiers| && RankSorted(tiers)
    ensures forall a, b | 0 <= a < b < |RulesUpTo(tiers, n)| ::
      Rank(RulesUpTo(tiers, n)[a].0) <= Rank(RulesUpTo(tiers, n)[b].0)
  {
    if n > 0 {
      RulesUpToRankSorted(tiers, n - 1);
      RulesProvenance(tiers, n - 1);
      var last := tiers[n - 1];
      var prev := RulesUpTo(tiers, n - 1);
      var rs := RulesUpTo(tiers, n);
      forall a | 0 <= a < |prev| ensures Rank(prev[a].0) <= Rank(last.severity) {
        assert FromTierBefore(prev[a], tiers, n - 1);
      }
      forall a, b | 0 <= a < b < |rs| ensures Rank(rs[a].0) <= Rank(rs[b].0) {
        if b < |prev| {
          assert rs[a] == prev[a] && rs[b] == prev[b];
        } else if a < |prev| {
          assert rs[a] == prev[a] && rs[b].0 == last.severity;
        } else {
          assert rs[a].0 == last.severity && rs[b].0 == last.severity;
        }
      }
    }
  }

  /** With the tiers sorted by rank, the rules are visited from the most to
      the least severe. */
  lemma RulesRankSorted(tiers: seq<Tier>)
    requires RankSorted(tiers)
    ensures forall a, b | 0 <= a < b < |Rules(tiers)| :: Rank(Rules(tiers)[a].0) <= Rank(Rules(tiers)[b].0)
  {
    RulesUpToRankSorted(tiers, |tiers|);
  }

  // ----- findings selected by rule index -----

  /** The findings for the rules at indices `ks`, in that order. */
  function IssuesAt(report: Rule -> SecurityIssue, rules: seq<Rule>, ks: seq<nat>): (issues: seq<SecurityIssue>)
    requires forall a | 0 <= a < |ks| :: ks[a] < |rules|
    ensures |issues| == |ks|
  {
    if |ks| == 0 then []
    else IssuesAt(report, rules, ks[..|ks| - 1]) + [report(rules[ks[|ks| - 1]])]
  }

  lemma IssuesAtSnoc(report: Rule -> SecurityIssue, rules: seq<Rule>, ks: seq<nat>, k: nat)
    requires forall a | 0 <= a < |ks| :: ks[a] < |rules|
    requires k < |rules|
    ensures IssuesAt(report, rules, ks + [k]) == IssuesAt(report, rules, ks) + [report(rules[k])]
  {
    assert (ks + [k])[..|ks|] == ks;
  }

  /** The `j`-th finding is the report of the `j`-th selected rule. */
  lemma {:induction false} IssuesAtElements(report: Rule -> SecurityIssue, rules: seq<Rule>, ks: seq<nat>, j: nat)
    requires forall a | 0 <= a < |ks| :: ks[a] < |rules|
    requires j < |ks|
    ensures IssuesAt(report, rules, ks)[j] == report(rules[ks[j]])
    decreases |ks|
  {
    if j < |ks| - 1 {
      IssuesAtElements(report, rules, ks[..|ks| - 1], j);
    }
  }

  /** The same rule selected at two positions gives the same finding at
      both. */
  lemma IssuesAtRepeated(report: Rule -> SecurityIssue, rules: seq<Rule>, ks: seq<nat>, a: nat, b: nat)
    requires forall i | 0 <= i < |ks| :: ks[i] < |rules|
    requires a < b < |ks| && rules[ks[a]] == rules[ks[b]]
    ensures var issues := IssuesAt(report, rules, ks);
      issues[a] == issues[b] == report(rules[ks[a]])
  {
    IssuesAtElements(report, rules, ks, a);
    IssuesAtElements(report, rules, ks, b);
  }
}
