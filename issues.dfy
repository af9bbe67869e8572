/** The result records the analyzer produces and its callers render. */
module Issues {

  datatype Option<T> = None | Some(value: T)

  /** Severity tiers, evaluated in this order against every line. */
  datatype Severity = HIGH | MEDIUM | LOW

  /** Position of a tier in the evaluation order. */
  function Rank(s: Severity): nat {
    match s
    case HIGH => 0
    case MEDIUM => 1
    case LOW => 2
  }

  /** One tier of a rule table: a severity and its patterns, in order. */
  datatype Tier = Tier(severity: Severity, patterns: seq<string>)

  /** One finding: line 0 for a whole-content heuristic, otherwise the
      1-based number of the line it was found on. */
  datatype SecurityIssue = SecurityIssue(
    line: nat,
    command: string,
    lineContent: string,
    severity: Severity,
    explanation: string)

  /** The analysis of one file. */
  datatype AnalysisResult = AnalysisResult(
    fileName: string,
    encrypted: bool,
    issues: seq<SecurityIssue>,
    content: string,
    error: Option<string>)

  /** The record the file-reading collaborator builds when a file cannot be
      read: every field but the name and the message keeps its default. */
  function ErrorResult(fileName: string, message: string): (r: AnalysisResult)
    ensures r.fileName == fileName && r.error == Some(message)
    ensures !r.encrypted && r.issues == [] && r.content == ""
    ensures ShortCircuitIsEmpty(r) && r.error.Some?
  {
    AnalysisResult(fileName, false, [], "", Some(message))
  }

  /** An encrypted or failed result carries no findings. */
  predicate ShortCircuitIsEmpty(r: AnalysisResult) {
    (r.encrypted || r.error.Some?) ==> r.issues == []
  }

  // ----- layout of a list of findings -----

  /** Every finding names a line of `lines` by its 1-based number and
      carries that line's text. */
  predicate OnTheirLines(issues: seq<SecurityIssue>, lines: seq<string>) {
    forall i | 0 <= i < |issues| :: 1 <= issues[i].line <= |lines| && issues[i].lineContent == lines[issues[i].line - 1]
  }

  /** The findings come in order of line number. */
  predicate InLineOrder(issues: seq<SecurityIssue>) {
    forall a, b | 0 <= a < b < |issues| :: issues[a].line <= issues[b].line
  }

  /** Appending the findings of the next line keeps both properties. */
  lemma AppendLine(done: seq<SecurityIssue>, found: seq<SecurityIssue>, lines: seq<string>)
    requires |lines| > 0
    requires OnTheirLines(done, lines[..|lines| - 1]) && InLineOrder(done)
    requires forall i | 0 <= i < |found| :: found[i].line == |lines| && found[i].lineContent == lines[|lines| - 1]
    ensures OnTheirLines(done + found, lines) && InLineOrder(done + found)
  {
    var n := |lines| - 1;
    var issues := done + found;
    forall i | 0 <= i < |issues|
      ensures 1 <= issues[i].line <= |lines| && issues[i].lineContent == lines[issues[i].line - 1]
    {
      if i < |done| {
        assert issues[i] == done[i];
        assert lines[..n][done[i].line - 1] == lines[done[i].line - 1];
      } else {
        assert issues[i] == found[i - |done|];
      }
    }
    forall a, b | 0 <= a < b < |issues| ensures issues[a].line <= issues[b].line {
      if b < |done| {
        assert issues[a] == done[a] && issues[b] == done[b];
      } else if a < |done| {
        assert issues[a] == done[a] && issues[b] == found[b - |done|];
      } else {
        assert issues[a] == found[a - |done|] && issues[b] == found[b - |done|];
      }
    }
  }

  /** Line-0 findings followed by findings on numbered lines in line order
      are in line order, and the line-0 ones are exactly the first. */
  lemma HeuristicsFirst(h: seq<SecurityIssue>, rest: seq<SecurityIssue>, lines: seq<string>)
    requires forall i | 0 <= i < |h| :: h[i].line == 0
    requires OnTheirLines(rest, lines) && InLineOrder(rest)
    ensures InLineOrder(h + rest)
    ensures forall i | 0 <= i < |h + rest| :: (h + rest)[i].line == 0 <==> i < |h|
  {
    var issues := h + rest;
    forall i | 0 <= i < |issues| ensures issues[i].line == 0 <==> i < |h| {
      if i < |h| { assert issues[i] == h[i]; } else { assert issues[i] == rest[i - |h|]; }
    }
    forall a, b | 0 <= a < b < |issues| ensures issues[a].line <= issues[b].line {
      if b < |h| {
        assert issues[a] == h[a] && issues[b] == h[b];
      } else if a < |h| {
        assert issues[a] == h[a];
      } else {
        assert issues[a] == rest[a - |h|] && issues[b] == rest[b - |h|];
      }
    }
  }
}
