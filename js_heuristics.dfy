/** The whole-content heuristics of the JavaScript analyzer that differ from
    the Kotlin ones: the identifier statistics of `hasRenamedVariables`, the
    escape heuristic with its distinct-line condition, and the Base58 token
    sniffer. */
module JsHeuristics {
  import opened Text
  import opened Issues
  import Heuristics

  /** The completion of a JavaScript call: a value, or an exception. */
  datatype Outcome<T> = Returned(value: T) | Threw(error: string)

  // ----- the identifier regex /\b([a-zA-Z_$][0-9a-zA-Z_$]*)\b/g -----

  /** `\w`, the class word boundaries look at (`$` is not in it). */
  predicate IsWordChar(c: char) {
    'a' <= c <= 'z' || 'A' <= c <= 'Z' || '0' <= c <= '9' || c == '_'
  }

  predicate IsIdentStart(c: char) {
    'a' <= c <= 'z' || 'A' <= c <= 'Z' || c == '_' || c == '$'
  }

  predicate IsIdentChar(c: char) {
    IsIdentStart(c) || '0' <= c <= '9'
  }

  /** `\b` holds at position `i`: exactly one of the characters around it is
      a word character. */
  predicate Boundary(s: string, i: int)
    requires 0 <= i <= |s|
  {
    (i > 0 && IsWordChar(s[i - 1])) != (i < |s| && IsWordChar(s[i]))
  }

  /** The end of the run of identifier characters that starts at `i`. */
  function RunEnd(s: string, i: nat): (e: nat)
    requires i <= |s|
    ensures i <= e <= |s|
    ensures forall j | i <= j < e :: IsIdentChar(s[j])
    ensures e < |s| ==> !IsIdentChar(s[e])
    decreases |s| - i
  {
    if i < |s| && IsIdentChar(s[i]) then RunEnd(s, i + 1) else i
  }

  /** The last position in `lo..hi` with a word boundary: where the greedy
      `[0-9a-zA-Z_$]*` settles once it backtracks to the closing `\b`. */
  function LastBoundary(s: string, lo: nat, hi: int): (j: Option<nat>)
    requires lo <= |s| && hi <= |s|
    ensures j.Some? ==>
      lo <= j.value <= hi && Boundary(s, j.value) && forall k | j.value < k <= hi :: !Boundary(s, k)
    ensures j.None? ==> forall k | lo <= k <= hi :: !Boundary(s, k)
    decreases hi + 1 - lo
  {
    if hi < lo then None
    else if Boundary(s, hi) then Some(hi)
    else LastBoundary(s, lo, hi - 1)
  }

  /** The end of the match that starts at `i`, if one does. */
  function MatchAt(s: string, i: nat): (j: Option<nat>)
    ensures j.Some? ==> i < j.value <= |s|
  {
    if i < |s| && Boundary(s, i) && IsIdentStart(s[i]) then LastBoundary(s, i + 1, RunEnd(s, i + 1))
    else None
  }

  /** `exec` with `lastIndex == from`: the leftmost match at or after `from`,
      as its start and end. */
  function NextMatch(s: string, from: nat): (m: Option<(nat, nat)>)
    ensures m.Some? ==> from <= m.value.0 < m.value.1 <= |s| && MatchAt(s, m.value.0) == Some(m.value.1)
    ensures m.Some? ==> forall i | from <= i < m.value.0 :: MatchAt(s, i).None?
    ensures m.None? ==> forall i | from <= i :: MatchAt(s, i).None?
    decreases |s| - from
  {
    if from >= |s| then None
    else match MatchAt(s, from)
      case Some(j) => Some((from, j))
      case None => NextMatch(s, from + 1)
  }

  /** The texts of the successive matches from `from` on. */
  function Identifiers(s: string, from: nat): seq<string>
    decreases |s| - from
  {
    match NextMatch(s, from)
    case None => []
    case Some(m) => [s[m.0..m.1]] + Identifiers(s, m.1)
  }

  /** A JavaScript identifier made of ASCII letters, digits, `_` and `$`. */
  predicate IsIdentifier(w: string) {
    |w| > 0 && IsIdentStart(w[0]) && forall i | 1 <= i < |w| :: IsIdentChar(w[i])
  }

  /** Every text the loop collects is an identifier that occurs in the
      content. */
  lemma {:induction false} IdentifiersAreIdentifiers(s: string, from: nat)
    ensures forall w | w in Identifiers(s, from) :: IsIdentifier(w) && Contains(s, w)
    decreases |s| - from
  {
    match NextMatch(s, from)
    case None =>
    case Some(m) =>
      var w := s[m.0..m.1];
      assert w[0] == s[m.0];
      forall i | 1 <= i < |w| ensures IsIdentChar(w[i]) {
        assert w[i] == s[m.0 + i];
      }
      assert OccursAt(s, w, m.0);
      IdentifiersAreIdentifiers(s, m.1);
  }

  /** The exception reading `shortVars` raises: the script declares it nowhere,
      and no other script on the page is assumed to define it. */
  const ShortVarsError: string := "ReferenceError: shortVars is not defined"

  /** What `hasRenamedVariables` does: fewer than 10 identifiers give
      `false`; otherwise an average length of 2.5 or more gives `false`, and
      a smaller one goes on to read the undeclared `shortVars`. */
  function RenamedOutcome(content: string): Outcome<bool> {
    var ids := Identifiers(content, 0);
    if |ids| < 10 then Returned(false)
    else if 2 * SumLengths(ids) < 5 * |ids| then Threw(ShortVarsError)
    else Returned(false)
  }

  /** `hasRenamedVariables` never reports: it returns `false` or throws, and
      it throws exactly when there are at least ten identifiers averaging
      under 2.5 characters. */
  lemma RenamedNeverReports(content: string)
    ensures RenamedOutcome(content) != Returned(true)
    ensures RenamedOutcome(content).Threw? <==>
      |Identifiers(content, 0)| >= 10 && 2 * SumLengths(Identifiers(content, 0)) < 5 * |Identifiers(content, 0)|
  {
  }

  /** One-letter names separated by single spaces. */
  predicate SpacedLetters(s: string) {
    |s| % 2 == 1 && forall i | 0 <= i < |s| :: if i % 2 == 0 then 'a' <= s[i] <= 'z' else s[i] == ' '
  }

  /** At an even position of such a text, the letter there is the next
      identifier, and the search resumes after the space that follows it. */
  lemma SpacedLetterStep(s: string, k: nat)
    requires SpacedLetters(s) && k % 2 == 0 && k < |s|
    ensures Identifiers(s, k) == [s[k..k + 1]] + Identifiers(s, k + 2)
    ensures |Identifiers(s, k)| == |Identifiers(s, k + 2)| + 1
    ensures SumLengths(Identifiers(s, k)) == SumLengths(Identifiers(s, k + 2)) + 1
  {
    assert Boundary(s, k);
    assert RunEnd(s, k + 1) == k + 1;
    assert Boundary(s, k + 1);
    assert MatchAt(s, k) == Some(k + 1);
    if k + 1 < |s| {
      assert MatchAt(s, k + 1) == None;
      assert NextMatch(s, k + 1) == NextMatch(s, k + 2);
    }
    assert Identifiers(s, k + 1) == Identifiers(s, k + 2);
    var ids := Identifiers(s, k);
    assert ids[1..] == Identifiers(s, k + 2);
  }

  /** From an even position of such a text, every letter is one
      identifier of length 1. */
  lemma {:induction false} SpacedLettersIdentifiers(s: string, k: nat)
    requires SpacedLetters(s) && k % 2 == 0 && k <= |s| + 1
    ensures |Identifiers(s, k)| == (|s| + 1 - k) / 2
    ensures SumLengths(Identifiers(s, k)) == |Identifiers(s, k)|
    decreases |s| - k
  {
    if k < |s| {
      SpacedLetterStep(s, k);
      assert (k + 2) % 2 == 0 && k + 2 <= |s| + 1;
      SpacedLettersIdentifiers(s, k + 2);
    } else {
      assert NextMatch(s, k) == None;
    }
  }

  /** Ten or more one-letter names separated by spaces make
      `hasRenamedVariables` throw. */
  lemma ShortNamesThrow(s: string)
    requires SpacedLetters(s) && |s| >= 19
    ensures RenamedOutcome(s) == Threw(ShortVarsError)
  {
    SpacedLettersIdentifiers(s, 0);
  }

  /** `hasRenamedVariables`: collect the identifiers with `exec` until it
      returns `null`, then test their number and average length. */
  method HasRenamedVariables(content: string) returns (outcome: Outcome<bool>)
    ensures outcome == RenamedOutcome(content)
  {
    var variables: seq<string> := [];
    var lastIndex := 0;
    var found := NextMatch(content, lastIndex);
    while found.Some?
      invariant found == NextMatch(content, lastIndex)
      invariant variables + Identifiers(content, lastIndex) == Identifiers(content, 0)
      decreases |content| - lastIndex
    {
      var m := found.value;
      assert Identifiers(content, lastIndex) == [content[m.0..m.1]] + Identifiers(content, m.1);
      AppendAssoc(variables, [content[m.0..m.1]], Identifiers(content, m.1));
      variables := variables + [content[m.0..m.1]];
      lastIndex := m.1;
      found := NextMatch(content, lastIndex);
    }
    assert variables == Identifiers(content, 0);
    if |variables| < 10 {
      return Returned(false);
    }
    var sum := SumLengths(variables);
    if 2 * sum < 5 * |variables| {
      return Threw(ShortVarsError);
    }
    return Returned(false);
  }

  // ----- escapes on more than five lines -----

  /** `s.indexOf(sub)`: the first position where `sub` occurs, or -1. */
  function IndexOf(s: string, sub: string): (i: int)
    ensures i >= -1 && (i == -1 <==> !Contains(s, sub))
    ensures i >= 0 ==> OccursAt(s, sub, i) && forall k | 0 <= k < i :: !OccursAt(s, sub, k)
  {
    IndexOfFrom(s, sub, 0)
  }

  function IndexOfFrom(s: string, sub: string, k: nat): (i: int)
    requires forall j | 0 <= j < k :: !OccursAt(s, sub, j)
    ensures i >= -1 && (i == -1 <==> !Contains(s, sub))
    ensures i >= 0 ==> k <= i && OccursAt(s, sub, i) && forall j | 0 <= j < i :: !OccursAt(s, sub, j)
    decreases |s| - k
  {
    if k + |sub| > |s| then -1
    else if OccursAt(s, sub, k) then k
    else IndexOfFrom(s, sub, k + 1)
  }

  /** `content.substring(0, content.indexOf(e)).split('\n').length`: the
      1-based line of the first occurrence of `e` (`substring` clamps -1
      to 0). */
  function LineOf(content: string, e: string): nat {
    var i := IndexOf(content, e);
    |Lines(content[..if i < 0 then 0 else i])|
  }

  /** The hex escapes followed by the unicode escapes. */
  function EscapeTexts(content: string): seq<string> {
    Heuristics.FindAll(content, Heuristics.Hex) + Heuristics.FindAll(content, Heuristics.Unicode)
  }

  /** The set of line numbers the loop fills. */
  function EscapeLines(content: string): set<nat> {
    set e | e in EscapeTexts(content) :: LineOf(content, e)
  }

  /** What `hasExcessiveEscapes` of the JavaScript analyzer decides. */
  predicate ExcessiveEscapes(content: string) {
    |EscapeTexts(content)| > 20 && |EscapeLines(content)| > 5
  }

  /** `hasExcessiveEscapes`: give up at 20 escapes or fewer, otherwise
      gather the line of each escape in a set and ask for more than five. */
  method HasExcessiveEscapes(content: string) returns (b: bool)
    ensures b == ExcessiveEscapes(content)
  {
    var hexEscapes := Heuristics.FindAll(content, Heuristics.Hex);
    var unicodeEscapes := Heuristics.FindAll(content, Heuristics.Unicode);
    if |hexEscapes| + |unicodeEscapes| <= 20 {
      return false;
    }
    var escapes := hexEscapes + unicodeEscapes;
    var escapeLines: set<nat> := {};
    for k := 0 to |escapes|
      invariant escapeLines == set e | e in escapes[..k] :: LineOf(content, e)
    {
      assert escapes[..k + 1] == escapes[..k] + [escapes[k]];
      var index := IndexOf(content, escapes[k]);
      var lineNumber := |Lines(content[..if index < 0 then 0 else index])|;
      escapeLines := escapeLines + {lineNumber};
      assert (set e | e in escapes[..k + 1] :: LineOf(content, e))
        == (set e | e in escapes[..k] :: LineOf(content, e)) + {LineOf(content, escapes[k])};
    }
    assert escapes[..|escapes|] == escapes;
    return |escapeLines| > 5;
  }

  /** Every escape occurs in the content, so its line is a line of the
      content. */
  lemma {:induction false} EscapeLinesInRange(content: string)
    ensures forall n | n in EscapeLines(content) :: 1 <= n <= |Lines(content)|
  {
    forall n | n in EscapeLines(content) ensures 1 <= n <= |Lines(content)| {
      var e :| e in EscapeTexts(content) && n == LineOf(content, e);
      EscapeTextsOccur(content, e);
      var i := IndexOf(content, e);
      assert 0 <= i <= |content|;
      LineCount(content[..i]);
      LineCount(content);
      assert content == content[..i] + content[i..];
      CountCharAppend(content[..i], content[i..], '\n');
    }
  }

  /** Every escape text occurs in the content. */
  lemma EscapeTextsOccur(content: string, e: string)
    requires e in EscapeTexts(content)
    ensures Contains(content, e)
  {
    Heuristics.FindAllYieldsEscapes(content, Heuristics.Hex, 0);
    Heuristics.FindAllYieldsEscapes(content, Heuristics.Unicode, 0);
  }

  /** A set of numbers between 1 and `n` has at most `n` elements. */
  lemma {:induction false} BoundedSetSize(s: set<nat>, n: nat)
    requires forall x | x in s :: 1 <= x <= n
    ensures |s| <= n
    decreases n
  {
    if n > 0 {
      BoundedSetSize(s - {n}, n - 1);
    } else {
      assert s == {};
    }
  }

  /** The JavaScript heuristic is stricter than the Kotlin one: it needs the
      same more-than-20 escapes and, on top, escapes on more than five
      distinct lines, so content of five lines or fewer never reports. */
  lemma ExcessiveEscapesStricter(content: string)
    ensures ExcessiveEscapes(content) ==> Heuristics.HasExcessiveEscapes(content)
    ensures |Lines(content)| <= 5 ==> !ExcessiveEscapes(content)
  {
    Heuristics.FindAllCountsPositions(content, Heuristics.Hex, 0);
    Heuristics.FindAllCountsPositions(content, Heuristics.Unicode, 0);
    EscapeLinesInRange(content);
    BoundedSetSize(EscapeLines(content), |Lines(content)|);
  }

  /** Escapes with the same text share the line of their first occurrence,
      so there are no more lines than distinct escape texts. */
  lemma {:induction false} EscapeLinesAtMostTexts(content: string)
    ensures |EscapeLines(content)| <= |set e | e in EscapeTexts(content)|
  {
    var texts := set e | e in EscapeTexts(content);
    ImageSize(texts, content);
    assert EscapeLines(content) == set e | e in texts :: LineOf(content, e);
  }

  lemma {:induction false} ImageSize(texts: set<string>, content: string)
    ensures |set e | e in texts :: LineOf(content, e)| <= |texts|
    decreases |texts|
  {
    if texts != {} {
      var t :| t in texts;
      var rest := texts - {t};
      ImageSize(rest, content);
      assert (set e | e in texts :: LineOf(content, e))
        == (set e | e in rest :: LineOf(content, e)) + {LineOf(content, t)};
    }
  }

  // ----- Base58 tokens -----

  /** The 58 characters of the Base58 alphabet: digits but `0`, letters but
      `I`, `O` and `l`. */
  predicate IsBase58Char(c: char) {
    ('1' <= c <= '9') || ('A' <= c <= 'Z' && c != 'I' && c != 'O') || ('a' <= c <= 'z' && c != 'l')
  }

  /** A token the Base58 sniffer reports: 20 characters or more, not an
      identifier, and all in the Base58 alphabet. */
  predicate Base58Token(w: string) {
    !(|w| < 20 || IsIdentifier(w)) && |w| > 0 && forall i | 0 <= i < |w| :: IsBase58Char(w[i])
  }

  /** Since every Base58 letter is an identifier character, a reported token
      is exactly a long Base58 word that starts with a digit. */
  lemma Base58TokenStartsWithDigit(w: string)
    ensures Base58Token(w) <==>
      |w| >= 20 && '1' <= w[0] <= '9' && forall i | 0 <= i < |w| :: IsBase58Char(w[i])
  {
    if |w| >= 20 && (forall i | 0 <= i < |w| :: IsBase58Char(w[i])) && !('1' <= w[0] <= '9') {
      forall i | 1 <= i < |w| ensures IsIdentChar(w[i]) {
        assert IsBase58Char(w[i]);
      }
      assert IsIdentifier(w);
    }
  }

  /** `hasBase58Encoded`: look for a reported token among the
      whitespace-separated words, returning at the first one. */
  method HasBase58Encoded(content: string) returns (b: bool)
    ensures b <==> exists w | w in Words(content) :: Base58Token(w)
  {
    var words := Words(content);
    for k := 0 to |words|
      invariant forall j | 0 <= j < k :: !Base58Token(words[j])
    {
      var word := words[k];
      if |word| < 20 || IsIdentifier(word) {
        continue;
      }
      if |word| > 0 && forall i | 0 <= i < |word| :: IsBase58Char(word[i]) {
        assert word in words && Base58Token(word);
        return true;
      }
    }
    return false;
  }
}
