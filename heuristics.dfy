/** Whole-content heuristics: compressed code and excessive escape sequences,
    shared by both analyzers, and the placeholders of the Kotlin analyzer. */
module Heuristics {
  import opened Text

  // ----- compressed code -----

  /** `isCompressedCode`: the average line length (as a double) is above 150
      and there are fewer than 50 lines. With `n >= 1` lines and an integer
      total `sum`, `sum / n > 150` is `sum > 150 * n`; for fewer than 50 lines
      the double division is exact enough for the two to agree. */
  function IsCompressedCode(content: string): (b: bool)
    ensures b <==> |content| + 1 > 151 * (1 + CountChar(content, '\n'))
                   && CountChar(content, '\n') < 49
  {
    var lines := Lines(content);
    LineCount(content);
    SumLengths(lines) > 150 * |lines| && |lines| < 50
  }

  // ----- escape sequences -----

  /** The two escape shapes searched for: `\xHH` and `\uHHHH`. */
  datatype EscapeKind = Hex | Unicode

  function Width(k: EscapeKind): nat {
    match k
    case Hex => 4
    case Unicode => 6
  }

  function Marker(k: EscapeKind): char {
    match k
    case Hex => 'x'
    case Unicode => 'u'
  }

  predicate IsHexDigit(c: char) {
    '0' <= c <= '9' || 'A' <= c <= 'F' || 'a' <= c <= 'f'
  }

  /** An escape of kind `k` starts at position `i` of `s`. */
  predicate EscapeAt(s: string, i: int, k: EscapeKind) {
    0 <= i && i + Width(k) <= |s| && s[i] == '\\' && s[i + 1] == Marker(k)
    && forall j | i + 2 <= j < i + Width(k) :: IsHexDigit(s[j])
  }

  /** The matches a global search returns from position `i` on, leftmost
      first, each search resuming after the previous match (Kotlin
      `Regex.findAll`, JavaScript `String.match` with the `g` flag). */
  function FindAllFrom(s: string, k: EscapeKind, i: nat): (ms: seq<string>)
    decreases |s| - i
  {
    if i >= |s| then []
    else if EscapeAt(s, i, k) then [s[i..i + Width(k)]] + FindAllFrom(s, k, i + Width(k))
    else FindAllFrom(s, k, i + 1)
  }

  function FindAll(s: string, k: EscapeKind): seq<string> {
    FindAllFrom(s, k, 0)
  }

  /** Number of positions at or after `i` where an escape of kind `k` starts. */
  function PositionsFrom(s: string, k: EscapeKind, i: nat): (n: nat)
    decreases |s| - i
  {
    if i >= |s| then 0 else (if EscapeAt(s, i, k) then 1 else 0) + PositionsFrom(s, k, i + 1)
  }

  /** Inside an escape there is no further backslash, so no other escape
      starts there. */
  lemma {:induction false} NoEscapeInside(s: string, k: EscapeKind, i: nat, j: nat)
    requires EscapeAt(s, i, k) && i < j <= i + Width(k)
    ensures PositionsFrom(s, k, j) == PositionsFrom(s, k, i + Width(k))
    decreases i + Width(k) - j
  {
    if j < i + Width(k) {
      assert s[j] != '\\';
      NoEscapeInside(s, k, i, j + 1);
    }
  }

  /** Matches never overlap, so the search finds every escape position:
      the number of matches is the number of positions. */
  lemma {:induction false} FindAllCountsPositions(s: string, k: EscapeKind, i: nat)
    ensures |FindAllFrom(s, k, i)| == PositionsFrom(s, k, i)
    decreases |s| - i
  {
    if i < |s| {
      if EscapeAt(s, i, k) {
        FindAllCountsPositions(s, k, i + Width(k));
        NoEscapeInside(s, k, i, i + 1);
      } else {
        FindAllCountsPositions(s, k, i + 1);
      }
    }
  }

  /** Every match is an escape of kind `k` that occurs in `s`. */
  lemma {:induction false} FindAllYieldsEscapes(s: string, k: EscapeKind, i: nat)
    ensures forall m | m in FindAllFrom(s, k, i) ::
      |m| == Width(k) && EscapeAt(m, 0, k) && Contains(s, m)
    decreases |s| - i
  {
    if i < |s| {
      if EscapeAt(s, i, k) {
        var m := s[i..i + Width(k)];
        assert OccursAt(s, m, i);
        FindAllYieldsEscapes(s, k, i + Width(k));
      } else {
        FindAllYieldsEscapes(s, k, i + 1);
      }
    }
  }

  /** `hasExcessiveEscapes` of the Kotlin analyzer: more than 20 matches of
      the two escape shapes together. */
  function HasExcessiveEscapes(content: string): (b: bool)
    ensures b <==> PositionsFrom(content, Hex, 0) + PositionsFrom(content, Unicode, 0) > 20
  {
    FindAllCountsPositions(content, Hex, 0);
    FindAllCountsPositions(content, Unicode, 0);
    |FindAll(content, Hex)| + |FindAll(content, Unicode)| > 20
  }

  // ----- placeholders of the Kotlin analyzer -----

  /** `hasRenamedVariables` in the Kotlin analyzer is a placeholder. */
  function HasRenamedVariables(content: string): (b: bool)
    ensures !b
  {
    false
  }

  /** `hasBase64Encoded` in the Kotlin analyzer is a placeholder (and is
      never called). */
  function HasBase64Encoded(content: string): (b: bool)
    ensures !b
  {
    false
  }

  /** `hasBase58Encoded` in the Kotlin analyzer is a placeholder. */
  function HasBase58Encoded(content: string): (b: bool)
    ensures !b
  {
    false
  }
}
