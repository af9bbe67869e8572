/** Character and string helpers shared by both analyzers: whitespace, substring
    search, trimming and splitting, with the facts the analyzers rely on. */
module Text {

  /** The whitespace class used by trimming and by the `\s` regex class
      (space, tab, line feed, vertical tab, form feed, carriage return). */
  predicate IsWhitespace(c: char) {
    c == ' ' || c == '\t' || c == '\n' || c == '\U{0B}' || c == '\U{0C}' || c == '\r'
  }

  predicate StartsWith(s: string, prefix: string) {
    |prefix| <= |s| && s[..|prefix|] == prefix
  }

  predicate EndsWith(s: string, suffix: string) {
    |suffix| <= |s| && s[|s| - |suffix|..] == suffix
  }

  /** `sub` occurs in `s` starting at position `i`. */
  predicate OccursAt(s: string, sub: string, i: int) {
    0 <= i && i + |sub| <= |s| && s[i..i + |sub|] == sub
  }

  /** `s.contains(sub)`: `sub` occurs in `s` at some position. */
  predicate Contains(s: string, sub: string) {
    exists i | 0 <= i <= |s| - |sub| :: OccursAt(s, sub, i)
  }

  /** Concatenation is associative (stated once, element type abstract, so
      that callers do not pay for it on large element types). */
  lemma AppendAssoc<T>(a: seq<T>, b: seq<T>, c: seq<T>)
    ensures (a + b) + c == a + (b + c)
  {
  }

  /** Number of occurrences of `c` in `s`. */
  function CountChar(s: string, c: char): (n: nat)
    ensures n <= |s|
  {
    if |s| == 0 then 0 else (if s[0] == c then 1 else 0) + CountChar(s[1..], c)
  }

  lemma {:induction false} CountCharAppend(a: string, b: string, c: char)
    ensures CountChar(a + b, c) == CountChar(a, c) + CountChar(b, c)
  {
    if |a| > 0 {
      assert (a + b)[1..] == a[1..] + b;
      CountCharAppend(a[1..], b, c);
    } else {
      assert a + b == b;
    }
  }

  // ----- trimming -----

  function TrimStart(s: string): (t: string)
    ensures |t| <= |s| && t == s[|s| - |t|..]
    ensures |t| > 0 ==> !IsWhitespace(t[0])
    ensures forall i :: 0 <= i < |s| - |t| ==> IsWhitespace(s[i])
  {
    if |s| > 0 && IsWhitespace(s[0]) then TrimStart(s[1..]) else s
  }

  function TrimEnd(s: string): (t: string)
    ensures |t| <= |s| && t == s[..|t|]
    ensures |t| > 0 ==> !IsWhitespace(t[|t| - 1])
    ensures forall i :: |t| <= i < |s| ==> IsWhitespace(s[i])
  {
    if |s| > 0 && IsWhitespace(s[|s| - 1]) then TrimEnd(s[..|s| - 1]) else s
  }

  /** `trim()`: drop leading and trailing whitespace. The result is a contiguous
      piece of `s` that neither starts nor ends with whitespace, everything
      of `s` before and after that piece is whitespace, and it is empty
      exactly when `s` is all whitespace. */
  function Trim(s: string): (t: string)
    ensures Contains(s, t)
    ensures exists k :: OccursAt(s, t, k)
              && (forall i | 0 <= i < k :: IsWhitespace(s[i]))
              && (forall i | k + |t| <= i < |s| :: IsWhitespace(s[i]))
    ensures |t| > 0 ==> !IsWhitespace(t[0]) && !IsWhitespace(t[|t| - 1])
    ensures |t| == 0 <==> forall i :: 0 <= i < |s| ==> IsWhitespace(s[i])
  {
    var a := TrimStart(s);
    TrimPieces(s, a, TrimEnd(a));
    TrimEnd(a)
  }

  /** A piece `t` that starts a suffix `a` of `s`, followed in `a` by
      whitespace only, occurs in `s` with only whitespace after it. */
  lemma TrimLocated(s: string, a: string, t: string)
    requires |a| <= |s| && a == s[|s| - |a|..] && |t| <= |a| && t == a[..|t|]
    requires forall i | 0 <= i < |s| - |a| :: IsWhitespace(s[i])
    requires forall j | |t| <= j < |a| :: IsWhitespace(a[j])
    ensures OccursAt(s, t, |s| - |a|) && Contains(s, t)
    ensures forall i | |s| - |a| + |t| <= i < |s| :: IsWhitespace(s[i])
  {
    var k := |s| - |a|;
    assert a[..|t|] == s[k..k + |t|];
    assert OccursAt(s, t, k) && 0 <= k <= |s| - |t|;
    forall i | k + |t| <= i < |s|
      ensures IsWhitespace(s[i])
    {
      assert s[i] == a[i - k];
    }
  }

  lemma TrimPieces(s: string, a: string, t: string)
    requires a == TrimStart(s) && t == TrimEnd(a)
    ensures OccursAt(s, t, |s| - |a|) && Contains(s, t)
    ensures forall i | 0 <= i < |s| - |a| :: IsWhitespace(s[i])
    ensures forall i | |s| - |a| + |t| <= i < |s| :: IsWhitespace(s[i])
    ensures |t| > 0 ==> !IsWhitespace(t[0]) && !IsWhitespace(t[|t| - 1])
    ensures |t| == 0 <==> forall i :: 0 <= i < |s| ==> IsWhitespace(s[i])
  {
    TrimLocated(s, a, t);
    if |t| == 0 && |s| > 0 {
      assert |a| == 0;
    }
    if |t| > 0 {
      assert a[0] == t[0];
      assert !IsWhitespace(s[|s| - |a|]);
    }
  }

  /** The first whitespace-delimited token of a trimmed line: the longest
      prefix that holds no whitespace. */
  function FirstToken(s: string): (tok: string)
    ensures StartsWith(s, tok)
    ensures forall i :: 0 <= i < |tok| ==> !IsWhitespace(tok[i])
    ensures |tok| < |s| ==> IsWhitespace(s[|tok|])
  {
    if |s| == 0 || IsWhitespace(s[0]) then "" else [s[0]] + FirstToken(s[1..])
  }

  // ----- splitting -----

  /** Split `s` at every character satisfying `isSep`, keeping empty pieces
      (Kotlin `split` and JavaScript `split` with a one-character separator). */
  function SplitWhere(s: string, isSep: char -> bool): (parts: seq<string>)
    ensures |parts| >= 1
  {
    if |s| == 0 then [""]
    else
      var rest := SplitWhere(s[1..], isSep);
      if isSep(s[0]) then [""] + rest else [[s[0]] + rest[0]] + rest[1..]
  }

  predicate IsNewline(c: char) { c == '\n' }

  /** `content.split("\n")`. */
  function Lines(s: string): (lines: seq<string>)
    ensures |lines| >= 1
  {
    SplitWhere(s, IsNewline)
  }

  /** Tokens between whitespace characters. */
  function Words(s: string): (words: seq<string>)
    ensures |words| >= 1
  {
    SplitWhere(s, IsWhitespace)
  }

  /** Sum of the lengths of the pieces. */
  function SumLengths(parts: seq<string>): (n: nat)
  {
    if |parts| == 0 then 0 else |parts[0]| + SumLengths(parts[1..])
  }

  /** The first piece of a whitespace split is the first token. */
  lemma {:induction false} FirstWordIsFirstToken(s: string)
    ensures Words(s)[0] == FirstToken(s)
  {
    if |s| > 0 && !IsWhitespace(s[0]) {
      FirstWordIsFirstToken(s[1..]);
    }
  }

  /** No piece holds a separator. */
  lemma {:induction false} SplitPartsHaveNoSeparator(s: string, isSep: char -> bool)
    ensures forall p, j :: p in SplitWhere(s, isSep) && 0 <= j < |p| ==> !isSep(p[j])
  {
    if |s| > 0 {
      SplitPartsHaveNoSeparator(s[1..], isSep);
    }
  }

  /** `|Lines(s)|` is one more than the number of line feeds in `s`. */
  lemma {:induction false} LineCount(s: string)
    ensures |Lines(s)| == 1 + CountChar(s, '\n')
    ensures SumLengths(Lines(s)) + |Lines(s)| - 1 == |s|
  {
    if |s| > 0 {
      LineCount(s[1..]);
      var rest := Lines(s[1..]);
      assert SumLengths(rest) == |rest[0]| + SumLengths(rest[1..]);
    }
  }

  /** Every piece occurs in the string it was split from. */
  lemma {:induction false} SplitPartsOccur(s: string, isSep: char -> bool, p: string)
    requires p in SplitWhere(s, isSep)
    ensures Contains(s, p)
  {
    if |s| == 0 {
      assert OccursAt(s, p, 0);
    } else {
      var rest := SplitWhere(s[1..], isSep);
      if p == SplitWhere(s, isSep)[0] {
        if isSep(s[0]) {
          assert OccursAt(s, p, 0);
        } else {
          assert p == [s[0]] + rest[0];
          SplitFirstIsPrefix(s[1..], isSep);
          assert OccursAt(s, p, 0);
        }
      } else {
        assert p in rest;
        SplitPartsOccur(s[1..], isSep, p);
        var i :| 0 <= i <= |s[1..]| - |p| && OccursAt(s[1..], p, i);
        assert s[i + 1..i + 1 + |p|] == s[1..][i..i + |p|];
        assert OccursAt(s, p, i + 1);
      }
    }
  }

  lemma {:induction false} SplitFirstIsPrefix(s: string, isSep: char -> bool)
    ensures StartsWith(s, SplitWhere(s, isSep)[0])
  {
    if |s| > 0 && !isSep(s[0]) {
      SplitFirstIsPrefix(s[1..], isSep);
    }
  }

  /** A separator-free prefix of `s` is a prefix of the first piece. */
  lemma {:induction false} PrefixWithoutSeparatorInFirstPart(s: string, isSep: char -> bool, m: string)
    requires StartsWith(s, m)
    requires forall j :: 0 <= j < |m| ==> !isSep(m[j])
    ensures StartsWith(SplitWhere(s, isSep)[0], m)
  {
    if |m| > 0 {
      assert s[0] == m[0];
      assert StartsWith(s[1..], m[1..]) by { assert s[1..][..|m| - 1] == m[1..]; }
      PrefixWithoutSeparatorInFirstPart(s[1..], isSep, m[1..]);
    }
  }

  /** A separator-free text occurs in `s` exactly when it occurs in one of
      the pieces of `s`. */
  lemma {:induction false} ContainsIffSomePartContains(s: string, isSep: char -> bool, m: string)
    requires forall j :: 0 <= j < |m| ==> !isSep(m[j])
    ensures Contains(s, m) <==> exists p :: p in SplitWhere(s, isSep) && Contains(p, m)
  {
    var parts := SplitWhere(s, isSep);
    if exists p :: p in parts && Contains(p, m) {
      var p :| p in parts && Contains(p, m);
      SplitPartsOccur(s, isSep, p);
      ContainsTransitive(s, p, m);
    }
    if Contains(s, m) {
      SomePartContains(s, isSep, m);
    }
  }

  lemma {:induction false} SomePartContains(s: string, isSep: char -> bool, m: string)
    requires forall j :: 0 <= j < |m| ==> !isSep(m[j])
    requires Contains(s, m)
    ensures exists p :: p in SplitWhere(s, isSep) && Contains(p, m)
  {
    var parts := SplitWhere(s, isSep);
    var i :| 0 <= i <= |s| - |m| && OccursAt(s, m, i);
    if i == 0 {
      PrefixWithoutSeparatorInFirstPart(s, isSep, m);
      assert parts[0][0..|m|] == parts[0][..|m|];
      assert OccursAt(parts[0], m, 0);
      assert parts[0] in parts;
    } else {
      assert OccursAt(s[1..], m, i - 1);
      SomePartContains(s[1..], isSep, m);
      var rest := SplitWhere(s[1..], isSep);
      var p :| p in rest && Contains(p, m);
      if isSep(s[0]) {
        assert parts == [""] + rest;
        assert p in parts;
      } else if p == rest[0] {
        var q := [s[0]] + rest[0];
        var k :| 0 <= k <= |p| - |m| && OccursAt(p, m, k);
        assert q[k + 1..k + 1 + |m|] == p[k..k + |m|];
        assert OccursAt(q, m, k + 1);
        assert Contains(q, m);
        assert q == parts[0] && q in parts;
      } else {
        var k :| 0 <= k < |rest| && rest[k] == p;
        assert rest[k] == parts[k];
      }
    }
  }

  /** Occurrence is transitive: a text inside a piece of `s` is inside `s`. */
  lemma ContainsTransitive(s: string, p: string, m: string)
    requires Contains(s, p) && Contains(p, m)
    ensures Contains(s, m)
  {
    var i :| 0 <= i <= |s| - |p| && OccursAt(s, p, i);
    var k :| 0 <= k <= |p| - |m| && OccursAt(p, m, k);
    assert 0 <= i && i + |p| <= |s| && s[i..i + |p|] == p;
    assert 0 <= k && k + |m| <= |p| && p[k..k + |m|] == m;
    forall j | 0 <= j < |m| ensures s[i + k + j] == m[j] {
      assert p[k + j] == m[j];
      assert s[i..i + |p|][k + j] == s[i + k + j];
    }
    assert s[i + k..i + k + |m|] == m;
    assert OccursAt(s, m, i + k);
  }

  // ----- decimal numbers -----

  predicate IsDigit(c: char) {
    '0' <= c <= '9'
  }

  /** The number a string of decimal digits spells. */
  function DigitsValue(s: string): nat
    requires forall i | 0 <= i < |s| :: IsDigit(s[i])
  {
    if |s| == 0 then 0
    else
      var last := s[|s| - 1];
      assert IsDigit(last);
      10 * DigitsValue(s[..|s| - 1]) + (last as int - '0' as int)
  }

  /** `Int.toString()` for a count: at least one digit, spelling the number. */
  function Decimal(n: nat): (s: string)
    ensures |s| >= 1 && forall i | 0 <= i < |s| :: IsDigit(s[i])
    ensures DigitsValue(s) == n
    ensures |s| > 1 ==> s[0] != '0'
  {
    var last := ('0' as int + n % 10) as char;
    if n < 10 then [last]
    else
      var init := Decimal(n / 10);
      assert (init + [last])[..|init|] == init;
      init + [last]
  }
}
