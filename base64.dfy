/** The Base64 sniffer of the JavaScript analyzer (`hasBase64Encoded`): the
    padded-Base64 token test, the browser's `atob` over such tokens, and the
    search for a decoded byte above 0x7F. The alphabet and the padding are
    those of section 4 of RFC 4648; `atob` is the "forgiving-base64 decode"
    of the WHATWG Infra standard. */
module Base64 {
  import opened Text
  import opened Issues

  type Byte = b: int | 0 <= b < 256
  type Sextet = x: int | 0 <= x < 64

  /** The value of a character of the Base64 alphabet, -1 for any other. */
  function CharValue(c: char): (v: int)
    ensures -1 <= v < 64
  {
    if 'A' <= c <= 'Z' then c as int - 'A' as int
    else if 'a' <= c <= 'z' then c as int - 'a' as int + 26
    else if '0' <= c <= '9' then c as int - '0' as int + 52
    else if c == '+' then 62
    else if c == '/' then 63
    else -1
  }

  /** The character of the Base64 alphabet with value `v`. */
  function ValueChar(v: Sextet): (c: char)
    ensures CharValue(c) == v
  {
    if v < 26 then ('A' as int + v) as char
    else if v < 52 then ('a' as int + v - 26) as char
    else if v < 62 then ('0' as int + v - 52) as char
    else if v == 62 then '+'
    else '/'
  }

  predicate IsBase64Char(c: char) {
    CharValue(c) >= 0
  }

  /** The token regex `^(?:[A-Za-z0-9+/]{4})*(?:[A-Za-z0-9+/]{2}==|[A-Za-z0-9+/]{3}=)?$`:
      whole groups of four, every character in the alphabet except a `=`
      that may stand last, or second to last before another `=`. */
  predicate IsPaddedBase64(w: string) {
    |w| % 4 == 0 && PaddedShape(w)
  }

  // ----- decoding -----

  /** Drop one or two trailing `=` from a text whose length is a multiple
      of four. */
  function StripPadding(s: string): (t: string)
    ensures StartsWith(s, t) && |s| - 2 <= |t|
  {
    if |s| % 4 != 0 then s
    else if EndsWith(s, "==") then s[..|s| - 2]
    else if EndsWith(s, "=") then s[..|s| - 1]
    else s
  }

  predicate AllBase64(t: string) {
    forall i | 0 <= i < |t| :: IsBase64Char(t[i])
  }

  /** The bytes of the 24-bit group held by up to four sextets, the missing
      low bits taken as zero. */
  function Quad(c0: Sextet, c1: Sextet, c2: Sextet, c3: Sextet): (bs: seq<Byte>)
    ensures |bs| == 3
  {
    [c0 * 4 + c1 / 16, (c1 % 16) * 16 + c2 / 4, (c2 % 4) * 64 + c3]
  }

  /** Decode unpadded alphabet text: three bytes per four characters, and
      one or two more for a final group of two or three. */
  function DecodeChars(t: string): (bs: seq<Byte>)
    requires AllBase64(t) && |t| % 4 != 1
    ensures |bs| == |t| / 4 * 3 + (if |t| % 4 == 0 then 0 else |t| % 4 - 1)
  {
    if |t| == 0 then []
    else
      var c0, c1 := CharValue(t[0]), CharValue(t[1]);
      var c2 := if |t| > 2 then CharValue(t[2]) else 0;
      var c3 := if |t| > 3 then CharValue(t[3]) else 0;
      var q := Quad(c0, c1, c2, c3);
      if |t| == 2 then q[..1]
      else if |t| == 3 then q[..2]
      else q + DecodeChars(t[4..])
  }

  /** `atob`: strip the padding, refuse a length of 1 modulo 4 or a
      character outside the alphabet, and decode the rest. */
  function Atob(s: string): Option<seq<Byte>> {
    var t := StripPadding(s);
    if |t| % 4 == 1 || !AllBase64(t) then None
    else Some(DecodeChars(t))
  }

  // ----- encoding, the inverse -----

  /** The four characters of the 24-bit group of three bytes. */
  function Group(b0: Byte, b1: Byte, b2: Byte): (cs: string)
    ensures |cs| == 4 && AllBase64(cs)
  {
    [ValueChar(b0 / 4), ValueChar((b0 % 4) * 16 + b1 / 16), ValueChar((b1 % 16) * 4 + b2 / 64), ValueChar(b2 % 64)]
  }

  /** `btoa`: three bytes to four characters, a final one or two bytes to
      two or three characters and the padding. */
  function Btoa(bs: seq<Byte>): (s: string)
    ensures |s| % 4 == 0 && (|s| == 0 <==> |bs| == 0)
  {
    if |bs| == 0 then ""
    else if |bs| == 1 then Group(bs[0], 0, 0)[..2] + "=="
    else if |bs| == 2 then Group(bs[0], bs[1], 0)[..3] + "="
    else Group(bs[0], bs[1], bs[2]) + Btoa(bs[3..])
  }

  /** One group of three bytes survives encoding and decoding. */
  lemma QuadInverse(b0: Byte, b1: Byte, b2: Byte)
    ensures var cs := Group(b0, b1, b2);
      Quad(CharValue(cs[0]), CharValue(cs[1]), CharValue(cs[2]), CharValue(cs[3])) == [b0, b1, b2]
  {
    var c1 := (b0 % 4) * 16 + b1 / 16;
    var c2 := (b1 % 16) * 4 + b2 / 64;
    assert c1 / 16 == b0 % 4 && c1 % 16 == b1 / 16;
    assert c2 / 4 == b1 % 16 && c2 % 4 == b2 / 64;
  }

  /** Decoding goes group by group. */
  lemma DecodeGroup(cs: string, t: string)
    requires |cs| == 4 && AllBase64(cs) && AllBase64(t) && |t| % 4 != 1
    ensures AllBase64(cs + t) && (cs + t)[..4] == cs && (cs + t)[4..] == t
    ensures DecodeChars(cs + t)
      == Quad(CharValue(cs[0]), CharValue(cs[1]), CharValue(cs[2]), CharValue(cs[3])) + DecodeChars(t)
  {
    assert (cs + t)[4..] == t;
  }

  /** The padding of a longer text is the padding of its last group. */
  lemma StripPaddingGroup(cs: string, rest: string)
    requires |cs| == 4 && |rest| > 0 && |rest| % 4 == 0
    ensures StripPadding(cs + rest) == cs + StripPadding(rest)
  {
    var s := cs + rest;
    assert s[|s| - 2..] == rest[|rest| - 2..];
    assert s[|s| - 1..] == rest[|rest| - 1..];
    if EndsWith(rest, "==") {
      assert s[..|s| - 2] == cs + rest[..|rest| - 2];
    } else if EndsWith(rest, "=") {
      assert s[..|s| - 1] == cs + rest[..|rest| - 1];
    }
  }

  /** The unpadded part of an encoding is all alphabet, and decoding it gives
      the bytes back. */
  lemma {:induction false} BtoaBody(bs: seq<Byte>)
    ensures var t := StripPadding(Btoa(bs));
      AllBase64(t) && |t| % 4 != 1 && DecodeChars(t) == bs
  {
    if 0 < |bs| < 3 {
      BtoaLastGroup(bs);
    } else if |bs| >= 3 {
      var cs := Group(bs[0], bs[1], bs[2]);
      var rest := Btoa(bs[3..]);
      QuadInverse(bs[0], bs[1], bs[2]);
      BtoaBody(bs[3..]);
      var t := StripPadding(rest);
      if |bs| == 3 {
        assert rest == "" && t == "";
        assert cs + t == cs;
        assert StripPadding(Btoa(bs)) == cs + t by {
          assert Btoa(bs) == cs + rest;
          assert cs[3] != '=';
        }
      } else {
        StripPaddingGroup(cs, rest);
      }
      DecodeGroup(cs, t);
      FirstThree(bs);
    }
  }

  lemma FirstThree<T>(bs: seq<T>)
    requires |bs| >= 3
    ensures bs == [bs[0], bs[1], bs[2]] + bs[3..]
  {
  }

  /** A final one or two bytes come back from their padded group. */
  lemma BtoaLastGroup(bs: seq<Byte>)
    requires 0 < |bs| < 3
    ensures var t := StripPadding(Btoa(bs));
      AllBase64(t) && |t| % 4 != 1 && DecodeChars(t) == bs
  {
    var s := Btoa(bs);
    if |bs| == 1 {
      var cs := Group(bs[0], 0, 0);
      QuadInverse(bs[0], 0, 0);
      assert StripPadding(s) == cs[..2];
    } else {
      var cs := Group(bs[0], bs[1], 0);
      QuadInverse(bs[0], bs[1], 0);
      assert s[|s| - 2] == cs[2] != '=';
      assert StripPadding(s) == cs[..3];
    }
  }

  /** An encoding has the shape the token regex asks for: every character
      is in the alphabet except a `=` that stands last, or second to last
      before another `=`. */
  lemma {:induction false} BtoaPadding(bs: seq<Byte>)
    ensures PaddedShape(Btoa(bs))
  {
    var s := Btoa(bs);
    if |bs| == 1 {
      assert s == Group(bs[0], 0, 0)[..2] + "==";
    } else if |bs| == 2 {
      assert s == Group(bs[0], bs[1], 0)[..3] + "=";
    } else if |bs| > 2 {
      BtoaPadding(bs[3..]);
      var cs := Group(bs[0], bs[1], bs[2]);
      var rest := Btoa(bs[3..]);
      assert s == cs + rest;
      forall i | 0 <= i < |s|
        ensures IsBase64Char(s[i]) || (s[i] == '=' && (i == |s| - 1 || (i == |s| - 2 && s[|s| - 1] == '=')))
      {
        if i < 4 {
          assert s[i] == cs[i];
        } else {
          assert s[i] == rest[i - 4];
          if |rest| > 0 { assert s[|s| - 1] == rest[|rest| - 1]; }
        }
      }
    }
  }

  /** Every character is in the alphabet but a `=` that stands last, or
      second to last before another `=`. */
  predicate PaddedShape(s: string) {
    forall i | 0 <= i < |s| ::
      IsBase64Char(s[i]) || (s[i] == '=' && (i == |s| - 1 || (i == |s| - 2 && s[|s| - 1] == '=')))
  }

  /** Encoding yields a token the regex accepts, and `atob` gives the bytes
      back: `atob(btoa(bs)) == bs`. */
  lemma AtobBtoa(bs: seq<Byte>)
    ensures IsPaddedBase64(Btoa(bs))
    ensures Atob(Btoa(bs)) == Some(bs)
  {
    BtoaBody(bs);
    BtoaPadding(bs);
  }

  /** Every token the regex accepts decodes: the `catch` branch of the
      sniffer is never taken. */
  lemma PaddedDecodes(w: string)
    requires IsPaddedBase64(w)
    ensures Atob(w).Some?
  {
    var t := StripPadding(w);
    if |w| > 0 {
      assert |t| % 4 != 1;
      forall i | 0 <= i < |t| ensures IsBase64Char(t[i]) {
        assert t[i] == w[i];
      }
    }
  }

  // ----- the sniffer -----

  /** ASCII lower case. */
  function ToLower(w: string): (l: string)
    ensures |l| == |w|
  {
    seq(|w|, i requires 0 <= i < |w| => if 'A' <= w[i] <= 'Z' then (w[i] as int + 32) as char else w[i])
  }

  const CommonWords: seq<string> := ["the", "and", "for", "this", "that", "with", "have", "are", "not"]

  predicate IsCommonWord(w: string) {
    ToLower(w) in CommonWords
  }

  /** No token of 20 characters or more is a common word, so that filter
      never decides anything. */
  lemma LongWordsAreNotCommon(w: string)
    requires |w| >= 20
    ensures !IsCommonWord(w)
  {
  }

  /** A token the sniffer reports: long enough, not a common word, accepted
      by the regex, and decoding to some byte above 0x7F. */
  predicate SuspiciousToken(w: string) {
    !(|w| < 20 || IsCommonWord(w)) && IsPaddedBase64(w)
    && match Atob(w)
       case None => false
       case Some(bs) => HasHighByte(bs)
  }

  /** `/[^\x00-\x7F]/.test(decoded)`: some decoded byte is above 0x7F. */
  predicate HasHighByte(bs: seq<Byte>) {
    exists i | 0 <= i < |bs| :: bs[i] > 0x7F
  }

  /** `hasBase64Encoded`: look for a reported token among the
      whitespace-separated words, returning at the first one. */
  method HasBase64Encoded(content: string) returns (b: bool)
    ensures b <==> exists w | w in Words(content) :: SuspiciousToken(w)
  {
    var words := Words(content);
    for k := 0 to |words|
      invariant forall j | 0 <= j < k :: !SuspiciousToken(words[j])
    {
      var suspicious := TestWord(words[k]);
      if suspicious {
        return true;
      }
    }
    return false;
  }

  /** The body of the loop over the words: skip a short or common word, test
      the regex, decode, and look for a byte above 0x7F; a failed decode
      passes to the next word. */
  method TestWord(word: string) returns (suspicious: bool)
    ensures suspicious == SuspiciousToken(word)
  {
    if |word| < 20 || IsCommonWord(word) {
      return false;
    }
    if !IsPaddedBase64(word) {
      return false;
    }
    match Atob(word) {
      case None =>
        return false;
      case Some(decoded) =>
        return HasHighByte(decoded);
    }
  }

  /** A reported token is a well-formed token of 20 characters or more that
      decodes to a byte above 0x7F. */
  lemma SuspiciousTokenShape(w: string)
    ensures SuspiciousToken(w) <==>
      |w| >= 20 && IsPaddedBase64(w) && HasHighByte(Atob(w).value)
  {
    if IsPaddedBase64(w) {
      PaddedDecodes(w);
    }
    if |w| >= 20 {
      LongWordsAreNotCommon(w);
    }
  }
}
