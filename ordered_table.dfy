/** An insertion-ordered table of key/value entries with the semantics of a
    map built by Kotlin's `mapOf(k1 to v1, k2 to v2, ...)` (a LinkedHashMap):
    a repeated key keeps the position of its first declaration and the value
    of its last one. Lookup walks the entries in that order. */
module OrderedTable {
  import opened Text
  import opened Issues

  /** Index of the first entry with key `k`, or -1. */
  function KeyIndex<V>(t: seq<(string, V)>, k: string): (i: int)
    ensures -1 <= i < |t|
    ensures i >= 0 ==> t[i].0 == k && forall j :: 0 <= j < i ==> t[j].0 != k
    ensures i < 0 ==> forall j :: 0 <= j < |t| ==> t[j].0 != k
  {
    if |t| == 0 then -1
    else if t[0].0 == k then 0
    else
      var i := KeyIndex(t[1..], k);
      if i < 0 then -1 else i + 1
  }

  /** Index of the last entry with key `k`, or -1. */
  function LastKeyIndex<V>(t: seq<(string, V)>, k: string): (i: int)
    ensures -1 <= i < |t|
    ensures i >= 0 ==> t[i].0 == k && forall j :: i < j < |t| ==> t[j].0 != k
    ensures i < 0 ==> forall j :: 0 <= j < |t| ==> t[j].0 != k
  {
    if |t| == 0 then -1
    else if t[|t| - 1].0 == k then |t| - 1
    else LastKeyIndex(t[..|t| - 1], k)
  }

  ghost predicate DistinctKeys<V>(t: seq<(string, V)>) {
    forall i, j :: 0 <= i < j < |t| ==> t[i].0 != t[j].0
  }

  /** `LinkedHashMap.put`: overwrite the value in place, or append. */
  function Put<V>(t: seq<(string, V)>, k: string, v: V): (r: seq<(string, V)>)
  {
    var i := KeyIndex(t, k);
    if i >= 0 then t[i := (k, v)] else t + [(k, v)]
  }

  /** The table that `mapOf(decls...)` builds. */
  function MapOf<V>(decls: seq<(string, V)>): (t: seq<(string, V)>)
    ensures DistinctKeys(t)
    ensures |t| <= |decls|
    ensures forall k :: KeyIndex(t, k) >= 0 <==> KeyIndex(decls, k) >= 0
  {
    if |decls| == 0 then []
    else
      var prev := MapOf(decls[..|decls| - 1]);
      var last := decls[|decls| - 1];
      PutKeys(prev, last.0, last.1);
      PrefixKeyIndex(decls);
      Put(prev, last.0, last.1)
  }

  lemma PutKeys<V>(t: seq<(string, V)>, k: string, v: V)
    requires DistinctKeys(t)
    ensures DistinctKeys(Put(t, k, v))
    ensures forall x :: KeyIndex(Put(t, k, v), x) >= 0 <==> (x == k || KeyIndex(t, x) >= 0)
  {
    var r := Put(t, k, v);
    forall x ensures KeyIndex(r, x) >= 0 <==> (x == k || KeyIndex(t, x) >= 0) {
      if x == k {
        if KeyIndex(t, k) < 0 { assert r[|t|].0 == k; } else { assert r[KeyIndex(t, k)].0 == k; }
      } else if KeyIndex(t, x) >= 0 {
        assert r[KeyIndex(t, x)].0 == x;
      } else {
        assert forall j :: 0 <= j < |r| ==> r[j].0 != x;
      }
    }
  }

  /** Adding a declaration at the end changes the first position of no
      earlier key, and gives a new key the last position. */
  lemma PrefixKeyIndex<V>(decls: seq<(string, V)>)
    requires |decls| > 0
    ensures forall k :: KeyIndex(decls[..|decls| - 1], k) >= 0 ==>
      KeyIndex(decls, k) == KeyIndex(decls[..|decls| - 1], k)
    ensures forall k :: KeyIndex(decls[..|decls| - 1], k) < 0 ==>
      KeyIndex(decls, k) == (if k == decls[|decls| - 1].0 then |decls| - 1 else -1)
  {
    forall k ensures KeyIndex(decls[..|decls| - 1], k) >= 0 ==>
      KeyIndex(decls, k) == KeyIndex(decls[..|decls| - 1], k)
    ensures KeyIndex(decls[..|decls| - 1], k) < 0 ==>
      KeyIndex(decls, k) == (if k == decls[|decls| - 1].0 then |decls| - 1 else -1)
    {
      PrefixKeyIndexOf(decls, k);
    }
  }

  lemma PrefixKeyIndexOf<V>(decls: seq<(string, V)>, k: string)
    requires |decls| > 0
    ensures KeyIndex(decls[..|decls| - 1], k) >= 0 ==>
      KeyIndex(decls, k) == KeyIndex(decls[..|decls| - 1], k)
    ensures KeyIndex(decls[..|decls| - 1], k) < 0 ==>
      KeyIndex(decls, k) == (if k == decls[|decls| - 1].0 then |decls| - 1 else -1)
  {
    var pre := decls[..|decls| - 1];
    var i := KeyIndex(pre, k);
    assert forall j :: 0 <= j < |pre| ==> decls[j] == pre[j];
  }

  /** The value kept for each key is that of its last declaration. */
  lemma {:induction false} MapOfKeepsLastValue<V>(decls: seq<(string, V)>, j: int)
    requires 0 <= j < |MapOf(decls)|
    ensures LastKeyIndex(decls, MapOf(decls)[j].0) >= 0
    ensures MapOf(decls)[j].1 == decls[LastKeyIndex(decls, MapOf(decls)[j].0)].1
  {
    var t := MapOf(decls);
    var pre := decls[..|decls| - 1];
    var prev := MapOf(pre);
    var last := decls[|decls| - 1];
    assert t == Put(prev, last.0, last.1);
    if t[j].0 == last.0 {
      var i := KeyIndex(prev, last.0);
      if i >= 0 {
        assert t[i] == (last.0, last.1);
        assert t[j].1 == last.1;
      } else {
        assert j == |prev|;
      }
    } else {
      assert j < |prev| && t[j] == prev[j];
      MapOfKeepsLastValue(pre, j);
      var li := LastKeyIndex(pre, prev[j].0);
      assert decls[li] == pre[li];
      assert LastKeyIndex(decls, t[j].0) == LastKeyIndex(pre, t[j].0);
    }
  }

  /** Entries appear in the order of their keys' first declarations. */
  lemma {:induction false} MapOfKeepsFirstPosition<V>(decls: seq<(string, V)>, j1: int, j2: int)
    requires 0 <= j1 < j2 < |MapOf(decls)|
    ensures 0 <= KeyIndex(decls, MapOf(decls)[j1].0) < KeyIndex(decls, MapOf(decls)[j2].0)
  {
    var t := MapOf(decls);
    var pre := decls[..|decls| - 1];
    var prev := MapOf(pre);
    var last := decls[|decls| - 1];
    PrefixKeyIndex(decls);
    assert t == Put(prev, last.0, last.1);
    if KeyIndex(prev, last.0) >= 0 {
      assert forall j :: 0 <= j < |t| ==> t[j].0 == prev[j].0;
      MapOfKeepsFirstPosition(pre, j1, j2);
    } else if j2 == |prev| {
      assert t[j1] == prev[j1];
      assert KeyIndex(prev, prev[j1].0) >= 0;
      assert KeyIndex(decls, t[j1].0) < |decls| - 1;
      assert KeyIndex(pre, last.0) < 0;
    } else {
      assert t[j1] == prev[j1] && t[j2] == prev[j2];
      MapOfKeepsFirstPosition(pre, j1, j2);
    }
  }

  /** Kotlin `entries.find { text.contains(it.key) }?.value`: the value of the
      first entry, in table order, whose key occurs in `text`. */
  function FindContained<V>(t: seq<(string, V)>, text: string): (r: Option<V>)
    ensures r.None? <==> forall j :: 0 <= j < |t| ==> !Contains(text, t[j].0)
    ensures r.Some? ==> exists j :: (0 <= j < |t| && Contains(text, t[j].0) && r.value == t[j].1
      && forall i :: 0 <= i < j ==> !Contains(text, t[i].0))
  {
    if |t| == 0 then None
    else if Contains(text, t[0].0) then Some(t[0].1)
    else
      var r := FindContained(t[1..], text);
      FindContainedStep(t, text, r);
      r
  }

  lemma FindContainedStep<V>(t: seq<(string, V)>, text: string, r: Option<V>)
    requires |t| > 0 && !Contains(text, t[0].0)
    requires r.None? <==> forall j :: 0 <= j < |t[1..]| ==> !Contains(text, t[1..][j].0)
    requires r.Some? ==> exists j :: (0 <= j < |t[1..]| && Contains(text, t[1..][j].0)
      && r.value == t[1..][j].1 && forall i :: 0 <= i < j ==> !Contains(text, t[1..][i].0))
    ensures r.None? <==> forall j :: 0 <= j < |t| ==> !Contains(text, t[j].0)
    ensures r.Some? ==> exists j :: (0 <= j < |t| && Contains(text, t[j].0) && r.value == t[j].1
      && forall i :: 0 <= i < j ==> !Contains(text, t[i].0))
  {
    if r.None? {
      forall j | 0 <= j < |t| ensures !Contains(text, t[j].0) {
        if j > 0 { assert t[j] == t[1..][j - 1]; }
      }
    } else {
      var j :| 0 <= j < |t[1..]| && Contains(text, t[1..][j].0) && r.value == t[1..][j].1
        && forall i :: 0 <= i < j ==> !Contains(text, t[1..][i].0);
      forall i | 0 <= i < j + 1 ensures !Contains(text, t[i].0) {
        if i > 0 { assert t[i] == t[1..][i - 1]; }
      }
      assert t[j + 1] == t[1..][j];
    }
  }

  /** Looking a text up in `mapOf(decls...)` yields the LAST value declared for
      the key of the FIRST declaration whose key occurs in the text, and
      nothing when no declared key occurs in it. */
  lemma {:induction false} FindContainedInDeclarationOrder<V>(decls: seq<(string, V)>, text: string)
    ensures (forall i :: 0 <= i < |decls| ==> !Contains(text, decls[i].0)) ==>
      FindContained(MapOf(decls), text) == None
    ensures forall i0 :: (0 <= i0 < |decls| && Contains(text, decls[i0].0)
      && (forall i :: 0 <= i < i0 ==> !Contains(text, decls[i].0))) ==>
      LastKeyIndex(decls, decls[i0].0) >= 0 &&
      FindContained(MapOf(decls), text) == Some(decls[LastKeyIndex(decls, decls[i0].0)].1)
  {
    var t := MapOf(decls);
    if forall i :: 0 <= i < |decls| ==> !Contains(text, decls[i].0) {
      forall j | 0 <= j < |t| ensures !Contains(text, t[j].0) {
        var d := KeyIndex(decls, t[j].0);
        assert KeyIndex(t, t[j].0) >= 0;
        assert decls[d].0 == t[j].0;
      }
    }
    forall i0 | 0 <= i0 < |decls| && Contains(text, decls[i0].0)
      && (forall i :: 0 <= i < i0 ==> !Contains(text, decls[i].0))
      ensures LastKeyIndex(decls, decls[i0].0) >= 0 &&
        FindContained(t, text) == Some(decls[LastKeyIndex(decls, decls[i0].0)].1)
    {
      FirstContainedFound(decls, text, i0);
    }
  }

  lemma FirstContainedFound<V>(decls: seq<(string, V)>, text: string, i0: int)
    requires 0 <= i0 < |decls| && Contains(text, decls[i0].0)
    requires forall i :: 0 <= i < i0 ==> !Contains(text, decls[i].0)
    ensures LastKeyIndex(decls, decls[i0].0) >= 0 &&
      FindContained(MapOf(decls), text) == Some(decls[LastKeyIndex(decls, decls[i0].0)].1)
  {
    var t := MapOf(decls);
    var k0 := decls[i0].0;
    assert KeyIndex(decls, k0) == i0;
    var j0 := KeyIndex(t, k0);
    assert j0 >= 0;
    forall j | 0 <= j < j0 ensures !Contains(text, t[j].0) {
      MapOfKeepsFirstPosition(decls, j, j0);
      var d := KeyIndex(decls, t[j].0);
      assert d < i0 && decls[d].0 == t[j].0;
    }
    var r := FindContained(t, text);
    var j :| 0 <= j < |t| && Contains(text, t[j].0) && r.value == t[j].1
      && forall i :: 0 <= i < j ==> !Contains(text, t[i].0);
    assert j == j0;
    MapOfKeepsLastValue(decls, j0);
  }
}
