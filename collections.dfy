/** The collection operations of the Kotlin standard library that the
    screens and the report use: `count`, `filter` and `sumOf`, each over a
    list visited front to back. */
module Collections {

  /** Indices listed in strictly increasing order. */
  predicate Increasing(ks: seq<nat>) {
    forall a, b | 0 <= a < b < |ks| :: ks[a] < ks[b]
  }

  /** `count { p(it) }`. */
  function Count<T>(s: seq<T>, p: T -> bool): (n: nat)
    ensures n <= |s|
  {
    if |s| == 0 then 0
    else if p(s[|s| - 1]) then Count(s[..|s| - 1], p) + 1
    else Count(s[..|s| - 1], p)
  }

  /** `filter { p(it) }`. */
  function Filter<T>(s: seq<T>, p: T -> bool): (r: seq<T>)
    ensures |r| <= |s|
  {
    if |s| == 0 then []
    else if p(s[|s| - 1]) then Filter(s[..|s| - 1], p) + [s[|s| - 1]]
    else Filter(s[..|s| - 1], p)
  }

  /** `sumOf { f(it) }`. */
  function SumOf<T>(s: seq<T>, f: T -> nat): nat {
    if |s| == 0 then 0 else SumOf(s[..|s| - 1], f) + f(s[|s| - 1])
  }

  /** The positions `filter` keeps, in order. */
  function KeptIndices<T>(s: seq<T>, p: T -> bool): (ks: seq<nat>)
    ensures forall a | 0 <= a < |ks| :: ks[a] < |s|
  {
    if |s| == 0 then []
    else if p(s[|s| - 1]) then KeptIndices(s[..|s| - 1], p) + [|s| - 1]
    else KeptIndices(s[..|s| - 1], p)
  }

  /** `filter` keeps exactly the elements that satisfy the predicate, in
      their original order: its `j`-th element is the element at the `j`-th
      kept position, the kept positions increase, and a position is kept
      exactly when its element satisfies the predicate. */
  lemma {:induction false} FilterSelects<T>(s: seq<T>, p: T -> bool)
    ensures |Filter(s, p)| == |KeptIndices(s, p)|
    ensures Increasing(KeptIndices(s, p))
    ensures forall j | 0 <= j < |Filter(s, p)| :: Filter(s, p)[j] == s[KeptIndices(s, p)[j]]
    ensures forall k | 0 <= k < |s| :: k in KeptIndices(s, p) <==> p(s[k])
  {
    if |s| > 0 {
      var n := |s| - 1;
      var init := s[..n];
      FilterSelects(init, p);
      var ks := KeptIndices(s, p);
      var prev := KeptIndices(init, p);
      var r := Filter(s, p);
      forall j | 0 <= j < |r| ensures r[j] == s[ks[j]] {
        if j < |prev| {
          assert r[j] == Filter(init, p)[j] && ks[j] == prev[j];
        }
      }
      forall a, b | 0 <= a < b < |ks| ensures ks[a] < ks[b] {
        if b < |prev| {
          assert ks[a] == prev[a] && ks[b] == prev[b];
        } else {
          assert ks[a] == prev[a];
        }
      }
      forall k | 0 <= k < |s| ensures k in ks <==> p(s[k]) {
        if k < n {
          assert init[k] == s[k];
          assert k in ks <==> k in prev;
        } else {
          assert n !in prev;
        }
      }
    }
  }

  /** Every element `filter` keeps satisfies the predicate, and there are
      as many as `count` counts. */
  lemma {:induction false} FilterCount<T>(s: seq<T>, p: T -> bool)
    ensures |Filter(s, p)| == Count(s, p)
    ensures forall j | 0 <= j < |Filter(s, p)| :: p(Filter(s, p)[j])
  {
    if |s| > 0 {
      var init := s[..|s| - 1];
      FilterCount(init, p);
      var r := Filter(s, p);
      forall j | 0 <= j < |r| ensures p(r[j]) {
        if j < |Filter(init, p)| {
          assert r[j] == Filter(init, p)[j];
        }
      }
    }
  }

  /** Two predicates that disagree on every element split the count. */
  lemma {:induction false} CountComplementary<T>(s: seq<T>, p: T -> bool, q: T -> bool)
    requires forall i | 0 <= i < |s| :: p(s[i]) != q(s[i])
    ensures Count(s, p) + Count(s, q) == |s|
  {
    if |s| > 0 {
      var init := s[..|s| - 1];
      assert forall i | 0 <= i < |init| :: init[i] == s[i];
      CountComplementary(init, p, q);
    }
  }

  /** A predicate implied by another counts at least as many elements. */
  lemma {:induction false} CountMonotone<T>(s: seq<T>, p: T -> bool, q: T -> bool)
    requires forall i | 0 <= i < |s| :: p(s[i]) ==> q(s[i])
    ensures Count(s, p) <= Count(s, q)
  {
    if |s| > 0 {
      var init := s[..|s| - 1];
      assert forall i | 0 <= i < |init| :: init[i] == s[i];
      CountMonotone(init, p, q);
    }
  }

  /** Nothing is counted exactly when no element satisfies the predicate. */
  lemma {:induction false} CountZero<T>(s: seq<T>, p: T -> bool)
    ensures Count(s, p) == 0 <==> forall i | 0 <= i < |s| :: !p(s[i])
  {
    if |s| > 0 {
      var init := s[..|s| - 1];
      assert forall i | 0 <= i < |init| :: init[i] == s[i];
      CountZero(init, p);
    }
  }

  /** Filtering a filtered list is filtering the list by the conjunction
      of the two predicates. */
  lemma {:induction false} FilterFilter<T>(s: seq<T>, p: T -> bool, q: T -> bool, both: T -> bool)
    requires forall i | 0 <= i < |s| :: both(s[i]) == (p(s[i]) && q(s[i]))
    ensures Filter(Filter(s, p), q) == Filter(s, both)
  {
    if |s| > 0 {
      var n := |s| - 1;
      var init := s[..n];
      assert forall i | 0 <= i < |init| :: init[i] == s[i];
      FilterFilter(init, p, q, both);
      if p(s[n]) {
        var f := Filter(init, p);
        assert (f + [s[n]])[..|f|] == f;
      }
    }
  }

  /** Summing a pointwise sum is adding the sums. */
  lemma {:induction false} SumOfAdd<T>(s: seq<T>, f: T -> nat, g: T -> nat, h: T -> nat)
    requires forall i | 0 <= i < |s| :: h(s[i]) == f(s[i]) + g(s[i])
    ensures SumOf(s, h) == SumOf(s, f) + SumOf(s, g)
  {
    if |s| > 0 {
      var init := s[..|s| - 1];
      assert forall i | 0 <= i < |init| :: init[i] == s[i];
      SumOfAdd(init, f, g, h);
    }
  }

  /** A sum is zero exactly when every term is. */
  lemma {:induction false} SumOfZero<T>(s: seq<T>, f: T -> nat)
    ensures SumOf(s, f) == 0 <==> forall i | 0 <= i < |s| :: f(s[i]) == 0
  {
    if |s| > 0 {
      var init := s[..|s| - 1];
      assert forall i | 0 <= i < |init| :: init[i] == s[i];
      SumOfZero(init, f);
    }
  }

  /** Counting over a concatenation adds the counts of its parts. */
  lemma {:induction false} CountConcat<T>(s: seq<T>, t: seq<T>, p: T -> bool)
    ensures Count(s + t, p) == Count(s, p) + Count(t, p)
  {
    if |t| == 0 {
      assert s + t == s;
    } else {
      var init := t[..|t| - 1];
      assert (s + t)[..|s + t| - 1] == s + init;
      CountConcat(s, init, p);
    }
  }

  /** Summing over a concatenation adds the sums of its parts. */
  lemma {:induction false} SumOfConcat<T>(s: seq<T>, t: seq<T>, f: T -> nat)
    ensures SumOf(s + t, f) == SumOf(s, f) + SumOf(t, f)
  {
    if |t| == 0 {
      assert s + t == s;
    } else {
      var init := t[..|t| - 1];
      assert (s + t)[..|s + t| - 1] == s + init;
      SumOfConcat(s, init, f);
    }
  }
}
