/** Sequence vocabulary used across the model: subsequences, distinctness
    and sums of real numbers. */
module Seqs {
  import opened Reals

  /** `r` can be obtained from `s` by deleting elements (order kept). */
  ghost predicate SubSeq<T>(r: seq<T>, s: seq<T>)
    decreases |s|
  {
    r == [] || (s != [] && ((r[0] == s[0] && SubSeq(r[1..], s[1..])) || SubSeq(r, s[1..])))
  }

  predicate Distinct<T(==)>(s: seq<T>) {
    forall i, j :: 0 <= i < j < |s| ==> s[i] != s[j]
  }

  function Elems<T>(s: seq<T>): set<T> {
    set x | x in s
  }

  lemma {:induction false} SubSeqMembers<T>(r: seq<T>, s: seq<T>)
    requires SubSeq(r, s)
    ensures forall x :: x in r ==> x in s
    decreases |s|
  {
    if r != [] {
      if r[0] == s[0] && SubSeq(r[1..], s[1..]) {
        SubSeqMembers(r[1..], s[1..]);
        assert forall x :: x in r ==> x == r[0] || x in r[1..];
      } else {
        SubSeqMembers(r, s[1..]);
      }
    }
  }

  lemma {:induction false} SubSeqOfEmpty<T>(r: seq<T>)
    requires SubSeq(r, [])
    ensures r == []
  {
  }

  function Sum(s: seq<real>): real {
    if s == [] then 0.0 else s[0] + Sum(s[1..])
  }

  /** Sum of the first `n` elements extended by one more element. */
  lemma {:induction false} SumSnoc(s: seq<real>, x: real)
    ensures Sum(s + [x]) == Sum(s) + x
    decreases |s|
  {
    if s == [] {
      assert [] + [x] == [x];
    } else {
      assert (s + [x])[1..] == s[1..] + [x];
      SumSnoc(s[1..], x);
    }
  }

  lemma {:induction false} SumAppend(a: seq<real>, b: seq<real>)
    ensures Sum(a + b) == Sum(a) + Sum(b)
    decreases |a|
  {
    if a == [] {
      assert [] + b == b;
    } else {
      assert (a + b)[1..] == a[1..] + b;
      SumAppend(a[1..], b);
    }
  }

  /** A sum of non-negative terms is non-negative. */
  lemma {:induction false} SumNonNegative(s: seq<real>)
    ensures (forall i :: 0 <= i < |s| ==> s[i] >= 0.0) ==> Sum(s) >= 0.0
    decreases |s|
  {
    if s != [] {
      SumNonNegative(s[1..]);
    }
  }

  /** A sum of non-negative terms is zero only when every term is. */
  lemma {:induction false} SumZeroTerms(s: seq<real>)
    requires forall i :: 0 <= i < |s| ==> s[i] >= 0.0
    requires Sum(s) == 0.0
    ensures forall i :: 0 <= i < |s| ==> s[i] == 0.0
    decreases |s|
  {
    if s != [] {
      SumNonNegative(s[1..]);
      SumZeroTerms(s[1..]);
      assert forall i :: 1 <= i < |s| ==> s[i] == s[1..][i - 1];
    }
  }

  lemma {:induction false} SumBounds(s: seq<real>, lo: real, hi: real)
    requires forall i :: 0 <= i < |s| ==> lo <= s[i] <= hi
    ensures |s| as real * lo <= Sum(s) <= |s| as real * hi
    decreases |s|
  {
    if s != [] {
      SumBounds(s[1..], lo, hi);
    }
  }

  /** The arithmetic mean of a non-empty sequence. */
  function Mean(s: seq<real>): real
    requires |s| > 0
  {
    Sum(s) / |s| as real
  }

  /** A sum of non-negative terms with one positive term is positive. */
  lemma SumPositiveTerm(s: seq<real>, i: int)
    requires forall k :: 0 <= k < |s| ==> s[k] >= 0.0
    requires 0 <= i < |s| && s[i] > 0.0
    ensures Sum(s) > 0.0
  {
    assert s == s[..i] + ([s[i]] + s[i + 1..]);
    SumAppend(s[..i], [s[i]] + s[i + 1..]);
    SumAppend([s[i]], s[i + 1..]);
    SumNonNegative(s[..i]);
    SumNonNegative(s[i + 1..]);
    assert Sum([s[i]]) == s[i] + Sum([]);
  }

  /** A mean lies within any bounds of its terms. */
  lemma MeanBounds(s: seq<real>, lo: real, hi: real)
    requires |s| > 0
    requires forall i :: 0 <= i < |s| ==> lo <= s[i] <= hi
    ensures lo <= Mean(s) <= hi
  {
    var n, q := |s| as real, Mean(s);
    SumBounds(s, lo, hi);
    DivFacts(Sum(s), n);
    calc { (hi - q) * n; == n * hi - q * n; == n * hi - Sum(s); }
    FactorSign(hi - q, n);
    calc { (q - lo) * n; == q * n - n * lo; == Sum(s) - n * lo; }
    FactorSign(q - lo, n);
  }

  /** A mean of non-negative terms is zero exactly when every term is. */
  lemma MeanZeroIff(s: seq<real>)
    requires |s| > 0
    requires forall i :: 0 <= i < |s| ==> s[i] >= 0.0
    ensures Mean(s) == 0.0 <==> forall i :: 0 <= i < |s| ==> s[i] == 0.0
  {
    DivFacts(Sum(s), |s| as real);
    if Mean(s) == 0.0 {
      assert Sum(s) == 0.0 * |s| as real;
      SumZeroTerms(s);
    }
    if forall i :: 0 <= i < |s| ==> s[i] == 0.0 {
      SumBounds(s, 0.0, 0.0);
    }
  }

  function Min(a: real, b: real): real {
    if a <= b then a else b
  }

  function Max(a: real, b: real): real {
    if a >= b then a else b
  }

  function MinInt(a: int, b: int): int {
    if a <= b then a else b
  }
}
