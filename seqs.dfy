/**
 * The two array idioms the screens use: `array.filter(pred)` and the
 * index-based removal `array.filter((_, i) => i !== index)`.
 */
module Seqs {

  /** `s.filter(p)`: the elements satisfying `p`, in their original order. */
  function Filter<T>(s: seq<T>, p: T -> bool): (r: seq<T>)
    ensures |r| <= |s|
    ensures forall x :: x in r ==> x in s && p(x)
  {
    if s == [] then [] else (if p(s[0]) then [s[0]] else []) + Filter(s[1..], p)
  }

  /** `a` can be obtained from `b` by deleting elements: relative order is kept. */
  predicate IsSubsequence<T(==)>(a: seq<T>, b: seq<T>) {
    if b == [] then a == []
    else (a != [] && a[0] == b[0] && IsSubsequence(a[1..], b[1..])) || IsSubsequence(a, b[1..])
  }

  /** Every element of `s` that satisfies `p` is kept. */
  lemma {:induction false} FilterKeeps<T>(s: seq<T>, p: T -> bool)
    ensures forall x :: x in s && p(x) ==> x in Filter(s, p)
  {
    if s != [] {
      FilterKeeps(s[1..], p);
      assert forall x :: x in s ==> x == s[0] || x in s[1..];
    }
  }

  /** The filtered sequence is a subsequence of the input. */
  lemma {:induction false} FilterIsSubsequence<T>(s: seq<T>, p: T -> bool)
    ensures IsSubsequence(Filter(s, p), s)
  {
    if s != [] {
      FilterIsSubsequence(s[1..], p);
      var r := Filter(s, p);
      if p(s[0]) {
        assert r[0] == s[0] && r[1..] == Filter(s[1..], p);
      } else {
        assert r == Filter(s[1..], p);
      }
    }
  }

  /** When every element satisfies `p`, filtering changes nothing. */
  lemma {:induction false} FilterAll<T>(s: seq<T>, p: T -> bool)
    requires forall x :: x in s ==> p(x)
    ensures Filter(s, p) == s
  {
    if s != [] {
      assert forall x :: x in s[1..] ==> x in s;
      FilterAll(s[1..], p);
      assert [s[0]] + s[1..] == s;
    }
  }

  /** Filtering distributes over concatenation. */
  lemma {:induction false} FilterConcat<T>(a: seq<T>, b: seq<T>, p: T -> bool)
    ensures Filter(a + b, p) == Filter(a, p) + Filter(b, p)
  {
    if a != [] {
      assert (a + b)[1..] == a[1..] + b;
      FilterConcat(a[1..], b, p);
    } else {
      assert a + b == b;
    }
  }

  /** Two tests that agree on every element of `s` filter it alike. */
  lemma {:induction false} FilterSame<T>(s: seq<T>, p: T -> bool, q: T -> bool)
    requires forall i :: 0 <= i < |s| ==> p(s[i]) == q(s[i])
    ensures Filter(s, p) == Filter(s, q)
  {
    if s != [] {
      assert forall i :: 0 <= i < |s[1..]| ==> s[1..][i] == s[i + 1];
      FilterSame(s[1..], p, q);
    }
  }

  /** Nothing survives the filter exactly when no element satisfies `p`. */
  lemma {:induction false} FilterEmptyIff<T>(s: seq<T>, p: T -> bool)
    ensures Filter(s, p) == [] <==> forall i :: 0 <= i < |s| ==> !p(s[i])
  {
    if s != [] {
      FilterEmptyIff(s[1..], p);
      if !p(s[0]) {
        forall i | 1 <= i < |s| ensures s[i] == s[1..][i - 1] { }
      }
    }
  }

  /** `s.filter((_, i) => i !== index)`, written as a walk from position `from`. */
  function RemoveFrom<T>(s: seq<T>, index: int, from: int): seq<T>
    decreases |s|
  {
    if s == [] then []
    else (if from != index then [s[0]] else []) + RemoveFrom(s[1..], index, from + 1)
  }

  /** Removal by index: the element at `index` goes, the others stay in order. */
  function RemoveAt<T>(s: seq<T>, index: int): (r: seq<T>)
    ensures 0 <= index < |s| ==> r == s[..index] + s[index + 1..]
    ensures !(0 <= index < |s|) ==> r == s
  {
    RemoveFromSpec(s, index, 0);
    RemoveFrom(s, index, 0)
  }

  lemma {:induction false} RemoveFromSpec<T>(s: seq<T>, index: int, from: int)
    ensures from <= index < from + |s| ==>
      RemoveFrom(s, index, from) == s[..index - from] + s[index - from + 1..]
    ensures !(from <= index < from + |s|) ==> RemoveFrom(s, index, from) == s
    decreases |s|
  {
    if s != [] {
      RemoveFromSpec(s[1..], index, from + 1);
      if from == index {
        assert s[..0] + s[1..] == s[1..];
      } else if from < index < from + |s| {
        assert [s[0]] + (s[1..][..index - from - 1] + s[1..][index - from..])
          == s[..index - from] + s[index - from + 1..];
      } else {
        assert [s[0]] + s[1..] == s;
      }
    }
  }
}
