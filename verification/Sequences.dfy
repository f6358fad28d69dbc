/** Sequence vocabulary shared by the models: order-preserving selection, flattening, permutations. */
module Sequences {

  datatype Option<+T> = None | Some(value: T)

  /** The elements of `s` that satisfy `p`, in their original order. */
  function Filter<T>(p: T -> bool, s: seq<T>): seq<T> {
    if |s| == 0 then []
    else Filter(p, s[..|s| - 1]) + if p(s[|s| - 1]) then [s[|s| - 1]] else []
  }

  /** The concatenation of the sequences in `ss`. */
  function Flatten<T>(ss: seq<seq<T>>): seq<T> {
    if |ss| == 0 then [] else Flatten(ss[..|ss| - 1]) + ss[|ss| - 1]
  }

  ghost predicate Permutation<T>(a: seq<T>, b: seq<T>) {
    multiset(a) == multiset(b)
  }

  ghost predicate Distinct<T>(s: seq<T>) {
    forall i, j :: 0 <= i < j < |s| ==> s[i] != s[j]
  }

  lemma SplitLast<T>(s: seq<T>)
    requires |s| > 0
    ensures s == s[..|s| - 1] + [s[|s| - 1]]
    ensures multiset(s) == multiset(s[..|s| - 1]) + multiset{s[|s| - 1]}
  {
    assert s == s[..|s| - 1] + [s[|s| - 1]];
  }

  /** A filter keeps every copy of an element it selects and no copy of any other. */
  lemma {:induction false} FilterMultiplicity<T>(p: T -> bool, s: seq<T>, x: T)
    ensures multiset(Filter(p, s))[x] == if p(x) then multiset(s)[x] else 0
    ensures x in Filter(p, s) <==> x in s && p(x)
  {
    if |s| > 0 {
      FilterMultiplicity(p, s[..|s| - 1], x);
      SplitLast(s);
    }
    assert x in Filter(p, s) <==> x in multiset(Filter(p, s));
    assert x in s <==> x in multiset(s);
  }

  lemma {:induction false} FilterNone<T>(p: T -> bool, s: seq<T>)
    requires forall i :: 0 <= i < |s| ==> !p(s[i])
    ensures Filter(p, s) == []
  {
    if |s| > 0 { FilterNone(p, s[..|s| - 1]); }
  }

  lemma {:induction false} FilterAll<T>(p: T -> bool, s: seq<T>)
    requires forall i :: 0 <= i < |s| ==> p(s[i])
    ensures Filter(p, s) == s
  {
    if |s| > 0 { FilterAll(p, s[..|s| - 1]); }
  }

  lemma {:induction false} FilterAppend<T>(p: T -> bool, a: seq<T>, b: seq<T>)
    ensures Filter(p, a + b) == Filter(p, a) + Filter(p, b)
  {
    if |b| == 0 {
      assert a + b == a;
    } else {
      assert (a + b)[..|a + b| - 1] == a + b[..|b| - 1];
      FilterAppend(p, a, b[..|b| - 1]);
    }
  }

  /** Permutations have the same length and the same elements. */
  lemma PermutationMembers<T>(a: seq<T>, b: seq<T>)
    requires Permutation(a, b)
    ensures |a| == |b|
    ensures forall x :: x in a <==> x in b
  {
    assert |a| == |multiset(a)| && |b| == |multiset(b)|;
    forall x ensures x in a <==> x in b {
      assert x in a <==> x in multiset(a);
      assert x in b <==> x in multiset(b);
    }
  }

  /** Taking one element out of a sequence takes one copy of it out of its multiset. */
  lemma RemoveAt<T>(s: seq<T>, i: nat)
    requires i < |s|
    ensures multiset(s[..i] + s[i + 1..]) == multiset(s) - multiset{s[i]}
  {
    assert s == s[..i] + [s[i]] + s[i + 1..];
  }

  lemma FilterAround<T>(p: T -> bool, l: seq<T>, x: T, r: seq<T>)
    ensures Filter(p, l + [x] + r) == Filter(p, l) + (if p(x) then [x] else []) + Filter(p, r)
  {
    FilterAppend(p, l + [x], r);
    assert (l + [x])[..|l|] == l;
  }

  lemma FilterRemove<T>(p: T -> bool, l: seq<T>, x: T, r: seq<T>)
    ensures multiset(Filter(p, l + [x] + r)) == multiset(Filter(p, l + r)) + (if p(x) then multiset{x} else multiset{})
  {
    var left, right := Filter(p, l), Filter(p, r);
    FilterAround(p, l, x, r);
    FilterAppend(p, l, r);
  }

  /** Filtering a rearrangement rearranges the filtered sequence. */
  lemma {:induction false} FilterPermutation<T>(p: T -> bool, a: seq<T>, b: seq<T>)
    requires Permutation(a, b)
    ensures Permutation(Filter(p, a), Filter(p, b))
  {
    PermutationMembers(a, b);
    if |a| > 0 {
      var n := |a| - 1;
      assert a[n] in a;
      var i: nat :| i < |b| && b[i] == a[n];
      assert b == b[..i] + [a[n]] + b[i + 1..];
      SplitLast(a);
      RemoveAt(b, i);
      FilterPermutation(p, a[..n], b[..i] + b[i + 1..]);
      FilterRemove(p, b[..i], a[n], b[i + 1..]);
    }
  }

  lemma TakeOut<T>(s: seq<T>, x: T) returns (rest: seq<T>)
    requires x in multiset(s)
    ensures multiset(s) == multiset(rest) + multiset{x}
  {
    var i: nat :| i < |s| && s[i] == x;
    RemoveAt(s, i);
    rest := s[..i] + s[i + 1..];
  }

  lemma {:induction false} DistinctMultiplicity<T>(s: seq<T>, x: T)
    requires Distinct(s)
    ensures multiset(s)[x] == if x in s then 1 else 0
  {
    if s != [] {
      SplitLast(s);
      DistinctMultiplicity(s[..|s| - 1], x);
    }
  }

  lemma TwiceIn<T>(s: seq<T>, i: nat, j: nat)
    requires i < j < |s| && s[i] == s[j]
    ensures multiset(s)[s[i]] >= 2
  {
    assert s == s[..j] + [s[j]] + s[j + 1..];
    assert s[i] in multiset(s[..j]) by { assert s[..j][i] == s[i]; }
  }
}
