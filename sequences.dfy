/**
  Models of the JavaScript array built-ins the exam generator relies on
  (`Array.prototype.filter` and `Array.prototype.slice(0, n)`), together with
  the facts about them that the generator's proofs use: how filtering acts on
  multiplicities, and how "no two elements share a key" moves between a
  sequence and its multiset.
*/
module Sequences {

  function Min(a: int, b: int): int { if a <= b then a else b }

  /** `Math.max(a, b)` on integers. */
  function Max(a: int, b: int): int { if a >= b then a else b }

  /** `s.filter(p)`: the elements of `s` that satisfy `p`, in their original order. */
  function Filter<T>(s: seq<T>, p: T -> bool): (r: seq<T>)
    ensures |r| <= |s|
    ensures forall x :: x in r ==> x in s && p(x)
    ensures forall x :: x in s && p(x) ==> x in r
    decreases |s|
  {
    if |s| == 0 then []
    else if p(s[0]) then [s[0]] + Filter(s[1..], p)
    else Filter(s[1..], p)
  }

  /** `s.slice(0, n)` for `n >= 0`: the first `n` elements, or all of `s` when it is shorter. */
  function Take<T>(s: seq<T>, n: nat): (r: seq<T>)
    ensures |r| == Min(n, |s|)
    ensures r == s[..|r|]
    ensures multiset(r) <= multiset(s)
  {
    if n <= |s| then
      assert s == s[..n] + s[n..];
      s[..n]
    else
      s
  }

  /** Filtering keeps every copy of an element that satisfies `p` and drops every other. */
  lemma {:induction false} FilterMultiplicity<T>(s: seq<T>, p: T -> bool)
    ensures forall x :: multiset(Filter(s, p))[x] == if p(x) then multiset(s)[x] else 0
    decreases |s|
  {
    if |s| > 0 {
      FilterMultiplicity(s[1..], p);
      assert s == [s[0]] + s[1..];
    }
  }

  lemma FilterSubMultiset<T>(s: seq<T>, p: T -> bool)
    ensures multiset(Filter(s, p)) <= multiset(s)
  {
    FilterMultiplicity(s, p);
  }

  /** Two permutations of each other filter to permutations of each other, of the same length. */
  lemma FilterPermutation<T(!new)>(a: seq<T>, b: seq<T>, p: T -> bool)
    requires multiset(a) == multiset(b)
    ensures multiset(Filter(a, p)) == multiset(Filter(b, p))
    ensures |Filter(a, p)| == |Filter(b, p)|
  {
    FilterMultiplicity(a, p);
    FilterMultiplicity(b, p);
    var ma, mb := multiset(Filter(a, p)), multiset(Filter(b, p));
    forall x
      ensures ma[x] == mb[x]
    {
      assert ma[x] == if p(x) then multiset(a)[x] else 0;
    }
    assert ma == mb;
    assert |Filter(a, p)| == |multiset(Filter(a, p))|;
    assert |Filter(b, p)| == |multiset(Filter(b, p))|;
  }

  lemma {:induction false} FilterAppend<T>(a: seq<T>, b: seq<T>, p: T -> bool)
    ensures Filter(a + b, p) == Filter(a, p) + Filter(b, p)
    decreases |a|
  {
    if |a| == 0 {
      assert a + b == b;
    } else {
      assert (a + b)[0] == a[0];
      assert (a + b)[1..] == a[1..] + b;
      FilterAppend(a[1..], b, p);
    }
  }

  /** Filtering three concatenated blocks filters each block. */
  lemma FilterAppend3<T>(a: seq<T>, b: seq<T>, c: seq<T>, p: T -> bool)
    ensures Filter(a + b + c, p) == Filter(a, p) + Filter(b, p) + Filter(c, p)
  {
    FilterAppend(a + b, c, p);
    FilterAppend(a, b, p);
  }

  /** Filtering three blocks of which `p` keeps all of the middle one and none of the last. */
  lemma FilterKeepMiddle<T>(a: seq<T>, b: seq<T>, c: seq<T>, p: T -> bool)
    requires Filter(b, p) == b && Filter(c, p) == []
    ensures Filter(a + b + c, p) == Filter(a, p) + b
  {
    FilterAppend3(a, b, c, p);
    assert Filter(a, p) + b + [] == Filter(a, p) + b;
  }

  /** Filtering three blocks of which `p` keeps none of the middle one and all of the last. */
  lemma FilterKeepLast<T>(a: seq<T>, b: seq<T>, c: seq<T>, p: T -> bool)
    requires Filter(b, p) == [] && Filter(c, p) == c
    ensures Filter(a + b + c, p) == Filter(a, p) + c
  {
    FilterAppend(a, b, p);
    assert Filter(a + b, p) == Filter(a, p);
    FilterAppend(a + b, c, p);
  }

  /** Filtering three blocks of which `p` keeps none of the last two. */
  lemma FilterKeepFirst<T>(a: seq<T>, b: seq<T>, c: seq<T>, p: T -> bool)
    requires Filter(b, p) == [] && Filter(c, p) == []
    ensures Filter(a + b + c, p) == Filter(a, p)
  {
    FilterAppend3(a, b, c, p);
    assert Filter(a, p) + [] + [] == Filter(a, p);
  }

  lemma {:induction false} FilterAll<T>(s: seq<T>, p: T -> bool)
    requires forall x :: x in s ==> p(x)
    ensures Filter(s, p) == s
    decreases |s|
  {
    if |s| > 0 {
      assert s[0] in s;
      assert forall x :: x in s[1..] ==> x in s;
      FilterAll(s[1..], p);
      assert s == [s[0]] + s[1..];
    }
  }

  lemma FilterNone<T>(s: seq<T>, p: T -> bool)
    requires forall x :: x in s ==> !p(x)
    ensures Filter(s, p) == []
  {
  }

  /** No two elements at different positions of `s` have the same key. */
  ghost predicate DistinctBy<T>(s: seq<T>, key: T -> int)
  {
    forall i, j :: 0 <= i < j < |s| ==> key(s[i]) != key(s[j])
  }

  /** Every element of `m` occurs once, and no two elements of `m` have the same key. */
  ghost predicate UniqueBy<T>(m: multiset<T>, key: T -> int)
  {
    (forall x :: x in m ==> m[x] == 1) &&
    (forall x, y :: x in m && y in m && key(x) == key(y) ==> x == y)
  }

  lemma {:induction false} DistinctByIsUnique<T>(s: seq<T>, key: T -> int)
    requires DistinctBy(s, key)
    ensures UniqueBy(multiset(s), key)
    decreases |s|
  {
    if |s| > 0 {
      var t := s[1..];
      forall i, j | 0 <= i < j < |t|
        ensures key(t[i]) != key(t[j])
      {
        assert t[i] == s[i + 1] && t[j] == s[j + 1];
      }
      DistinctByIsUnique(t, key);
      forall y | y in t
        ensures key(y) != key(s[0])
      {
        var m :| 0 <= m < |t| && t[m] == y;
        assert s[m + 1] == y;
      }
      assert s[0] !in multiset(t);
      assert s == [s[0]] + t;
      assert multiset(s) == multiset{s[0]} + multiset(t);
    }
  }

  lemma UniqueIsDistinctBy<T>(s: seq<T>, key: T -> int)
    requires UniqueBy(multiset(s), key)
    ensures DistinctBy(s, key)
  {
    forall i, j | 0 <= i < j < |s|
      ensures key(s[i]) != key(s[j])
    {
      assert s == s[..j] + s[j..];
      assert s[i] == s[..j][i];
      assert s[j] == s[j..][0];
      assert multiset(s) == multiset(s[..j]) + multiset(s[j..]);
      assert s[i] in multiset(s[..j]);
      assert s[j] in multiset(s[j..]);
      assert multiset(s)[s[i]] == 1;
      assert s[i] != s[j];
    }
  }

  /** A sub-multiset of a multiset with unique keys has unique keys. */
  lemma UniqueBySub<T>(m: multiset<T>, n: multiset<T>, key: T -> int)
    requires UniqueBy(m, key) && n <= m
    ensures UniqueBy(n, key)
  {
    forall x | x in n
      ensures n[x] == 1
    {
      assert x in m;
    }
  }

  /** Distinct keys survive any permutation, and any selection of a permutation. */
  lemma DistinctBySub<T>(a: seq<T>, b: seq<T>, key: T -> int)
    requires DistinctBy(a, key) && multiset(b) <= multiset(a)
    ensures DistinctBy(b, key)
  {
    DistinctByIsUnique(a, key);
    UniqueBySub(multiset(a), multiset(b), key);
    UniqueIsDistinctBy(b, key);
  }
}
