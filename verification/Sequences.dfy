/** Rounding up, distinct elements and sums of sequences, and the stable ascending sort by a numeric key. */
module Sequences {

  /** The elements in order of first occurrence, each once. */
  function Uniq<T(==, !new)>(s: seq<T>): (r: seq<T>)
    ensures forall x :: x in r <==> x in s
    ensures forall i, j :: 0 <= i < j < |r| ==> r[i] != r[j]
  {
    if s == [] then []
    else
      var front := Uniq(s[..|s| - 1]);
      var last := s[|s| - 1];
      assert s == s[..|s| - 1] + [last];
      if last in front then front else front + [last]
  }

  function Sum<T>(s: seq<T>, f: T -> int): int {
    if s == [] then 0 else f(s[0]) + Sum(s[1..], f)
  }

  function RealSum<T>(s: seq<T>, f: T -> real): real {
    if s == [] then 0.0 else f(s[0]) + RealSum(s[1..], f)
  }

  function Same<T>(x: T): T {
    x
  }

  function SumOf(s: seq<int>): int {
    Sum(s, Same)
  }

  function RealSumOf(s: seq<real>): real {
    RealSum(s, Same)
  }

  /** The least whole number that is not below x. */
  function Ceil(x: real): int {
    -(-x).Floor
  }

  predicate Distinct<T(==)>(s: seq<T>) {
    forall i, j :: 0 <= i < j < |s| ==> s[i] != s[j]
  }

  lemma {:induction false} SumAppend<T>(a: seq<T>, b: seq<T>, f: T -> int)
    ensures Sum(a + b, f) == Sum(a, f) + Sum(b, f)
  {
    if a == [] {
      assert a + b == b;
    } else {
      assert (a + b)[1..] == a[1..] + b;
      SumAppend(a[1..], b, f);
    }
  }

  lemma {:induction false} RealSumAppend<T>(a: seq<T>, b: seq<T>, f: T -> real)
    ensures RealSum(a + b, f) == RealSum(a, f) + RealSum(b, f)
  {
    if a == [] {
      assert a + b == b;
    } else {
      assert (a + b)[1..] == a[1..] + b;
      RealSumAppend(a[1..], b, f);
    }
  }

  function Without<T>(s: seq<T>, i: nat): seq<T>
    requires i < |s|
  {
    s[..i] + s[i + 1..]
  }

  lemma WithoutMultiset<T>(s: seq<T>, i: nat)
    requires i < |s|
    ensures multiset(Without(s, i)) == multiset(s) - multiset{s[i]}
  {
    assert s == s[..i] + [s[i]] + s[i + 1..];
  }

  lemma FirstOccurs<T>(a: seq<T>, b: seq<T>) returns (i: nat)
    requires a != [] && multiset(a) == multiset(b)
    ensures i < |b| && b[i] == a[0] && multiset(a[1..]) == multiset(Without(b, i))
  {
    assert a[0] in multiset(a);
    assert a[0] in b;
    i :| i < |b| && b[i] == a[0];
    WithoutMultiset(b, i);
    assert a == [a[0]] + a[1..];
  }

  lemma {:induction false} SumPermutation<T>(a: seq<T>, b: seq<T>, f: T -> int)
    requires multiset(a) == multiset(b)
    ensures Sum(a, f) == Sum(b, f)
  {
    if a == [] {
      assert |multiset(b)| == 0;
    } else {
      var i := FirstOccurs(a, b);
      SumPermutation(a[1..], Without(b, i), f);
      assert b == b[..i] + ([b[i]] + b[i + 1..]);
      SumAppend(b[..i], [b[i]] + b[i + 1..], f);
      SumAppend(b[..i], b[i + 1..], f);
    }
  }

  lemma {:induction false} RealSumPermutation<T>(a: seq<T>, b: seq<T>, f: T -> real)
    requires multiset(a) == multiset(b)
    ensures RealSum(a, f) == RealSum(b, f)
  {
    if a == [] {
      assert |multiset(b)| == 0;
    } else {
      var i := FirstOccurs(a, b);
      RealSumPermutation(a[1..], Without(b, i), f);
      assert b == b[..i] + ([b[i]] + b[i + 1..]);
      RealSumAppend(b[..i], [b[i]] + b[i + 1..], f);
      RealSumAppend(b[..i], b[i + 1..], f);
    }
  }

  // ----- sorting -----

  /** Insert before the first element with an equal or larger key, so that elements with equal keys keep their order. */
  function Insert<T>(x: T, s: seq<T>, key: T -> real): seq<T> {
    if s == [] || key(x) <= key(s[0]) then [x] + s
    else [s[0]] + Insert(x, s[1..], key)
  }

  function Sort<T>(s: seq<T>, key: T -> real): seq<T> {
    if s == [] then [] else Insert(s[0], Sort(s[1..], key), key)
  }

  predicate Ascending<T>(s: seq<T>, key: T -> real) {
    forall i, j :: 0 <= i <= j < |s| ==> key(s[i]) <= key(s[j])
  }

  lemma {:induction false} InsertFacts<T>(x: T, s: seq<T>, key: T -> real)
    ensures multiset(Insert(x, s, key)) == multiset(s) + multiset{x}
    ensures |Insert(x, s, key)| == |s| + 1
    ensures Ascending(s, key) ==> Ascending(Insert(x, s, key), key)
  {
    if s == [] || key(x) <= key(s[0]) {
    } else {
      InsertFacts(x, s[1..], key);
      assert s == [s[0]] + s[1..];
      if Ascending(s, key) {
        var rest := Insert(x, s[1..], key);
        forall i | 0 <= i < |rest|
          ensures key(s[0]) <= key(rest[i])
        {
          assert rest[i] in multiset(rest);
          assert rest[i] == x || rest[i] in s[1..];
        }
      }
    }
  }

  /** The sort is ascending and a permutation. */
  lemma {:induction false} SortFacts<T>(s: seq<T>, key: T -> real)
    ensures multiset(Sort(s, key)) == multiset(s)
    ensures |Sort(s, key)| == |s|
    ensures Ascending(Sort(s, key), key)
  {
    if s != [] {
      SortFacts(s[1..], key);
      InsertFacts(s[0], Sort(s[1..], key), key);
      assert s == [s[0]] + s[1..];
    }
  }

  // ----- subsequences -----

  /** r holds the elements of s at the positions `at`, which ascend. */
  predicate Selects<T(==)>(r: seq<T>, s: seq<T>, at: seq<nat>) {
    && |r| == |at|
    && (forall i, j :: 0 <= i < j < |at| ==> at[i] < at[j])
    && forall i :: 0 <= i < |at| ==> at[i] < |s| && r[i] == s[at[i]]
  }

  lemma SelectsMore<T>(r: seq<T>, s: seq<T>, at: seq<nat>, x: T)
    requires Selects(r, s, at)
    ensures Selects(r, s + [x], at)
    ensures Selects(r + [x], s + [x], at + [|s|])
    ensures |s| !in at && forall i: nat :: i in at + [|s|] <==> i in at || i == |s|
  {
    var more := at + [|s|];
    forall i, j | 0 <= i < j < |more|
      ensures more[i] < more[j]
    {
      if j == |at| {
        assert r[i] == s[at[i]];
      }
    }
    forall i | 0 <= i < |more|
      ensures more[i] < |s + [x]| && (r + [x])[i] == (s + [x])[more[i]]
    {
      if i < |at| {
        assert r[i] == s[at[i]];
      }
    }
    forall i | 0 <= i < |at|
      ensures at[i] != |s|
    {
      assert r[i] == s[at[i]];
    }
  }
}
