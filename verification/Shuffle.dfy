/** The Fisher-Yates shuffle of an array copy. */
module Shuffle {
  import opened Sequences

  function Swap<T>(s: seq<T>, i: nat, j: nat): (r: seq<T>)
    requires i < |s| && j < |s|
    ensures |r| == |s| && r[i] == s[j] && r[j] == s[i]
    ensures forall k :: 0 <= k < |s| && k != i && k != j ==> r[k] == s[k]
  {
    s[i := s[j]][j := s[i]]
  }

  /** Choices for positions |choices| down to 1: the choice for position i is one of 0..i. */
  predicate Choices(choices: seq<nat>) {
    forall t :: 0 <= t < |choices| ==> choices[t] <= |choices| - t
  }

  /** Swap position |choices| with its choice, then go on below it. */
  function Shuffled<T>(s: seq<T>, choices: seq<nat>): (r: seq<T>)
    requires Choices(choices) && |choices| < |s|
    ensures |r| == |s|
    decreases |choices|
  {
    if choices == [] then s
    else
      TailChoices(choices);
      Shuffled(Swap(s, |choices|, choices[0]), choices[1..])
  }

  lemma TailChoices(choices: seq<nat>)
    requires Choices(choices) && choices != []
    ensures Choices(choices[1..])
  {
    forall t | 0 <= t < |choices| - 1
      ensures choices[1..][t] <= |choices| - 1 - t
    {
      assert choices[1..][t] == choices[t + 1];
    }
  }

  // ----- the algorithm -----

  /** A random number drawn for a position picks one of the indices up to it. */
  function Pick(roll: real, i: nat): int {
    (roll * (i + 1) as real).Floor
  }

  predicate Rolls(rolls: seq<real>) {
    forall t :: 0 <= t < |rolls| ==> 0.0 <= rolls[t] < 1.0
  }

  lemma PickInRange(roll: real, i: nat)
    requires 0.0 <= roll < 1.0
    ensures 0 <= Pick(roll, i) <= i
  {
    var n := (i + 1) as real;
    assert 0.0 <= roll * n;
    assert roll * n < n by {
      assert (1.0 - roll) * n > 0.0;
    }
  }

  /** The picks of the rolls, for positions |rolls| down to 1. */
  function Picks(rolls: seq<real>): (r: seq<nat>)
    requires Rolls(rolls)
    ensures |r| == |rolls| && Choices(r)
    ensures forall t :: 0 <= t < |rolls| ==> r[t] == Pick(rolls[t], |rolls| - t)
  {
    if rolls == [] then []
    else
      PickInRange(rolls[0], |rolls|);
      [Pick(rolls[0], |rolls|)] + Picks(rolls[1..])
  }

  method SwapElements<T>(a: array<T>, i: nat, j: nat)
    requires i < a.Length && j < a.Length
    modifies a
    ensures a[..] == Swap(old(a[..]), i, j)
  {
    a[i], a[j] := a[j], a[i];
  }

  /** Shuffle a copy in place, drawing one roll for each position from the last down to the second. */
  method ShuffleArray<T>(input: array<T>, rolls: seq<real>) returns (shuffled: array<T>)
    requires Rolls(rolls) && |rolls| == if input.Length == 0 then 0 else input.Length - 1
    ensures fresh(shuffled) && input[..] == old(input[..])
    ensures shuffled[..] == if input.Length == 0 then [] else Shuffled(old(input[..]), Picks(rolls))
  {
    shuffled := new T[input.Length](k requires 0 <= k < input.Length reads input => input[k]);
    assert shuffled[..] == input[..];
    if input.Length == 0 {
      return;
    }
    ghost var picks := Picks(rolls);
    ghost var rest := picks;
    var i := input.Length - 1;
    while i != 0
      invariant 0 <= i < input.Length && input[..] == old(input[..])
      invariant rest == picks[|rolls| - i..] && Choices(rest)
      invariant Shuffled(shuffled[..], rest) == Shuffled(old(input[..]), picks)
      decreases i
    {
      var j := Pick(rolls[|rolls| - i], i);
      assert j == rest[0] <= i;
      TailChoices(rest);
      SwapElements(shuffled, i, j);
      i, rest := i - 1, rest[1..];
    }
  }

  // ----- the swaps, one by one -----

  /** b is a with positions i and j exchanged. */
  predicate Exchanged<T(==)>(a: seq<T>, b: seq<T>, i: int, j: int) {
    && |a| == |b| && 0 <= i < |a| && 0 <= j < |a|
    && b[i] == a[j] && b[j] == a[i]
    && forall k :: 0 <= k < |a| && k != i && k != j ==> b[k] == a[k]
  }

  /** The t-th roll exchanges the last position not yet dealt with and the one it picks among those up to it. */
  predicate ExchangesAt<T(==)>(states: seq<seq<T>>, rolls: seq<real>, t: int)
    requires 0 <= t < |rolls| && |states| == |rolls| + 1
  {
    var i := |rolls| - t;
    Exchanged(states[t], states[t + 1], i, (rolls[t] * (i + 1) as real).Floor)
  }

  /** The result comes about by one exchange for each roll. */
  lemma {:induction false} ShuffleExchangesInTurn<T>(s: seq<T>, rolls: seq<real>) returns (states: seq<seq<T>>)
    requires Rolls(rolls) && |rolls| < |s|
    ensures |states| == |rolls| + 1 && states[0] == s && states[|rolls|] == Shuffled(s, Picks(rolls))
    ensures forall t :: 0 <= t < |rolls| ==> ExchangesAt(states, rolls, t)
    decreases |rolls|
  {
    states := [s];
    if rolls != [] {
      var n := |rolls|;
      PickInRange(rolls[0], n);
      var next := Swap(s, n, Pick(rolls[0], n));
      var rest := ShuffleExchangesInTurn(next, rolls[1..]);
      states := [s] + rest;
      assert Picks(rolls)[1..] == Picks(rolls[1..]);
      assert ExchangesAt(states, rolls, 0);
      forall t | 0 < t < n
        ensures ExchangesAt(states, rolls, t)
      {
        ExchangesLater(s, rest, rolls, t);
      }
    }
  }

  lemma ExchangesLater<T>(s: seq<T>, rest: seq<seq<T>>, rolls: seq<real>, t: int)
    requires 0 < t < |rolls| == |rest| && ExchangesAt(rest, rolls[1..], t - 1)
    ensures ExchangesAt([s] + rest, rolls, t)
  {
    assert rolls[t] == rolls[1..][t - 1];
    assert ([s] + rest)[t] == rest[t - 1] && ([s] + rest)[t + 1] == rest[t];
  }

  // ----- the bijection -----

  lemma SwapKeepsMultiset<T>(s: seq<T>, i: nat, j: nat)
    requires i < |s| && j < |s|
    ensures multiset(Swap(s, i, j)) == multiset(s)
  {
  }

  /** Any choices permute any sequence. */
  lemma {:induction false} ShuffledPermutes<T>(s: seq<T>, choices: seq<nat>)
    requires Choices(choices) && |choices| < |s|
    ensures multiset(Shuffled(s, choices)) == multiset(s)
    decreases |choices|
  {
    if choices != [] {
      TailChoices(choices);
      SwapKeepsMultiset(s, |choices|, choices[0]);
      ShuffledPermutes(Swap(s, |choices|, choices[0]), choices[1..]);
    }
  }

  /** Positions above the first one swapped are left alone. */
  lemma {:induction false} ShuffledKeepsAbove<T>(s: seq<T>, choices: seq<nat>, k: nat)
    requires Choices(choices) && |choices| < k < |s|
    ensures Shuffled(s, choices)[k] == s[k]
    decreases |choices|
  {
    if choices != [] {
      TailChoices(choices);
      ShuffledKeepsAbove(Swap(s, |choices|, choices[0]), choices[1..], k);
    }
  }

  lemma SwapKeepsDistinct<T>(s: seq<T>, i: nat, j: nat)
    requires i < |s| && j < |s| && Distinct(s)
    ensures Distinct(Swap(s, i, j))
  {
  }

  /** The element chosen for the top position ends there. */
  lemma TopIsChosen<T>(s: seq<T>, choices: seq<nat>)
    requires Choices(choices) && 0 < |choices| < |s|
    ensures Shuffled(s, choices)[|choices|] == s[choices[0]]
  {
    TailChoices(choices);
    ShuffledKeepsAbove(Swap(s, |choices|, choices[0]), choices[1..], |choices|);
  }

  /** Different choices give different orders. */
  lemma {:induction false} ChoicesAreUnique<T>(s: seq<T>, a: seq<nat>, b: seq<nat>)
    requires Distinct(s) && Choices(a) && Choices(b) && |a| == |b| < |s|
    requires Shuffled(s, a) == Shuffled(s, b)
    ensures a == b
    decreases |a|
  {
    if a != [] {
      TopIsChosen(s, a);
      TopIsChosen(s, b);
      assert a[0] == b[0];
      TailChoices(a);
      TailChoices(b);
      SwapKeepsDistinct(s, |a|, a[0]);
      ChoicesAreUnique(Swap(s, |a|, a[0]), a[1..], b[1..]);
      assert a == [a[0]] + a[1..] && b == [b[0]] + b[1..];
    }
  }

  function IndexOf<T(==)>(s: seq<T>, x: T): (i: nat)
    requires x in s
    ensures i < |s| && s[i] == x
  {
    if s[0] == x then 0 else 1 + IndexOf(s[1..], x)
  }

  /** s and p hold the same elements, and already agree above position n. */
  predicate Reorders<T(==)>(s: seq<T>, p: seq<T>, n: nat) {
    && |s| == |p| && n < |s| && Distinct(s)
    && (forall k :: n < k < |s| ==> s[k] == p[k])
    && (forall k :: 0 <= k <= n ==> p[k] in s[..n + 1])
    && Distinct(p)
  }

  lemma SwapReorders<T>(s: seq<T>, p: seq<T>, n: nat)
    requires n > 0 && Reorders(s, p, n)
    ensures Reorders(Swap(s, n, IndexOf(s[..n + 1], p[n])), p, n - 1)
  {
    var j := IndexOf(s[..n + 1], p[n]);
    var r := Swap(s, n, j);
    assert r[n] == p[n];
    SwapKeepsDistinct(s, n, j);
    forall k | 0 <= k <= n - 1
      ensures p[k] in r[..n]
    {
      var m :| 0 <= m < n + 1 && s[..n + 1][m] == p[k];
      assert p[k] != p[n];
      assert m != j;
      var at := if m == n then j else m;
      assert at < n && r[at] == p[k];
      assert r[..n][at] == p[k];
    }
  }

  /** The choices that lead from s to p. */
  function ChoicesFor<T(==)>(s: seq<T>, p: seq<T>, n: nat): (choices: seq<nat>)
    requires Reorders(s, p, n)
    ensures |choices| == n && Choices(choices)
    decreases n
  {
    if n == 0 then []
    else
      var j := IndexOf(s[..n + 1], p[n]);
      SwapReorders(s, p, n);
      [j] + ChoicesFor(Swap(s, n, j), p, n - 1)
  }

  lemma {:induction false} ChoicesForLead<T>(s: seq<T>, p: seq<T>, n: nat)
    requires Reorders(s, p, n)
    ensures Shuffled(s, ChoicesFor(s, p, n)) == p
    decreases n
  {
    var choices := ChoicesFor(s, p, n);
    if n == 0 {
      assert s[0] == p[0] by {
        assert p[0] in s[..1];
      }
      assert s == p;
    } else {
      var j := IndexOf(s[..n + 1], p[n]);
      SwapReorders(s, p, n);
      ChoicesForLead(Swap(s, n, j), p, n - 1);
      assert choices[1..] == ChoicesFor(Swap(s, n, j), p, n - 1);
    }
  }

  lemma PermutationReorders<T>(s: seq<T>, p: seq<T>)
    requires s != [] && Distinct(s) && multiset(p) == multiset(s)
    ensures Reorders(s, p, |s| - 1)
  {
    assert |p| == |multiset(p)| == |multiset(s)| == |s|;
    assert s[..|s|] == s;
    forall k | 0 <= k < |p|
      ensures p[k] in s
    {
      assert p[k] in multiset(p);
    }
    forall i, j | 0 <= i < j < |p|
      ensures p[i] != p[j]
    {
      if p[i] == p[j] {
        Twice(p, i, j);
        Once(s, p[i]);
        assert false;
      }
    }
  }

  lemma Twice<T>(p: seq<T>, i: nat, j: nat)
    requires i < j < |p| && p[i] == p[j]
    ensures multiset(p)[p[i]] >= 2
  {
    assert p == p[..j] + [p[j]] + p[j + 1..];
    assert p[..j][i] == p[i];
    assert p[i] in multiset(p[..j]);
  }

  lemma {:induction false} Once<T>(s: seq<T>, x: T)
    requires Distinct(s)
    ensures multiset(s)[x] <= 1
  {
    if s != [] {
      Once(s[1..], x);
      assert s == [s[0]] + s[1..];
      if x == s[0] {
        assert x !in s[1..];
        assert x !in multiset(s[1..]);
      }
    }
  }

  /** The choices, one for each position but the first, turn s into p. */
  predicate LeadsTo<T(==)>(s: seq<T>, choices: seq<nat>, p: seq<T>) {
    Choices(choices) && |choices| == |s| - 1 && Shuffled(s, choices) == p
  }

  /**
   * For distinct elements, choice sequences and permutations correspond one to one: every choice sequence
   * gives a permutation, and every permutation comes from exactly one choice sequence.
   */
  lemma ShuffleIsBijection<T>(s: seq<T>, p: seq<T>)
    requires s != [] && Distinct(s)
    ensures multiset(p) == multiset(s) <==> exists choices :: LeadsTo(s, choices, p)
    ensures forall a, b :: LeadsTo(s, a, p) && LeadsTo(s, b, p) ==> a == b
  {
    if multiset(p) == multiset(s) {
      PermutationReorders(s, p);
      ChoicesForLead(s, p, |s| - 1);
      assert LeadsTo(s, ChoicesFor(s, p, |s| - 1), p);
    }
    forall choices | LeadsTo(s, choices, p)
      ensures multiset(p) == multiset(s)
    {
      ShuffledPermutes(s, choices);
    }
    forall a, b | LeadsTo(s, a, p) && LeadsTo(s, b, p)
      ensures a == b
    {
      ChoicesAreUnique(s, a, b);
    }
  }

  /** The roll for position i lies in interval j of i + 1 equal ones. */
  predicate InInterval(roll: real, i: nat, j: nat) {
    j as real <= roll * (i + 1) as real < j as real + 1.0
  }

  lemma PickIsUniform(roll: real, i: nat, j: nat)
    ensures Pick(roll, i) == j <==> InInterval(roll, i, j)
  {
  }

  /**
   * A permutation comes up exactly when the roll for each position i falls in one interval of width
   * 1 / (i + 1), so every order has the same share of the rolls.
   */
  lemma EachOrderIsEquallyLikely<T>(s: seq<T>, p: seq<T>, rolls: seq<real>)
    requires s != [] && Distinct(s) && multiset(p) == multiset(s) && Rolls(rolls) && |rolls| == |s| - 1
    ensures Reorders(s, p, |s| - 1)
    ensures var choices := ChoicesFor(s, p, |s| - 1);
            Shuffled(s, Picks(rolls)) == p <==>
            forall t :: 0 <= t < |rolls| ==> InInterval(rolls[t], |rolls| - t, choices[t])
  {
    PermutationReorders(s, p);
    ChoicesForLead(s, p, |s| - 1);
    var choices, picks := ChoicesFor(s, p, |s| - 1), Picks(rolls);
    if Shuffled(s, picks) == p {
      ChoicesAreUnique(s, picks, choices);
    }
    forall t | 0 <= t < |rolls|
      ensures picks[t] == choices[t] <==> InInterval(rolls[t], |rolls| - t, choices[t])
    {
      PickIsUniform(rolls[t], |rolls| - t, choices[t]);
    }
    if forall t :: 0 <= t < |rolls| ==> InInterval(rolls[t], |rolls| - t, choices[t]) {
      assert picks == choices;
    }
  }
}
