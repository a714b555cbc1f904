/** A percentile of token values, with linear interpolation between neighbours. */
module Percentile {
  import opened Sequences

  function Ordered(tokens: seq<real>): (r: seq<real>)
    ensures |r| == |tokens| && Ascending(r, Same) && multiset(r) == multiset(tokens)
  {
    SortFacts(tokens, Same);
    Sort(tokens, Same)
  }

  function Lerp(low: real, high: real, adjust: real): real {
    low * (1.0 - adjust) + high * adjust
  }

  /** The value at a position in range; past the last pair of neighbours it is the element itself. */
  function Between(values: seq<real>, start: real): real
    requires 0.0 <= start && start.Floor < |values|
  {
    var belowIndex := start.Floor;
    var stopIndex := belowIndex + 1;
    if stopIndex >= |values| then values[belowIndex]
    else Lerp(values[belowIndex], values[stopIndex], start - belowIndex as real)
  }

  function Position(count: nat, above: real): real {
    (count - 1) as real * above
  }

  lemma PartIsLess(n: real, part: real)
    requires n > 0.0 && part < 1.0
    ensures n * part < n
  {
    var rest := 1.0 - part;
    assert n * rest > 0.0;
    assert n * (part + rest) == n * part + n * rest;
  }

  lemma PositionInRange(count: nat, above: real)
    requires count > 0 && 0.0 <= above < 1.0
    ensures 0.0 <= Position(count, above)
    ensures Position(count, above) < (count - 1) as real || count == 1
    ensures 0 <= Position(count, above).Floor < count
  {
    var n := (count - 1) as real;
    assert n * above >= 0.0;
    if count > 1 {
      PartIsLess(n, above);
    }
  }

  function Top(above: real, tokens: seq<real>): real {
    if tokens == [] then 0.0
    else
      var values := Ordered(tokens);
      if above <= 0.0 then values[0]
      else if above >= 1.0 then values[|values| - 1]
      else
        PositionInRange(|values|, above);
        Between(values, Position(|values|, above))
  }

  // ----- interpolation -----

  lemma LerpIsStep(low: real, high: real, f: real)
    ensures Lerp(low, high, f) == low + (high - low) * f
  {
  }

  lemma ProductNonNegative(x: real, y: real)
    requires x >= 0.0 && y >= 0.0
    ensures x * y >= 0.0
  {
  }

  lemma LerpMonotone(low: real, high: real, f: real, g: real)
    requires low <= high && f <= g
    ensures Lerp(low, high, f) <= Lerp(low, high, g)
  {
    LerpIsStep(low, high, f);
    LerpIsStep(low, high, g);
    ProductNonNegative(high - low, g - f);
    assert (high - low) * g == (high - low) * f + (high - low) * (g - f);
  }

  lemma LerpBounds(low: real, high: real, f: real)
    requires low <= high && 0.0 <= f <= 1.0
    ensures low <= Lerp(low, high, f) <= high
  {
    LerpMonotone(low, high, 0.0, f);
    LerpMonotone(low, high, f, 1.0);
    LerpIsStep(low, high, 0.0);
    LerpIsStep(low, high, 1.0);
  }

  lemma LerpDominates(low: real, high: real, low': real, high': real, f: real)
    requires low <= low' && high <= high' && 0.0 <= f <= 1.0
    ensures Lerp(low, high, f) <= Lerp(low', high', f)
  {
    ProductNonNegative(low' - low, 1.0 - f);
    ProductNonNegative(high' - high, f);
    assert low' * (1.0 - f) == low * (1.0 - f) + (low' - low) * (1.0 - f);
    assert high' * f == high * f + (high' - high) * f;
  }

  /** The value at a position lies between the two order statistics around it. */
  lemma BetweenNeighbours(values: seq<real>, start: real)
    requires Ascending(values, Same) && 0.0 <= start && start.Floor < |values|
    ensures values[start.Floor] <= Between(values, start)
    ensures Between(values, start) <=
            values[if start.Floor + 1 < |values| then start.Floor + 1 else start.Floor]
  {
    var k := start.Floor;
    if k + 1 < |values| {
      assert Same(values[k]) <= Same(values[k + 1]);
      LerpBounds(values[k], values[k + 1], start - k as real);
    }
  }

  lemma BetweenMonotone(values: seq<real>, x: real, y: real)
    requires Ascending(values, Same) && 0.0 <= x <= y && y.Floor < |values|
    ensures Between(values, x) <= Between(values, y)
  {
    var j, k := x.Floor, y.Floor;
    assert j <= k;
    BetweenNeighbours(values, x);
    BetweenNeighbours(values, y);
    if j == k {
      if k + 1 < |values| {
        assert Same(values[k]) <= Same(values[k + 1]);
        LerpMonotone(values[k], values[k + 1], x - k as real, y - k as real);
      }
    } else {
      assert Same(values[j + 1]) <= Same(values[k]);
    }
  }

  // ----- order statistics -----

  /**
   * Inside the range the percentile lies between two adjacent order statistics, and the exit for a range at
   * the top is taken only for a single element.
   */
  lemma TopBetweenOrderStatistics(above: real, tokens: seq<real>)
    requires tokens != [] && 0.0 < above < 1.0
    ensures var values, k := Ordered(tokens), ((|tokens| - 1) as real * above).Floor;
            && 0 <= k < |tokens|
            && (k + 1 >= |tokens| <==> |tokens| == 1)
            && (|tokens| == 1 ==> Top(above, tokens) == tokens[0])
            && (|tokens| > 1 ==> values[k] <= Top(above, tokens) <= values[k + 1])
  {
    PositionInRange(|tokens|, above);
    BetweenNeighbours(Ordered(tokens), Position(|tokens|, above));
    if |tokens| == 1 {
      assert Ordered(tokens)[0] in multiset(tokens);
    }
  }

  /** The exits give the least and the greatest token. */
  lemma TopAtTheEnds(above: real, tokens: seq<real>)
    requires tokens != []
    ensures above <= 0.0 ==> Top(above, tokens) in tokens && forall x :: x in tokens ==> Top(above, tokens) <= x
    ensures above >= 1.0 ==> Top(above, tokens) in tokens && forall x :: x in tokens ==> x <= Top(above, tokens)
  {
    var values := Ordered(tokens);
    assert values[0] in multiset(tokens) && values[|values| - 1] in multiset(tokens);
    forall x | x in tokens
      ensures values[0] <= x <= values[|values| - 1]
    {
      assert x in multiset(values);
      var i :| 0 <= i < |values| && values[i] == x;
      assert Same(values[0]) <= Same(values[i]) <= Same(values[|values| - 1]);
    }
  }

  lemma PositionMonotone(count: nat, a: real, b: real)
    requires count > 0 && a <= b
    ensures Position(count, a) <= Position(count, b)
  {
    var n := (count - 1) as real;
    ProductNonNegative(n, b - a);
    assert n * b == n * a + n * (b - a);
  }

  lemma TopWithinRange(above: real, tokens: seq<real>)
    requires tokens != []
    ensures Ordered(tokens)[0] <= Top(above, tokens) <= Ordered(tokens)[|tokens| - 1]
  {
    var values := Ordered(tokens);
    assert Same(values[0]) <= Same(values[|values| - 1]);
    if 0.0 < above < 1.0 {
      TopBetweenOrderStatistics(above, tokens);
      var k := Position(|tokens|, above).Floor;
      assert Same(values[0]) <= Same(values[k]) <= Same(values[|values| - 1]);
      if k + 1 < |values| {
        assert Same(values[k + 1]) <= Same(values[|values| - 1]);
      } else {
        assert values[0] in multiset(tokens);
      }
    }
  }

  /** A higher percentile is never smaller, across all exits. */
  lemma TopMonotoneInAbove(a: real, b: real, tokens: seq<real>)
    requires a <= b
    ensures Top(a, tokens) <= Top(b, tokens)
  {
    if tokens != [] {
      TopWithinRange(a, tokens);
      TopWithinRange(b, tokens);
      if 0.0 < a && b < 1.0 {
        PositionInRange(|tokens|, a);
        PositionInRange(|tokens|, b);
        PositionMonotone(|tokens|, a, b);
        BetweenMonotone(Ordered(tokens), Position(|tokens|, a), Position(|tokens|, b));
      }
    }
  }

  lemma PositionEnds(count: nat, above: real)
    requires count > 1
    ensures above <= 0.0 ==> Position(count, above) <= 0.0
    ensures Position(count, above) >= (count - 1) as real ==> above >= 1.0
    ensures above >= 1.0 ==> Position(count, above) >= (count - 1) as real
    ensures Position(count, above) <= 0.0 ==> above <= 0.0
  {
    var n := (count - 1) as real;
    if above <= 0.0 {
      ProductNonNegative(n, -above);
    } else {
      assert n * above > 0.0;
    }
    if above >= 1.0 {
      ProductNonNegative(n, above - 1.0);
      assert n * above == n * (above - 1.0) + n;
    } else {
      assert n * (1.0 - above) > 0.0;
      assert n * above == n - n * (1.0 - above);
    }
  }

  /**
   * On every stretch between two neighbouring ranks, both ends and all exits included, the percentile is the
   * straight line between the two order statistics.
   */
  lemma TopInterpolates(above: real, tokens: seq<real>, k: nat)
    requires k + 1 < |tokens| && k as real <= (|tokens| - 1) as real * above <= k as real + 1.0
    ensures var low, high := Ordered(tokens)[k], Ordered(tokens)[k + 1];
            Top(above, tokens) == low + (high - low) * ((|tokens| - 1) as real * above - k as real)
  {
    var values, start := Ordered(tokens), Position(|tokens|, above);
    PositionEnds(|tokens|, above);
    LerpIsStep(values[k], values[k + 1], start - k as real);
    if 0.0 < above < 1.0 {
      PositionInRange(|tokens|, above);
      if start == k as real + 1.0 {
        assert start.Floor == k + 1;
        if k + 2 < |tokens| {
          LerpIsStep(values[k + 1], values[k + 2], 0.0);
        }
      } else {
        assert start.Floor == k;
      }
    }
  }

  /** No tokens have the percentile 0. */
  lemma TopOfNone(above: real)
    ensures Top(above, []) == 0.0
  {
  }

  /** The order statistics are the tokens, ascending. */
  lemma OrderStatistics(tokens: seq<real>)
    ensures multiset(Ordered(tokens)) == multiset(tokens)
    ensures forall i, j :: 0 <= i < j < |tokens| ==> Ordered(tokens)[i] <= Ordered(tokens)[j]
  {
    forall i, j | 0 <= i < j < |tokens|
      ensures Ordered(tokens)[i] <= Ordered(tokens)[j]
    {
      assert Same(Ordered(tokens)[i]) <= Same(Ordered(tokens)[j]);
    }
  }

  // ----- permutations and domination -----

  lemma LeastIsFirst(s: seq<real>, t: seq<real>)
    requires s != [] && Ascending(s, Same) && multiset(s) == multiset(t) && t != []
    ensures s[0] <= t[0]
  {
    assert t[0] in multiset(s);
    var j :| 0 <= j < |s| && s[j] == t[0];
    assert Same(s[0]) <= Same(s[j]);
  }

  lemma TailMultiset(s: seq<real>)
    requires s != []
    ensures multiset(s[1..]) == multiset(s) - multiset{s[0]}
  {
    assert s == [s[0]] + s[1..];
  }

  lemma {:induction false} AscendingIsUnique(s: seq<real>, t: seq<real>)
    requires Ascending(s, Same) && Ascending(t, Same) && multiset(s) == multiset(t)
    ensures s == t
  {
    assert |s| == |multiset(s)| == |multiset(t)| == |t|;
    if s != [] {
      LeastIsFirst(s, t);
      LeastIsFirst(t, s);
      TailMultiset(s);
      TailMultiset(t);
      AscendingIsUnique(s[1..], t[1..]);
      assert s == [s[0]] + s[1..] && t == [t[0]] + t[1..];
    }
  }

  /** The percentile does not depend on the order of the tokens. */
  lemma TopIgnoresOrder(above: real, tokens: seq<real>, tokens': seq<real>)
    requires multiset(tokens) == multiset(tokens')
    ensures Top(above, tokens) == Top(above, tokens')
  {
    assert |tokens| == |multiset(tokens)| == |multiset(tokens')| == |tokens'|;
    AscendingIsUnique(Ordered(tokens), Ordered(tokens'));
  }

  predicate Dominated(s: seq<real>, t: seq<real>) {
    |s| == |t| && forall i :: 0 <= i < |s| ==> s[i] <= t[i]
  }

  lemma InsertFirst(x: real, s: seq<real>)
    requires s != [] ==> x <= s[0]
    ensures Insert(x, s, Same) == [x] + s
  {
  }

  lemma DominatedTail(s: seq<real>, t: seq<real>)
    requires Dominated(s, t) && s != [] && Ascending(s, Same) && Ascending(t, Same)
    ensures Dominated(s[1..], t[1..]) && Ascending(s[1..], Same) && Ascending(t[1..], Same)
    ensures Insert(s[0], s[1..], Same) == s && Insert(t[0], t[1..], Same) == t
  {
    if |s| > 1 {
      assert Same(s[0]) <= Same(s[1]) && Same(t[0]) <= Same(t[1]);
    }
    InsertFirst(s[0], s[1..]);
    InsertFirst(t[0], t[1..]);
    assert s == [s[0]] + s[1..] && t == [t[0]] + t[1..];
  }

  lemma DominatedCons(x: real, y: real, s: seq<real>, t: seq<real>)
    requires x <= y && Dominated(s, t)
    ensures Dominated([x] + s, [y] + t)
  {
  }

  lemma {:induction false} InsertKeepsDominated(x: real, y: real, s: seq<real>, t: seq<real>)
    requires x <= y && Dominated(s, t) && Ascending(s, Same) && Ascending(t, Same)
    ensures Dominated(Insert(x, s, Same), Insert(y, t, Same))
    decreases |s|
  {
    if s != [] {
      DominatedTail(s, t);
      var s', t' := s[1..], t[1..];
      if x <= s[0] && y <= t[0] {
        DominatedCons(x, y, s, t);
      } else if x <= s[0] {
        InsertKeepsDominated(s[0], y, s', t');
        DominatedCons(x, t[0], s, Insert(y, t', Same));
      } else if y <= t[0] {
        InsertKeepsDominated(x, t[0], s', t');
        DominatedCons(s[0], y, Insert(x, s', Same), t);
      } else {
        InsertKeepsDominated(x, y, s', t');
        DominatedCons(s[0], t[0], Insert(x, s', Same), Insert(y, t', Same));
      }
    }
  }

  /** Sorting preserves pointwise domination. */
  lemma {:induction false} SortKeepsDominated(s: seq<real>, t: seq<real>)
    requires Dominated(s, t)
    ensures Dominated(Sort(s, Same), Sort(t, Same))
  {
    if s != [] {
      SortKeepsDominated(s[1..], t[1..]);
      SortFacts(s[1..], Same);
      SortFacts(t[1..], Same);
      InsertKeepsDominated(s[0], t[0], Sort(s[1..], Same), Sort(t[1..], Same));
    }
  }

  /** Raising tokens never lowers the percentile. */
  lemma TopMonotoneInTokens(above: real, tokens: seq<real>, raised: seq<real>)
    requires Dominated(tokens, raised)
    ensures Top(above, tokens) <= Top(above, raised)
  {
    SortKeepsDominated(tokens, raised);
    if tokens != [] && 0.0 < above < 1.0 {
      PositionInRange(|tokens|, above);
      var s, t, start := Ordered(tokens), Ordered(raised), Position(|tokens|, above);
      var k := start.Floor;
      if k + 1 < |s| {
        LerpDominates(s[k], s[k + 1], t[k], t[k + 1], start - k as real);
      }
    }
  }
}
