/** The fees members pay together, and where the tokens of a jointly funded transaction go. */
module FundingFees {
  import opened Sequences
  import opened FundingPsbt

  function SumFees(members: seq<Member>, t: Terms): int {
    if members == [] then 0 else SumFees(members[..|members| - 1], t) + FeeOfLast(members, t)
  }

  function SumPair(members: seq<Member>, count: nat): real {
    if members == [] then 0.0
    else SumPair(members[..|members| - 1], count) + PairSize(members[|members| - 1], count)
  }

  /** How many members list no funding. */
  function Lacking(members: seq<Member>): nat {
    if members == [] then 0
    else Lacking(members[..|members| - 1]) + if members[|members| - 1].funding.None? then 1 else 0
  }

  // ----- arithmetic -----

  lemma NonNegative(d: real, n: real)
    requires d >= 0.0 && n > 0.0
    ensures d * n >= 0.0
    ensures d > 0.0 ==> d * n > 0.0
  {
  }

  lemma Distribute(a: real, b: real, n: real)
    ensures (a + b) * n == a * n + b * n
  {
  }

  /** A product at most `bound` stays so when its first factor shrinks. */
  lemma Shrink(x: real, d: real, n: real, bound: real)
    requires n > 0.0 && d >= 0.0 && (x + d) * n <= bound
    ensures x * n <= bound
  {
    NonNegative(d, n);
    Distribute(x, d, n);
  }

  /** A product with k above `bound` stays so when its first factor grows. */
  lemma Widen(x: real, d: real, n: real, bound: real, k: real)
    requires n > 0.0 && d >= 0.0 && bound < x * n + k
    ensures bound < (x + d) * n + k
  {
    NonNegative(d, n);
    Distribute(x, d, n);
  }

  lemma CeilBounds(x: real)
    ensures x <= Ceil(x) as real < x + 1.0
  {
  }

  /** The fees so far are the charge at the rate, rounded up at most once for each of n members. */
  predicate Brackets(fees: int, charge: real, rate: real, n: nat) {
    charge * rate <= fees as real <= charge * rate + n as real
    && (n > 0 ==> fees as real < charge * rate + n as real)
  }

  lemma BracketsAdd(fees: int, charge: real, rate: real, n: nat, vbytes: int, pair: real)
    requires Brackets(fees, charge, rate, n)
    ensures Brackets(fees + Fee(vbytes, pair, rate), charge + (vbytes as real + pair), rate, n + 1)
  {
    var fee := Fee(vbytes, pair, rate);
    var x := (vbytes as real + pair) * rate;
    Distribute(vbytes as real, pair, rate);
    CeilBounds(x);
    assert x <= fee as real < x + 1.0;
    Distribute(charge, vbytes as real + pair, rate);
  }

  /** n times x, as a sum. */
  function Times(n: nat, x: int): int {
    if n == 0 then 0 else Times(n - 1, x) + x
  }

  lemma {:induction false} TimesIsProduct(n: nat, x: int)
    ensures Times(n, x) as real == x as real * n as real
  {
    if n > 0 {
      TimesIsProduct(n - 1, x);
      Distribute((n - 1) as real, 1.0, x as real);
    }
  }

  // ----- fee coverage -----

  /** The size charged so far: what each member added, its share of the wrapper, and its pair correction. */
  function Charged(members: seq<Member>, t: Terms): real {
    if members == [] then 0.0
    else
      Charged(members[..|members| - 1], t) +
      (AddedBytes(members, t) as real + PairSize(members[|members| - 1], t.count))
  }

  /** The sizes added telescope over the shared transaction. */
  lemma {:induction false} ChargedTelescopes(members: seq<Member>, t: Terms)
    ensures Charged(members, t) ==
            (SizeOf(members) - SizeOf([]) + Times(|members|, t.share)) as real + SumPair(members, t.count)
  {
    if members != [] {
      ChargedTelescopes(members[..|members| - 1], t);
    }
  }

  lemma {:induction false} FeesBracketCharge(members: seq<Member>, t: Terms)
    ensures Brackets(SumFees(members, t), Charged(members, t), t.rate, |members|)
  {
    if members != [] {
      var front := members[..|members| - 1];
      FeesBracketCharge(front, t);
      BracketsAdd(SumFees(front, t), Charged(front, t), t.rate, |front|,
                  AddedBytes(members, t), PairSize(members[|members| - 1], t.count));
    }
  }

  lemma ShareCovers(size: nat, count: nat)
    requires count > 0
    ensures size as real <= Share(size, count) as real * count as real
    ensures Share(size, count) as real * count as real < size as real + count as real
  {
    var q := size as real / count as real;
    assert q * count as real == size as real;
    CeilBounds(q);
    RoundUp(q, Share(size, count) as real, count as real, size as real);
  }

  /** The shares pay for the wrapper, and for less than one byte more per member. */
  lemma ShareBounds(size: nat, count: nat)
    requires count > 0
    ensures size <= Times(count, Share(size, count)) <= size + count - 1
  {
    var shares := Times(count, Share(size, count));
    ShareCovers(size, count);
    TimesIsProduct(count, Share(size, count));
    assert size as real <= shares as real;
    assert shares as real < (size + count) as real;
  }

  lemma AtLeast(q: real, up: real, n: real, total: real)
    requires n > 0.0 && up >= 0.0 && total == q * n
    ensures total <= (q + up) * n
  {
    NonNegative(up, n);
    Distribute(q, up, n);
  }

  lemma LessThan(c: real, down: real, n: real, total: real)
    requires n > 0.0 && down > 0.0 && total == (c + down) * n
    ensures c * n < total
  {
    NonNegative(down, n);
    Distribute(c, down, n);
  }

  lemma RoundUp(q: real, c: real, n: real, total: real)
    requires n > 0.0 && q <= c < q + 1.0 && total == q * n
    ensures total <= c * n
    ensures c * n < total + n
  {
    assert q + (c - q) == c;
    AtLeast(q, c - q, n, total);
    assert c + (q + 1.0 - c) == q + 1.0;
    assert total + n == (q + 1.0) * n by {
      Distribute(q, 1.0, n);
    }
    LessThan(c, q + 1.0 - c, n, total + n);
  }

  /** An empty transaction has ten bytes of wrapper. */
  lemma StartSize()
    ensures SizeOf([]) == 10
  {
  }

  /** The fees are at least the rate for the size, and less than that for n - 1 bytes more plus n tokens. */
  predicate Covers(fees: int, size: real, rate: real, n: nat) {
    size * rate <= fees as real < (size + (n - 1) as real) * rate + n as real
  }

  lemma BracketsCover(fees: int, charge: real, rate: real, n: nat, size: real)
    requires Brackets(fees, charge, rate, n) && n > 0 && rate > 0.0 && size <= charge <= size + (n - 1) as real
    ensures Covers(fees, size, rate, n)
  {
    var high := size + (n - 1) as real;
    assert size + (charge - size) == charge && charge + (high - charge) == high;
    Shrink(size, charge - size, rate, fees as real);
    Widen(charge, high - charge, rate, fees as real, n as real);
  }

  /** The size of the whole transaction, with the pair corrections of all members. */
  function CorrectedSize(members: seq<Member>): real {
    SizeOf(members) as real + SumPair(members, |members|)
  }

  lemma ChargedBounds(members: seq<Member>, t: Terms)
    requires members != [] && t.count == |members| && t.share == Share(10, |members|)
    ensures CorrectedSize(members) <= Charged(members, t) <= CorrectedSize(members) + (|members| - 1) as real
  {
    StartSize();
    ShareBounds(10, |members|);
    ChargedTelescopes(members, t);
  }

  /**
   * Together the members pay at least the rate for the whole transaction with the pair corrections, and less
   * than that rate for at most n - 1 more virtual bytes, plus one token each.
   */
  lemma FeesCoverCharge(members: seq<Member>, capacity: real, rate: real)
    requires members != [] && rate > 0.0
    ensures Covers(SumFees(members, TermsOf(members, capacity, rate)), CorrectedSize(members), rate, |members|)
  {
    var t := TermsOf(members, capacity, rate);
    StartSize();
    FeesBracketCharge(members, t);
    ChargedBounds(members, t);
    BracketsCover(SumFees(members, t), Charged(members, t), rate, |members|, CorrectedSize(members));
  }

  lemma {:induction false} PairTotal(members: seq<Member>, count: nat)
    ensures SumPair(members, count) ==
            43.0 * Lacking(members) as real - if count == 2 then 21.5 * |members| as real else 0.0
  {
    if members != [] {
      PairTotal(members[..|members| - 1], count);
    }
  }

  /** The fees pay the rate for every virtual byte. */
  predicate PaysRate(fees: int, size: int, rate: real) {
    size as real * rate <= fees as real
  }

  lemma CoversPays(fees: int, size: int, corrected: real, rate: real, n: nat)
    requires Covers(fees, corrected, rate, n) && rate > 0.0 && corrected >= size as real
    ensures PaysRate(fees, size, rate)
  {
    assert size as real + (corrected - size as real) == corrected;
    Shrink(size as real, corrected - size as real, rate, fees as real);
  }

  /** The fees cover the size except when both members of a pair list funding. */
  lemma FeesCoverSize(members: seq<Member>, capacity: real, rate: real)
    requires members != [] && rate > 0.0
    requires |members| != 2 || Lacking(members) > 0
    ensures PaysRate(SumFees(members, TermsOf(members, capacity, rate)), SizeOf(members), rate)
  {
    FeesCoverCharge(members, capacity, rate);
    PairNonNegative(members);
    CoversPays(SumFees(members, TermsOf(members, capacity, rate)), SizeOf(members),
               CorrectedSize(members), rate, |members|);
  }

  lemma PairNonNegative(members: seq<Member>)
    requires |members| != 2 || Lacking(members) > 0
    ensures CorrectedSize(members) >= SizeOf(members) as real
  {
    PairTotal(members, |members|);
  }

  function Cost(vbytes: int, pair: real, rate: real): real {
    vbytes as real * rate + pair * rate
  }

  /** What rounding up adds to one fee. */
  function Rounding(vbytes: int, pair: real, rate: real): real {
    Fee(vbytes, pair, rate) as real - Cost(vbytes, pair, rate)
  }

  /** What the members would pay without rounding. */
  function Costs(members: seq<Member>, t: Terms): real {
    if members == [] then 0.0
    else
      Costs(members[..|members| - 1], t) +
      Cost(AddedBytes(members, t), PairSize(members[|members| - 1], t.count), t.rate)
  }

  /** What rounding up adds to the fees of all members. */
  function Roundings(members: seq<Member>, t: Terms): real {
    if members == [] then 0.0
    else
      Roundings(members[..|members| - 1], t) +
      Rounding(AddedBytes(members, t), PairSize(members[|members| - 1], t.count), t.rate)
  }

  lemma RoundingBelow(vbytes: int, pair: real, rate: real)
    ensures 0.0 <= Rounding(vbytes, pair, rate) < 1.0
  {
    CeilBounds(vbytes as real * rate + pair * rate);
  }

  lemma {:induction false} RoundingsBelow(members: seq<Member>, t: Terms)
    ensures 0.0 <= Roundings(members, t) <= |members| as real
    ensures members != [] ==> Roundings(members, t) < |members| as real
  {
    if members != [] {
      RoundingsBelow(members[..|members| - 1], t);
      RoundingBelow(AddedBytes(members, t), PairSize(members[|members| - 1], t.count), t.rate);
    }
  }

  predicate IsScaled(cost: real, charge: real, rate: real) {
    cost == charge * rate
  }

  lemma ScaledAdd(cost: real, charge: real, rate: real, vbytes: int, pair: real, cost': real, charge': real)
    requires IsScaled(cost, charge, rate)
    requires cost' == cost + Cost(vbytes, pair, rate) && charge' == charge + (vbytes as real + pair)
    ensures IsScaled(cost', charge', rate)
  {
    Distribute(vbytes as real, pair, rate);
    Distribute(charge, vbytes as real + pair, rate);
  }

  lemma CostsGrow(members: seq<Member>, t: Terms, vbytes: int, pair: real)
    requires members != []
    requires vbytes == AddedBytes(members, t) && pair == PairSize(members[|members| - 1], t.count)
    ensures Costs(members, t) == Costs(members[..|members| - 1], t) + Cost(vbytes, pair, t.rate)
    ensures Charged(members, t) == Charged(members[..|members| - 1], t) + (vbytes as real + pair)
  {
  }

  lemma {:induction false} CostsAreCharge(members: seq<Member>, t: Terms)
    ensures IsScaled(Costs(members, t), Charged(members, t), t.rate)
  {
    if members != [] {
      var front := members[..|members| - 1];
      var vbytes, pair := AddedBytes(members, t), PairSize(members[|members| - 1], t.count);
      CostsAreCharge(front, t);
      CostsGrow(members, t, vbytes, pair);
      ScaledAdd(Costs(front, t), Charged(front, t), t.rate, vbytes, pair, Costs(members, t), Charged(members, t));
    }
  }

  lemma FeeIsCostAndRounding(vbytes: int, pair: real, rate: real)
    ensures Fee(vbytes, pair, rate) as real == Cost(vbytes, pair, rate) + Rounding(vbytes, pair, rate)
  {
  }

  lemma {:induction false} FeesAreCostsAndRoundings(members: seq<Member>, t: Terms)
    ensures SumFees(members, t) as real == Costs(members, t) + Roundings(members, t)
  {
    if members != [] {
      FeesAreCostsAndRoundings(members[..|members| - 1], t);
      FeeIsCostAndRounding(AddedBytes(members, t), PairSize(members[|members| - 1], t.count), t.rate);
    }
  }

  lemma ScaledPaysIff(fees: int, cost: real, size: int, rate: real, rounding: real)
    requires fees as real == cost + rounding && IsScaled(cost, size as real + -43.0, rate)
    ensures PaysRate(fees, size, rate) <==> 43.0 * rate <= rounding
  {
    Distribute(size as real, -43.0, rate);
  }

  /**
   * At any rate, the fees cover the size exactly outside that case, or when rounding up the two fees happens to
   * make up for 43 virtual bytes; which it cannot once these are worth two tokens.
   */
  lemma FeesCoverSizeIff(members: seq<Member>, capacity: real, rate: real)
    requires members != [] && rate > 0.0
    ensures var t := TermsOf(members, capacity, rate);
            PaysRate(SumFees(members, t), SizeOf(members), rate) <==>
            |members| != 2 || Lacking(members) > 0 || 43.0 * rate <= Roundings(members, t)
    ensures 43.0 * rate >= 2.0 ==>
              (PaysRate(SumFees(members, TermsOf(members, capacity, rate)), SizeOf(members), rate) <==>
               |members| != 2 || Lacking(members) > 0)
  {
    if |members| != 2 || Lacking(members) > 0 {
      FeesCoverSize(members, capacity, rate);
    } else {
      RoundingsBelow(members, TermsOf(members, capacity, rate));
      FundedPairPaysIff(members, capacity, rate);
    }
  }

  lemma FundedPairPaysIff(members: seq<Member>, capacity: real, rate: real)
    requires |members| == 2 && Lacking(members) == 0
    ensures var t := TermsOf(members, capacity, rate);
            PaysRate(SumFees(members, t), SizeOf(members), rate) <==> 43.0 * rate <= Roundings(members, t)
  {
    var t := TermsOf(members, capacity, rate);
    FeesAreCostsAndRoundings(members, t);
    CostsAreCharge(members, t);
    FundedPairCharge(members, capacity, rate);
    ScaledPaysIff(SumFees(members, t), Costs(members, t), SizeOf(members), rate, Roundings(members, t));
  }

  /** Two members share the ten wrapper bytes without rounding. */
  lemma FundedPairCharge(members: seq<Member>, capacity: real, rate: real)
    requires |members| == 2 && Lacking(members) == 0
    ensures Charged(members, TermsOf(members, capacity, rate)) == SizeOf(members) as real + -43.0
  {
    var t := TermsOf(members, capacity, rate);
    StartSize();
    assert Share(10, 2) == 5;
    assert Times(2, 5) == Times(1, 5) + 5 == 10;
    ChargedTelescopes(members, t);
    FundedPairSize(members);
  }

  lemma FundedPairSize(members: seq<Member>)
    requires |members| == 2 && Lacking(members) == 0
    ensures CorrectedSize(members) == SizeOf(members) as real - 43.0
  {
    PairTotal(members, 2);
  }

  // ----- the measured transaction is the assembled one -----

  function ScriptsOf(outputs: seq<Output>): seq<string> {
    if outputs == [] then [] else [outputs[0].script] + ScriptsOf(outputs[1..])
  }

  lemma {:induction false} ScriptsAppend(a: seq<Output>, b: seq<Output>)
    ensures ScriptsOf(a + b) == ScriptsOf(a) + ScriptsOf(b)
  {
    if a == [] {
      assert a + b == b;
    } else {
      assert (a + b)[1..] == a[1..] + b;
      ScriptsAppend(a[1..], b);
    }
  }

  lemma {:induction false} CapacityScripts(scripts: seq<string>, capacity: real)
    ensures ScriptsOf(WithScript(Capacities(scripts, capacity))) == NotEmpty(scripts)
  {
    if scripts != [] {
      CapacityScripts(scripts[1..], capacity);
      var first, rest := Output(scripts[0], capacity), Capacities(scripts[1..], capacity);
      assert Capacities(scripts, capacity)[1..] == rest;
      if scripts[0] != "" {
        assert ([first] + WithScript(rest))[1..] == WithScript(rest);
      } else {
        assert [] + WithScript(rest) == WithScript(rest);
      }
    }
  }

  lemma MemberScripts(member: Member, fee: int, t: Terms)
    ensures multiset(ScriptsOf(WithScript(MemberOutputs(member, fee, t)))) == multiset(MemberOuts(member))
  {
    var funding := Capacities(FundingScripts(member), t.capacity);
    var change := Output(if member.change.Some? then member.change.value else "", ChangeTokens(member, fee, t));
    assert MemberOutputs(member, fee, t) == funding + [change];
    WithScriptAppend(funding, [change]);
    ScriptsAppend(WithScript(funding), WithScript([change]));
    CapacityScripts(FundingScripts(member), t.capacity);
    ChangeScript(member, change);
  }

  lemma ChangeScript(member: Member, change: Output)
    requires change.script == if member.change.Some? then member.change.value else ""
    ensures MemberOuts(member) == ScriptsOf(WithScript([change])) + NotEmpty(FundingScripts(member))
  {
    var scripts := FundingScripts(member);
    if member.change.None? {
      assert [] + scripts == scripts;
    } else {
      assert ([member.change.value] + scripts)[1..] == scripts;
    }
  }

  /** The scripts measured and the scripts put out are the same multiset. */
  lemma {:induction false} MeasuredScripts(members: seq<Member>, t: Terms)
    ensures multiset(ScriptsOf(WithScript(AllOutputs(members, t)))) == multiset(TxOuts(members))
  {
    if members != [] {
      var front, last := AllOutputs(members[..|members| - 1], t), OutputsOfLast(members, t);
      MeasuredScripts(members[..|members| - 1], t);
      MemberScripts(members[|members| - 1], FeeOfLast(members, t), t);
      WithScriptAppend(front, last);
      ScriptsAppend(WithScript(front), WithScript(last));
    }
  }

  function ScriptSize(output: Output): int {
    OutputSize(output.script)
  }

  lemma {:induction false} ScriptSizes(outputs: seq<Output>)
    ensures Sum(ScriptsOf(outputs), OutputSize) == Sum(outputs, ScriptSize)
    ensures |ScriptsOf(outputs)| == |outputs|
  {
    if outputs != [] {
      ScriptSizes(outputs[1..]);
      assert ScriptsOf(outputs)[1..] == ScriptsOf(outputs[1..]);
    }
  }

  /** The fees are charged for the size of the transaction finally assembled, however it is shuffled. */
  lemma AssembledSizeIsMeasured(
    members: seq<Member>, capacity: real, rate: real, draws: nat -> real, ins: seq<Witness>)
    requires members != [] && multiset(ins) == multiset(TxIns(members))
    ensures VirtualSize(ins, ScriptsOf(Reorder(Outputs(members, capacity, rate), draws))) == SizeOf(members)
  {
    var outputs := Outputs(members, capacity, rate);
    var final := Reorder(outputs, draws);
    MeasuredScripts(members, TermsOf(members, capacity, rate));
    SizeIgnoresOrder(ins, TxIns(members), ScriptsOf(outputs), TxOuts(members));
    ReorderPermutes(outputs, draws);
    SumPermutation(outputs, final, ScriptSize);
    ScriptSizes(outputs);
    ScriptSizes(final);
    assert |outputs| == |multiset(outputs)| == |final|;
    assert BaseSize(ins, ScriptsOf(outputs)) == BaseSize(ins, ScriptsOf(final));
  }

  // ----- conservation of tokens -----

  function OutputTokens(output: Output): real {
    output.tokens
  }

  function SumFunded(members: seq<Member>): real {
    if members == [] then 0.0
    else SumFunded(members[..|members| - 1]) + Funded(members[|members| - 1])
  }

  function SumCommitted(members: seq<Member>, t: Terms): real {
    if members == [] then 0.0
    else SumCommitted(members[..|members| - 1], t) + Committed(members[|members| - 1], t)
  }

  /** k times the capacity, as a sum. */
  function Tokens(k: nat, capacity: real): real {
    if k == 0 then 0.0 else Tokens(k - 1, capacity) + capacity
  }

  lemma {:induction false} TokensIsProduct(k: nat, capacity: real)
    ensures Tokens(k, capacity) == capacity * k as real
  {
    if k > 0 {
      TokensIsProduct(k - 1, capacity);
      Distribute((k - 1) as real, 1.0, capacity);
    }
  }

  lemma {:induction false} TokensAdd(j: nat, k: nat, capacity: real)
    ensures Tokens(j + k, capacity) == Tokens(j, capacity) + Tokens(k, capacity)
  {
    if k > 0 {
      TokensAdd(j, k - 1, capacity);
    }
  }

  lemma TokensDiffer(j: nat, k: nat, capacity: real)
    requires capacity != 0.0
    ensures Tokens(j, capacity) == Tokens(k, capacity) <==> j == k
  {
    TokensIsProduct(j, capacity);
    TokensIsProduct(k, capacity);
    EqualWhenScaled(j as real, k as real, capacity);
  }

  /** The tokens of the funding outputs one member gets. */
  function FundingTokens(member: Member, t: Terms): real {
    Tokens(|NotEmpty(FundingScripts(member))|, t.capacity)
  }

  function SumFunding(members: seq<Member>, t: Terms): real {
    if members == [] then 0.0
    else SumFunding(members[..|members| - 1], t) + FundingTokens(members[|members| - 1], t)
  }

  predicate HasChange(member: Member) {
    member.change.Some? && member.change.value != ""
  }

  /** What members without a change script leave to the fee. */
  function Unclaimed(members: seq<Member>, t: Terms): real {
    if members == [] then 0.0
    else
      var member := members[|members| - 1];
      Unclaimed(members[..|members| - 1], t) +
      if HasChange(member) then 0.0 else ChangeTokens(member, FeeOfLast(members, t), t)
  }

  lemma {:induction false} CapacityTokens(scripts: seq<string>, capacity: real)
    ensures RealSum(WithScript(Capacities(scripts, capacity)), OutputTokens) ==
            Tokens(|NotEmpty(scripts)|, capacity)
  {
    if scripts != [] {
      CapacityTokens(scripts[1..], capacity);
      var first, rest := Output(scripts[0], capacity), WithScript(Capacities(scripts[1..], capacity));
      assert Capacities(scripts, capacity)[1..] == Capacities(scripts[1..], capacity);
      if scripts[0] != "" {
        RealSumAppend([first], rest, OutputTokens);
      } else {
        assert [] + rest == rest;
      }
    }
  }

  lemma AddChange(funding: seq<Output>, change: Output)
    ensures RealSum(WithScript(funding + [change]), OutputTokens) ==
            RealSum(WithScript(funding), OutputTokens) + if change.script == "" then 0.0 else change.tokens
  {
    WithScriptAppend(funding, [change]);
    RealSumAppend(WithScript(funding), WithScript([change]), OutputTokens);
    assert WithScript([change]) == if change.script == "" then [] else [change];
  }

  lemma MemberTokens(member: Member, fee: int, t: Terms)
    ensures RealSum(WithScript(MemberOutputs(member, fee, t)), OutputTokens) ==
            FundingTokens(member, t) + if HasChange(member) then ChangeTokens(member, fee, t) else 0.0
  {
    var funding := Capacities(FundingScripts(member), t.capacity);
    var change := Output(if member.change.Some? then member.change.value else "", ChangeTokens(member, fee, t));
    assert MemberOutputs(member, fee, t) == funding + [change];
    AddChange(funding, change);
    CapacityTokens(FundingScripts(member), t.capacity);
  }

  lemma {:induction false} ResidualBeforeShuffle(members: seq<Member>, t: Terms)
    ensures SumFunded(members) - RealSum(WithScript(AllOutputs(members, t)), OutputTokens) ==
            SumFees(members, t) as real + Unclaimed(members, t) + (SumCommitted(members, t) - SumFunding(members, t))
  {
    if members != [] {
      var front, member := members[..|members| - 1], members[|members| - 1];
      var before, last := AllOutputs(front, t), OutputsOfLast(members, t);
      ResidualBeforeShuffle(front, t);
      MemberTokens(member, FeeOfLast(members, t), t);
      WithScriptAppend(before, last);
      RealSumAppend(WithScript(before), WithScript(last), OutputTokens);
    }
  }

  /**
   * What the outputs leave of the inputs is exactly the fees, plus the change nobody claims, plus what was
   * committed beyond the funding outputs; however the outputs are shuffled.
   */
  lemma Residual(members: seq<Member>, capacity: real, rate: real, draws: nat -> real)
    requires members != []
    ensures var t := TermsOf(members, capacity, rate);
            SumFunded(members) - RealSum(Reorder(Outputs(members, capacity, rate), draws), OutputTokens) ==
            SumFees(members, t) as real + Unclaimed(members, t) + (SumCommitted(members, t) - SumFunding(members, t))
  {
    var outputs := Outputs(members, capacity, rate);
    ResidualBeforeShuffle(members, TermsOf(members, capacity, rate));
    ReorderPermutes(outputs, draws);
    RealSumPermutation(Reorder(outputs, draws), outputs, OutputTokens);
  }

  function SumCount(members: seq<Member>): nat {
    if members == [] then 0
    else SumCount(members[..|members| - 1]) + FundingCount(members[|members| - 1])
  }

  /** How many funding outputs the transaction gets. */
  function ScriptCount(members: seq<Member>): nat {
    if members == [] then 0
    else ScriptCount(members[..|members| - 1]) + |NotEmpty(FundingScripts(members[|members| - 1]))|
  }

  lemma {:induction false} FundingTotal(members: seq<Member>, t: Terms)
    ensures SumFunding(members, t) == Tokens(ScriptCount(members), t.capacity)
  {
    if members != [] {
      var front, member := members[..|members| - 1], members[|members| - 1];
      FundingTotal(front, t);
      TokensAdd(ScriptCount(front), |NotEmpty(FundingScripts(member))|, t.capacity);
    }
  }

  lemma CommittedTokens(member: Member, t: Terms)
    ensures Committed(member, t) == Halved(Tokens(FundingCount(member), t.capacity), t.count)
  {
    TokensIsProduct(FundingCount(member), t.capacity);
  }

  lemma {:induction false} CommittedTotal(members: seq<Member>, t: Terms)
    ensures SumCommitted(members, t) == Halved(Tokens(SumCount(members), t.capacity), t.count)
  {
    if members != [] {
      var front, member := members[..|members| - 1], members[|members| - 1];
      CommittedTotal(front, t);
      CommittedTokens(member, t);
      TokensAdd(SumCount(front), FundingCount(member), t.capacity);
    }
  }

  /** The member lists funding, and no script in it is empty. */
  predicate FullyFunded(member: Member) {
    member.funding.Some? && "" !in member.funding.value
  }

  lemma {:induction false} NotEmptyCount(scripts: seq<string>)
    ensures |NotEmpty(scripts)| <= |scripts|
    ensures |NotEmpty(scripts)| == |scripts| <==> "" !in scripts
  {
    if scripts != [] {
      NotEmptyCount(scripts[1..]);
    }
  }

  lemma {:induction false} CountsAgreeIff(members: seq<Member>)
    ensures ScriptCount(members) <= SumCount(members)
    ensures ScriptCount(members) == SumCount(members) <==> forall i :: 0 <= i < |members| ==> FullyFunded(members[i])
  {
    if members != [] {
      var front := members[..|members| - 1];
      CountsAgreeIff(front);
      NotEmptyCount(FundingScripts(members[|members| - 1]));
      assert forall i :: 0 <= i < |front| ==> front[i] == members[i];
    }
  }

  lemma CountsOfPair(a: Member, b: Member)
    ensures SumCount([a, b]) == FundingCount(a) + FundingCount(b)
    ensures ScriptCount([a, b]) == |NotEmpty(FundingScripts(a))| + |NotEmpty(FundingScripts(b))|
  {
    var pair, one, none: seq<Member> := [a, b], [a], [];
    assert pair[..1] == one && one[..0] == none;
    assert SumCount(one) == SumCount(none) + FundingCount(a);
    assert ScriptCount(one) == ScriptCount(none) + |NotEmpty(FundingScripts(a))|;
  }

  /**
   * Two members balance when their counted outputs are twice the scripts; with no empty script listed that
   * is: exactly one lists funding and lists one script, or both list nothing.
   */
  lemma PairBalances(a: Member, b: Member)
    requires "" !in FundingScripts(a) && "" !in FundingScripts(b)
    ensures SumCount([a, b]) == 2 * ScriptCount([a, b]) <==>
            || (a.funding.Some? && b.funding.None? && |a.funding.value| == 1)
            || (a.funding.None? && b.funding.Some? && |b.funding.value| == 1)
            || (a.funding.Some? && b.funding.Some? && a.funding.value == b.funding.value == [])
  {
    NotEmptyCount(FundingScripts(a));
    NotEmptyCount(FundingScripts(b));
    CountsOfPair(a, b);
  }

  lemma {:induction false} NothingUnclaimed(members: seq<Member>, t: Terms)
    requires forall i :: 0 <= i < |members| ==> HasChange(members[i])
    ensures Unclaimed(members, t) == 0.0
  {
    if members != [] {
      NothingUnclaimed(members[..|members| - 1], t);
    }
  }

  lemma EqualWhenScaled(x: real, y: real, n: real)
    requires n != 0.0
    ensures x * n == y * n <==> x == y
  {
    if x * n == y * n {
      assert (x - y) * n == 0.0;
    }
  }

  /** Committed and funding tokens agree exactly when the counts do, halved for a pair. */
  lemma CommittedIsFundingIff(members: seq<Member>, t: Terms)
    requires t.capacity != 0.0
    ensures SumCommitted(members, t) == SumFunding(members, t) <==>
            SumCount(members) == (if t.count == 2 then 2 else 1) * ScriptCount(members)
  {
    FundingTotal(members, t);
    CommittedTotal(members, t);
    var counted, scripts := SumCount(members), ScriptCount(members);
    if t.count == 2 {
      TokensAdd(scripts, scripts, t.capacity);
      TokensDiffer(counted, scripts + scripts, t.capacity);
    } else {
      TokensDiffer(counted, scripts, t.capacity);
    }
  }

  lemma ConservedIffCommitted(members: seq<Member>, capacity: real, rate: real, draws: nat -> real)
    requires members != [] && forall i :: 0 <= i < |members| ==> HasChange(members[i])
    ensures var t := TermsOf(members, capacity, rate);
            SumFunded(members) - RealSum(Reorder(Outputs(members, capacity, rate), draws), OutputTokens) ==
              SumFees(members, t) as real <==>
            SumCommitted(members, t) == SumFunding(members, t)
  {
    Residual(members, capacity, rate, draws);
    NothingUnclaimed(members, TermsOf(members, capacity, rate));
  }

  /**
   * When every member has change, inputs minus outputs are exactly the fees if and only if: every member is
   * fully funded, or, for a pair, the two together count twice the funding outputs.
   */
  lemma TokensConservedIff(members: seq<Member>, capacity: real, rate: real, draws: nat -> real)
    requires members != [] && capacity != 0.0
    requires forall i :: 0 <= i < |members| ==> HasChange(members[i])
    ensures SumFunded(members) - RealSum(Reorder(Outputs(members, capacity, rate), draws), OutputTokens) ==
              SumFees(members, TermsOf(members, capacity, rate)) as real <==>
            if |members| == 2 then SumCount(members) == 2 * ScriptCount(members)
            else forall i :: 0 <= i < |members| ==> FullyFunded(members[i])
  {
    ConservedIffCommitted(members, capacity, rate, draws);
    CommittedIsFundingIff(members, TermsOf(members, capacity, rate));
    CountsAgreeIff(members);
  }
}
