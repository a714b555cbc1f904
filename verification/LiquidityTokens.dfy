/** Liquidity of channels with peers, eliminating inbound liquidity with a fee rate above a maximum. */
module LiquidityTokens {
  import opened Wrappers
  import opened Percentile
  import opened Sequences

  datatype Policy = Policy(feeRate: Option<nat>, publicKey: string)

  datatype Channel = Channel(isActive: bool, localBalance: int, partnerPublicKey: string, remoteBalance: int)

  datatype Args = Args(
    channels: seq<Channel>,
    isOutbound: bool,
    isTop: bool,
    maxFeeRate: Option<int>,
    policies: seq<seq<Policy>>,
    publicKey: string,
    with: Option<seq<string>>)

  /** A fee rate as it is stored: it may be unknown. */
  type Rate = Option<nat>

  predicate Truthy(r: Rate) {
    r.Some? && r.value != 0
  }

  predicate Greater(a: Rate, b: Rate) {
    a.Some? && b.Some? && a.value > b.value
  }

  /** The first policy of a channel that is not our own. */
  function PeerPolicy(policies: seq<Policy>, publicKey: string): Option<Policy> {
    if policies == [] then None
    else if policies[0].publicKey != publicKey then Some(policies[0])
    else PeerPolicy(policies[1..], publicKey)
  }

  /** Keep a known, non-zero rate that the new one exceeds; otherwise the new one replaces it. */
  function Combine(existing: Rate, next: Rate): Rate {
    if Truthy(existing) && Greater(next, existing) then existing else next
  }

  function FoldRates(rates: seq<Rate>): Rate
    requires rates != []
  {
    if |rates| == 1 then rates[0]
    else Combine(FoldRates(rates[..|rates| - 1]), rates[|rates| - 1])
  }

  /** The rates of one peer, in the order of the channels. */
  function RatesOf(policies: seq<seq<Policy>>, publicKey: string, peer: string): seq<Rate> {
    if policies == [] then []
    else
      var before := RatesOf(policies[..|policies| - 1], publicKey, peer);
      match PeerPolicy(policies[|policies| - 1], publicKey)
      case Some(policy) => if policy.publicKey == peer then before + [policy.feeRate] else before
      case None => before
  }

  /** Fold the policies of all channels into one rate for each peer. */
  method InboundFeeRates(policies: seq<seq<Policy>>, publicKey: string) returns (rates: map<string, Rate>)
    ensures forall peer :: peer in rates <==> RatesOf(policies, publicKey, peer) != []
    ensures forall peer :: peer in rates ==> rates[peer] == FoldRates(RatesOf(policies, publicKey, peer))
  {
    rates := map[];
    for i := 0 to |policies|
      invariant forall peer :: peer in rates <==> RatesOf(policies[..i], publicKey, peer) != []
      invariant forall peer :: peer in rates ==> rates[peer] == FoldRates(RatesOf(policies[..i], publicKey, peer))
    {
      assert policies[..i + 1][..i] == policies[..i];
      var peer := PeerPolicy(policies[i], publicKey);
      if peer.Some? {
        var key, rate := peer.value.publicKey, peer.value.feeRate;
        FoldAppend(RatesOf(policies[..i], publicKey, key), rate);
        if !(key in rates && Truthy(rates[key]) && Greater(rate, rates[key])) {
          rates := rates[key := rate];
        }
      }
    }
    assert policies[..|policies|] == policies;
  }

  lemma FoldAppend(rates: seq<Rate>, next: Rate)
    ensures FoldRates(rates + [next]) == if rates == [] then next else Combine(FoldRates(rates), next)
  {
    assert (rates + [next])[..|rates|] == rates;
  }

  /** Whether the fee rate rule keeps channels with a peer; outbound liquidity is not subject to it. */
  predicate FeeAllowed(args: Args, peer: string) {
    args.isOutbound || args.maxFeeRate.None? ||
    var rates := RatesOf(args.policies, args.publicKey, peer);
    rates != [] && Truthy(FoldRates(rates)) && FoldRates(rates).value <= args.maxFeeRate.value
  }

  predicate Selected(args: Args, channel: Channel) {
    && channel.isActive
    && (args.with.None? || channel.partnerPublicKey in args.with.value)
    && FeeAllowed(args, channel.partnerPublicKey)
  }

  function Balance(args: Args, channel: Channel): int {
    if args.isOutbound then channel.localBalance else channel.remoteBalance
  }

  function SelectedBalances(args: Args, channels: seq<Channel>): seq<int> {
    if channels == [] then []
    else
      (if Selected(args, channels[0]) then [Balance(args, channels[0])] else []) +
      SelectedBalances(args, channels[1..])
  }

  function Reals(values: seq<int>): seq<real> {
    if values == [] then [] else [values[0] as real] + Reals(values[1..])
  }

  function Round(x: real): int {
    (x + 0.5).Floor
  }

  const TOP_PERCENTILE := 0.9

  function Tokens(args: Args): seq<int> {
    var balances := SelectedBalances(args, args.channels);
    if args.isTop then [Round(Top(TOP_PERCENTILE, Reals(balances)))] else balances
  }

  /** The filter of one channel, given the folded rates. */
  predicate Passes(args: Args, rates: map<string, Rate>, channel: Channel) {
    && channel.isActive
    && (args.with.None? || channel.partnerPublicKey in args.with.value)
    && (args.isOutbound || args.maxFeeRate.None? ||
        (channel.partnerPublicKey in rates && Truthy(rates[channel.partnerPublicKey]) &&
         rates[channel.partnerPublicKey].value <= args.maxFeeRate.value))
  }

  function PassingBalances(args: Args, rates: map<string, Rate>, channels: seq<Channel>): (r: seq<int>)
    ensures (forall c :: c in channels ==> (Passes(args, rates, c) <==> Selected(args, c))) ==>
      r == SelectedBalances(args, channels)
  {
    if channels == [] then []
    else
      assert forall c :: c in channels[1..] ==> c in channels;
      (if Passes(args, rates, channels[0]) then [Balance(args, channels[0])] else []) +
      PassingBalances(args, rates, channels[1..])
  }

  method GetTokens(args: Args) returns (tokens: seq<int>)
    ensures tokens == Tokens(args)
  {
    var rates := InboundFeeRates(args.policies, args.publicKey);
    var balances := PassingBalances(args, rates, args.channels);
    tokens := if args.isTop then [Round(Top(TOP_PERCENTILE, Reals(balances)))] else balances;
  }

  // ----- what the fold means -----

  /** Where the rates after the last unknown or zero one start. */
  function RunStart(rates: seq<Rate>): (m: nat)
    ensures m <= |rates|
    ensures forall i :: m <= i < |rates| ==> Truthy(rates[i])
    ensures m > 0 ==> !Truthy(rates[m - 1])
  {
    if rates == [] then 0
    else if !Truthy(rates[|rates| - 1]) then |rates|
    else RunStart(rates[..|rates| - 1])
  }

  /**
   * The fold is the least of the rates after the last unknown or zero one; if that one comes last, the fold
   * is that one.
   */
  lemma {:induction false} FoldIsLeastOfLastRun(rates: seq<Rate>)
    requires rates != []
    ensures var m, r := RunStart(rates), FoldRates(rates);
            if m == |rates| then r == rates[|rates| - 1] && !Truthy(r)
            else
              && Truthy(r)
              && r in rates[m..]
              && (forall i :: m <= i < |rates| ==> r.value <= rates[i].value)
  {
    var front, last := rates[..|rates| - 1], rates[|rates| - 1];
    if |rates| > 1 && Truthy(last) {
      FoldIsLeastOfLastRun(front);
      var m := RunStart(rates);
      assert forall i :: m <= i < |front| ==> front[i] == rates[i];
      assert rates[m..] == front[m..] + [last];
    }
  }

  lemma {:induction false} AllTruthyRun(rates: seq<Rate>)
    requires forall r :: r in rates ==> Truthy(r)
    ensures RunStart(rates) == 0
  {
    if rates != [] {
      AllTruthyRun(rates[..|rates| - 1]);
    }
  }

  predicate AllKnownAndPositive(args: Args, peer: string) {
    forall r :: r in RatesOf(args.policies, args.publicKey, peer) ==> Truthy(r)
  }

  /** The rate one channel's policies list for a peer. */
  predicate Lists(policies: seq<Policy>, publicKey: string, peer: string, rate: Rate) {
    var policy := PeerPolicy(policies, publicKey);
    policy.Some? && policy.value.publicKey == peer && policy.value.feeRate == rate
  }

  lemma {:induction false} RatesAreListed(policies: seq<seq<Policy>>, publicKey: string, peer: string, rate: Rate)
    ensures rate in RatesOf(policies, publicKey, peer) <==>
            exists i :: 0 <= i < |policies| && Lists(policies[i], publicKey, peer, rate)
  {
    if policies != [] {
      var front := policies[..|policies| - 1];
      RatesAreListed(front, publicKey, peer, rate);
      assert forall i :: 0 <= i < |front| ==> front[i] == policies[i];
      if Lists(policies[|policies| - 1], publicKey, peer, rate) {
        assert RatesOf(policies, publicKey, peer)[|RatesOf(front, publicKey, peer)|] == rate;
      }
    }
  }

  /** Some channel's policies list a rate for the peer within the maximum. */
  ghost predicate ListsWithin(args: Args, peer: string, max: int) {
    exists i, rate: Rate :: 0 <= i < |args.policies| && Lists(args.policies[i], args.publicKey, peer, rate) &&
                      rate.Some? && rate.value <= max
  }

  /** With known positive rates, the rule keeps a peer exactly when some policy of it is within the maximum. */
  lemma FeeAllowedIff(args: Args, peer: string)
    requires !args.isOutbound && args.maxFeeRate.Some? && AllKnownAndPositive(args, peer)
    ensures FeeAllowed(args, peer) <==> ListsWithin(args, peer, args.maxFeeRate.value)
  {
    var rates, max := RatesOf(args.policies, args.publicKey, peer), args.maxFeeRate.value;
    if rates != [] {
      FoldIsLeastOfLastRun(rates);
      AllTruthyRun(rates);
    }
    if FeeAllowed(args, peer) {
      RatesAreListed(args.policies, args.publicKey, peer, FoldRates(rates));
    }
    if ListsWithin(args, peer, max) {
      var i, rate: Rate :| 0 <= i < |args.policies| && Lists(args.policies[i], args.publicKey, peer, rate) &&
                     rate.Some? && rate.value <= max;
      RatesAreListed(args.policies, args.publicKey, peer, rate);
    }
  }

  /** With known positive rates, the order of the channels' policies does not matter to the rule. */
  lemma FeeAllowedIgnoresOrder(args: Args, args': Args, peer: string)
    requires args' == args.(policies := args'.policies) && multiset(args.policies) == multiset(args'.policies)
    requires AllKnownAndPositive(args, peer)
    ensures FeeAllowed(args, peer) <==> FeeAllowed(args', peer)
  {
    if !args.isOutbound && args.maxFeeRate.Some? {
      SameListings(args, args', peer);
      SameListings(args', args, peer);
      FeeAllowedIff(args, peer);
      FeeAllowedIff(args', peer);
    }
  }

  lemma SameListings(args: Args, args': Args, peer: string)
    requires args'.publicKey == args.publicKey && multiset(args.policies) == multiset(args'.policies)
    ensures AllKnownAndPositive(args, peer) ==> AllKnownAndPositive(args', peer)
    ensures forall max :: ListsWithin(args', peer, max) ==> ListsWithin(args, peer, max)
  {
    forall i | 0 <= i < |args'.policies|
      ensures exists j :: 0 <= j < |args.policies| && args.policies[j] == args'.policies[i]
    {
      assert args'.policies[i] in multiset(args.policies);
    }
    forall r | r in RatesOf(args'.policies, args.publicKey, peer)
      ensures r in RatesOf(args.policies, args.publicKey, peer)
    {
      RatesAreListed(args'.policies, args.publicKey, peer, r);
      RatesAreListed(args.policies, args.publicKey, peer, r);
    }
  }

  /** In general the rule compares only the rates after the last unknown or zero one. */
  lemma FeeAllowedExactly(args: Args, peer: string)
    requires !args.isOutbound && args.maxFeeRate.Some?
    ensures var rates := RatesOf(args.policies, args.publicKey, peer);
            FeeAllowed(args, peer) <==>
            exists i :: RunStart(rates) <= i < |rates| && rates[i].value <= args.maxFeeRate.value
  {
    var rates := RatesOf(args.policies, args.publicKey, peer);
    if rates != [] {
      FoldIsLeastOfLastRun(rates);
    }
  }

  // ----- when the order of the policies matters -----

  /** The same policies in another order lead to another decision about a peer. */
  ghost predicate OrderMatters(args: Args, peer: string) {
    exists policies ::
      multiset(policies) == multiset(args.policies) &&
      FeeAllowed(args.(policies := policies), peer) != FeeAllowed(args, peer)
  }

  /** Some channel's policies list an unknown or zero rate for the peer. */
  ghost predicate ListsUnusable(args: Args, peer: string) {
    exists i, rate: Rate :: 0 <= i < |args.policies| && Lists(args.policies[i], args.publicKey, peer, rate) &&
                            !Truthy(rate)
  }

  /** Some channel's policies list a known positive rate for the peer that is within the maximum. */
  ghost predicate ListsPositiveWithin(args: Args, peer: string, max: int) {
    exists i, rate: Rate :: 0 <= i < |args.policies| && Lists(args.policies[i], args.publicKey, peer, rate) &&
                            Truthy(rate) && rate.value <= max
  }

  function LastMoved(policies: seq<seq<Policy>>, i: nat): seq<seq<Policy>>
    requires i < |policies|
  {
    Without(policies, i) + [policies[i]]
  }

  lemma LastMovedPermutes(policies: seq<seq<Policy>>, i: nat)
    requires i < |policies|
    ensures multiset(LastMoved(policies, i)) == multiset(policies)
  {
    WithoutMultiset(policies, i);
    assert policies[i] in multiset(policies);
  }

  /** With the policies of a channel last, the rate they list decides whether the run of rates is empty. */
  lemma LastListedDecides(args: Args, peer: string, i: nat, rate: Rate)
    requires !args.isOutbound && args.maxFeeRate.Some?
    requires i < |args.policies| && Lists(args.policies[i], args.publicKey, peer, rate)
    ensures var moved := args.(policies := LastMoved(args.policies, i));
            && (!Truthy(rate) ==> !FeeAllowed(moved, peer))
            && (Truthy(rate) && rate.value <= args.maxFeeRate.value ==> FeeAllowed(moved, peer))
  {
    var policies := LastMoved(args.policies, i);
    var n := |policies| - 1;
    var front := RatesOf(policies[..n], args.publicKey, peer);
    assert policies[n] == args.policies[i];
    var rates := RatesOf(policies, args.publicKey, peer);
    assert rates == front + [rate];
    FoldIsLeastOfLastRun(rates);
  }

  /** A peer that is kept lists a positive rate within the maximum. */
  lemma KeptListsPositive(args: Args, peer: string)
    requires !args.isOutbound && args.maxFeeRate.Some? && FeeAllowed(args, peer)
    ensures ListsPositiveWithin(args, peer, args.maxFeeRate.value)
  {
    var rates := RatesOf(args.policies, args.publicKey, peer);
    FoldIsLeastOfLastRun(rates);
    RatesAreListed(args.policies, args.publicKey, peer, FoldRates(rates));
  }

  /** What is listed does not depend on the order. */
  lemma ListingIgnoresOrder(a: Args, b: Args, peer: string, max: int)
    requires b.publicKey == a.publicKey && multiset(b.policies) == multiset(a.policies)
    requires ListsPositiveWithin(a, peer, max)
    ensures ListsPositiveWithin(b, peer, max)
  {
    var i, rate: Rate :| 0 <= i < |a.policies| && Lists(a.policies[i], a.publicKey, peer, rate) &&
                         Truthy(rate) && rate.value <= max;
    assert a.policies[i] in multiset(b.policies);
    var j :| 0 <= j < |b.policies| && b.policies[j] == a.policies[i];
    assert Lists(b.policies[j], b.publicKey, peer, rate);
  }

  /** Without unknown and zero rates every order leads to the same decision. */
  lemma UsableRatesIgnoreOrder(args: Args, policies: seq<seq<Policy>>, peer: string)
    requires !ListsUnusable(args, peer) && multiset(policies) == multiset(args.policies)
    ensures FeeAllowed(args.(policies := policies), peer) == FeeAllowed(args, peer)
  {
    forall r | r in RatesOf(args.policies, args.publicKey, peer)
      ensures Truthy(r)
    {
      RatesAreListed(args.policies, args.publicKey, peer, r);
    }
    FeeAllowedIgnoresOrder(args, args.(policies := policies), peer);
  }

  /**
   * The order of the policies decides about a peer exactly when the maximum applies and the peer's policies
   * list both an unknown or zero rate and a known positive rate within the maximum.
   */
  lemma OrderMattersIff(args: Args, peer: string)
    ensures OrderMatters(args, peer) <==>
            && !args.isOutbound && args.maxFeeRate.Some?
            && ListsUnusable(args, peer)
            && ListsPositiveWithin(args, peer, args.maxFeeRate.value)
  {
    if OrderMatters(args, peer) {
      var policies :| multiset(policies) == multiset(args.policies) &&
                      FeeAllowed(args.(policies := policies), peer) != FeeAllowed(args, peer);
      if !ListsUnusable(args, peer) {
        UsableRatesIgnoreOrder(args, policies, peer);
      }
      if FeeAllowed(args, peer) {
        KeptListsPositive(args, peer);
      } else {
        KeptListsPositive(args.(policies := policies), peer);
        ListingIgnoresOrder(args.(policies := policies), args, peer, args.maxFeeRate.value);
      }
    } else if !args.isOutbound && args.maxFeeRate.Some? {
      OneOrderOnly(args, peer);
    }
  }

  lemma OneOrderOnly(args: Args, peer: string)
    requires !args.isOutbound && args.maxFeeRate.Some? && !OrderMatters(args, peer)
    ensures !ListsUnusable(args, peer) || !ListsPositiveWithin(args, peer, args.maxFeeRate.value)
  {
    if i, rate: Rate :| 0 <= i < |args.policies| && Lists(args.policies[i], args.publicKey, peer, rate) &&
                        !Truthy(rate) {
      LastMovedPermutes(args.policies, i);
      LastListedDecides(args, peer, i, rate);
      assert !FeeAllowed(args, peer);
      forall j, other: Rate | 0 <= j < |args.policies| && Lists(args.policies[j], args.publicKey, peer, other)
        ensures !(Truthy(other) && other.value <= args.maxFeeRate.value)
      {
        LastMovedPermutes(args.policies, j);
        LastListedDecides(args, peer, j, other);
      }
    }
  }

  /**
   * An instance: of a zero rate and a positive one within the maximum, the fold is the one that comes last, so
   * a peer is kept one way round and dropped the other.
   */
  lemma ZeroRateDependsOnOrder(args: Args, zero: Policy, positive: Policy)
    requires !args.isOutbound && args.maxFeeRate.Some?
    requires zero.publicKey == positive.publicKey != args.publicKey
    requires zero.feeRate == Some(0)
    requires Truthy(positive.feeRate) && positive.feeRate.value <= args.maxFeeRate.value
    ensures FoldRates([Some(0), positive.feeRate]) == positive.feeRate
    ensures FoldRates([positive.feeRate, Some(0)]) == Some(0)
    ensures FeeAllowed(args.(policies := [[zero], [positive]]), zero.publicKey)
    ensures !FeeAllowed(args.(policies := [[positive], [zero]]), zero.publicKey)
  {
    TwoRates(args, zero, positive);
    TwoRates(args, positive, zero);
    FoldAppend([zero.feeRate], positive.feeRate);
    FoldAppend([positive.feeRate], zero.feeRate);
    assert [zero.feeRate] + [positive.feeRate] == [Some(0), positive.feeRate];
    assert [positive.feeRate] + [zero.feeRate] == [positive.feeRate, Some(0)];
  }

  lemma TwoRates(args: Args, first: Policy, second: Policy)
    requires first.publicKey == second.publicKey != args.publicKey
    ensures RatesOf([[first], [second]], args.publicKey, first.publicKey) == [first.feeRate, second.feeRate]
  {
    var both, one: seq<seq<Policy>> := [[first], [second]], [[first]];
    assert both[..1] == one && one[..0] == [];
    assert RatesOf(one, args.publicKey, first.publicKey) == [first.feeRate];
  }

  // ----- the selection, stated on the channels and policies -----

  /** The m-th policy of a channel is its first one that is not the node's own. */
  predicate IsPeerPolicy(policies: seq<Policy>, m: int, publicKey: string) {
    && 0 <= m < |policies| && policies[m].publicKey != publicKey
    && forall j :: 0 <= j < m ==> policies[j].publicKey == publicKey
  }

  /** The channel's policies have a positive rate of the peer within a maximum. */
  ghost predicate HasRateWithin(policies: seq<Policy>, publicKey: string, peer: string, max: int) {
    exists m :: IsPeerPolicy(policies, m, publicKey) && policies[m].publicKey == peer &&
                policies[m].feeRate.Some? && 0 < policies[m].feeRate.value <= max
  }

  /** The channel's policies have an unknown or zero rate of the peer. */
  ghost predicate HasUnusableRate(policies: seq<Policy>, publicKey: string, peer: string) {
    exists m :: IsPeerPolicy(policies, m, publicKey) && policies[m].publicKey == peer &&
                (policies[m].feeRate.None? || policies[m].feeRate.value == 0)
  }

  lemma {:induction false} PeerPolicyIs(policies: seq<Policy>, publicKey: string)
    ensures match PeerPolicy(policies, publicKey)
            case Some(policy) => exists m :: IsPeerPolicy(policies, m, publicKey) && policies[m] == policy
            case None => forall m :: 0 <= m < |policies| ==> policies[m].publicKey == publicKey
  {
    if policies == [] {
    } else if policies[0].publicKey != publicKey {
      assert IsPeerPolicy(policies, 0, publicKey);
    } else {
      var rest := policies[1..];
      PeerPolicyIs(rest, publicKey);
      assert forall j :: 0 < j < |policies| ==> policies[j] == rest[j - 1];
      if PeerPolicy(rest, publicKey).Some? {
        var m :| IsPeerPolicy(rest, m, publicKey) && rest[m] == PeerPolicy(rest, publicKey).value;
        assert IsPeerPolicy(policies, m + 1, publicKey);
      }
    }
  }

  /** What the policies of one channel say of a peer. */
  lemma RowSays(policies: seq<Policy>, publicKey: string, peer: string, max: int)
    ensures var found := PeerPolicy(policies, publicKey);
            var isPeers := found.Some? && found.value.publicKey == peer;
            && (HasRateWithin(policies, publicKey, peer, max) <==>
                  isPeers && Truthy(found.value.feeRate) && found.value.feeRate.value <= max)
            && (HasUnusableRate(policies, publicKey, peer) <==> isPeers && !Truthy(found.value.feeRate))
  {
    PeerPolicyIs(policies, publicKey);
    var found := PeerPolicy(policies, publicKey);
    if found.Some? {
      var k :| IsPeerPolicy(policies, k, publicKey) && policies[k] == found.value;
      forall m | IsPeerPolicy(policies, m, publicKey)
        ensures m == k
      {
      }
    }
  }

  /** Some channel has a rate within the maximum, and none after it an unknown or zero one. */
  ghost predicate IsWithin(policies: seq<seq<Policy>>, publicKey: string, peer: string, max: int) {
    exists i :: 0 <= i < |policies| && HasRateWithin(policies[i], publicKey, peer, max) &&
                forall j :: i < j < |policies| ==> !HasUnusableRate(policies[j], publicKey, peer)
  }

  predicate FoldWithin(rates: seq<Rate>, max: int) {
    rates != [] && Truthy(FoldRates(rates)) && FoldRates(rates).value <= max
  }

  lemma WithinMore(policies: seq<seq<Policy>>, row: seq<Policy>, publicKey: string, peer: string, max: int)
    ensures IsWithin(policies + [row], publicKey, peer, max) <==>
            || HasRateWithin(row, publicKey, peer, max)
            || (IsWithin(policies, publicKey, peer, max) && !HasUnusableRate(row, publicKey, peer))
  {
    var more := policies + [row];
    assert more[|policies|] == row;
    if IsWithin(policies, publicKey, peer, max) && !HasUnusableRate(row, publicKey, peer) {
      var i :| 0 <= i < |policies| && HasRateWithin(policies[i], publicKey, peer, max) &&
               forall j :: i < j < |policies| ==> !HasUnusableRate(policies[j], publicKey, peer);
      assert more[i] == policies[i];
    }
    if IsWithin(more, publicKey, peer, max) {
      var i :| 0 <= i < |more| && HasRateWithin(more[i], publicKey, peer, max) &&
               forall j :: i < j < |more| ==> !HasUnusableRate(more[j], publicKey, peer);
      if i < |policies| {
        assert forall j :: i < j < |policies| ==> policies[j] == more[j];
        assert HasRateWithin(policies[i], publicKey, peer, max);
      }
    }
  }

  lemma {:induction false} FoldIsWithinIff(policies: seq<seq<Policy>>, publicKey: string, peer: string, max: int)
    ensures FoldWithin(RatesOf(policies, publicKey, peer), max) <==> IsWithin(policies, publicKey, peer, max)
  {
    if policies != [] {
      var n := |policies| - 1;
      var front, row := policies[..n], policies[n];
      assert policies == front + [row];
      FoldIsWithinIff(front, publicKey, peer, max);
      WithinMore(front, row, publicKey, peer, max);
      RowSays(row, publicKey, peer, max);
      var found := PeerPolicy(row, publicKey);
      if found.Some? && found.value.publicKey == peer {
        FoldAppend(RatesOf(front, publicKey, peer), found.value.feeRate);
      }
    }
  }

  /**
   * The fee rule keeps a peer exactly for outbound liquidity, without a maximum, or when some channel lists a
   * positive rate of the peer within the maximum and no later channel an unknown or zero one.
   */
  lemma PeerIsKeptIff(args: Args, peer: string)
    ensures FeeAllowed(args, peer) <==>
            || args.isOutbound || args.maxFeeRate.None?
            || IsWithin(args.policies, args.publicKey, peer, args.maxFeeRate.value)
  {
    if args.maxFeeRate.Some? {
      FoldIsWithinIff(args.policies, args.publicKey, peer, args.maxFeeRate.value);
    }
  }

  /** A channel is selected: it is active, its peer is asked for, and the fee rule keeps its peer. */
  ghost predicate IsWanted(args: Args, channel: Channel) {
    && channel.isActive
    && (args.with.Some? ==> channel.partnerPublicKey in args.with.value)
    && (!args.isOutbound && args.maxFeeRate.Some? ==>
          IsWithin(args.policies, args.publicKey, channel.partnerPublicKey, args.maxFeeRate.value))
  }

  /** The balances of the wanted channels, at ascending positions: the local side outbound, the remote one inbound. */
  ghost predicate ListsBalances(args: Args, channels: seq<Channel>, at: seq<nat>, balances: seq<int>) {
    && |balances| == |at|
    && (forall i, j :: 0 <= i < j < |at| ==> at[i] < at[j])
    && (forall i :: 0 <= i < |at| ==> at[i] < |channels|)
    && (forall i :: 0 <= i < |at| ==>
          balances[i] == if args.isOutbound then channels[at[i]].localBalance else channels[at[i]].remoteBalance)
    && forall i :: 0 <= i < |channels| ==> (i in at <==> IsWanted(args, channels[i]))
  }

  lemma {:induction false} SelectedAreWanted(args: Args, channels: seq<Channel>) returns (at: seq<nat>)
    ensures ListsBalances(args, channels, at, SelectedBalances(args, channels))
  {
    at := [];
    if channels != [] {
      var n := |channels| - 1;
      at := SelectedAreWanted(args, channels[..n]);
      SelectedMore(args, channels[..n], channels[n]);
      assert channels == channels[..n] + [channels[n]];
      PeerIsKeptIff(args, channels[n].partnerPublicKey);
      ListsMore(args, channels[..n], channels[n], at, SelectedBalances(args, channels[..n]));
      if IsWanted(args, channels[n]) {
        at := at + [n];
      } else {
        assert SelectedBalances(args, channels) == SelectedBalances(args, channels[..n]);
      }
    }
  }

  lemma {:induction false} SelectedMore(args: Args, channels: seq<Channel>, channel: Channel)
    ensures SelectedBalances(args, channels + [channel]) ==
            SelectedBalances(args, channels) + if Selected(args, channel) then [Balance(args, channel)] else []
  {
    if channels != [] {
      assert (channels + [channel])[1..] == channels[1..] + [channel];
      SelectedMore(args, channels[1..], channel);
    } else {
      assert ([channel])[1..] == [] && channels + [channel] == [channel];
    }
  }

  lemma ListsMore(args: Args, channels: seq<Channel>, channel: Channel, at: seq<nat>, balances: seq<int>)
    requires ListsBalances(args, channels, at, balances)
    ensures var balance := if args.isOutbound then channel.localBalance else channel.remoteBalance;
            if IsWanted(args, channel)
            then ListsBalances(args, channels + [channel], at + [|channels|], balances + [balance])
            else ListsBalances(args, channels + [channel], at, balances)
  {
    var more := channels + [channel];
    assert forall i :: 0 <= i < |channels| ==> more[i] == channels[i];
    assert forall i :: 0 <= i < |at| ==> at[i] < |channels|;
    var later := at + [|channels|];
    forall i: nat
      ensures i in later <==> i in at || i == |channels|
    {
    }
  }

  /** The tokens are the balances of the wanted channels in their order. */
  lemma TokensAreWanted(args: Args) returns (at: seq<nat>)
    requires !args.isTop
    ensures ListsBalances(args, args.channels, at, Tokens(args))
  {
    at := SelectedAreWanted(args, args.channels);
  }

  lemma {:induction false} RealsAre(values: seq<int>)
    ensures |Reals(values)| == |values|
    ensures forall i :: 0 <= i < |values| ==> Reals(values)[i] == values[i] as real
  {
    if values != [] {
      RealsAre(values[1..]);
    }
  }

  /** Or their 90th percentile alone, rounded to the nearest whole number, and halves up. */
  lemma TopIsRounded(args: Args)
    requires args.isTop
    ensures |Tokens(args)| == 1
    ensures var top := Top(0.9, Reals(Tokens(args.(isTop := false))));
            top - 0.5 < Tokens(args)[0] as real <= top + 0.5
  {
    SameBalances(args, args.channels);
  }

  lemma {:induction false} SameBalances(args: Args, channels: seq<Channel>)
    ensures SelectedBalances(args.(isTop := false), channels) == SelectedBalances(args, channels)
  {
    if channels != [] {
      SameBalances(args, channels[1..]);
    }
  }
}
