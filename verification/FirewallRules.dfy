/** What the forward request rules mean, for the tracked HTLCs and for a decision. */
module FirewallRules {
  import opened ForwardFirewall
  import opened Wrappers

  // ----- the tracked HTLCs are a function of what was noticed -----

  function HtlcsAfter(history: seq<Forward>): map<HtlcId, int> {
    if history == [] then map[]
    else Tracked(HtlcsAfter(history[..|history| - 1]), history[|history| - 1])
  }

  predicate Concerns(htlc: Forward, id: HtlcId) {
    IsRelevant(htlc) && IdOf(htlc) == id
  }

  /** The k-th notice is the last one that concerns an id. */
  predicate IsLast(history: seq<Forward>, k: nat, id: HtlcId) {
    && k < |history|
    && Concerns(history[k], id)
    && forall j :: k < j < |history| ==> !Concerns(history[j], id)
  }

  lemma LastOfMore(history: seq<Forward>, htlc: Forward, k: nat, id: HtlcId)
    ensures IsLast(history + [htlc], k, id) <==>
            if Concerns(htlc, id) then k == |history| else IsLast(history, k, id)
  {
    var more := history + [htlc];
    assert more[|history|] == htlc;
    if k < |history| {
      assert forall j :: k <= j < |history| ==> more[j] == history[j];
    }
  }

  /** An id is tracked exactly when its last notice is not a resolution, and with the time of that notice. */
  lemma {:induction false} TrackedIffLastUnresolved(history: seq<Forward>, id: HtlcId)
    ensures id in HtlcsAfter(history) <==> exists k: nat :: IsLast(history, k, id) && !IsResolved(history[k])
    ensures forall k: nat :: IsLast(history, k, id) && !IsResolved(history[k]) ==>
                          id in HtlcsAfter(history) && HtlcsAfter(history)[id] == history[k].at
  {
    if history != [] {
      var n := |history| - 1;
      var front, last := history[..n], history[n];
      assert history == front + [last];
      TrackedIffLastUnresolved(front, id);
      forall k: nat
        ensures IsLast(history, k, id) <==> if Concerns(last, id) then k == n else IsLast(front, k, id)
      {
        LastOfMore(front, last, k, id);
      }
      if Concerns(last, id) {
        assert IsLast(history, n, id);
      } else if id in HtlcsAfter(front) {
        var k: nat :| IsLast(front, k, id) && !IsResolved(front[k]);
        assert IsLast(history, k, id) && !IsResolved(history[k]);
      }
    }
  }

  predicate IsRecent(history: seq<Forward>, k: nat, after: int) {
    k < |history| && IsLast(history, k, IdOf(history[k])) && !IsResolved(history[k]) && history[k].at > after
  }

  /** The forwards whose last notice came after a time and did not resolve them. */
  function RecentIds(history: seq<Forward>, after: int): set<HtlcId> {
    set k | 0 <= k < |history| && IsRecent(history, k, after) :: IdOf(history[k])
  }

  /** The rate rule counts distinct unresolved forwards. */
  lemma RateCountsForwards(history: seq<Forward>, after: int)
    ensures RecentCount(HtlcsAfter(history), after) == |RecentIds(history, after)|
  {
    var htlcs := HtlcsAfter(history);
    var counted := set id | id in htlcs && htlcs[id] > after;
    forall id
      ensures id in counted <==> id in RecentIds(history, after)
    {
      TrackedIffLastUnresolved(history, id);
      if id in counted {
        var k: nat :| IsLast(history, k, id) && !IsResolved(history[k]);
        assert IsRecent(history, k, after);
      }
      if id in RecentIds(history, after) {
        var k :| 0 <= k < |history| && IsRecent(history, k, after) && IdOf(history[k]) == id;
        assert IsLast(history, k, id);
      }
    }
    assert counted == RecentIds(history, after);
  }

  /** Two notices are about the same forward. */
  predicate IsAbout(htlc: Forward, id: HtlcId) {
    && htlc.inChannel == id.inChannel && htlc.inPayment == id.inPayment
    && htlc.outChannel == id.outChannel && htlc.outPayment == id.outPayment
  }

  /**
   * A forward is counted exactly when it has both channels and both indices, and its last notice came after the
   * time and says neither that it is confirmed nor that it failed.
   */
  lemma CountedIff(history: seq<Forward>, id: HtlcId, after: int)
    ensures id in RecentIds(history, after) <==>
            && id.inChannel != "" && id.inPayment != 0 && id.outChannel != "" && id.outPayment != 0
            && exists k :: 0 <= k < |history| && IsAbout(history[k], id)
                        && !history[k].isConfirmed && !history[k].isFailed && history[k].at > after
                        && forall j :: k < j < |history| ==> !IsAbout(history[j], id)
  {
    var isUsable := id.inChannel != "" && id.inPayment != 0 && id.outChannel != "" && id.outPayment != 0;
    forall k | 0 <= k < |history|
      ensures Concerns(history[k], id) <==> IsAbout(history[k], id) && isUsable
    {
    }
    if id in RecentIds(history, after) {
      var k :| 0 <= k < |history| && IsRecent(history, k, after) && IdOf(history[k]) == id;
      assert IsAbout(history[k], id);
    }
    if isUsable {
      if k :| 0 <= k < |history| && IsAbout(history[k], id)
              && !history[k].isConfirmed && !history[k].isFailed && history[k].at > after
              && forall j :: k < j < |history| ==> !IsAbout(history[j], id) {
        assert IsRecent(history, k, after) && IdOf(history[k]) == id;
      }
    }
  }

  // ----- what the rate rule does not count -----

  /** The k-th notice is the last one with its id, whether it is relevant or not. */
  predicate IsLastNotice(history: seq<Forward>, k: nat) {
    k < |history| && forall j :: k < j < |history| ==> IdOf(history[j]) != IdOf(history[k])
  }

  /** The k-th notice is the last of its forward, came after a time and did not resolve it. */
  predicate IsPending(history: seq<Forward>, k: nat, after: int) {
    IsLastNotice(history, k) && !IsResolved(history[k]) && history[k].at > after
  }

  /** All forwards whose last notice came after a time and did not resolve them. */
  function PendingIds(history: seq<Forward>, after: int): set<HtlcId> {
    set k | 0 <= k < |history| && IsPending(history, k, after) :: IdOf(history[k])
  }

  predicate IsRelevantId(id: HtlcId) {
    id.inChannel != "" && id.inPayment != 0 && id.outChannel != "" && id.outPayment != 0
  }

  lemma RecentIffPending(history: seq<Forward>, k: nat, after: int)
    ensures IsRecent(history, k, after) <==> IsPending(history, k, after) && IsRelevant(history[k])
  {
    if k < |history| && IsRelevant(history[k]) {
      var id := IdOf(history[k]);
      assert forall j :: k < j < |history| ==> (Concerns(history[j], id) <==> IdOf(history[j]) == id);
    }
  }

  /** The ids the rule counts are the pending ones with both channels and both indices. */
  lemma RecentArePending(history: seq<Forward>, after: int)
    ensures forall id :: id in RecentIds(history, after) <==> id in PendingIds(history, after) && IsRelevantId(id)
  {
    forall id
      ensures id in RecentIds(history, after) <==> id in PendingIds(history, after) && IsRelevantId(id)
    {
      if id in RecentIds(history, after) {
        var k :| 0 <= k < |history| && IsRecent(history, k, after) && IdOf(history[k]) == id;
        RecentIffPending(history, k, after);
      }
      if id in PendingIds(history, after) && IsRelevantId(id) {
        var k :| 0 <= k < |history| && IsPending(history, k, after) && IdOf(history[k]) == id;
        RecentIffPending(history, k, after);
      }
    }
  }

  lemma SubsetSize(a: set<HtlcId>, b: set<HtlcId>)
    requires a <= b
    ensures |a| <= |b| && (|a| == |b| <==> a == b)
  {
    assert b == a + (b - a);
  }

  /** Every forward pending since a time has both channels and both indices, none of them zero. */
  predicate AllCountable(history: seq<Forward>, after: int) {
    forall k :: 0 <= k < |history| && IsPending(history, k, after) ==> IsRelevant(history[k])
  }

  /**
   * The count of the rate rule never exceeds the number of pending forwards, and is that number exactly when
   * every pending forward has both channels and both indices, none of them zero.
   */
  lemma RateCountIsWholeIff(history: seq<Forward>, after: int)
    ensures RecentCount(HtlcsAfter(history), after) <= |PendingIds(history, after)|
    ensures RecentCount(HtlcsAfter(history), after) == |PendingIds(history, after)| <==> AllCountable(history, after)
  {
    var recent, pending := RecentIds(history, after), PendingIds(history, after);
    RateCountsForwards(history, after);
    RecentArePending(history, after);
    SubsetSize(recent, pending);
    if recent == pending {
      forall k | 0 <= k < |history| && IsPending(history, k, after)
        ensures IsRelevant(history[k])
      {
        assert IdOf(history[k]) in pending;
      }
    }
    if AllCountable(history, after) {
      forall id | id in pending
        ensures id in recent
      {
        var k :| 0 <= k < |history| && IsPending(history, k, after) && IdOf(history[k]) == id;
        assert IsRelevantId(id);
      }
    }
  }

  lemma RecentIsWholeIff(history: seq<Forward>, after: int)
    ensures |RecentIds(history, after)| <= |PendingIds(history, after)|
    ensures |RecentIds(history, after)| == |PendingIds(history, after)| <==> AllCountable(history, after)
  {
    RateCountsForwards(history, after);
    RateCountIsWholeIff(history, after);
  }

  /** An instance: the first HTLC of a channel has index 0, and is pending without being counted. */
  lemma IndexZeroIsNotCounted(htlc: Forward, after: int)
    requires htlc.inPayment == 0 && !IsResolved(htlc) && htlc.at > after
    ensures RecentCount(HtlcsAfter([htlc]), after) == 0
    ensures PendingIds([htlc], after) == {IdOf(htlc)}
  {
    assert [htlc][..0] == [];
    assert HtlcsAfter([htlc]) == map[];
    assert IsPending([htlc], 0, after);
  }

  // ----- a decision -----

  /** The chain info an uninterrupted request goes on with: what is there, or else the wallet's reply. */
  function ChainPrepared(rules: Rules, state: State, wallet: Option<WalletInfo>): State {
    if MissesChain(rules, state) then WalletTold(state, wallet) else state
  }

  function ChainReason(rules: Rules, state: State, wallet: Option<WalletInfo>): Option<Reason> {
    if MissesChain(rules, state) then WalletReason(wallet) else None
  }

  /** All the chain info is there, once some of it is. */
  predicate ChainIsWhole(state: State) {
    state.latestBlockAt.Some? ==> state.currentBlockHeight.Some?
  }

  predicate ChainIsKnown(rules: Rules, state: State) {
    rules.maxSecondsSinceLastBlock > 0 || rules.minActivationAge > 0 ==> state.latestBlockAt.Some?
  }

  /** Neither the inbound channel nor the outbound peer link is stopped, and the keys to tell are found. */
  predicate StopListHolds(rules: Rules, known: map<string, Keys>, info: Info) {
    rules.stopChannels.Some? ==>
      && info.outChannel in known
      && forall id :: id in rules.stopChannels.value ==>
                        id != info.inChannel && id in known && known[id] != known[info.outChannel]
  }

  predicate PairsHold(rules: Rules, known: map<string, Keys>, info: Info) {
    rules.onlyAllow.Some? || rules.onlyDisallow.Some? ==>
      && info.inChannel in known && info.outChannel in known
      && var peers := Peers(known[info.inChannel], known[info.outChannel]);
         && (rules.onlyAllow.Some? ==> peers in rules.onlyAllow.value)
         && (rules.onlyDisallow.Some? ==> peers !in rules.onlyDisallow.value)
  }

  predicate LimitsHold(rules: Rules, state: State, info: Info, now: int) {
    && (rules.maxSecondsSinceLastBlock > 0 ==>
          state.latestBlockAt.Some? && now - state.latestBlockAt.value <= 1000 * rules.maxSecondsSinceLastBlock)
    && (rules.maxNewPendingPerHour.Some? ==>
          RecentCount(state.htlcs, now - 3600000) < rules.maxNewPendingPerHour.value)
    && (rules.minActivationAge > 0 ==>
          && state.currentBlockHeight.Some?
          && info.inHeight + rules.minActivationAge <= state.currentBlockHeight.value
          && info.outHeight + rules.minActivationAge <= state.currentBlockHeight.value)
  }

  /** The steps see the keys at hand when the request came in, and the chain info of the first ones. */
  lemma DecisionSteps(rules: Rules, state: State, info: Info, inputs: Inputs)
    ensures var known := Known(state.channelKeys, inputs.lookups);
            var prepared := ChainPrepared(rules, state, inputs.wallet);
            Decision(rules, state, info, inputs) ==
            if ChainReason(rules, state, inputs.wallet).Some? then
              Reject(ChainReason(rules, state, inputs.wallet).value)
            else if StopReason(rules, known, info).Some? then Reject(StopReason(rules, known, info).value)
            else if PairReason(rules, known, info).Some? then Reject(PairReason(rules, known, info).value)
            else if LimitReason(rules, prepared, info, inputs.now).Some? then
              Reject(LimitReason(rules, prepared, info, inputs.now).value)
            else Accept
  {
    ChainSteps(rules, state, info, inputs);
    ListSteps(rules, ChainPrepared(rules, state, inputs.wallet), info, inputs);
  }

  lemma ListSteps(rules: Rules, state: State, info: Info, inputs: Inputs)
    ensures var known := Known(state.channelKeys, inputs.lookups);
            DecideFrom(rules, AtStops, state, info, inputs) ==
            if StopReason(rules, known, info).Some? then Reject(StopReason(rules, known, info).value)
            else if PairReason(rules, known, info).Some? then Reject(PairReason(rules, known, info).value)
            else if LimitReason(rules, state, info, inputs.now).Some? then
              Reject(LimitReason(rules, state, info, inputs.now).value)
            else Accept
  {
    var known := Known(state.channelKeys, inputs.lookups);
    var stopped := StateAfter(rules, AtStops, state, info, inputs);
    KnownStays(state.channelKeys, inputs.lookups, NeededAt(rules, AtStops, known, info));
    LastSteps(rules, stopped, info, inputs);
    assert DecideFrom(rules, AtStops, state, info, inputs) ==
      if StopReason(rules, known, info).Some? then Reject(StopReason(rules, known, info).value)
      else DecideFrom(rules, AtPairs, stopped, info, inputs);
  }

  lemma LastSteps(rules: Rules, state: State, info: Info, inputs: Inputs)
    ensures var known := Known(state.channelKeys, inputs.lookups);
            DecideFrom(rules, AtPairs, state, info, inputs) ==
            if PairReason(rules, known, info).Some? then Reject(PairReason(rules, known, info).value)
            else if LimitReason(rules, state, info, inputs.now).Some? then
              Reject(LimitReason(rules, state, info, inputs.now).value)
            else Accept
  {
    var last := StateAfter(rules, AtPairs, state, info, inputs);
    assert DecideFrom(rules, AtLimits, last, info, inputs) ==
      if LimitReason(rules, last, info, inputs.now).Some? then Reject(LimitReason(rules, last, info, inputs.now).value)
      else Accept;
  }

  lemma ChainSteps(rules: Rules, state: State, info: Info, inputs: Inputs)
    ensures Decision(rules, state, info, inputs) ==
            if ChainReason(rules, state, inputs.wallet).Some? then
              Reject(ChainReason(rules, state, inputs.wallet).value)
            else DecideFrom(rules, AtStops, ChainPrepared(rules, state, inputs.wallet), info, inputs)
  {
    assert StateAfter(rules, AtChain, state, info, inputs) == state;
    assert Decision(rules, state, info, inputs) ==
           DecideFrom(rules, Next(rules, AtChain, state), state, info, inputs);
  }

  /** A request is accepted exactly when every configured rule holds. */
  lemma AcceptedIffAllHold(rules: Rules, state: State, info: Info, inputs: Inputs)
    requires Thrown(rules).None? && ChainIsWhole(state)
    ensures var known := Known(state.channelKeys, inputs.lookups);
            var prepared := ChainPrepared(rules, state, inputs.wallet);
            Decision(rules, state, info, inputs) == Accept <==>
            && ChainIsKnown(rules, prepared)
            && StopListHolds(rules, known, info)
            && PairsHold(rules, known, info)
            && LimitsHold(rules, prepared, info, inputs.now)
  {
    DecisionSteps(rules, state, info, inputs);
    var known := Known(state.channelKeys, inputs.lookups);
    var prepared := ChainPrepared(rules, state, inputs.wallet);
    StopListIff(rules, known, info);
    PairsIff(rules, known, info);
    if ChainIsKnown(rules, prepared) {
      LimitsIff(rules, prepared, info, inputs.now);
    }
  }

  lemma StopListIff(rules: Rules, known: map<string, Keys>, info: Info)
    ensures StopReason(rules, known, info).None? <==> StopListHolds(rules, known, info)
  {
  }

  lemma PairsIff(rules: Rules, known: map<string, Keys>, info: Info)
    requires Thrown(rules).None?
    ensures PairReason(rules, known, info).None? <==> PairsHold(rules, known, info)
  {
  }

  lemma LimitsIff(rules: Rules, state: State, info: Info, now: int)
    requires ChainIsWhole(state) && ChainIsKnown(rules, state)
    ensures LimitReason(rules, state, info, now).None? <==> LimitsHold(rules, state, info, now)
  {
  }

  /** All that a decision depends on. */
  datatype Case = Case(rules: Rules, known: map<string, Keys>, state: State, info: Info, now: int)

  predicate BothKnown(c: Case) {
    c.info.inChannel in c.known && c.info.outChannel in c.known
  }

  function PeersOf(c: Case): Pair
    requires BothKnown(c)
  {
    Peers(c.known[c.info.inChannel], c.known[c.info.outChannel])
  }

  /** The request violates the rule that a reason names. */
  predicate Violates(c: Case, reason: Reason) {
    match reason
    case FailedToGetWalletInfo =>
      (c.rules.maxSecondsSinceLastBlock > 0 || c.rules.minActivationAge > 0) && c.state.latestBlockAt.None?
    case InboundChannelStopped => c.rules.stopChannels.Some? && c.info.inChannel in c.rules.stopChannels.value
    case UnknownStopChannel =>
      c.rules.stopChannels.Some? &&
      (c.info.outChannel !in c.known || exists id :: id in c.rules.stopChannels.value && id !in c.known)
    case OutboundChannelStopped =>
      c.rules.stopChannels.Some? && c.info.outChannel in c.known &&
      exists id :: id in c.rules.stopChannels.value && id in c.known && c.known[id] == c.known[c.info.outChannel]
    case UnknownRequestChannel => (c.rules.onlyAllow.Some? || c.rules.onlyDisallow.Some?) && !BothKnown(c)
    case PairNotAllowed =>
      c.rules.onlyAllow.Some? && BothKnown(c) && PeersOf(c) !in c.rules.onlyAllow.value
    case PairDenied =>
      c.rules.onlyDisallow.Some? && BothKnown(c) && PeersOf(c) in c.rules.onlyDisallow.value
    case LastBlockTooLongAgo =>
      c.rules.maxSecondsSinceLastBlock > 0 && c.state.latestBlockAt.Some? &&
      c.now - c.state.latestBlockAt.value > 1000 * c.rules.maxSecondsSinceLastBlock
    case NoNewHtlcsAccepted => c.rules.maxNewPendingPerHour == Some(0)
    case TooManyNewPendingHtlcs =>
      c.rules.maxNewPendingPerHour.Some? &&
      RecentCount(c.state.htlcs, c.now - 3600000) >= c.rules.maxNewPendingPerHour.value
    case ChannelTooNew =>
      c.rules.minActivationAge > 0 && c.state.currentBlockHeight.Some? &&
      (c.info.inHeight + c.rules.minActivationAge > c.state.currentBlockHeight.value ||
       c.info.outHeight + c.rules.minActivationAge > c.state.currentBlockHeight.value)
  }

  function FirstViolated(c: Case, reasons: seq<Reason>): Option<Reason> {
    if reasons == [] then None
    else if Violates(c, reasons[0]) then Some(reasons[0])
    else FirstViolated(c, reasons[1..])
  }

  const STOP_CHECKS := [InboundChannelStopped, UnknownStopChannel, OutboundChannelStopped]

  const PAIR_CHECKS := [UnknownRequestChannel, PairNotAllowed, PairDenied]

  const LIMIT_CHECKS := [LastBlockTooLongAgo, NoNewHtlcsAccepted, TooManyNewPendingHtlcs, ChannelTooNew]

  /** The rules in the order they are checked. */
  const CHECKS := [FailedToGetWalletInfo] + STOP_CHECKS + PAIR_CHECKS + LIMIT_CHECKS

  lemma {:induction false} FirstOfAppend(c: Case, a: seq<Reason>, b: seq<Reason>)
    ensures FirstViolated(c, a + b) == if FirstViolated(c, a).Some? then FirstViolated(c, a) else FirstViolated(c, b)
  {
    if a == [] {
      assert a + b == b;
    } else {
      assert (a + b)[1..] == a[1..] + b;
      FirstOfAppend(c, a[1..], b);
    }
  }

  lemma FirstOfThree(c: Case, x: Reason, y: Reason, z: Reason)
    ensures FirstViolated(c, [x, y, z]) ==
            if Violates(c, x) then Some(x)
            else if Violates(c, y) then Some(y)
            else if Violates(c, z) then Some(z)
            else None
  {
    assert [x, y, z][1..] == [y, z] && [y, z][1..] == [z] && [z][1..] == [];
    assert FirstViolated(c, [z]) == if Violates(c, z) then Some(z) else None;
    assert FirstViolated(c, [y, z]) == if Violates(c, y) then Some(y) else FirstViolated(c, [z]);
  }

  lemma StopsFindFirst(c: Case)
    ensures FirstViolated(c, STOP_CHECKS) == StopReason(c.rules, c.known, c.info)
  {
    FirstOfThree(c, InboundChannelStopped, UnknownStopChannel, OutboundChannelStopped);
  }

  lemma PairsFindFirst(c: Case)
    requires Thrown(c.rules).None?
    ensures FirstViolated(c, PAIR_CHECKS) == PairReason(c.rules, c.known, c.info)
  {
    FirstOfThree(c, UnknownRequestChannel, PairNotAllowed, PairDenied);
  }

  lemma LimitsFindFirst(c: Case)
    ensures FirstViolated(c, LIMIT_CHECKS) == LimitReason(c.rules, c.state, c.info, c.now)
  {
    var rest := [NoNewHtlcsAccepted, TooManyNewPendingHtlcs, ChannelTooNew];
    FirstOfThree(c, NoNewHtlcsAccepted, TooManyNewPendingHtlcs, ChannelTooNew);
    assert LIMIT_CHECKS[1..] == rest;
  }

  /** A request is rejected for the first rule it violates, in the order of the checks, or else accepted. */
  lemma RejectedForFirstViolation(rules: Rules, state: State, info: Info, inputs: Inputs)
    requires Thrown(rules).None?
    ensures var c := Case(rules, Known(state.channelKeys, inputs.lookups),
                          ChainPrepared(rules, state, inputs.wallet), info, inputs.now);
            Decision(rules, state, info, inputs) ==
            match FirstViolated(c, CHECKS)
            case Some(reason) => Reject(reason)
            case None => Accept
  {
    var c := Case(rules, Known(state.channelKeys, inputs.lookups),
                  ChainPrepared(rules, state, inputs.wallet), info, inputs.now);
    DecisionSteps(rules, state, info, inputs);
    StopsFindFirst(c);
    PairsFindFirst(c);
    LimitsFindFirst(c);
    var first := [FailedToGetWalletInfo];
    assert first[1..] == [];
    FirstOfAppend(c, first, STOP_CHECKS);
    FirstOfAppend(c, first + STOP_CHECKS, PAIR_CHECKS);
    FirstOfAppend(c, first + STOP_CHECKS + PAIR_CHECKS, LIMIT_CHECKS);
  }

  /** When a list rule applies and a channel it needs is not found, the request is rejected. */
  lemma UnknownChannelRejects(rules: Rules, state: State, info: Info, inputs: Inputs, id: string)
    requires id !in Known(state.channelKeys, inputs.lookups)
    requires
      || (rules.stopChannels.Some? && (id == info.outChannel || id in rules.stopChannels.value))
      || ((rules.onlyAllow.Some? || rules.onlyDisallow.Some?) && (id == info.inChannel || id == info.outChannel))
    ensures Decision(rules, state, info, inputs).Reject?
  {
    DecisionSteps(rules, state, info, inputs);
  }

  /** A channel in the cache acts as one that can be looked up; the cache matters in no other way. */
  lemma CacheActsAsLookup(rules: Rules, state: State, info: Info, inputs: Inputs)
    ensures Decision(rules, state, info, inputs) ==
            Decision(rules, state.(channelKeys := map[]), info,
                     inputs.(lookups := Known(state.channelKeys, inputs.lookups)))
  {
    var known := Known(state.channelKeys, inputs.lookups);
    assert Known(map[], known) == known;
    DecisionSteps(rules, state, info, inputs);
    DecisionSteps(rules, state.(channelKeys := map[]), info, inputs.(lookups := known));
  }

  predicate Agrees(cache: map<string, Keys>, lookups: map<string, Keys>) {
    forall id :: id in cache ==> id in lookups && lookups[id] == cache[id]
  }

  /** With a cache of what the lookups still answer, the decision is the one made without a cache. */
  lemma CacheDoesNotMatter(rules: Rules, state: State, info: Info, inputs: Inputs)
    requires Agrees(state.channelKeys, inputs.lookups)
    ensures Decision(rules, state, info, inputs) == Decision(rules, state.(channelKeys := map[]), info, inputs)
  {
    CacheActsAsLookup(rules, state, info, inputs);
    assert Known(state.channelKeys, inputs.lookups) == inputs.lookups;
  }

  // ----- peers and lists -----

  predicate Links(keys: Keys, a: string, b: string) {
    keys == Keys(a, b) || keys == Keys(b, a)
  }

  /**
   * For channels of a node with the peers a and b, the pair of peers comes out right exactly when the peers
   * differ or the node's own key is listed first in both channels.
   */
  lemma PeersResolveIff(inKeys: Keys, outKeys: Keys, self: string, a: string, b: string)
    requires self != a && self != b
    requires Links(inKeys, self, a) && Links(outKeys, self, b)
    ensures Peers(inKeys, outKeys) == Pair(a, b) <==> a != b || (inKeys.first == self && outKeys.first == self)
  {
  }

  /** Channels that share no key: the first key of each. */
  lemma PeersOfStrangers(inKeys: Keys, outKeys: Keys)
    requires inKeys.first != outKeys.first && inKeys.first != outKeys.second
    requires inKeys.second != outKeys.first && inKeys.second != outKeys.second
    ensures Peers(inKeys, outKeys) == Pair(inKeys.first, outKeys.first)
  {
  }

  /** Calling throws exactly for both lists at once, or for an empty one. */
  lemma ThrownIff(rules: Rules)
    ensures Thrown(rules).Some? <==>
            || (rules.onlyAllow.Some? && rules.onlyDisallow.Some?)
            || rules.onlyAllow == Some([]) || rules.onlyDisallow == Some([])
    ensures Thrown(rules) == Some(ExpectedEitherAllowOrDisallow) <==> rules.onlyAllow.Some? && rules.onlyDisallow.Some?
  {
  }

  /** One list allows what it would deny: with both channels found, exactly one of the two rules rejects. */
  lemma ListsAreComplementary(rules: Rules, list: seq<Pair>, known: map<string, Keys>, info: Info)
    ensures var allow := rules.(onlyAllow := Some(list), onlyDisallow := None);
            var deny := rules.(onlyAllow := None, onlyDisallow := Some(list));
            if info.inChannel in known && info.outChannel in known then
              PairReason(allow, known, info).None? <==> PairReason(deny, known, info) == Some(PairDenied)
            else
              PairReason(allow, known, info) == PairReason(deny, known, info) == Some(UnknownRequestChannel)
  {
  }

  /**
   * A step remembers the keys of a channel exactly when they can be looked up and the step needs them: for the stop
   * list, which is looked up only with the outbound channel found, or for a list of pairs. Keys at hand stay.
   */
  lemma RemembersIff(rules: Rules, stage: Stage, state: State, info: Info, inputs: Inputs, id: string)
    ensures var before, after := state.channelKeys, StateAfter(rules, stage, state, info, inputs).channelKeys;
            && (id in before ==> id in after && after[id] == before[id])
            && (id !in before ==>
                  (id in after <==>
                    && id in inputs.lookups
                    && (|| (stage == AtStops && rules.stopChannels.Some? &&
                            info.inChannel !in rules.stopChannels.value &&
                            (info.outChannel in before || info.outChannel in inputs.lookups) &&
                            (id == info.outChannel || id in rules.stopChannels.value))
                        || (stage == AtPairs && (rules.onlyAllow.Some? || rules.onlyDisallow.Some?) &&
                            (id == info.inChannel || id == info.outChannel)))))
            && (id !in before && id in after ==> after[id] == inputs.lookups[id])
  {
    var known := Known(state.channelKeys, inputs.lookups);
    LearnFacts(state.channelKeys, inputs.lookups, NeededAt(rules, stage, known, info), id);
  }
}
