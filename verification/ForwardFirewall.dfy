/** Forward requests held against rules on channels, peers, block times, HTLC rates and channel ages. */
module ForwardFirewall {
  import opened Wrappers

  /** The public keys of the two policies of a channel, in the order they are listed. */
  datatype Keys = Keys(first: string, second: string)

  predicate Includes(keys: Keys, key: string) {
    key == keys.first || key == keys.second
  }

  datatype Pair = Pair(inboundPeer: string, outboundPeer: string)

  /** A number that is zero sets no rule, except a rate of zero, which lets nothing through. */
  datatype Rules = Rules(
    maxNewPendingPerHour: Option<nat>,
    maxSecondsSinceLastBlock: nat,
    minActivationAge: nat,
    onlyAllow: Option<seq<Pair>>,
    onlyDisallow: Option<seq<Pair>>,
    stopChannels: Option<seq<string>>)

  datatype ArgumentError = ExpectedEitherAllowOrDisallow | ExpectedAllowPairs | ExpectedDisallowPairs

  /** What calling with these rules throws. */
  function Thrown(rules: Rules): Option<ArgumentError> {
    if rules.onlyAllow.Some? && rules.onlyDisallow.Some? then Some(ExpectedEitherAllowOrDisallow)
    else if rules.onlyAllow == Some([]) then Some(ExpectedAllowPairs)
    else if rules.onlyDisallow == Some([]) then Some(ExpectedDisallowPairs)
    else None
  }

  predicate NeedsChain(rules: Rules) {
    rules.maxSecondsSinceLastBlock > 0 || rules.minActivationAge > 0
  }

  /** The heights are those encoded in the two channel ids. */
  datatype Info = Info(inChannel: string, outChannel: string, inHeight: nat, outHeight: nat)

  datatype Reason =
    | FailedToGetWalletInfo
    | InboundChannelStopped
    | UnknownStopChannel
    | OutboundChannelStopped
    | UnknownRequestChannel
    | PairNotAllowed
    | PairDenied
    | LastBlockTooLongAgo
    | NoNewHtlcsAccepted
    | TooManyNewPendingHtlcs
    | ChannelTooNew

  datatype Answer = Accept | Reject(reason: Reason)

  datatype HtlcId = HtlcId(inChannel: string, inPayment: nat, outChannel: string, outPayment: nat)

  /** A notice about a forward. Ids that are missing, empty or zero make it one that is ignored. */
  datatype Forward = Forward(
    inChannel: string,
    inPayment: nat,
    outChannel: string,
    outPayment: nat,
    isConfirmed: bool,
    isFailed: bool,
    at: int)

  predicate IsRelevant(htlc: Forward) {
    htlc.inChannel != "" && htlc.inPayment != 0 && htlc.outChannel != "" && htlc.outPayment != 0
  }

  function IdOf(htlc: Forward): HtlcId {
    HtlcId(htlc.inChannel, htlc.inPayment, htlc.outChannel, htlc.outPayment)
  }

  predicate IsResolved(htlc: Forward) {
    htlc.isConfirmed || htlc.isFailed
  }

  datatype State = State(
    currentBlockHeight: Option<int>,
    latestBlockAt: Option<int>,
    channelKeys: map<string, Keys>,
    htlcs: map<HtlcId, int>)

  datatype WalletInfo = WalletInfo(currentBlockHeight: int, latestBlockAt: int)

  /**
   * What the calls a step of a request awaits answer: None for a failed wallet call, and a failed lookup for
   * every channel that has no keys. Times are in milliseconds.
   */
  datatype Inputs = Inputs(wallet: Option<WalletInfo>, lookups: map<string, Keys>, now: int)

  /**
   * The steps a request goes through; every step runs without interruption. A request that misses chain info asks
   * the wallet, and waits for the reply at AtWallet.
   */
  datatype Stage = AtChain | AtWallet | AtStops | AtPairs | AtLimits | Done

  predicate MissesChain(rules: Rules, state: State) {
    NeedsChain(rules) && state.latestBlockAt.None?
  }

  /** Where a request that is not answered goes on. */
  function Next(rules: Rules, stage: Stage, state: State): Stage {
    match stage
    case AtChain => if MissesChain(rules, state) then AtWallet else AtStops
    case AtWallet => AtStops
    case AtStops => AtPairs
    case AtPairs => AtLimits
    case AtLimits => Done
    case Done => Done
  }

  // ----- what each step decides -----

  /** The keys at hand: those remembered, and those the lookups give for other channels. */
  function Known(cache: map<string, Keys>, lookups: map<string, Keys>): map<string, Keys> {
    lookups + cache
  }

  /** The reply replaces whatever chain info came in while it was awaited. */
  function WalletTold(state: State, wallet: Option<WalletInfo>): State {
    if wallet.None? then state
    else
      state.(currentBlockHeight := Some(wallet.value.currentBlockHeight),
             latestBlockAt := Some(wallet.value.latestBlockAt))
  }

  function WalletReason(wallet: Option<WalletInfo>): Option<Reason> {
    if wallet.None? then Some(FailedToGetWalletInfo) else None
  }

  function KeysOf(known: map<string, Keys>, id: string): Option<Keys> {
    if id in known then Some(known[id]) else None
  }

  predicate AllKnown(known: map<string, Keys>, ids: seq<string>) {
    forall id :: id in ids ==> id in known
  }

  predicate SharesKeys(known: map<string, Keys>, ids: seq<string>, id: string)
    requires id in known
  {
    exists other :: other in ids && other in known && known[other] == known[id]
  }

  function StopReason(rules: Rules, known: map<string, Keys>, info: Info): Option<Reason> {
    if rules.stopChannels.None? then None
    else if info.inChannel in rules.stopChannels.value then Some(InboundChannelStopped)
    else if info.outChannel !in known || !AllKnown(known, rules.stopChannels.value) then Some(UnknownStopChannel)
    else if SharesKeys(known, rules.stopChannels.value, info.outChannel) then Some(OutboundChannelStopped)
    else None
  }

  /** The peers of a forward, told from the keys of its channels. */
  function Peers(inKeys: Keys, outKeys: Keys): Pair {
    Pair(if !Includes(outKeys, inKeys.first) then inKeys.first else inKeys.second,
         if Includes(inKeys, outKeys.first) then outKeys.second else outKeys.first)
  }

  /** What the allow or the deny list says about two peers. */
  function ListReason(rules: Rules, peers: Pair): Option<Reason>
    requires rules.onlyAllow.Some? || rules.onlyDisallow.Some?
  {
    if rules.onlyDisallow.None? && peers !in rules.onlyAllow.value then Some(PairNotAllowed)
    else if rules.onlyAllow.None? && peers in rules.onlyDisallow.value then Some(PairDenied)
    else None
  }

  function PairReason(rules: Rules, known: map<string, Keys>, info: Info): Option<Reason> {
    if rules.onlyAllow.None? && rules.onlyDisallow.None? then None
    else if info.inChannel !in known || info.outChannel !in known then Some(UnknownRequestChannel)
    else ListReason(rules, Peers(known[info.inChannel], known[info.outChannel]))
  }

  function HourBefore(now: int): int {
    now - 60 * 60 * 1000
  }

  function RecentCount(htlcs: map<HtlcId, int>, after: int): nat {
    |set id | id in htlcs && htlcs[id] > after|
  }

  function LimitReason(rules: Rules, state: State, info: Info, now: int): Option<Reason> {
    if rules.maxSecondsSinceLastBlock > 0 && state.latestBlockAt.Some? &&
       state.latestBlockAt.value < now - 1000 * rules.maxSecondsSinceLastBlock then Some(LastBlockTooLongAgo)
    else if rules.maxNewPendingPerHour == Some(0) then Some(NoNewHtlcsAccepted)
    else if rules.maxNewPendingPerHour.Some? &&
       RecentCount(state.htlcs, HourBefore(now)) >= rules.maxNewPendingPerHour.value then Some(TooManyNewPendingHtlcs)
    else if rules.minActivationAge > 0 && state.currentBlockHeight.Some? &&
       Max(info.inHeight, info.outHeight) > state.currentBlockHeight.value - rules.minActivationAge
       then Some(ChannelTooNew)
    else None
  }

  function Max(a: int, b: int): int {
    if a > b then a else b
  }

  function ReasonAt(rules: Rules, stage: Stage, state: State, info: Info, inputs: Inputs): Option<Reason> {
    match stage
    case AtChain => None
    case AtWallet => WalletReason(inputs.wallet)
    case AtStops => StopReason(rules, Known(state.channelKeys, inputs.lookups), info)
    case AtPairs => PairReason(rules, Known(state.channelKeys, inputs.lookups), info)
    case AtLimits => LimitReason(rules, state, info, inputs.now)
    case Done => None
  }

  // ----- what each step remembers -----

  /** Remember the keys of some channels, as far as they can be looked up. */
  function Learn(cache: map<string, Keys>, lookups: map<string, Keys>, ids: seq<string>): map<string, Keys> {
    if ids == [] then cache
    else
      var n := |ids| - 1;
      var front := Learn(cache, lookups, ids[..n]);
      if ids[n] !in front && ids[n] in lookups then front[ids[n] := lookups[ids[n]]] else front
  }

  /** The channels whose keys the step needs. A stop list is looked up only once the outbound channel is known. */
  function NeededAt(rules: Rules, stage: Stage, known: map<string, Keys>, info: Info): seq<string> {
    if stage == AtStops && rules.stopChannels.Some? && info.inChannel !in rules.stopChannels.value &&
       info.outChannel in known then
      [info.outChannel] + rules.stopChannels.value
    else if stage == AtPairs && (rules.onlyAllow.Some? || rules.onlyDisallow.Some?) then
      [info.inChannel, info.outChannel]
    else
      []
  }

  function StateAfter(rules: Rules, stage: Stage, state: State, info: Info, inputs: Inputs): State {
    if stage == AtWallet then WalletTold(state, inputs.wallet)
    else
      var needed := NeededAt(rules, stage, Known(state.channelKeys, inputs.lookups), info);
      state.(channelKeys := Learn(state.channelKeys, inputs.lookups, needed))
  }

  function Tracked(htlcs: map<HtlcId, int>, htlc: Forward): map<HtlcId, int> {
    if !IsRelevant(htlc) then htlcs
    else if IsResolved(htlc) then htlcs - {IdOf(htlc)}
    else htlcs[IdOf(htlc) := htlc.at]
  }

  function BlockSeen(state: State, height: int, now: int): State {
    state.(currentBlockHeight := Some(height),
           latestBlockAt := if state.latestBlockAt.None? then None else Some(now))
  }

  /** The answer when nothing comes between the steps that remain. */
  function DecideFrom(rules: Rules, stage: Stage, state: State, info: Info, inputs: Inputs): Answer
    decreases Rank(stage)
  {
    var reason := ReasonAt(rules, stage, state, info, inputs);
    if reason.Some? then Reject(reason.value)
    else if Next(rules, stage, state) == Done then Accept
    else DecideFrom(rules, Next(rules, stage, state), StateAfter(rules, stage, state, info, inputs), info, inputs)
  }

  function Rank(stage: Stage): nat {
    match stage
    case AtChain => 5
    case AtWallet => 4
    case AtStops => 3
    case AtPairs => 2
    case AtLimits => 1
    case Done => 0
  }

  function Decision(rules: Rules, state: State, info: Info, inputs: Inputs): Answer {
    DecideFrom(rules, AtChain, state, info, inputs)
  }

  // ----- the handlers -----

  datatype Rejected = Rejected(inChannel: string, outChannel: string, reason: Reason)

  function AnswersTo(rules: Rules, stage: Stage, state: State, info: Info, inputs: Inputs): seq<Answer> {
    var reason := ReasonAt(rules, stage, state, info, inputs);
    if reason.Some? then [Reject(reason.value)] else if stage == AtLimits then [Accept] else []
  }

  function StageAfter(rules: Rules, stage: Stage, state: State, info: Info, inputs: Inputs): Stage {
    if ReasonAt(rules, stage, state, info, inputs).Some? then Done else Next(rules, stage, state)
  }

  function EventsFor(info: Info, answers: seq<Answer>): seq<Rejected> {
    if answers != [] && answers[0].Reject? then [Rejected(info.inChannel, info.outChannel, answers[0].reason)] else []
  }

  class Request {
    const info: Info
    var stage: Stage
    var answers: seq<Answer>

    constructor (info: Info)
      ensures this.info == info && stage == AtChain && answers == []
    {
      this.info := info;
      stage := AtChain;
      answers := [];
    }
  }

  class Firewall {
    const rules: Rules
    var currentBlockHeight: Option<int>
    var latestBlockAt: Option<int>
    var channelKeys: map<string, Keys>
    var htlcs: map<HtlcId, int>
    var rejected: seq<Rejected>
    var isEnded: bool

    constructor (rules: Rules)
      requires Thrown(rules).None?
      ensures this.rules == rules && rejected == [] && !isEnded
      ensures Snapshot() == State(None, None, map[], map[])
    {
      this.rules := rules;
      currentBlockHeight := None;
      latestBlockAt := None;
      channelKeys := map[];
      htlcs := map[];
      rejected := [];
      isEnded := false;
    }

    function Snapshot(): State
      reads this
    {
      State(currentBlockHeight, latestBlockAt, channelKeys, htlcs)
    }

    /** A block arrives. The first time, the caller goes on to ask the wallet for the time of it. */
    method OnBlock(height: int, now: int) returns (asksWallet: bool)
      modifies `currentBlockHeight, `latestBlockAt
      ensures Snapshot() == BlockSeen(old(Snapshot()), height, now)
      ensures asksWallet == old(latestBlockAt).None?
    {
      currentBlockHeight := Some(height);
      if latestBlockAt.None? {
        return true;
      }
      latestBlockAt := Some(now);
      return false;
    }

    method OnBlockTime(reply: Option<int>)
      modifies `latestBlockAt, `isEnded
      ensures latestBlockAt == if reply.Some? then reply else old(latestBlockAt)
      ensures isEnded == (old(isEnded) || reply.None?)
    {
      match reply
      case Some(at) => latestBlockAt := Some(at);
      case None => isEnded := true;
    }

    method OnForward(htlc: Forward)
      modifies `htlcs
      ensures htlcs == Tracked(old(htlcs), htlc)
    {
      if htlc.inChannel == "" || htlc.inPayment == 0 {
        return;
      }
      if htlc.outChannel == "" || htlc.outPayment == 0 {
        return;
      }
      var id := IdOf(htlc);
      if htlc.isConfirmed || htlc.isFailed {
        htlcs := htlcs - {id};
        return;
      }
      htlcs := htlcs[id := htlc.at];
    }

    /** Whether chain info must be asked for. */
    method AsksWallet() returns (asks: bool)
      ensures asks == MissesChain(rules, Snapshot())
    {
      var isChain := rules.maxSecondsSinceLastBlock > 0 || rules.minActivationAge > 0;
      asks := isChain && latestBlockAt.None?;
    }

    /** The wallet replies: take its chain info, or reject and end the monitoring. */
    method TakeWalletInfo(wallet: Option<WalletInfo>) returns (reason: Option<Reason>)
      modifies `currentBlockHeight, `latestBlockAt, `isEnded
      ensures reason == WalletReason(wallet)
      ensures Snapshot() == WalletTold(old(Snapshot()), wallet)
      ensures isEnded == (old(isEnded) || reason.Some?)
    {
      match wallet
      case None =>
        isEnded := true;
        return Some(FailedToGetWalletInfo);
      case Some(info) =>
        currentBlockHeight := Some(info.currentBlockHeight);
        latestBlockAt := Some(info.latestBlockAt);
        return None;
    }

    /** The keys of a channel, from the cache when they are there. */
    method FindKeys(id: string, lookups: map<string, Keys>) returns (keys: Option<Keys>)
      modifies `channelKeys
      ensures channelKeys == Learn(old(channelKeys), lookups, [id])
      ensures keys == KeysOf(Known(old(channelKeys), lookups), id)
    {
      LearnOne(channelKeys, lookups, id);
      if id in channelKeys {
        return Some(channelKeys[id]);
      }
      if id !in lookups {
        return None;
      }
      channelKeys := channelKeys[id := lookups[id]];
      return Some(lookups[id]);
    }

    /** The keys of one channel more, after those of some others were found. */
    method FindMore(before: seq<string>, id: string, lookups: map<string, Keys>, ghost cache: map<string, Keys>)
      returns (keys: Option<Keys>)
      requires channelKeys == Learn(cache, lookups, before)
      modifies `channelKeys
      ensures channelKeys == Learn(cache, lookups, before + [id])
      ensures keys == KeysOf(Known(cache, lookups), id)
    {
      LearnMore(cache, lookups, before, id);
      keys := FindKeys(id, lookups);
    }

    /** The keys of each of some channels, unless one is not found. Those found are remembered in any case. */
    method FindAllKeys(before: seq<string>, ids: seq<string>, lookups: map<string, Keys>,
                       ghost cache: map<string, Keys>)
      returns (found: Option<seq<Keys>>)
      requires channelKeys == Learn(cache, lookups, before)
      modifies `channelKeys
      ensures channelKeys == Learn(cache, lookups, before + ids)
      ensures found.Some? <==> AllKnown(Known(cache, lookups), ids)
      ensures found.Some? ==> Collects(found.value, Known(cache, lookups), ids)
    {
      var pairs: seq<Keys>, hasFailed := [], false;
      ghost var known := Known(cache, lookups);
      assert before + ids[..0] == before;
      for i := 0 to |ids|
        invariant channelKeys == Learn(cache, lookups, before + ids[..i])
        invariant hasFailed <==> !AllKnown(known, ids[..i])
        invariant Collects(pairs, known, ids[..i])
      {
        var keys := FindMore(before + ids[..i], ids[i], lookups, cache);
        OneMoreId(known, ids[..i], ids[i], keys);
        OneMoreCollected(pairs, known, ids[..i], ids[i], keys);
        assert ids[..i + 1] == ids[..i] + [ids[i]];
        assert before + ids[..i + 1] == before + ids[..i] + [ids[i]];
        if keys.Some? {
          pairs := pairs + [keys.value];
        } else {
          hasFailed := true;
        }
      }
      assert ids[..|ids|] == ids;
      return if hasFailed then None else Some(pairs);
    }

    method CheckStopChannels(info: Info, lookups: map<string, Keys>) returns (reason: Option<Reason>)
      modifies `channelKeys
      ensures var known := Known(old(channelKeys), lookups);
              && reason == StopReason(rules, known, info)
              && channelKeys == Learn(old(channelKeys), lookups, NeededAt(rules, AtStops, known, info))
    {
      if rules.stopChannels.None? {
        return None;
      }
      var stops := rules.stopChannels.value;
      if info.inChannel in stops {
        return Some(InboundChannelStopped);
      }
      ghost var cache := channelKeys;
      var stopOut := FindKeys(info.outChannel, lookups);
      if stopOut.None? {
        LearnNothing(cache, lookups, info.outChannel);
        return Some(UnknownStopChannel);
      }
      var stopPairs := FindAllKeys([info.outChannel], stops, lookups, cache);
      if stopPairs.None? {
        return Some(UnknownStopChannel);
      }
      if stopOut.value in stopPairs.value {
        return Some(OutboundChannelStopped);
      }
      return None;
    }

    method CheckPairs(info: Info, lookups: map<string, Keys>) returns (reason: Option<Reason>)
      modifies `channelKeys
      ensures var known := Known(old(channelKeys), lookups);
              && reason == PairReason(rules, known, info)
              && channelKeys == Learn(old(channelKeys), lookups, NeededAt(rules, AtPairs, known, info))
    {
      if rules.onlyAllow.None? && rules.onlyDisallow.None? {
        return None;
      }
      ghost var cache := channelKeys;
      var foundIn := FindKeys(info.inChannel, lookups);
      var foundOut := FindMore([info.inChannel], info.outChannel, lookups, cache);
      assert [info.inChannel] + [info.outChannel] == [info.inChannel, info.outChannel];
      if foundIn.None? || foundOut.None? {
        return Some(UnknownRequestChannel);
      }
      reason := JudgePair(foundIn.value, foundOut.value);
    }

    /** Hold the peers of a forward against the allow or the deny list. */
    method JudgePair(inKeys: Keys, outKeys: Keys) returns (reason: Option<Reason>)
      requires rules.onlyAllow.Some? || rules.onlyDisallow.Some?
      ensures reason == ListReason(rules, Peers(inKeys, outKeys))
    {
      var hasAllowList, hasDenyList := rules.onlyAllow.Some?, rules.onlyDisallow.Some?;
      var list := if hasAllowList then rules.onlyAllow.value else rules.onlyDisallow.value;
      var inKey := if !Includes(outKeys, inKeys.first) then inKeys.first else inKeys.second;
      var outKey := if Includes(inKeys, outKeys.first) then outKeys.second else outKeys.first;
      var isListed := Pair(inKey, outKey) in list;
      var isAllowed := (hasAllowList && isListed) || (hasDenyList && !isListed);
      if hasAllowList && !isAllowed {
        return Some(PairNotAllowed);
      }
      if hasDenyList && !isAllowed {
        return Some(PairDenied);
      }
      return None;
    }

    method CheckLimits(info: Info, now: int) returns (reason: Option<Reason>)
      ensures reason == LimitReason(rules, Snapshot(), info, now)
    {
      if rules.maxSecondsSinceLastBlock > 0 {
        var oldest := now - 1000 * rules.maxSecondsSinceLastBlock;
        if latestBlockAt.Some? && latestBlockAt.value < oldest {
          return Some(LastBlockTooLongAgo);
        }
      }
      if rules.maxNewPendingPerHour == Some(0) {
        return Some(NoNewHtlcsAccepted);
      }
      if rules.maxNewPendingPerHour.Some? {
        var pendingCount := RecentCount(htlcs, HourBefore(now));
        if pendingCount >= rules.maxNewPendingPerHour.value {
          return Some(TooManyNewPendingHtlcs);
        }
      }
      if rules.minActivationAge > 0 && currentBlockHeight.Some? {
        var maxHeight := currentBlockHeight.value - rules.minActivationAge;
        if Max(info.inHeight, info.outHeight) > maxHeight {
          return Some(ChannelTooNew);
        }
      }
      return None;
    }

    /** Take a request through its next step; other handlers may run between two steps. */
    method Advance(request: Request, inputs: Inputs)
      requires request.stage != Done
      modifies this, request
      ensures Snapshot() == StateAfter(rules, old(request.stage), old(Snapshot()), request.info, inputs)
      ensures request.stage == StageAfter(rules, old(request.stage), old(Snapshot()), request.info, inputs)
      ensures var answers := AnswersTo(rules, old(request.stage), old(Snapshot()), request.info, inputs);
              && request.answers == old(request.answers) + answers
              && rejected == old(rejected) + EventsFor(request.info, answers)
    {
      var reason: Option<Reason>, asks := None, false;
      match request.stage {
        case AtChain => asks := AsksWallet();
        case AtWallet => reason := TakeWalletInfo(inputs.wallet);
        case AtStops => reason := CheckStopChannels(request.info, inputs.lookups);
        case AtPairs => reason := CheckPairs(request.info, inputs.lookups);
        case AtLimits => reason := CheckLimits(request.info, inputs.now);
      }
      if reason.Some? {
        rejected := rejected + [Rejected(request.info.inChannel, request.info.outChannel, reason.value)];
        request.answers := request.answers + [Reject(reason.value)];
        request.stage := Done;
      } else {
        match request.stage {
          case AtChain => request.stage := if asks then AtWallet else AtStops;
          case AtWallet => request.stage := AtStops;
          case AtStops => request.stage := AtPairs;
          case AtPairs => request.stage := AtLimits;
          case AtLimits =>
            request.answers := request.answers + [Accept];
            request.stage := Done;
        }
      }
    }

    /** A request that is not interrupted is answered once, with the decision. */
    method OnForwardRequest(request: Request, inputs: Inputs)
      requires request.stage == AtChain && request.answers == []
      modifies this, request
      ensures request.stage == Done
      ensures request.answers == [Decision(rules, old(Snapshot()), request.info, inputs)]
      ensures rejected == old(rejected) + EventsFor(request.info, request.answers)
    {
      while request.stage != Done
        invariant request.stage != Done ==>
            && request.answers == [] && rejected == old(rejected)
            && DecideFrom(rules, request.stage, Snapshot(), request.info, inputs) ==
               Decision(rules, old(Snapshot()), request.info, inputs)
        invariant request.stage == Done ==>
            && request.answers == [Decision(rules, old(Snapshot()), request.info, inputs)]
            && rejected == old(rejected) + EventsFor(request.info, request.answers)
        decreases Rank(request.stage)
      {
        Advance(request, inputs);
      }
    }
  }

  predicate KeysAmong(known: map<string, Keys>, ids: seq<string>, keys: Keys) {
    exists id :: id in ids && id in known && known[id] == keys
  }

  /** The list holds exactly the keys of the channels that have some. */
  ghost predicate Collects(pairs: seq<Keys>, known: map<string, Keys>, ids: seq<string>) {
    forall keys :: keys in pairs <==> KeysAmong(known, ids, keys)
  }

  lemma OneMoreId(known: map<string, Keys>, ids: seq<string>, id: string, keys: Option<Keys>)
    requires keys == KeysOf(known, id)
    ensures AllKnown(known, ids + [id]) <==> AllKnown(known, ids) && keys.Some?
  {
    var more := ids + [id];
    assert id in more && forall other :: other in ids ==> other in more;
  }

  lemma OneMoreCollected(
    pairs: seq<Keys>, known: map<string, Keys>, ids: seq<string>, id: string, keys: Option<Keys>)
    requires keys == KeysOf(known, id) && Collects(pairs, known, ids)
    ensures Collects(if keys.Some? then pairs + [keys.value] else pairs, known, ids + [id])
  {
    var more := ids + [id];
    forall other
      ensures KeysAmong(known, more, other) <==> KeysAmong(known, ids, other) || keys == Some(other)
    {
      assert id in more && forall x :: x in ids ==> x in more;
    }
  }

  lemma {:induction false} LearnFacts(
    cache: map<string, Keys>, lookups: map<string, Keys>, ids: seq<string>, id: string)
    ensures id in Learn(cache, lookups, ids) <==> id in cache || (id in ids && id in lookups)
    ensures id in Learn(cache, lookups, ids) ==> Learn(cache, lookups, ids)[id] == Known(cache, lookups)[id]
  {
    if ids != [] {
      var n := |ids| - 1;
      LearnFacts(cache, lookups, ids[..n], id);
      assert ids == ids[..n] + [ids[n]];
    }
  }

  /** Remembering keys that were looked up does not change the keys at hand. */
  lemma KnownStays(cache: map<string, Keys>, lookups: map<string, Keys>, ids: seq<string>)
    ensures Known(Learn(cache, lookups, ids), lookups) == Known(cache, lookups)
  {
    var before, after := Known(cache, lookups), Known(Learn(cache, lookups, ids), lookups);
    forall id
      ensures id in after <==> id in before
      ensures id in after ==> after[id] == before[id]
    {
      LearnFacts(cache, lookups, ids, id);
    }
  }

  lemma LearnOne(cache: map<string, Keys>, lookups: map<string, Keys>, id: string)
    ensures Learn(cache, lookups, [id]) ==
            if id !in cache && id in lookups then cache[id := lookups[id]] else cache
  {
    assert [id][..0] == [];
  }

  lemma LearnNothing(cache: map<string, Keys>, lookups: map<string, Keys>, id: string)
    requires id !in Known(cache, lookups)
    ensures Learn(cache, lookups, [id]) == Learn(cache, lookups, [])
  {
    LearnOne(cache, lookups, id);
  }

  lemma LearnMore(cache: map<string, Keys>, lookups: map<string, Keys>, ids: seq<string>, id: string)
    ensures Learn(Learn(cache, lookups, ids), lookups, [id]) == Learn(cache, lookups, ids + [id])
    ensures Known(Learn(cache, lookups, ids), lookups) == Known(cache, lookups)
  {
    assert (ids + [id])[..|ids|] == ids;
    KnownStays(cache, lookups, ids);
  }
}
