/** The forward request rules over whole runs, in which requests, blocks and notices interleave. */
module FirewallRuns {
  import opened FirewallRules
  import opened ForwardFirewall
  import opened Wrappers

  datatype Event =
    | Block(height: int, now: int)
    | BlockTime(reply: Option<int>)
    | Notice(htlc: Forward)
    | Arrive(info: Info)
    | Proceed(k: nat, inputs: Inputs)

  datatype Pending = Pending(info: Info, stage: Stage, answers: seq<Answer>)

  datatype Emission = Emission(k: nat, event: Rejected)

  datatype World = World(state: State, requests: seq<Pending>, emitted: seq<Emission>)

  function Label(k: nat, events: seq<Rejected>): seq<Emission> {
    if events == [] then [] else Label(k, events[..|events| - 1]) + [Emission(k, events[|events| - 1])]
  }

  predicate CanProceed(world: World, k: nat) {
    k < |world.requests| && world.requests[k].stage != Done
  }

  /** The k-th request takes its next step. */
  function Proceeded(rules: Rules, world: World, k: nat, inputs: Inputs): World
    requires CanProceed(world, k)
  {
    var r := world.requests[k];
    var answers := AnswersTo(rules, r.stage, world.state, r.info, inputs);
    var stage := StageAfter(rules, r.stage, world.state, r.info, inputs);
    World(StateAfter(rules, r.stage, world.state, r.info, inputs),
          world.requests[k := Pending(r.info, stage, r.answers + answers)],
          world.emitted + Label(k, EventsFor(r.info, answers)))
  }

  /** One uninterrupted piece of a handler. A wallet reply about a block comes after the block. */
  function Step(rules: Rules, world: World, event: Event): World {
    match event
    case Block(height, now) => world.(state := BlockSeen(world.state, height, now))
    case BlockTime(reply) =>
      if world.state.currentBlockHeight.Some? && reply.Some? then
        world.(state := world.state.(latestBlockAt := reply))
      else world
    case Notice(htlc) => world.(state := world.state.(htlcs := Tracked(world.state.htlcs, htlc)))
    case Arrive(info) => world.(requests := world.requests + [Pending(info, AtChain, [])])
    case Proceed(k, inputs) => if CanProceed(world, k) then Proceeded(rules, world, k, inputs) else world
  }

  function Run(rules: Rules, events: seq<Event>): World {
    if events == [] then World(State(None, None, map[], map[]), [], [])
    else Step(rules, Run(rules, events[..|events| - 1]), events[|events| - 1])
  }

  function NoticesIn(events: seq<Event>): seq<Forward> {
    if events == [] then []
    else
      var last := events[|events| - 1];
      NoticesIn(events[..|events| - 1]) + if last.Notice? then [last.htlc] else []
  }

  /** Whatever the requests do, the tracked HTLCs are those of the notices so far. */
  lemma {:induction false} RunTracksNotices(rules: Rules, events: seq<Event>)
    ensures Run(rules, events).state.htlcs == HtlcsAfter(NoticesIn(events))
  {
    if events != [] {
      var n := |events| - 1;
      var before := NoticesIn(events[..n]);
      RunTracksNotices(rules, events[..n]);
      if events[n].Notice? {
        assert (before + [events[n].htlc])[..|before|] == before;
      } else {
        assert NoticesIn(events) == before;
      }
    }
  }

  lemma RunCountsForwards(rules: Rules, events: seq<Event>, now: int)
    ensures RecentCount(Run(rules, events).state.htlcs, HourBefore(now)) ==
            |RecentIds(NoticesIn(events), HourBefore(now))|
  {
    RunTracksNotices(rules, events);
    RateCountsForwards(NoticesIn(events), HourBefore(now));
  }

  /** The answers of a request after a further step of it. */
  function AnswersAfter(rules: Rules, events: seq<Event>, k: nat, inputs: Inputs): seq<Answer>
    requires CanProceed(Run(rules, events), k)
  {
    StepOf(rules, events, k, inputs);
    Run(rules, events + [Proceed(k, inputs)]).requests[k].answers
  }

  lemma StepOf(rules: Rules, events: seq<Event>, k: nat, inputs: Inputs)
    requires CanProceed(Run(rules, events), k)
    ensures var world := Run(rules, events);
            Run(rules, events + [Proceed(k, inputs)]) == Proceeded(rules, world, k, inputs)
  {
    assert (events + [Proceed(k, inputs)])[..|events|] == events;
  }

  lemma AnswersOfStep(rules: Rules, events: seq<Event>, k: nat, inputs: Inputs)
    requires CanProceed(Run(rules, events), k)
    ensures var world := Run(rules, events);
            var r := world.requests[k];
            AnswersAfter(rules, events, k, inputs) == AnswersTo(rules, r.stage, world.state, r.info, inputs)
  {
    var world := Run(rules, events);
    var r := world.requests[k];
    StepOf(rules, events, k, inputs);
    NeverAnsweredTwice(rules, events, k);
    assert [] + AnswersTo(rules, r.stage, world.state, r.info, inputs) ==
           AnswersTo(rules, r.stage, world.state, r.info, inputs);
  }

  // ----- every request is answered exactly once -----

  predicate AnsweredOnce(r: Pending) {
    if r.stage == Done then |r.answers| == 1 else r.answers == []
  }

  lemma StepAnswersOnce(rules: Rules, world: World, event: Event, k: nat)
    requires k < |world.requests| && AnsweredOnce(world.requests[k])
    ensures k < |Step(rules, world, event).requests| && AnsweredOnce(Step(rules, world, event).requests[k])
  {
    if event.Proceed? && event.k == k && CanProceed(world, k) {
      var r := world.requests[k];
      assert r.answers + AnswersTo(rules, r.stage, world.state, r.info, event.inputs) ==
             AnswersTo(rules, r.stage, world.state, r.info, event.inputs);
    }
  }

  lemma {:induction false} NeverAnsweredTwice(rules: Rules, events: seq<Event>, k: nat)
    requires k < |Run(rules, events).requests|
    ensures AnsweredOnce(Run(rules, events).requests[k])
  {
    if events != [] {
      var n := |events| - 1;
      var before := Run(rules, events[..n]);
      if k < |before.requests| {
        NeverAnsweredTwice(rules, events[..n], k);
        StepAnswersOnce(rules, before, events[n], k);
      } else {
        assert Run(rules, events) == Step(rules, before, events[n]);
      }
    }
  }

  /** How often the k-th request got to run after it arrived. */
  function Turns(rules: Rules, events: seq<Event>, k: nat): nat {
    if events == [] then 0
    else
      var n := |events| - 1;
      var isTurn := events[n].Proceed? && events[n].k == k && k < |Run(rules, events[..n]).requests|;
      Turns(rules, events[..n], k) + if isTurn then 1 else 0
  }

  /** The steps a request has left, and the turns it had, are at most five together. */
  predicate OnTime(world: World, k: nat, turns: nat) {
    if k < |world.requests| then
      world.requests[k].stage == Done || Rank(world.requests[k].stage) + turns <= 5
    else
      turns == 0
  }

  lemma StepIsOnTime(rules: Rules, world: World, event: Event, k: nat, turns: nat)
    requires OnTime(world, k, turns)
    ensures OnTime(Step(rules, world, event), k,
                   turns + if event.Proceed? && event.k == k && k < |world.requests| then 1 else 0)
  {
    if k < |world.requests| && !event.Proceed? {
      assert Step(rules, world, event).requests[k] == world.requests[k];
    }
  }

  lemma {:induction false} TurnsAdvance(rules: Rules, events: seq<Event>, k: nat)
    ensures OnTime(Run(rules, events), k, Turns(rules, events, k))
  {
    if events != [] {
      var n := |events| - 1;
      TurnsAdvance(rules, events[..n], k);
      StepIsOnTime(rules, Run(rules, events[..n]), events[n], k, Turns(rules, events[..n], k));
    }
  }

  /** However requests, blocks and notices interleave, five turns answer a request, and no more than once. */
  lemma AnsweredExactlyOnce(rules: Rules, events: seq<Event>, k: nat)
    requires Turns(rules, events, k) >= 5
    ensures k < |Run(rules, events).requests| && |Run(rules, events).requests[k].answers| == 1
  {
    TurnsAdvance(rules, events, k);
    NeverAnsweredTwice(rules, events, k);
  }

  function EmittedFor(emitted: seq<Emission>, k: nat): seq<Rejected> {
    if emitted == [] then []
    else
      var last := emitted[|emitted| - 1];
      EmittedFor(emitted[..|emitted| - 1], k) + if last.k == k then [last.event] else []
  }

  lemma EmitOne(emitted: seq<Emission>, other: nat, events: seq<Rejected>, k: nat)
    requires |events| <= 1
    ensures EmittedFor(emitted + Label(other, events), k) == EmittedFor(emitted, k) + if other == k then events else []
  {
    if events == [] {
      assert emitted + Label(other, events) == emitted;
    } else {
      assert events == [events[0]] && Label(other, events) == [Emission(other, events[0])];
      assert (emitted + Label(other, events))[..|emitted|] == emitted;
    }
  }

  /** One event with the channels and the reason for a request that was rejected, and none for any other. */
  predicate HasEmitted(world: World, k: nat) {
    EmittedFor(world.emitted, k) ==
    if k < |world.requests| && world.requests[k].answers != [] && world.requests[k].answers[0].Reject? then
      var r := world.requests[k];
      [Rejected(r.info.inChannel, r.info.outChannel, r.answers[0].reason)]
    else []
  }

  lemma ProceedEmits(rules: Rules, world: World, other: nat, inputs: Inputs, k: nat)
    requires CanProceed(world, other) && AnsweredOnce(world.requests[other]) && HasEmitted(world, k)
    ensures HasEmitted(Proceeded(rules, world, other, inputs), k)
  {
    var r := world.requests[other];
    var answers := AnswersTo(rules, r.stage, world.state, r.info, inputs);
    EmitOne(world.emitted, other, EventsFor(r.info, answers), k);
    assert [] + answers == answers;
  }

  /** A request has one `rejected` event when it was rejected, with that reason, and none otherwise. */
  lemma {:induction false} RejectionsAreEmitted(rules: Rules, events: seq<Event>, k: nat)
    ensures HasEmitted(Run(rules, events), k)
  {
    if events != [] {
      var n := |events| - 1;
      var before, event := Run(rules, events[..n]), events[n];
      RejectionsAreEmitted(rules, events[..n], k);
      if event.Proceed? && event.k < |before.requests| {
        NeverAnsweredTwice(rules, events[..n], event.k);
      }
      StepEmits(rules, before, event, k);
    }
  }

  lemma StepEmits(rules: Rules, world: World, event: Event, k: nat)
    requires HasEmitted(world, k)
    requires event.Proceed? && event.k < |world.requests| ==> AnsweredOnce(world.requests[event.k])
    ensures HasEmitted(Step(rules, world, event), k)
  {
    if event.Proceed? && CanProceed(world, event.k) {
      ProceedEmits(rules, world, event.k, event.inputs, k);
    } else {
      QuietStep(rules, world, event, k);
    }
  }

  lemma QuietStep(rules: Rules, world: World, event: Event, k: nat)
    requires !(event.Proceed? && CanProceed(world, event.k)) && HasEmitted(world, k)
    ensures HasEmitted(Step(rules, world, event), k)
  {
    var next := Step(rules, world, event);
    assert next.emitted == world.emitted;
    if k < |world.requests| {
      assert next.requests[k] == world.requests[k];
    }
  }

  // ----- the time of the last block -----

  /** The time of the last block that an event tells, if it tells one. */
  function TimeTold(world: World, event: Event): Option<int> {
    match event
    case Block(_, now) => if world.state.latestBlockAt.Some? then Some(now) else None
    case BlockTime(reply) => if world.state.currentBlockHeight.Some? then reply else None
    case Proceed(k, inputs) =>
      if CanProceed(world, k) && world.requests[k].stage == AtWallet && inputs.wallet.Some? then
        Some(inputs.wallet.value.latestBlockAt)
      else None
    case _ => None
  }

  /** The last time told in a run. */
  function LastTold(rules: Rules, events: seq<Event>): Option<int> {
    if events == [] then None
    else
      var n := |events| - 1;
      var told := TimeTold(Run(rules, events[..n]), events[n]);
      if told.Some? then told else LastTold(rules, events[..n])
  }

  lemma StepTells(rules: Rules, world: World, event: Event)
    ensures var told := TimeTold(world, event);
            Step(rules, world, event).state.latestBlockAt == if told.Some? then told else world.state.latestBlockAt
  {
  }

  /** The rules go by the time told last, which need not be the latest one. */
  lemma {:induction false} BlockTimeIsLastTold(rules: Rules, events: seq<Event>)
    ensures Run(rules, events).state.latestBlockAt == LastTold(rules, events)
  {
    if events != [] {
      var n := |events| - 1;
      BlockTimeIsLastTold(rules, events[..n]);
      StepTells(rules, Run(rules, events[..n]), events[n]);
    }
  }

  /** An event turns the time of the last block back exactly when it tells an earlier one than is known. */
  lemma TimeTurnsBackIff(rules: Rules, world: World, event: Event)
    ensures var before, after := world.state.latestBlockAt, Step(rules, world, event).state.latestBlockAt;
            && (before.Some? ==> after.Some?)
            && (before.Some? && after.value < before.value <==>
                  before.Some? && TimeTold(world, event).Some? && TimeTold(world, event).value < before.value)
  {
  }

  /** A request asks the wallet, a block and its time come in, and then the older reply replaces them. */
  lemma LateReplyTurnsBack(rules: Rules, info: Info, inputs: Inputs, height: int, now: int, at: int)
    requires NeedsChain(rules) && inputs.wallet.Some?
    ensures var asked := Run(rules, [Arrive(info), Proceed(0, inputs)]);
            var told := Step(rules, Step(rules, asked, Block(height, now)), BlockTime(Some(at)));
            var replied := Step(rules, told, Proceed(0, inputs));
            && told.state.latestBlockAt == Some(at) && told.state.currentBlockHeight == Some(height)
            && replied.state.latestBlockAt == Some(inputs.wallet.value.latestBlockAt)
            && replied.state.currentBlockHeight == Some(inputs.wallet.value.currentBlockHeight)
  {
    var events := [Arrive(info), Proceed(0, inputs)];
    assert events[..1] == [Arrive(info)] && [Arrive(info)][..0] == [];
    assert Run(rules, [Arrive(info)]).requests == [Pending(info, AtChain, [])];
    assert Run(rules, events).requests == [Pending(info, AtWallet, [])];
  }

  // ----- the chain info as it was told -----

  /** What was told of the chain, how many requests came, which of them started, and which wait for the wallet. */
  datatype Told = Told(
    time: Option<int>,
    height: Option<int>,
    arrived: nat,
    started: set<nat>,
    waiting: set<nat>)

  /**
   * A block tells its height, and its time once a time is known; the reply to a block tells a time. A request
   * asks the wallet in its first step, if a rule on blocks or ages is set and no time is known, and its next
   * step has the reply, which tells both.
   */
  function Hear(rules: Rules, told: Told, event: Event): Told {
    match event
    case Block(height, now) =>
      told.(height := Some(height), time := if told.time.Some? then Some(now) else None)
    case BlockTime(reply) =>
      if told.height.Some? && reply.Some? then told.(time := reply) else told
    case Arrive(_) => told.(arrived := told.arrived + 1)
    case Proceed(k, inputs) =>
      if k < told.arrived && k !in told.started then
        var asks := (rules.maxSecondsSinceLastBlock > 0 || rules.minActivationAge > 0) && told.time.None?;
        told.(started := told.started + {k}, waiting := if asks then told.waiting + {k} else told.waiting)
      else if k in told.waiting then
        var answered := told.(waiting := told.waiting - {k});
        if inputs.wallet.None? then answered
        else
          answered.(time := Some(inputs.wallet.value.latestBlockAt),
                    height := Some(inputs.wallet.value.currentBlockHeight))
      else told
    case Notice(_) => told
  }

  function Heard(rules: Rules, events: seq<Event>): Told {
    if events == [] then Told(None, None, 0, {}, {})
    else Hear(rules, Heard(rules, events[..|events| - 1]), events[|events| - 1])
  }

  predicate HearsOf(told: Told, world: World, k: nat)
    requires k < |world.requests|
  {
    && (k in told.started <==> world.requests[k].stage != AtChain)
    && (k in told.waiting <==> world.requests[k].stage == AtWallet)
  }

  ghost predicate Hears(told: Told, world: World) {
    && told.time == world.state.latestBlockAt && told.height == world.state.currentBlockHeight
    && told.arrived == |world.requests|
    && (forall k :: k in told.started ==> k < told.arrived)
    && (forall k :: k in told.waiting ==> k < told.arrived)
    && forall k: nat :: k < |world.requests| ==> HearsOf(told, world, k)
  }

  lemma ProceedHears(rules: Rules, told: Told, world: World, k: nat, inputs: Inputs)
    requires Hears(told, world) && CanProceed(world, k)
    ensures Hears(Hear(rules, told, Proceed(k, inputs)), Proceeded(rules, world, k, inputs))
  {
    var after, next := Hear(rules, told, Proceed(k, inputs)), Proceeded(rules, world, k, inputs);
    assert HearsOf(told, world, k);
    forall j: nat | j < |next.requests|
      ensures HearsOf(after, next, j)
    {
      assert HearsOf(told, world, j);
    }
  }

  lemma StepHears(rules: Rules, told: Told, world: World, event: Event)
    requires Hears(told, world)
    ensures Hears(Hear(rules, told, event), Step(rules, world, event))
  {
    if event.Proceed? {
      if CanProceed(world, event.k) {
        ProceedHears(rules, told, world, event.k, event.inputs);
      } else if event.k < |world.requests| {
        assert HearsOf(told, world, event.k);
      }
    } else {
      var after, next := Hear(rules, told, event), Step(rules, world, event);
      forall j: nat | j < |next.requests|
        ensures HearsOf(after, next, j)
      {
        if j < |world.requests| {
          assert HearsOf(told, world, j);
        }
      }
    }
  }

  /** In every run the chain info in force is what was told last, and the requests that wait are those that asked. */
  lemma {:induction false} ChainInfoIsLastTold(rules: Rules, events: seq<Event>)
    ensures Hears(Heard(rules, events), Run(rules, events))
  {
    if events != [] {
      var n := |events| - 1;
      ChainInfoIsLastTold(rules, events[..n]);
      StepHears(rules, Heard(rules, events[..n]), Run(rules, events[..n]), events[n]);
    }
  }

  /** Without a rule on blocks or ages no request ever waits for the wallet. */
  lemma {:induction false} NoChainRuleNeverAsks(rules: Rules, events: seq<Event>, k: nat)
    requires rules.maxSecondsSinceLastBlock == 0 && rules.minActivationAge == 0
    requires k < |Run(rules, events).requests|
    ensures Run(rules, events).requests[k].stage != AtWallet
  {
    ChainInfoIsLastTold(rules, events);
    assert HearsOf(Heard(rules, events), Run(rules, events), k);
    NobodyWaits(rules, events);
  }

  lemma {:induction false} NobodyWaits(rules: Rules, events: seq<Event>)
    requires rules.maxSecondsSinceLastBlock == 0 && rules.minActivationAge == 0
    ensures Heard(rules, events).waiting == {}
  {
    if events != [] {
      NobodyWaits(rules, events[..|events| - 1]);
    }
  }

  /** The block told last is recent enough for the rules, as far as its time is known. */
  predicate BlockIsRecent(rules: Rules, told: Told, now: int) {
    rules.maxSecondsSinceLastBlock > 0 && told.time.Some? ==>
      now - told.time.value <= 1000 * rules.maxSecondsSinceLastBlock
  }

  /**
   * In every run, a request at its last step is rejected by the rate rule exactly when the block rule lets it
   * through and so many distinct forwards with both channels and indices were noticed within the hour and not
   * resolved. Forwards that lack one are not counted; when none does, the number is that of all pending forwards.
   */
  lemma RateRuleOverRuns(rules: Rules, events: seq<Event>, k: nat, inputs: Inputs)
    requires CanProceed(Run(rules, events), k) && Run(rules, events).requests[k].stage == AtLimits
    ensures var after := inputs.now - 3600000;
            AnswersAfter(rules, events, k, inputs) == [Reject(TooManyNewPendingHtlcs)] <==>
            && BlockIsRecent(rules, Heard(rules, events), inputs.now)
            && rules.maxNewPendingPerHour.Some? && rules.maxNewPendingPerHour.value > 0
            && rules.maxNewPendingPerHour.value <= |RecentIds(NoticesIn(events), after)|
    ensures var after := inputs.now - 3600000;
            && |RecentIds(NoticesIn(events), after)| <= |PendingIds(NoticesIn(events), after)|
            && (|RecentIds(NoticesIn(events), after)| == |PendingIds(NoticesIn(events), after)| <==>
                  AllCountable(NoticesIn(events), after))
  {
    var state, r := Run(rules, events).state, Run(rules, events).requests[k];
    AnswersOfStep(rules, events, k, inputs);
    ChainInfoIsLastTold(rules, events);
    RunTracksNotices(rules, events);
    RateAnswerIff(rules, Heard(rules, events), state, NoticesIn(events), r.info, inputs);
    RecentIsWholeIff(NoticesIn(events), inputs.now - 3600000);
  }

  lemma RateAnswerIff(
    rules: Rules, told: Told, state: State, notices: seq<Forward>, info: Info, inputs: Inputs)
    requires told.time == state.latestBlockAt && state.htlcs == HtlcsAfter(notices)
    ensures AnswersTo(rules, AtLimits, state, info, inputs) == [Reject(TooManyNewPendingHtlcs)] <==>
            && BlockIsRecent(rules, told, inputs.now)
            && rules.maxNewPendingPerHour.Some? && rules.maxNewPendingPerHour.value > 0
            && rules.maxNewPendingPerHour.value <= |RecentIds(notices, inputs.now - 3600000)|
  {
    RateReasonIff(rules, told, state, info, inputs.now);
    RateCountsForwards(notices, inputs.now - 3600000);
  }

  lemma RateReasonIff(rules: Rules, told: Told, state: State, info: Info, now: int)
    requires told.time == state.latestBlockAt
    ensures LimitReason(rules, state, info, now) == Some(TooManyNewPendingHtlcs) <==>
            && BlockIsRecent(rules, told, now)
            && rules.maxNewPendingPerHour.Some? && rules.maxNewPendingPerHour.value > 0
            && rules.maxNewPendingPerHour.value <= RecentCount(state.htlcs, now - 3600000)
  {
  }

  lemma HoldAtIff(rules: Rules, told: Told, state: State, info: Info, now: int)
    requires told.time == state.latestBlockAt && told.height == state.currentBlockHeight
    ensures LimitsHoldAt(rules, told, RecentCount(state.htlcs, now - 3600000), info, now) <==>
            LimitsHold(rules, state, info, now)
  {
  }

  /** The block told last is recent, the rate is kept, and both channels are old enough at the height told last. */
  predicate LimitsHoldAt(rules: Rules, told: Told, forwards: nat, info: Info, now: int) {
    && (rules.maxSecondsSinceLastBlock > 0 ==>
          told.time.Some? && now - told.time.value <= 1000 * rules.maxSecondsSinceLastBlock)
    && (rules.maxNewPendingPerHour.Some? ==> forwards < rules.maxNewPendingPerHour.value)
    && (rules.minActivationAge > 0 ==>
          && told.height.Some?
          && info.inHeight + rules.minActivationAge <= told.height.value
          && info.outHeight + rules.minActivationAge <= told.height.value)
  }

  // ----- an interleaved answer is the decision made without a cache -----

  /** The lookups of a run may fail, but give no other keys than the network has. */
  predicate LooksUp(events: seq<Event>, network: map<string, Keys>) {
    forall i :: 0 <= i < |events| && events[i].Proceed? ==> Agrees(events[i].inputs.lookups, network)
  }

  /** What a request that is still going has passed, judged with the keys of the network. */
  predicate HasPassed(rules: Rules, state: State, network: map<string, Keys>, r: Pending) {
    && (r.stage in [AtStops, AtPairs, AtLimits] ==> ChainIsKnown(rules, state))
    && (r.stage in [AtPairs, AtLimits] ==> StopReason(rules, network, r.info).None?)
    && (r.stage == AtLimits ==> PairReason(rules, network, r.info).None?)
  }

  ghost predicate IsSound(rules: Rules, network: map<string, Keys>, world: World) {
    && ChainIsWhole(world.state)
    && Agrees(world.state.channelKeys, network)
    && forall k :: 0 <= k < |world.requests| ==> HasPassed(rules, world.state, network, world.requests[k])
  }

  lemma KnownAgrees(
    cache: map<string, Keys>, lookups: map<string, Keys>, network: map<string, Keys>, ids: seq<string>)
    requires Agrees(cache, network) && Agrees(lookups, network)
    ensures Agrees(Known(cache, lookups), network)
    ensures Agrees(Learn(cache, lookups, ids), network)
  {
    forall id | id in Learn(cache, lookups, ids)
      ensures id in network && network[id] == Learn(cache, lookups, ids)[id]
    {
      LearnFacts(cache, lookups, ids, id);
    }
  }

  predicate AsksStops(rules: Rules, info: Info) {
    rules.stopChannels.Some? && info.inChannel !in rules.stopChannels.value
  }

  predicate AsksPairs(rules: Rules) {
    rules.onlyAllow.Some? || rules.onlyDisallow.Some?
  }

  /** A call that the step awaits fails: the wallet, or the lookup of a channel whose keys are not at hand. */
  predicate CallFails(rules: Rules, stage: Stage, known: map<string, Keys>, info: Info, inputs: Inputs) {
    match stage
    case AtWallet => inputs.wallet.None?
    case AtStops => AsksStops(rules, info) && !AllKnown(known, [info.outChannel] + rules.stopChannels.value)
    case AtPairs => AsksPairs(rules) && !AllKnown(known, [info.inChannel, info.outChannel])
    case _ => false
  }

  /** The reason such a failure is rejected for. */
  function FailureAt(stage: Stage): Reason {
    match stage
    case AtWallet => FailedToGetWalletInfo
    case AtStops => UnknownStopChannel
    case _ => UnknownRequestChannel
  }

  lemma NeededForStops(known: map<string, Keys>, out: string, stops: seq<string>)
    ensures AllKnown(known, [out] + stops) <==> out in known && AllKnown(known, stops)
  {
    var all := [out] + stops;
    assert all[0] == out;
    assert forall id :: id in stops ==> id in all;
  }

  /** With the keys it needs, the stop list decides as with those of the whole network; without, it rejects. */
  lemma StopsAgree(rules: Rules, known: map<string, Keys>, network: map<string, Keys>, info: Info, inputs: Inputs)
    requires Agrees(known, network)
    ensures StopReason(rules, known, info) ==
            if CallFails(rules, AtStops, known, info, inputs) then Some(UnknownStopChannel)
            else StopReason(rules, network, info)
  {
    if AsksStops(rules, info) {
      NeededForStops(known, info.outChannel, rules.stopChannels.value);
    }
  }

  lemma PairsAgree(rules: Rules, known: map<string, Keys>, network: map<string, Keys>, info: Info, inputs: Inputs)
    requires Agrees(known, network)
    ensures PairReason(rules, known, info) ==
            if CallFails(rules, AtPairs, known, info, inputs) then Some(UnknownRequestChannel)
            else PairReason(rules, network, info)
  {
    var both := [info.inChannel, info.outChannel];
    assert both[0] in both && both[1] in both;
  }

  /** Chain info that was there stays there. */
  lemma StillPassed(rules: Rules, a: State, b: State, network: map<string, Keys>, r: Pending)
    requires HasPassed(rules, a, network, r) && (a.latestBlockAt.Some? ==> b.latestBlockAt.Some?)
    ensures HasPassed(rules, b, network, r)
  {
  }

  lemma StepPasses(rules: Rules, network: map<string, Keys>, world: World, k: nat, inputs: Inputs)
    requires CanProceed(world, k) && HasPassed(rules, world.state, network, world.requests[k])
    requires Agrees(world.state.channelKeys, network) && Agrees(inputs.lookups, network)
    ensures var next := Proceeded(rules, world, k, inputs);
            HasPassed(rules, next.state, network, next.requests[k])
  {
    var r, known := world.requests[k], Known(world.state.channelKeys, inputs.lookups);
    KnownAgrees(world.state.channelKeys, inputs.lookups, network, []);
    StopsAgree(rules, known, network, r.info, inputs);
    PairsAgree(rules, known, network, r.info, inputs);
  }

  lemma ProceedIsSound(rules: Rules, network: map<string, Keys>, world: World, k: nat, inputs: Inputs)
    requires IsSound(rules, network, world) && CanProceed(world, k) && Agrees(inputs.lookups, network)
    ensures IsSound(rules, network, Proceeded(rules, world, k, inputs))
  {
    var r, next := world.requests[k], Proceeded(rules, world, k, inputs);
    var cache := world.state.channelKeys;
    KnownAgrees(cache, inputs.lookups, network, NeededAt(rules, r.stage, Known(cache, inputs.lookups), r.info));
    StepPasses(rules, network, world, k, inputs);
    forall j | 0 <= j < |next.requests|
      ensures HasPassed(rules, next.state, network, next.requests[j])
    {
      if j != k {
        StillPassed(rules, world.state, next.state, network, world.requests[j]);
      }
    }
  }

  lemma {:induction false} RunIsSound(rules: Rules, network: map<string, Keys>, events: seq<Event>)
    requires LooksUp(events, network)
    ensures IsSound(rules, network, Run(rules, events))
  {
    if events != [] {
      var n := |events| - 1;
      RunIsSound(rules, network, events[..n]);
      var before, event := Run(rules, events[..n]), events[n];
      if event.Proceed? && CanProceed(before, event.k) {
        ProceedIsSound(rules, network, before, event.k, event.inputs);
      } else {
        var after := Run(rules, events);
        forall k | 0 <= k < |after.requests|
          ensures HasPassed(rules, after.state, network, after.requests[k])
        {
          if k < |before.requests| {
            StillPassed(rules, before.state, after.state, network, before.requests[k]);
          }
        }
      }
    }
  }

  /** The decision of a handler that has no cache and whose lookups do not fail. */
  function CachelessDecision(
    rules: Rules, network: map<string, Keys>, state: State, info: Info, inputs: Inputs): Answer
  {
    Decision(rules, state.(channelKeys := map[]), info, inputs.(lookups := network))
  }

  lemma StepAnswers(rules: Rules, network: map<string, Keys>, state: State, r: Pending, inputs: Inputs)
    requires HasPassed(rules, state, network, r)
    requires Agrees(state.channelKeys, network) && Agrees(inputs.lookups, network)
    ensures var known := Known(state.channelKeys, inputs.lookups);
            var answers := AnswersTo(rules, r.stage, state, r.info, inputs);
            answers != [] ==>
              answers == [if CallFails(rules, r.stage, known, r.info, inputs) then Reject(FailureAt(r.stage))
                          else CachelessDecision(rules, network, state, r.info, inputs)]
  {
    var known := Known(state.channelKeys, inputs.lookups);
    KnownAgrees(state.channelKeys, inputs.lookups, network, []);
    StopsAgree(rules, known, network, r.info, inputs);
    PairsAgree(rules, known, network, r.info, inputs);
    assert Known(map[], network) == network;
    DecisionSteps(rules, state.(channelKeys := map[]), r.info, inputs.(lookups := network));
  }

  /**
   * In every run, with any lookups failing at any time: a step that answers a request rejects it for a call of
   * its own that failed, or else gives the answer an uninterrupted handler without a cache and without failing
   * lookups would give at that moment.
   */
  lemma AnswerIsCachelessDecision(rules: Rules, network: map<string, Keys>, events: seq<Event>, k: nat, inputs: Inputs)
    requires LooksUp(events, network) && Agrees(inputs.lookups, network)
    requires CanProceed(Run(rules, events), k)
    ensures var state, r := Run(rules, events).state, Run(rules, events).requests[k];
            var known := Known(state.channelKeys, inputs.lookups);
            var answers := AnswersAfter(rules, events, k, inputs);
            answers != [] ==>
              answers == [if CallFails(rules, r.stage, known, r.info, inputs) then Reject(FailureAt(r.stage))
                          else CachelessDecision(rules, network, state, r.info, inputs)]
  {
    RunIsSound(rules, network, events);
    AnswersOfStep(rules, events, k, inputs);
    StepAnswers(rules, network, Run(rules, events).state, Run(rules, events).requests[k], inputs);
  }

  /**
   * In every run, with any lookups failing at any time: a step accepts a request exactly when it is the last one
   * and every configured rule holds, judged by the keys of the network, the chain info told last and the
   * forwards noticed so far.
   */
  lemma AcceptedIffAllHoldInRun(rules: Rules, network: map<string, Keys>, events: seq<Event>, k: nat, inputs: Inputs)
    requires Thrown(rules).None? && LooksUp(events, network)
    requires CanProceed(Run(rules, events), k)
    ensures var r := Run(rules, events).requests[k];
            AnswersAfter(rules, events, k, inputs) == [Accept] <==>
            && r.stage == AtLimits
            && StopListHolds(rules, network, r.info)
            && PairsHold(rules, network, r.info)
            && LimitsHoldAt(rules, Heard(rules, events), |RecentIds(NoticesIn(events), inputs.now - 3600000)|,
                            r.info, inputs.now)
  {
    var state, r := Run(rules, events).state, Run(rules, events).requests[k];
    RunIsSound(rules, network, events);
    AnswersOfStep(rules, events, k, inputs);
    ChainInfoIsLastTold(rules, events);
    RunTracksNotices(rules, events);
    assert HasPassed(rules, state, network, r);
    AcceptingIff(rules, network, Heard(rules, events), state, NoticesIn(events), r, inputs);
  }

  lemma AcceptingIff(
    rules: Rules, network: map<string, Keys>, told: Told, state: State,
    notices: seq<Forward>, r: Pending, inputs: Inputs)
    requires Thrown(rules).None? && HasPassed(rules, state, network, r) && ChainIsWhole(state) && r.stage != Done
    requires told.time == state.latestBlockAt && told.height == state.currentBlockHeight
    requires state.htlcs == HtlcsAfter(notices)
    ensures AnswersTo(rules, r.stage, state, r.info, inputs) == [Accept] <==>
            && r.stage == AtLimits
            && StopListHolds(rules, network, r.info)
            && PairsHold(rules, network, r.info)
            && LimitsHoldAt(rules, told, |RecentIds(notices, inputs.now - 3600000)|, r.info, inputs.now)
  {
    HoldAtIff(rules, told, state, r.info, inputs.now);
    RateCountsForwards(notices, inputs.now - 3600000);
    if r.stage == AtLimits {
      StopListIff(rules, network, r.info);
      PairsIff(rules, network, r.info);
      LimitsIff(rules, state, r.info, inputs.now);
    }
  }
}
