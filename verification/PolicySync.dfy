/** Channel policy records. */
module PolicySync {
  import opened Wrappers
  import opened ChangesToRecord
  import opened GuardedSync

  datatype Policy = Policy(
    baseFeeMtokens: Option<string>,
    cltvDelta: Option<nat>,
    feeRate: Option<nat>,
    isDisabled: Option<bool>,
    maxHtlcMtokens: Option<string>,
    minHtlcMtokens: Option<string>,
    publicKey: string,
    updatedAt: Option<string>)

  datatype Channel = Channel(id: string, policies: seq<Policy>, updatedAt: Option<string>)

  /** The policy author, and the channel as looked up after the read; None when it is not found. */
  datatype Input = Input(publicKey: string, channel: Option<Channel>)

  datatype Key = Key(publicKey: string, id: string)

  function FindPolicy(policies: seq<Policy>, publicKey: string): Option<Policy> {
    if policies == [] then None
    else if policies[0].publicKey == publicKey then Some(policies[0])
    else FindPolicy(policies[1..], publicKey)
  }

  function NewRecord(id: string, policy: Policy): Record {
    map[
      Rev := Plain(Num(0)),
      BaseFeeMtokens := OptStr(policy.baseFeeMtokens),
      CltvDelta := OptNum(policy.cltvDelta),
      FeeRate := OptNum(policy.feeRate),
      Id := Plain(Str(id)),
      IsDisabled := OptBool(policy.isDisabled),
      MaxHtlcMtokens := OptStr(policy.maxHtlcMtokens),
      MinHtlcMtokens := OptStr(policy.minHtlcMtokens),
      PublicKey := Plain(Str(policy.publicKey)),
      UpdatedAt := OptStr(policy.updatedAt)]
  }

  /** The attributes an update compares. */
  const COMPARED: set<Attr> :=
    {BaseFeeMtokens, CltvDelta, FeeRate, IsDisabled, MaxHtlcMtokens, MinHtlcMtokens, UpdatedAt}

  function View(record: Record): Record {
    map a | a in COMPARED :: Get(record, a)
  }

  function PolicyAttr(policy: Policy, a: Attr): Value {
    match a
    case BaseFeeMtokens => OptStr(policy.baseFeeMtokens)
    case CltvDelta => OptNum(policy.cltvDelta)
    case FeeRate => OptNum(policy.feeRate)
    case IsDisabled => OptBool(policy.isDisabled)
    case MaxHtlcMtokens => OptStr(policy.maxHtlcMtokens)
    case MinHtlcMtokens => OptStr(policy.minHtlcMtokens)
    case UpdatedAt => OptStr(policy.updatedAt)
    case _ => NOTHING
  }

  function Updated(policy: Policy): Record {
    map a | a in COMPARED :: PolicyAttr(policy, a)
  }

  /** A policy is created only once it is known to be enabled or disabled at some date. */
  function CreatePlan(input: Input, channel: Channel): Plan {
    match FindPolicy(channel.policies, input.publicKey)
    case None => Failed
    case Some(policy) =>
      if !Truthy(OptStr(policy.updatedAt)) || policy.isDisabled.None? then Nothing
      else Create(NewRecord(channel.id, policy))
  }

  /** Reading the date of a policy that is not in the channel throws, which fails the attempt. */
  function UpdatePlan(input: Input, channel: Channel, record: Record): Plan {
    if !Truthy(OptStr(channel.updatedAt)) then Nothing
    else match FindPolicy(channel.policies, input.publicKey)
      case None => Failed
      case Some(policy) =>
        if !Truthy(OptStr(policy.updatedAt)) then Nothing
        else match DiffOf(View(record), Updated(policy))
          case Err(_) => Failed
          case Ok(Unchanged) => Nothing
          case Ok(Changed(changes, _, _)) => Update(changes)
  }

  function Planned(input: Input, stored: Option<Record>): Plan {
    match (input.channel, stored)
    case (None, _) => Nothing
    case (Some(channel), None) => CreatePlan(input, channel)
    case (Some(channel), Some(record)) => UpdatePlan(input, channel, record)
  }

  lemma PlannedIsDisciplined()
    ensures Disciplined(Planned)
  {
    forall input: Input, stored: Option<Record>
      ensures match Planned(input, stored)
              case Create(record) => stored.None? && RevOf(record) == Plain(Num(0))
              case Update(changes) => stored.Some? && Rev in changes && changes[Rev] == Add(1)
              case _ => true
    {
      if input.channel.Some? && stored.Some? {
        var found := FindPolicy(input.channel.value.policies, input.publicKey);
        if found.Some? {
          assert Rev !in ChangedAttrs(View(stored.value), Updated(found.value));
        }
      }
    }
  }

  predicate Shaped(r: Record) {
    forall a :: a in COMPARED ==> Get(r, a).Plain?
  }

  /** Every compared attribute is the one of the author's policy in the input. */
  predicate Reflects(r: Record, input: Input) {
    && input.channel.Some?
    && var found := FindPolicy(input.channel.value.policies, input.publicKey);
       found.Some? && forall a :: a in COMPARED ==> Get(r, a) == PolicyAttr(found.value, a)
  }

  lemma PolicyAttrIsPlain(policy: Policy, a: Attr)
    ensures PolicyAttr(policy, a).Plain?
  {
  }

  lemma ViewsCompare(record: Record, policy: Policy)
    requires Shaped(record)
    ensures ViewOf(View(record), record) && Comparable(View(record), Updated(policy))
    ensures forall a :: a in COMPARED ==>
      a in Updated(policy) && Updated(policy)[a] == PolicyAttr(policy, a) && Updated(policy)[a].Plain?
  {
    forall a
      ensures PolicyAttr(policy, a).Plain?
    {
      PolicyAttrIsPlain(policy, a);
    }
  }

  lemma UpdateReachesPolicy(record: Record, policy: Policy)
    requires Shaped(record)
    ensures forall a :: a in COMPARED ==>
      Get(Synced(record, View(record), Updated(policy)), a) == PolicyAttr(policy, a)
  {
    ViewsCompare(record, policy);
    SyncReachesUpdated(record, View(record), Updated(policy));
  }

  lemma NewRecordReaches(id: string, policy: Policy, a: Attr)
    requires a in COMPARED
    ensures Get(NewRecord(id, policy), a) == PolicyAttr(policy, a)
  {
  }

  lemma CreateReflects(input: Input, channel: Channel)
    requires input.channel == Some(channel) && CreatePlan(input, channel).Create?
    ensures Reflects(CreatePlan(input, channel).record, input)
  {
    var policy := FindPolicy(channel.policies, input.publicKey).value;
    forall a | a in COMPARED
      ensures Get(NewRecord(channel.id, policy), a) == PolicyAttr(policy, a)
    {
      NewRecordReaches(channel.id, policy, a);
    }
  }

  lemma UpdateReflects(input: Input, channel: Channel, record: Record)
    requires input.channel == Some(channel) && Shaped(record)
    requires UpdatePlan(input, channel, record).Update?
    ensures Reflects(Apply(record, UpdatePlan(input, channel, record).changes), input)
  {
    var policy := FindPolicy(channel.policies, input.publicKey).value;
    UpdateReachesPolicy(record, policy);
    assert Apply(record, UpdatePlan(input, channel, record).changes) ==
           Synced(record, View(record), Updated(policy));
  }

  /** A write replaces every compared attribute by that of its one input: no mix of two writers. */
  lemma WriteReflectsInput(input: Input, stored: Option<Record>)
    requires stored.Some? ==> Shaped(stored.value)
    requires Writing(Planned(input, stored))
    ensures var after := Sequential(Planned, stored, input);
            after.Some? && Shaped(after.value) && Reflects(after.value, input)
  {
    var channel := input.channel.value;
    if stored.Some? {
      UpdateReflects(input, channel, stored.value);
    } else {
      CreateReflects(input, channel);
    }
    ReflectingIsShaped(Sequential(Planned, stored, input).value, input);
  }

  lemma ReflectingIsShaped(r: Record, input: Input)
    requires Reflects(r, input)
    ensures Shaped(r)
  {
    var policy := FindPolicy(input.channel.value.policies, input.publicKey).value;
    forall a | a in COMPARED
      ensures Get(r, a).Plain?
    {
      PolicyAttrIsPlain(policy, a);
    }
  }

  // ----- what a write stores and when it is made, stated on the input -----

  function Text(s: Option<string>): Value {
    if s.Some? then Plain(Str(s.value)) else Plain(Undefined)
  }

  function Number(n: Option<nat>): Value {
    if n.Some? then Plain(Num(n.value)) else Plain(Undefined)
  }

  predicate Takes(r: Record, policy: Policy) {
    && Get(r, BaseFeeMtokens) == Text(policy.baseFeeMtokens)
    && Get(r, CltvDelta) == Number(policy.cltvDelta)
    && Get(r, FeeRate) == Number(policy.feeRate)
    && Get(r, IsDisabled) ==
         (if policy.isDisabled.Some? then Plain(Bool(policy.isDisabled.value)) else Plain(Undefined))
    && Get(r, MaxHtlcMtokens) == Text(policy.maxHtlcMtokens)
    && Get(r, MinHtlcMtokens) == Text(policy.minHtlcMtokens)
    && Get(r, UpdatedAt) == Text(policy.updatedAt)
  }

  /** The i-th policy is the first one of an author. */
  predicate IsFirstOf(policies: seq<Policy>, i: int, publicKey: string) {
    && 0 <= i < |policies| && policies[i].publicKey == publicKey
    && forall j :: 0 <= j < i ==> policies[j].publicKey != publicKey
  }

  predicate HasDate(date: Option<string>) {
    date.Some? && date.value != ""
  }

  lemma {:induction false} FindIsFirst(policies: seq<Policy>, publicKey: string)
    ensures match FindPolicy(policies, publicKey)
            case Some(policy) => exists i :: IsFirstOf(policies, i, publicKey) && policies[i] == policy
            case None => forall i :: 0 <= i < |policies| ==> policies[i].publicKey != publicKey
  {
    if policies == [] {
    } else if policies[0].publicKey == publicKey {
      assert IsFirstOf(policies, 0, publicKey);
    } else {
      FindIsFirst(policies[1..], publicKey);
      if FindPolicy(policies[1..], publicKey).Some? {
        var i :| IsFirstOf(policies[1..], i, publicKey) && policies[1..][i] == FindPolicy(policies, publicKey).value;
        assert forall j :: 0 < j <= i ==> policies[j] == policies[1..][j - 1];
        assert IsFirstOf(policies, i + 1, publicKey);
      } else {
        assert forall j :: 0 < j < |policies| ==> policies[j] == policies[1..][j - 1];
      }
    }
  }

  lemma FirstIsFound(policies: seq<Policy>, i: int, publicKey: string)
    requires IsFirstOf(policies, i, publicKey)
    ensures FindPolicy(policies, publicKey) == Some(policies[i])
  {
    FindIsFirst(policies, publicKey);
    var k :| IsFirstOf(policies, k, publicKey) && policies[k] == FindPolicy(policies, publicKey).value;
    assert k == i;
  }

  lemma TakesIff(r: Record, policy: Policy)
    ensures Takes(r, policy) <==> forall a :: a in COMPARED ==> Get(r, a) == PolicyAttr(policy, a)
  {
    assert COMPARED ==
      {BaseFeeMtokens, CltvDelta, FeeRate, IsDisabled, MaxHtlcMtokens, MinHtlcMtokens, UpdatedAt};
    assert BaseFeeMtokens in COMPARED && CltvDelta in COMPARED && FeeRate in COMPARED && IsDisabled in COMPARED;
    assert MaxHtlcMtokens in COMPARED && MinHtlcMtokens in COMPARED && UpdatedAt in COMPARED;
  }

  /** A write takes the first policy of the author, and a creation the ids as well. */
  lemma WrittenPolicy(input: Input, stored: Option<Record>, channel: Channel, i: int)
    requires stored.Some? ==> Shaped(stored.value)
    requires input.channel == Some(channel) && Writing(Planned(input, stored))
    requires IsFirstOf(channel.policies, i, input.publicKey)
    ensures var after := Sequential(Planned, stored, input);
            && after.Some? && Takes(after.value, channel.policies[i])
            && (stored.None? ==>
                  && Get(after.value, Rev) == Plain(Num(0))
                  && Get(after.value, Id) == Plain(Str(channel.id))
                  && Get(after.value, PublicKey) == Plain(Str(input.publicKey)))
  {
    FirstIsFound(channel.policies, i, input.publicKey);
    WriteReflectsInput(input, stored);
    TakesIff(Sequential(Planned, stored, input).value, channel.policies[i]);
    if stored.None? {
      CreatedIds(input, channel, i);
    }
  }

  lemma CreatedIds(input: Input, channel: Channel, i: int)
    requires input.channel == Some(channel) && Writing(Planned(input, None))
    requires IsFirstOf(channel.policies, i, input.publicKey)
    ensures var after := Sequential(Planned, None, input);
            && after.Some?
            && Get(after.value, Rev) == Plain(Num(0))
            && Get(after.value, Id) == Plain(Str(channel.id))
            && Get(after.value, PublicKey) == Plain(Str(input.publicKey))
  {
    FirstIsFound(channel.policies, i, input.publicKey);
    assert Planned(input, None) == Create(NewRecord(channel.id, channel.policies[i]));
  }

  /** Which first policy of an author makes a sync write. */
  predicate CallsForWrite(policy: Policy, stored: Option<Record>) {
    && HasDate(policy.updatedAt)
    && if stored.None? then policy.isDisabled.Some? else !Takes(stored.value, policy)
  }

  /**
   * A sync of a found channel writes exactly when the author's first policy is dated, and is known to be enabled or
   * disabled or differs from the stored one; for a stored one the channel must be dated too. It fails exactly when
   * the author has no policy where one is looked for. A channel that is not found changes nothing.
   */
  lemma PolicyWritesIff(input: Input, stored: Option<Record>)
    requires stored.Some? ==> Shaped(stored.value)
    ensures input.channel.None? ==> Planned(input, stored).Nothing?
    ensures input.channel.Some? ==>
              var channel := input.channel.value;
              && (Planned(input, stored).Failed? <==>
                    && (stored.Some? ==> HasDate(channel.updatedAt))
                    && forall i :: 0 <= i < |channel.policies| ==> channel.policies[i].publicKey != input.publicKey)
              && (Writing(Planned(input, stored)) <==>
                    && (stored.Some? ==> HasDate(channel.updatedAt))
                    && exists i :: IsFirstOf(channel.policies, i, input.publicKey) &&
                                   CallsForWrite(channel.policies[i], stored))
  {
    if input.channel.Some? {
      var channel := input.channel.value;
      var found := FindPolicy(channel.policies, input.publicKey);
      FindIsFirst(channel.policies, input.publicKey);
      forall i | IsFirstOf(channel.policies, i, input.publicKey)
        ensures found == Some(channel.policies[i])
      {
        FirstIsFound(channel.policies, i, input.publicKey);
      }
      if found.Some? {
        var i :| IsFirstOf(channel.policies, i, input.publicKey) && channel.policies[i] == found.value;
        assert channel.policies[i].publicKey == input.publicKey;
        if stored.Some? {
          ChangesIff(stored.value, found.value);
        }
      }
    }
  }

  lemma ChangesIff(record: Record, policy: Policy)
    requires Shaped(record)
    ensures DiffOf(View(record), Updated(policy)).Ok?
    ensures DiffOf(View(record), Updated(policy)).value.Unchanged? <==> Takes(record, policy)
  {
    ViewsCompare(record, policy);
    ComparisonHolds(View(record), Updated(policy));
    TakesIff(record, policy);
    if Takes(record, policy) {
      SettledIsUnchanged(record, policy);
    } else {
      var a :| a in COMPARED && Get(record, a) != PolicyAttr(policy, a);
      DiffersAt(record, policy, a);
    }
  }

  lemma SettledIsUnchanged(record: Record, policy: Policy)
    requires forall a :: a in COMPARED ==> Get(record, a) == PolicyAttr(policy, a)
    ensures DiffOf(View(record), Updated(policy)) == Ok(Unchanged)
  {
    assert View(record) == Updated(policy);
    SameRecordIsUnchanged(View(record));
  }

  lemma DiffersAt(record: Record, policy: Policy, a: Attr)
    requires Shaped(record) && a in COMPARED && Get(record, a) != PolicyAttr(policy, a)
    ensures a in ChangedAttrs(View(record), Updated(policy))
  {
    PolicyAttrIsPlain(policy, a);
    assert a in Updated(policy) && Updated(policy)[a] == PolicyAttr(policy, a);
  }

  lemma {:induction false} StoredIsShaped(log: seq<Entry<Key, Input>>, key: Key)
    requires Faithful(Planned, log)
    ensures var stored := Replay(Planned, log, key); stored.Some? ==> Shaped(stored.value)
  {
    PlannedIsDisciplined();
    if log != [] {
      var front, e := log[..|log| - 1], log[|log| - 1];
      FaithfulPrefix(Planned, log, |front|);
      StoredIsShaped(front, key);
      EntryEffect(Planned, log, |front|);
      assert log[..|log|] == log;
      ReplayIsHistory(Planned, log, key);
      ReplayIsHistory(Planned, front, key);
      if e.key == key && e.outcome == Wrote {
        WriteReflectsInput(e.input, e.read);
      }
    }
  }

  lemma AfterWrite(log: seq<Entry<Key, Input>>, i: nat)
    requires Faithful(Planned, log) && i < |log| && log[i].outcome == Wrote
    ensures var after := History(Planned, log[..i + 1], log[i].key);
            after.Some? && Reflects(after.value, log[i].input)
  {
    PlannedIsDisciplined();
    EntryEffect(Planned, log, i);
    FaithfulPrefix(Planned, log, i);
    StoredIsShaped(log[..i], log[i].key);
    WriteReflectsInput(log[i].input, log[i].read);
  }

  /**
   * In every run each stored record is the fold of the written inputs of its key in commit order, and after
   * each write every compared attribute is the one of that input alone.
   */
  lemma RecordsAreSequential(steps: seq<Step<Key, Input>>)
    ensures var w := Run(Planned, steps);
            && (forall key :: Lookup(w.table, key) == History(Planned, w.log, key))
            && (forall i :: 0 <= i < |w.log| && w.log[i].outcome == Wrote ==>
                  var after := History(Planned, w.log[..i + 1], w.log[i].key);
                  after.Some? && Reflects(after.value, w.log[i].input))
  {
    PlannedIsDisciplined();
    Linearisation(Planned, steps);
    RunIsFaithful(Planned, steps);
    var log := Run(Planned, steps).log;
    forall i | 0 <= i < |log| && log[i].outcome == Wrote
      ensures var after := History(Planned, log[..i + 1], log[i].key);
              after.Some? && Reflects(after.value, log[i].input)
    {
      AfterWrite(log, i);
    }
  }
}
