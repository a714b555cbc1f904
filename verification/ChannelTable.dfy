/**
 * The channel table, which two handlers share: `syncChannel` fills in the funding and bumps the revision,
 * `markChannelClosed` sets the close height under the same guard without bumping it.
 */
module ChannelTable {
  import opened Wrappers
  import opened ChangesToRecord
  import opened GuardedSync

  datatype Channel = Channel(
    capacity: Option<nat>,
    id: string,
    publicKeys: seq<string>,
    transactionId: Option<string>,
    transactionVout: Option<nat>)

  /** SyncChannel has the channel as looked up after the read; None when it is not found. */
  datatype Input = SyncChannel(channel: Option<Channel>) | MarkClosed(height: nat)

  type Log = seq<Entry<string, Input>>

  /** The id of 32 zero bytes stands for an unknown transaction. */
  predicate EmptyId(id: string) {
    |id| == 64 && forall i :: 0 <= i < 64 ==> id[i] == '0'
  }

  predicate HasTransaction(channel: Channel) {
    channel.transactionId.Some? && channel.transactionId.value != "" && !EmptyId(channel.transactionId.value)
  }

  function KeyAtoms(publicKeys: seq<string>): seq<Atom> {
    if publicKeys == [] then [] else [Str(publicKeys[0])] + KeyAtoms(publicKeys[1..])
  }

  function BaseRecord(channel: Channel): Record {
    map[Rev := Plain(Num(0)), Id := Plain(Str(channel.id)), PublicKeys := Arr(KeyAtoms(channel.publicKeys))]
  }

  function NewRecord(channel: Channel): Record {
    if !HasTransaction(channel) then BaseRecord(channel)
    else BaseRecord(channel)
             [Capacity := OptNum(channel.capacity)]
             [TransactionId := Plain(Str(channel.transactionId.value))]
             [TransactionVout := OptNum(channel.transactionVout)]
  }

  function FundingChanges(channel: Channel): Changes
    requires channel.transactionId.Some?
  {
    map[
      Rev := Add(1),
      Capacity := Set(OptNum(channel.capacity)),
      TransactionId := Set(Plain(Str(channel.transactionId.value))),
      TransactionVout := Set(OptNum(channel.transactionVout))]
  }

  predicate Closed(r: Record) {
    Truthy(Get(r, CloseHeight))
  }

  predicate Funded(r: Record) {
    Truthy(Get(r, Capacity))
  }

  /** A missing transaction id cannot be decoded, which fails the attempt. */
  function SyncPlan(channel: Channel, stored: Option<Record>): Plan {
    match stored
    case None => Create(NewRecord(channel))
    case Some(record) =>
      if !Truthy(OptNum(channel.capacity)) || Funded(record) then Nothing
      else if channel.transactionId.None? then Failed
      else Update(FundingChanges(channel))
  }

  function ClosePlan(height: nat, stored: Option<Record>): Plan {
    if height == 0 then Failed
    else if stored.None? || Closed(stored.value) then Nothing
    else Update(map[CloseHeight := Set(Plain(Num(height)))])
  }

  function Planned(input: Input, stored: Option<Record>): Plan {
    match input
    case SyncChannel(channel) => if channel.None? then Nothing else SyncPlan(channel.value, stored)
    case MarkClosed(height) => ClosePlan(height, stored)
  }

  /** Whether the close handler emits `channel_closed`: the record it read was open and its write did not fail. */
  predicate Emits(e: Entry<string, Input>) {
    && e.input.MarkClosed?
    && !e.outcome.Refused? && !e.outcome.Broke?
    && e.read.Some? && !Closed(e.read.value)
  }

  /** The close handler around an attempt; it is not retried, and a failed write emits nothing. */
  class CloseHandler {
    var emitted: seq<string>

    constructor ()
      ensures emitted == []
    {
      emitted := [];
    }

    method FinishAttempt(attempt: Attempt<string, Input>, table: Table<string>, height: nat)
      requires attempt.planner == Planned
      modifies this, table
      ensures var (stored, outcome) :=
                Write(ClosePlan(height, attempt.read), old(Lookup(table.records, attempt.key)), attempt.read);
              && Lookup(table.records, attempt.key) == stored
              && (emitted == old(emitted) + [attempt.key] <==>
                    Emits(Entry(attempt.key, MarkClosed(height), attempt.read, 0, outcome)))
              && (emitted == old(emitted) || emitted == old(emitted) + [attempt.key])
    {
      var outcome := attempt.Finish(table, MarkClosed(height));
      var marked := attempt.read.Some? && !Closed(attempt.read.value);
      if !outcome.Refused? && !outcome.Broke? && marked {
        emitted := emitted + [attempt.key];
      }
    }
  }

  // ----- what one write does -----

  predicate HasFunding(r: Record, channel: Channel)
    requires channel.transactionId.Some?
  {
    && Get(r, Capacity) == OptNum(channel.capacity)
    && Get(r, TransactionId) == Plain(Str(channel.transactionId.value))
    && Get(r, TransactionVout) == OptNum(channel.transactionVout)
  }

  const FUNDING: set<Attr> := {Capacity, TransactionId, TransactionVout}

  /**
   * A written sync creates an open record, funded by the channel if that has a transaction, or fills in the
   * funding and touches nothing else but the revision.
   */
  lemma SyncFillsFunding(channel: Channel, stored: Option<Record>)
    requires Writing(SyncPlan(channel, stored))
    ensures var after := Sequential(Planned, stored, SyncChannel(Some(channel)));
            && after.Some?
            && (stored.None? ==>
                  && Get(after.value, Id) == Plain(Str(channel.id)) && !Closed(after.value)
                  && if HasTransaction(channel) then HasFunding(after.value, channel)
                     else forall a :: a in FUNDING ==> Get(after.value, a) == NOTHING)
            && (stored.Some? ==>
                  && !Funded(stored.value) && Funded(after.value)
                  && channel.transactionId.Some? && HasFunding(after.value, channel)
                  && forall a :: a !in FUNDING && a != Rev ==> Get(after.value, a) == Get(stored.value, a))
  {
    if stored.Some? {
      assert SyncPlan(channel, stored) == Update(FundingChanges(channel));
    } else {
      assert SyncPlan(channel, stored) == Create(NewRecord(channel));
    }
  }

  predicate RevNat(stored: Option<Record>) {
    stored.Some? ==> RevOf(stored.value).Plain? && RevOf(stored.value).a.Num? && RevOf(stored.value).a.n >= 0
  }

  function RevNum(r: Record): int
    requires RevNat(Some(r))
  {
    RevOf(r).a.n
  }

  predicate CoreSame(r: Record, s: Record) {
    forall a :: a != CloseHeight ==> Get(r, a) == Get(s, a)
  }

  predicate FundingSame(r: Record, s: Record) {
    && Get(r, Capacity) == Get(s, Capacity)
    && Get(r, TransactionId) == Get(s, TransactionId)
    && Get(r, TransactionVout) == Get(s, TransactionVout)
  }

  /** A record is created open at revision 0; a sync adds one and keeps the height; a mark only sets the height. */
  predicate Moves(before: Option<Record>, after: Option<Record>, e: Entry<string, Input>) {
    if e.outcome != Wrote then after == before
    else if before.None? then
      && e.input.SyncChannel? && e.input.channel.Some?
      && after == Some(NewRecord(e.input.channel.value))
    else
      && after.Some?
      && match e.input
         case SyncChannel(channel) =>
           && channel.Some? && channel.value.transactionId.Some? && Truthy(OptNum(channel.value.capacity))
           && after.value == Apply(before.value, FundingChanges(channel.value))
         case MarkClosed(height) =>
           && height > 0
           && after.value == Apply(before.value, map[CloseHeight := Set(Plain(Num(height)))])
  }

  lemma EntryMoves(log: Log, i: nat)
    requires Faithful(Planned, log) && i < |log|
    ensures Moves(Replay(Planned, log[..i], log[i].key), Replay(Planned, log[..i + 1], log[i].key), log[i])
    ensures forall key :: key != log[i].key ==>
      Replay(Planned, log[..i], key) == Replay(Planned, log[..i + 1], key)
  {
    assert FaithfulAt(Planned, log, i);
    assert log[..i + 1][..i] == log[..i];
    var e, before := log[i], Replay(Planned, log[..i], log[i].key);
    WriteKeepsPresent(Planned(e.input, e.read), before, e.read);
  }

  lemma MovesKeep(before: Option<Record>, after: Option<Record>, e: Entry<string, Input>)
    requires RevNat(before) && Moves(before, after, e)
    ensures RevNat(after)
    ensures before.Some? ==>
      && after.Some?
      && RevNum(before.value) <= RevNum(after.value)
      && (RevNum(before.value) == RevNum(after.value) ==> CoreSame(before.value, after.value))
      && (Closed(before.value) ==> Closed(after.value))
  {
  }

  lemma {:induction false} RevisionsAreNat(log: Log, key: string)
    requires Faithful(Planned, log)
    ensures RevNat(Replay(Planned, log, key))
  {
    if log != [] {
      var n := |log| - 1;
      FaithfulPrefix(Planned, log, n);
      RevisionsAreNat(log[..n], key);
      EntryMoves(log, n);
      assert log[..n + 1] == log;
      if log[n].key == key {
        MovesKeep(Replay(Planned, log[..n], key), Replay(Planned, log, key), log[n]);
      }
    }
  }

  /** Over time a record never disappears, its revision never falls, and it never reopens. */
  lemma {:induction false} RecordGrows(log: Log, key: string, a: nat, b: nat)
    requires Faithful(Planned, log) && a <= b <= |log|
    requires Replay(Planned, log[..a], key).Some?
    ensures RevNat(Replay(Planned, log[..a], key)) && RevNat(Replay(Planned, log[..b], key))
    ensures var r, after := Replay(Planned, log[..a], key).value, Replay(Planned, log[..b], key);
            && after.Some?
            && RevNum(r) <= RevNum(after.value)
            && (RevNum(r) == RevNum(after.value) ==> CoreSame(r, after.value))
            && (Closed(r) ==> Closed(after.value))
  {
    FaithfulPrefix(Planned, log, a);
    RevisionsAreNat(log[..a], key);
    if a < b {
      RecordGrows(log, key, a, b - 1);
      EntryMoves(log, b - 1);
      if log[b - 1].key == key {
        MovesKeep(Replay(Planned, log[..b - 1], key), Replay(Planned, log[..b], key), log[b - 1]);
      }
    }
  }

  /** A write was planned from a record that agrees with the stored one on all but the close height. */
  lemma WriteSawCore(log: Log, i: nat)
    requires Faithful(Planned, log) && i < |log| && log[i].outcome == Wrote
    ensures var before := Replay(Planned, log[..i], log[i].key);
            && (log[i].read.None? <==> before.None?)
            && (before.Some? ==> CoreSame(log[i].read.value, before.value))
  {
    assert FaithfulAt(Planned, log, i);
    var e := log[i];
    if e.read.Some? {
      RecordGrows(log, e.key, e.at, i);
    }
  }

  // ----- the funding -----

  lemma MoveKeepsFunding(before: Record, after: Record, read: Record, e: Entry<string, Input>)
    requires Moves(Some(before), Some(after), e) && Funded(before)
    requires e.outcome == Wrote ==> CoreSame(read, before) && Planned(e.input, Some(read)).Update?
    ensures FundingSame(before, after)
  {
    assert CoreSame(read, before) ==> Get(read, Capacity) == Get(before, Capacity);
  }

  /**
   * Once a capacity is stored it stays, and so does the outpoint stored with it, under any interleaving of
   * syncs and close marks.
   */
  lemma {:induction false} FundingIsFrozen(log: Log, key: string, a: nat, b: nat)
    requires Faithful(Planned, log) && a <= b <= |log|
    requires var r := Replay(Planned, log[..a], key); r.Some? && Funded(r.value)
    ensures var r, s := Replay(Planned, log[..a], key).value, Replay(Planned, log[..b], key);
            s.Some? && Funded(s.value) && FundingSame(r, s.value)
  {
    if a < b {
      FundingIsFrozen(log, key, a, b - 1);
      RecordGrows(log, key, a, b);
      EntryMoves(log, b - 1);
      var e := log[b - 1];
      if e.key == key {
        var before, after := Replay(Planned, log[..b - 1], key).value, Replay(Planned, log[..b], key).value;
        if e.outcome == Wrote {
          WriteSawCore(log, b - 1);
          assert FaithfulAt(Planned, log, b - 1);
          MoveKeepsFunding(before, after, e.read.value, e);
        } else {
          MoveKeepsFunding(before, after, before, e);
        }
      }
    }
  }

  predicate Together(stored: Option<Record>) {
    stored.Some? ==> (Funded(stored.value) <==> Get(stored.value, TransactionId) != NOTHING)
  }

  /** The channel a record is created from has a capacity if it has a transaction. */
  predicate CreatedWhole(e: Entry<string, Input>) {
    e.read.None? && e.outcome == Wrote && e.input.SyncChannel? && e.input.channel.Some? ==>
      (HasTransaction(e.input.channel.value) ==> Truthy(OptNum(e.input.channel.value.capacity)))
  }

  lemma MoveKeepsTogether(before: Option<Record>, after: Option<Record>, e: Entry<string, Input>)
    requires Moves(before, after, e) && Together(before)
    requires e.outcome == Wrote ==> (e.read.None? <==> before.None?)
    ensures Together(after) <==> CreatedWhole(e)
  {
    if e.outcome == Wrote && before.Some? {
      assert Get(after.value, TransactionId) == match e.input
        case SyncChannel(channel) => Plain(Str(channel.value.transactionId.value))
        case MarkClosed(_) => Get(before.value, TransactionId);
    }
  }

  lemma {:induction false} TogetherWhileCreatedWhole(log: Log, key: string)
    requires Faithful(Planned, log)
    requires forall i :: 0 <= i < |log| && log[i].key == key ==> CreatedWhole(log[i])
    ensures Together(Replay(Planned, log, key))
  {
    if log != [] {
      var n := |log| - 1;
      FaithfulPrefix(Planned, log, n);
      TogetherWhileCreatedWhole(log[..n], key);
      EntryMoves(log, n);
      assert log[..n + 1] == log;
      if log[n].key == key {
        if log[n].outcome == Wrote {
          WriteSawCore(log, n);
        }
        MoveKeepsTogether(Replay(Planned, log[..n], key), Replay(Planned, log, key), log[n]);
      }
    }
  }

  /**
   * Capacity and outpoint are always stored together exactly when the record of the key is never created
   * from a channel that has a transaction but no capacity.
   */
  lemma TogetherIff(log: Log, key: string)
    requires Faithful(Planned, log)
    ensures (forall n :: 0 <= n <= |log| ==> Together(Replay(Planned, log[..n], key))) <==>
            (forall i :: 0 <= i < |log| && log[i].key == key ==> CreatedWhole(log[i]))
  {
    if forall i :: 0 <= i < |log| && log[i].key == key ==> CreatedWhole(log[i]) {
      forall n | 0 <= n <= |log|
        ensures Together(Replay(Planned, log[..n], key))
      {
        FaithfulPrefix(Planned, log, n);
        TogetherWhileCreatedWhole(log[..n], key);
      }
    }
    if forall n :: 0 <= n <= |log| ==> Together(Replay(Planned, log[..n], key)) {
      forall i | 0 <= i < |log| && log[i].key == key
        ensures CreatedWhole(log[i])
      {
        EntryMoves(log, i);
        if log[i].outcome == Wrote {
          WriteSawCore(log, i);
        }
        assert Together(Replay(Planned, log[..i], key)) && Together(Replay(Planned, log[..i + 1], key));
        MoveKeepsTogether(Replay(Planned, log[..i], key), Replay(Planned, log[..i + 1], key), log[i]);
      }
    }
  }

  ghost predicate ChangesFunding(log: Log, key: string, i: nat)
    requires i < |log|
  {
    var before, after := Replay(Planned, log[..i], key), Replay(Planned, log[..i + 1], key);
    before.Some? && after.Some? && !FundingSame(before.value, after.value)
  }

  /** The funding of a stored record changes at most once, from no capacity to a capacity. */
  lemma FundingChangesOnce(log: Log, key: string, i: nat, j: nat)
    requires Faithful(Planned, log) && i < |log| && j < |log|
    requires ChangesFunding(log, key, i) && ChangesFunding(log, key, j)
    ensures i == j
    ensures !Funded(Replay(Planned, log[..i], key).value) && Funded(Replay(Planned, log[..i + 1], key).value)
  {
    ChangeFunds(log, key, i);
    ChangeFunds(log, key, j);
    if i < j {
      FundingIsFrozen(log, key, i + 1, j);
    } else if j < i {
      FundingIsFrozen(log, key, j + 1, i);
    }
  }

  lemma ChangeFunds(log: Log, key: string, i: nat)
    requires Faithful(Planned, log) && i < |log| && ChangesFunding(log, key, i)
    ensures !Funded(Replay(Planned, log[..i], key).value) && Funded(Replay(Planned, log[..i + 1], key).value)
  {
    EntryMoves(log, i);
    if Funded(Replay(Planned, log[..i], key).value) {
      FundingIsFrozen(log, key, i, i + 1);
    }
  }

  // ----- closing -----

  predicate Marks(e: Entry<string, Input>, key: string) {
    e.key == key && e.input.MarkClosed? && e.outcome == Wrote
  }

  /** A record is closed exactly when some mark of its key was written. */
  lemma {:induction false} ClosedIffMarked(log: Log, key: string)
    requires Faithful(Planned, log)
    ensures var stored := Replay(Planned, log, key);
            (stored.Some? && Closed(stored.value)) <==> exists j :: 0 <= j < |log| && Marks(log[j], key)
  {
    if log != [] {
      var n := |log| - 1;
      FaithfulPrefix(Planned, log, n);
      ClosedIffMarked(log[..n], key);
      EntryMoves(log, n);
      assert log[..n + 1] == log;
      assert forall j :: 0 <= j < n ==> log[..n][j] == log[j];
      assert log[n].key == key ==> Moves(Replay(Planned, log[..n], key), Replay(Planned, log, key), log[n]);
      if Marks(log[n], key) {
        assert Closed(Replay(Planned, log, key).value);
      } else {
        var before, after := Replay(Planned, log[..n], key), Replay(Planned, log, key);
        assert after.Some? ==> Get(after.value, CloseHeight) ==
                               if before.Some? then Get(before.value, CloseHeight) else NOTHING;
      }
    }
  }

  /** A mark attempt whose read found the record, before any mark of the key was written. */
  predicate EarlyRead(log: Log, key: string, i: nat)
    requires i < |log|
  {
    && log[i].key == key && log[i].input.MarkClosed? && log[i].input.height > 0 && log[i].read.Some?
    && forall j :: 0 <= j < log[i].at && j < |log| ==> !Marks(log[j], key)
  }

  function Emissions(log: Log, key: string): set<nat> {
    set i: nat | i < |log| && log[i].key == key && Emits(log[i])
  }

  function EarlyReads(log: Log, key: string): set<nat> {
    set i: nat | i < |log| && EarlyRead(log, key, i)
  }

  /** Mark attempts whose write was refused because a sync bumped the revision in between. */
  function RefusedMarks(log: Log, key: string): set<nat> {
    set i: nat | i < |log| && log[i].key == key && log[i].input.MarkClosed? && log[i].outcome == Refused
  }

  lemma EmitsIffEarly(log: Log, key: string, i: nat)
    requires Faithful(Planned, log) && i < |log| && log[i].key == key
    ensures Emits(log[i]) <==> EarlyRead(log, key, i) && log[i].outcome != Refused
  {
    assert FaithfulAt(Planned, log, i);
    var e := log[i];
    FaithfulPrefix(Planned, log, e.at);
    ClosedIffMarked(log[..e.at], key);
    assert forall j :: 0 <= j < e.at ==> log[..e.at][j] == log[j];
  }

  /**
   * In every run `channel_closed` is emitted by exactly the mark attempts whose read preceded the first
   * close commit, except those a sync refused; so when every mark attempt completes the two numbers agree.
   */
  lemma EmissionsAreEarlyReads(steps: seq<Step<string, Input>>, key: string)
    ensures var log := Run(Planned, steps).log;
            && Emissions(log, key) == EarlyReads(log, key) - RefusedMarks(log, key)
            && (RefusedMarks(log, key) == {} ==> |Emissions(log, key)| == |EarlyReads(log, key)|)
  {
    RunIsFaithful(Planned, steps);
    var log := Run(Planned, steps).log;
    forall i: nat | i < |log|
      ensures i in Emissions(log, key) <==> i in EarlyReads(log, key) && i !in RefusedMarks(log, key)
    {
      if log[i].key == key {
        EmitsIffEarly(log, key, i);
      }
    }
  }

  /** In every run the channel table is safe: funding is frozen once stored, and a closed channel stays closed. */
  lemma ChannelTableIsSafe(steps: seq<Step<string, Input>>, key: string, a: nat, b: nat)
    requires a <= b <= |Run(Planned, steps).log|
    requires Replay(Planned, Run(Planned, steps).log[..a], key).Some?
    ensures var log := Run(Planned, steps).log;
            var r, after := Replay(Planned, log[..a], key).value, Replay(Planned, log[..b], key);
            && after.Some?
            && (Funded(r) ==> Funded(after.value) && FundingSame(r, after.value))
            && (Closed(r) ==> Closed(after.value))
            && (b == |log| ==> Lookup(Run(Planned, steps).table, key) == after)
  {
    RunIsFaithful(Planned, steps);
    var log := Run(Planned, steps).log;
    RecordGrows(log, key, a, b);
    if Funded(Replay(Planned, log[..a], key).value) {
      FundingIsFrozen(log, key, a, b);
    }
    assert log[..|log|] == log;
    assert Lookup(Run(Planned, steps).table, key) == Replay(Planned, log, key);
  }

  // ----- when a handler writes and what it stores, stated on the input -----

  /** The transaction id is there and is not 32 zero bytes. */
  predicate IsKnown(transactionId: Option<string>) {
    && transactionId.Some? && transactionId.value != ""
    && (|transactionId.value| != 64 || exists i :: 0 <= i < 64 && transactionId.value[i] != '0')
  }

  /** A channel that is not found writes nothing; one that is found is always created when it is absent. */
  lemma AbsentChannelIsCreated(channel: Option<Channel>)
    ensures Planned(SyncChannel(channel), None).Create? <==> channel.Some?
    ensures channel.None? ==> Planned(SyncChannel(channel), None).Nothing?
  {
  }

  /**
   * A stored channel is written exactly when the one found has a capacity and a transaction id and the stored one
   * has no capacity; without the id the attempt fails.
   */
  lemma StoredChannelIsFundedIff(channel: Channel, record: Record)
    ensures var plan := Planned(SyncChannel(Some(channel)), Some(record));
            var lacking := channel.capacity.Some? && channel.capacity.value > 0 && IsFalsy(Get(record, Capacity));
            && (plan.Update? <==> lacking && channel.transactionId.Some?)
            && (plan.Failed? <==> lacking && channel.transactionId.None?)
            && !plan.Create?
  {
  }

  lemma {:induction false} KeysAre(publicKeys: seq<string>)
    ensures |KeyAtoms(publicKeys)| == |publicKeys|
    ensures forall i :: 0 <= i < |publicKeys| ==> KeyAtoms(publicKeys)[i] == Str(publicKeys[i])
  {
    if publicKeys != [] {
      KeysAre(publicKeys[1..]);
    }
  }

  /** The funding of a record is the one of a channel. */
  predicate FundedBy(r: Record, channel: Channel) {
    && Get(r, Capacity) == (if channel.capacity.Some? then Plain(Num(channel.capacity.value)) else Plain(Undefined))
    && Get(r, TransactionId) ==
       (if channel.transactionId.Some? then Plain(Str(channel.transactionId.value)) else Plain(Undefined))
    && Get(r, TransactionVout) ==
       (if channel.transactionVout.Some? then Plain(Num(channel.transactionVout.value)) else Plain(Undefined))
  }

  predicate Unfunded(r: Record) {
    Get(r, Capacity) == Get(r, TransactionId) == Get(r, TransactionVout) == Plain(Undefined)
  }

  lemma CreatedChannel(channel: Channel)
    ensures var after := Sequential(Planned, None, SyncChannel(Some(channel)));
            && after.Some?
            && Get(after.value, Rev) == Plain(Num(0)) && Get(after.value, Id) == Plain(Str(channel.id))
            && Get(after.value, CloseHeight) == Plain(Undefined)
            && (if IsKnown(channel.transactionId) then FundedBy(after.value, channel) else Unfunded(after.value))
            && Get(after.value, PublicKeys).Arr?
            && |Get(after.value, PublicKeys).items| == |channel.publicKeys|
            && forall i :: 0 <= i < |channel.publicKeys| ==>
                 Get(after.value, PublicKeys).items[i] == Str(channel.publicKeys[i])
  {
    KeysAre(channel.publicKeys);
    KnownIff(channel);
    CreatedFunding(channel);
    assert Sequential(Planned, None, SyncChannel(Some(channel))) == Some(NewRecord(channel));
  }

  lemma KnownIff(channel: Channel)
    ensures HasTransaction(channel) <==> IsKnown(channel.transactionId)
  {
  }

  lemma CreatedFunding(channel: Channel)
    ensures var r := NewRecord(channel);
            && (if HasTransaction(channel) then FundedBy(r, channel) else Unfunded(r))
            && Get(r, Rev) == Plain(Num(0)) && Get(r, Id) == Plain(Str(channel.id))
            && Get(r, CloseHeight) == Plain(Undefined) && Get(r, PublicKeys) == Arr(KeyAtoms(channel.publicKeys))
  {
  }

  /** Filling in the funding touches nothing else but the revision, which gains one. */
  lemma FilledChannel(channel: Channel, record: Record)
    requires Planned(SyncChannel(Some(channel)), Some(record)).Update?
    ensures var after := Sequential(Planned, Some(record), SyncChannel(Some(channel)));
            && after.Some? && FundedBy(after.value, channel)
            && (Get(record, Rev).Plain? && Get(record, Rev).a.Num? ==>
                  Get(after.value, Rev) == Plain(Num(Get(record, Rev).a.n + 1)))
            && forall a :: a !in {Rev, Capacity, TransactionId, TransactionVout} ==>
                 Get(after.value, a) == Get(record, a)
  {
    SyncFillsFunding(channel, Some(record));
  }

  /** A mark fails without a height, and writes exactly on an open record, the height and nothing else. */
  lemma MarkWritesIff(height: nat, stored: Option<Record>)
    ensures var plan := Planned(MarkClosed(height), stored);
            && (plan.Failed? <==> height == 0)
            && (plan.Update? <==> height > 0 && stored.Some? && IsFalsy(Get(stored.value, CloseHeight)))
            && !plan.Create?
    ensures Planned(MarkClosed(height), stored).Update? ==>
              var after := Sequential(Planned, stored, MarkClosed(height));
              && after.Some? && Get(after.value, CloseHeight) == Plain(Num(height))
              && forall a :: a != CloseHeight ==> Get(after.value, a) == Get(stored.value, a)
  {
  }

  /** In every run, once a sync of a found channel has finished, however it ended, the channel is in the table. */
  lemma SyncedChannelIsStored(steps: seq<Step<string, Input>>, i: nat)
    requires i < |Run(Planned, steps).log|
    requires Run(Planned, steps).log[i].input.SyncChannel? && Run(Planned, steps).log[i].input.channel.Some?
    ensures Run(Planned, steps).log[i].key in Run(Planned, steps).table
  {
    RunIsFaithful(Planned, steps);
    var w := Run(Planned, steps);
    SyncLeavesRecord(w.log, i);
    RecordGrows(w.log, w.log[i].key, i + 1, |w.log|);
    assert w.log[..|w.log|] == w.log;
    assert Lookup(w.table, w.log[i].key) == Replay(Planned, w.log, w.log[i].key);
  }

  lemma SyncLeavesRecord(log: Log, i: nat)
    requires Faithful(Planned, log) && i < |log|
    requires log[i].input.SyncChannel? && log[i].input.channel.Some?
    ensures Replay(Planned, log[..i + 1], log[i].key).Some?
  {
    var e := log[i];
    assert FaithfulAt(Planned, log, i);
    AbsentChannelIsCreated(e.input.channel);
    if e.read.Some? {
      RecordGrows(log, e.key, e.at, i + 1);
    } else {
      assert log[..i + 1][..i] == log[..i];
      CreateLeavesRecord(Planned(e.input, e.read), Replay(Planned, log[..i], e.key), e.read);
    }
  }

  lemma CreateLeavesRecord(plan: Plan, current: Option<Record>, read: Option<Record>)
    requires plan.Create?
    ensures Write(plan, current, read).0.Some?
  {
  }

  // ----- linearisation fails, and exactly when -----

  /** A written mark finds the record open, or already closed at the same height. */
  ghost predicate HarmlessMark(log: Log, i: nat)
    requires i < |log|
  {
    var before := Replay(Planned, log[..i], log[i].key);
    log[i].input.MarkClosed? && log[i].outcome == Wrote && before.Some? && Closed(before.value) ==>
      Get(before.value, CloseHeight) == Plain(Num(log[i].input.height))
  }

  lemma WriteIsSequentialIff(log: Log, i: nat)
    requires Faithful(Planned, log) && i < |log| && log[i].outcome == Wrote
    ensures var e := log[i];
            Replay(Planned, log[..i + 1], e.key) == Sequential(Planned, Replay(Planned, log[..i], e.key), e.input) <==>
            HarmlessMark(log, i)
  {
    assert FaithfulAt(Planned, log, i);
    WriteSawCore(log, i);
    assert log[..i + 1][..i] == log[..i];
    var e, before := log[i], Replay(Planned, log[..i], log[i].key);
    if before.Some? && e.input.MarkClosed? {
      MarkIsSequentialIff(e.input.height, before.value, e.read.value);
    } else if before.Some? {
      assert Get(e.read.value, Capacity) == Get(before.value, Capacity);
      assert Planned(e.input, e.read) == Planned(e.input, before);
    }
  }

  lemma MarkIsSequentialIff(height: nat, before: Record, read: Record)
    requires Write(ClosePlan(height, Some(read)), Some(before), Some(read)).1 == Wrote
    ensures Write(ClosePlan(height, Some(read)), Some(before), Some(read)).0 ==
              Sequential(Planned, Some(before), MarkClosed(height)) <==>
            (Closed(before) ==> Get(before, CloseHeight) == Plain(Num(height)))
  {
    var changes: Changes := map[CloseHeight := Set(Plain(Num(height)))];
    var after := Apply(before, changes);
    assert ClosePlan(height, Some(read)) == Update(changes);
    assert Get(after, CloseHeight) == Plain(Num(height));
    if Closed(before) && Get(before, CloseHeight) == Plain(Num(height)) {
      assert after == before;
    }
  }

  lemma {:induction false} SequentialWhileHarmless(log: Log, key: string)
    requires Faithful(Planned, log)
    requires forall i :: 0 <= i < |log| && log[i].key == key ==> HarmlessMark(log, i)
    ensures Replay(Planned, log, key) == History(Planned, log, key)
  {
    if log != [] {
      var n := |log| - 1;
      FaithfulPrefix(Planned, log, n);
      forall i | 0 <= i < n && log[..n][i].key == key
        ensures HarmlessMark(log[..n], i)
      {
        assert HarmlessMark(log, i);
        assert log[..n][..i] == log[..i];
      }
      SequentialWhileHarmless(log[..n], key);
      EntryMoves(log, n);
      assert log[..n + 1] == log;
      if log[n].key == key && log[n].outcome == Wrote {
        WriteIsSequentialIff(log, n);
      }
    }
  }

  /**
   * The record of a key is at all times the sequential fold of its written inputs exactly when every written
   * mark found it open or closed at that same height.
   */
  lemma SequentialIff(log: Log, key: string)
    requires Faithful(Planned, log)
    ensures (forall n :: 0 <= n <= |log| ==> Replay(Planned, log[..n], key) == History(Planned, log[..n], key)) <==>
            (forall i :: 0 <= i < |log| && log[i].key == key ==> HarmlessMark(log, i))
  {
    if forall i :: 0 <= i < |log| && log[i].key == key ==> HarmlessMark(log, i) {
      forall n | 0 <= n <= |log|
        ensures Replay(Planned, log[..n], key) == History(Planned, log[..n], key)
      {
        FaithfulPrefix(Planned, log, n);
        forall i | 0 <= i < n && log[..n][i].key == key
          ensures HarmlessMark(log[..n], i)
        {
          assert HarmlessMark(log, i);
          assert log[..n][..i] == log[..i];
        }
        SequentialWhileHarmless(log[..n], key);
      }
    }
    if forall n :: 0 <= n <= |log| ==> Replay(Planned, log[..n], key) == History(Planned, log[..n], key) {
      forall i | 0 <= i < |log| && log[i].key == key
        ensures HarmlessMark(log, i)
      {
        if log[i].outcome == Wrote {
          assert log[..i + 1][..i] == log[..i];
          assert Replay(Planned, log[..i], key) == History(Planned, log[..i], key);
          assert Replay(Planned, log[..i + 1], key) == History(Planned, log[..i + 1], key);
          WriteIsSequentialIff(log, i);
        }
      }
    }
  }

  /** Two clients read the same record, and then both mark it. */
  function DoubleClose(w: World<string, Input>, id: string, first: nat, second: nat): World<string, Input> {
    var bothRead := Next(Planned, Next(Planned, w, Read(1, id)), Read(2, id));
    Next(Planned, Next(Planned, bothRead, Finish(1, MarkClosed(first))), Finish(2, MarkClosed(second)))
  }

  /**
   * The schedule that breaks linearisation, from any world with an open record: both marks are written and
   * both emit, and the later height stands although a sequential second mark would have done nothing.
   */
  lemma DoubleCloseOverwrites(w: World<string, Input>, id: string, first: nat, second: nat)
    requires id in w.table && !Closed(w.table[id]) && 0 < first && 0 < second
    ensures var after := DoubleClose(w, id, first, second);
            && |after.log| == |w.log| + 2 && Emits(after.log[|w.log|]) && Emits(after.log[|w.log| + 1])
            && after.log[|w.log|].input == MarkClosed(first) && after.log[|w.log| + 1].input == MarkClosed(second)
            && id in after.table && Get(after.table[id], CloseHeight) == Plain(Num(second))
    ensures var once := Sequential(Planned, Some(w.table[id]), MarkClosed(first));
            once.Some? && Sequential(Planned, once, MarkClosed(second)) == once
  {
    var record := w.table[id];
    var changes: Changes := map[CloseHeight := Set(Plain(Num(first)))];
    assert ClosePlan(first, Some(record)) == Update(changes);
    assert RevOf(Apply(record, changes)) == RevOf(record);
    assert Get(Apply(record, changes), CloseHeight) == Plain(Num(first));
  }

  /** A channel seen with a transaction but no capacity is stored with an outpoint and no capacity. */
  lemma OutpointWithoutCapacity(channel: Channel)
    requires HasTransaction(channel) && !Truthy(OptNum(channel.capacity))
    ensures SyncPlan(channel, None).Create? && !Together(Some(SyncPlan(channel, None).record))
  {
  }
}
