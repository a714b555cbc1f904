/** The balance of a node, rolled up from its channels, outputs and chain transactions. */
module Balances {
  import Conflicts = ConflictingBalances
  import opened Sequences
  import opened Wrappers

  datatype Payment = Payment(isOutgoing: bool, tokens: int)

  /** `isPartnerInitiated` is None when it is not known who pays the chain fees. */
  datatype Channel = Channel(
    commitFee: int,
    isAnchor: bool,
    isPartnerInitiated: Option<bool>,
    localBalance: int,
    payments: seq<Payment>)

  datatype PendingChannel = PendingChannel(
    isClosing: bool,
    isOpening: bool,
    isPartnerInitiated: Option<bool>,
    localBalance: int,
    payments: seq<Payment>,
    recoveredTokens: int,
    transactionFee: int)

  datatype Format = Taproot | Nested | OtherFormat

  datatype Utxo = Utxo(address: string, format: Format, output: Conflicts.Utxo)

  /** `outputs` are the values of the decoded raw transaction, when it is known. */
  datatype Transaction = Transaction(
    isOutgoing: bool,
    outputAddresses: seq<string>,
    confirmationCount: nat,
    outputs: seq<int>,
    spend: Conflicts.Transaction)

  datatype Locked = Locked(transactionId: string, vout: nat, expiresAt: int)

  datatype Detailed = Detailed(
    closing: int,
    conflicted: int,
    invalid: int,
    offchain: int,
    offchainPending: int,
    onchain: int,
    vbytes: int)

  datatype Funds = Funds(balances: Detailed, onchainConfirmed: int, onchainPending: int, utxosCount: nat)

  // ----- components -----

  function Outgoing(payments: seq<Payment>): seq<int> {
    if payments == [] then []
    else
      var last := payments[|payments| - 1];
      Outgoing(payments[..|payments| - 1]) + if last.isOutgoing then [last.tokens] else []
  }

  predicate IsInitiator(isPartnerInitiated: Option<bool>) {
    isPartnerInitiated == Some(false)
  }

  const ANCHOR_OUTPUT_AMOUNT := 330

  function LocalBalances(channels: seq<Channel>): seq<int> {
    if channels == [] then []
    else LocalBalances(channels[..|channels| - 1]) + [channels[|channels| - 1].localBalance]
  }

  function CommitFees(channels: seq<Channel>): seq<int> {
    if channels == [] then []
    else
      var last := channels[|channels| - 1];
      CommitFees(channels[..|channels| - 1]) + if IsInitiator(last.isPartnerInitiated) then [last.commitFee] else []
  }

  function AnchorOutputs(channels: seq<Channel>): seq<int> {
    if channels == [] then []
    else
      var last := channels[|channels| - 1];
      AnchorOutputs(channels[..|channels| - 1]) +
      if IsInitiator(last.isPartnerInitiated) && last.isAnchor then [ANCHOR_OUTPUT_AMOUNT] else []
  }

  function ChannelHtlcs(channels: seq<Channel>): seq<int> {
    if channels == [] then []
    else ChannelHtlcs(channels[..|channels| - 1]) + Outgoing(channels[|channels| - 1].payments)
  }

  function Opening(pending: seq<PendingChannel>): seq<int> {
    if pending == [] then []
    else
      var last := pending[|pending| - 1];
      Opening(pending[..|pending| - 1]) +
      if IsInitiator(last.isPartnerInitiated) && last.isOpening then [last.localBalance] else []
  }

  function PendingFees(pending: seq<PendingChannel>): seq<int> {
    if pending == [] then []
    else
      var last := pending[|pending| - 1];
      PendingFees(pending[..|pending| - 1]) +
      if last.isOpening && IsInitiator(last.isPartnerInitiated) then [last.transactionFee] else []
  }

  function PendingHtlcs(pending: seq<PendingChannel>): seq<int> {
    if pending == [] then []
    else PendingHtlcs(pending[..|pending| - 1]) + Outgoing(pending[|pending| - 1].payments)
  }

  function Closing(pending: seq<PendingChannel>): seq<int> {
    if pending == [] then []
    else
      var last := pending[|pending| - 1];
      Closing(pending[..|pending| - 1]) + if last.isClosing then [last.localBalance - last.recoveredTokens] else []
  }

  function Confirmed(utxos: seq<Utxo>): (r: seq<Utxo>)
    ensures forall utxo :: utxo in r <==> utxo in utxos && utxo.output.confirmationCount > 0
  {
    if utxos == [] then []
    else
      var n := |utxos| - 1;
      assert utxos == utxos[..n] + [utxos[n]];
      Confirmed(utxos[..n]) + if utxos[n].output.confirmationCount > 0 then [utxos[n]] else []
  }

  function ConfirmedTransactions(transactions: seq<Transaction>): seq<Transaction> {
    if transactions == [] then []
    else
      var last := transactions[|transactions| - 1];
      ConfirmedTransactions(transactions[..|transactions| - 1]) + if last.spend.isConfirmed then [last] else []
  }

  /** An unconfirmed transaction of the node pays to the address. */
  predicate IsChangeAddress(transactions: seq<Transaction>, address: string) {
    exists tx :: tx in transactions && !tx.spend.isConfirmed && tx.isOutgoing && address in tx.outputAddresses
  }

  function Change(transactions: seq<Transaction>, utxos: seq<Utxo>): (r: seq<Utxo>)
    ensures forall utxo :: utxo in r <==>
              utxo in utxos && utxo.output.confirmationCount == 0 && IsChangeAddress(transactions, utxo.address)
  {
    if utxos == [] then []
    else
      var n := |utxos| - 1;
      assert utxos == utxos[..n] + [utxos[n]];
      Change(transactions, utxos[..n]) +
      if utxos[n].output.confirmationCount == 0 && IsChangeAddress(transactions, utxos[n].address)
      then [utxos[n]] else []
  }

  function Tokens(utxos: seq<Utxo>): seq<int> {
    if utxos == [] then [] else Tokens(utxos[..|utxos| - 1]) + [utxos[|utxos| - 1].output.tokens]
  }

  function OutputsOf(utxos: seq<Utxo>): (r: seq<Conflicts.Utxo>)
    ensures |r| == |utxos|
    ensures forall i :: 0 <= i < |r| ==> r[i] == utxos[i].output
  {
    if utxos == [] then [] else OutputsOf(utxos[..|utxos| - 1]) + [utxos[|utxos| - 1].output]
  }

  function SpendsOf(transactions: seq<Transaction>): (r: seq<Conflicts.Transaction>)
    ensures |r| == |transactions|
    ensures forall i :: 0 <= i < |r| ==> r[i] == transactions[i].spend
  {
    if transactions == [] then []
    else SpendsOf(transactions[..|transactions| - 1]) + [transactions[|transactions| - 1].spend]
  }

  /** The sizes in virtual bytes of the parts of an input. */
  function InputParts(utxo: Utxo): seq<real> {
    var input := [32.0, 4.0, 4.0, 0.25, 0.25];
    if utxo.format.Taproot? then input + [16.0]
    else
      var inputV0 := input + [18.0, 0.25, 8.25];
      if utxo.format.Nested? then inputV0 + [22.0] else inputV0
  }

  function InputElements(utxos: seq<Utxo>): seq<real> {
    if utxos == [] then [] else InputElements(utxos[..|utxos| - 1]) + InputParts(utxos[|utxos| - 1])
  }

  /** The estimated size of a transaction that spends some outputs to one address. */
  function Vbytes(utxos: seq<Utxo>): int {
    var elements := InputElements(utxos);
    Ceil(RealSumOf(if elements == [] then [] else [4.0, 3.0, 1.0, 8.0, 1.0, 34.0, 4.0] + elements))
  }

  /** The total owned on chain. */
  function Onchain(locked: seq<int>, transactions: seq<Transaction>, utxos: seq<Utxo>): int {
    SumOf(Tokens(Confirmed(utxos) + Change(transactions, utxos)) + locked)
  }

  function DetailedBalances(channels: seq<Channel>, locked: seq<int>, pending: seq<PendingChannel>,
                            transactions: seq<Transaction>, utxos: seq<Utxo>): Detailed {
    var confirmed, change := Confirmed(utxos), Change(transactions, utxos);
    var outputs, spends := OutputsOf(utxos), SpendsOf(transactions);
    Detailed(
      SumOf(Closing(pending)),
      Conflicts.Total(outputs, Conflicts.ConflictingIndices(spends, outputs)),
      Conflicts.Total(outputs, Conflicts.InvalidIndices(spends, outputs)),
      SumOf(LocalBalances(channels) + CommitFees(channels) + AnchorOutputs(channels) + ChannelHtlcs(channels)),
      SumOf(Opening(pending) + PendingFees(pending) + PendingHtlcs(pending)),
      Onchain(locked, transactions, utxos),
      Vbytes(confirmed + change))
  }

  function FindTransaction(transactions: seq<Transaction>, id: string): Option<Transaction> {
    if transactions == [] then None
    else if transactions[0].spend.id == id then Some(transactions[0])
    else FindTransaction(transactions[1..], id)
  }

  /** The value of a locked output, unless the lock expired or no confirmed transaction is known to have it. */
  function LockedValue(now: int, transactions: seq<Transaction>, locked: Locked): Option<int> {
    if locked.expiresAt < now then None
    else
      match FindTransaction(transactions, locked.transactionId)
      case None => None
      case Some(tx) =>
        if tx.spend.inputs.None? || tx.confirmationCount == 0 || locked.vout >= |tx.outputs| then None
        else Some(tx.outputs[locked.vout])
  }

  function LockedValues(now: int, transactions: seq<Transaction>, locked: seq<Locked>): seq<int> {
    if locked == [] then []
    else
      var n := |locked| - 1;
      var value := LockedValue(now, transactions, locked[n]);
      LockedValues(now, transactions, locked[..n]) + if value.Some? then [value.value] else []
  }

  /** `locked` is None when the locked outputs could not be fetched, which is ignored. */
  function NodeFunds(isConfirmed: bool, now: int, channels: seq<Channel>, locked: Option<seq<Locked>>,
                     pending: seq<PendingChannel>, transactions: seq<Transaction>, utxos: seq<Utxo>): Funds {
    var values := LockedValues(now, transactions, if locked.Some? then locked.value else []);
    var confirmed := DetailedBalances(channels, values, pending, ConfirmedTransactions(transactions), Confirmed(utxos));
    var unconfirmed := DetailedBalances(channels, values, pending, transactions, utxos);
    Funds(if isConfirmed then confirmed else unconfirmed, confirmed.onchain,
          unconfirmed.onchain - confirmed.onchain, |utxos|)
  }

  // ----- what the roll-up says -----

  lemma {:induction false} TokensAppend(a: seq<Utxo>, b: seq<Utxo>)
    ensures Tokens(a + b) == Tokens(a) + Tokens(b)
  {
    if b == [] {
      assert a + b == a;
    } else {
      var n := |b| - 1;
      assert (a + b)[..|a| + n] == a + b[..n];
      TokensAppend(a, b[..n]);
    }
  }

  predicate AllConfirmed(utxos: seq<Utxo>) {
    forall i :: 0 <= i < |utxos| ==> utxos[i].output.confirmationCount > 0
  }

  lemma ConfirmedAre(utxos: seq<Utxo>)
    ensures AllConfirmed(Confirmed(utxos))
  {
    forall i | 0 <= i < |Confirmed(utxos)|
      ensures Confirmed(utxos)[i].output.confirmationCount > 0
    {
      assert Confirmed(utxos)[i] in Confirmed(utxos);
    }
  }

  lemma {:induction false} FiltersOfConfirmed(transactions: seq<Transaction>, utxos: seq<Utxo>)
    requires AllConfirmed(utxos)
    ensures Confirmed(utxos) == utxos && Change(transactions, utxos) == []
  {
    if utxos != [] {
      FiltersOfConfirmed(transactions, utxos[..|utxos| - 1]);
    }
  }

  lemma OnchainParts(locked: seq<int>, transactions: seq<Transaction>, utxos: seq<Utxo>)
    ensures Onchain(locked, transactions, utxos) ==
            SumOf(Tokens(Confirmed(utxos))) + SumOf(Tokens(Change(transactions, utxos))) + SumOf(locked)
  {
    var confirmed, change := Confirmed(utxos), Change(transactions, utxos);
    TokensAppend(confirmed, change);
    SumAppend(Tokens(confirmed), Tokens(change), Same);
    SumAppend(Tokens(confirmed + change), locked, Same);
  }

  lemma OnchainOfConfirmed(locked: seq<int>, transactions: seq<Transaction>, utxos: seq<Utxo>)
    ensures Onchain(locked, transactions, Confirmed(utxos)) == SumOf(Tokens(Confirmed(utxos))) + SumOf(locked)
  {
    OnchainParts(locked, transactions, Confirmed(utxos));
    ConfirmedAre(utxos);
    FiltersOfConfirmed(transactions, Confirmed(utxos));
  }

  /** Pending on-chain funds are the unconfirmed change, whatever is locked; the rest is confirmed or locked. */
  lemma PendingIsChange(isConfirmed: bool, now: int, channels: seq<Channel>, locked: Option<seq<Locked>>,
                        pending: seq<PendingChannel>, transactions: seq<Transaction>, utxos: seq<Utxo>)
    ensures var funds := NodeFunds(isConfirmed, now, channels, locked, pending, transactions, utxos);
            var values := LockedValues(now, transactions, if locked.Some? then locked.value else []);
            && funds.onchainPending == SumOf(Tokens(Change(transactions, utxos)))
            && funds.onchainConfirmed == SumOf(Tokens(Confirmed(utxos))) + SumOf(values)
  {
    var values := LockedValues(now, transactions, if locked.Some? then locked.value else []);
    OnchainParts(values, transactions, utxos);
    OnchainOfConfirmed(values, ConfirmedTransactions(transactions), utxos);
  }

  lemma {:induction false} NonePending(utxos: seq<Conflicts.Utxo>)
    requires forall i :: 0 <= i < |utxos| ==> utxos[i].confirmationCount > 0
    ensures Conflicts.Unconfirmed(utxos) == []
  {
    if utxos != [] {
      NonePending(utxos[..|utxos| - 1]);
    }
  }

  /** Asked for confirmed funds only, nothing is reported as conflicted or invalid. */
  lemma ConfirmedHasNoConflicts(now: int, channels: seq<Channel>, locked: Option<seq<Locked>>,
                                pending: seq<PendingChannel>, transactions: seq<Transaction>, utxos: seq<Utxo>)
    ensures var balances := NodeFunds(true, now, channels, locked, pending, transactions, utxos).balances;
            balances.conflicted == 0 && balances.invalid == 0
  {
    var outputs := OutputsOf(Confirmed(utxos));
    var spends := SpendsOf(ConfirmedTransactions(transactions));
    ConfirmedAre(utxos);
    NonePending(outputs);
    assert Conflicts.ConflictingIndices(spends, outputs) == {} && Conflicts.InvalidIndices(spends, outputs) == {};
    Conflicts.TotalOfNone(outputs, |outputs|);
  }

  /** What a channel adds to the balance: the initiator's fee and anchor come back, and sent HTLCs may. */
  function Owned(channel: Channel): int {
    channel.localBalance + SumOf(Outgoing(channel.payments)) +
    if channel.isPartnerInitiated == Some(false) then
      channel.commitFee + if channel.isAnchor then 330 else 0
    else 0
  }

  function OwnedInAll(channels: seq<Channel>): int {
    if channels == [] then 0 else OwnedInAll(channels[..|channels| - 1]) + Owned(channels[|channels| - 1])
  }

  lemma SumOfFour(a: seq<int>, b: seq<int>, c: seq<int>, d: seq<int>)
    ensures SumOf(a + b + c + d) == SumOf(a) + SumOf(b) + SumOf(c) + SumOf(d)
  {
    SumAppend(a, b, Same);
    SumAppend(a + b, c, Same);
    SumAppend(a + b + c, d, Same);
  }

  lemma OneMoreChannel(front: seq<Channel>, last: Channel)
    ensures SumOf(LocalBalances(front + [last])) == SumOf(LocalBalances(front)) + last.localBalance
    ensures SumOf(ChannelHtlcs(front + [last])) == SumOf(ChannelHtlcs(front)) + SumOf(Outgoing(last.payments))
  {
    assert (front + [last])[..|front|] == front;
    SumAppend(LocalBalances(front), [last.localBalance], Same);
    SumAppend(ChannelHtlcs(front), Outgoing(last.payments), Same);
  }

  lemma OneMoreFunder(front: seq<Channel>, last: Channel)
    ensures SumOf(CommitFees(front + [last])) + SumOf(AnchorOutputs(front + [last])) ==
            SumOf(CommitFees(front)) + SumOf(AnchorOutputs(front)) +
            Owned(last) - last.localBalance - SumOf(Outgoing(last.payments))
  {
    assert (front + [last])[..|front|] == front;
    SumAppend(CommitFees(front), [last.commitFee], Same);
    SumAppend(AnchorOutputs(front), [ANCHOR_OUTPUT_AMOUNT], Same);
    assert CommitFees(front) + [] == CommitFees(front) && AnchorOutputs(front) + [] == AnchorOutputs(front);
  }

  lemma {:induction false} FourTotals(channels: seq<Channel>)
    ensures SumOf(LocalBalances(channels)) + SumOf(CommitFees(channels)) + SumOf(AnchorOutputs(channels)) +
            SumOf(ChannelHtlcs(channels)) == OwnedInAll(channels)
  {
    if channels != [] {
      var front, last := channels[..|channels| - 1], channels[|channels| - 1];
      assert channels == front + [last];
      FourTotals(front);
      OneMoreChannel(front, last);
      OneMoreFunder(front, last);
    }
  }

  /** The sum over four lists of components is the sum over channels. */
  lemma OffchainIsPerChannel(channels: seq<Channel>, locked: seq<int>, pending: seq<PendingChannel>,
                             transactions: seq<Transaction>, utxos: seq<Utxo>)
    ensures DetailedBalances(channels, locked, pending, transactions, utxos).offchain == OwnedInAll(channels)
  {
    SumOfFour(LocalBalances(channels), CommitFees(channels), AnchorOutputs(channels), ChannelHtlcs(channels));
    FourTotals(channels);
  }

  /** What a pending channel adds: balance and fee of one the node opens, and its sent HTLCs. */
  function OwnedPending(channel: PendingChannel): int {
    SumOf(Outgoing(channel.payments)) +
    if channel.isOpening && channel.isPartnerInitiated == Some(false) then
      channel.localBalance + channel.transactionFee
    else 0
  }

  function OwnedInPending(pending: seq<PendingChannel>): int {
    if pending == [] then 0 else OwnedInPending(pending[..|pending| - 1]) + OwnedPending(pending[|pending| - 1])
  }

  function ComingBack(pending: seq<PendingChannel>): int {
    if pending == [] then 0
    else
      var last := pending[|pending| - 1];
      ComingBack(pending[..|pending| - 1]) + if last.isClosing then last.localBalance - last.recoveredTokens else 0
  }

  lemma OneMorePending(front: seq<PendingChannel>, last: PendingChannel)
    ensures SumOf(Opening(front + [last])) + SumOf(PendingFees(front + [last])) + SumOf(PendingHtlcs(front + [last])) ==
            SumOf(Opening(front)) + SumOf(PendingFees(front)) + SumOf(PendingHtlcs(front)) + OwnedPending(last)
  {
    assert (front + [last])[..|front|] == front;
    SumAppend(Opening(front), [last.localBalance], Same);
    SumAppend(PendingFees(front), [last.transactionFee], Same);
    SumAppend(PendingHtlcs(front), Outgoing(last.payments), Same);
    assert Opening(front) + [] == Opening(front) && PendingFees(front) + [] == PendingFees(front);
  }

  lemma OneMoreClosing(front: seq<PendingChannel>, last: PendingChannel)
    ensures SumOf(Closing(front + [last])) ==
            SumOf(Closing(front)) + if last.isClosing then last.localBalance - last.recoveredTokens else 0
  {
    assert (front + [last])[..|front|] == front;
    SumAppend(Closing(front), [last.localBalance - last.recoveredTokens], Same);
    assert Closing(front) + [] == Closing(front);
  }

  lemma {:induction false} PendingTotals(pending: seq<PendingChannel>)
    ensures SumOf(Opening(pending)) + SumOf(PendingFees(pending)) + SumOf(PendingHtlcs(pending)) ==
            OwnedInPending(pending)
    ensures SumOf(Closing(pending)) == ComingBack(pending)
  {
    if pending != [] {
      var front, last := pending[..|pending| - 1], pending[|pending| - 1];
      assert pending == front + [last];
      PendingTotals(front);
      OneMorePending(front, last);
      OneMoreClosing(front, last);
    }
  }

  /** The pending and the closing balance are sums over the pending channels. */
  lemma PendingIsPerChannel(channels: seq<Channel>, locked: seq<int>, pending: seq<PendingChannel>,
                            transactions: seq<Transaction>, utxos: seq<Utxo>)
    ensures var balances := DetailedBalances(channels, locked, pending, transactions, utxos);
            balances.offchainPending == OwnedInPending(pending) && balances.closing == ComingBack(pending)
  {
    PendingTotals(pending);
    SumAppend(Opening(pending), PendingFees(pending), Same);
    SumAppend(Opening(pending) + PendingFees(pending), PendingHtlcs(pending), Same);
  }

  // ----- which outputs count, stated on the inputs -----

  /** The confirmed outputs, each once and in order. */
  lemma {:induction false} ConfirmedSelects(utxos: seq<Utxo>) returns (at: seq<nat>)
    ensures Selects(Confirmed(utxos), utxos, at)
    ensures forall i: nat :: i in at <==> i < |utxos| && utxos[i].output.confirmationCount > 0
  {
    at := [];
    if utxos != [] {
      var n := |utxos| - 1;
      at := ConfirmedSelects(utxos[..n]);
      SelectsMore(Confirmed(utxos[..n]), utxos[..n], at, utxos[n]);
      assert utxos == utxos[..n] + [utxos[n]];
      if utxos[n].output.confirmationCount > 0 {
        at := at + [n];
      } else {
        assert Confirmed(utxos) == Confirmed(utxos[..n]);
      }
    }
  }

  /** An unconfirmed transaction that the node sends pays to the address. */
  predicate IsPaidBack(transactions: seq<Transaction>, address: string) {
    exists k :: 0 <= k < |transactions| && transactions[k].isOutgoing && !transactions[k].spend.isConfirmed &&
                address in transactions[k].outputAddresses
  }

  /** The change outputs are the unconfirmed ones that are paid back, each once and in order. */
  lemma {:induction false} ChangeSelects(transactions: seq<Transaction>, utxos: seq<Utxo>) returns (at: seq<nat>)
    ensures Selects(Change(transactions, utxos), utxos, at)
    ensures forall i: nat :: i in at <==>
              i < |utxos| && utxos[i].output.confirmationCount == 0 && IsPaidBack(transactions, utxos[i].address)
  {
    at := [];
    if utxos != [] {
      var n := |utxos| - 1;
      at := ChangeSelects(transactions, utxos[..n]);
      SelectsMore(Change(transactions, utxos[..n]), utxos[..n], at, utxos[n]);
      assert utxos == utxos[..n] + [utxos[n]];
      ChangeAddressIff(transactions, utxos[n].address);
      if utxos[n].output.confirmationCount == 0 && IsPaidBack(transactions, utxos[n].address) {
        at := at + [n];
      } else {
        assert Change(transactions, utxos) == Change(transactions, utxos[..n]);
      }
    }
  }

  lemma ChangeAddressIff(transactions: seq<Transaction>, address: string)
    ensures IsChangeAddress(transactions, address) <==> IsPaidBack(transactions, address)
  {
    if IsChangeAddress(transactions, address) {
      var tx :| tx in transactions && !tx.spend.isConfirmed && tx.isOutgoing && address in tx.outputAddresses;
      var k :| 0 <= k < |transactions| && transactions[k] == tx;
      assert transactions[k].isOutgoing;
    }
  }

  /** Sums of amounts grow by one amount at a time. */
  lemma AmountsAdd(utxos: seq<Utxo>, utxo: Utxo, payments: seq<Payment>, payment: Payment)
    ensures SumOf(Tokens([])) == 0 && SumOf(Outgoing([])) == 0
    ensures SumOf(Tokens(utxos + [utxo])) == SumOf(Tokens(utxos)) + utxo.output.tokens
    ensures SumOf(Outgoing(payments + [payment])) ==
            SumOf(Outgoing(payments)) + if payment.isOutgoing then payment.tokens else 0
  {
    assert (utxos + [utxo])[..|utxos|] == utxos && (payments + [payment])[..|payments|] == payments;
    SumAppend(Tokens(utxos), [utxo.output.tokens], Same);
    SumAppend(Outgoing(payments), [payment.tokens], Same);
    assert Outgoing(payments) + [] == Outgoing(payments);
  }

  // ----- locked outputs -----

  predicate IsFirstWith(transactions: seq<Transaction>, k: int, id: string) {
    && 0 <= k < |transactions| && transactions[k].spend.id == id
    && forall j :: 0 <= j < k ==> transactions[j].spend.id != id
  }

  lemma {:induction false} FoundIsFirst(transactions: seq<Transaction>, id: string)
    ensures match FindTransaction(transactions, id)
            case Some(tx) => exists k :: IsFirstWith(transactions, k, id) && transactions[k] == tx
            case None => forall k :: 0 <= k < |transactions| ==> transactions[k].spend.id != id
  {
    if transactions == [] {
    } else if transactions[0].spend.id == id {
      assert IsFirstWith(transactions, 0, id);
    } else {
      var rest := transactions[1..];
      FoundIsFirst(rest, id);
      assert forall j :: 0 < j < |transactions| ==> transactions[j] == rest[j - 1];
      if FindTransaction(rest, id).Some? {
        var k :| IsFirstWith(rest, k, id) && rest[k] == FindTransaction(rest, id).value;
        assert IsFirstWith(transactions, k + 1, id);
      }
    }
  }

  /**
   * A locked output counts with a value exactly when its lock has not expired and the first transaction with its
   * id is known, confirmed, and has an output of that value at its position.
   */
  lemma LockedCountsIff(now: int, transactions: seq<Transaction>, locked: Locked, value: int)
    ensures LockedValue(now, transactions, locked) == Some(value) <==>
            && now <= locked.expiresAt
            && exists k :: IsFirstWith(transactions, k, locked.transactionId)
                        && transactions[k].spend.inputs.Some? && transactions[k].confirmationCount > 0
                        && locked.vout < |transactions[k].outputs| && transactions[k].outputs[locked.vout] == value
  {
    var id := locked.transactionId;
    FoundIsFirst(transactions, id);
    if FindTransaction(transactions, id).Some? {
      var k :| IsFirstWith(transactions, k, id) && transactions[k] == FindTransaction(transactions, id).value;
      forall j | IsFirstWith(transactions, j, id)
        ensures j == k
      {
      }
    }
  }

  /** The counted values are those of the locked outputs that count, in order. */
  lemma LockedValuesAdd(now: int, transactions: seq<Transaction>, locked: seq<Locked>, one: Locked)
    ensures LockedValues(now, transactions, []) == []
    ensures var value := LockedValue(now, transactions, one);
            LockedValues(now, transactions, locked + [one]) ==
            LockedValues(now, transactions, locked) + if value.Some? then [value.value] else []
  {
    assert (locked + [one])[..|locked|] == locked;
  }

  // ----- which roll-up is reported -----

  /**
   * Asked for confirmed funds, the size is that of the confirmed outputs; otherwise that of confirmed and change
   * outputs, with the conflicts among all outputs. The on-chain total has the same outputs. All outputs are counted.
   */
  lemma FundsAre(isConfirmed: bool, now: int, channels: seq<Channel>, locked: Option<seq<Locked>>,
                 pending: seq<PendingChannel>, transactions: seq<Transaction>, utxos: seq<Utxo>)
    ensures var funds := NodeFunds(isConfirmed, now, channels, locked, pending, transactions, utxos);
            var outputs, spends := OutputsOf(utxos), SpendsOf(transactions);
            && funds.utxosCount == |utxos|
            && funds.balances.onchain == funds.onchainConfirmed + (if isConfirmed then 0 else funds.onchainPending)
            && funds.balances.vbytes ==
               (if isConfirmed then Vbytes(Confirmed(utxos))
                else Vbytes(Confirmed(utxos) + Change(transactions, utxos)))
            && (!isConfirmed ==>
                  && funds.balances.conflicted ==
                       Conflicts.Total(outputs, Conflicts.ConflictingIndices(spends, outputs))
                  && funds.balances.invalid == Conflicts.Total(outputs, Conflicts.InvalidIndices(spends, outputs)))
  {
    ConfirmedAre(utxos);
    FiltersOfConfirmed(ConfirmedTransactions(transactions), Confirmed(utxos));
    assert Confirmed(utxos) + [] == Confirmed(utxos);
  }

  // ----- the size estimate -----

  /** The size of an input in quarters of a virtual byte. */
  function Quarters(format: Format): int {
    match format
    case Taproot => 226
    case OtherFormat => 268
    case Nested => 356
  }

  function Count(utxos: seq<Utxo>, format: Format): nat {
    if utxos == [] then 0
    else Count(utxos[..|utxos| - 1], format) + if utxos[|utxos| - 1].format == format then 1 else 0
  }

  lemma InputQuarters(utxo: Utxo)
    ensures 4.0 * RealSumOf(InputParts(utxo)) == Quarters(utxo.format) as real
    ensures InputParts(utxo) != []
  {
    var input, v0 := [32.0, 4.0, 4.0, 0.25, 0.25], [18.0, 0.25, 8.25];
    FiveParts(32.0, 4.0, 4.0, 0.25, 0.25);
    ThreeParts(18.0, 0.25, 8.25);
    RealSumAppend(input, [16.0], Same);
    RealSumAppend(input, v0, Same);
    RealSumAppend(input + v0, [22.0], Same);
  }

  lemma OnePart(a: real)
    ensures RealSumOf([a]) == a
  {
    var one := [a];
    assert one[1..] == [];
    assert RealSum(one, Same) == Same(one[0]) + RealSum(one[1..], Same);
  }

  lemma ThreeParts(a: real, b: real, c: real)
    ensures RealSumOf([a, b, c]) == a + b + c
  {
    OnePart(c);
    assert [a, b, c][1..] == [b, c] && [b, c][1..] == [c];
    assert RealSumOf([b, c]) == b + RealSumOf([c]);
  }

  lemma FiveParts(a: real, b: real, c: real, d: real, e: real)
    ensures RealSumOf([a, b, c, d, e]) == a + b + c + d + e
  {
    ThreeParts(c, d, e);
    assert [a, b, c, d, e][1..] == [b, c, d, e] && [b, c, d, e][1..] == [c, d, e];
    assert RealSumOf([b, c, d, e]) == b + RealSumOf([c, d, e]);
  }

  lemma {:induction false} ElementQuarters(utxos: seq<Utxo>)
    ensures InputElements(utxos) == [] <==> utxos == []
    ensures 4.0 * RealSumOf(InputElements(utxos)) ==
            (226 * Count(utxos, Taproot) + 268 * Count(utxos, OtherFormat) + 356 * Count(utxos, Nested)) as real
  {
    if utxos != [] {
      var n := |utxos| - 1;
      ElementQuarters(utxos[..n]);
      InputQuarters(utxos[n]);
      RealSumAppend(InputElements(utxos[..n]), InputParts(utxos[n]), Same);
    }
  }

  /** The estimate is the least number of whole virtual bytes that holds the quarters, and 0 without inputs. */
  lemma VbytesIsExact(utxos: seq<Utxo>)
    ensures var quarters :=
              if utxos == [] then 0
              else 220 + 226 * Count(utxos, Taproot) + 268 * Count(utxos, OtherFormat) + 356 * Count(utxos, Nested);
            4 * Vbytes(utxos) - 4 < quarters <= 4 * Vbytes(utxos)
  {
    var elements := InputElements(utxos);
    ElementQuarters(utxos);
    if utxos != [] {
      FiveParts(4.0, 3.0, 1.0, 8.0, 1.0);
      RealSumAppend([4.0, 3.0, 1.0, 8.0, 1.0], [34.0, 4.0], Same);
      OnePart(4.0);
      assert [34.0, 4.0][1..] == [4.0];
      assert [4.0, 3.0, 1.0, 8.0, 1.0] + [34.0, 4.0] == [4.0, 3.0, 1.0, 8.0, 1.0, 34.0, 4.0];
      RealSumAppend([4.0, 3.0, 1.0, 8.0, 1.0, 34.0, 4.0], elements, Same);
    }
  }
}
