/** The liquidity with a peer, split by what a known settled payment has already moved. */
module PeerLiquidity {
  import opened Wrappers

  datatype Payment = Payment(id: string, isOutgoing: bool, tokens: int)

  datatype Channel = Channel(localBalance: int, remoteBalance: int, payments: seq<Payment>)

  datatype Opening = Opening(localBalance: int, remoteBalance: int)

  datatype Liquidity = Liquidity(
    inbound: int,
    inboundOpening: int,
    inboundPending: int,
    outbound: int,
    outboundOpening: int,
    outboundPending: int)

  /** The tokens of the payments in one direction that are, or are not, the settled one. */
  function PaymentTokens(payments: seq<Payment>, isOutgoing: bool, settled: Option<string>, isSettled: bool): int {
    if payments == [] then 0
    else
      var last := payments[|payments| - 1];
      var counts := last.isOutgoing == isOutgoing && (Some(last.id) == settled) == isSettled;
      PaymentTokens(payments[..|payments| - 1], isOutgoing, settled, isSettled) + if counts then last.tokens else 0
  }

  function Balance(channels: seq<Channel>, isInbound: bool, settled: Option<string>): int {
    if channels == [] then 0
    else
      var last := channels[|channels| - 1];
      Balance(channels[..|channels| - 1], isInbound, settled) +
      (if isInbound then last.remoteBalance else last.localBalance) +
      PaymentTokens(last.payments, isInbound, settled, true)
  }

  function PendingTokens(channels: seq<Channel>, isInbound: bool, settled: Option<string>): int {
    if channels == [] then 0
    else
      PendingTokens(channels[..|channels| - 1], isInbound, settled) +
      PaymentTokens(channels[|channels| - 1].payments, isInbound, settled, false)
  }

  function OpeningTokens(opening: seq<Opening>, isInbound: bool): int {
    if opening == [] then 0
    else
      var last := opening[|opening| - 1];
      OpeningTokens(opening[..|opening| - 1], isInbound) + if isInbound then last.remoteBalance else last.localBalance
  }

  function Summarize(channels: seq<Channel>, opening: seq<Opening>, settled: Option<string>): Liquidity {
    Liquidity(
      Balance(channels, true, settled),
      OpeningTokens(opening, true),
      PendingTokens(channels, true, settled),
      Balance(channels, false, settled),
      OpeningTokens(opening, false),
      PendingTokens(channels, false, settled))
  }

  lemma {:induction false} PaymentsSplit(payments: seq<Payment>, isOutgoing: bool, a: Option<string>, b: Option<string>)
    ensures PaymentTokens(payments, isOutgoing, a, true) + PaymentTokens(payments, isOutgoing, a, false) ==
            PaymentTokens(payments, isOutgoing, b, true) + PaymentTokens(payments, isOutgoing, b, false)
  {
    if payments != [] {
      PaymentsSplit(payments[..|payments| - 1], isOutgoing, a, b);
    }
  }

  lemma {:induction false} BalancePlusPending(
    channels: seq<Channel>, isInbound: bool, a: Option<string>, b: Option<string>)
    ensures Balance(channels, isInbound, a) + PendingTokens(channels, isInbound, a) ==
            Balance(channels, isInbound, b) + PendingTokens(channels, isInbound, b)
  {
    if channels != [] {
      BalancePlusPending(channels[..|channels| - 1], isInbound, a, b);
      PaymentsSplit(channels[|channels| - 1].payments, isInbound, a, b);
    }
  }

  /** Settling a payment moves tokens from pending to settled, and changes no total. */
  lemma TotalsIgnoreSettled(channels: seq<Channel>, opening: seq<Opening>, a: Option<string>, b: Option<string>)
    ensures var x, y := Summarize(channels, opening, a), Summarize(channels, opening, b);
            && x.inbound + x.inboundPending == y.inbound + y.inboundPending
            && x.outbound + x.outboundPending == y.outbound + y.outboundPending
            && x.inboundOpening == y.inboundOpening && x.outboundOpening == y.outboundOpening
  {
    BalancePlusPending(channels, true, a, b);
    BalancePlusPending(channels, false, a, b);
  }

  /** Everything in the channels, in whatever state. */
  function AllTokens(channels: seq<Channel>): int {
    if channels == [] then 0
    else
      var last := channels[|channels| - 1];
      AllTokens(channels[..|channels| - 1]) + last.localBalance + last.remoteBalance + TokensOf(last.payments)
  }

  function TokensOf(payments: seq<Payment>): int {
    if payments == [] then 0 else TokensOf(payments[..|payments| - 1]) + payments[|payments| - 1].tokens
  }

  lemma {:induction false} FourParts(payments: seq<Payment>, settled: Option<string>)
    ensures TokensOf(payments) ==
            PaymentTokens(payments, true, settled, true) + PaymentTokens(payments, true, settled, false) +
            PaymentTokens(payments, false, settled, true) + PaymentTokens(payments, false, settled, false)
  {
    if payments != [] {
      FourParts(payments[..|payments| - 1], settled);
    }
  }

  /** Every balance and every payment in flight is counted exactly once among the four channel sums. */
  lemma {:induction false} EachTokenCountedOnce(channels: seq<Channel>, opening: seq<Opening>, settled: Option<string>)
    ensures var x := Summarize(channels, opening, settled);
            x.inbound + x.inboundPending + x.outbound + x.outboundPending == AllTokens(channels)
  {
    if channels != [] {
      EachTokenCountedOnce(channels[..|channels| - 1], opening, settled);
      FourParts(channels[|channels| - 1].payments, settled);
    }
  }

  /** The balance of one side, and the tokens of all payments in one direction. */
  function SideTokens(channels: seq<Channel>, isInbound: bool): int {
    if channels == [] then 0
    else
      var last := channels[|channels| - 1];
      SideTokens(channels[..|channels| - 1], isInbound) + if isInbound then last.remoteBalance else last.localBalance
  }

  function DirectionTokens(payments: seq<Payment>, isOutgoing: bool): int {
    if payments == [] then 0
    else
      var last := payments[|payments| - 1];
      DirectionTokens(payments[..|payments| - 1], isOutgoing) + if last.isOutgoing == isOutgoing then last.tokens else 0
  }

  function InFlight(channels: seq<Channel>, isOutgoing: bool): int {
    if channels == [] then 0
    else
      var last := channels[|channels| - 1];
      InFlight(channels[..|channels| - 1], isOutgoing) + DirectionTokens(last.payments, isOutgoing)
  }

  lemma {:induction false} NothingSettled(payments: seq<Payment>, isOutgoing: bool)
    ensures PaymentTokens(payments, isOutgoing, None, true) == 0
    ensures PaymentTokens(payments, isOutgoing, None, false) == DirectionTokens(payments, isOutgoing)
  {
    if payments != [] {
      NothingSettled(payments[..|payments| - 1], isOutgoing);
    }
  }

  lemma {:induction false} BalanceWithNoneSettled(channels: seq<Channel>, isInbound: bool)
    ensures Balance(channels, isInbound, None) == SideTokens(channels, isInbound)
    ensures PendingTokens(channels, isInbound, None) == InFlight(channels, isInbound)
  {
    if channels != [] {
      BalanceWithNoneSettled(channels[..|channels| - 1], isInbound);
      NothingSettled(channels[|channels| - 1].payments, isInbound);
    }
  }

  /** Inbound liquidity is remote balances and sent payments, outbound is local balances and received payments. */
  lemma TotalsAreSidesAndFlights(channels: seq<Channel>, opening: seq<Opening>, settled: Option<string>)
    ensures var x := Summarize(channels, opening, settled);
            && x.inbound + x.inboundPending == SideTokens(channels, true) + InFlight(channels, true)
            && x.outbound + x.outboundPending == SideTokens(channels, false) + InFlight(channels, false)
  {
    TotalsIgnoreSettled(channels, opening, settled, None);
    BalanceWithNoneSettled(channels, true);
    BalanceWithNoneSettled(channels, false);
  }

  // ----- one payment or channel more -----

  predicate IsSettled(payment: Payment, settled: Option<string>) {
    settled.Some? && settled.value == payment.id
  }

  lemma PaymentAdds(
    payments: seq<Payment>, payment: Payment, isOutgoing: bool, settled: Option<string>, isSettled: bool)
    ensures PaymentTokens(payments + [payment], isOutgoing, settled, isSettled) ==
            PaymentTokens(payments, isOutgoing, settled, isSettled) +
            if payment.isOutgoing == isOutgoing && IsSettled(payment, settled) == isSettled then payment.tokens else 0
  {
    assert (payments + [payment])[..|payments|] == payments;
  }

  /** A sum over channels with the last of them replaced. */
  lemma LastChannel(channels: seq<Channel>, channel: Channel, isInbound: bool, settled: Option<string>)
    ensures Balance(channels + [channel], isInbound, settled) ==
            Balance(channels, isInbound, settled) +
            (if isInbound then channel.remoteBalance else channel.localBalance) +
            PaymentTokens(channel.payments, isInbound, settled, true)
    ensures PendingTokens(channels + [channel], isInbound, settled) ==
            PendingTokens(channels, isInbound, settled) + PaymentTokens(channel.payments, isInbound, settled, false)
  {
    assert (channels + [channel])[..|channels|] == channels;
  }

  /**
   * A further payment of a channel adds its tokens to one sum: when the node sends it, to the inbound one if it is
   * the settled payment and to the pending inbound one if not; when it receives it, to the outbound ones likewise.
   */
  lemma OnePaymentMore(channels: seq<Channel>, channel: Channel, payment: Payment, settled: Option<string>)
    ensures var more := channel.(payments := channel.payments + [payment]);
            var x, y := Summarize(channels + [channel], [], settled), Summarize(channels + [more], [], settled);
            if payment.isOutgoing then
              y == if IsSettled(payment, settled) then x.(inbound := x.inbound + payment.tokens)
                   else x.(inboundPending := x.inboundPending + payment.tokens)
            else
              y == if IsSettled(payment, settled) then x.(outbound := x.outbound + payment.tokens)
                   else x.(outboundPending := x.outboundPending + payment.tokens)
  {
    var more := channel.(payments := channel.payments + [payment]);
    PaymentAdds(channel.payments, payment, true, settled, true);
    PaymentAdds(channel.payments, payment, true, settled, false);
    PaymentAdds(channel.payments, payment, false, settled, true);
    PaymentAdds(channel.payments, payment, false, settled, false);
    LastChannel(channels, channel, true, settled);
    LastChannel(channels, channel, false, settled);
    LastChannel(channels, more, true, settled);
    LastChannel(channels, more, false, settled);
  }

  /** A further channel without payments adds its two balances, and a further opening one its own two. */
  lemma OneChannelMore(
    channels: seq<Channel>, local: int, remote: int, opening: seq<Opening>, more: Opening, settled: Option<string>)
    ensures Summarize([], [], settled) == Liquidity(0, 0, 0, 0, 0, 0)
    ensures var x := Summarize(channels, opening, settled);
            && Summarize(channels + [Channel(local, remote, [])], opening, settled) ==
               x.(inbound := x.inbound + remote, outbound := x.outbound + local)
            && Summarize(channels, opening + [more], settled) ==
               x.(inboundOpening := x.inboundOpening + more.remoteBalance,
                  outboundOpening := x.outboundOpening + more.localBalance)
  {
    LastChannel(channels, Channel(local, remote, []), true, settled);
    LastChannel(channels, Channel(local, remote, []), false, settled);
    assert (opening + [more])[..|opening|] == opening;
  }
}
