/** Polling pending channels and emitting those that are newly closing or newly opening. */
module PendingChannels {
  import opened Sequences
  import opened Wrappers

  datatype Channel = Channel(outpoint: string, isClosing: bool, isOpening: bool)

  datatype Kind = Closing | Opening

  predicate Is(kind: Kind, channel: Channel) {
    match kind
    case Closing => channel.isClosing
    case Opening => channel.isOpening
  }

  datatype Event = Event(kind: Kind, channels: seq<Channel>)

  /** What a poll is answered with, and how many listeners the two events have at that time. */
  datatype Poll = Poll(reply: Option<seq<Channel>>, listeners: nat)

  function OfKind(kind: Kind, channels: seq<Channel>): (r: seq<Channel>)
    ensures forall c :: c in r <==> c in channels && Is(kind, c)
  {
    if channels == [] then []
    else
      var n := |channels| - 1;
      assert channels == channels[..n] + [channels[n]];
      OfKind(kind, channels[..n]) + if Is(kind, channels[n]) then [channels[n]] else []
  }

  predicate HasOutpoint(channels: seq<Channel>, outpoint: string) {
    exists c :: c in channels && c.outpoint == outpoint
  }

  /** The channels whose outpoint some others do not have. */
  function Missing(before: seq<Channel>, channels: seq<Channel>): (r: seq<Channel>)
    ensures forall c :: c in r <==> c in channels && !HasOutpoint(before, c.outpoint)
  {
    if channels == [] then []
    else
      var n := |channels| - 1;
      assert channels == channels[..n] + [channels[n]];
      Missing(before, channels[..n]) + if HasOutpoint(before, channels[n].outpoint) then [] else [channels[n]]
  }

  datatype Pending = Pending(closing: seq<Channel>, opening: seq<Channel>)

  datatype State = State(pending: Option<Pending>, isStopped: bool)

  function EventOf(kind: Kind, channels: seq<Channel>): seq<Event> {
    if channels == [] then [] else [Event(kind, channels)]
  }

  /** The events of a poll: none on the first run, and none when nothing listens. */
  function EventsOf(state: State, poll: Poll): seq<Event> {
    if state.pending.None? || poll.reply.None? || poll.listeners == 0 then []
    else
      EventOf(Closing, Missing(state.pending.value.closing, OfKind(Closing, poll.reply.value))) +
      EventOf(Opening, Missing(state.pending.value.opening, OfKind(Opening, poll.reply.value)))
  }

  function After(state: State, poll: Poll): State {
    if poll.reply.None? then state.(isStopped := true)
    else
      State(Some(Pending(OfKind(Closing, poll.reply.value), OfKind(Opening, poll.reply.value))),
            state.pending.Some? && poll.listeners == 0)
  }

  class Subscription {
    var pending: Option<Pending>
    var isStopped: bool
    var emitted: seq<Event>

    constructor ()
      ensures Snapshot() == State(None, false) && emitted == []
    {
      pending := None;
      isStopped := false;
      emitted := [];
    }

    function Snapshot(): State
      reads this
    {
      State(pending, isStopped)
    }

    method OnPoll(poll: Poll)
      requires !isStopped
      modifies this
      ensures Snapshot() == After(old(Snapshot()), poll)
      ensures emitted == old(emitted) + EventsOf(old(Snapshot()), poll)
    {
      if poll.reply.None? {
        isStopped := true;
        return;
      }
      var isFirstRun := pending.None?;
      var channels := poll.reply.value;
      var known := if pending.Some? then pending.value else Pending([], []);
      var newlyClosing := Missing(known.closing, OfKind(Closing, channels));
      var newlyOpening := Missing(known.opening, OfKind(Opening, channels));
      pending := Some(Pending(OfKind(Closing, channels), OfKind(Opening, channels)));
      if isFirstRun {
        return;
      }
      if poll.listeners == 0 {
        isStopped := true;
        return;
      }
      if newlyClosing != [] {
        emitted := emitted + [Event(Closing, newlyClosing)];
      }
      if newlyOpening != [] {
        emitted := emitted + [Event(Opening, newlyOpening)];
      }
    }
  }

  // ----- over a whole run -----

  /** The state after some polls; polling ends once it is stopped. */
  function Run(polls: seq<Poll>): State {
    if polls == [] then State(None, false)
    else
      var before := Run(polls[..|polls| - 1]);
      if before.isStopped then before else After(before, polls[|polls| - 1])
  }

  /** The events the k-th poll of a run emits. */
  function EmittedAt(polls: seq<Poll>, k: nat): seq<Event>
    requires k < |polls|
  {
    if Run(polls[..k]).isStopped then [] else EventsOf(Run(polls[..k]), polls[k])
  }

  /** Every poll up to the k-th was answered, and from the second one on something listened. */
  predicate IsLive(polls: seq<Poll>, k: nat)
    requires k < |polls|
  {
    forall j :: 0 <= j <= k ==> polls[j].reply.Some? && (j > 0 ==> polls[j].listeners > 0)
  }

  predicate IsPresent(polls: seq<Poll>, k: nat, kind: Kind, outpoint: string)
    requires k < |polls| && polls[k].reply.Some?
  {
    HasOutpoint(OfKind(kind, polls[k].reply.value), outpoint)
  }

  predicate IsEmitted(polls: seq<Poll>, k: nat, kind: Kind, outpoint: string)
    requires k < |polls|
  {
    exists event :: event in EmittedAt(polls, k) && event.kind == kind && HasOutpoint(event.channels, outpoint)
  }

  /** A live run remembers exactly what the last poll showed. */
  lemma {:induction false} RunRemembersLast(polls: seq<Poll>)
    requires polls != []
    ensures Run(polls).isStopped <==> !IsLive(polls, |polls| - 1)
    ensures !Run(polls).isStopped ==>
              var channels := polls[|polls| - 1].reply.value;
              Run(polls).pending == Some(Pending(OfKind(Closing, channels), OfKind(Opening, channels)))
    ensures Run(polls).pending.Some? || Run(polls).isStopped
  {
    var n := |polls| - 1;
    var front := polls[..n];
    if n > 0 {
      RunRemembersLast(front);
      assert IsLive(polls, n) <==> IsLive(front, n - 1) && polls[n].reply.Some? && polls[n].listeners > 0 by {
        assert forall j :: 0 <= j < n ==> front[j] == polls[j];
      }
    } else {
      assert front == [];
    }
  }

  lemma EventHas(state: State, poll: Poll, kind: Kind, outpoint: string)
    requires state.pending.Some? && poll.reply.Some? && poll.listeners > 0
    ensures var before := if kind.Closing? then state.pending.value.closing else state.pending.value.opening;
            (exists event ::
               event in EventsOf(state, poll) && event.kind == kind && HasOutpoint(event.channels, outpoint))
            <==> HasOutpoint(OfKind(kind, poll.reply.value), outpoint) && !HasOutpoint(before, outpoint)
  {
    var before := if kind.Closing? then state.pending.value.closing else state.pending.value.opening;
    var channels := Missing(before, OfKind(kind, poll.reply.value));
    var events := EventsOf(state, poll);
    assert channels != [] ==> Event(kind, channels) in events;
    assert forall event :: event in events && event.kind == kind ==> event == Event(kind, channels);
    if HasOutpoint(OfKind(kind, poll.reply.value), outpoint) && !HasOutpoint(before, outpoint) {
      var c :| c in OfKind(kind, poll.reply.value) && c.outpoint == outpoint;
      assert c in channels;
    }
  }

  /**
   * An outpoint is emitted at a poll exactly when it shows there, did not show at the poll before, and polling
   * has not stopped. The first poll emits nothing.
   */
  lemma EmittedIffRisingEdge(polls: seq<Poll>, k: nat, kind: Kind, outpoint: string)
    requires k < |polls|
    ensures IsEmitted(polls, k, kind, outpoint) <==>
            k > 0 && IsLive(polls, k) && IsPresent(polls, k, kind, outpoint) && !IsPresent(polls, k - 1, kind, outpoint)
  {
    var before := polls[..k];
    if k > 0 {
      RunRemembersLast(before);
      assert forall j :: 0 <= j < k ==> before[j] == polls[j];
      assert IsLive(polls, k) <==> IsLive(before, k - 1) && polls[k].reply.Some? && polls[k].listeners > 0;
      if IsLive(polls, k) {
        EventHas(Run(before), polls[k], kind, outpoint);
      }
    } else {
      assert before == [];
    }
  }

  /** Between two emissions of an outpoint there is a poll that does not show it. */
  lemma GoneBetweenEmissions(polls: seq<Poll>, j: nat, k: nat, kind: Kind, outpoint: string)
    requires j < k < |polls|
    requires IsEmitted(polls, j, kind, outpoint) && IsEmitted(polls, k, kind, outpoint)
    ensures exists m :: j < m < k && polls[m].reply.Some? && !IsPresent(polls, m, kind, outpoint)
  {
    EmittedIffRisingEdge(polls, j, kind, outpoint);
    EmittedIffRisingEdge(polls, k, kind, outpoint);
    assert polls[k - 1].reply.Some? && !IsPresent(polls, k - 1, kind, outpoint);
  }

  /** An outpoint that shows at some poll but not at the first one has been emitted by then. */
  lemma {:induction false} AppearanceIsEmitted(polls: seq<Poll>, k: nat, kind: Kind, outpoint: string)
    requires k < |polls| && IsLive(polls, k)
    requires !IsPresent(polls, 0, kind, outpoint) && IsPresent(polls, k, kind, outpoint)
    ensures exists m :: 0 < m <= k && IsEmitted(polls, m, kind, outpoint)
  {
    EmittedIffRisingEdge(polls, k, kind, outpoint);
    if IsPresent(polls, k - 1, kind, outpoint) {
      AppearanceIsEmitted(polls, k - 1, kind, outpoint);
    } else {
      assert IsEmitted(polls, k, kind, outpoint);
    }
  }

  // ----- the emitted lists, stated on the polls -----

  predicate IsOfKind(kind: Kind, channel: Channel) {
    (kind == Closing && channel.isClosing) || (kind == Opening && channel.isOpening)
  }

  /** Some channel of the kind has the outpoint. */
  predicate Shows(channels: seq<Channel>, kind: Kind, outpoint: string) {
    exists c :: c in channels && IsOfKind(kind, c) && c.outpoint == outpoint
  }

  /** A list holds the channels of the kind that were not shown before, in order, each as often as it shows. */
  predicate ListsNew(
    r: seq<Channel>, channels: seq<Channel>, before: seq<Channel>, kind: Kind, at: seq<nat>) {
    && Selects(r, channels, at)
    && forall i :: 0 <= i < |channels| ==>
         (i in at <==> IsOfKind(kind, channels[i]) && !Shows(before, kind, channels[i].outpoint))
  }

  function NewIn(channels: seq<Channel>, before: seq<Channel>, kind: Kind): seq<Channel> {
    Missing(OfKind(kind, before), OfKind(kind, channels))
  }

  lemma {:induction false} NewAreListed(channels: seq<Channel>, before: seq<Channel>, kind: Kind) returns (at: seq<nat>)
    ensures ListsNew(NewIn(channels, before, kind), channels, before, kind, at)
  {
    at := [];
    if channels != [] {
      var n := |channels| - 1;
      var front, last := channels[..n], channels[n];
      assert channels == front + [last];
      at := NewAreListed(front, before, kind);
      NewMore(NewIn(front, before, kind), front, last, before, kind, at);
      MissingOfMore(before, front, last, kind);
      at := if IsNew(last, before, kind) then at + [n] else at;
    }
  }

  predicate IsNew(channel: Channel, before: seq<Channel>, kind: Kind) {
    IsOfKind(kind, channel) && !Shows(before, kind, channel.outpoint)
  }

  lemma NewMore(added: seq<Channel>, front: seq<Channel>, last: Channel, before: seq<Channel>, kind: Kind, at: seq<nat>)
    requires ListsNew(added, front, before, kind, at)
    ensures IsNew(last, before, kind) ==> ListsNew(added + [last], front + [last], before, kind, at + [|front|])
    ensures !IsNew(last, before, kind) ==> ListsNew(added, front + [last], before, kind, at)
  {
    var channels := front + [last];
    SelectsMore(added, front, at, last);
    forall i | 0 <= i < |front|
      ensures channels[i] == front[i]
    {
    }
  }

  lemma MissingOfMore(before: seq<Channel>, front: seq<Channel>, last: Channel, kind: Kind)
    ensures NewIn(front + [last], before, kind) ==
            if IsNew(last, before, kind) then NewIn(front, before, kind) + [last] else NewIn(front, before, kind)
  {
    assert (front + [last])[..|front|] == front;
    ShowsIff(before, kind, last.outpoint);
    MissingMore(OfKind(kind, before), OfKind(kind, front), last);
    assert OfKind(kind, front) + [] == OfKind(kind, front);
    assert NewIn(front, before, kind) + [] == NewIn(front, before, kind);
  }

  lemma ShowsIff(channels: seq<Channel>, kind: Kind, outpoint: string)
    ensures HasOutpoint(OfKind(kind, channels), outpoint) <==> Shows(channels, kind, outpoint)
  {
  }

  lemma MissingMore(before: seq<Channel>, channels: seq<Channel>, last: Channel)
    ensures Missing(before, channels + [last]) ==
            Missing(before, channels) + if HasOutpoint(before, last.outpoint) then [] else [last]
  {
    assert (channels + [last])[..|channels|] == channels;
  }

  /** The events of the k-th poll of a live run: the newly closing channels, then the newly opening ones. */
  lemma EmittedListsAreNew(polls: seq<Poll>, k: nat)
    returns (closing: seq<Channel>, opening: seq<Channel>, atClosing: seq<nat>, atOpening: seq<nat>)
    requires 0 < k < |polls| && IsLive(polls, k)
    ensures ListsNew(closing, polls[k].reply.value, polls[k - 1].reply.value, Closing, atClosing)
    ensures ListsNew(opening, polls[k].reply.value, polls[k - 1].reply.value, Opening, atOpening)
    ensures EmittedAt(polls, k) ==
            (if closing == [] then [] else [Event(Closing, closing)]) +
            (if opening == [] then [] else [Event(Opening, opening)])
  {
    var before, channels := polls[k - 1].reply.value, polls[k].reply.value;
    closing, opening := NewIn(channels, before, Closing), NewIn(channels, before, Opening);
    atClosing := NewAreListed(channels, before, Closing);
    atOpening := NewAreListed(channels, before, Opening);
    assert polls[..k][k - 1] == polls[k - 1];
    RunRemembersLast(polls[..k]);
    assert IsLive(polls[..k], k - 1) by {
      assert forall j :: 0 <= j < k ==> polls[..k][j] == polls[j];
    }
  }
}
