/** Peer presence records and the connection events their writes emit. */
module PeerSync {
  import opened Wrappers
  import opened ChangesToRecord
  import opened GuardedSync

  /** A connected peer, as the peers list shows it. */
  datatype Peer = Peer(features: seq<nat>, isInbound: bool, isSyncPeer: Option<bool>, socket: string)

  /** A peer is known by the local node and its own public key; the hash of both is taken to be injective. */
  datatype Key = Key(node: string, id: string)

  datatype Event = Disconnected | Reconnected | NewPeer

  /** What a finished sync reports to its caller. */
  datatype Report = Report(created: bool, updated: Option<Diff>)

  function Bits(features: seq<nat>): Value {
    Arr(seq(|features|, i requires 0 <= i < |features| => Num(features[i])))
  }

  const CONNECTED := Plain(Bool(true))

  const DISCONNECTED := Plain(Bool(false))

  /** The local and the remote key are fixed by the record key and never compared, so they are left out. */
  function NewRecord(peer: Peer): Record {
    map[
      Rev := Plain(Num(0)),
      Features := Bits(peer.features),
      IsConnected := CONNECTED,
      IsInbound := Plain(Bool(peer.isInbound)),
      IsSyncPeer := OptBool(peer.isSyncPeer),
      Socket := Plain(Str(peer.socket))]
  }

  /** The attributes an update compares. */
  const COMPARED: set<Attr> := {Features, IsConnected, IsInbound, IsSyncPeer, Socket}

  function View(record: Record): Record {
    map a | a in COMPARED :: Get(record, a)
  }

  /** The features are sticky: an empty list keeps the stored one. */
  function UpdatedAttr(record: Record, peer: Peer, a: Attr): Value {
    match a
    case Features => if peer.features == [] then Get(record, Features) else Bits(peer.features)
    case IsConnected => CONNECTED
    case IsInbound => Plain(Bool(peer.isInbound))
    case IsSyncPeer => OptBool(peer.isSyncPeer)
    case Socket => Plain(Str(peer.socket))
    case _ => NOTHING
  }

  function Updated(record: Record, peer: Peer): Record {
    map a | a in COMPARED :: UpdatedAttr(record, peer, a)
  }

  /** The update part of a sync: `seen` is None when the peer is not in the peers list. */
  function UpdateOf(seen: Option<Peer>, record: Record): Result<Diff, Error> {
    match seen
    case None =>
      if !Truthy(Get(record, IsConnected)) then Ok(Unchanged)
      else Ok(Changed(
        map[Rev := Add(1), IsConnected := Set(DISCONNECTED)],
        map[IsConnected := Get(record, IsConnected)],
        map[IsConnected := DISCONNECTED]))
    case Some(peer) => DiffOf(View(record), Updated(record, peer))
  }

  function Planned(seen: Option<Peer>, stored: Option<Record>): Plan {
    match stored
    case None => if seen.None? then Nothing else Create(NewRecord(seen.value))
    case Some(record) =>
      match UpdateOf(seen, record)
      case Err(_) => Failed
      case Ok(Unchanged) => Nothing
      case Ok(Changed(changes, _, _)) => Update(changes)
  }

  /** The result of a sync that did not fail: an update wins over a creation. */
  function ReportOf(seen: Option<Peer>, read: Option<Record>): Report {
    match read
    case None => Report(seen.Some?, None)
    case Some(record) =>
      match UpdateOf(seen, record)
      case Ok(Changed(changes, previous, updates)) => Report(false, Some(Changed(changes, previous, updates)))
      case _ => Report(false, None)
  }

  /** The three tests of the connection handler, in order; a failed sync emits nothing. */
  function Emitted(seen: Option<Peer>, read: Option<Record>, outcome: Outcome): seq<Event> {
    if outcome.Refused? || outcome.Broke? then []
    else
      var report := ReportOf(seen, read);
      match report.updated
      case Some(Changed(_, previous, updates)) =>
        (if Truthy(Get(previous, IsConnected)) then [Disconnected] else []) +
        (if Truthy(Get(updates, IsConnected)) then [Reconnected] else []) +
        (if report.created then [NewPeer] else [])
      case _ => []
  }

  /** The event handler around an attempt: a refused or failed attempt asks to be retried. */
  class Handler {
    var emitted: seq<Event>

    constructor ()
      ensures emitted == []
    {
      emitted := [];
    }

    method FinishAttempt(attempt: Attempt<Key, Option<Peer>>, table: Table<Key>, seen: Option<Peer>)
      returns (retry: bool)
      requires attempt.planner == Planned
      modifies this, table
      ensures var (stored, outcome) :=
                Write(Planned(seen, attempt.read), old(Lookup(table.records, attempt.key)), attempt.read);
              && Lookup(table.records, attempt.key) == stored
              && retry == (outcome.Refused? || outcome.Broke?)
              && emitted == old(emitted) + Emitted(seen, attempt.read, outcome)
    {
      var outcome := attempt.Finish(table, seen);
      retry := outcome.Refused? || outcome.Broke?;
      emitted := emitted + Emitted(seen, attempt.read, outcome);
    }
  }

  // ----- linearisation -----

  lemma PlannedIsDisciplined()
    ensures Disciplined(Planned)
  {
    forall seen: Option<Peer>, stored: Option<Record>
      ensures match Planned(seen, stored)
              case Create(record) => stored.None? && RevOf(record) == Plain(Num(0))
              case Update(changes) => stored.Some? && Rev in changes && changes[Rev] == Add(1)
              case _ => true
    {
      if stored.Some? && seen.Some? {
        assert Rev !in ChangedAttrs(View(stored.value), Updated(stored.value, seen.value));
      }
    }
  }

  predicate Connected(stored: Option<Record>) {
    stored.Some? && Get(stored.value, IsConnected) == CONNECTED
  }

  /** Records of this table hold a boolean presence, a feature list, and plain values elsewhere. */
  predicate Shaped(r: Record) {
    && (Get(r, IsConnected) == CONNECTED || Get(r, IsConnected) == DISCONNECTED)
    && Get(r, Features).Arr?
    && Get(r, IsInbound).Plain? && Get(r, IsSyncPeer).Plain? && Get(r, Socket).Plain?
  }

  /**
   * The record reflects the one input written: a missing peer only clears the presence; a listed one sets
   * every compared attribute, the features as a set and only when the list is not empty.
   */
  predicate Reflects(r: Record, seen: Option<Peer>, before: Option<Record>) {
    match seen
    case None =>
      && before.Some?
      && Get(r, IsConnected) == DISCONNECTED
      && (forall a :: a in COMPARED && a != IsConnected ==> Get(r, a) == Get(before.value, a))
    case Some(peer) =>
      match before
      case None => r == NewRecord(peer)
      case Some(b) =>
        && Same(Get(r, Features), UpdatedAttr(b, peer, Features))
        && (forall a :: a in COMPARED && a != Features ==> Get(r, a) == UpdatedAttr(b, peer, a))
  }

  lemma ViewsCompare(record: Record, peer: Peer)
    requires Shaped(record)
    ensures ViewOf(View(record), record) && Comparable(View(record), Updated(record, peer))
  {
  }

  function SyncedPeer(record: Record, peer: Peer): Record {
    Synced(record, View(record), Updated(record, peer))
  }

  lemma UpdateReachesPeer(record: Record, peer: Peer)
    requires Shaped(record)
    ensures var after := SyncedPeer(record, peer);
            && Get(after, Features).Arr?
            && Same(Get(after, Features), UpdatedAttr(record, peer, Features))
            && (forall a :: a in COMPARED && a != Features ==> Get(after, a) == UpdatedAttr(record, peer, a))
  {
    var updated := Updated(record, peer);
    ViewsCompare(record, peer);
    SyncReachesUpdated(record, View(record), updated);
    forall a | a in COMPARED
      ensures a in updated && updated[a] == UpdatedAttr(record, peer, a)
    {
    }
    assert Features in COMPARED;
  }

  lemma UpdatedPresence(record: Record, peer: Peer)
    ensures IsConnected in COMPARED && IsConnected in Updated(record, peer)
    ensures View(record)[IsConnected] == Get(record, IsConnected)
    ensures Updated(record, peer)[IsConnected] == CONNECTED
  {
  }

  /** The connection shows up in the report of an update exactly when it was missing before. */
  lemma UpdateReportsPresence(record: Record, peer: Peer)
    requires Shaped(record)
    ensures DiffOf(View(record), Updated(record, peer)).Ok?
    ensures var diff := DiffOf(View(record), Updated(record, peer)).value;
            diff.Changed? ==>
              if Get(record, IsConnected) == CONNECTED
              then Get(diff.updates, IsConnected) == NOTHING && Get(diff.previous, IsConnected) == NOTHING
              else Get(diff.updates, IsConnected) == CONNECTED && Get(diff.previous, IsConnected) == DISCONNECTED
  {
    var view, updated := View(record), Updated(record, peer);
    UpdatedPresence(record, peer);
    ViewsCompare(record, peer);
    SyncReachesUpdated(record, view, updated);
    assert Same(view[IsConnected], updated[IsConnected]) <==> Get(record, IsConnected) == CONNECTED;
  }

  lemma SequentialIsSynced(peer: Peer, record: Record)
    requires Shaped(record)
    ensures Sequential(Planned, Some(record), Some(peer)) == Some(SyncedPeer(record, peer))
  {
    UpdateReportsPresence(record, peer);
  }

  /** A listed peer: the record is synchronised to it, as one write or because nothing differs. */
  lemma ListedPeerIsSynced(peer: Peer, record: Record)
    requires Shaped(record)
    ensures Sequential(Planned, Some(record), Some(peer)) == Some(SyncedPeer(record, peer))
    ensures Shaped(SyncedPeer(record, peer)) && Get(SyncedPeer(record, peer), IsConnected) == CONNECTED
    ensures Reflects(SyncedPeer(record, peer), Some(peer), Some(record))
  {
    SequentialIsSynced(peer, record);
    UpdateReachesPeer(record, peer);
    ReflectingIsShaped(SyncedPeer(record, peer), peer, record);
  }

  lemma ReflectingIsShaped(after: Record, peer: Peer, record: Record)
    requires Get(after, Features).Arr?
    requires forall a :: a in COMPARED && a != Features ==> Get(after, a) == UpdatedAttr(record, peer, a)
    ensures Shaped(after) && Get(after, IsConnected) == CONNECTED
  {
    assert IsConnected in COMPARED && IsInbound in COMPARED && IsSyncPeer in COMPARED && Socket in COMPARED;
  }

  /** A missing peer: only the presence is cleared. */
  lemma MissingPeerIsCleared(record: Record)
    requires Shaped(record) && Get(record, IsConnected) == CONNECTED
    ensures var after := Sequential(Planned, Some(record), None);
            && after.Some? && Shaped(after.value) && Reflects(after.value, None, Some(record))
            && Get(after.value, IsConnected) == DISCONNECTED
  {
    var changes: Changes := map[Rev := Add(1), IsConnected := Set(DISCONNECTED)];
    assert Planned(None, Some(record)) == Update(changes);
    ClearingKeepsTheRest(record, changes);
    ClearedIsShaped(Apply(record, changes), record);
  }

  lemma ClearedIsShaped(after: Record, record: Record)
    requires Shaped(record) && Get(after, IsConnected) == DISCONNECTED
    requires forall a :: a != Rev && a != IsConnected ==> Get(after, a) == Get(record, a)
    ensures Shaped(after) && Reflects(after, None, Some(record))
  {
  }

  lemma ClearingKeepsTheRest(record: Record, changes: Changes)
    requires changes == map[Rev := Add(1), IsConnected := Set(DISCONNECTED)]
    ensures Get(Apply(record, changes), IsConnected) == DISCONNECTED
    ensures forall a :: a != Rev && a != IsConnected ==> Get(Apply(record, changes), a) == Get(record, a)
  {
  }

  lemma MissingPeerEmits(record: Record)
    requires Get(record, IsConnected) == CONNECTED
    ensures Emitted(None, Some(record), Wrote) == [Disconnected]
  {
  }

  /** One write leaves the record reflecting its input. */
  lemma WriteReflectsInput(seen: Option<Peer>, stored: Option<Record>)
    requires stored.Some? ==> Shaped(stored.value)
    requires Writing(Planned(seen, stored))
    ensures var after := Sequential(Planned, stored, seen);
            after.Some? && Shaped(after.value) && Reflects(after.value, seen, stored)
  {
    if stored.Some? {
      if seen.Some? {
        ListedPeerIsSynced(seen.value, stored.value);
      } else {
        MissingPeerIsCleared(stored.value);
      }
    }
  }

  /** The events a change of presence calls for; a new record is connected and calls for none. */
  ghost function PresenceEvents(before: Option<Record>, after: Option<Record>): seq<Event> {
    if before.None? || Connected(before) == Connected(after) then []
    else if Connected(after) then [Reconnected]
    else [Disconnected]
  }

  lemma ListedPeerEmits(peer: Peer, record: Record)
    requires Shaped(record) && Planned(Some(peer), Some(record)).Update?
    ensures Emitted(Some(peer), Some(record), Wrote) ==
            if Get(record, IsConnected) == CONNECTED then [] else [Reconnected]
  {
    UpdateReportsPresence(record, peer);
  }

  lemma ClearedPeerEmits(record: Record)
    requires Shaped(record) && Get(record, IsConnected) == CONNECTED
    ensures var after := Sequential(Planned, Some(record), None);
            && after.Some? && !Connected(after)
            && Emitted(None, Some(record), Wrote) == PresenceEvents(Some(record), after)
  {
    MissingPeerIsCleared(record);
    MissingPeerEmits(record);
  }

  /** One write emits exactly the change of presence it makes. */
  lemma WriteEmitsPresence(seen: Option<Peer>, stored: Option<Record>)
    requires stored.Some? ==> Shaped(stored.value)
    requires Writing(Planned(seen, stored))
    ensures var after := Sequential(Planned, stored, seen);
            && after.Some?
            && (Connected(after) <==> seen.Some?)
            && Emitted(seen, stored, Wrote) == PresenceEvents(stored, after)
  {
    match (stored, seen)
    case (Some(record), Some(peer)) =>
      ListedPeerIsSynced(peer, record);
      ListedPeerEmits(peer, record);
    case (Some(record), None) =>
      ClearedPeerEmits(record);
    case (None, _) =>
  }

  lemma {:induction false} StoredIsShaped(log: seq<Entry<Key, Option<Peer>>>, key: Key)
    requires Faithful(Planned, log)
    ensures var stored := Replay(Planned, log, key); stored.Some? ==> Shaped(stored.value)
  {
    PlannedIsDisciplined();
    if log != [] {
      var front, e := log[..|log| - 1], log[|log| - 1];
      FaithfulPrefix(Planned, log, |front|);
      StoredIsShaped(front, key);
      assert FaithfulAt(Planned, log, |front|);
      if e.key == key {
        RevisionCountsWrites(Planned, front, key);
        WriteBumps(Planned, e.input, Replay(Planned, front, key), e.read, Writes(front, key));
        WritingPlans(e.input, Replay(Planned, front, key), e.read);
        if e.outcome == Wrote {
          WriteSawCurrent(Planned, log, |front|);
          WriteReflectsInput(e.input, e.read);
        }
      }
    }
  }

  lemma WritingPlans(seen: Option<Peer>, current: Option<Record>, read: Option<Record>)
    ensures var outcome := Write(Planned(seen, read), current, read).1;
            && (outcome == Wrote ==> Writing(Planned(seen, read)))
            && (outcome != Wrote ==> Emitted(seen, read, outcome) == [])
  {
  }

  lemma AfterWrite(log: seq<Entry<Key, Option<Peer>>>, i: nat)
    requires Faithful(Planned, log) && i < |log| && log[i].outcome == Wrote
    ensures var e := log[i];
            var after := History(Planned, log[..i + 1], e.key);
            after.Some? && Reflects(after.value, e.input, History(Planned, log[..i], e.key))
  {
    PlannedIsDisciplined();
    EntryEffect(Planned, log, i);
    FaithfulPrefix(Planned, log, i);
    StoredIsShaped(log[..i], log[i].key);
    WriteReflectsInput(log[i].input, log[i].read);
  }

  /**
   * In every run each stored record is the fold of the written inputs of its key in commit order, and after
   * each write the record reflects that one input on top of the record before it.
   */
  lemma RecordsAreSequential(steps: seq<Step<Key, Option<Peer>>>)
    ensures var w := Run(Planned, steps);
            && (forall key :: Lookup(w.table, key) == History(Planned, w.log, key))
            && (forall i :: 0 <= i < |w.log| && w.log[i].outcome == Wrote ==>
                  var e := w.log[i];
                  var after := History(Planned, w.log[..i + 1], e.key);
                  after.Some? && Reflects(after.value, e.input, History(Planned, w.log[..i], e.key)))
  {
    PlannedIsDisciplined();
    Linearisation(Planned, steps);
    RunIsFaithful(Planned, steps);
    var log := Run(Planned, steps).log;
    forall i | 0 <= i < |log| && log[i].outcome == Wrote
      ensures var e := log[i];
              var after := History(Planned, log[..i + 1], e.key);
              after.Some? && Reflects(after.value, e.input, History(Planned, log[..i], e.key))
    {
      AfterWrite(log, i);
    }
  }

  // ----- what a write stores, stated on the peer -----

  predicate IsBitOf(x: Atom, features: seq<nat>) {
    exists i :: 0 <= i < |features| && x == Num(features[i])
  }

  /** The stored features are exactly the bits of the peer. */
  ghost predicate HasBits(r: Record, features: seq<nat>) {
    Get(r, Features).Arr? && forall x :: x in Get(r, Features).items <==> IsBitOf(x, features)
  }

  /** The attributes that are taken from a listed peer in any case. */
  predicate Takes(r: Record, peer: Peer) {
    && Get(r, IsConnected) == Plain(Bool(true))
    && Get(r, IsInbound) == Plain(Bool(peer.isInbound))
    && Get(r, IsSyncPeer) == (if peer.isSyncPeer.Some? then Plain(Bool(peer.isSyncPeer.value)) else Plain(Undefined))
    && Get(r, Socket) == Plain(Str(peer.socket))
  }

  lemma BitsAre(features: seq<nat>)
    ensures Bits(features).Arr? && |Bits(features).items| == |features|
    ensures forall i :: 0 <= i < |features| ==> Bits(features).items[i] == Num(features[i])
    ensures forall x :: x in Bits(features).items <==> IsBitOf(x, features)
  {
  }

  lemma CreatedPeer(peer: Peer)
    ensures var after := Sequential(Planned, None, Some(peer));
            && after.Some? && Takes(after.value, peer) && HasBits(after.value, peer.features)
            && Get(after.value, Rev) == Plain(Num(0))
            && |Get(after.value, Features).items| == |peer.features|
            && forall i :: 0 <= i < |peer.features| ==> Get(after.value, Features).items[i] == Num(peer.features[i])
  {
    BitsAre(peer.features);
  }

  /** A listed peer: its features replace the stored ones, unless it lists none, in which case they stay. */
  lemma UpdatedPeer(peer: Peer, record: Record)
    requires Shaped(record)
    ensures var after := Sequential(Planned, Some(record), Some(peer));
            && after.Some? && Takes(after.value, peer)
            && (peer.features != [] ==> HasBits(after.value, peer.features))
            && (peer.features == [] ==> Get(after.value, Features) == Get(record, Features))
  {
    SequentialIsSynced(peer, record);
    UpdateReachesPeer(record, peer);
    TakesIff(SyncedPeer(record, peer), peer, record);
    FeaturesOfSynced(peer, record);
  }

  lemma TakesIff(r: Record, peer: Peer, before: Record)
    ensures Takes(r, peer) <==> forall a :: a in COMPARED && a != Features ==> Get(r, a) == UpdatedAttr(before, peer, a)
  {
    assert COMPARED == {Features, IsConnected, IsInbound, IsSyncPeer, Socket};
    assert IsConnected in COMPARED && IsInbound in COMPARED && IsSyncPeer in COMPARED && Socket in COMPARED;
  }

  lemma FeaturesOfSynced(peer: Peer, record: Record)
    requires Shaped(record)
    ensures var after := SyncedPeer(record, peer);
            && (peer.features != [] ==> HasBits(after, peer.features))
            && (peer.features == [] ==> Get(after, Features) == Get(record, Features))
  {
    var view, updated := View(record), Updated(record, peer);
    ViewsCompare(record, peer);
    assert Features in COMPARED && Features in updated && updated[Features] == UpdatedAttr(record, peer, Features);
    SyncStoresElements(record, view, updated, Features);
    if peer.features != [] {
      BitsAre(peer.features);
    } else {
      SyncReachesUpdated(record, view, updated);
      ReportedIff(view, updated, Features);
      KeptWhenSame(record, view, updated, Features);
    }
  }

  lemma KeptWhenSame(stored: Record, view: Record, updated: Record, a: Attr)
    requires DiffOf(view, updated).Ok? && !Reports(DiffOf(view, updated).value, a) && a != Rev
    ensures Get(Synced(stored, view, updated), a) == Get(stored, a)
  {
    if DiffOf(view, updated).value.Changed? {
      ReportHolds(view, updated);
      ApplyMeans(stored, DiffOf(view, updated).value.changes, a);
    }
  }

  /**
   * A sync creates exactly a listed peer that is not stored. It writes to a stored one exactly when the peer is
   * missing and stored as connected, or is listed and differs. It never fails to plan.
   */
  lemma PeerWritesIff(seen: Option<Peer>, stored: Option<Record>)
    requires stored.Some? ==> Shaped(stored.value)
    ensures !Planned(seen, stored).Failed?
    ensures Planned(seen, stored).Create? <==> seen.Some? && stored.None?
    ensures Planned(seen, stored).Update? <==>
            && stored.Some?
            && if seen.None? then Get(stored.value, IsConnected) == Plain(Bool(true))
               else !(Takes(stored.value, seen.value) &&
                      (seen.value.features == [] || HasBits(stored.value, seen.value.features)))
  {
    if seen.Some? && stored.Some? {
      ListedPeerWritesIff(seen.value, stored.value);
    }
  }

  lemma ListedPeerWritesIff(peer: Peer, record: Record)
    requires Shaped(record)
    ensures DiffOf(View(record), Updated(record, peer)).Ok?
    ensures DiffOf(View(record), Updated(record, peer)).value.Unchanged? <==>
            Takes(record, peer) && (peer.features == [] || HasBits(record, peer.features))
  {
    var view, updated := View(record), Updated(record, peer);
    ViewsCompare(record, peer);
    ComparisonHolds(view, updated);
    TakesIff(record, peer, record);
    FeaturesChangeIff(peer, record);
    forall a | a in COMPARED && a != Features
      ensures a in ChangedAttrs(view, updated) <==> Get(record, a) != UpdatedAttr(record, peer, a)
    {
      PlainChangesIff(peer, record, a);
    }
    OnlyComparedChange(peer, record);
    assert Features in COMPARED;
  }

  lemma OnlyComparedChange(peer: Peer, record: Record)
    ensures ChangedAttrs(View(record), Updated(record, peer)) <= COMPARED
  {
  }

  lemma PlainChangesIff(peer: Peer, record: Record, a: Attr)
    requires Shaped(record) && a in COMPARED && a != Features
    ensures a in ChangedAttrs(View(record), Updated(record, peer)) <==> Get(record, a) != UpdatedAttr(record, peer, a)
  {
  }

  lemma FeaturesChangeIff(peer: Peer, record: Record)
    requires Shaped(record)
    ensures Features in ChangedAttrs(View(record), Updated(record, peer)) <==>
            !(peer.features == [] || HasBits(record, peer.features))
  {
    assert Features in COMPARED;
    BitsAre(peer.features);
    var x := Get(record, Features).items;
    var y := UpdatedAttr(record, peer, Features).items;
    assert View(record)[Features] == Arr(x) && Updated(record, peer)[Features] == Arr(y);
    ListsDifferIff(x, y);
  }

  // ----- presence events -----

  /** The events emitted for one key, in commit order. */
  ghost function Events(log: seq<Entry<Key, Option<Peer>>>, key: Key): seq<Event> {
    if log == [] then []
    else
      var e := log[|log| - 1];
      Events(log[..|log| - 1], key) + if e.key == key then Emitted(e.input, e.read, e.outcome) else []
  }

  ghost predicate Alternates(events: seq<Event>) {
    forall j :: 0 <= j < |events| ==> events[j] == if j % 2 == 0 then Disconnected else Reconnected
  }

  /** The events so far alternate, and their parity is the stored presence. */
  ghost predicate Tracks(events: seq<Event>, stored: Option<Record>) {
    && Alternates(events)
    && (stored.None? ==> events == [])
    && (stored.Some? ==> (Connected(stored) <==> |events| % 2 == 0))
  }

  lemma {:induction false} EventsTrackPresence(log: seq<Entry<Key, Option<Peer>>>, key: Key)
    requires Faithful(Planned, log)
    ensures Tracks(Events(log, key), Replay(Planned, log, key))
  {
    PlannedIsDisciplined();
    if log != [] {
      var front, e := log[..|log| - 1], log[|log| - 1];
      FaithfulPrefix(Planned, log, |front|);
      EventsTrackPresence(front, key);
      assert FaithfulAt(Planned, log, |front|);
      if e.key == key {
        var before := Replay(Planned, front, key);
        WritingPlans(e.input, before, e.read);
        RevisionCountsWrites(Planned, front, key);
        WriteBumps(Planned, e.input, before, e.read, Writes(front, key));
        if e.outcome == Wrote {
          WriteSawCurrent(Planned, log, |front|);
          StoredIsShaped(front, key);
          WriteKeepsTrack(e.input, before, Events(front, key));
        }
      }
    }
  }

  lemma PresenceEventsKeepTrack(events: seq<Event>, before: Option<Record>, after: Option<Record>)
    requires Tracks(events, before) && after.Some? && (before.None? ==> Connected(after))
    ensures Tracks(events + PresenceEvents(before, after), after)
  {
  }

  lemma WriteKeepsTrack(seen: Option<Peer>, stored: Option<Record>, events: seq<Event>)
    requires stored.Some? ==> Shaped(stored.value)
    requires Writing(Planned(seen, stored)) && Tracks(events, stored)
    ensures Tracks(events + Emitted(seen, stored, Wrote), Sequential(Planned, stored, seen))
  {
    WriteEmitsPresence(seen, stored);
    assert stored.None? ==> seen.Some?;
    PresenceEventsKeepTrack(events, stored, Sequential(Planned, stored, seen));
  }

  /**
   * In every run, for any peer lists and any interleaving, the events of one peer alternate in commit order
   * starting with `disconnected`; the peer is stored as connected exactly when their number is even.
   */
  lemma PresenceAlternates(steps: seq<Step<Key, Option<Peer>>>, key: Key)
    ensures var w := Run(Planned, steps);
            && Alternates(Events(w.log, key))
            && (key !in w.table ==> Events(w.log, key) == [])
            && (key in w.table ==> (Connected(Some(w.table[key])) <==> |Events(w.log, key)| % 2 == 0))
  {
    RunIsFaithful(Planned, steps);
    var w := Run(Planned, steps);
    assert Lookup(w.table, key) == Replay(Planned, w.log, key);
    EventsTrackPresence(w.log, key);
  }

  /** A report tells of a creation exactly when a listed peer was not stored, and of any update that is planned. */
  lemma ReportSays(seen: Option<Peer>, read: Option<Record>)
    ensures var report, plan := ReportOf(seen, read), Planned(seen, read);
            && (report.created <==> seen.Some? && read.None?)
            && (report.created <==> plan.Create?)
            && (report.updated.Some? <==> plan.Update?)
            && (plan.Update? ==> report.updated.value.Changed? && report.updated.value.changes == plan.changes)
  {
  }

  /** `new_peer` asks for a creation and an update in one report, which no sync gives. */
  lemma NewPeerIsNeverEmitted(seen: Option<Peer>, read: Option<Record>, outcome: Outcome)
    ensures NewPeer !in Emitted(seen, read, outcome)
  {
    var report := ReportOf(seen, read);
    assert !(report.created && report.updated.Some?);
  }
}
