/** Payment HTLC records and the events their writes emit. */
module PaymentHtlc {
  import opened Wrappers
  import opened ChangesToRecord
  import opened GuardedSync

  datatype Args = Args(
    at: string,
    isConfirmed: bool,
    isFailed: bool,
    mtokens: Option<string>,
    outChannel: string,
    outPayment: nat,
    publicKey: string,
    timeout: Option<nat>)

  /** The record key hashes these three; the hash is taken to be injective. */
  datatype Key = Key(publicKey: string, outChannel: string, outPayment: nat)

  datatype Event =
    | AttemptingPayment(outChannel: string, mtokens: Value, publicKey: string)
    | AttemptPaymentSent(outChannel: string, mtokens: Value, publicKey: string)
    | AttemptPaymentFailed(outChannel: string, mtokens: Value, publicKey: string)

  /** JavaScript `v || w`. */
  function Or(v: Value, w: Value): Value {
    if Truthy(v) then v else w
  }

  function NewRecord(args: Args): Record {
    map[
      Rev := Plain(Num(0)),
      IsConfirmed := Plain(Bool(args.isConfirmed)),
      IsFailed := Plain(Bool(args.isFailed)),
      Mtokens := OptStr(args.mtokens),
      OutChannel := Plain(Str(args.outChannel)),
      OutPayment := Plain(Num(args.outPayment)),
      PublicKey := Plain(Str(args.publicKey)),
      Timeout := OptNum(args.timeout),
      UpdatedAt := Plain(Str(args.at))]
  }

  /** The attributes an update compares. */
  const COMPARED: set<Attr> := {IsConfirmed, IsFailed, Mtokens, OutChannel, OutPayment, Timeout, UpdatedAt}

  function View(record: Record): Record {
    map a | a in COMPARED :: Get(record, a)
  }

  /** The millitokens and the timeout are sticky: an absent or empty new value keeps the stored one. */
  function UpdatedAttr(record: Record, args: Args, a: Attr): Value {
    match a
    case IsConfirmed => Plain(Bool(args.isConfirmed))
    case IsFailed => Plain(Bool(args.isFailed))
    case Mtokens => Or(OptStr(args.mtokens), Get(record, Mtokens))
    case OutChannel => Plain(Str(args.outChannel))
    case OutPayment => Plain(Num(args.outPayment))
    case Timeout => Or(OptNum(args.timeout), Get(record, Timeout))
    case UpdatedAt => Plain(Str(args.at))
    case _ => NOTHING
  }

  function Updated(record: Record, args: Args): Record {
    map a | a in COMPARED :: UpdatedAttr(record, args, a)
  }

  predicate ValidArgs(args: Args) {
    args.at != "" && args.publicKey != ""
  }

  function Planned(args: Args, stored: Option<Record>): Plan {
    if !ValidArgs(args) then Failed
    else match stored
      case None => Create(NewRecord(args))
      case Some(record) =>
        match DiffOf(View(record), Updated(record, args))
        case Err(_) => Failed
        case Ok(Unchanged) => Nothing
        case Ok(Changed(changes, _, _)) => Update(changes)
  }

  /** What the handler emits for a finished attempt that read `read`; a failed attempt emits nothing. */
  function Emitted(args: Args, read: Option<Record>, outcome: Outcome): Option<Event> {
    if outcome.Refused? || outcome.Broke? then None
    else match read
      case None =>
        if Truthy(OptStr(args.mtokens))
        then Some(AttemptingPayment(args.outChannel, OptStr(args.mtokens), args.publicKey))
        else None
      case Some(record) =>
        match DiffOf(View(record), Updated(record, args))
        case Ok(Changed(_, _, updates)) =>
          if Truthy(Get(updates, IsConfirmed))
          then Some(AttemptPaymentSent(args.outChannel, Get(record, Mtokens), args.publicKey))
          else if Truthy(Get(updates, IsFailed))
          then Some(AttemptPaymentFailed(args.outChannel, Get(record, Mtokens), args.publicKey))
          else None
        case _ => None
  }

  /** The event handler around an attempt: a refused or failed attempt asks to be retried. */
  class Handler {
    var emitted: seq<Event>

    constructor ()
      ensures emitted == []
    {
      emitted := [];
    }

    method FinishAttempt(attempt: Attempt<Key, Args>, table: Table<Key>, args: Args) returns (retry: bool)
      requires attempt.planner == Planned
      modifies this, table
      ensures var (stored, outcome) :=
                Write(Planned(args, attempt.read), old(Lookup(table.records, attempt.key)), attempt.read);
              && Lookup(table.records, attempt.key) == stored
              && retry == (outcome.Refused? || outcome.Broke?)
              && emitted == old(emitted) +
                   match Emitted(args, attempt.read, outcome)
                   case Some(event) => [event]
                   case None => []
    {
      var outcome := attempt.Finish(table, args);
      retry := outcome.Refused? || outcome.Broke?;
      var event := Emitted(args, attempt.read, outcome);
      if event.Some? {
        emitted := emitted + [event.value];
      }
    }
  }

  // ----- linearisation -----

  lemma PlannedIsDisciplined()
    ensures Disciplined(Planned)
  {
    forall args: Args, stored: Option<Record>
      ensures match Planned(args, stored)
              case Create(record) => stored.None? && RevOf(record) == Plain(Num(0))
              case Update(changes) => stored.Some? && Rev in changes && changes[Rev] == Add(1)
              case _ => true
    {
      if stored.Some? {
        assert Rev !in ChangedAttrs(View(stored.value), Updated(stored.value, args));
      }
    }
  }

  predicate Flag(r: Record, a: Attr) {
    Get(r, a) == Plain(Bool(true))
  }

  /** Records of this table hold plain values, and booleans in the two flags. */
  predicate Shaped(r: Record) {
    && Get(r, IsConfirmed).Plain? && Get(r, IsConfirmed).a.Bool?
    && Get(r, IsFailed).Plain? && Get(r, IsFailed).a.Bool?
    && Get(r, Mtokens).Plain? && Get(r, OutChannel).Plain? && Get(r, OutPayment).Plain?
    && Get(r, Timeout).Plain? && Get(r, UpdatedAt).Plain?
  }

  /** Every compared attribute of `r` is the one `args` gives; the sticky ones may fall back to `before`. */
  predicate Reflects(r: Record, args: Args, before: Option<Record>) {
    match before
    case None => r == NewRecord(args)
    case Some(b) => forall a :: a in COMPARED ==> Get(r, a) == UpdatedAttr(b, args, a)
  }

  lemma UpdateReachesArgs(record: Record, args: Args)
    requires Shaped(record)
    ensures var diff := DiffOf(View(record), Updated(record, args));
            && diff.Ok?
            && Reflects(Synced(record, View(record), Updated(record, args)), args, Some(record))
            && (diff.value.Changed? ==>
                  forall a :: a in COMPARED ==>
                    var v := UpdatedAttr(record, args, a);
                    Get(diff.value.updates, a) == if Get(record, a) != v then v else NOTHING)
            && (diff.value.Unchanged? ==> forall a :: a in COMPARED ==> Get(record, a) == UpdatedAttr(record, args, a))
  {
    var view, updated := View(record), Updated(record, args);
    forall a | a in COMPARED
      ensures Get(record, a).Plain? && UpdatedAttr(record, args, a).Plain?
    {
    }
    SyncReachesUpdated(record, view, updated);
    forall a | a in COMPARED
      ensures Get(Synced(record, view, updated), a) == UpdatedAttr(record, args, a)
    {
      assert a in updated;
    }
  }

  /** A write from a current read makes the whole record reflect its one input: no mix of two writers. */
  lemma WriteReflectsInput(args: Args, stored: Option<Record>)
    requires ValidArgs(args) && (stored.Some? ==> Shaped(stored.value))
    ensures var after := Sequential(Planned, stored, args);
            after.Some? && Shaped(after.value) && Reflects(after.value, args, stored)
  {
    if stored.Some? {
      UpdateReachesArgs(stored.value, args);
      var after := Sequential(Planned, stored, args);
      assert after == Some(Synced(stored.value, View(stored.value), Updated(stored.value, args)));
      ReflectingIsShaped(after.value, args, stored.value);
    }
  }

  lemma ReflectingIsShaped(r: Record, args: Args, before: Record)
    requires Shaped(before) && Reflects(r, args, Some(before))
    ensures Shaped(r)
  {
    assert {IsConfirmed, IsFailed, Mtokens, OutChannel, OutPayment, Timeout, UpdatedAt} == COMPARED;
    assert Get(r, IsConfirmed) == UpdatedAttr(before, args, IsConfirmed);
    assert Get(r, IsFailed) == UpdatedAttr(before, args, IsFailed);
  }

  lemma {:induction false} StoredIsShaped(log: seq<Entry<Key, Args>>, key: Key)
    requires Faithful(Planned, log)
    ensures var stored := Replay(Planned, log, key); stored.Some? ==> Shaped(stored.value)
  {
    PlannedIsDisciplined();
    if log != [] {
      var front, e := log[..|log| - 1], log[|log| - 1];
      FaithfulPrefix(Planned, log, |front|);
      StoredIsShaped(front, key);
      assert FaithfulAt(Planned, log, |front|);
      if e.key == key {
        RevisionCountsWrites(Planned, front, key);
        WriteBumps(Planned, e.input, Replay(Planned, front, key), e.read, Writes(front, key));
        if e.outcome == Wrote {
          WriteSawCurrent(Planned, log, |front|);
          WrittenArgsAreValid(e.input, e.read, e.read);
          WriteReflectsInput(e.input, e.read);
        }
      }
    }
  }

  lemma WrittenArgsAreValid(args: Args, current: Option<Record>, read: Option<Record>)
    requires Write(Planned(args, read), current, read).1 == Wrote
    ensures ValidArgs(args)
  {
  }

  lemma AfterWrite(log: seq<Entry<Key, Args>>, i: nat)
    requires Faithful(Planned, log) && i < |log| && log[i].outcome == Wrote
    ensures var e := log[i];
            var after := History(Planned, log[..i + 1], e.key);
            after.Some? && Reflects(after.value, e.input, History(Planned, log[..i], e.key))
  {
    PlannedIsDisciplined();
    EntryEffect(Planned, log, i);
    FaithfulPrefix(Planned, log, i);
    StoredIsShaped(log[..i], log[i].key);
    WrittenArgsAreValid(log[i].input, log[i].read, log[i].read);
    WriteReflectsInput(log[i].input, log[i].read);
  }

  /**
   * In every run each stored record is the fold of the written inputs of its key in commit order, and after
   * each write the record reflects that one input on top of the record before it.
   */
  lemma RecordsAreSequential(steps: seq<Step<Key, Args>>)
    ensures var w := Run(Planned, steps);
            && (forall key :: Lookup(w.table, key) == History(Planned, w.log, key))
            && (forall i :: 0 <= i < |w.log| && w.log[i].outcome == Wrote ==>
                  var e := w.log[i];
                  var after := History(Planned, w.log[..i + 1], e.key);
                  after.Some? && Reflects(after.value, e.input, History(Planned, w.log[..i], e.key)))
  {
    PlannedIsDisciplined();
    Linearisation(Planned, steps);
    RunIsFaithful(Planned, steps);
    var log := Run(Planned, steps).log;
    forall i | 0 <= i < |log| && log[i].outcome == Wrote
      ensures var e := log[i];
              var after := History(Planned, log[..i + 1], e.key);
              after.Some? && Reflects(after.value, e.input, History(Planned, log[..i], e.key))
    {
      AfterWrite(log, i);
    }
  }

  // ----- what a write stores, stated on the arguments -----

  /** The attributes that are taken from the arguments in any case. */
  predicate Takes(r: Record, args: Args) {
    && Get(r, IsConfirmed) == Plain(Bool(args.isConfirmed))
    && Get(r, IsFailed) == Plain(Bool(args.isFailed))
    && Get(r, OutChannel) == Plain(Str(args.outChannel))
    && Get(r, OutPayment) == Plain(Num(args.outPayment))
    && Get(r, UpdatedAt) == Plain(Str(args.at))
  }

  /** Millitokens that are not empty and a timeout that is not zero are taken; a record keeps them otherwise. */
  predicate TakesOrKeeps(r: Record, args: Args, before: Record) {
    && Get(r, Mtokens) == (if args.mtokens.Some? && args.mtokens.value != "" then Plain(Str(args.mtokens.value))
                           else Get(before, Mtokens))
    && Get(r, Timeout) == (if args.timeout.Some? && args.timeout.value != 0 then Plain(Num(args.timeout.value))
                           else Get(before, Timeout))
  }

  /** What a sync creates. */
  lemma CreatedPayment(args: Args)
    requires args.at != "" && args.publicKey != ""
    ensures var after := Sequential(Planned, None, args);
            && after.Some? && Takes(after.value, args)
            && Get(after.value, Rev) == Plain(Num(0))
            && Get(after.value, PublicKey) == Plain(Str(args.publicKey))
            && Get(after.value, Mtokens) ==
                 (if args.mtokens.Some? then Plain(Str(args.mtokens.value)) else Plain(Undefined))
            && Get(after.value, Timeout) ==
                 (if args.timeout.Some? then Plain(Num(args.timeout.value)) else Plain(Undefined))
  {
  }

  /** What a sync makes of a stored record, whether it writes or finds nothing to change. */
  lemma UpdatedPayment(args: Args, record: Record)
    requires args.at != "" && args.publicKey != "" && Shaped(record)
    ensures var after := Sequential(Planned, Some(record), args);
            && after.Some? && Takes(after.value, args) && TakesOrKeeps(after.value, args, record)
            && Get(after.value, PublicKey) == Get(record, PublicKey)
  {
    WriteReflectsInput(args, Some(record));
    ReflectsMeans(Sequential(Planned, Some(record), args).value, args, record);
    UpdateReachesArgs(record, args);
    KeyStays(args, record);
  }

  lemma ReflectsMeans(r: Record, args: Args, before: Record)
    ensures Reflects(r, args, Some(before)) <==> Takes(r, args) && TakesOrKeeps(r, args, before)
  {
    assert COMPARED == {IsConfirmed, IsFailed, Mtokens, OutChannel, OutPayment, Timeout, UpdatedAt};
    assert IsConfirmed in COMPARED && IsFailed in COMPARED && OutChannel in COMPARED && OutPayment in COMPARED;
    assert UpdatedAt in COMPARED && Mtokens in COMPARED && Timeout in COMPARED;
  }

  lemma KeyStays(args: Args, record: Record)
    requires DiffOf(View(record), Updated(record, args)).Ok?
    ensures Get(Synced(record, View(record), Updated(record, args)), PublicKey) == Get(record, PublicKey)
  {
    UncomparedStays(record, View(record), Updated(record, args), PublicKey);
  }

  /** A sync fails exactly without a date or a key, creates what is absent, and writes exactly what differs. */
  lemma PaymentWritesIff(args: Args, stored: Option<Record>)
    requires stored.Some? ==> Shaped(stored.value)
    ensures Planned(args, stored).Failed? <==> args.at == "" || args.publicKey == ""
    ensures Planned(args, stored).Create? <==> args.at != "" && args.publicKey != "" && stored.None?
    ensures Planned(args, stored).Update? <==>
            && args.at != "" && args.publicKey != "" && stored.Some?
            && !(Takes(stored.value, args) && TakesOrKeeps(stored.value, args, stored.value))
  {
    if args.at != "" && args.publicKey != "" && stored.Some? {
      var record := stored.value;
      UpdateReachesArgs(record, args);
      ReflectsMeans(record, args, record);
      if Reflects(record, args, stored) {
        assert View(record) == Updated(record, args);
        SameRecordIsUnchanged(View(record));
      }
    }
  }

  // ----- emission -----

  /** The last non-empty millitokens among the written inputs of a key. */
  ghost function LastMtokens(log: seq<Entry<Key, Args>>, key: Key): Option<string> {
    if log == [] then None
    else
      var e := log[|log| - 1];
      if e.key == key && e.outcome == Wrote && Truthy(OptStr(e.input.mtokens)) then e.input.mtokens
      else LastMtokens(log[..|log| - 1], key)
  }

  lemma WrittenMtokens(args: Args, stored: Option<Record>)
    requires ValidArgs(args) && (stored.Some? ==> Shaped(stored.value))
    ensures var after := Sequential(Planned, stored, args);
            && after.Some?
            && Get(after.value, Mtokens) ==
               if stored.None? then OptStr(args.mtokens) else Or(OptStr(args.mtokens), Get(stored.value, Mtokens))
  {
    WriteReflectsInput(args, stored);
    assert Mtokens in COMPARED;
  }

  lemma {:induction false} StoredMtokens(log: seq<Entry<Key, Args>>, key: Key)
    requires Faithful(Planned, log)
    ensures var stored, last := Replay(Planned, log, key), LastMtokens(log, key);
            && (stored.None? ==> last.None?)
            && (stored.Some? && last.Some? ==> Get(stored.value, Mtokens) == Plain(Str(last.value)))
            && (stored.Some? && last.None? ==> !Truthy(Get(stored.value, Mtokens)))
  {
    PlannedIsDisciplined();
    if log != [] {
      var front, e := log[..|log| - 1], log[|log| - 1];
      FaithfulPrefix(Planned, log, |front|);
      StoredMtokens(front, key);
      assert FaithfulAt(Planned, log, |front|);
      if e.key == key {
        RevisionCountsWrites(Planned, front, key);
        WriteBumps(Planned, e.input, Replay(Planned, front, key), e.read, Writes(front, key));
        if e.outcome == Wrote {
          WriteSawCurrent(Planned, log, |front|);
          WrittenArgsAreValid(e.input, e.read, e.read);
          StoredIsShaped(front, key);
          WrittenMtokens(e.input, e.read);
        }
      }
    }
  }

  /** A flag goes from false to true between two records of a key. */
  predicate Rises(before: Option<Record>, after: Option<Record>, a: Attr) {
    before.Some? && after.Some? && !Flag(before.value, a) && Flag(after.value, a)
  }

  lemma UpdateReportsFlags(args: Args, record: Record)
    requires Shaped(record) && Planned(args, Some(record)).Update?
    ensures var updates := DiffOf(View(record), Updated(record, args)).value.updates;
            && (Truthy(Get(updates, IsConfirmed)) <==> args.isConfirmed && !Flag(record, IsConfirmed))
            && (Truthy(Get(updates, IsFailed)) <==> args.isFailed && !Flag(record, IsFailed))
  {
    UpdateReachesArgs(record, args);
    assert IsConfirmed in COMPARED && IsFailed in COMPARED;
  }

  lemma WrittenFlags(args: Args, stored: Option<Record>)
    requires ValidArgs(args) && (stored.Some? ==> Shaped(stored.value))
    ensures var after := Sequential(Planned, stored, args);
            && after.Some?
            && (Flag(after.value, IsConfirmed) <==> args.isConfirmed)
            && (Flag(after.value, IsFailed) <==> args.isFailed)
  {
    WriteReflectsInput(args, stored);
    assert IsConfirmed in COMPARED && IsFailed in COMPARED;
  }

  lemma WriteEmitsEdges(args: Args, stored: Option<Record>)
    requires stored.Some? ==> Shaped(stored.value)
    requires Writing(Planned(args, stored))
    ensures var after := Sequential(Planned, stored, args);
            var event := Emitted(args, stored, Wrote);
            && (event.Some? && event.value.AttemptPaymentSent? <==> Rises(stored, after, IsConfirmed))
            && (event.Some? && event.value.AttemptPaymentFailed? <==>
                  Rises(stored, after, IsFailed) && !Rises(stored, after, IsConfirmed))
            && (event.Some? && event.value.AttemptingPayment? <==>
                  stored.None? && after.Some? && Truthy(Get(after.value, Mtokens)))
  {
    WrittenFlags(args, stored);
    if stored.Some? {
      UpdateReportsFlags(args, stored.value);
    }
  }

  /**
   * Over any run, with any interleaving, conflicts and retries: `attempt_payment_sent` is emitted exactly at
   * the false-to-true edges of `is_confirmed` in the committed history of the key, `attempt_payment_failed`
   * exactly at those of `is_failed` that are not also confirmations, `attempting_payment` exactly at creations
   * with millitokens. The first two carry the last non-empty millitokens committed earlier.
   */
  lemma EmissionIsEdges(steps: seq<Step<Key, Args>>, i: nat)
    requires i < |Run(Planned, steps).log|
    ensures var log := Run(Planned, steps).log;
            var e := log[i];
            var before, after := History(Planned, log[..i], e.key), History(Planned, log[..i + 1], e.key);
            var event := Emitted(e.input, e.read, e.outcome);
            && (event.Some? && event.value.AttemptPaymentSent? <==> Rises(before, after, IsConfirmed))
            && (event.Some? && event.value.AttemptPaymentFailed? <==>
                  Rises(before, after, IsFailed) && !Rises(before, after, IsConfirmed))
            && (event.Some? && event.value.AttemptingPayment? <==>
                  before.None? && after.Some? && Truthy(Get(after.value, Mtokens)))
            && (event.Some? && !event.value.AttemptingPayment? ==>
                  match LastMtokens(log[..i], e.key)
                  case Some(m) => event.value.mtokens == Plain(Str(m))
                  case None => !Truthy(event.value.mtokens))
  {
    PlannedIsDisciplined();
    RunIsFaithful(Planned, steps);
    var log := Run(Planned, steps).log;
    var e := log[i];
    EntryEffect(Planned, log, i);
    FaithfulPrefix(Planned, log, i);
    StoredIsShaped(log[..i], e.key);
    StoredMtokens(log[..i], e.key);
    if e.outcome == Wrote {
      WriteEmitsEdges(e.input, e.read);
    } else {
      QuietWhenNotWritten(e.input, e.read, Replay(Planned, log[..i], e.key), e.outcome);
    }
  }

  /** An event names the channel and key of its arguments, and the millitokens given or those of the record read. */
  lemma EventNamesHtlc(args: Args, read: Option<Record>, outcome: Outcome)
    requires Emitted(args, read, outcome).Some?
    ensures var event := Emitted(args, read, outcome).value;
            && event.outChannel == args.outChannel && event.publicKey == args.publicKey
            && (event.AttemptingPayment? ==>
                  read.None? && args.mtokens.Some? && args.mtokens.value != "" &&
                  event.mtokens == Plain(Str(args.mtokens.value)))
            && (!event.AttemptingPayment? ==> read.Some? && event.mtokens == Get(read.value, Mtokens))
  {
  }

  lemma QuietWhenNotWritten(args: Args, read: Option<Record>, current: Option<Record>, outcome: Outcome)
    requires outcome == Write(Planned(args, read), current, read).1 && outcome != Wrote
    ensures Emitted(args, read, outcome) == None
  {
  }
}
