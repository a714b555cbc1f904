/**
 * The optimistic-concurrency protocol every table sync follows: read the stored record, plan a create or
 * a change set from it, then write under a guard (`fresh` for a create, `expect` on the revision for an
 * update). Many clients interleave; an attempt that is refused may simply be started again.
 */
module GuardedSync {
  import opened Wrappers
  import opened ChangesToRecord

  /** What an attempt decides to do once it holds the stored record and its input. */
  datatype Plan = Nothing | Failed | Create(record: Record) | Update(changes: Changes)

  type Planner<!I> = (I, Option<Record>) -> Plan

  /** Wrote: the write went through. Idle: nothing to write. Refused: the guard failed. Broke: no plan. */
  datatype Outcome = Wrote | Idle | Refused | Broke

  function RevOf(r: Record): Value {
    Get(r, Rev)
  }

  function Lookup<K, V>(m: map<K, V>, k: K): Option<V> {
    if k in m then Some(m[k]) else None
  }

  /** The guarded write of a plan made from `read`, against the record that is stored now. */
  function Write(plan: Plan, current: Option<Record>, read: Option<Record>): (Option<Record>, Outcome) {
    match plan
    case Nothing => (current, Idle)
    case Failed => (current, Broke)
    case Create(record) => if current.None? then (Some(record), Wrote) else (current, Refused)
    case Update(changes) =>
      if current.Some? && read.Some? && RevOf(current.value) == RevOf(read.value)
      then (Some(Apply(current.value, changes)), Wrote)
      else (current, Refused)
  }

  // ----- the database table and one sync attempt, as objects -----

  /** The assumed contract of the database: three atomic operations on a table. */
  class Table<K(==)> {
    var records: map<K, Record>

    constructor ()
      ensures records == map[]
    {
      records := map[];
    }

    method GetItem(key: K) returns (record: Option<Record>)
      ensures record == Lookup(records, key)
    {
      record := if key in records then Some(records[key]) else None;
    }

    method PutItem(key: K, record: Record) returns (ok: bool)
      modifies this
      ensures ok <==> key !in old(records)
      ensures records == if ok then old(records)[key := record] else old(records)
    {
      ok := key !in records;
      if ok {
        records := records[key := record];
      }
    }

    method UpdateItem(key: K, changes: Changes, revision: Value) returns (ok: bool)
      modifies this
      ensures ok <==> key in old(records) && RevOf(old(records)[key]) == revision
      ensures records == if ok then old(records)[key := Apply(old(records)[key], changes)] else old(records)
    {
      ok := key in records && RevOf(records[key]) == revision;
      if ok {
        records := records[key := Apply(records[key], changes)];
      }
    }
  }

  /** One attempt: `Load` and `Finish` are its two atomic steps, and anything may happen between them. */
  class Attempt<K(==), I> {
    const key: K
    const planner: Planner<I>
    var read: Option<Record>

    constructor (key: K, planner: Planner<I>)
      ensures this.key == key && this.planner == planner && read == None
    {
      this.key := key;
      this.planner := planner;
      read := None;
    }

    method Load(table: Table<K>)
      modifies this
      ensures read == Lookup(table.records, key)
    {
      read := table.GetItem(key);
    }

    method Finish(table: Table<K>, input: I) returns (outcome: Outcome)
      modifies table
      ensures (Lookup(table.records, key), outcome) ==
              Write(planner(input, read), old(Lookup(table.records, key)), read)
      ensures table.records ==
              match Write(planner(input, read), old(Lookup(table.records, key)), read).0
              case Some(stored) => old(table.records)[key := stored]
              case None => old(table.records)
    {
      var plan := planner(input, read);
      match plan
      case Nothing =>
        outcome := Idle;
      case Failed =>
        outcome := Broke;
      case Create(record) =>
        var ok := table.PutItem(key, record);
        outcome := if ok then Wrote else Refused;
      case Update(changes) =>
        if read.None? {
          outcome := Refused;
        } else {
          var ok := table.UpdateItem(key, changes, RevOf(read.value));
          outcome := if ok then Wrote else Refused;
        }
    }
  }

  // ----- many clients -----

  /** A finished attempt; `at` is how many attempts had finished when it read. */
  datatype Entry<K, I> = Entry(key: K, input: I, read: Option<Record>, at: nat, outcome: Outcome)

  /** A client that has read and not yet finished. */
  datatype Pending<K> = Pending(key: K, read: Option<Record>, at: nat)

  datatype World<!K, I> = World(table: map<K, Record>, clients: map<nat, Pending<K>>, log: seq<Entry<K, I>>)

  /** A client reads a key, finishes with the input it has by then, or gives up. */
  datatype Step<K, I> = Read(client: nat, key: K) | Finish(client: nat, input: I) | Abandon(client: nat)

  function Next<K, I>(planner: Planner<I>, w: World<K, I>, step: Step<K, I>): World<K, I> {
    match step
    case Read(c, key) =>
      w.(clients := w.clients[c := Pending(key, Lookup(w.table, key), |w.log|)])
    case Abandon(c) =>
      w.(clients := w.clients - {c})
    case Finish(c, input) =>
      if c !in w.clients then w
      else
        var p := w.clients[c];
        var (stored, outcome) := Write(planner(input, p.read), Lookup(w.table, p.key), p.read);
        World(if stored.Some? then w.table[p.key := stored.value] else w.table,
              w.clients - {c},
              w.log + [Entry(p.key, input, p.read, p.at, outcome)])
  }

  /** The world after any sequence of steps, starting from an empty table. */
  function Run<K, I>(planner: Planner<I>, steps: seq<Step<K, I>>): World<K, I> {
    if steps == [] then World(map[], map[], [])
    else Next(planner, Run(planner, steps[..|steps| - 1]), steps[|steps| - 1])
  }

  /** The record of a key after the finished attempts really had their effect. */
  ghost function Replay<K, I>(planner: Planner<I>, log: seq<Entry<K, I>>, key: K): Option<Record> {
    if log == [] then None
    else
      var before := Replay(planner, log[..|log| - 1], key);
      var e := log[|log| - 1];
      if e.key == key then Write(planner(e.input, e.read), before, e.read).0 else before
  }

  /** The update function applied by a client nobody interferes with. */
  function Sequential<I>(planner: Planner<I>, stored: Option<Record>, input: I): Option<Record> {
    Write(planner(input, stored), stored, stored).0
  }

  /** The fold of the update function over the inputs that were written, in commit order. */
  ghost function History<K, I>(planner: Planner<I>, log: seq<Entry<K, I>>, key: K): Option<Record> {
    if log == [] then None
    else
      var before := History(planner, log[..|log| - 1], key);
      var e := log[|log| - 1];
      if e.key == key && e.outcome == Wrote then Sequential(planner, before, e.input) else before
  }

  /** How many writes to the key the log holds. */
  ghost function Writes<K, I>(log: seq<Entry<K, I>>, key: K): nat {
    if log == [] then 0
    else
      Writes(log[..|log| - 1], key) +
      (if log[|log| - 1].key == key && log[|log| - 1].outcome == Wrote then 1 else 0)
  }

  /** Entry i read what was stored when it read, and ended as the guard in force at its turn decided. */
  ghost predicate FaithfulAt<K, I>(planner: Planner<I>, log: seq<Entry<K, I>>, i: nat)
    requires i < |log|
  {
    var e := log[i];
    && e.at <= i
    && e.read == Replay(planner, log[..e.at], e.key)
    && e.outcome == Write(planner(e.input, e.read), Replay(planner, log[..i], e.key), e.read).1
  }

  ghost predicate Faithful<K, I>(planner: Planner<I>, log: seq<Entry<K, I>>) {
    forall i :: 0 <= i < |log| ==> FaithfulAt(planner, log, i)
  }

  ghost predicate WorldInv<K(!new), I>(planner: Planner<I>, w: World<K, I>) {
    && (forall key :: Lookup(w.table, key) == Replay(planner, w.log, key))
    && (forall c :: c in w.clients ==>
          var p := w.clients[c];
          p.at <= |w.log| && p.read == Replay(planner, w.log[..p.at], p.key))
    && Faithful(planner, w.log)
  }

  /** In every run the table is the replay of the log, and the log is faithful. */
  lemma {:induction false} RunIsFaithful<K(!new), I(!new)>(planner: Planner<I>, steps: seq<Step<K, I>>)
    ensures WorldInv(planner, Run(planner, steps))
  {
    if steps != [] {
      RunIsFaithful(planner, steps[..|steps| - 1]);
      StepKeepsInv(planner, Run(planner, steps[..|steps| - 1]), steps[|steps| - 1]);
    }
  }

  lemma StepKeepsInv<K(!new), I(!new)>(planner: Planner<I>, w: World<K, I>, step: Step<K, I>)
    requires WorldInv(planner, w)
    ensures WorldInv(planner, Next(planner, w, step))
  {
    match step
    case Read(c, key) =>
      assert w.log[..|w.log|] == w.log;
    case Abandon(c) =>
    case Finish(c, input) =>
      if c in w.clients {
        var p := w.clients[c];
        var outcome := Write(planner(input, p.read), Lookup(w.table, p.key), p.read).1;
        var e := Entry(p.key, input, p.read, p.at, outcome);
        AppendKeepsFaithful(planner, w.log, e);
        AppendReplays(planner, w, e, Next(planner, w, step).table);
        forall n | 0 <= n <= |w.log|
          ensures (w.log + [e])[..n] == w.log[..n]
        {
        }
      }
  }

  lemma AppendKeepsFaithful<K(!new), I(!new)>(planner: Planner<I>, log: seq<Entry<K, I>>, e: Entry<K, I>)
    requires Faithful(planner, log) && e.at <= |log|
    requires e.read == Replay(planner, log[..e.at], e.key)
    requires e.outcome == Write(planner(e.input, e.read), Replay(planner, log, e.key), e.read).1
    ensures Faithful(planner, log + [e])
  {
    var log' := log + [e];
    assert log'[..|log|] == log;
    assert log'[..e.at] == log[..e.at];
    forall i | 0 <= i < |log'|
      ensures FaithfulAt(planner, log', i)
    {
      if i < |log| {
        assert FaithfulAt(planner, log, i);
        assert log'[..i] == log[..i] && log'[..log[i].at] == log[..log[i].at];
      }
    }
  }

  lemma AppendReplays<K(!new), I(!new)>(
    planner: Planner<I>, w: World<K, I>, e: Entry<K, I>, table: map<K, Record>)
    requires forall key :: Lookup(w.table, key) == Replay(planner, w.log, key)
    requires var stored := Write(planner(e.input, e.read), Lookup(w.table, e.key), e.read).0;
             table == if stored.Some? then w.table[e.key := stored.value] else w.table
    ensures forall key :: Lookup(table, key) == Replay(planner, w.log + [e], key)
  {
    var log' := w.log + [e];
    assert log'[..|log'| - 1] == w.log;
    var stored := Write(planner(e.input, e.read), Lookup(w.table, e.key), e.read).0;
    forall key
      ensures Lookup(table, key) == Replay(planner, log', key)
    {
      assert Lookup(w.table, key) == Replay(planner, w.log, key);
      if key == e.key && stored.None? {
        WriteKeepsPresent(planner(e.input, e.read), Lookup(w.table, key), e.read);
      }
    }
  }

  /** A write never removes a record, and one that does not go through changes nothing. */
  lemma WriteKeepsPresent(plan: Plan, current: Option<Record>, read: Option<Record>)
    ensures var (after, outcome) := Write(plan, current, read);
            && (after.None? ==> current.None?)
            && (outcome != Wrote ==> after == current)
  {
  }

  /** A create goes through exactly when nothing is stored, an update exactly when the revision read is stored. */
  lemma GuardDecides(plan: Plan, current: Option<Record>, read: Option<Record>)
    ensures var (after, outcome) := Write(plan, current, read);
            && (outcome == Wrote <==>
                  || (plan.Create? && current.None?)
                  || (plan.Update? && current.Some? && read.Some? && Get(current.value, Rev) == Get(read.value, Rev)))
            && (outcome == Refused <==> (plan.Create? || plan.Update?) && outcome != Wrote)
            && (outcome == Wrote && plan.Create? ==> after == Some(plan.record))
            && (outcome == Wrote && plan.Update? ==> after == Some(Apply(current.value, plan.changes)))
            && (outcome != Wrote ==> after == current)
            && (outcome == Broke <==> plan.Failed?) && (outcome == Idle <==> plan.Nothing?)
  {
  }

  // ----- linearisation -----

  /** A planner creates only what is absent, at revision 0, and updates only what is present, adding 1. */
  ghost predicate Disciplined<I(!new)>(planner: Planner<I>) {
    forall input: I, stored: Option<Record> ::
      match planner(input, stored)
      case Create(record) => stored.None? && RevOf(record) == Plain(Num(0))
      case Update(changes) => stored.Some? && Rev in changes && changes[Rev] == Add(1)
      case _ => true
  }

  /** A record that has been written n times is at revision n - 1; no record was written 0 times. */
  predicate CountedAs(stored: Option<Record>, n: nat) {
    match stored
    case None => n == 0
    case Some(r) => n > 0 && RevOf(r) == Plain(Num(n - 1))
  }

  lemma FaithfulPrefix<K(!new), I(!new)>(planner: Planner<I>, log: seq<Entry<K, I>>, n: nat)
    requires Faithful(planner, log) && n <= |log|
    ensures Faithful(planner, log[..n])
  {
    forall i | 0 <= i < n
      ensures FaithfulAt(planner, log[..n], i)
    {
      assert FaithfulAt(planner, log, i);
      assert log[..n][..log[i].at] == log[..log[i].at];
      assert log[..n][..i] == log[..i];
    }
  }

  /** A guarded write creates revision 0 or adds one to the revision; anything else changes nothing. */
  lemma WriteBumps<I(!new)>(
    planner: Planner<I>, input: I, current: Option<Record>, read: Option<Record>, n: nat)
    requires Disciplined(planner) && CountedAs(current, n)
    ensures var (after, outcome) := Write(planner(input, read), current, read);
            && CountedAs(after, if outcome == Wrote then n + 1 else n)
            && (outcome != Wrote ==> after == current)
  {
    match planner(input, read)
    case Update(changes) =>
    case Create(record) =>
    case Nothing =>
    case Failed =>
  }

  /** The stored revision counts the writes, so it grows by one with each of them. */
  lemma {:induction false} RevisionCountsWrites<K(!new), I(!new)>(
    planner: Planner<I>, log: seq<Entry<K, I>>, key: K)
    requires Disciplined(planner) && Faithful(planner, log)
    ensures CountedAs(Replay(planner, log, key), Writes(log, key))
  {
    if log != [] {
      var front, e := log[..|log| - 1], log[|log| - 1];
      FaithfulPrefix(planner, log, |front|);
      RevisionCountsWrites(planner, front, key);
      assert FaithfulAt(planner, log, |front|);
      if e.key == key {
        WriteBumps(planner, e.input, Replay(planner, front, key), e.read, Writes(front, key));
      }
    }
  }

  lemma {:induction false} WritesGrow<K(!new), I(!new)>(log: seq<Entry<K, I>>, key: K, a: nat, b: nat)
    requires a <= b <= |log|
    ensures Writes(log[..a], key) <= Writes(log[..b], key)
    ensures Writes(log[..a], key) == Writes(log[..b], key) ==>
      forall i :: a <= i < b && log[i].key == key ==> log[i].outcome != Wrote
  {
    if a < b {
      WritesGrow(log, key, a, b - 1);
      assert log[..b][..b - 1] == log[..b - 1];
    }
  }

  lemma {:induction false} NoWritesNoChange<K(!new), I(!new)>(
    planner: Planner<I>, log: seq<Entry<K, I>>, key: K, a: nat, b: nat)
    requires a <= b <= |log| && Faithful(planner, log)
    requires forall i :: a <= i < b && log[i].key == key ==> log[i].outcome != Wrote
    ensures Replay(planner, log[..a], key) == Replay(planner, log[..b], key)
  {
    if a < b {
      NoWritesNoChange(planner, log, key, a, b - 1);
      assert log[..b][..b - 1] == log[..b - 1];
      var e := log[b - 1];
      assert FaithfulAt(planner, log, b - 1);
      if e.key == key {
        WriteKeepsPresent(planner(e.input, e.read), Replay(planner, log[..b - 1], key), e.read);
      }
    }
  }

  /** Two moments with the same revision of a key have the same record. */
  lemma RevisionDeterminesRecord<K(!new), I(!new)>(
    planner: Planner<I>, log: seq<Entry<K, I>>, key: K, a: nat, b: nat)
    requires Disciplined(planner) && Faithful(planner, log) && a <= b <= |log|
    requires Replay(planner, log[..a], key).Some? && Replay(planner, log[..b], key).Some?
    ensures var r, s := Replay(planner, log[..a], key).value, Replay(planner, log[..b], key).value;
            && RevOf(r) == Plain(Num(Writes(log[..a], key) - 1))
            && RevOf(s) == Plain(Num(Writes(log[..b], key) - 1))
            && Writes(log[..a], key) <= Writes(log[..b], key)
            && (RevOf(r) == RevOf(s) ==> r == s)
  {
    FaithfulPrefix(planner, log, a);
    FaithfulPrefix(planner, log, b);
    RevisionCountsWrites(planner, log[..a], key);
    RevisionCountsWrites(planner, log[..b], key);
    WritesGrow(log, key, a, b);
    if Writes(log[..a], key) == Writes(log[..b], key) {
      NoWritesNoChange(planner, log, key, a, b);
    }
  }

  /** A write lands on exactly the record its plan was made from. */
  lemma WriteSawCurrent<K(!new), I(!new)>(planner: Planner<I>, log: seq<Entry<K, I>>, i: nat)
    requires Disciplined(planner) && Faithful(planner, log) && i < |log| && log[i].outcome == Wrote
    ensures log[i].read == Replay(planner, log[..i], log[i].key)
  {
    var e := log[i];
    assert FaithfulAt(planner, log, i);
    match planner(e.input, e.read)
    case Update(changes) =>
      RevisionDeterminesRecord(planner, log, e.key, e.at, i);
    case Create(record) =>
    case Nothing =>
    case Failed =>
  }

  /** The real effect of a log is the sequential fold of the update function in commit order. */
  lemma {:induction false} ReplayIsHistory<K(!new), I(!new)>(
    planner: Planner<I>, log: seq<Entry<K, I>>, key: K)
    requires Disciplined(planner) && Faithful(planner, log)
    ensures Replay(planner, log, key) == History(planner, log, key)
  {
    if log != [] {
      FaithfulPrefix(planner, log, |log| - 1);
      var front, e := log[..|log| - 1], log[|log| - 1];
      ReplayIsHistory(planner, front, key);
      assert FaithfulAt(planner, log, |front|);
      if e.key == key {
        RevisionCountsWrites(planner, front, key);
        WriteBumps(planner, e.input, Replay(planner, front, key), e.read, Writes(front, key));
        if e.outcome == Wrote {
          WriteSawCurrent(planner, log, |log| - 1);
        }
      }
    }
  }

  predicate Writing(plan: Plan) {
    plan.Create? || plan.Update?
  }

  /** Around one entry: what was stored before, what it read, what its plan was and what is stored after. */
  lemma EntryEffect<K(!new), I(!new)>(planner: Planner<I>, log: seq<Entry<K, I>>, i: nat)
    requires Disciplined(planner) && Faithful(planner, log) && i < |log|
    ensures var e := log[i];
            var before := Replay(planner, log[..i], e.key);
            && before == History(planner, log[..i], e.key)
            && History(planner, log[..i + 1], e.key) ==
               (if e.outcome == Wrote then Sequential(planner, before, e.input) else before)
            && e.outcome == Write(planner(e.input, e.read), before, e.read).1
            && (e.outcome == Wrote ==> e.read == before && Writing(planner(e.input, e.read)))
  {
    assert log[..i + 1][..i] == log[..i];
    assert FaithfulAt(planner, log, i);
    FaithfulPrefix(planner, log, i);
    ReplayIsHistory(planner, log[..i], log[i].key);
    if log[i].outcome == Wrote {
      WriteSawCurrent(planner, log, i);
    }
  }

  /**
   * Linearisation, for any planner that keeps the discipline and any interleaving of readers, writers,
   * refusals and retries: each stored record is the fold of the written inputs in commit order; every
   * attempt, written or not, read the fold of some prefix; and a written one read the fold right before it.
   */
  lemma Linearisation<K(!new), I(!new)>(planner: Planner<I>, steps: seq<Step<K, I>>)
    requires Disciplined(planner)
    ensures var w := Run(planner, steps);
            && (forall key :: Lookup(w.table, key) == History(planner, w.log, key))
            && (forall i :: 0 <= i < |w.log| ==>
                  var e := w.log[i];
                  && e.at <= i
                  && e.read == History(planner, w.log[..e.at], e.key)
                  && (e.outcome == Wrote ==> e.read == History(planner, w.log[..i], e.key)))
  {
    RunIsFaithful(planner, steps);
    var w := Run(planner, steps);
    forall key
      ensures Lookup(w.table, key) == History(planner, w.log, key)
    {
      ReplayIsHistory(planner, w.log, key);
    }
    forall i | 0 <= i < |w.log|
      ensures var e := w.log[i];
              && e.at <= i
              && e.read == History(planner, w.log[..e.at], e.key)
              && (e.outcome == Wrote ==> e.read == History(planner, w.log[..i], e.key))
    {
      var e := w.log[i];
      assert FaithfulAt(planner, w.log, i);
      FaithfulPrefix(planner, w.log, e.at);
      ReplayIsHistory(planner, w.log[..e.at], e.key);
      FaithfulPrefix(planner, w.log, i);
      ReplayIsHistory(planner, w.log[..i], e.key);
      if e.outcome == Wrote {
        WriteSawCurrent(planner, w.log, i);
      }
    }
  }
}
