/** The change set derived between a stored record and its updated attributes. */
module ChangesToRecord {
  import opened Wrappers
  import Sequences

  /** The attribute names of every table that is synchronised. */
  datatype Attr =
    | Rev
    | IsConfirmed | IsFailed | Mtokens | OutChannel | OutPayment | PublicKey | Timeout | UpdatedAt
    | Features | From | IsConnected | IsInbound | IsSyncPeer | Socket
    | BaseFeeMtokens | CltvDelta | FeeRate | Id | IsDisabled | MaxHtlcMtokens | MinHtlcMtokens
    | Capacity | PublicKeys | TransactionId | TransactionVout | CloseHeight

  /** A primitive value. Buffers are represented by their hex string. */
  datatype Atom = Undefined | Bool(b: bool) | Num(n: int) | Str(s: string) {
    predicate Truthy() {
      match this
      case Undefined => false
      case Bool(b) => b
      case Num(n) => n != 0
      case Str(s) => s != ""
    }
  }

  datatype Value = Plain(a: Atom) | Arr(items: seq<Atom>)

  type Record = map<Attr, Value>

  /** One attribute write, as the database applies it. */
  datatype Op = Add(amount: int) | Set(v: Value)

  type Changes = map<Attr, Op>

  datatype Diff =
    | Unchanged
    | Changed(changes: Changes, previous: Record, updates: Record)

  datatype Error = NotIterable

  const NOTHING := Plain(Undefined)

  // Values that may be absent.

  function OptStr(s: Option<string>): Value {
    if s.Some? then Plain(Str(s.value)) else NOTHING
  }

  function OptNum(n: Option<nat>): Value {
    if n.Some? then Plain(Num(n.value)) else NOTHING
  }

  function OptBool(b: Option<bool>): Value {
    if b.Some? then Plain(Bool(b.value)) else NOTHING
  }

  /** Reading an attribute that is absent gives undefined. */
  function Get(r: Record, a: Attr): Value {
    if a in r then r[a] else NOTHING
  }

  predicate Truthy(v: Value) {
    v.Arr? || v.a.Truthy()
  }

  function AtomsOf(items: seq<Atom>): (r: set<Atom>)
    ensures forall x :: x in r <==> x in items
  {
    set x | x in items
  }

  predicate IsCharOf(e: Atom, text: string) {
    e.Str? && |e.s| == 1 && e.s[0] in text
  }

  function CharsOf(text: string): (r: set<Atom>)
    ensures forall e :: e in r <==> IsCharOf(e, text)
  {
    if text == "" then {}
    else
      assert text == [text[0]] + text[1..];
      assert forall e: Atom :: e == Str([text[0]]) <==> e.Str? && |e.s| == 1 && e.s[0] == text[0];
      CharsOf(text[1..]) + {Str([text[0]])}
  }

  /** The elements `new Set(v || [])` holds; None when the constructor throws. */
  function Elements(v: Value): Option<set<Atom>> {
    match v
    case Arr(items) => Some(AtomsOf(items))
    case Plain(a) =>
      if !a.Truthy() then Some({})
      else if a.Str? then Some(CharsOf(a.s))
      else None
  }

  /** Whether two attribute values count as different; None when the comparison throws. */
  function Differs(x: Value, y: Value): Option<bool> {
    if x.Arr? || y.Arr? then
      match (Elements(x), Elements(y))
      case (Some(s), Some(t)) => Some(s != t)
      case _ => None
    else
      Some(x != y)
  }

  predicate Same(x: Value, y: Value) {
    Differs(x, y) == Some(false)
  }

  /** Which attributes differ, over the attributes of both sides. */
  function ChangedAttrs(record: Record, updated: Record): set<Attr> {
    set a | a in record.Keys + updated.Keys && Differs(Get(record, a), Get(updated, a)) == Some(true)
  }

  predicate Throws(record: Record, updated: Record) {
    exists a :: a in record.Keys + updated.Keys && Differs(Get(record, a), Get(updated, a)) == None
  }

  function DiffOf(record: Record, updated: Record): Result<Diff, Error> {
    if Throws(record, updated) then Err(NotIterable)
    else
      var changed := ChangedAttrs(record, updated);
      if changed == {} then Ok(Unchanged)
      else Ok(Changed(
        map[Rev := Add(1)] + (map a | a in changed :: Set(Get(updated, a))),
        map a | a in changed :: Get(record, a),
        map a | a in changed :: Get(updated, a)))
  }

  /** How the database applies a change set to a stored record. */
  function ApplyOp(v: Value, op: Op): Value {
    match op
    case Set(w) => w
    case Add(amount) => Plain(Num(if v.Plain? && v.a.Num? then v.a.n + amount else amount))
  }

  function Apply(record: Record, changes: Changes): Record {
    map a | a in record.Keys + changes.Keys ::
      if a in changes then ApplyOp(Get(record, a), changes[a]) else record[a]
  }

  // ----- the algorithm -----

  /** The attributes kept by the filter, which stops at the first comparison that throws. */
  function FilterChanged(attrs: seq<Attr>, record: Record, updated: Record): (r: Result<seq<Attr>, Error>)
    ensures r.Err? <==> exists a :: a in attrs && Differs(Get(record, a), Get(updated, a)) == None
    ensures r.Ok? ==> forall a :: a in r.value <==>
      a in attrs && Differs(Get(record, a), Get(updated, a)) == Some(true)
  {
    if attrs == [] then Ok([])
    else
      assert forall a :: a in attrs <==> a == attrs[0] || a in attrs[1..];
      match Differs(Get(record, attrs[0]), Get(updated, attrs[0]))
      case None => Err(NotIterable)
      case Some(differs) =>
        match FilterChanged(attrs[1..], record, updated)
        case Err(e) => Err(e)
        case Ok(rest) => Ok(if differs then [attrs[0]] + rest else rest)
  }

  /** The fold that fills `changes`, starting from the revision increment. */
  method CollectChanges(changed: seq<Attr>, updated: Record) returns (changes: Changes)
    ensures forall a :: a in changes <==> a == Rev || a in changed
    ensures forall a :: a in changed ==> changes[a] == Set(Get(updated, a))
    ensures Rev !in changed ==> changes[Rev] == Add(1)
  {
    changes := map[Rev := Add(1)];
    for i := 0 to |changed|
      invariant forall a :: a in changes <==> a == Rev || a in changed[..i]
      invariant forall a :: a in changed[..i] ==> changes[a] == Set(Get(updated, a))
      invariant Rev !in changed[..i] ==> changes[Rev] == Add(1)
    {
      changes := changes[changed[i] := Set(Get(updated, changed[i]))];
    }
  }

  /** The fold that fills `previous` from the record, and `updates` from the updated attributes. */
  method CollectValues(changed: seq<Attr>, source: Record) returns (values: Record)
    ensures forall a :: a in values <==> a in changed
    ensures forall a :: a in changed ==> values[a] == Get(source, a)
  {
    values := map[];
    for i := 0 to |changed|
      invariant forall a :: a in values <==> a in changed[..i]
      invariant forall a :: a in changed[..i] ==> values[a] == Get(source, a)
    {
      values := values[changed[i] := Get(source, changed[i])];
    }
  }

  /** What the three folds produce is the specified change set. */
  lemma FoldsBuildDiff(record: Record, updated: Record, changed: seq<Attr>,
                       changes: Changes, previous: Record, updates: Record)
    requires !Throws(record, updated) && changed != []
    requires forall a :: a in changed <==> a in ChangedAttrs(record, updated)
    requires forall a :: a in changes <==> a == Rev || a in changed
    requires forall a :: a in changed ==> changes[a] == Set(Get(updated, a))
    requires Rev !in changed ==> changes[Rev] == Add(1)
    requires forall a :: a in previous <==> a in changed
    requires forall a :: a in changed ==> previous[a] == Get(record, a)
    requires forall a :: a in updates <==> a in changed
    requires forall a :: a in changed ==> updates[a] == Get(updated, a)
    ensures DiffOf(record, updated) == Ok(Changed(changes, previous, updates))
  {
    var changedSet := ChangedAttrs(record, updated);
    assert changed[0] in changedSet;
    assert changes == map[Rev := Add(1)] + (map a | a in changedSet :: Set(Get(updated, a)));
    assert previous == map a | a in changedSet :: Get(record, a);
    assert updates == map a | a in changedSet :: Get(updated, a);
  }

  /** Derive the change set; the key lists give the attributes in insertion order. */
  method Derive(record: Record, recordKeys: seq<Attr>, updated: Record, updatedKeys: seq<Attr>)
    returns (r: Result<Diff, Error>)
    requires forall a :: a in recordKeys <==> a in record
    requires forall a :: a in updatedKeys <==> a in updated
    ensures r == DiffOf(record, updated)
  {
    var attributes := Sequences.Uniq(recordKeys + updatedKeys);
    assert forall a :: a in attributes <==> a in record.Keys + updated.Keys;
    var filtered := FilterChanged(attributes, record, updated);
    if filtered.Err? {
      assert filtered.error.NotIterable?;
      return Err(filtered.error);
    }
    var changed := filtered.value;
    if |changed| == 0 {
      assert ChangedAttrs(record, updated) == {};
      return Ok(Unchanged);
    }
    var changes := CollectChanges(changed, updated);
    var previous := CollectValues(changed, record);
    var updates := CollectValues(changed, updated);
    FoldsBuildDiff(record, updated, changed, changes, previous, updates);
    r := Ok(Changed(changes, previous, updates));
  }

  // ----- the patch algebra -----

  /** `view` shows some attributes of `stored`, other than the revision. */
  predicate ViewOf(view: Record, stored: Record) {
    Rev !in view && forall a :: a in view ==> view[a] == Get(stored, a)
  }

  /** The attributes of `r` named in `like`. */
  function Project(r: Record, like: Record): Record {
    map a | a in like :: Get(r, a)
  }

  /**
   * Applying a derived change set brings every compared attribute to its updated value, leaves every
   * other attribute alone, and adds one to the revision. Lists count as equal when their element sets are.
   */
  lemma ApplyReachesUpdated(stored: Record, view: Record, updated: Record)
    requires ViewOf(view, stored) && view.Keys == updated.Keys
    requires DiffOf(view, updated).Ok? && DiffOf(view, updated).value.Changed?
    ensures var after := Apply(stored, DiffOf(view, updated).value.changes);
            && (forall a :: a in updated ==> Same(Get(after, a), updated[a]))
            && (forall a :: a in updated && Get(after, a) != updated[a] ==> Get(after, a) == Get(stored, a))
            && (forall a :: a !in updated && a != Rev ==> Get(after, a) == Get(stored, a))
            && Get(after, Rev) == ApplyOp(Get(stored, Rev), Add(1))
  {
    var changed := ChangedAttrs(view, updated);
    var changes := DiffOf(view, updated).value.changes;
    assert Rev !in changed;
    forall a | a in updated
      ensures a in changed ==> Get(Apply(stored, changes), a) == updated[a]
      ensures a !in changed ==> Get(Apply(stored, changes), a) == Get(stored, a)
      ensures Same(Get(Apply(stored, changes), a), updated[a])
    {
      KeptOrSet(view, updated, a);
    }
  }

  /** An attribute that is not changed already is the same; a changed one is the same as itself. */
  lemma KeptOrSet(view: Record, updated: Record, a: Attr)
    requires view.Keys == updated.Keys && a in updated && !Throws(view, updated)
    ensures if a in ChangedAttrs(view, updated) then Same(updated[a], updated[a]) else Same(view[a], updated[a])
  {
    assert Differs(Get(view, a), Get(updated, a)) != None;
  }

  /** Each attribute is a list on both sides or on neither, as in every table that is synchronised. */
  predicate Comparable(view: Record, updated: Record) {
    && view.Keys == updated.Keys
    && forall a :: a in updated ==> (view[a].Arr? <==> updated[a].Arr?)
  }

  /** The record a sync leaves behind when it applies the difference, if there is one. */
  function Synced(stored: Record, view: Record, updated: Record): Record {
    match DiffOf(view, updated)
    case Ok(Changed(changes, _, _)) => Apply(stored, changes)
    case _ => stored
  }

  /**
   * The comparison of such records never throws; a sync leaves the updated values behind, up to the order
   * and repetition of list elements; and an attribute is reported exactly when it differed.
   */
  lemma SyncReachesUpdated(stored: Record, view: Record, updated: Record)
    requires ViewOf(view, stored) && Comparable(view, updated)
    ensures DiffOf(view, updated).Ok?
    ensures forall a :: a in updated ==>
      && Same(Get(Synced(stored, view, updated), a), updated[a])
      && (updated[a].Arr? ==> Get(Synced(stored, view, updated), a).Arr?)
      && (updated[a].Plain? ==> Get(Synced(stored, view, updated), a) == updated[a])
    ensures forall a :: a !in updated && a != Rev ==> Get(Synced(stored, view, updated), a) == Get(stored, a)
    ensures DiffOf(view, updated).value.Changed? ==>
      var diff := DiffOf(view, updated).value;
      forall a :: a in updated ==>
        && Get(diff.updates, a) == (if Same(view[a], updated[a]) then NOTHING else updated[a])
        && Get(diff.previous, a) == (if Same(view[a], updated[a]) then NOTHING else view[a])
  {
    ComparisonHolds(view, updated);
    if DiffOf(view, updated).value.Changed? {
      ApplyReachesUpdated(stored, view, updated);
      SyncReports(view, updated);
    } else {
      forall a | a in updated
        ensures Same(view[a], updated[a])
      {
        assert a !in ChangedAttrs(view, updated);
      }
    }
  }

  lemma ComparisonHolds(view: Record, updated: Record)
    requires Comparable(view, updated)
    ensures DiffOf(view, updated).Ok?
    ensures forall a :: a in ChangedAttrs(view, updated) <==> a in updated && !Same(view[a], updated[a])
  {
    forall a | a in view.Keys + updated.Keys
      ensures Differs(Get(view, a), Get(updated, a)) == Some(!Same(view[a], updated[a]))
    {
    }
  }

  lemma SyncReports(view: Record, updated: Record)
    requires Comparable(view, updated)
    requires DiffOf(view, updated).Ok? && DiffOf(view, updated).value.Changed?
    ensures var diff := DiffOf(view, updated).value;
            forall a :: a in updated ==>
              && Get(diff.updates, a) == (if Same(view[a], updated[a]) then NOTHING else updated[a])
              && Get(diff.previous, a) == (if Same(view[a], updated[a]) then NOTHING else view[a])
  {
    ComparisonHolds(view, updated);
  }

  // ----- the same, stated on the values -----

  predicate Reports(d: Diff, a: Attr) {
    d.Changed? && a in d.updates
  }

  predicate IsFalsy(v: Value) {
    v == Plain(Undefined) || v == Plain(Bool(false)) || v == Plain(Num(0)) || v == Plain(Str(""))
  }

  /** A value that cannot be iterated: true, or a number other than zero. */
  predicate CannotIterate(v: Value) {
    v.Plain? && !IsFalsy(v) && !v.a.Str?
  }

  /** A list against a text: some element is not a character of the text, or the other way round. */
  ghost predicate DiffersFromText(items: seq<Atom>, text: string) {
    exists e :: (e in items) != IsCharOf(e, text)
  }

  /** The comparison throws exactly when a list meets a value that cannot be iterated. */
  lemma ThrowsIff(record: Record, updated: Record)
    ensures DiffOf(record, updated).Err? <==>
            exists a :: a in record.Keys + updated.Keys &&
                        ((Get(record, a).Arr? && CannotIterate(Get(updated, a))) ||
                         (CannotIterate(Get(record, a)) && Get(updated, a).Arr?))
  {
    forall a
      ensures Differs(Get(record, a), Get(updated, a)) == None <==>
              ((Get(record, a).Arr? && CannotIterate(Get(updated, a))) ||
               (CannotIterate(Get(record, a)) && Get(updated, a).Arr?))
    {
    }
  }

  /**
   * A list is reported exactly when some element is in one of the two lists and not in the other; against a
   * missing or falsy value, when it is not empty; against a text, which counts as its characters, in the same
   * way; and a plain value against a plain one, when it is another.
   */
  lemma ReportedIff(record: Record, updated: Record, a: Attr)
    requires DiffOf(record, updated).Ok?
    ensures var reported, x, y := Reports(DiffOf(record, updated).value, a), Get(record, a), Get(updated, a);
            && (x.Plain? && y.Plain? ==> (reported <==> x.a != y.a))
            && (x.Arr? && y.Arr? ==> (reported <==> exists e :: (e in x.items) != (e in y.items)))
            && (x.Arr? && IsFalsy(y) ==> (reported <==> x.items != []))
            && (IsFalsy(x) && y.Arr? ==> (reported <==> y.items != []))
            && (x.Arr? && y.Plain? && y.a.Str? ==> (reported <==> DiffersFromText(x.items, y.a.s)))
            && (x.Plain? && x.a.Str? && y.Arr? ==> (reported <==> DiffersFromText(y.items, x.a.s)))
  {
    var x, y := Get(record, a), Get(updated, a);
    assert Reports(DiffOf(record, updated).value, a) <==> Differs(x, y) == Some(true) by {
      assert Differs(x, x) != None;
      assert Reports(DiffOf(record, updated).value, a) <==> a in ChangedAttrs(record, updated);
    }
    if x.Arr? && y.Arr? {
      ListsDifferIff(x.items, y.items);
    } else if x.Arr? && y.Plain? && y.a.Str? {
      ListDiffersFromTextIff(x.items, y.a.s);
    } else if x.Plain? && x.a.Str? && y.Arr? {
      ListDiffersFromTextIff(y.items, x.a.s);
    }
    if x.Arr? && IsFalsy(y) {
      ListDiffersFromNothing(x.items, y);
    } else if IsFalsy(x) && y.Arr? {
      ListDiffersFromNothing(y.items, x);
    }
  }

  lemma ListsDifferIff(x: seq<Atom>, y: seq<Atom>)
    ensures Differs(Arr(x), Arr(y)) == Some(true) <==> exists e :: (e in x) != (e in y)
  {
    if AtomsOf(x) != AtomsOf(y) {
      assert exists e :: (e in AtomsOf(x)) != (e in AtomsOf(y));
    }
  }

  lemma ListDiffersFromTextIff(items: seq<Atom>, text: string)
    ensures Differs(Arr(items), Plain(Str(text))) == Some(true) <==> DiffersFromText(items, text)
    ensures Differs(Plain(Str(text)), Arr(items)) == Some(true) <==> DiffersFromText(items, text)
  {
    var chars := CharsOf(text);
    if AtomsOf(items) != chars {
      assert exists e :: (e in AtomsOf(items)) != (e in chars);
    }
  }

  lemma ListDiffersFromNothing(items: seq<Atom>, nothing: Value)
    requires IsFalsy(nothing)
    ensures Differs(Arr(items), nothing) == Some(true) <==> items != []
    ensures Differs(nothing, Arr(items)) == Some(true) <==> items != []
  {
    if items != [] {
      assert items[0] in AtomsOf(items);
    }
  }

  /** A record against itself has nothing to report. */
  lemma SameRecordIsUnchanged(record: Record)
    ensures DiffOf(record, record) == Ok(Unchanged)
  {
    forall a
      ensures Differs(Get(record, a), Get(record, a)) != Some(true)
      ensures Differs(Get(record, a), Get(record, a)) != None
    {
    }
  }

  /** A report has the new value as change and update, and the old one as previous, for the same attributes. */
  lemma ReportHolds(record: Record, updated: Record)
    requires DiffOf(record, updated).Ok? && DiffOf(record, updated).value.Changed?
    ensures var d := DiffOf(record, updated).value;
            && d.previous.Keys == d.updates.Keys && d.changes.Keys == d.updates.Keys + {Rev}
            && forall a :: a in d.updates ==>
                 && d.changes[a] == Set(Get(updated, a)) && d.updates[a] == Get(updated, a)
                 && d.previous[a] == Get(record, a)
  {
  }

  /** After a sync, a stored list has exactly the elements of the updated one, and a plain value is the updated one. */
  lemma SyncStoresElements(stored: Record, view: Record, updated: Record, a: Attr)
    requires ViewOf(view, stored) && Comparable(view, updated) && a in updated
    ensures var after := Get(Synced(stored, view, updated), a);
            && (updated[a].Plain? ==> after == updated[a])
            && (updated[a].Arr? ==> after.Arr? && forall x :: x in after.items <==> x in updated[a].items)
  {
    SyncReachesUpdated(stored, view, updated);
    ReportedIff(view, updated, a);
    var d := DiffOf(view, updated).value;
    if d.Changed? {
      ReportHolds(view, updated);
      ApplyMeans(stored, d.changes, a);
    }
    if updated[a].Arr? && !Reports(d, a) {
      forall x
        ensures x in view[a].items <==> x in updated[a].items
      {
      }
    }
  }

  lemma UncomparedStays(stored: Record, view: Record, updated: Record, a: Attr)
    requires DiffOf(view, updated).Ok? && a !in view && a !in updated && a != Rev
    ensures Get(Synced(stored, view, updated), a) == Get(stored, a)
  {
    assert a !in ChangedAttrs(view, updated);
  }

  /** Applying changes sets, adds to, or keeps an attribute; adding to what is no number starts from zero. */
  lemma ApplyMeans(stored: Record, changes: Changes, a: Attr)
    ensures var after := Get(Apply(stored, changes), a);
            if a !in changes then after == Get(stored, a)
            else if changes[a].Set? then after == changes[a].v
            else if Get(stored, a).Plain? && Get(stored, a).a.Num? then
              after == Plain(Num(Get(stored, a).a.n + changes[a].amount))
            else after == Plain(Num(changes[a].amount))
  {
  }

  /** Writing back `previous` restores every attribute except the revision. */
  lemma PreviousUndoes(stored: Record, view: Record, updated: Record)
    requires ViewOf(view, stored) && view.Keys == updated.Keys
    requires DiffOf(view, updated).Ok? && DiffOf(view, updated).value.Changed?
    ensures var diff := DiffOf(view, updated).value;
            var after := Apply(stored, diff.changes);
            forall a :: a != Rev ==> Get(after + diff.previous, a) == Get(stored, a)
  {
    var diff := DiffOf(view, updated).value;
    forall a | a != Rev
      ensures Get(Apply(stored, diff.changes) + diff.previous, a) == Get(stored, a)
    {
      assert a in diff.previous <==> a in ChangedAttrs(view, updated);
    }
  }

  /** Deriving again after the write finds nothing to do: a repeated sync is silent. */
  lemma SecondSyncIsSilent(stored: Record, view: Record, updated: Record)
    requires ViewOf(view, stored) && view.Keys == updated.Keys
    requires DiffOf(view, updated).Ok? && DiffOf(view, updated).value.Changed?
    ensures var after := Apply(stored, DiffOf(view, updated).value.changes);
            DiffOf(Project(after, updated), updated) == Ok(Unchanged)
  {
    ApplyReachesUpdated(stored, view, updated);
    var after := Apply(stored, DiffOf(view, updated).value.changes);
    var again := Project(after, updated);
    forall a | a in again.Keys + updated.Keys
      ensures Differs(Get(again, a), Get(updated, a)) == Some(false)
    {
      assert Same(Get(after, a), updated[a]);
    }
    assert ChangedAttrs(again, updated) == {};
  }

  /** The guard is bumped exactly when the revision is not itself among the differing attributes. */
  lemma RevisionBumpedIff(record: Record, updated: Record)
    requires DiffOf(record, updated).Ok? && DiffOf(record, updated).value.Changed?
    ensures DiffOf(record, updated).value.changes[Rev] == Add(1) <==>
            Differs(Get(record, Rev), Get(updated, Rev)) == Some(false)
  {
    assert Rev in ChangedAttrs(record, updated) <==>
      Rev in record.Keys + updated.Keys && Differs(Get(record, Rev), Get(updated, Rev)) == Some(true);
  }

  /**
   * A comparison that lists the revision on the record side only, as the forward HTLC update does,
   * always reports a change and always erases the stored revision.
   */
  lemma ComparedRevisionIsErased(record: Record, updated: Record, stored: Record)
    requires Get(record, Rev) == Plain(Num(0)) && Rev !in updated
    requires !Throws(record, updated)
    ensures DiffOf(record, updated).value.Changed?
    ensures Get(Apply(stored, DiffOf(record, updated).value.changes), Rev) == NOTHING
  {
    assert Rev in ChangedAttrs(record, updated);
  }
}
