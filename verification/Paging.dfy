/** Fetching invoices and payments page by page, with filters on dates and an early stop. */
module Paging {
  import opened Sequences
  import opened Wrappers

  /** An invoice or a payment. Dates are numbers in date order; payments have no confirmation date here. */
  datatype Item = Item(id: string, createdAt: int, confirmedAt: Option<int>)

  datatype Error = Error(code: nat, message: string)

  /** What a page request is answered with. Every reply but the last one names a next page. */
  datatype Reply = Failed(error: Error) | Page(items: seq<Item>)

  /** undefined at the start, then the name of a page, and false at the end. */
  datatype Token = Start | At(page: nat) | End

  datatype Query = Query(confirmedAfter: Option<int>, createdAfter: Option<int>)

  predicate Matches(query: Query, item: Item) {
    && (query.confirmedAfter.Some? ==>
          item.confirmedAt.Some? && item.confirmedAt.value >= query.confirmedAfter.value)
    && (query.createdAfter.Some? ==> item.createdAt >= query.createdAfter.value)
  }

  /** Created before the date from which items are asked for. */
  predicate IsOld(query: Query, item: Item) {
    query.createdAfter.Some? && item.createdAt < query.createdAfter.value
  }

  predicate HoldsOld(query: Query, items: seq<Item>) {
    exists item :: item in items && IsOld(query, item)
  }

  function Keep(query: Query, items: seq<Item>): (r: seq<Item>)
    ensures forall item :: item in r <==> item in items && Matches(query, item)
  {
    if items == [] then []
    else
      var n := |items| - 1;
      assert items == items[..n] + [items[n]];
      Keep(query, items[..n]) + if Matches(query, items[n]) then [items[n]] else []
  }

  /** All items of some replies, page after page. */
  function Items(replies: seq<Reply>): seq<Item> {
    if replies == [] then []
    else
      var last := replies[|replies| - 1];
      Items(replies[..|replies| - 1]) + if last.Page? then last.items else []
  }

  predicate StopsAt(query: Query, replies: seq<Reply>, k: nat)
    requires k < |replies|
  {
    replies[k].Failed? || HoldsOld(query, replies[k].items) || k == |replies| - 1
  }

  /** The first page from the k-th on after which no further one is asked for. */
  function LastReadFrom(query: Query, replies: seq<Reply>, k: nat): (r: nat)
    requires k < |replies|
    ensures k <= r < |replies| && StopsAt(query, replies, r)
    ensures forall j :: k <= j < r ==> !StopsAt(query, replies, j)
    decreases |replies| - k
  {
    if StopsAt(query, replies, k) then k else LastReadFrom(query, replies, k + 1)
  }

  function Answer(query: Query, replies: seq<Reply>): Result<seq<Item>, Error>
    requires replies != []
  {
    var k := LastReadFrom(query, replies, 0);
    if replies[k].Failed? then Err(replies[k].error) else Ok(Keep(query, Items(replies[..k + 1])))
  }

  // ----- the loops -----

  lemma KeepAppend(query: Query, a: seq<Item>, b: seq<Item>)
    ensures Keep(query, a + b) == Keep(query, a) + Keep(query, b)
  {
    if b == [] {
      assert a + b == a;
    } else {
      var n := |b| - 1;
      assert (a + b)[..|a| + n] == a + b[..n];
      KeepAppend(query, a, b[..n]);
    }
  }

  lemma ReadOneMore(query: Query, replies: seq<Reply>, k: nat)
    requires k < |replies| && replies[k].Page?
    ensures Keep(query, Items(replies[..k + 1])) == Keep(query, Items(replies[..k])) + Keep(query, replies[k].items)
  {
    assert replies[..k + 1][..k] == replies[..k];
    KeepAppend(query, Items(replies[..k]), replies[k].items);
  }

  function Confirmed(confirmedAfter: Option<int>, items: seq<Item>): seq<Item> {
    Keep(Query(confirmedAfter, None), items)
  }

  function Created(createdAfter: Option<int>, items: seq<Item>): seq<Item> {
    Keep(Query(None, createdAfter), items)
  }

  lemma {:induction false} TwoFilters(query: Query, items: seq<Item>)
    ensures Created(query.createdAfter, Confirmed(query.confirmedAfter, items)) == Keep(query, items)
  {
    if items != [] {
      var n := |items| - 1;
      TwoFilters(query, items[..n]);
      var kept := Confirmed(query.confirmedAfter, items[..n]);
      if Matches(Query(query.confirmedAfter, None), items[n]) {
        assert (kept + [items[n]])[..|kept|] == kept;
      } else {
        assert Confirmed(query.confirmedAfter, items) == kept;
      }
    }
  }

  /** Whether an array has an item that is too old. */
  method FindOld(query: Query, items: seq<Item>) returns (found: bool)
    ensures found <==> HoldsOld(query, items)
  {
    for i := 0 to |items|
      invariant !HoldsOld(query, items[..i])
    {
      if IsOld(query, items[i]) {
        assert items[i] in items;
        return true;
      }
      assert items[..i + 1] == items[..i] + [items[i]];
    }
    assert items[..|items|] == items;
    return false;
  }

  method GetAllInvoices(query: Query, replies: seq<Reply>)
    returns (r: Result<seq<Item>, Error>)
    requires replies != []
    ensures r == Answer(query, replies)
  {
    var invoices: seq<Item> := [];
    var token := Start;
    var next := 0;
    while token != End
      invariant 0 <= next <= |replies|
      invariant token != End ==> next < |replies| && next == if token.At? then token.page else 0
      invariant token != End ==> LastReadFrom(query, replies, next) == LastReadFrom(query, replies, 0)
      invariant token == End ==> next == LastReadFrom(query, replies, 0) + 1 && replies[next - 1].Page?
      invariant invoices == Keep(query, Items(replies[..next]))
      decreases if token != End then 1 else 0, |replies| - next
    {
      var reply := replies[if token.At? then token.page else 0];
      if reply.Failed? {
        return Err(reply.error);
      }
      ReadOneMore(query, replies, next);
      TwoFilters(query, reply.items);
      next := next + 1;
      token := if next < |replies| then At(next) else End;
      invoices := invoices + Created(query.createdAfter, Confirmed(query.confirmedAfter, reply.items));
      if query.createdAfter.Some? {
        var found := FindOld(query, reply.items);
        if found {
          token := End;
        }
      }
    }
    return Ok(invoices);
  }

  method GetPayments(after: Option<int>, replies: seq<Reply>)
    returns (r: Result<seq<Item>, Error>)
    requires replies != []
    ensures r == Answer(Query(None, after), replies)
  {
    var query := Query(None, after);
    var payments: seq<Item> := [];
    var token := Start;
    var next := 0;
    while token != End
      invariant 0 <= next <= |replies|
      invariant token != End ==> next < |replies| && next == if token.At? then token.page else 0
      invariant token != End ==> LastReadFrom(query, replies, next) == LastReadFrom(query, replies, 0)
      invariant token == End ==> next == LastReadFrom(query, replies, 0) + 1 && replies[next - 1].Page?
      invariant payments == Keep(query, Items(replies[..next]))
      decreases if token != End then 1 else 0, |replies| - next
    {
      var reply := replies[if token.At? then token.page else 0];
      if reply.Failed? {
        return Err(reply.error);
      }
      ReadOneMore(query, replies, next);
      assert Created(after, reply.items) == Keep(query, reply.items);
      next := next + 1;
      token := if next < |replies| then At(next) else End;
      if after.Some? {
        var found := FindOld(query, reply.items);
        if found {
          token := End;
        }
      }
      payments := payments + Created(after, reply.items);
    }
    return Ok(payments);
  }

  // ----- the early stop against the plain filter -----

  predicate NoneFailed(replies: seq<Reply>) {
    forall k :: 0 <= k < |replies| ==> replies[k].Page?
  }

  predicate NewestFirst(items: seq<Item>) {
    forall i, j :: 0 <= i < j < |items| ==> items[i].createdAt >= items[j].createdAt
  }

  lemma {:induction false} ItemsAppend(a: seq<Reply>, b: seq<Reply>)
    ensures Items(a + b) == Items(a) + Items(b)
  {
    if b == [] {
      assert a + b == a;
    } else {
      var n := |b| - 1;
      assert (a + b)[..|a| + n] == a + b[..n];
      ItemsAppend(a, b[..n]);
    }
  }

  /** The items of the pages that are not asked for. */
  function Unread(query: Query, replies: seq<Reply>): seq<Item>
    requires replies != []
  {
    Items(replies[LastReadFrom(query, replies, 0) + 1..])
  }

  lemma ReadThenUnread(query: Query, replies: seq<Reply>)
    requires replies != [] && NoneFailed(replies)
    ensures Answer(query, replies).Ok?
    ensures Keep(query, Items(replies)) == Answer(query, replies).value + Keep(query, Unread(query, replies))
  {
    var k := LastReadFrom(query, replies, 0);
    assert replies == replies[..k + 1] + replies[k + 1..];
    ItemsAppend(replies[..k + 1], replies[k + 1..]);
    KeepAppend(query, Items(replies[..k + 1]), Items(replies[k + 1..]));
  }

  lemma KeepsNothingIff(query: Query, items: seq<Item>)
    ensures Keep(query, items) == [] <==> forall item :: item in items ==> !Matches(query, item)
  {
    var kept := Keep(query, items);
    if kept == [] {
      forall item | item in items
        ensures !Matches(query, item)
      {
        assert item !in kept;
      }
    } else {
      assert kept[0] in kept;
    }
  }

  /** Without failures, the answer is the full filter exactly when no page left unread has a matching item. */
  lemma CompleteIff(query: Query, replies: seq<Reply>)
    requires replies != [] && NoneFailed(replies)
    ensures Answer(query, replies) == Ok(Keep(query, Items(replies))) <==>
            forall item :: item in Unread(query, replies) ==> !Matches(query, item)
  {
    ReadThenUnread(query, replies);
    KeepsNothingIff(query, Unread(query, replies));
    AddsNothingIff(Answer(query, replies).value, Keep(query, Unread(query, replies)));
  }

  lemma AddsNothingIff(a: seq<Item>, b: seq<Item>)
    ensures a == a + b <==> b == []
  {
    if b == [] {
      assert a + b == a;
    } else {
      assert |a + b| > |a|;
    }
  }

  /** Items that come newest first across the pages: the early stop loses nothing. */
  lemma NewestFirstIsComplete(query: Query, replies: seq<Reply>)
    requires replies != [] && NoneFailed(replies) && NewestFirst(Items(replies))
    ensures Answer(query, replies) == Ok(Keep(query, Items(replies)))
  {
    var k := LastReadFrom(query, replies, 0);
    if k < |replies| - 1 {
      var stale :| stale in replies[k].items && IsOld(query, stale);
      UnreadIsOlder(query, replies, stale);
    } else {
      assert replies[k + 1..] == [];
    }
    CompleteIff(query, replies);
  }

  lemma UnreadIsOlder(query: Query, replies: seq<Reply>, stale: Item)
    requires replies != [] && NoneFailed(replies) && NewestFirst(Items(replies))
    requires stale in replies[LastReadFrom(query, replies, 0)].items
    ensures forall item :: item in Unread(query, replies) ==> item.createdAt <= stale.createdAt
  {
    var k := LastReadFrom(query, replies, 0);
    var read := replies[..k + 1];
    assert replies == read + replies[k + 1..];
    ItemsAppend(read, replies[k + 1..]);
    assert Items(read) == Items(read[..k]) + replies[k].items;
    LaterIsOlder(Items(read), Unread(query, replies), stale);
  }

  lemma LaterIsOlder(read: seq<Item>, rest: seq<Item>, stale: Item)
    requires NewestFirst(read + rest) && stale in read
    ensures forall item :: item in rest ==> item.createdAt <= stale.createdAt
  {
    var i :| 0 <= i < |read| && read[i] == stale;
    forall item | item in rest
      ensures item.createdAt <= stale.createdAt
    {
      var j :| 0 <= j < |rest| && rest[j] == item;
      assert (read + rest)[i] == stale && (read + rest)[|read| + j] == item;
    }
  }

  /** A fetch fails exactly with the first failure that no page with an old item precedes. */
  lemma FailsIff(query: Query, replies: seq<Reply>, error: Error)
    requires replies != []
    ensures Answer(query, replies) == Err(error) <==>
            exists k :: 0 <= k < |replies| && replies[k] == Failed(error) &&
                        forall j :: 0 <= j < k ==> replies[j].Page? && !HoldsOld(query, replies[j].items)
  {
    var last := LastReadFrom(query, replies, 0);
    if k :| 0 <= k < |replies| && replies[k] == Failed(error) &&
            forall j :: 0 <= j < k ==> replies[j].Page? && !HoldsOld(query, replies[j].items) {
      assert StopsAt(query, replies, k);
      assert !(last < k);
      assert last == k;
    }
    if Answer(query, replies) == Err(error) {
      forall j | 0 <= j < last
        ensures replies[j].Page? && !HoldsOld(query, replies[j].items)
      {
        assert !StopsAt(query, replies, j);
      }
    }
  }

  /** An old item on one page and a matching one on the next: the matching one is lost. */
  lemma OldBeforeNewLosesItems(query: Query, stale: Item, recent: Item)
    requires IsOld(query, stale) && Matches(query, recent)
    ensures Answer(query, [Page([stale]), Page([recent])]) != Ok(Keep(query, Items([Page([stale]), Page([recent])])))
  {
    var replies := [Page([stale]), Page([recent])];
    assert stale in replies[0].items;
    assert LastReadFrom(query, replies, 0) == 0;
    assert replies[1..] == [Page([recent])];
    assert Items(replies[1..]) == Items(replies[1..][..0]) + [recent];
    assert recent in Unread(query, replies);
    CompleteIff(query, replies);
  }

  // ----- the answer, stated on the dates -----

  /** The item is not from before the dates asked for; without a confirmation date it is not confirmed after one. */
  predicate IsAskedFor(item: Item, confirmedAfter: Option<int>, createdAfter: Option<int>) {
    && (createdAfter.None? || createdAfter.value <= item.createdAt)
    && (confirmedAfter.None? || (item.confirmedAt.Some? && confirmedAfter.value <= item.confirmedAt.value))
  }

  /** Filtering keeps exactly the items asked for, each where it was. */
  lemma {:induction false} KeepSelects(query: Query, items: seq<Item>) returns (at: seq<nat>)
    ensures Selects(Keep(query, items), items, at)
    ensures forall i: nat ::
              i in at <==> i < |items| && IsAskedFor(items[i], query.confirmedAfter, query.createdAfter)
  {
    at := [];
    if items != [] {
      var n := |items| - 1;
      at := KeepSelects(query, items[..n]);
      SelectsMore(Keep(query, items[..n]), items[..n], at, items[n]);
      assert items == items[..n] + [items[n]];
      if IsAskedFor(items[n], query.confirmedAfter, query.createdAfter) {
        at := at + [n];
      } else {
        assert Keep(query, items) == Keep(query, items[..n]);
      }
    }
  }

  /** The items of the pages, page after page. */
  lemma ItemsMore(replies: seq<Reply>, items: seq<Item>, error: Error)
    ensures Items([]) == []
    ensures Items(replies + [Page(items)]) == Items(replies) + items
    ensures Items(replies + [Failed(error)]) == Items(replies)
  {
    assert (replies + [Page(items)])[..|replies|] == replies;
    assert (replies + [Failed(error)])[..|replies|] == replies;
  }

  /**
   * The pages are read up to the first that fails, is the last, or has an item from before the creation date; the
   * answer is the failure, or the items asked for among those read, in order.
   */
  lemma AnswerIsAskedFor(query: Query, replies: seq<Reply>) returns (k: nat, at: seq<nat>)
    requires replies != []
    ensures k < |replies|
    ensures forall j, item :: 0 <= j < k && replies[j].Page? && item in replies[j].items ==>
              query.createdAfter.None? || query.createdAfter.value <= item.createdAt
    ensures forall j :: 0 <= j < k ==> replies[j].Page?
    ensures replies[k].Page? && k < |replies| - 1 ==>
              query.createdAfter.Some? &&
              exists item :: item in replies[k].items && item.createdAt < query.createdAfter.value
    ensures replies[k].Failed? ==> Answer(query, replies) == Err(replies[k].error)
    ensures replies[k].Page? ==>
              && Answer(query, replies).Ok?
              && Selects(Answer(query, replies).value, Items(replies[..k + 1]), at)
              && forall i: nat :: i in at <==>
                   i < |Items(replies[..k + 1])| &&
                   IsAskedFor(Items(replies[..k + 1])[i], query.confirmedAfter, query.createdAfter)
  {
    k := LastReadFrom(query, replies, 0);
    forall j, item | 0 <= j < k && replies[j].Page? && item in replies[j].items
      ensures query.createdAfter.None? || query.createdAfter.value <= item.createdAt
    {
      assert !StopsAt(query, replies, j);
      assert !IsOld(query, item);
    }
    forall j | 0 <= j < k
      ensures replies[j].Page?
    {
      assert !StopsAt(query, replies, j);
    }
    at := KeepSelects(query, Items(replies[..k + 1]));
  }
}
