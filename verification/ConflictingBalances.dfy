/** Pending on-chain balances that are double spent, or spend what a confirmed transaction spent. */
module ConflictingBalances {
  import opened Sequences
  import opened Wrappers

  datatype Outpoint = Outpoint(id: string, vout: nat)

  /** `inputs` are those of the decoded raw transaction; None when it is not known. */
  datatype Transaction = Transaction(id: string, isConfirmed: bool, inputs: Option<seq<Outpoint>>)

  datatype Utxo = Utxo(confirmationCount: nat, tokens: int, transactionId: string)

  function Unconfirmed(utxos: seq<Utxo>): (r: seq<Utxo>)
    ensures |r| <= |utxos|
  {
    if utxos == [] then []
    else
      Unconfirmed(utxos[..|utxos| - 1]) +
      if utxos[|utxos| - 1].confirmationCount == 0 then [utxos[|utxos| - 1]] else []
  }

  function FindTransaction(transactions: seq<Transaction>, id: string): Option<Transaction> {
    if transactions == [] then None
    else if transactions[0].id == id then Some(transactions[0])
    else FindTransaction(transactions[1..], id)
  }

  /** What the transaction of an output spends, as far as it is known. */
  function InputsOf(transactions: seq<Transaction>, utxo: Utxo): seq<Outpoint> {
    match FindTransaction(transactions, utxo.transactionId)
    case Some(tx) => if tx.inputs.Some? then tx.inputs.value else []
    case None => []
  }

  /** The inputs of each of some outputs. */
  function InputLists(transactions: seq<Transaction>, pending: seq<Utxo>): (r: seq<seq<Outpoint>>)
    ensures |r| == |pending|
    ensures forall i :: 0 <= i < |r| ==> r[i] == InputsOf(transactions, pending[i])
  {
    if pending == [] then []
    else InputLists(transactions, pending[..|pending| - 1]) + [InputsOf(transactions, pending[|pending| - 1])]
  }

  // ----- what the indices mean -----

  predicate Overlap(a: seq<Outpoint>, b: seq<Outpoint>) {
    exists outpoint :: outpoint in a && outpoint in b
  }

  predicate Repeats(a: seq<Outpoint>) {
    exists k :: 0 <= k < |a| && a[k] in a[..k]
  }

  /** A list shares an outpoint with an earlier list, or holds one twice. */
  predicate IsContested(lists: seq<seq<Outpoint>>, i: nat)
    requires i < |lists|
  {
    Repeats(lists[i]) || exists j :: 0 <= j < i && Overlap(lists[j], lists[i])
  }

  /** A list shares an outpoint with a confirmed transaction. */
  predicate IsInvalid(transactions: seq<Transaction>, inputs: seq<Outpoint>) {
    exists tx :: tx in transactions && tx.isConfirmed && tx.inputs.Some? && Overlap(tx.inputs.value, inputs)
  }

  function InvalidIndices(transactions: seq<Transaction>, utxos: seq<Utxo>): set<nat> {
    var lists := InputLists(transactions, Unconfirmed(utxos));
    set i: nat | i < |lists| && IsInvalid(transactions, lists[i])
  }

  function ConflictingIndices(transactions: seq<Transaction>, utxos: seq<Utxo>): set<nat> {
    var lists := InputLists(transactions, Unconfirmed(utxos));
    set i: nat | i < |lists| && IsContested(lists, i) && !IsInvalid(transactions, lists[i])
  }

  /** The tokens of a list at those of some indices that are below n. */
  function TotalUpTo(utxos: seq<Utxo>, indices: set<nat>, n: nat): int
    requires n <= |utxos|
  {
    if n == 0 then 0
    else TotalUpTo(utxos, indices, n - 1) + if n - 1 in indices then utxos[n - 1].tokens else 0
  }

  function Total(utxos: seq<Utxo>, indices: set<nat>): int {
    TotalUpTo(utxos, indices, |utxos|)
  }

  // ----- the algorithm -----

  predicate Spends(lists: seq<seq<Outpoint>>, i: nat, outpoint: Outpoint) {
    i < |lists| && outpoint in lists[i]
  }

  /** The dictionary has the positions of the lists that hold an outpoint. */
  predicate RecordsOf(recorded: map<Outpoint, seq<nat>>, lists: seq<seq<Outpoint>>, outpoint: Outpoint) {
    if outpoint in recorded then
      && recorded[outpoint] != []
      && (forall i :: i in recorded[outpoint] ==> Spends(lists, i, outpoint))
      && (forall i :: 0 <= i < |lists| && outpoint in lists[i] ==> i in recorded[outpoint])
    else
      forall i :: 0 <= i < |lists| ==> outpoint !in lists[i]
  }

  ghost predicate Records(recorded: map<Outpoint, seq<nat>>, lists: seq<seq<Outpoint>>) {
    forall outpoint :: RecordsOf(recorded, lists, outpoint)
  }

  ghost predicate ListsContested(conflicting: seq<nat>, lists: seq<seq<Outpoint>>) {
    forall i: nat :: i in conflicting <==> i < |lists| && IsContested(lists, i)
  }

  function Extend(lists: seq<seq<Outpoint>>, outpoint: Outpoint): (r: seq<seq<Outpoint>>)
    requires lists != []
    ensures |r| == |lists|
  {
    lists[..|lists| - 1] + [lists[|lists| - 1] + [outpoint]]
  }

  lemma ExtendRecords(recorded: map<Outpoint, seq<nat>>, lists: seq<seq<Outpoint>>, outpoint: Outpoint)
    requires lists != [] && Records(recorded, lists)
    ensures var n := |lists| - 1;
            var owners := if outpoint in recorded then recorded[outpoint] + [n] else [n];
            Records(recorded[outpoint := owners], Extend(lists, outpoint))
  {
    var n := |lists| - 1;
    var owners := if outpoint in recorded then recorded[outpoint] + [n] else [n];
    var next := Extend(lists, outpoint);
    assert forall i :: 0 <= i < n ==> next[i] == lists[i];
    assert next[n] == lists[n] + [outpoint];
    var updated := recorded[outpoint := owners];
    forall o
      ensures RecordsOf(updated, next, o)
    {
      assert RecordsOf(recorded, lists, o);
    }
  }

  /** Adding an outpoint to the last list makes it contested exactly when some list had the outpoint. */
  lemma ExtendContested(recorded: map<Outpoint, seq<nat>>, conflicting: seq<nat>, lists: seq<seq<Outpoint>>,
                        outpoint: Outpoint)
    requires lists != [] && RecordsOf(recorded, lists, outpoint) && ListsContested(conflicting, lists)
    ensures var more := if outpoint in recorded then [|lists| - 1] else [];
            ListsContested(conflicting + more, Extend(lists, outpoint))
  {
    var n := |lists| - 1;
    var met := outpoint in recorded;
    if met {
      assert Spends(lists, recorded[outpoint][0], outpoint);
    }
    var next := Extend(lists, outpoint);
    forall i: nat | i < n
      ensures IsContested(next, i) <==> IsContested(lists, i)
    {
      assert forall j :: 0 <= j <= i ==> next[j] == lists[j];
    }
    assert forall i :: 0 <= i < n ==> next[i] == lists[i];
    ExtendRepeats(lists[n], outpoint);
    forall j | 0 <= j < n
      ensures Overlap(next[j], next[n]) <==> Overlap(lists[j], lists[n]) || outpoint in lists[j]
    {
      ExtendOverlap(lists[j], lists[n], outpoint);
    }
    assert IsContested(next, n) <==> IsContested(lists, n) || met;
  }

  lemma ExtendRepeats(inputs: seq<Outpoint>, outpoint: Outpoint)
    ensures Repeats(inputs + [outpoint]) <==> Repeats(inputs) || outpoint in inputs
  {
    var next := inputs + [outpoint];
    assert forall k :: 0 <= k <= |inputs| ==> next[..k] == inputs[..k];
    assert inputs[..|inputs|] == inputs;
    if Repeats(inputs) {
      var k :| 0 <= k < |inputs| && inputs[k] in inputs[..k];
      assert next[k] in next[..k];
    }
    if outpoint in inputs {
      assert next[|inputs|] in next[..|inputs|];
    }
  }

  lemma ExtendOverlap(a: seq<Outpoint>, b: seq<Outpoint>, outpoint: Outpoint)
    ensures Overlap(a, b + [outpoint]) <==> Overlap(a, b) || outpoint in a
  {
    if Overlap(a, b) {
      var o :| o in a && o in b;
      assert o in b + [outpoint];
    }
    if outpoint in a {
      assert outpoint in b + [outpoint];
    }
  }

  /** A further list without outpoints changes nothing. */
  lemma AnotherList(recorded: map<Outpoint, seq<nat>>, conflicting: seq<nat>, lists: seq<seq<Outpoint>>)
    requires Records(recorded, lists) && ListsContested(conflicting, lists)
    ensures Records(recorded, lists + [[]]) && ListsContested(conflicting, lists + [[]])
  {
    var next := lists + [[]];
    forall o
      ensures RecordsOf(recorded, next, o)
    {
      assert RecordsOf(recorded, lists, o);
    }
    forall i: nat | i < |lists|
      ensures IsContested(next, i) <==> IsContested(lists, i)
    {
      assert forall j :: 0 <= j <= i ==> next[j] == lists[j];
    }
  }

  /** Register the inputs of one unconfirmed output. */
  method Register(index: nat, inputs: seq<Outpoint>, recorded: map<Outpoint, seq<nat>>, conflicting: seq<nat>,
                  ghost lists: seq<seq<Outpoint>>)
    returns (recorded': map<Outpoint, seq<nat>>, conflicting': seq<nat>)
    requires index == |lists| && Records(recorded, lists) && ListsContested(conflicting, lists)
    ensures Records(recorded', lists + [inputs]) && ListsContested(conflicting', lists + [inputs])
  {
    recorded', conflicting' := recorded, conflicting;
    AnotherList(recorded, conflicting, lists);
    for k := 0 to |inputs|
      invariant Records(recorded', lists + [inputs[..k]])
      invariant ListsContested(conflicting', lists + [inputs[..k]])
    {
      ghost var sofar := lists + [inputs[..k]];
      var outpoint := inputs[k];
      assert Extend(sofar, outpoint) == lists + [inputs[..k + 1]] by {
        assert inputs[..k + 1] == inputs[..k] + [outpoint];
      }
      assert RecordsOf(recorded', sofar, outpoint);
      ExtendRecords(recorded', sofar, outpoint);
      assert conflicting' + [] == conflicting';
      var existing := outpoint in recorded';
      ExtendContested(recorded', conflicting', sofar, outpoint);
      if existing {
        conflicting' := conflicting' + [index];
      }
      var spending := if existing then recorded'[outpoint] + [index] else [index];
      recorded' := recorded'[outpoint := spending];
    }
    assert inputs[..|inputs|] == inputs;
  }

  /** Add the positions of the lists that hold one of the outpoints a confirmed transaction spends. */
  method Invalidate(outpoints: seq<Outpoint>, recorded: map<Outpoint, seq<nat>>, invalid: seq<nat>,
                    ghost lists: seq<seq<Outpoint>>)
    returns (invalid': seq<nat>)
    requires Records(recorded, lists)
    ensures forall i: nat :: i in invalid' <==> i in invalid || (i < |lists| && Overlap(outpoints, lists[i]))
  {
    invalid' := invalid;
    for k := 0 to |outpoints|
      invariant forall i: nat :: i in invalid' <==> i in invalid || (i < |lists| && Overlap(outpoints[..k], lists[i]))
    {
      var outpoint := outpoints[k];
      assert outpoints[..k + 1] == outpoints[..k] + [outpoint];
      assert RecordsOf(recorded, lists, outpoint);
      ghost var before := invalid';
      if outpoint in recorded {
        var owners := recorded[outpoint];
        for m := 0 to |owners|
          invariant invalid' == before + owners[..m]
        {
          invalid' := invalid' + [owners[m]];
        }
        assert owners[..|owners|] == owners;
      }
      forall i: nat
        ensures i in invalid' <==> i in invalid || (i < |lists| && Overlap(outpoints[..k + 1], lists[i]))
      {
        if i < |lists| {
          PrefixOverlap(outpoints[..k], lists[i], outpoint);
        }
      }
    }
    assert outpoints[..|outpoints|] == outpoints;
  }

  lemma PrefixOverlap(a: seq<Outpoint>, b: seq<Outpoint>, outpoint: Outpoint)
    ensures Overlap(a + [outpoint], b) <==> Overlap(a, b) || outpoint in b
  {
    if Overlap(a, b) {
      var o :| o in a && o in b;
      assert o in a + [outpoint];
    }
    if outpoint in b {
      assert outpoint in a + [outpoint];
    }
  }

  lemma AnotherTransaction(transactions: seq<Transaction>, tx: Transaction, inputs: seq<Outpoint>)
    ensures IsInvalid(transactions + [tx], inputs) <==>
            || IsInvalid(transactions, inputs)
            || (tx.isConfirmed && tx.inputs.Some? && Overlap(tx.inputs.value, inputs))
  {
    var next := transactions + [tx];
    if IsInvalid(transactions, inputs) {
      var other :| other in transactions && other.isConfirmed && other.inputs.Some? &&
                   Overlap(other.inputs.value, inputs);
      assert other in next;
    }
    assert tx in next;
  }

  /** The positions of the lists that share an outpoint with a confirmed transaction. */
  method CollectInvalid(transactions: seq<Transaction>, recorded: map<Outpoint, seq<nat>>,
                        ghost lists: seq<seq<Outpoint>>)
    returns (invalid: seq<nat>)
    requires Records(recorded, lists)
    ensures forall i: nat :: i in invalid <==> i < |lists| && IsInvalid(transactions, lists[i])
  {
    invalid := [];
    for t := 0 to |transactions|
      invariant forall i: nat :: i in invalid <==> i < |lists| && IsInvalid(transactions[..t], lists[i])
    {
      var tx := transactions[t];
      ghost var before := invalid;
      assert transactions[..t + 1] == transactions[..t] + [tx];
      if tx.isConfirmed && tx.inputs.Some? {
        invalid := Invalidate(tx.inputs.value, recorded, invalid, lists);
      }
      forall i: nat
        ensures i in invalid <==> i < |lists| && IsInvalid(transactions[..t + 1], lists[i])
      {
        if i < |lists| {
          AnotherTransaction(transactions[..t], tx, lists[i]);
        }
      }
    }
    assert transactions[..|transactions|] == transactions;
  }

  function Excluding(indices: seq<nat>, others: seq<nat>): (r: seq<nat>)
    ensures forall i :: i in r <==> i in indices && i !in others
    ensures Distinct(indices) ==> Distinct(r)
  {
    if indices == [] then []
    else (if indices[0] in others then [] else [indices[0]]) + Excluding(indices[1..], others)
  }

  function TokensAt(utxos: seq<Utxo>, indices: seq<nat>): seq<int>
    requires forall k :: 0 <= k < |indices| ==> indices[k] < |utxos|
  {
    if indices == [] then [] else [utxos[indices[0]].tokens] + TokensAt(utxos, indices[1..])
  }

  /**
   * Both totals sum the tokens at the indices the definitions give. The indices are positions among the
   * unconfirmed outputs, but the tokens are looked up in the whole list.
   */
  method GetConflictingBalances(transactions: seq<Transaction>, utxos: seq<Utxo>)
    returns (conflictingBalance: int, invalidBalance: int)
    ensures conflictingBalance == Total(utxos, ConflictingIndices(transactions, utxos))
    ensures invalidBalance == Total(utxos, InvalidIndices(transactions, utxos))
  {
    var pending := Unconfirmed(utxos);
    ghost var lists := InputLists(transactions, pending);
    var conflicting: seq<nat> := [];
    var recorded: map<Outpoint, seq<nat>> := map[];
    for i := 0 to |pending|
      invariant Records(recorded, lists[..i])
      invariant ListsContested(conflicting, lists[..i])
    {
      assert lists[..i + 1] == lists[..i] + [lists[i]];
      recorded, conflicting := Register(i, InputsOf(transactions, pending[i]), recorded, conflicting, lists[..i]);
    }
    assert lists[..|pending|] == lists;
    var invalid := CollectInvalid(transactions, recorded, lists);
    var conflictingIndices, invalidIndices := Excluding(Uniq(conflicting), invalid), Uniq(invalid);
    InRange(utxos, conflictingIndices, ConflictingIndices(transactions, utxos));
    InRange(utxos, invalidIndices, InvalidIndices(transactions, utxos));
    conflictingBalance := SumOf(TokensAt(utxos, conflictingIndices));
    invalidBalance := SumOf(TokensAt(utxos, invalidIndices));
  }

  // ----- summing over a list of indices -----

  lemma {:induction false} TotalWithout(utxos: seq<Utxo>, indices: set<nat>, x: nat, n: nat)
    requires n <= |utxos| && x in indices
    ensures TotalUpTo(utxos, indices, n) ==
            TotalUpTo(utxos, indices - {x}, n) + if x < n then utxos[x].tokens else 0
  {
    if n > 0 {
      TotalWithout(utxos, indices, x, n - 1);
    }
  }

  lemma {:induction false} TotalOfNone(utxos: seq<Utxo>, n: nat)
    requires n <= |utxos|
    ensures TotalUpTo(utxos, {}, n) == 0
  {
    if n > 0 {
      TotalOfNone(utxos, n - 1);
    }
  }

  lemma InRange(utxos: seq<Utxo>, list: seq<nat>, indices: set<nat>)
    requires Distinct(list)
    requires forall i: nat :: i in list <==> i in indices
    requires forall i :: i in indices ==> i < |utxos|
    ensures forall k :: 0 <= k < |list| ==> list[k] < |utxos|
    ensures SumOf(TokensAt(utxos, list)) == Total(utxos, indices)
  {
    assert forall k :: 0 <= k < |list| ==> list[k] in indices;
    ListTotal(utxos, list, indices);
  }

  /** Summing a duplicate-free list of indices gives the total at those indices. */
  lemma {:induction false} ListTotal(utxos: seq<Utxo>, list: seq<nat>, indices: set<nat>)
    requires Distinct(list)
    requires forall i: nat :: i in list <==> i in indices
    requires forall k :: 0 <= k < |list| ==> list[k] < |utxos|
    ensures SumOf(TokensAt(utxos, list)) == Total(utxos, indices)
  {
    if list == [] {
      assert indices == {};
      TotalOfNone(utxos, |utxos|);
    } else {
      var x, rest := list[0], list[1..];
      assert x !in rest;
      forall i: nat
        ensures i in rest <==> i in indices - {x}
      {
        assert list == [x] + rest;
      }
      ListTotal(utxos, rest, indices - {x});
      TotalWithout(utxos, indices, x, |utxos|);
      assert TokensAt(utxos, list)[1..] == TokensAt(utxos, rest);
    }
  }

  // ----- the two index sets together -----

  /** The n indices below a bound. */
  function Below(n: nat): (r: set<nat>)
    ensures forall i: nat :: i in r <==> i < n
  {
    if n == 0 then {} else Below(n - 1) + {n - 1}
  }

  lemma {:induction false} TotalOfUnion(utxos: seq<Utxo>, a: set<nat>, b: set<nat>, n: nat)
    requires a !! b && n <= |utxos|
    ensures TotalUpTo(utxos, a, n) + TotalUpTo(utxos, b, n) == TotalUpTo(utxos, a + b, n)
  {
    if n > 0 {
      TotalOfUnion(utxos, a, b, n - 1);
    }
  }

  lemma {:induction false} TotalOfSubset(utxos: seq<Utxo>, a: set<nat>, b: set<nat>, n: nat)
    requires a <= b && n <= |utxos|
    requires forall i :: 0 <= i < |utxos| ==> utxos[i].tokens >= 0
    ensures 0 <= TotalUpTo(utxos, a, n) <= TotalUpTo(utxos, b, n)
  {
    if n > 0 {
      TotalOfSubset(utxos, a, b, n - 1);
    }
  }

  /** No output is counted in both totals, so together they never exceed what all outputs hold. */
  lemma TotalsFitInAll(transactions: seq<Transaction>, utxos: seq<Utxo>)
    ensures ConflictingIndices(transactions, utxos) !! InvalidIndices(transactions, utxos)
    ensures ConflictingIndices(transactions, utxos) + InvalidIndices(transactions, utxos) <= Below(|utxos|)
    ensures (forall i :: 0 <= i < |utxos| ==> utxos[i].tokens >= 0) ==>
              Total(utxos, ConflictingIndices(transactions, utxos)) + Total(utxos, InvalidIndices(transactions, utxos))
              <= Total(utxos, Below(|utxos|))
  {
    var conflicting, invalid := ConflictingIndices(transactions, utxos), InvalidIndices(transactions, utxos);
    TotalOfUnion(utxos, conflicting, invalid, |utxos|);
    if forall i :: 0 <= i < |utxos| ==> utxos[i].tokens >= 0 {
      TotalOfSubset(utxos, conflicting + invalid, Below(|utxos|), |utxos|);
    }
  }

  // ----- the order of the transactions -----

  ghost predicate UniqueIds(transactions: seq<Transaction>) {
    forall a, b :: a in transactions && b in transactions && a.id == b.id ==> a == b
  }

  ghost predicate SameElements(a: seq<Transaction>, b: seq<Transaction>) {
    forall tx :: tx in a <==> tx in b
  }

  lemma {:induction false} FindFacts(transactions: seq<Transaction>, id: string)
    ensures match FindTransaction(transactions, id)
            case Some(tx) => tx in transactions && tx.id == id
            case None => forall tx :: tx in transactions ==> tx.id != id
  {
    if transactions != [] {
      FindFacts(transactions[1..], id);
      assert transactions == [transactions[0]] + transactions[1..];
    }
  }

  lemma FindIgnoresOrder(a: seq<Transaction>, b: seq<Transaction>, id: string)
    requires UniqueIds(a) && SameElements(a, b)
    ensures FindTransaction(a, id) == FindTransaction(b, id)
  {
    FindFacts(a, id);
    FindFacts(b, id);
  }

  /** With one transaction for each id, neither index set depends on the order of the transactions. */
  lemma IndicesIgnoreOrder(a: seq<Transaction>, b: seq<Transaction>, utxos: seq<Utxo>)
    requires UniqueIds(a) && SameElements(a, b)
    ensures InvalidIndices(a, utxos) == InvalidIndices(b, utxos)
    ensures ConflictingIndices(a, utxos) == ConflictingIndices(b, utxos)
  {
    var pending := Unconfirmed(utxos);
    var inA, inB := InputLists(a, pending), InputLists(b, pending);
    forall i | 0 <= i < |pending|
      ensures inA[i] == inB[i]
    {
      FindIgnoresOrder(a, b, pending[i].transactionId);
    }
    assert inA == inB;
    forall inputs
      ensures IsInvalid(a, inputs) <==> IsInvalid(b, inputs)
    {
      InvalidIn(a, b, inputs);
      InvalidIn(b, a, inputs);
    }
  }

  lemma InvalidIn(a: seq<Transaction>, b: seq<Transaction>, inputs: seq<Outpoint>)
    requires SameElements(a, b)
    ensures IsInvalid(a, inputs) ==> IsInvalid(b, inputs)
  {
    if IsInvalid(a, inputs) {
      var tx :| tx in a && tx.isConfirmed && tx.inputs.Some? && Overlap(tx.inputs.value, inputs);
      assert tx in b;
    }
  }

  /** Two unconfirmed outputs of one transaction that has inputs: the later one always counts as conflicting. */
  lemma SiblingOutputsConflict(transactions: seq<Transaction>, utxos: seq<Utxo>, i: nat, j: nat)
    requires i < j < |Unconfirmed(utxos)|
    requires Unconfirmed(utxos)[i].transactionId == Unconfirmed(utxos)[j].transactionId
    requires InputsOf(transactions, Unconfirmed(utxos)[j]) != []
    ensures j in ConflictingIndices(transactions, utxos) + InvalidIndices(transactions, utxos)
  {
    var lists := InputLists(transactions, Unconfirmed(utxos));
    assert lists[i] == lists[j];
    assert lists[j][0] in lists[i];
    assert Overlap(lists[i], lists[j]);
  }

  /** The output shares an outpoint with an earlier unconfirmed output of a different transaction. */
  predicate SharesWithOther(transactions: seq<Transaction>, pending: seq<Utxo>, j: nat)
    requires j < |pending|
  {
    exists i :: 0 <= i < j && pending[i].transactionId != pending[j].transactionId &&
                Overlap(InputsOf(transactions, pending[i]), InputsOf(transactions, pending[j]))
  }

  predicate HasEarlierSibling(pending: seq<Utxo>, j: nat)
    requires j < |pending|
  {
    exists i :: 0 <= i < j && pending[i].transactionId == pending[j].transactionId
  }

  /** Being flagged as conflicting means sharing an outpoint with another transaction, and not being invalid. */
  predicate FlagMeansOther(transactions: seq<Transaction>, utxos: seq<Utxo>, j: nat)
    requires j < |Unconfirmed(utxos)|
  {
    var pending := Unconfirmed(utxos);
    j in ConflictingIndices(transactions, utxos) <==>
    !IsInvalid(transactions, InputsOf(transactions, pending[j])) && SharesWithOther(transactions, pending, j)
  }

  /** An earlier output contests a later one as a sibling that has inputs, or as one of another transaction. */
  lemma ContestedParts(transactions: seq<Transaction>, pending: seq<Utxo>, j: nat)
    requires j < |pending|
    ensures var lists := InputLists(transactions, pending);
            IsContested(lists, j) <==>
            || Repeats(lists[j])
            || SharesWithOther(transactions, pending, j)
            || (HasEarlierSibling(pending, j) && lists[j] != [])
  {
    var lists := InputLists(transactions, pending);
    forall i | 0 <= i < j && pending[i].transactionId == pending[j].transactionId
      ensures Overlap(lists[i], lists[j]) <==> lists[j] != []
    {
      assert lists[i] == lists[j];
      if lists[j] != [] {
        assert lists[j][0] in lists[j];
      }
    }
    assert forall i :: 0 <= i < j ==> lists[i] == InputsOf(transactions, pending[i]);
  }

  /**
   * The flag of an unconfirmed output means a conflict with another transaction exactly when the output is
   * invalid, or does share with another one, or has neither a repeated input nor an earlier sibling to be
   * mistaken for one.
   */
  lemma FlagMeansOtherIff(transactions: seq<Transaction>, utxos: seq<Utxo>, j: nat)
    requires j < |Unconfirmed(utxos)|
    ensures var pending := Unconfirmed(utxos);
            var inputs := InputsOf(transactions, pending[j]);
            FlagMeansOther(transactions, utxos, j) <==>
            || IsInvalid(transactions, inputs)
            || SharesWithOther(transactions, pending, j)
            || (!Repeats(inputs) && (!HasEarlierSibling(pending, j) || inputs == []))
  {
    ContestedParts(transactions, Unconfirmed(utxos), j);
  }

  // ----- the index sets, stated on the transactions -----

  /** The k-th transaction is the first one with an id. */
  predicate IsFirstWith(transactions: seq<Transaction>, k: int, id: string) {
    && 0 <= k < |transactions| && transactions[k].id == id
    && forall j :: 0 <= j < k ==> transactions[j].id != id
  }

  /** Both transactions are known, and spend some outpoint both. */
  predicate SpendTheSame(a: Transaction, b: Transaction) {
    a.inputs.Some? && b.inputs.Some? && exists outpoint :: outpoint in a.inputs.value && outpoint in b.inputs.value
  }

  predicate SpendsTwice(tx: Transaction) {
    tx.inputs.Some? && exists m, n :: 0 <= m < n < |tx.inputs.value| && tx.inputs.value[m] == tx.inputs.value[n]
  }

  lemma {:induction false} FoundIsFirst(transactions: seq<Transaction>, id: string)
    ensures match FindTransaction(transactions, id)
            case Some(tx) => exists k :: IsFirstWith(transactions, k, id) && transactions[k] == tx
            case None => forall k :: 0 <= k < |transactions| ==> transactions[k].id != id
  {
    if transactions == [] {
    } else if transactions[0].id == id {
      assert IsFirstWith(transactions, 0, id);
    } else {
      var rest := transactions[1..];
      FoundIsFirst(rest, id);
      assert forall j :: 0 < j < |transactions| ==> transactions[j] == rest[j - 1];
      if FindTransaction(rest, id).Some? {
        var k :| IsFirstWith(rest, k, id) && rest[k] == FindTransaction(rest, id).value;
        assert IsFirstWith(transactions, k + 1, id);
      }
    }
  }

  /** What an output spends is all that the first transaction with its id spends, when that is known. */
  lemma InputsAre(transactions: seq<Transaction>, utxo: Utxo)
    ensures forall o :: o in InputsOf(transactions, utxo) <==>
              exists k :: IsFirstWith(transactions, k, utxo.transactionId) &&
                          transactions[k].inputs.Some? && o in transactions[k].inputs.value
    ensures forall k :: IsFirstWith(transactions, k, utxo.transactionId) && transactions[k].inputs.Some? ==>
              InputsOf(transactions, utxo) == transactions[k].inputs.value
  {
    var id := utxo.transactionId;
    FoundIsFirst(transactions, id);
    if FindTransaction(transactions, id).Some? {
      var k :| IsFirstWith(transactions, k, id) && transactions[k] == FindTransaction(transactions, id).value;
      forall j | IsFirstWith(transactions, j, id)
        ensures j == k
      {
      }
    }
  }

  /**
   * An unconfirmed output is invalid exactly when its transaction, the first one with its id, and some confirmed
   * transaction spend the same outpoint.
   */
  lemma InvalidIff(transactions: seq<Transaction>, utxos: seq<Utxo>, j: nat)
    requires j < |Unconfirmed(utxos)|
    ensures j in InvalidIndices(transactions, utxos) <==>
            exists k, other :: IsFirstWith(transactions, k, Unconfirmed(utxos)[j].transactionId) &&
                               other in transactions && other.isConfirmed && SpendTheSame(transactions[k], other)
  {
    var utxo := Unconfirmed(utxos)[j];
    var inputs := InputsOf(transactions, utxo);
    InputsAre(transactions, utxo);
    if IsInvalid(transactions, inputs) {
      var other :| other in transactions && other.isConfirmed && other.inputs.Some?
                   && Overlap(other.inputs.value, inputs);
      var o :| o in other.inputs.value && o in inputs;
      var k :| IsFirstWith(transactions, k, utxo.transactionId) &&
               transactions[k].inputs.Some? && o in transactions[k].inputs.value;
      assert SpendTheSame(transactions[k], other);
    }
    if k, other :| IsFirstWith(transactions, k, utxo.transactionId) &&
                   other in transactions && other.isConfirmed && SpendTheSame(transactions[k], other) {
      var o :| o in transactions[k].inputs.value && o in other.inputs.value;
      assert o in inputs;
      assert Overlap(other.inputs.value, inputs);
    }
  }

  /** The transaction of the j-th unconfirmed output spends an outpoint twice, or one that an earlier one spends. */
  ghost predicate IsDoubleSpend(transactions: seq<Transaction>, pending: seq<Utxo>, j: nat)
    requires j < |pending|
  {
    exists k :: IsFirstWith(transactions, k, pending[j].transactionId) &&
                (SpendsTwice(transactions[k]) || SharesWithEarlier(transactions, pending, j, k))
  }

  ghost predicate SharesWithEarlier(transactions: seq<Transaction>, pending: seq<Utxo>, j: nat, k: int)
    requires j < |pending| && 0 <= k < |transactions|
  {
    exists i, m :: 0 <= i < j && IsFirstWith(transactions, m, pending[i].transactionId) &&
                   SpendTheSame(transactions[m], transactions[k])
  }

  lemma RepeatsIff(inputs: seq<Outpoint>)
    ensures Repeats(inputs) <==> exists m, n :: 0 <= m < n < |inputs| && inputs[m] == inputs[n]
  {
    if Repeats(inputs) {
      var k :| 0 <= k < |inputs| && inputs[k] in inputs[..k];
      var m :| 0 <= m < k && inputs[..k][m] == inputs[k];
      assert inputs[m] == inputs[k];
    }
    if m, n :| 0 <= m < n < |inputs| && inputs[m] == inputs[n] {
      assert inputs[..n][m] == inputs[n];
    }
  }

  lemma OverlapIff(transactions: seq<Transaction>, a: Utxo, b: Utxo)
    ensures Overlap(InputsOf(transactions, a), InputsOf(transactions, b)) <==>
            exists m, k :: IsFirstWith(transactions, m, a.transactionId) &&
                           IsFirstWith(transactions, k, b.transactionId) &&
                           SpendTheSame(transactions[m], transactions[k])
  {
    var x, y := InputsOf(transactions, a), InputsOf(transactions, b);
    InputsAre(transactions, a);
    InputsAre(transactions, b);
    if Overlap(x, y) {
      var o :| o in x && o in y;
      var m :| IsFirstWith(transactions, m, a.transactionId) &&
               transactions[m].inputs.Some? && o in transactions[m].inputs.value;
      var k :| IsFirstWith(transactions, k, b.transactionId) &&
               transactions[k].inputs.Some? && o in transactions[k].inputs.value;
      assert SpendTheSame(transactions[m], transactions[k]);
    }
    if m, k :| IsFirstWith(transactions, m, a.transactionId) && IsFirstWith(transactions, k, b.transactionId) &&
               SpendTheSame(transactions[m], transactions[k]) {
      var o :| o in transactions[m].inputs.value && o in transactions[k].inputs.value;
      assert o in x && o in y;
    }
  }

  lemma ContestedIff(transactions: seq<Transaction>, pending: seq<Utxo>, j: nat)
    requires j < |pending|
    ensures IsContested(InputLists(transactions, pending), j) <==> IsDoubleSpend(transactions, pending, j)
  {
    var lists := InputLists(transactions, pending);
    var id := pending[j].transactionId;
    InputsAre(transactions, pending[j]);
    RepeatsIff(lists[j]);
    if Repeats(lists[j]) {
      assert lists[j][0] in lists[j];
      var k :| IsFirstWith(transactions, k, id) && transactions[k].inputs.Some? &&
               lists[j][0] in transactions[k].inputs.value;
      assert SpendsTwice(transactions[k]);
    }
    if i :| 0 <= i < j && Overlap(lists[i], lists[j]) {
      OverlapIff(transactions, pending[i], pending[j]);
      var m, k :| IsFirstWith(transactions, m, pending[i].transactionId) && IsFirstWith(transactions, k, id) &&
                  SpendTheSame(transactions[m], transactions[k]);
      assert SharesWithEarlier(transactions, pending, j, k);
    }
    if k :| IsFirstWith(transactions, k, id) && SharesWithEarlier(transactions, pending, j, k) {
      var i, m :| 0 <= i < j && IsFirstWith(transactions, m, pending[i].transactionId) &&
                  SpendTheSame(transactions[m], transactions[k]);
      OverlapIff(transactions, pending[i], pending[j]);
    }
  }

  /** An unconfirmed output is conflicting exactly when it is not invalid and its transaction is a double spend. */
  lemma ConflictingIff(transactions: seq<Transaction>, utxos: seq<Utxo>, j: nat)
    requires j < |Unconfirmed(utxos)|
    ensures j in ConflictingIndices(transactions, utxos) <==>
            j !in InvalidIndices(transactions, utxos) && IsDoubleSpend(transactions, Unconfirmed(utxos), j)
  {
    ContestedIff(transactions, Unconfirmed(utxos), j);
  }

  /** The unconfirmed outputs are those without confirmations, each once and in order. */
  lemma {:induction false} PendingAre(utxos: seq<Utxo>) returns (at: seq<nat>)
    ensures Selects(Unconfirmed(utxos), utxos, at)
    ensures forall i: nat :: i in at <==> i < |utxos| && utxos[i].confirmationCount == 0
  {
    at := [];
    if utxos != [] {
      var n := |utxos| - 1;
      at := PendingAre(utxos[..n]);
      SelectsMore(Unconfirmed(utxos[..n]), utxos[..n], at, utxos[n]);
      assert utxos == utxos[..n] + [utxos[n]];
      if utxos[n].confirmationCount == 0 {
        at := at + [n];
      } else {
        assert Unconfirmed(utxos) == Unconfirmed(utxos[..n]);
      }
    }
  }

  lemma {:induction false} TotalOfOne(utxos: seq<Utxo>, i: nat, n: nat)
    requires n <= |utxos|
    ensures TotalUpTo(utxos, {i}, n) == if i < n then utxos[i].tokens else 0
  {
    if n > 0 {
      TotalOfOne(utxos, i, n - 1);
    }
  }

  /** The total of some indices is the tokens of one of them and the total of the others. */
  lemma TotalIsSum(utxos: seq<Utxo>, indices: set<nat>, i: nat)
    requires i in indices && i < |utxos|
    ensures Total(utxos, indices) == utxos[i].tokens + Total(utxos, indices - {i})
    ensures Total(utxos, {}) == 0
  {
    TotalOfOne(utxos, i, |utxos|);
    TotalOfUnion(utxos, {i}, indices - {i}, |utxos|);
    TotalOfNone(utxos, |utxos|);
    assert {i} + (indices - {i}) == indices;
  }

  // ----- positions among the unconfirmed outputs against positions in the whole list -----

  /** The same outputs with other amounts. */
  function WithTokens(utxos: seq<Utxo>, tokens: seq<int>): (r: seq<Utxo>)
    requires |tokens| == |utxos|
    ensures |r| == |utxos|
    ensures forall i :: 0 <= i < |r| ==> r[i] == utxos[i].(tokens := tokens[i])
  {
    if utxos == [] then []
    else
      var n := |utxos| - 1;
      WithTokens(utxos[..n], tokens[..n]) + [utxos[n].(tokens := tokens[n])]
  }

  /** Every output up to each of these positions is unconfirmed. */
  predicate LedByUnconfirmed(utxos: seq<Utxo>, indices: set<nat>) {
    forall i, j :: i in indices && 0 <= j <= i && j < |utxos| ==> utxos[j].confirmationCount == 0
  }

  /** The tokens looked up in the whole list are those of the unconfirmed outputs the indices mean. */
  ghost predicate MeansWhatItSums(transactions: seq<Transaction>, utxos: seq<Utxo>) {
    && Total(utxos, InvalidIndices(transactions, utxos)) ==
       Total(Unconfirmed(utxos), InvalidIndices(transactions, utxos))
    && Total(utxos, ConflictingIndices(transactions, utxos)) ==
       Total(Unconfirmed(utxos), ConflictingIndices(transactions, utxos))
  }

  lemma {:induction false} ShapeOfPending(utxos: seq<Utxo>, tokens: seq<int>)
    requires |tokens| == |utxos|
    ensures var pending, other := Unconfirmed(utxos), Unconfirmed(WithTokens(utxos, tokens));
            && |other| == |pending|
            && forall i :: 0 <= i < |pending| ==> other[i].transactionId == pending[i].transactionId
  {
    if utxos != [] {
      var n := |utxos| - 1;
      assert WithTokens(utxos, tokens)[..n] == WithTokens(utxos[..n], tokens[..n]);
      ShapeOfPending(utxos[..n], tokens[..n]);
    }
  }

  /** Which indices are flagged does not depend on the amounts. */
  lemma IndicesIgnoreTokens(transactions: seq<Transaction>, utxos: seq<Utxo>, tokens: seq<int>)
    requires |tokens| == |utxos|
    ensures InvalidIndices(transactions, WithTokens(utxos, tokens)) == InvalidIndices(transactions, utxos)
    ensures ConflictingIndices(transactions, WithTokens(utxos, tokens)) == ConflictingIndices(transactions, utxos)
  {
    ShapeOfPending(utxos, tokens);
    var pending, other := Unconfirmed(utxos), Unconfirmed(WithTokens(utxos, tokens));
    assert InputLists(transactions, other) == InputLists(transactions, pending);
  }

  lemma {:induction false} LeadingPending(utxos: seq<Utxo>, m: nat)
    requires m <= |utxos| && forall j :: 0 <= j < m ==> utxos[j].confirmationCount == 0
    ensures utxos[..m] <= Unconfirmed(utxos)
  {
    if utxos != [] {
      var n := |utxos| - 1;
      if m <= n {
        LeadingPending(utxos[..n], m);
        assert utxos[..n][..m] == utxos[..m];
      } else {
        LeadingPending(utxos[..n], n);
        assert utxos == utxos[..n] + [utxos[n]];
      }
    }
  }

  lemma {:induction false} TotalOfPrefix(a: seq<Utxo>, b: seq<Utxo>, indices: set<nat>, n: nat)
    requires n <= |a| && n <= |b| && a[..n] == b[..n]
    ensures TotalUpTo(a, indices, n) == TotalUpTo(b, indices, n)
  {
    if n > 0 {
      assert a[..n][n - 1] == b[..n][n - 1];
      assert a[..n - 1] == a[..n][..n - 1] == b[..n][..n - 1] == b[..n - 1];
      TotalOfPrefix(a, b, indices, n - 1);
    }
  }

  lemma {:induction false} TotalStops(utxos: seq<Utxo>, indices: set<nat>, m: nat, n: nat)
    requires m <= n <= |utxos| && forall i :: i in indices ==> i < m
    ensures TotalUpTo(utxos, indices, n) == TotalUpTo(utxos, indices, m)
  {
    if m < n {
      TotalStops(utxos, indices, m, n - 1);
    }
  }

  lemma {:induction false} Bound(indices: set<nat>, n: nat) returns (m: nat)
    requires forall i :: i in indices ==> i < n
    ensures m <= n && (forall i :: i in indices ==> i < m) && (m > 0 ==> m - 1 in indices)
  {
    if n == 0 || n - 1 in indices {
      m := n;
    } else {
      m := Bound(indices, n - 1);
    }
  }

  /** When only unconfirmed outputs precede the flagged positions, both lists give the same total. */
  lemma LedTotalsAgree(utxos: seq<Utxo>, indices: set<nat>)
    requires LedByUnconfirmed(utxos, indices)
    requires forall i :: i in indices ==> i < |Unconfirmed(utxos)|
    ensures Total(utxos, indices) == Total(Unconfirmed(utxos), indices)
  {
    var pending := Unconfirmed(utxos);
    var m := Bound(indices, |pending|);
    LeadingPending(utxos, m);
    assert pending[..m] == utxos[..m];
    TotalOfPrefix(utxos, pending, indices, m);
    TotalStops(utxos, indices, m, |utxos|);
    TotalStops(pending, indices, m, |pending|);
  }

  /** Amounts of one token at a position, and none elsewhere. */
  function OneAt(p: nat, n: nat): (r: seq<int>)
    ensures |r| == n
    ensures forall k :: 0 <= k < n ==> r[k] == if k == p then 1 else 0
  {
    if n == 0 then [] else OneAt(p, n - 1) + [if n - 1 == p then 1 else 0]
  }

  /** The same outputs with one token at a position, and none elsewhere. */
  function Marked(utxos: seq<Utxo>, p: nat): (r: seq<Utxo>)
    ensures |r| == |utxos|
  {
    if utxos == [] then []
    else
      var n := |utxos| - 1;
      Marked(utxos[..n], p) + [utxos[n].(tokens := if n == p then 1 else 0)]
  }

  lemma {:induction false} MarkedIsRetokened(utxos: seq<Utxo>, p: nat)
    ensures Marked(utxos, p) == WithTokens(utxos, OneAt(p, |utxos|))
  {
    if utxos != [] {
      MarkedIsRetokened(utxos[..|utxos| - 1], p);
    }
  }

  predicate OnlyAt(utxos: seq<Utxo>, i: nat) {
    forall k :: 0 <= k < |utxos| ==> utxos[k].tokens == if k == i then 1 else 0
  }

  /** Of the unconfirmed outputs, a token put at p is held by the i-th only. */
  predicate HeldBy(utxos: seq<Utxo>, p: nat, i: nat) {
    |Unconfirmed(Marked(utxos, p))| == |Unconfirmed(utxos)| && OnlyAt(Unconfirmed(Marked(utxos, p)), i)
  }

  lemma MarkedLast(utxos: seq<Utxo>, p: nat)
    requires utxos != []
    ensures var n := |utxos| - 1;
            Unconfirmed(Marked(utxos, p)) ==
            Unconfirmed(Marked(utxos[..n], p)) +
            if utxos[n].confirmationCount == 0 then [utxos[n].(tokens := if n == p then 1 else 0)] else []
  {
    var n := |utxos| - 1;
    assert Marked(utxos, p)[..n] == Marked(utxos[..n], p);
  }

  lemma {:induction false} NothingMarked(utxos: seq<Utxo>, p: nat, i: nat)
    requires |utxos| <= p && |Unconfirmed(utxos)| <= i
    ensures HeldBy(utxos, p, i)
  {
    if utxos != [] {
      NothingMarked(utxos[..|utxos| - 1], p, i);
      MarkedLast(utxos, p);
    }
  }

  lemma StillHeld(utxos: seq<Utxo>, p: nat, i: nat)
    requires utxos != [] && p < |utxos| - 1 && i < |Unconfirmed(utxos[..|utxos| - 1])|
    requires HeldBy(utxos[..|utxos| - 1], p, i)
    ensures HeldBy(utxos, p, i)
  {
    MarkedLast(utxos, p);
  }

  lemma OnlyAtLast(front: seq<Utxo>, last: Utxo)
    requires OnlyAt(front, |front|) && last.tokens == 1
    ensures OnlyAt(front + [last], |front|)
  {
  }

  lemma HeldByLast(utxos: seq<Utxo>)
    requires utxos != [] && utxos[|utxos| - 1].confirmationCount == 0
    ensures HeldBy(utxos, |utxos| - 1, |Unconfirmed(utxos)| - 1)
  {
    var n := |utxos| - 1;
    var front := Unconfirmed(Marked(utxos[..n], n));
    NothingMarked(utxos[..n], n, |Unconfirmed(utxos)| - 1);
    MarkedLast(utxos, n);
    OnlyAtLast(front, utxos[n].(tokens := 1));
  }

  /** The position in the whole list of an unconfirmed output. */
  lemma {:induction false} PositionOf(utxos: seq<Utxo>, i: nat) returns (p: nat)
    requires i < |Unconfirmed(utxos)|
    ensures i <= p < |utxos| && utxos[p].confirmationCount == 0 && |Unconfirmed(utxos[..p])| == i
    ensures HeldBy(utxos, p, i)
  {
    var n := |utxos| - 1;
    if i < |Unconfirmed(utxos[..n])| {
      p := PositionOf(utxos[..n], i);
      assert utxos[..n][..p] == utxos[..p];
      StillHeld(utxos, p, i);
    } else {
      p := n;
      HeldByLast(utxos);
      assert |Unconfirmed(utxos)| - 1 == i;
    }
  }

  lemma {:induction false} AllPending(utxos: seq<Utxo>)
    requires |Unconfirmed(utxos)| == |utxos|
    ensures forall j :: 0 <= j < |utxos| ==> utxos[j].confirmationCount == 0
  {
    if utxos != [] {
      AllPending(utxos[..|utxos| - 1]);
    }
  }

  lemma {:induction false} TotalOfMarked(utxos: seq<Utxo>, indices: set<nat>, p: nat, n: nat)
    requires n <= |utxos|
    requires OnlyAt(utxos, p)
    ensures TotalUpTo(utxos, indices, n) == if p < n && p in indices then 1 else 0
  {
    if n > 0 {
      TotalOfMarked(utxos, indices, p, n - 1);
    }
  }

  /** The last flagged output that a confirmed output precedes stands at a position that is not flagged. */
  lemma UnledPosition(utxos: seq<Utxo>, indices: set<nat>) returns (i: nat, p: nat)
    requires !LedByUnconfirmed(utxos, indices)
    requires forall i :: i in indices ==> i < |Unconfirmed(utxos)|
    ensures i in indices && p !in indices && i < |Unconfirmed(utxos)| && p < |utxos|
    ensures HeldBy(utxos, p, i)
  {
    var m := Bound(indices, |Unconfirmed(utxos)|);
    i := m - 1;
    p := PositionOf(utxos, i);
    if p == i {
      AllPending(utxos[..p]);
    }
  }

  /** A flagged position that a confirmed output precedes: amounts exist for which the totals differ. */
  lemma UnledTotalsDiffer(utxos: seq<Utxo>, indices: set<nat>) returns (tokens: seq<int>)
    requires !LedByUnconfirmed(utxos, indices)
    requires forall i :: i in indices ==> i < |Unconfirmed(utxos)|
    ensures |tokens| == |utxos|
    ensures var other := WithTokens(utxos, tokens);
            Total(other, indices) != Total(Unconfirmed(other), indices)
  {
    var i, p := UnledPosition(utxos, indices);
    tokens := OneAt(p, |utxos|);
    MarkedIsRetokened(utxos, p);
    TotalOfMarked(Marked(utxos, p), indices, p, |utxos|);
    TotalOfMarked(Unconfirmed(Marked(utxos, p)), indices, i, |Unconfirmed(utxos)|);
  }

  ghost predicate MeansWhatItSumsWith(transactions: seq<Transaction>, utxos: seq<Utxo>, tokens: seq<int>) {
    |tokens| == |utxos| ==> MeansWhatItSums(transactions, WithTokens(utxos, tokens))
  }

  /**
   * The totals are those of the outputs the indices mean, whatever the amounts, exactly when no confirmed
   * output comes at or before a flagged position.
   */
  lemma TotalsMeanIndicesIff(transactions: seq<Transaction>, utxos: seq<Utxo>)
    ensures (forall tokens :: MeansWhatItSumsWith(transactions, utxos, tokens)) <==>
            LedByUnconfirmed(utxos, InvalidIndices(transactions, utxos) + ConflictingIndices(transactions, utxos))
  {
    var invalid, conflicting := InvalidIndices(transactions, utxos), ConflictingIndices(transactions, utxos);
    if LedByUnconfirmed(utxos, invalid + conflicting) {
      forall tokens
        ensures MeansWhatItSumsWith(transactions, utxos, tokens)
      {
        if |tokens| == |utxos| {
          var other := WithTokens(utxos, tokens);
          IndicesIgnoreTokens(transactions, utxos, tokens);
          ShapeOfPending(utxos, tokens);
          LedTotalsAgree(other, invalid);
          LedTotalsAgree(other, conflicting);
        }
      }
    } else {
      var tokens;
      if LedByUnconfirmed(utxos, invalid) {
        tokens := UnledTotalsDiffer(utxos, conflicting);
      } else {
        tokens := UnledTotalsDiffer(utxos, invalid);
      }
      IndicesIgnoreTokens(transactions, utxos, tokens);
      assert !MeansWhatItSumsWith(transactions, utxos, tokens);
    }
  }

  /** Unconfirmed outputs before confirmed ones: both totals are the declared ones. */
  lemma UnconfirmedFirstSuffices(transactions: seq<Transaction>, utxos: seq<Utxo>)
    requires forall i, j :: 0 <= i < j < |utxos| && utxos[j].confirmationCount == 0 ==> utxos[i].confirmationCount == 0
    ensures MeansWhatItSums(transactions, utxos)
  {
    var pending := Unconfirmed(utxos);
    var indices := InvalidIndices(transactions, utxos) + ConflictingIndices(transactions, utxos);
    forall i, j | i in indices && 0 <= j <= i && j < |utxos|
      ensures utxos[j].confirmationCount == 0
    {
      var p := PositionOf(utxos, i);
    }
    LedTotalsAgree(utxos, InvalidIndices(transactions, utxos));
    LedTotalsAgree(utxos, ConflictingIndices(transactions, utxos));
  }

  /** A confirmed output listed first: the tokens of the wrong output are reported as invalid. */
  lemma ConfirmedFirstMisreports(a: string, b: string, outpoint: Outpoint)
    requires a != b
    ensures var transactions := [Transaction(a, true, Some([outpoint])), Transaction(b, false, Some([outpoint]))];
            var utxos := [Utxo(6, 100, a), Utxo(0, 5, b)];
            && Total(utxos, InvalidIndices(transactions, utxos)) == 100
            && Total(Unconfirmed(utxos), InvalidIndices(transactions, utxos)) == 5
  {
    var transactions := [Transaction(a, true, Some([outpoint])), Transaction(b, false, Some([outpoint]))];
    var utxos := [Utxo(6, 100, a), Utxo(0, 5, b)];
    assert utxos[..1][..0] == [];
    assert Unconfirmed(utxos[..1]) == [];
    assert Unconfirmed(utxos) == [utxos[1]];
    var pending := Unconfirmed(utxos);
    assert FindTransaction(transactions[1..], b) == Some(transactions[1]);
    assert InputsOf(transactions, pending[0]) == [outpoint];
    assert outpoint in [outpoint];
    assert transactions[0] in transactions && Overlap([outpoint], [outpoint]);
    assert InvalidIndices(transactions, utxos) == {0};
    assert TotalUpTo(utxos, {0}, 1) == 100;
    assert TotalUpTo(pending, {0}, 0) == 0;
  }
}
