/** Outputs and fees of a transaction that several members fund together. */
module FundingPsbt {
  import opened Wrappers
  import opened Sequences

  /** Scripts are hex strings; tokens are real, as a pair may split an odd amount. */
  datatype Utxo = Utxo(transactionId: string, transactionVout: nat, scriptPub: string, tokens: real)

  datatype Member = Member(change: Option<string>, funding: Option<seq<string>>, utxos: seq<Utxo>)

  datatype Output = Output(script: string, tokens: real)

  datatype Error = ExpectedCapacity | ExpectedChainFeeRate | UnsupportedOutputType

  // ----- transaction size, as in BIP 141, section "Transaction size calculations" -----

  /** A witness is the list of its item lengths. */
  type Witness = seq<nat>

  function VarIntSize(n: nat): nat {
    if n < 0xfd then 1 else if n <= 0xffff then 3 else if n <= 0xffff_ffff then 5 else 9
  }

  function SliceSize(n: nat): int {
    VarIntSize(n) + n
  }

  /** A spent outpoint and sequence with an empty input script. */
  const INPUT_SIZE := 41

  /** An output value and its script. */
  function OutputSize(script: string): int {
    8 + SliceSize(|script| / 2)
  }

  function StackSize(w: Witness): int {
    VarIntSize(|w|) + Sum(w, SliceSize)
  }

  function BaseSize(ins: seq<Witness>, outs: seq<string>): int {
    8 + VarIntSize(|ins|) + VarIntSize(|outs|) + INPUT_SIZE * |ins| + Sum(outs, OutputSize)
  }

  /** The marker, the flag and the witnesses, once any input has a witness. */
  function WitnessSize(ins: seq<Witness>): int {
    if exists w :: w in ins && w != [] then 2 + Sum(ins, StackSize) else 0
  }

  function VirtualSize(ins: seq<Witness>, outs: seq<string>): int {
    (4 * BaseSize(ins, outs) + WitnessSize(ins) + 3) / 4
  }

  /** The size does not depend on the order of the inputs or of the outputs. */
  lemma SizeIgnoresOrder(ins: seq<Witness>, ins': seq<Witness>, outs: seq<string>, outs': seq<string>)
    requires multiset(ins) == multiset(ins') && multiset(outs) == multiset(outs')
    ensures VirtualSize(ins, outs) == VirtualSize(ins', outs')
  {
    assert |ins| == |multiset(ins)| == |ins'| && |outs| == |multiset(outs)| == |outs'|;
    SumPermutation(outs, outs', OutputSize);
    SumPermutation(ins, ins', StackSize);
    assert forall w :: w in ins <==> w in multiset(ins);
    assert forall w :: w in ins' <==> w in multiset(ins');
  }

  // ----- what each member adds -----

  predicate IsP2tr(script: string) {
    "5120" <= script && |script| == 68
  }

  predicate IsP2wpkh(script: string) {
    "0014" <= script && |script| == 44
  }

  predicate Supported(utxo: Utxo) {
    IsP2wpkh(utxo.scriptPub) || IsP2tr(utxo.scriptPub)
  }

  /** The lengths of the dummy public key and signature, or of the dummy Schnorr signature. */
  function DummyWitness(utxo: Utxo): Witness {
    if IsP2wpkh(utxo.scriptPub) then [33, 74] else [64]
  }

  function NotEmpty(scripts: seq<string>): seq<string> {
    if scripts == [] then []
    else (if scripts[0] == "" then [] else [scripts[0]]) + NotEmpty(scripts[1..])
  }

  function Listed(change: Option<string>): seq<string> {
    if change.Some? then [change.value] else []
  }

  function FundingScripts(member: Member): seq<string> {
    if member.funding.Some? then member.funding.value else []
  }

  /** The scripts a member adds to the measured transaction: the change first. */
  function MemberOuts(member: Member): seq<string> {
    NotEmpty(Listed(member.change) + FundingScripts(member))
  }

  function MemberIns(utxos: seq<Utxo>): seq<Witness> {
    if utxos == [] then [] else MemberIns(utxos[..|utxos| - 1]) + [DummyWitness(utxos[|utxos| - 1])]
  }

  /** A member without a funding list still counts as one output of capacity. */
  function FundingCount(member: Member): nat {
    if member.funding.Some? then |member.funding.value| else 1
  }

  function TokensOf(utxo: Utxo): real {
    utxo.tokens
  }

  function Funded(member: Member): real {
    RealSum(member.utxos, TokensOf)
  }

  /** What all members share: their number, the wrapper share, the channel capacity and the fee rate. */
  datatype Terms = Terms(count: nat, share: int, capacity: real, rate: real)

  /** A pair splits its outputs. */
  function Halved(funds: real, count: nat): real {
    if count == 2 then funds / 2.0 else funds
  }

  function Committed(member: Member, t: Terms): real {
    Halved(t.capacity * FundingCount(member) as real, t.count)
  }

  function PairSize(member: Member, count: nat): real {
    (if member.funding.None? then 43.0 else 0.0) - (if count == 2 then 21.5 else 0.0)
  }

  /** The dummy transaction after the first members. */
  function TxIns(members: seq<Member>): seq<Witness> {
    if members == [] then [] else TxIns(members[..|members| - 1]) + MemberIns(members[|members| - 1].utxos)
  }

  function TxOuts(members: seq<Member>): seq<string> {
    if members == [] then [] else TxOuts(members[..|members| - 1]) + MemberOuts(members[|members| - 1])
  }

  function SizeOf(members: seq<Member>): int {
    VirtualSize(TxIns(members), TxOuts(members))
  }

  /** Members split the cost of the wrapper bytes, rounding up. */
  function Share(size: int, count: nat): int
    requires count > 0
  {
    Ceil(size as real / count as real)
  }

  function TermsOf(members: seq<Member>, capacity: real, rate: real): Terms
    requires members != []
  {
    Terms(|members|, Share(SizeOf([]), |members|), capacity, rate)
  }

  /** The fee for added virtual bytes, corrected for a pair that shares one output. */
  function Fee(vbytes: int, pairFeeAddition: real, rate: real): int {
    Ceil(vbytes as real * rate + pairFeeAddition * rate)
  }

  /** What the last of the members so far added to the size, and its share of the wrapper. */
  function AddedBytes(members: seq<Member>, t: Terms): int
    requires members != []
  {
    SizeOf(members) - SizeOf(members[..|members| - 1]) + t.share
  }

  /** The fee of the last of the members so far. */
  function FeeOfLast(members: seq<Member>, t: Terms): int
    requires members != []
  {
    Fee(AddedBytes(members, t), PairSize(members[|members| - 1], t.count), t.rate)
  }

  function Capacities(scripts: seq<string>, capacity: real): seq<Output> {
    if scripts == [] then [] else [Output(scripts[0], capacity)] + Capacities(scripts[1..], capacity)
  }

  function ChangeTokens(member: Member, fee: int, t: Terms): real {
    Funded(member) - Committed(member, t) - fee as real
  }

  /** The outputs of a member that pays the fee; an absent change script is an empty one. */
  function MemberOutputs(member: Member, fee: int, t: Terms): seq<Output> {
    Capacities(FundingScripts(member), t.capacity) +
    [Output(if member.change.Some? then member.change.value else "", ChangeTokens(member, fee, t))]
  }

  function OutputsOfLast(members: seq<Member>, t: Terms): seq<Output>
    requires members != []
  {
    MemberOutputs(members[|members| - 1], FeeOfLast(members, t), t)
  }

  function AllOutputs(members: seq<Member>, t: Terms): seq<Output> {
    if members == [] then []
    else AllOutputs(members[..|members| - 1], t) + OutputsOfLast(members, t)
  }

  function WithScript(outputs: seq<Output>): seq<Output> {
    if outputs == [] then []
    else (if outputs[0].script == "" then [] else [outputs[0]]) + WithScript(outputs[1..])
  }

  lemma {:induction false} WithScriptAppend(a: seq<Output>, b: seq<Output>)
    ensures WithScript(a + b) == WithScript(a) + WithScript(b)
  {
    if a == [] {
      assert a + b == b;
    } else {
      assert (a + b)[1..] == a[1..] + b;
      WithScriptAppend(a[1..], b);
    }
  }

  // ----- ordering by random keys -----

  datatype Keyed<T> = Keyed(value: T, sort: real)

  function SortOf<T>(k: Keyed<T>): real {
    k.sort
  }

  /** Attach one random draw to each value, counting draws from n. */
  function Attach<T>(values: seq<T>, draws: nat -> real, n: nat): seq<Keyed<T>> {
    if values == [] then [] else [Keyed(values[0], draws(n))] + Attach(values[1..], draws, n + 1)
  }

  function Detach<T>(keyed: seq<Keyed<T>>): seq<T> {
    if keyed == [] then [] else [keyed[0].value] + Detach(keyed[1..])
  }

  /** Reorder by one random key for each value. */
  function Reorder<T>(values: seq<T>, draws: nat -> real): seq<T> {
    Detach(Sort(Attach(values, draws, 0), SortOf))
  }

  lemma {:induction false} DetachAttach<T>(values: seq<T>, draws: nat -> real, n: nat)
    ensures Detach(Attach(values, draws, n)) == values
  {
    if values != [] {
      DetachAttach(values[1..], draws, n + 1);
      assert Attach(values, draws, n)[1..] == Attach(values[1..], draws, n + 1);
    }
  }

  lemma {:induction false} InsertKeepsValues<T>(x: Keyed<T>, s: seq<Keyed<T>>)
    ensures multiset(Detach(Insert(x, s, SortOf))) == multiset{x.value} + multiset(Detach(s))
  {
    if s == [] || SortOf(x) <= SortOf(s[0]) {
      assert ([x] + s)[1..] == s;
    } else {
      InsertKeepsValues(x, s[1..]);
      var rest := Insert(x, s[1..], SortOf);
      assert ([s[0]] + rest)[1..] == rest;
    }
  }

  lemma {:induction false} SortKeepsValues<T>(s: seq<Keyed<T>>)
    ensures multiset(Detach(Sort(s, SortOf))) == multiset(Detach(s))
  {
    if s != [] {
      SortKeepsValues(s[1..]);
      InsertKeepsValues(s[0], Sort(s[1..], SortOf));
    }
  }

  /** The reordering is a permutation, whatever the draws. */
  lemma ReorderPermutes<T>(values: seq<T>, draws: nat -> real)
    ensures multiset(Reorder(values, draws)) == multiset(values)
  {
    SortKeepsValues(Attach(values, draws, 0));
    DetachAttach(values, draws, 0);
  }

  lemma {:induction false} AttachAt<T>(values: seq<T>, draws: nat -> real, n: nat)
    ensures |Attach(values, draws, n)| == |values|
    ensures forall i :: 0 <= i < |values| ==> Attach(values, draws, n)[i] == Keyed(values[i], draws(n + i))
  {
    if values != [] {
      AttachAt(values[1..], draws, n + 1);
    }
  }

  lemma {:induction false} DetachAt<T>(keyed: seq<Keyed<T>>)
    ensures |Detach(keyed)| == |keyed|
    ensures forall i :: 0 <= i < |keyed| ==> Detach(keyed)[i] == keyed[i].value
  {
    if keyed != [] {
      DetachAt(keyed[1..]);
    }
  }

  /** The order follows the draws: with the i-th value goes the i-th draw, and the draws of the result ascend. */
  lemma ReorderFollowsDraws<T>(values: seq<T>, draws: nat -> real) returns (keyed: seq<Keyed<T>>)
    ensures |keyed| == |values| == |Reorder(values, draws)|
    ensures |Attach(values, draws, 0)| == |values| && multiset(keyed) == multiset(Attach(values, draws, 0))
    ensures forall i :: 0 <= i < |values| ==> Attach(values, draws, 0)[i] == Keyed(values[i], draws(i))
    ensures forall i :: 0 <= i < |keyed| ==> Reorder(values, draws)[i] == keyed[i].value
    ensures forall i, j :: 0 <= i < j < |keyed| ==> keyed[i].sort <= keyed[j].sort
  {
    keyed := Sort(Attach(values, draws, 0), SortOf);
    SortFacts(Attach(values, draws, 0), SortOf);
    AttachAt(values, draws, 0);
    DetachAt(keyed);
    assert |keyed| == |multiset(keyed)| == |Attach(values, draws, 0)|;
    forall i, j | 0 <= i < j < |keyed|
      ensures keyed[i].sort <= keyed[j].sort
    {
      assert SortOf(keyed[i]) <= SortOf(keyed[j]);
    }
  }

  // ----- what each script is due, stated on the proposal -----

  function TokensIn(utxos: seq<Utxo>): real {
    if utxos == [] then 0.0 else utxos[0].tokens + TokensIn(utxos[1..])
  }

  /** A member commits one capacity for each funding script, or one if it lists none; a pair halves it. */
  function CommittedBy(member: Member, count: nat, capacity: real): real {
    var channels := if member.funding.Some? then |member.funding.value| else 1;
    if count == 2 then capacity * channels as real / 2.0 else capacity * channels as real
  }

  /** Every funding script that is not empty is due exactly the capacity. */
  function ScriptsDue(scripts: seq<string>, capacity: real): multiset<Output> {
    if scripts == [] then multiset{}
    else
      (if scripts[0] == "" then multiset{} else multiset{Output(scripts[0], capacity)}) +
      ScriptsDue(scripts[1..], capacity)
  }

  /** A change script that is not empty is due the inputs less what is committed and less the fee. */
  function ChangeDue(member: Member, count: nat, capacity: real, fee: int): multiset<Output> {
    if member.change.None? || member.change.value == "" then multiset{}
    else
      multiset{Output(member.change.value, TokensIn(member.utxos) - CommittedBy(member, count, capacity) - fee as real)}
  }

  /** What the first n members are due. */
  function Due(proposed: seq<Member>, n: nat, capacity: real, rate: real): multiset<Output>
    requires n <= |proposed|
  {
    if n == 0 then multiset{}
    else
      var member, fee := proposed[n - 1], FeeOfLast(proposed[..n], TermsOf(proposed, capacity, rate));
      Due(proposed, n - 1, capacity, rate) +
      (if member.funding.Some? then ScriptsDue(member.funding.value, capacity) else multiset{}) +
      ChangeDue(member, |proposed|, capacity, fee)
  }

  lemma {:induction false} TokensInAreFunded(utxos: seq<Utxo>)
    ensures RealSum(utxos, TokensOf) == TokensIn(utxos)
  {
    if utxos != [] {
      TokensInAreFunded(utxos[1..]);
    }
  }

  lemma {:induction false} CapacitiesAreDue(scripts: seq<string>, capacity: real)
    ensures multiset(WithScript(Capacities(scripts, capacity))) == ScriptsDue(scripts, capacity)
  {
    if scripts != [] {
      var first, rest := Output(scripts[0], capacity), Capacities(scripts[1..], capacity);
      assert Capacities(scripts, capacity)[1..] == rest;
      CapacitiesAreDue(scripts[1..], capacity);
    }
  }

  lemma MemberIsDue(member: Member, fee: int, t: Terms)
    ensures multiset(WithScript(MemberOutputs(member, fee, t))) ==
            (if member.funding.Some? then ScriptsDue(member.funding.value, t.capacity) else multiset{}) +
            ChangeDue(member, t.count, t.capacity, fee)
  {
    var funding := Capacities(FundingScripts(member), t.capacity);
    var change := Output(if member.change.Some? then member.change.value else "", ChangeTokens(member, fee, t));
    assert MemberOutputs(member, fee, t) == funding + [change];
    WithScriptAppend(funding, [change]);
    CapacitiesAreDue(FundingScripts(member), t.capacity);
    ChangeIsDue(member, fee, t, change);
  }

  lemma ChangeTokensAre(member: Member, fee: int, t: Terms)
    ensures ChangeTokens(member, fee, t) ==
            TokensIn(member.utxos) - CommittedBy(member, t.count, t.capacity) - fee as real
  {
    TokensInAreFunded(member.utxos);
  }

  lemma ChangeIsDue(member: Member, fee: int, t: Terms, change: Output)
    requires change.script == if member.change.Some? then member.change.value else ""
    requires change.tokens == ChangeTokens(member, fee, t)
    ensures multiset(WithScript([change])) == ChangeDue(member, t.count, t.capacity, fee)
  {
    ChangeTokensAre(member, fee, t);
    assert WithScript([change]) == if change.script == "" then [] else [change];
  }

  lemma {:induction false} OutputsAreDue(proposed: seq<Member>, n: nat, capacity: real, rate: real)
    requires proposed != [] && n <= |proposed|
    ensures multiset(WithScript(AllOutputs(proposed[..n], TermsOf(proposed, capacity, rate)))) ==
            Due(proposed, n, capacity, rate)
  {
    if n > 0 {
      var t := TermsOf(proposed, capacity, rate);
      OutputsAreDue(proposed, n - 1, capacity, rate);
      assert proposed[..n][..n - 1] == proposed[..n - 1];
      MemberIsDue(proposed[n - 1], FeeOfLast(proposed[..n], t), t);
      WithScriptAppend(AllOutputs(proposed[..n - 1], t), OutputsOfLast(proposed[..n], t));
    }
  }

  // ----- the algorithm -----

  /** The dummy transaction that is grown to measure each member. */
  class Transaction {
    var ins: seq<Witness>
    var outs: seq<string>

    constructor ()
      ensures ins == [] && outs == []
    {
      ins, outs := [], [];
    }

    method AddOutput(script: string)
      modifies this
      ensures outs == old(outs) + [script] && ins == old(ins)
    {
      outs := outs + [script];
    }

    method AddInput()
      modifies this
      ensures ins == old(ins) + [[]] && outs == old(outs)
    {
      ins := ins + [[]];
    }

    method SetWitness(index: nat, stack: Witness)
      requires index < |ins|
      modifies this
      ensures ins == old(ins)[index := stack] && outs == old(outs)
    {
      ins := ins[index := stack];
    }

    function Size(): int
      reads this
    {
      VirtualSize(ins, outs)
    }
  }

  predicate MemberSupported(member: Member) {
    forall j :: 0 <= j < |member.utxos| ==> Supported(member.utxos[j])
  }

  predicate SupportedUpTo(members: seq<Member>, n: nat)
    requires n <= |members|
  {
    forall i :: 0 <= i < n ==> MemberSupported(members[i])
  }

  predicate AllSupported(members: seq<Member>) {
    SupportedUpTo(members, |members|)
  }

  /** Put a dummy witness on each added input; false at the first of an unsupported type. */
  method SignInputs(tx: Transaction, utxos: seq<Utxo>, inputsOffset: nat) returns (ok: bool)
    requires |tx.ins| == inputsOffset + |utxos|
    modifies tx
    ensures ok <==> forall j :: 0 <= j < |utxos| ==> Supported(utxos[j])
    ensures tx.outs == old(tx.outs)
    ensures ok ==> tx.ins == old(tx.ins[..inputsOffset]) + MemberIns(utxos)
  {
    for i := 0 to |utxos|
      invariant tx.outs == old(tx.outs) && |tx.ins| == inputsOffset + |utxos|
      invariant tx.ins[..inputsOffset + i] == old(tx.ins[..inputsOffset]) + MemberIns(utxos[..i])
      invariant forall j :: 0 <= j < i ==> Supported(utxos[j])
    {
      if !Supported(utxos[i]) {
        return false;
      }
      tx.SetWitness(i + inputsOffset, DummyWitness(utxos[i]));
      assert utxos[..i + 1][..i] == utxos[..i];
    }
    assert utxos[..|utxos|] == utxos;
    assert tx.ins[..inputsOffset + |utxos|] == tx.ins;
    ok := true;
  }

  /** Grow the transaction by one member; false when one of its inputs has an unsupported type. */
  method AddMember(tx: Transaction, member: Member) returns (ok: bool)
    modifies tx
    ensures ok <==> MemberSupported(member)
    ensures ok ==> tx.outs == old(tx.outs) + MemberOuts(member)
    ensures ok ==> tx.ins == old(tx.ins) + MemberIns(member.utxos)
  {
    var outs := MemberOuts(member);
    var inputsOffset := |tx.ins|;
    for i := 0 to |outs|
      invariant tx.outs == old(tx.outs) + outs[..i] && tx.ins == old(tx.ins)
    {
      tx.AddOutput(outs[i]);
    }
    for i := 0 to |member.utxos|
      invariant tx.outs == old(tx.outs) + outs && inputsOffset == |old(tx.ins)|
      invariant |tx.ins| == inputsOffset + i && tx.ins[..inputsOffset] == old(tx.ins)
    {
      tx.AddInput();
    }
    ok := SignInputs(tx, member.utxos, inputsOffset);
  }

  lemma Grow(members: seq<Member>, n: nat)
    requires n < |members|
    ensures TxIns(members[..n + 1]) == TxIns(members[..n]) + MemberIns(members[n].utxos)
    ensures TxOuts(members[..n + 1]) == TxOuts(members[..n]) + MemberOuts(members[n])
    ensures members[..n + 1][..n] == members[..n]
  {
    assert members[..n + 1][..n] == members[..n];
  }

  /** Charge one member for what it adds to the transaction, and derive its outputs. */
  method ChargeMember(tx: Transaction, member: Member, t: Terms) returns (ok: bool, outputs: seq<Output>)
    modifies tx
    ensures ok <==> MemberSupported(member)
    ensures ok ==> tx.outs == old(tx.outs) + MemberOuts(member)
    ensures ok ==> tx.ins == old(tx.ins) + MemberIns(member.utxos)
    ensures ok ==>
      var vbytes := tx.Size() - old(tx.Size()) + t.share;
      outputs == MemberOutputs(member, Fee(vbytes, PairSize(member, t.count), t.rate), t)
  {
    var funded := Funded(member);
    var pairFeeAddition := PairSize(member, t.count);
    var tare := tx.Size();
    ok := AddMember(tx, member);
    if !ok {
      outputs := [];
      return;
    }
    var vbytes := tx.Size() - tare + t.share;
    var fee := Fee(vbytes, pairFeeAddition, t.rate);
    outputs := Capacities(FundingScripts(member), t.capacity) +
      [Output(if member.change.Some? then member.change.value else "", funded - Committed(member, t) - fee as real)];
  }

  /** Charge member n, after the transaction has grown by the members before it. */
  method ChargeNext(tx: Transaction, members: seq<Member>, n: nat, t: Terms) returns (ok: bool, outputs: seq<Output>)
    requires n < |members|
    requires tx.ins == TxIns(members[..n]) && tx.outs == TxOuts(members[..n])
    modifies tx
    ensures ok <==> MemberSupported(members[n])
    ensures ok ==> tx.ins == TxIns(members[..n + 1]) && tx.outs == TxOuts(members[..n + 1])
    ensures ok ==> outputs == OutputsOfLast(members[..n + 1], t)
  {
    Grow(members, n);
    ghost var tare := tx.Size();
    assert tare == SizeOf(members[..n]);
    ok, outputs := ChargeMember(tx, members[n], t);
    if ok {
      assert tx.Size() == SizeOf(members[..n + 1]);
      assert AddedBytes(members[..n + 1], t) == tx.Size() - tare + t.share;
    }
  }

  lemma OutputsGrow(members: seq<Member>, n: nat, t: Terms)
    requires n < |members|
    ensures AllOutputs(members[..n + 1], t) == AllOutputs(members[..n], t) + OutputsOfLast(members[..n + 1], t)
  {
    assert members[..n + 1][..n] == members[..n];
  }

  /** Charge every member in turn; false at the first that has an unsupported input. */
  method ChargeAll(proposed: seq<Member>, capacity: real, rate: real) returns (ok: bool, outputs: seq<Output>)
    requires |proposed| > 0
    ensures ok <==> AllSupported(proposed)
    ensures ok ==> outputs == AllOutputs(proposed, TermsOf(proposed, capacity, rate))
  {
    var tx := new Transaction();
    var t := Terms(|proposed|, Share(tx.Size(), |proposed|), capacity, rate);
    assert t == TermsOf(proposed, capacity, rate);
    outputs := [];
    for i := 0 to |proposed|
      invariant tx.ins == TxIns(proposed[..i]) && tx.outs == TxOuts(proposed[..i])
      invariant SupportedUpTo(proposed, i)
      invariant outputs == AllOutputs(proposed[..i], t)
    {
      var memberOutputs;
      ok, memberOutputs := ChargeNext(tx, proposed, i, t);
      if !ok {
        return;
      }
      OutputsGrow(proposed, i, t);
      outputs := outputs + memberOutputs;
    }
    assert proposed[..|proposed|] == proposed;
    ok := true;
  }

  /** The outputs of all members, before they are reordered. */
  function Outputs(members: seq<Member>, capacity: real, rate: real): seq<Output>
    requires members != []
  {
    WithScript(AllOutputs(members, TermsOf(members, capacity, rate)))
  }

  /** The outputs of all members, reordered by the random draws. */
  method DeriveOutputs(capacity: real, proposed: seq<Member>, rate: real, draws: nat -> real)
    returns (r: Result<seq<Output>, Error>)
    ensures r == if capacity == 0.0 then Err(ExpectedCapacity)
                 else if rate == 0.0 then Err(ExpectedChainFeeRate)
                 else if !AllSupported(proposed) then Err(UnsupportedOutputType)
                 else if proposed == [] then Ok([])
                 else Ok(Reorder(Outputs(proposed, capacity, rate), draws))
    ensures r.Ok? ==> multiset(r.value) == Due(proposed, |proposed|, capacity, rate)
  {
    if capacity == 0.0 {
      return Err(ExpectedCapacity);
    }
    if rate == 0.0 {
      return Err(ExpectedChainFeeRate);
    }
    if |proposed| == 0 {
      return Ok([]);
    }
    var ok, outputs := ChargeAll(proposed, capacity, rate);
    if !ok {
      return Err(UnsupportedOutputType);
    }
    r := Ok(Reorder(WithScript(outputs), draws));
    ReorderPermutes(WithScript(outputs), draws);
    OutputsAreDue(proposed, |proposed|, capacity, rate);
    assert proposed[..|proposed|] == proposed;
  }
}
