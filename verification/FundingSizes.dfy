/** The sizes and the fee a member is charged for, stated on the scripts of its inputs and outputs. */
module FundingSizes {
  import opened FundingFees
  import opened FundingPsbt
  import opened Sequences

  /** How many bytes a count takes on the wire. */
  lemma CounterSizes(n: nat)
    ensures n <= 252 ==> VarIntSize(n) == 1
    ensures 253 <= n <= 65535 ==> VarIntSize(n) == 3
    ensures 65536 <= n <= 4294967295 ==> VarIntSize(n) == 5
    ensures n > 4294967295 ==> VarIntSize(n) == 9
  {
  }

  predicate PaysKeyHash(utxo: Utxo) {
    |utxo.scriptPub| == 44 && utxo.scriptPub[..4] == "0014"
  }

  predicate PaysTaproot(utxo: Utxo) {
    |utxo.scriptPub| == 68 && utxo.scriptPub[..4] == "5120"
  }

  lemma SupportedIff(utxo: Utxo)
    ensures Supported(utxo) <==> PaysKeyHash(utxo) || PaysTaproot(utxo)
    ensures IsP2wpkh(utxo.scriptPub) <==> PaysKeyHash(utxo)
  {
  }

  function KeyHashInputs(utxos: seq<Utxo>): nat {
    if utxos == [] then 0
    else KeyHashInputs(utxos[..|utxos| - 1]) + if PaysKeyHash(utxos[|utxos| - 1]) then 1 else 0
  }

  function TaprootInputs(utxos: seq<Utxo>): nat {
    if utxos == [] then 0
    else TaprootInputs(utxos[..|utxos| - 1]) + if PaysTaproot(utxos[|utxos| - 1]) then 1 else 0
  }

  function AllInputs(members: seq<Member>): seq<Utxo> {
    if members == [] then [] else AllInputs(members[..|members| - 1]) + members[|members| - 1].utxos
  }

  /** Scripts are hex, two digits a byte; an output has its value, a counter and its script. */
  function ScriptBytes(scripts: seq<string>): int {
    if scripts == [] then 0
    else 8 + VarIntSize(|scripts[0]| / 2) + |scripts[0]| / 2 + ScriptBytes(scripts[1..])
  }

  /** In units of a quarter byte: an input weighs 41 bytes, and 110 or 66 quarters of signature. */
  function Weight(keyHash: nat, taproot: nat, scripts: seq<string>): int {
    4 * (8 + VarIntSize(keyHash + taproot) + VarIntSize(|scripts|) + ScriptBytes(scripts)) +
    274 * keyHash + 230 * taproot + if keyHash + taproot > 0 then 2 else 0
  }

  lemma {:induction false} ScriptBytesAre(scripts: seq<string>)
    ensures Sum(scripts, OutputSize) == ScriptBytes(scripts)
  {
    if scripts != [] {
      ScriptBytesAre(scripts[1..]);
    }
  }

  lemma StackSizes(utxo: Utxo)
    requires Supported(utxo)
    ensures DummyWitness(utxo) != []
    ensures StackSize(DummyWitness(utxo)) == if PaysKeyHash(utxo) then 110 else 66
  {
    SupportedIff(utxo);
    var two: Witness, one: Witness, none: Witness := [33, 74], [64], [];
    assert two[1..] == [74] && one[1..] == none && two[1..][1..] == none;
    assert Sum(none, SliceSize) == 0;
    assert Sum(one, SliceSize) == 65;
    assert Sum(two[1..], SliceSize) == 75;
    assert Sum(two, SliceSize) == 109;
  }

  lemma {:induction false} InputsOf(utxos: seq<Utxo>)
    requires forall i :: 0 <= i < |utxos| ==> Supported(utxos[i])
    ensures |MemberIns(utxos)| == |utxos| == KeyHashInputs(utxos) + TaprootInputs(utxos)
    ensures forall w :: w in MemberIns(utxos) ==> w != []
    ensures Sum(MemberIns(utxos), StackSize) == 110 * KeyHashInputs(utxos) + 66 * TaprootInputs(utxos)
  {
    if utxos != [] {
      var n := |utxos| - 1;
      InputsOf(utxos[..n]);
      SupportedIff(utxos[n]);
      StackSizes(utxos[n]);
      SumAppend(MemberIns(utxos[..n]), [DummyWitness(utxos[n])], StackSize);
      SumOfOne(DummyWitness(utxos[n]));
    }
  }

  lemma SumOfOne(w: Witness)
    ensures Sum([w], StackSize) == StackSize(w)
  {
    assert [w][1..] == [];
  }

  lemma {:induction false} InputsAppend(a: seq<Utxo>, b: seq<Utxo>)
    ensures MemberIns(a + b) == MemberIns(a) + MemberIns(b)
  {
    if b == [] {
      assert a + b == a;
    } else {
      var n := |b| - 1;
      assert (a + b)[..|a| + n] == a + b[..n];
      InputsAppend(a, b[..n]);
    }
  }

  lemma {:induction false} InputsOfAll(members: seq<Member>)
    requires AllSupported(members)
    ensures TxIns(members) == MemberIns(AllInputs(members))
    ensures forall i :: 0 <= i < |AllInputs(members)| ==> Supported(AllInputs(members)[i])
  {
    if members != [] {
      var n := |members| - 1;
      assert forall i :: 0 <= i < n ==> members[..n][i] == members[i];
      assert forall i :: 0 <= i < n ==> MemberSupported(members[i]);
      InputsOfAll(members[..n]);
      InputsAppend(AllInputs(members[..n]), members[n].utxos);
      assert MemberSupported(members[n]);
    }
  }

  /** The measured size is the weight in whole virtual bytes, rounded up. */
  lemma SizeIsWeight(members: seq<Member>)
    requires AllSupported(members)
    ensures var inputs := AllInputs(members);
            var weight := Weight(KeyHashInputs(inputs), TaprootInputs(inputs), TxOuts(members));
            weight <= 4 * SizeOf(members) < weight + 4
  {
    var inputs := AllInputs(members);
    InputsOfAll(members);
    InputsOf(inputs);
    ScriptBytesAre(TxOuts(members));
    if inputs != [] {
      assert MemberIns(inputs)[0] in MemberIns(inputs);
    }
  }

  /** The share of the wrapper: the members share ten bytes, rounded up to a whole byte each. */
  lemma ShareIsLeast(count: nat)
    requires count > 0
    ensures 10 <= count * Share(10, count) < 10 + count
  {
    ShareCovers(10, count);
    var shares := Share(10, count) * count;
    assert shares as real == Share(10, count) as real * count as real;
  }

  /** The least whole number of tokens that pays a rate for some bytes. */
  predicate IsLeastPaying(fee: int, bytes: real, rate: real) {
    bytes * rate <= fee as real < bytes * rate + 1.0
  }

  lemma FeePays(vbytes: int, pair: real, rate: real)
    ensures IsLeastPaying(Fee(vbytes, pair, rate), vbytes as real + pair, rate)
  {
    Distribute(vbytes as real, pair, rate);
    CeilBounds(vbytes as real * rate + pair * rate);
  }

  /**
   * A member's fee is the least whole number of tokens that pays the rate for the bytes it adds, its share of the
   * wrapper, 43 bytes if it lists no funding, and 21.5 bytes less for a member of a pair.
   */
  lemma FeeIsLeast(members: seq<Member>, t: Terms)
    requires members != []
    ensures var last, fee := members[|members| - 1], FeeOfLast(members, t);
            var bytes := (SizeOf(members) - SizeOf(members[..|members| - 1]) + t.share) as real;
            var pair := (if last.funding.None? then 43.0 else 0.0) - (if t.count == 2 then 21.5 else 0.0);
            IsLeastPaying(fee, bytes + pair, t.rate)
  {
    FeePays(AddedBytes(members, t), PairSize(members[|members| - 1], t.count), t.rate);
  }

  /** What all members share: their number, the capacity and the rate as given, and the share of ten bytes. */
  lemma TermsAre(members: seq<Member>, capacity: real, rate: real)
    requires members != []
    ensures TermsOf(members, capacity, rate) == Terms(|members|, Share(10, |members|), capacity, rate)
  {
    StartSize();
  }
}
