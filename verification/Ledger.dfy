/**
 The UTXO dictionary and transaction validation of node.py: what applying a transaction does to the set,
 when `validate_normal_tx` accepts, and what either does to the total value.
 */
module Ledger {
  import opened Prelude
  import opened Types
  import opened Consensus

  // Applying a transaction

  function OutputKeys(txid: Hash, n: nat): (keys: set<Outpoint>)
    ensures forall op :: op in keys <==> op.txid == txid && 0 <= op.vout < n
  {
    var keys := set i | 0 <= i < n :: Outpoint(txid, i);
    assert forall op: Outpoint :: op == Outpoint(op.txid, op.vout);
    keys
  }

  function InputKeys(tx: Tx, n: nat): (keys: set<Outpoint>)
    requires n <= |tx.body.inputs|
    ensures forall op :: op in keys <==> exists i :: 0 <= i < n && tx.body.inputs[i].prev == op
  {
    set i | 0 <= i < n :: tx.body.inputs[i].prev
  }

  function Spent(tx: Tx): set<Outpoint> {
    InputKeys(tx, |tx.body.inputs|)
  }

  function Created(tx: Tx, height: Option<int>, n: nat): (m: Utxos)
    requires n <= |tx.body.outputs|
    ensures m.Keys == OutputKeys(tx.txid, n)
    ensures forall op :: op in m ==> m[op] == Utxo(tx.body.outputs[op.vout], height, IsCoinbase(tx))
  {
    map op | op in OutputKeys(tx.txid, n) :: Utxo(tx.body.outputs[op.vout], height, IsCoinbase(tx))
  }

  predicate Creates(tx: Tx, op: Outpoint) {
    op.txid == tx.txid && 0 <= op.vout < |tx.body.outputs|
  }

  /** Spent outpoints leave the set; then every output enters it under this txid, replacing what was there. */
  function ApplyTx(tx: Tx, utxos: Utxos, height: Option<int>): Utxos {
    (utxos - Spent(tx)) + Created(tx, height, |tx.body.outputs|)
  }

  lemma {:induction false} ApplyTxAt(tx: Tx, utxos: Utxos, height: Option<int>, op: Outpoint)
    ensures var r := ApplyTx(tx, utxos, height);
            && (op in r <==> Creates(tx, op) || (op in utxos && op !in Spent(tx)))
            && (Creates(tx, op) ==> r[op] == Utxo(tx.body.outputs[op.vout], height, IsCoinbase(tx)))
            && (op in r && !Creates(tx, op) ==> r[op] == utxos[op])
  {
  }

  /** The dictionary that node.py passes around and updates in place. */
  class UtxoSet {
    var entries: Utxos

    constructor ()
      ensures entries == map[]
    {
      entries := map[];
    }

    method ApplyTransaction(tx: Tx, createdHeight: Option<int>)
      modifies this
      ensures entries == ApplyTx(tx, old(entries), createdHeight)
    {
      hide InputKeys, Created, IsCoinbase;
      ghost var before := entries;
      NothingYet(tx, createdHeight);
      for i := 0 to |tx.body.inputs|
        invariant entries == before - InputKeys(tx, i)
      {
        entries := entries - {tx.body.inputs[i].prev};
        InputKeysStep(tx, i);
      }
      for i := 0 to |tx.body.outputs|
        invariant entries == before - Spent(tx) + Created(tx, createdHeight, i)
      {
        entries := entries[Outpoint(tx.txid, i) := Utxo(tx.body.outputs[i], createdHeight, IsCoinbase(tx))];
        CreatedStep(tx, before - Spent(tx), createdHeight, i + 1);
      }
    }
  }

  lemma {:induction false} NothingYet(tx: Tx, height: Option<int>)
    ensures InputKeys(tx, 0) == {} && Created(tx, height, 0) == map[]
  {
  }

  lemma {:induction false} InputKeysStep(tx: Tx, i: nat)
    requires i < |tx.body.inputs|
    ensures InputKeys(tx, i + 1) == InputKeys(tx, i) + {tx.body.inputs[i].prev}
  {
  }

  // validate_normal_tx

  function TransactionFee(inputTotal: int, outputTotal: int): Result<int> {
    if inputTotal < 0 || outputTotal < 0 then Err(NegativeTotals)
    else if outputTotal > inputTotal then Err(OutputsExceedInputs)
    else Ok(inputTotal - outputTotal)
  }

  function ExpectedCoinbaseValue(height: int, fees: int): Result<int> {
    if fees < 0 then Err(NegativeFees) else Ok(BlockSubsidy(height) + fees)
  }

  function CheckInput(c: Crypto, tx: Tx, utxos: Utxos, spendHeight: int, i: nat): Result<int>
    requires i < |tx.body.inputs|
  {
    var input := tx.body.inputs[i];
    if input.prev in InputKeys(tx, i) then Err(DuplicateInput)
    else if input.prev !in utxos then Err(MissingInput)
    else
      var prev := utxos[input.prev];
      if prev.coinbase && prev.createdHeight.None? then Err(NoCreationHeight)
      else if prev.coinbase && !CoinbaseIsMature(prev.createdHeight.value, spendHeight) then Err(ImmatureCoinbase)
      else if c.OwnerOf(input.pubkey) != prev.out.address then Err(WrongOwner)
      else if !c.SignatureOk(input.pubkey, input.signature, tx.body, i) then Err(BadSignature)
      else Ok(prev.out.amount)
  }

  function CheckInputs(c: Crypto, tx: Tx, utxos: Utxos, spendHeight: int, i: nat, total: int): Result<int>
    requires i <= |tx.body.inputs|
    decreases |tx.body.inputs| - i
  {
    if i == |tx.body.inputs| then Ok(total)
    else
      var amount :- CheckInput(c, tx, utxos, spendHeight, i);
      CheckInputs(c, tx, utxos, spendHeight, i + 1, total + amount)
  }

  function CheckOutputs(c: Crypto, tx: Tx, i: nat, total: int): Result<int>
    requires i <= |tx.body.outputs|
    decreases |tx.body.outputs| - i
  {
    if i == |tx.body.outputs| then Ok(total)
    else if tx.body.outputs[i].amount <= 0 then Err(NonPositiveOutput)
    else if !c.AddressOk(tx.body.outputs[i].address) then Err(BadAddress)
    else CheckOutputs(c, tx, i + 1, total + tx.body.outputs[i].amount)
  }

  function CheckShape(c: Crypto, tx: Tx): Option<Error> {
    if |tx.body.inputs| == 0 then Some(NoInputs)
    else if |tx.body.outputs| == 0 then Some(NoOutputs)
    else if |tx.body.inputs| > MAX_TX_INPUTS then Some(TooManyInputs)
    else if |tx.body.outputs| > MAX_TX_OUTPUTS then Some(TooManyOutputs)
    else if c.TxBytes(tx) > MAX_TX_BYTES then Some(TxTooLarge)
    else if IsCoinbase(tx) then Some(UnexpectedCoinbase)
    else if c.TxId(tx.body) != tx.txid then Some(BadTxId)
    else None
  }

  /** The fee of an accepted transaction, or the first objection to it. */
  function CheckTx(c: Crypto, tx: Tx, utxos: Utxos, spendHeight: int): Result<int> {
    match CheckShape(c, tx)
    case Some(e) => Err(e)
    case None =>
      var inputTotal :- CheckInputs(c, tx, utxos, spendHeight, 0, 0);
      var outputTotal :- CheckOutputs(c, tx, 0, 0);
      TransactionFee(inputTotal, outputTotal)
  }

  // When it accepts

  function AmountAt(utxos: Utxos, op: Outpoint): int {
    if op in utxos then utxos[op].out.amount else 0
  }

  function SumInputs(tx: Tx, utxos: Utxos, n: nat): int
    requires n <= |tx.body.inputs|
  {
    if n == 0 then 0 else SumInputs(tx, utxos, n - 1) + AmountAt(utxos, tx.body.inputs[n - 1].prev)
  }

  function SumOutputs(tx: Tx, n: nat): int
    requires n <= |tx.body.outputs|
  {
    if n == 0 then 0 else SumOutputs(tx, n - 1) + tx.body.outputs[n - 1].amount
  }

  function InputTotal(tx: Tx, utxos: Utxos): int {
    SumInputs(tx, utxos, |tx.body.inputs|)
  }

  function OutputTotal(tx: Tx): int {
    SumOutputs(tx, |tx.body.outputs|)
  }

  /** Everything about a transaction that does not depend on the UTXO set. */
  ghost predicate WellFormed(c: Crypto, tx: Tx) {
    && 1 <= |tx.body.inputs| <= 128 && 1 <= |tx.body.outputs| <= 128
    && c.TxBytes(tx) <= 100_000
    && !IsCoinbase(tx)
    && c.TxId(tx.body) == tx.txid
    && DistinctInputs(tx)
    && (forall i :: 0 <= i < |tx.body.outputs| ==>
          tx.body.outputs[i].amount > 0 && c.AddressOk(tx.body.outputs[i].address))
  }

  ghost predicate CanSpend(c: Crypto, tx: Tx, i: nat, prev: Utxo, spendHeight: int)
    requires i < |tx.body.inputs|
  {
    && (prev.coinbase ==> prev.createdHeight.Some? && CoinbaseIsMature(prev.createdHeight.value, spendHeight))
    && c.OwnerOf(tx.body.inputs[i].pubkey) == prev.out.address
    && c.SignatureOk(tx.body.inputs[i].pubkey, tx.body.inputs[i].signature, tx.body, i)
  }

  /** An output that is unspent in the set and, if a coinbase, mature at this height. */
  ghost predicate Spendable(utxos: Utxos, op: Outpoint, height: int) {
    && op in utxos
    && (utxos[op].coinbase ==>
          utxos[op].createdHeight.Some? && CoinbaseIsMature(utxos[op].createdHeight.value, height))
  }

  ghost predicate InputsSpendable(c: Crypto, tx: Tx, utxos: Utxos, spendHeight: int) {
    forall i :: 0 <= i < |tx.body.inputs| ==>
      tx.body.inputs[i].prev in utxos && CanSpend(c, tx, i, utxos[tx.body.inputs[i].prev], spendHeight)
  }

  lemma {:induction false} CheckOutputsIff(c: Crypto, tx: Tx, i: nat, total: int)
    requires i <= |tx.body.outputs|
    ensures CheckOutputs(c, tx, i, total).Ok? <==>
            forall j :: i <= j < |tx.body.outputs| ==>
              tx.body.outputs[j].amount > 0 && c.AddressOk(tx.body.outputs[j].address)
    ensures CheckOutputs(c, tx, i, total).Ok? ==>
              CheckOutputs(c, tx, i, total).value == total + OutputTotal(tx) - SumOutputs(tx, i)
    decreases |tx.body.outputs| - i
  {
    if i < |tx.body.outputs| {
      CheckOutputsIff(c, tx, i + 1, total + tx.body.outputs[i].amount);
    }
  }

  ghost predicate InputOk(c: Crypto, tx: Tx, utxos: Utxos, h: int, i: nat)
    requires i < |tx.body.inputs|
  {
    var op := tx.body.inputs[i].prev;
    op !in InputKeys(tx, i) && op in utxos && CanSpend(c, tx, i, utxos[op], h)
  }

  lemma {:induction false} CheckInputIff(c: Crypto, tx: Tx, utxos: Utxos, h: int, i: nat)
    requires i < |tx.body.inputs|
    ensures CheckInput(c, tx, utxos, h, i).Ok? <==> InputOk(c, tx, utxos, h, i)
    ensures CheckInput(c, tx, utxos, h, i).Ok? ==>
              CheckInput(c, tx, utxos, h, i).value == AmountAt(utxos, tx.body.inputs[i].prev)
  {
  }

  lemma {:induction false} CheckInputsIff(c: Crypto, tx: Tx, utxos: Utxos, h: int, i: nat, total: int)
    requires i <= |tx.body.inputs|
    ensures CheckInputs(c, tx, utxos, h, i, total).Ok? <==>
            forall j :: i <= j < |tx.body.inputs| ==> InputOk(c, tx, utxos, h, j)
    ensures CheckInputs(c, tx, utxos, h, i, total).Ok? ==>
              CheckInputs(c, tx, utxos, h, i, total).value == total + InputTotal(tx, utxos) - SumInputs(tx, utxos, i)
    decreases |tx.body.inputs| - i
  {
    hide CheckInput, InputOk, AmountAt;
    if i < |tx.body.inputs| {
      CheckInputIff(c, tx, utxos, h, i);
      if CheckInput(c, tx, utxos, h, i).Ok? {
        CheckInputsIff(c, tx, utxos, h, i + 1, total + AmountAt(utxos, tx.body.inputs[i].prev));
      }
    }
  }

  ghost predicate DistinctInputs(tx: Tx) {
    forall i, j :: 0 <= i < j < |tx.body.inputs| ==> tx.body.inputs[i].prev != tx.body.inputs[j].prev
  }

  lemma {:induction false} InputsOkIff(c: Crypto, tx: Tx, utxos: Utxos, h: int)
    ensures (forall j :: 0 <= j < |tx.body.inputs| ==> InputOk(c, tx, utxos, h, j))
       <==> DistinctInputs(tx) && InputsSpendable(c, tx, utxos, h)
  {
    hide CanSpend;
    if forall j :: 0 <= j < |tx.body.inputs| ==> InputOk(c, tx, utxos, h, j) {
      forall i, j | 0 <= i < j < |tx.body.inputs| ensures tx.body.inputs[i].prev != tx.body.inputs[j].prev {
        assert InputOk(c, tx, utxos, h, j);
      }
      forall i | 0 <= i < |tx.body.inputs|
        ensures tx.body.inputs[i].prev in utxos && CanSpend(c, tx, i, utxos[tx.body.inputs[i].prev], h)
      {
        assert InputOk(c, tx, utxos, h, i);
      }
    }
  }

  /** `validate_normal_tx` accepts exactly the well-formed, spendable, non-inflating transactions. */
  lemma {:induction false} CheckTxAccepts(c: Crypto, tx: Tx, utxos: Utxos, spendHeight: int)
    ensures CheckTx(c, tx, utxos, spendHeight).Ok? <==>
            && WellFormed(c, tx)
            && InputsSpendable(c, tx, utxos, spendHeight)
            && OutputTotal(tx) <= InputTotal(tx, utxos)
    ensures CheckTx(c, tx, utxos, spendHeight).Ok? ==>
              CheckTx(c, tx, utxos, spendHeight).value == InputTotal(tx, utxos) - OutputTotal(tx) >= 0
  {
    InputsOkIff(c, tx, utxos, spendHeight);
    CheckInputsIff(c, tx, utxos, spendHeight, 0, 0);
    CheckOutputsIff(c, tx, 0, 0);
    hide InputsSpendable, InputOk, CheckInputs, CheckOutputs;
    if WellFormed(c, tx) {
      SumOutputsPositive(tx, |tx.body.outputs|);
    }
  }

  lemma {:induction false} SumOutputsPositive(tx: Tx, n: nat)
    requires n <= |tx.body.outputs|
    requires forall i :: 0 <= i < n ==> tx.body.outputs[i].amount > 0
    ensures SumOutputs(tx, n) >= 0
  {
    if n > 0 {
      SumOutputsPositive(tx, n - 1);
    }
  }

  ghost predicate AgreeOn(tx: Tx, a: Utxos, b: Utxos) {
    forall i :: 0 <= i < |tx.body.inputs| ==>
      var op := tx.body.inputs[i].prev;
      (op in a <==> op in b) && (op in a ==> a[op] == b[op])
  }

  /** Validation reads the set only at the transaction's own inputs. */
  lemma {:induction false} CheckTxReadsInputsOnly(c: Crypto, tx: Tx, a: Utxos, b: Utxos, h: int)
    requires AgreeOn(tx, a, b)
    ensures CheckTx(c, tx, a, h) == CheckTx(c, tx, b, h)
  {
    CheckInputsAgree(c, tx, a, b, h, 0, 0);
  }

  lemma {:induction false} CheckInputsAgree(c: Crypto, tx: Tx, a: Utxos, b: Utxos, h: int, i: nat, total: int)
    requires AgreeOn(tx, a, b) && i <= |tx.body.inputs|
    ensures CheckInputs(c, tx, a, h, i, total) == CheckInputs(c, tx, b, h, i, total)
    decreases |tx.body.inputs| - i
  {
    if i < |tx.body.inputs| {
      assert CheckInput(c, tx, a, h, i) == CheckInput(c, tx, b, h, i);
      if CheckInput(c, tx, a, h, i).Ok? {
        CheckInputsAgree(c, tx, a, b, h, i + 1, total + CheckInput(c, tx, a, h, i).value);
      }
    }
  }

  lemma {:induction false} SumInputsAgree(tx: Tx, a: Utxos, b: Utxos, n: nat)
    requires n <= |tx.body.inputs|
    requires forall i :: 0 <= i < n ==> AmountAt(a, tx.body.inputs[i].prev) == AmountAt(b, tx.body.inputs[i].prev)
    ensures SumInputs(tx, a, n) == SumInputs(tx, b, n)
  {
    if n > 0 {
      SumInputsAgree(tx, a, b, n - 1);
    }
  }

  // Total value

  ghost function Total(utxos: Utxos): int {
    if utxos == map[] then 0
    else
      var op :| op in utxos;
      utxos[op].out.amount + Total(utxos - {op})
  }

  lemma {:induction false} TotalWithout(utxos: Utxos, op: Outpoint)
    requires op in utxos
    ensures Total(utxos) == utxos[op].out.amount + Total(utxos - {op})
    decreases |utxos|
  {
    var first :| first in utxos && Total(utxos) == utxos[first].out.amount + Total(utxos - {first});
    if first != op {
      TotalWithout(utxos - {first}, op);
      TotalWithout(utxos - {op}, first);
      assert utxos - {first} - {op} == utxos - {op} - {first};
    }
  }

  lemma {:induction false} TotalAfterPut(utxos: Utxos, op: Outpoint, record: Utxo)
    ensures Total(utxos[op := record]) == Total(utxos) - AmountAt(utxos, op) + record.out.amount
  {
    TotalWithout(utxos[op := record], op);
    assert utxos[op := record] - {op} == utxos - {op};
    if op in utxos {
      TotalWithout(utxos, op);
    } else {
      assert utxos - {op} == utxos;
    }
  }

  lemma {:induction false} TotalAfterSpending(tx: Tx, utxos: Utxos, n: nat)
    requires n <= |tx.body.inputs|
    requires forall i :: 0 <= i < n ==> tx.body.inputs[i].prev in utxos
    requires forall i, j :: 0 <= i < j < n ==> tx.body.inputs[i].prev != tx.body.inputs[j].prev
    ensures Total(utxos - InputKeys(tx, n)) == Total(utxos) - SumInputs(tx, utxos, n)
  {
    if n == 0 {
      assert utxos - InputKeys(tx, 0) == utxos;
    } else {
      TotalAfterSpending(tx, utxos, n - 1);
      var op := tx.body.inputs[n - 1].prev;
      var rest := utxos - InputKeys(tx, n - 1);
      assert op in rest;
      TotalWithout(rest, op);
      assert rest - {op} == utxos - InputKeys(tx, n);
    }
  }

  /** The value of old entries that the first `n` outputs of `tx` replace. */
  ghost function Overwritten(tx: Tx, utxos: Utxos, n: nat): int {
    if n == 0 then 0 else Overwritten(tx, utxos, n - 1) + AmountAt(utxos, Outpoint(tx.txid, n - 1))
  }

  ghost function Burned(tx: Tx, utxos: Utxos): int {
    Overwritten(tx, utxos - Spent(tx), |tx.body.outputs|)
  }

  lemma {:induction false} CreatedStep(tx: Tx, utxos: Utxos, height: Option<int>, n: nat)
    requires 0 < n <= |tx.body.outputs|
    ensures var op := Outpoint(tx.txid, n - 1);
            && utxos + Created(tx, height, n)
               == (utxos + Created(tx, height, n - 1))[op := Utxo(tx.body.outputs[n - 1], height, IsCoinbase(tx))]
            && AmountAt(utxos + Created(tx, height, n - 1), op) == AmountAt(utxos, op)
  {
    var op, record := Outpoint(tx.txid, n - 1), Utxo(tx.body.outputs[n - 1], height, IsCoinbase(tx));
    assert Created(tx, height, n) == Created(tx, height, n - 1)[op := record];
  }

  lemma {:induction false} TotalAfterOutputs(tx: Tx, utxos: Utxos, height: Option<int>, n: nat)
    requires n <= |tx.body.outputs|
    ensures Total(utxos + Created(tx, height, n)) == Total(utxos) + SumOutputs(tx, n) - Overwritten(tx, utxos, n)
  {
    hide Created, Total, AmountAt;
    if n == 0 {
      NothingYet(tx, height);
      assert utxos + Created(tx, height, 0) == utxos;
    } else {
      TotalAfterOutputs(tx, utxos, height, n - 1);
      CreatedStep(tx, utxos, height, n);
      var op, record := Outpoint(tx.txid, n - 1), Utxo(tx.body.outputs[n - 1], height, IsCoinbase(tx));
      TotalAfterPut(utxos + Created(tx, height, n - 1), op, record);
    }
  }

  /** Exactly the fee leaves the set, and whatever an output replaces. */
  lemma {:induction false} TotalAfterTx(tx: Tx, utxos: Utxos, height: Option<int>)
    requires forall i :: 0 <= i < |tx.body.inputs| ==> tx.body.inputs[i].prev in utxos
    requires DistinctInputs(tx)
    ensures Total(ApplyTx(tx, utxos, height))
         == Total(utxos) - InputTotal(tx, utxos) + OutputTotal(tx) - Burned(tx, utxos)
  {
    TotalAfterSpending(tx, utxos, |tx.body.inputs|);
    TotalAfterOutputs(tx, utxos - Spent(tx), height, |tx.body.outputs|);
  }
}
