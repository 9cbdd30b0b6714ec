/** The blocks `_validate_block_against` accepts, stated without its loop: one rule per clause, in no order. */
module Acceptance {
  import opened Prelude
  import opened Types
  import opened Ledger
  import opened Blocks
  import Consensus
  import Difficulty
  import Merkle
  import TimeRules
  import Work

  /** The UTXO set that transaction `i` of the block meets: the normal transactions before it applied in order. */
  function SetBefore(txs: seq<Tx>, i: nat, utxos: Utxos, height: int): Utxos
    requires 1 <= i <= |txs|
  {
    if i == 1 then utxos else ApplyTx(txs[i - 1], SetBefore(txs, i - 1, utxos, height), Some(height))
  }

  /** What the normal transactions before `i` pay: their inputs, valued where they are spent, minus their outputs. */
  function FeesBefore(txs: seq<Tx>, i: nat, utxos: Utxos, height: int): int
    requires 1 <= i <= |txs|
  {
    if i == 1 then 0
    else FeesBefore(txs, i - 1, utxos, height)
         + InputTotal(txs[i - 1], SetBefore(txs, i - 1, utxos, height)) - OutputTotal(txs[i - 1])
  }

  ghost predicate NormalTxOk(c: Crypto, txs: seq<Tx>, i: nat, utxos: Utxos, height: int)
    requires 1 <= i < |txs|
  {
    var before := SetBefore(txs, i, utxos, height);
    && WellFormed(c, txs[i])
    && InputsSpendable(c, txs[i], before, height)
    && OutputTotal(txs[i]) <= InputTotal(txs[i], before)
  }

  ghost predicate CoinbaseOk(c: Crypto, tx: Tx, amount: int) {
    && IsCoinbase(tx) && tx.body.inputs == [] && c.TxId(tx.body) == tx.txid
    && |tx.body.outputs| == 1 && tx.body.outputs[0].amount == amount && c.AddressOk(tx.body.outputs[0].address)
  }

  ghost predicate BodyOk(c: Crypto, txs: seq<Tx>, utxos: Utxos, height: int)
    requires txs != []
  {
    && Merkle.Distinct(TxIds(txs))
    && (forall i :: 1 <= i < |txs| ==> NormalTxOk(c, txs, i, utxos, height))
    && CoinbaseOk(c, txs[0], Consensus.BlockSubsidy(height) + FeesBefore(txs, |txs|, utxos, height))
  }

  ghost predicate HeaderRules(c: Crypto, block: Block, chain: seq<Block>, now: int)
    requires chain != []
  {
    var h := block.header;
    && h.height == |chain| && chain[|chain| - 1].hash == Some(h.prevHash)
    && TimeRules.MedianTimePast(chain) < h.timestamp <= now + 7200
    && c.BlockBytes(block) <= 2_000_000
    && h.version == 2 && h.difficulty == Difficulty.NextUnits(chain)
    && 1 <= |block.transactions| <= 1000
    && Merkle.MerkleRoot(c, TxIds(block.transactions)) == h.merkleRoot
    && block.hash in {None, Some(BlockHash(c, block))}
    && BlockHash(c, block) <= Work.TargetForDifficulty(h.difficulty)
  }

  ghost predicate NewTxid(txs: seq<Tx>, j: nat)
    requires j < |txs|
  {
    txs[j].txid !in TxIds(txs[..j])
  }

  lemma {:induction false} NewTxids(txs: seq<Tx>)
    ensures Merkle.Distinct(TxIds(txs)) <==> forall j :: 1 <= j < |txs| ==> NewTxid(txs, j)
  {
    var ids := TxIds(txs);
    forall j | 1 <= j < |txs| ensures NewTxid(txs, j) <==> forall i :: 0 <= i < j ==> ids[i] != ids[j] {
      assert TxIds(txs[..j]) == ids[..j];
    }
    if forall j :: 1 <= j < |txs| ==> NewTxid(txs, j) {
      forall i, j | 0 <= i < |ids| && 0 <= j < |ids| && i < j ensures ids[i] != ids[j] {
        assert NewTxid(txs, j);
      }
    }
  }

  lemma {:induction false} CheckTxsIff(c: Crypto, txs: seq<Tx>, i: nat, utxos: Utxos, height: int, fees: int)
    requires 1 <= i <= |txs|
    ensures var r := CheckTxs(c, txs, i, SetBefore(txs, i, utxos, height), height, fees);
            && (r.Ok? <==> forall j :: i <= j < |txs| ==> NormalTxOk(c, txs, j, utxos, height) && NewTxid(txs, j))
            && (r.Ok? ==>
                  var before, all := FeesBefore(txs, i, utxos, height), FeesBefore(txs, |txs|, utxos, height);
                  r.value == Applied(SetBefore(txs, |txs|, utxos, height), fees + all - before))
    decreases |txs| - i
  {
    hide CheckTx, ApplyTx, WellFormed, InputsSpendable, InputTotal, OutputTotal;
    if i < |txs| {
      var before := SetBefore(txs, i, utxos, height);
      CheckTxAccepts(c, txs[i], before, height);
      if CheckTx(c, txs[i], before, height).Ok? && NewTxid(txs, i) {
        CheckTxsIff(c, txs, i + 1, utxos, height, fees + CheckTx(c, txs[i], before, height).value);
      } else {
        assert !(NormalTxOk(c, txs, i, utxos, height) && NewTxid(txs, i));
      }
    }
  }

  /** Without the order of the checks: which bodies are accepted, and the UTXO set they leave. */
  lemma {:induction false} CheckBodyIff(c: Crypto, txs: seq<Tx>, utxos: Utxos, height: int)
    requires txs != []
    ensures CheckBody(c, txs, utxos, height).Ok? <==> BodyOk(c, txs, utxos, height)
    ensures CheckBody(c, txs, utxos, height).Ok? ==>
              var after := SetBefore(txs, |txs|, utxos, height);
              CheckBody(c, txs, utxos, height).value == ApplyTx(txs[0], after, Some(height))
  {
    hide CheckTxs, ApplyTx, NormalTxOk, NewTxid, SetBefore, Consensus.BlockSubsidy, Merkle.Distinct;
    SetBeforeFirst(txs, utxos, height);
    CheckTxsIff(c, txs, 1, utxos, height, 0);
    NewTxids(txs);
    if forall j :: 1 <= j < |txs| ==> NormalTxOk(c, txs, j, utxos, height) {
      FeesAreNotNegative(c, txs, |txs|, utxos, height);
    }
  }

  lemma {:induction false} SetBeforeFirst(txs: seq<Tx>, utxos: Utxos, height: int)
    requires txs != []
    ensures SetBefore(txs, 1, utxos, height) == utxos && FeesBefore(txs, 1, utxos, height) == 0
  {
  }

  lemma {:induction false} FeesAreNotNegative(c: Crypto, txs: seq<Tx>, i: nat, utxos: Utxos, height: int)
    requires 1 <= i <= |txs|
    requires forall j :: 1 <= j < |txs| ==> NormalTxOk(c, txs, j, utxos, height)
    ensures FeesBefore(txs, i, utxos, height) >= 0
  {
    hide InputTotal, OutputTotal, SetBefore, WellFormed, InputsSpendable;
    if i > 1 {
      FeesAreNotNegative(c, txs, i - 1, utxos, height);
      assert NormalTxOk(c, txs, i - 1, utxos, height);
    }
  }

  /** A block is accepted exactly when every rule holds, whatever order the validator makes its checks in. */
  lemma {:induction false} BlockAcceptedIff(c: Crypto, block: Block, chain: seq<Block>, utxos: Utxos, now: int)
    requires chain != []
    ensures CheckBlock(c, block, chain, utxos, now).Ok?
       <==> HeaderRules(c, block, chain, now) && BodyOk(c, block.transactions, utxos, |chain|)
  {
    hide CheckBody, BodyOk, TimeRules.MedianTimePast, Difficulty.NextUnits, Merkle.MerkleRoot, Work.TargetForDifficulty;
    if block.transactions != [] {
      CheckBodyIff(c, block.transactions, utxos, |chain|);
    }
  }
}
