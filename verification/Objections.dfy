/** Rejections: whatever error a validation raises names a rule that the transaction or the block breaks. */
module Objections {
  import opened Prelude
  import opened Types
  import opened Ledger
  import opened Blocks
  import Acceptance
  import Consensus
  import Difficulty
  import Merkle
  import TimeRules
  import Work

  /** What is wrong with input `i` when `e` is raised about it. */
  ghost predicate InputBreaks(c: Crypto, tx: Tx, utxos: Utxos, h: int, e: Error, i: nat)
    requires i < |tx.body.inputs|
  {
    var input := tx.body.inputs[i];
    match e
    case DuplicateInput => exists j :: 0 <= j < i && tx.body.inputs[j].prev == input.prev
    case MissingInput => input.prev !in utxos
    case NoCreationHeight => input.prev in utxos && utxos[input.prev].coinbase && utxos[input.prev].createdHeight.None?
    case ImmatureCoinbase =>
      input.prev in utxos && utxos[input.prev].coinbase && !Spendable(utxos, input.prev, h)
    case WrongOwner => input.prev in utxos && c.OwnerOf(input.pubkey) != utxos[input.prev].out.address
    case BadSignature => !c.SignatureOk(input.pubkey, input.signature, tx.body, i)
    case _ => false
  }

  ghost predicate OutputBreaks(c: Crypto, tx: Tx, e: Error, i: nat)
    requires i < |tx.body.outputs|
  {
    match e
    case NonPositiveOutput => tx.body.outputs[i].amount <= 0
    case BadAddress => !c.AddressOk(tx.body.outputs[i].address)
    case _ => false
  }

  /** The rule that `e` names, and that the transaction breaks. */
  ghost predicate TxBreaks(c: Crypto, tx: Tx, utxos: Utxos, h: int, e: Error) {
    match e
    case NoInputs => tx.body.inputs == []
    case NoOutputs => tx.body.outputs == []
    case TooManyInputs => |tx.body.inputs| > 128
    case TooManyOutputs => |tx.body.outputs| > 128
    case TxTooLarge => c.TxBytes(tx) > 100_000
    case UnexpectedCoinbase => IsCoinbase(tx)
    case BadTxId => c.TxId(tx.body) != tx.txid
    case NegativeTotals => InputTotal(tx, utxos) < 0
    case OutputsExceedInputs => OutputTotal(tx) > InputTotal(tx, utxos)
    case _ =>
      || (exists i :: 0 <= i < |tx.body.inputs| && InputBreaks(c, tx, utxos, h, e, i))
      || (exists i :: 0 <= i < |tx.body.outputs| && OutputBreaks(c, tx, e, i))
  }

  lemma {:induction false} InputsObjection(c: Crypto, tx: Tx, utxos: Utxos, h: int, i: nat, total: int)
    returns (k: nat)
    requires i <= |tx.body.inputs| && CheckInputs(c, tx, utxos, h, i, total).Err?
    ensures k < |tx.body.inputs| && InputBreaks(c, tx, utxos, h, CheckInputs(c, tx, utxos, h, i, total).error, k)
    decreases |tx.body.inputs| - i
  {
    var amount := CheckInput(c, tx, utxos, h, i);
    if amount.Ok? {
      k := InputsObjection(c, tx, utxos, h, i + 1, total + amount.value);
    } else {
      k := i;
    }
  }

  lemma {:induction false} OutputsObjection(c: Crypto, tx: Tx, i: nat, total: int) returns (k: nat)
    requires i <= |tx.body.outputs| && CheckOutputs(c, tx, i, total).Err?
    ensures k < |tx.body.outputs| && OutputBreaks(c, tx, CheckOutputs(c, tx, i, total).error, k)
    decreases |tx.body.outputs| - i
  {
    if tx.body.outputs[i].amount > 0 && c.AddressOk(tx.body.outputs[i].address) {
      k := OutputsObjection(c, tx, i + 1, total + tx.body.outputs[i].amount);
    } else {
      k := i;
    }
  }

  /** `validate_normal_tx` raises nothing that is not so. */
  lemma {:induction false} TxObjectionIsTrue(c: Crypto, tx: Tx, utxos: Utxos, h: int)
    requires CheckTx(c, tx, utxos, h).Err?
    ensures TxBreaks(c, tx, utxos, h, CheckTx(c, tx, utxos, h).error)
  {
    hide CheckInputs, CheckOutputs, InputBreaks, OutputBreaks, InputTotal, OutputTotal;
    if CheckShape(c, tx).None? {
      var inputs := CheckInputs(c, tx, utxos, h, 0, 0);
      var outputs := CheckOutputs(c, tx, 0, 0);
      if inputs.Err? {
        var k := InputsObjection(c, tx, utxos, h, 0, 0);
        InputError(c, tx, utxos, h, inputs.error, k);
      } else if outputs.Err? {
        var k := OutputsObjection(c, tx, 0, 0);
        OutputError(c, tx, outputs.error, k);
      } else {
        TotalsOf(c, tx, utxos, h);
      }
    }
  }

  lemma {:induction false} InputError(c: Crypto, tx: Tx, utxos: Utxos, h: int, e: Error, i: nat)
    requires i < |tx.body.inputs| && InputBreaks(c, tx, utxos, h, e, i)
    ensures e in {DuplicateInput, MissingInput, NoCreationHeight, ImmatureCoinbase, WrongOwner, BadSignature}
  {
  }

  lemma {:induction false} OutputError(c: Crypto, tx: Tx, e: Error, i: nat)
    requires i < |tx.body.outputs| && OutputBreaks(c, tx, e, i)
    ensures e in {NonPositiveOutput, BadAddress}
  {
  }

  lemma {:induction false} TotalsOf(c: Crypto, tx: Tx, utxos: Utxos, h: int)
    requires CheckInputs(c, tx, utxos, h, 0, 0).Ok? && CheckOutputs(c, tx, 0, 0).Ok?
    ensures CheckInputs(c, tx, utxos, h, 0, 0).value == InputTotal(tx, utxos)
    ensures CheckOutputs(c, tx, 0, 0).value == OutputTotal(tx) >= 0
  {
    CheckInputsIff(c, tx, utxos, h, 0, 0);
    CheckOutputsIff(c, tx, 0, 0);
    SumOutputsPositive(tx, |tx.body.outputs|);
  }

  /** The rule that `e` names, and that the block breaks on top of this chain and set. */
  ghost predicate BlockBreaks(c: Crypto, block: Block, chain: seq<Block>, utxos: Utxos, now: int, e: Error)
    requires chain != []
  {
    var b, txs := block.header, block.transactions;
    match e
    case WrongHeight => b.height != |chain|
    case WrongPrevHash => chain[|chain| - 1].hash != Some(b.prevHash)
    case TimestampTooOld => b.timestamp <= TimeRules.MedianTimePast(chain)
    case TimestampTooNew => b.timestamp > now + 7_200
    case BlockTooLarge => c.BlockBytes(block) > 2_000_000
    case BadVersion => b.version != 2
    case WrongDifficulty => b.difficulty != Difficulty.NextUnits(chain)
    case NoTransactions => txs == []
    case TooManyTransactions => |txs| > 1_000
    case BadMerkleRoot => b.merkleRoot != Merkle.MerkleRoot(c, TxIds(txs))
    case BadStoredHash => block.hash !in {None, Some(BlockHash(c, block))}
    case NoWork => BlockHash(c, block) > Work.TargetForDifficulty(b.difficulty)
    case _ => txs != [] && BodyBreaks(c, txs, utxos, |chain|, e)
  }

  ghost predicate BodyBreaks(c: Crypto, txs: seq<Tx>, utxos: Utxos, h: int, e: Error)
    requires txs != []
  {
    || CoinbaseBreaks(c, txs[0], e)
    || (e == DuplicateTx && HasDuplicate(txs))
    || (e == BadReward && txs[0].body.outputs != [] && txs[0].body.outputs[0].amount
          != Consensus.BlockSubsidy(h) + Acceptance.FeesBefore(txs, |txs|, utxos, h))
    || SomeTxBreaks(c, txs, utxos, h, e)
  }

  ghost predicate HasDuplicate(txs: seq<Tx>) {
    exists i, j :: 0 <= i < j < |txs| && txs[i].txid == txs[j].txid
  }

  /** A payment of the block breaks the rule against the set that it meets. */
  ghost predicate SomeTxBreaks(c: Crypto, txs: seq<Tx>, utxos: Utxos, h: int, e: Error) {
    exists i :: 1 <= i < |txs| && TxBreaks(c, txs[i], Acceptance.SetBefore(txs, i, utxos, h), h, e)
  }

  ghost predicate CoinbaseBreaks(c: Crypto, coinbase: Tx, e: Error) {
    match e
    case NoCoinbase => coinbase.body.inputs != [] || !IsCoinbase(coinbase)
    case BadCoinbaseId => c.TxId(coinbase.body) != coinbase.txid
    case BadCoinbaseOutputs => |coinbase.body.outputs| != 1
    case NegativeCoinbase => exists i :: 0 <= i < |coinbase.body.outputs| && coinbase.body.outputs[i].amount < 0
    case BadCoinbaseAddress =>
      exists i :: 0 <= i < |coinbase.body.outputs| && !c.AddressOk(coinbase.body.outputs[i].address)
    case _ => false
  }

  lemma {:induction false} TxsObjection(c: Crypto, txs: seq<Tx>, i: nat, utxos: Utxos, h: int, fees: int)
    requires 1 <= i <= |txs| && CheckTxs(c, txs, i, Acceptance.SetBefore(txs, i, utxos, h), h, fees).Err?
    ensures var e := CheckTxs(c, txs, i, Acceptance.SetBefore(txs, i, utxos, h), h, fees).error;
            (e == DuplicateTx && HasDuplicate(txs)) || SomeTxBreaks(c, txs, utxos, h, e)
    decreases |txs| - i
  {
    hide CheckTx, ApplyTx, TxBreaks, HasDuplicate, SomeTxBreaks;
    var before := Acceptance.SetBefore(txs, i, utxos, h);
    if txs[i].txid in TxIds(txs[..i]) {
      DuplicateAt(txs, i);
    } else if CheckTx(c, txs[i], before, h).Err? {
      TxBreaksAt(c, txs, i, utxos, h);
    } else {
      TxsObjection(c, txs, i + 1, utxos, h, fees + CheckTx(c, txs[i], before, h).value);
    }
  }

  lemma {:induction false} DuplicateAt(txs: seq<Tx>, i: nat)
    requires i < |txs| && txs[i].txid in TxIds(txs[..i])
    ensures HasDuplicate(txs)
  {
    var k :| 0 <= k < i && TxIds(txs[..i])[k] == txs[i].txid;
    assert txs[k].txid == txs[i].txid;
  }

  lemma {:induction false} TxBreaksAt(c: Crypto, txs: seq<Tx>, i: nat, utxos: Utxos, h: int)
    requires 1 <= i < |txs| && CheckTx(c, txs[i], Acceptance.SetBefore(txs, i, utxos, h), h).Err?
    ensures SomeTxBreaks(c, txs, utxos, h, CheckTx(c, txs[i], Acceptance.SetBefore(txs, i, utxos, h), h).error)
  {
    hide CheckTx, TxBreaks, Acceptance.SetBefore;
    TxObjectionIsTrue(c, txs[i], Acceptance.SetBefore(txs, i, utxos, h), h);
  }

  lemma {:induction false} BodyObjection(c: Crypto, txs: seq<Tx>, utxos: Utxos, h: int)
    requires txs != [] && CheckBody(c, txs, utxos, h).Err?
    ensures BodyBreaks(c, txs, utxos, h, CheckBody(c, txs, utxos, h).error)
  {
    hide CheckTxs, ApplyTx, TxBreaks, Acceptance.NormalTxOk, Consensus.BlockSubsidy, Acceptance.SetBefore,
         Acceptance.FeesBefore, CheckTx;
    if CheckCoinbase(c, txs[0]).None? {
      Acceptance.SetBeforeFirst(txs, utxos, h);
      if CheckTxs(c, txs, 1, utxos, h, 0).Err? {
        TxsObjection(c, txs, 1, utxos, h, 0);
      } else {
        Acceptance.CheckTxsIff(c, txs, 1, utxos, h, 0);
        Acceptance.FeesAreNotNegative(c, txs, |txs|, utxos, h);
      }
    }
  }

  /** `_validate_block_against` raises nothing that is not so. */
  lemma {:induction false} BlockObjectionIsTrue(c: Crypto, block: Block, chain: seq<Block>, utxos: Utxos, now: int)
    requires chain != [] && CheckBlock(c, block, chain, utxos, now).Err?
    ensures BlockBreaks(c, block, chain, utxos, now, CheckBlock(c, block, chain, utxos, now).error)
  {
    hide CheckBody, BodyBreaks, TimeRules.MedianTimePast, Difficulty.NextUnits, Merkle.MerkleRoot,
         Work.TargetForDifficulty;
    if CheckHeader(c, block, chain, now).None? && Work.MeetsWork(BlockHash(c, block), block.header.difficulty, 2) {
      BodyObjection(c, block.transactions, utxos, |chain|);
      BodyErrors(c, block.transactions, utxos, |chain|, CheckBody(c, block.transactions, utxos, |chain|).error);
    }
  }

  lemma {:induction false} BodyErrors(c: Crypto, txs: seq<Tx>, utxos: Utxos, h: int, e: Error)
    requires txs != [] && BodyBreaks(c, txs, utxos, h, e)
    ensures e !in {WrongHeight, WrongPrevHash, TimestampTooOld, TimestampTooNew, BlockTooLarge, BadVersion,
                   WrongDifficulty, NoTransactions, TooManyTransactions, BadMerkleRoot, BadStoredHash, NoWork}
  {
    hide Acceptance.SetBefore, Acceptance.FeesBefore, Consensus.BlockSubsidy, TxBreaks;
    if SomeTxBreaks(c, txs, utxos, h, e) {
      var i :| 1 <= i < |txs| && TxBreaks(c, txs[i], Acceptance.SetBefore(txs, i, utxos, h), h, e);
      TxErrors(c, txs[i], Acceptance.SetBefore(txs, i, utxos, h), h, e);
    }
  }

  lemma {:induction false} TxErrors(c: Crypto, tx: Tx, utxos: Utxos, h: int, e: Error)
    requires TxBreaks(c, tx, utxos, h, e)
    ensures e !in {WrongHeight, WrongPrevHash, TimestampTooOld, TimestampTooNew, BlockTooLarge, BadVersion,
                   WrongDifficulty, NoTransactions, TooManyTransactions, BadMerkleRoot, BadStoredHash, NoWork}
  {
  }

  /** `validate_chain_candidate` raises nothing that is not so: about block 0, or about the first block refused. */
  lemma {:induction false} ChainObjectionIsTrue(c: Crypto, candidate: seq<Block>, now: int) returns (i: nat)
    requires CheckChain(c, candidate, now).Err?
    ensures var e := CheckChain(c, candidate, now).error;
            if candidate == [] then e == EmptyChain
            else if !GenesisMatches(c, candidate[0]) then e == GenesisMismatch
            else && 0 < i < |candidate| && CheckChain(c, candidate[..i], now).Ok?
                 && var before := CheckChain(c, candidate[..i], now).value;
                    before.chain != [] && BlockBreaks(c, candidate[i], before.chain, before.utxos, now, e)
    decreases |candidate|
  {
    hide CheckBlock, BlockBreaks;
    i := 0;
    if |candidate| > 1 {
      var n := |candidate| - 1;
      if CheckChain(c, candidate[..n], now).Err? {
        i := ChainObjectionIsTrue(c, candidate[..n], now);
        if GenesisMatches(c, candidate[0]) {
          assert candidate[..n][..i] == candidate[..i];
        }
      } else {
        i := n;
        var before := CheckChain(c, candidate[..n], now).value;
        GenesisOfAcceptedChain(c, candidate[..n], now);
        BlockObjectionIsTrue(c, candidate[n], before.chain, before.utxos, now);
      }
    }
  }

  // The first objection is the one raised

  function TxRank(e: Error): nat {
    match e
    case NoInputs => 0
    case NoOutputs => 1
    case TooManyInputs => 2
    case TooManyOutputs => 3
    case TxTooLarge => 4
    case UnexpectedCoinbase => 5
    case BadTxId => 6
    case DuplicateInput | MissingInput | NoCreationHeight | ImmatureCoinbase | WrongOwner | BadSignature => 7
    case NonPositiveOutput | BadAddress => 8
    case NegativeTotals => 9
    case _ => 10
  }

  function InputRank(e: Error): nat {
    match e
    case DuplicateInput => 0
    case MissingInput => 1
    case NoCreationHeight => 2
    case ImmatureCoinbase => 3
    case WrongOwner => 4
    case _ => 5
  }

  lemma {:induction false} SoundInput(c: Crypto, tx: Tx, utxos: Utxos, h: int, i: nat, e: Error)
    requires i < |tx.body.inputs| && CheckInput(c, tx, utxos, h, i).Ok?
    ensures !InputBreaks(c, tx, utxos, h, e, i)
  {
  }

  lemma {:induction false} InputsInOrder(c: Crypto, tx: Tx, utxos: Utxos, h: int, i: nat, total: int) returns (k: nat)
    requires i <= |tx.body.inputs| && CheckInputs(c, tx, utxos, h, i, total).Err?
    ensures i <= k < |tx.body.inputs| && CheckInput(c, tx, utxos, h, k) == CheckInputs(c, tx, utxos, h, i, total)
    ensures forall j :: i <= j < k ==> CheckInput(c, tx, utxos, h, j).Ok?
    decreases |tx.body.inputs| - i
  {
    hide CheckInput;
    var amount := CheckInput(c, tx, utxos, h, i);
    if amount.Ok? {
      k := InputsInOrder(c, tx, utxos, h, i + 1, total + amount.value);
    } else {
      k := i;
    }
  }

  lemma {:induction false} InputErrorIsFirst(c: Crypto, tx: Tx, utxos: Utxos, h: int, k: nat, e: Error)
    requires k < |tx.body.inputs| && CheckInput(c, tx, utxos, h, k).Err?
    requires InputRank(e) < InputRank(CheckInput(c, tx, utxos, h, k).error)
    ensures !InputBreaks(c, tx, utxos, h, e, k)
  {
  }

  /**
   Where `validate_normal_tx` objects to an input, it is the first bad one, and the objection is the first to it in the
   order repeated, missing, without height, immature, not owned, not signed.
   */
  lemma {:induction false} InputObjectionIsFirst(c: Crypto, tx: Tx, utxos: Utxos, h: int) returns (k: nat)
    requires CheckInputs(c, tx, utxos, h, 0, 0).Err?
    ensures var e := CheckInputs(c, tx, utxos, h, 0, 0).error;
            && k < |tx.body.inputs| && InputBreaks(c, tx, utxos, h, e, k)
            && (forall j, other :: 0 <= j < k ==> !InputBreaks(c, tx, utxos, h, other, j))
            && (forall other :: InputRank(other) < InputRank(e) ==> !InputBreaks(c, tx, utxos, h, other, k))
  {
    hide InputBreaks, CheckInputs, CheckInput;
    k := InputsInOrder(c, tx, utxos, h, 0, 0);
    ThisInputBreaks(c, tx, utxos, h, k);
    forall j, other | 0 <= j < k ensures !InputBreaks(c, tx, utxos, h, other, j) {
      SoundInput(c, tx, utxos, h, j, other);
    }
    forall other | InputRank(other) < InputRank(CheckInput(c, tx, utxos, h, k).error)
      ensures !InputBreaks(c, tx, utxos, h, other, k)
    {
      InputErrorIsFirst(c, tx, utxos, h, k, other);
    }
  }

  lemma {:induction false} ThisInputBreaks(c: Crypto, tx: Tx, utxos: Utxos, h: int, k: nat)
    requires k < |tx.body.inputs| && CheckInput(c, tx, utxos, h, k).Err?
    ensures InputBreaks(c, tx, utxos, h, CheckInput(c, tx, utxos, h, k).error, k)
  {
  }

  /** No rule that comes before the one named is broken. */
  lemma {:induction false} TxObjectionIsFirst(c: Crypto, tx: Tx, utxos: Utxos, h: int, other: Error)
    requires CheckTx(c, tx, utxos, h).Err? && TxRank(other) < TxRank(CheckTx(c, tx, utxos, h).error)
    ensures !TxBreaks(c, tx, utxos, h, other)
  {
    hide TxBreaks, CheckInputs, CheckOutputs, TransactionFee;
    var e := CheckTx(c, tx, utxos, h).error;
    var inputs, outputs := CheckInputs(c, tx, utxos, h, 0, 0), CheckOutputs(c, tx, 0, 0);
    if CheckShape(c, tx).Some? {
      ShapeIsFirst(c, tx, utxos, h, other);
    } else if inputs.Err? {
      var k := InputsInOrder(c, tx, utxos, h, 0, 0);
      ThisInputBreaks(c, tx, utxos, h, k);
      InputError(c, tx, utxos, h, e, k);
      ShapeIsSound(c, tx, utxos, h, other);
    } else {
      NoInputBreaks(c, tx, utxos, h, other);
      if outputs.Err? {
        var k := OutputsObjection(c, tx, 0, 0);
        OutputError(c, tx, e, k);
        NotAnOutputError(c, tx, other);
        InputsAreSound(c, tx, utxos, h, other);
      } else {
        NoOutputBreaks(c, tx, other);
        TotalsOf(c, tx, utxos, h);
        TotalsAreLast(c, tx, utxos, h, other);
      }
    }
  }

  lemma {:induction false} ShapeIsFirst(c: Crypto, tx: Tx, utxos: Utxos, h: int, e: Error)
    requires CheckShape(c, tx).Some? && TxRank(e) < TxRank(CheckShape(c, tx).value)
    ensures !TxBreaks(c, tx, utxos, h, e)
  {
    hide InputBreaks, OutputBreaks;
  }

  lemma {:induction false} ShapeIsSound(c: Crypto, tx: Tx, utxos: Utxos, h: int, e: Error)
    requires CheckShape(c, tx).None? && TxRank(e) < 7
    ensures !TxBreaks(c, tx, utxos, h, e)
  {
    hide InputBreaks, OutputBreaks;
  }

  lemma {:induction false} InputsAreSound(c: Crypto, tx: Tx, utxos: Utxos, h: int, e: Error)
    requires CheckShape(c, tx).None? && TxRank(e) < 8
    requires forall i :: 0 <= i < |tx.body.inputs| ==> !InputBreaks(c, tx, utxos, h, e, i)
    requires forall i :: 0 <= i < |tx.body.outputs| ==> !OutputBreaks(c, tx, e, i)
    ensures !TxBreaks(c, tx, utxos, h, e)
  {
    hide InputBreaks, OutputBreaks;
  }

  lemma {:induction false} TotalsAreLast(c: Crypto, tx: Tx, utxos: Utxos, h: int, e: Error)
    requires CheckShape(c, tx).None? && TransactionFee(InputTotal(tx, utxos), OutputTotal(tx)).Err?
    requires TxRank(e) < TxRank(TransactionFee(InputTotal(tx, utxos), OutputTotal(tx)).error) && OutputTotal(tx) >= 0
    requires forall i :: 0 <= i < |tx.body.inputs| ==> !InputBreaks(c, tx, utxos, h, e, i)
    requires forall i :: 0 <= i < |tx.body.outputs| ==> !OutputBreaks(c, tx, e, i)
    ensures !TxBreaks(c, tx, utxos, h, e)
  {
    hide InputBreaks, OutputBreaks, InputTotal, OutputTotal;
  }

  lemma {:induction false} NotAnOutputError(c: Crypto, tx: Tx, e: Error)
    requires TxRank(e) < 8
    ensures forall i :: 0 <= i < |tx.body.outputs| ==> !OutputBreaks(c, tx, e, i)
  {
  }

  lemma {:induction false} NoInputBreaks(c: Crypto, tx: Tx, utxos: Utxos, h: int, e: Error)
    requires CheckInputs(c, tx, utxos, h, 0, 0).Ok?
    ensures forall i :: 0 <= i < |tx.body.inputs| ==> !InputBreaks(c, tx, utxos, h, e, i)
  {
    hide CheckInputs, CheckInput, InputBreaks, InputOk;
    CheckInputsIff(c, tx, utxos, h, 0, 0);
    forall i | 0 <= i < |tx.body.inputs| ensures !InputBreaks(c, tx, utxos, h, e, i) {
      CheckInputIff(c, tx, utxos, h, i);
      SoundInput(c, tx, utxos, h, i, e);
    }
  }

  lemma {:induction false} NoOutputBreaks(c: Crypto, tx: Tx, e: Error)
    requires CheckOutputs(c, tx, 0, 0).Ok?
    ensures forall i :: 0 <= i < |tx.body.outputs| ==> !OutputBreaks(c, tx, e, i)
  {
    CheckOutputsIff(c, tx, 0, 0);
  }

  /** The header rules in the order in which they are checked; the body comes after all of them. */
  function BlockRank(e: Error): nat {
    match e
    case WrongHeight => 0
    case WrongPrevHash => 1
    case TimestampTooOld => 2
    case TimestampTooNew => 3
    case BlockTooLarge => 4
    case BadVersion => 5
    case WrongDifficulty => 6
    case NoTransactions => 7
    case TooManyTransactions => 8
    case BadMerkleRoot => 9
    case BadStoredHash => 10
    case NoWork => 11
    case _ => 12
  }

  lemma {:induction false} BlockObjectionIsFirst(c: Crypto, block: Block, chain: seq<Block>, utxos: Utxos, now: int,
                                                 other: Error)
    requires chain != [] && CheckBlock(c, block, chain, utxos, now).Err?
    requires BlockRank(other) < BlockRank(CheckBlock(c, block, chain, utxos, now).error)
    ensures !BlockBreaks(c, block, chain, utxos, now, other)
  {
    hide CheckBody, BodyBreaks, TimeRules.MedianTimePast, Difficulty.NextUnits, Merkle.MerkleRoot,
         Work.TargetForDifficulty;
  }

  function CoinbaseRank(e: Error): nat {
    match e
    case NoCoinbase => 0
    case BadCoinbaseId => 1
    case BadCoinbaseOutputs => 2
    case NegativeCoinbase => 3
    case BadCoinbaseAddress => 4
    case _ => 5
  }

  /**
   In the body the coinbase comes first, then each payment in turn, a repeated txid before anything else about it, and
   the reward last.
   */
  lemma {:induction false} BodyObjectionIsFirst(c: Crypto, txs: seq<Tx>, utxos: Utxos, h: int) returns (i: nat)
    requires txs != [] && CheckBody(c, txs, utxos, h).Err?
    ensures var e := CheckBody(c, txs, utxos, h).error;
            if CheckCoinbase(c, txs[0]).Some? then
              && CoinbaseBreaks(c, txs[0], e)
              && forall other :: CoinbaseRank(other) < CoinbaseRank(e) ==> !CoinbaseBreaks(c, txs[0], other)
            else
              && 1 <= i <= |txs|
              && (forall j :: 1 <= j < i ==> Acceptance.NormalTxOk(c, txs, j, utxos, h) && Acceptance.NewTxid(txs, j))
              && if i == |txs| then e == BadReward
                 else if !Acceptance.NewTxid(txs, i) then e == DuplicateTx
                 else CheckTx(c, txs[i], Acceptance.SetBefore(txs, i, utxos, h), h) == Err(e)
  {
    hide CheckTxs, ApplyTx, Acceptance.NormalTxOk, Consensus.BlockSubsidy, Acceptance.SetBefore,
         Acceptance.FeesBefore, CheckTx, Acceptance.NewTxid;
    i := 0;
    if CheckCoinbase(c, txs[0]).Some? {
      CoinbaseObjectionIsFirst(c, txs[0]);
    } else {
      Acceptance.SetBeforeFirst(txs, utxos, h);
      if CheckTxs(c, txs, 1, utxos, h, 0).Err? {
        i := PaymentsInOrder(c, txs, 1, utxos, h, 0);
      } else {
        i := |txs|;
        Acceptance.CheckTxsIff(c, txs, 1, utxos, h, 0);
        Acceptance.FeesAreNotNegative(c, txs, |txs|, utxos, h);
      }
    }
  }

  lemma {:induction false} CoinbaseObjectionIsFirst(c: Crypto, coinbase: Tx)
    requires CheckCoinbase(c, coinbase).Some?
    ensures var e := CheckCoinbase(c, coinbase).value;
            && CoinbaseBreaks(c, coinbase, e)
            && forall other :: CoinbaseRank(other) < CoinbaseRank(e) ==> !CoinbaseBreaks(c, coinbase, other)
  {
  }

  lemma {:induction false} PaymentsInOrder(c: Crypto, txs: seq<Tx>, i: nat, utxos: Utxos, h: int, fees: int)
    returns (k: nat)
    requires 1 <= i <= |txs| && CheckTxs(c, txs, i, Acceptance.SetBefore(txs, i, utxos, h), h, fees).Err?
    ensures var e := CheckTxs(c, txs, i, Acceptance.SetBefore(txs, i, utxos, h), h, fees).error;
            && i <= k < |txs|
            && (forall j :: i <= j < k ==> Acceptance.NormalTxOk(c, txs, j, utxos, h) && Acceptance.NewTxid(txs, j))
            && if !Acceptance.NewTxid(txs, k) then e == DuplicateTx
               else CheckTx(c, txs[k], Acceptance.SetBefore(txs, k, utxos, h), h) == Err(e)
    decreases |txs| - i
  {
    hide CheckTx, ApplyTx, WellFormed, InputsSpendable, InputTotal, OutputTotal;
    var before := Acceptance.SetBefore(txs, i, utxos, h);
    CheckTxAccepts(c, txs[i], before, h);
    if Acceptance.NewTxid(txs, i) && CheckTx(c, txs[i], before, h).Ok? {
      k := PaymentsInOrder(c, txs, i + 1, utxos, h, fees + CheckTx(c, txs[i], before, h).value);
    } else {
      k := i;
    }
  }
}
