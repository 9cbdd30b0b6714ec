/**
 The rebuilt UTXO set is never more than the carried one. So whatever `submit_block` accepts, which rebuilds,
 `validate_chain_candidate` accepts, which carries; the other way one objection is left, a missing input.
 */
module Inclusion {
  import opened Prelude
  import opened Types
  import opened Ledger
  import opened Blocks
  import opened Orders
  import Acceptance

  /** Every record of `part` is in `whole`, unchanged. */
  ghost predicate Within(part: Utxos, whole: Utxos) {
    forall op :: op in part ==> op in whole && part[op] == whole[op]
  }

  // Validation against more outputs

  lemma {:induction false} ApplyTxWithin(tx: Tx, part: Utxos, whole: Utxos, height: Option<int>)
    requires Within(part, whole)
    ensures Within(ApplyTx(tx, part, height), ApplyTx(tx, whole, height))
  {
  }

  lemma {:induction false} CheckTxOnLarger(c: Crypto, tx: Tx, part: Utxos, whole: Utxos, h: int)
    requires Within(part, whole) && CheckTx(c, tx, part, h).Ok?
    ensures CheckTx(c, tx, whole, h) == CheckTx(c, tx, part, h)
  {
    CheckTxAccepts(c, tx, part, h);
    CheckTxReadsInputsOnly(c, tx, part, whole, h);
  }

  lemma {:induction false} CheckTxsOnLarger(c: Crypto, txs: seq<Tx>, i: nat, part: Utxos, whole: Utxos, h: int,
                                            fees: int)
    requires i <= |txs| && Within(part, whole) && CheckTxs(c, txs, i, part, h, fees).Ok?
    ensures var small, large := CheckTxs(c, txs, i, part, h, fees), CheckTxs(c, txs, i, whole, h, fees);
            large.Ok? && large.value.fees == small.value.fees && Within(small.value.utxos, large.value.utxos)
    decreases |txs| - i
  {
    hide CheckTx, ApplyTx, Within;
    if i < |txs| {
      CheckTxOnLarger(c, txs[i], part, whole, h);
      ApplyTxWithin(txs[i], part, whole, Some(h));
      var fee := CheckTx(c, txs[i], part, h).value;
      CheckTxsOnLarger(c, txs, i + 1, ApplyTx(txs[i], part, Some(h)), ApplyTx(txs[i], whole, Some(h)), h, fees + fee);
    }
  }

  /** A body accepted against a part of a set is accepted against the set, and leaves a part of what that leaves. */
  lemma {:induction false} CheckBodyOnLarger(c: Crypto, txs: seq<Tx>, part: Utxos, whole: Utxos, h: int)
    requires txs != [] && Within(part, whole) && CheckBody(c, txs, part, h).Ok?
    ensures CheckBody(c, txs, whole, h).Ok?
    ensures Within(CheckBody(c, txs, part, h).value, CheckBody(c, txs, whole, h).value)
  {
    hide CheckTxs, ApplyTx, Within, CheckCoinbase;
    CheckTxsOnLarger(c, txs, 1, part, whole, h, 0);
    var small, large := CheckTxs(c, txs, 1, part, h, 0).value, CheckTxs(c, txs, 1, whole, h, 0).value;
    ApplyTxWithin(txs[0], small.utxos, large.utxos, Some(h));
  }

  lemma {:induction false} CheckBlockOnLarger(c: Crypto, block: Block, chain: seq<Block>, part: Utxos, whole: Utxos,
                                              now: int)
    requires chain != [] && Within(part, whole) && CheckBlock(c, block, chain, part, now).Ok?
    ensures CheckBlock(c, block, chain, whole, now).Ok?
  {
    AcceptedBody(c, block, chain, part, now);
    hide CheckHeader, CheckBody, Within;
    CheckBodyOnLarger(c, block.transactions, part, whole, |chain|);
  }

  // Validation against fewer outputs

  lemma {:induction false} CheckInputsOnSmaller(c: Crypto, tx: Tx, part: Utxos, whole: Utxos, h: int, i: nat,
                                                total: int)
    requires Within(part, whole) && i <= |tx.body.inputs| && CheckInputs(c, tx, whole, h, i, total).Ok?
    ensures || CheckInputs(c, tx, part, h, i, total) == CheckInputs(c, tx, whole, h, i, total)
            || CheckInputs(c, tx, part, h, i, total) == Err(MissingInput)
    decreases |tx.body.inputs| - i
  {
    hide InputKeys;
    if i < |tx.body.inputs| && tx.body.inputs[i].prev in part {
      assert CheckInput(c, tx, part, h, i) == CheckInput(c, tx, whole, h, i);
      CheckInputsOnSmaller(c, tx, part, whole, h, i + 1, total + CheckInput(c, tx, whole, h, i).value);
    }
  }

  lemma {:induction false} CheckTxOnSmaller(c: Crypto, tx: Tx, part: Utxos, whole: Utxos, h: int)
    requires Within(part, whole) && CheckTx(c, tx, whole, h).Ok?
    ensures CheckTx(c, tx, part, h) == CheckTx(c, tx, whole, h) || CheckTx(c, tx, part, h) == Err(MissingInput)
  {
    hide CheckInputs, CheckOutputs, CheckShape, Within;
    CheckInputsOnSmaller(c, tx, part, whole, h, 0, 0);
  }

  lemma {:induction false} CheckTxsOnSmaller(c: Crypto, txs: seq<Tx>, i: nat, part: Utxos, whole: Utxos, h: int,
                                             fees: int)
    requires i <= |txs| && Within(part, whole) && CheckTxs(c, txs, i, whole, h, fees).Ok?
    ensures var small, large := CheckTxs(c, txs, i, part, h, fees), CheckTxs(c, txs, i, whole, h, fees);
            small == Err(MissingInput) || (small.Ok? && small.value.fees == large.value.fees)
    decreases |txs| - i
  {
    hide CheckTx, ApplyTx, Within;
    if i < |txs| {
      CheckTxOnSmaller(c, txs[i], part, whole, h);
      ApplyTxWithin(txs[i], part, whole, Some(h));
      var fee := CheckTx(c, txs[i], whole, h).value;
      CheckTxsOnSmaller(c, txs, i + 1, ApplyTx(txs[i], part, Some(h)), ApplyTx(txs[i], whole, Some(h)), h, fees + fee);
    }
  }

  /** Every input of the block's normal transactions is in the set it meets. */
  ghost predicate InputsMet(txs: seq<Tx>, utxos: Utxos, h: int) {
    forall i, n :: 1 <= i < |txs| && 0 <= n < |txs[i].body.inputs| ==>
      txs[i].body.inputs[n].prev in Acceptance.SetBefore(txs, i, utxos, h)
  }

  lemma {:induction false} AcceptedInputsAreMet(c: Crypto, txs: seq<Tx>, utxos: Utxos, h: int)
    requires txs != [] && CheckBody(c, txs, utxos, h).Ok?
    ensures InputsMet(txs, utxos, h)
  {
    hide CheckBody, Acceptance.SetBefore;
    Acceptance.CheckBodyIff(c, txs, utxos, h);
    forall i | 1 <= i < |txs|
      ensures forall n :: 0 <= n < |txs[i].body.inputs| ==>
                txs[i].body.inputs[n].prev in Acceptance.SetBefore(txs, i, utxos, h)
    {
      assert Acceptance.NormalTxOk(c, txs, i, utxos, h);
    }
  }

  lemma {:induction false} SetBeforeWithin(txs: seq<Tx>, i: nat, part: Utxos, whole: Utxos, h: int)
    requires 1 <= i <= |txs| && Within(part, whole)
    ensures Within(Acceptance.SetBefore(txs, i, part, h), Acceptance.SetBefore(txs, i, whole, h))
  {
    hide ApplyTx, Within;
    if i > 1 {
      SetBeforeWithin(txs, i - 1, part, whole, h);
      var small, large := Acceptance.SetBefore(txs, i - 1, part, h), Acceptance.SetBefore(txs, i - 1, whole, h);
      ApplyTxWithin(txs[i - 1], small, large, Some(h));
    }
  }

  lemma {:induction false} MetInputsAreAccepted(c: Crypto, txs: seq<Tx>, i: nat, part: Utxos, whole: Utxos, h: int,
                                                fees: int)
    requires 1 <= i <= |txs| && Within(part, whole) && InputsMet(txs, part, h)
    requires CheckTxs(c, txs, i, Acceptance.SetBefore(txs, i, whole, h), h, fees).Ok?
    ensures CheckTxs(c, txs, i, Acceptance.SetBefore(txs, i, part, h), h, fees).Ok?
    decreases |txs| - i
  {
    hide CheckTx, ApplyTx;
    if i < |txs| {
      var small, large := Acceptance.SetBefore(txs, i, part, h), Acceptance.SetBefore(txs, i, whole, h);
      SetBeforeWithin(txs, i, part, whole, h);
      assert AgreeOn(txs[i], small, large);
      CheckTxReadsInputsOnly(c, txs[i], small, large, h);
      MetInputsAreAccepted(c, txs, i + 1, part, whole, h, fees + CheckTx(c, txs[i], large, h).value);
    }
  }

  /**
   A body accepted against a set is accepted against a part of it exactly when the part has every input it spends,
   and otherwise the objection is a missing input.
   */
  lemma {:induction false} CheckBodyOnSmaller(c: Crypto, txs: seq<Tx>, part: Utxos, whole: Utxos, h: int)
    requires txs != [] && Within(part, whole) && CheckBody(c, txs, whole, h).Ok?
    ensures CheckBody(c, txs, part, h).Ok? <==> InputsMet(txs, part, h)
    ensures CheckBody(c, txs, part, h).Err? ==> CheckBody(c, txs, part, h) == Err(MissingInput)
  {
    hide CheckTxs, ApplyTx, Within, CheckCoinbase, InputsMet;
    CheckTxsOnSmaller(c, txs, 1, part, whole, h, 0);
    if CheckBody(c, txs, part, h).Ok? {
      AcceptedInputsAreMet(c, txs, part, h);
    }
    if InputsMet(txs, part, h) {
      MetInputsAreAccepted(c, txs, 1, part, whole, h, 0);
    }
  }

  lemma {:induction false} CheckBlockOnSmaller(c: Crypto, block: Block, chain: seq<Block>, part: Utxos, whole: Utxos,
                                               now: int)
    requires chain != [] && Within(part, whole) && CheckBlock(c, block, chain, whole, now).Ok?
    ensures CheckBlock(c, block, chain, part, now).Ok? <==> InputsMet(block.transactions, part, |chain|)
    ensures CheckBlock(c, block, chain, part, now).Err? ==> CheckBlock(c, block, chain, part, now) == Err(MissingInput)
  {
    AcceptedBody(c, block, chain, whole, now);
    hide CheckHeader, CheckBody, Within, InputsMet;
    CheckBodyOnSmaller(c, block.transactions, part, whole, |chain|);
  }

  // The rebuilt set is part of the carried one

  lemma {:induction false} ApplyListWithin(txs: seq<Tx>, part: Utxos, whole: Utxos, h: int)
    requires Within(part, whole)
    ensures Within(ApplyList(txs, part, h), ApplyList(txs, whole, h))
  {
    hide ApplyTx, Within;
    if txs != [] {
      var n := |txs| - 1;
      ApplyListWithin(txs[..n], part, whole, h);
      ApplyTxWithin(txs[n], ApplyList(txs[..n], part, h), ApplyList(txs[..n], whole, h), Some(h));
    }
  }

  /** Applying the coinbase first leaves a part of what applying it last leaves. */
  lemma {:induction false} FirstWithinLast(coinbase: Tx, txs: seq<Tx>, utxos: Utxos, h: int)
    requires coinbase.body.inputs == [] && forall i :: 0 <= i < |txs| ==> txs[i].txid != coinbase.txid
    ensures var first := ApplyList(txs, ApplyTx(coinbase, utxos, Some(h)), h);
            Within(first, ApplyTx(coinbase, ApplyList(txs, utxos, h), Some(h)))
  {
    hide ApplyTx, ApplyList, InputKeys;
    var first := ApplyList(txs, ApplyTx(coinbase, utxos, Some(h)), h);
    var last := ApplyTx(coinbase, ApplyList(txs, utxos, h), Some(h));
    NothingSpent(coinbase);
    forall op | op in first ensures op in last && first[op] == last[op] {
      OrderAt(coinbase, txs, utxos, h, op);
      ApplyTxAt(coinbase, ApplyList(txs, utxos, h), Some(h), op);
    }
  }

  lemma {:induction false} WithinTrans(a: Utxos, b: Utxos, d: Utxos)
    requires Within(a, b) && Within(b, d)
    ensures Within(a, d)
  {
  }

  /** One block: rebuilt from part of what it was validated against, the set stays part of what validation leaves. */
  lemma {:induction false} RebuiltBodyWithin(c: Crypto, entries: seq<Entry>, txs: seq<Tx>, carried: Utxos, h: int)
    requires txs != [] && Within(State(entries), carried) && CheckBody(c, txs, carried, h).Ok?
    ensures Within(State(entries + EntriesAt(txs, Some(h))), CheckBody(c, txs, carried, h).value)
  {
    hide ApplyTx, ApplyList, CheckBody, State, Within;
    var rest, rebuilt := txs[1..], State(entries);
    var part, whole := ApplyTx(txs[0], rebuilt, Some(h)), ApplyTx(txs[0], carried, Some(h));
    AcceptedLeavesList(c, txs, carried, h);
    RebuildAppliesList(entries, txs, h);
    ApplyListFirst(txs, rebuilt, h);
    ApplyTxWithin(txs[0], rebuilt, carried, Some(h));
    ApplyListWithin(rest, part, whole, h);
    FirstWithinLast(txs[0], rest, carried, h);
    WithinTrans(ApplyList(rest, part, h), ApplyList(rest, whole, h), CheckBody(c, txs, carried, h).value);
  }

  /** This validated chain and a carried set that the rebuilt set is part of come from validating `raw`. */
  ghost predicate From(c: Crypto, raw: seq<Block>, chain: seq<Block>, now: int) {
    && CheckChain(c, raw, now).Ok? && CheckChain(c, raw, now).value.chain == chain && raw[0].header.height == 0
    && Within(BuildUtxos(chain), CheckChain(c, raw, now).value.utxos)
  }

  lemma {:induction false} FirstBlockWithin(c: Crypto, candidate: seq<Block>, now: int)
    requires |candidate| == 1 && CheckChain(c, candidate, now).Ok? && candidate[0].header.height == 0
    ensures From(c, candidate, candidate, now)
  {
    assert candidate[..1] == candidate;
    FirstBlockAgrees(c, candidate, now);
  }

  /** A validated chain extended by a block that either set accepts. */
  lemma {:induction false} FromStep(c: Crypto, raw: seq<Block>, chain: seq<Block>, block: Block, now: int)
    requires From(c, raw, chain, now) && chain != []
    requires CheckBlock(c, block, chain, CheckChain(c, raw, now).value.utxos, now).Ok?
    ensures From(c, raw + [block], chain + [Finalized(c, block)], now)
  {
    hide CheckChain, CheckBlock, CheckBody, State, Flatten, Within;
    var carried := CheckChain(c, raw, now).value.utxos;
    CheckChainStep(c, raw, block, now);
    AcceptedBody(c, block, chain, carried, now);
    RebuiltBodyWithin(c, Flatten(chain), block.transactions, carried, |chain|);
    FlattenStep(chain, Finalized(c, block));
  }

  /** Whatever validates from scratch, above a block 0 at height 0. */
  lemma {:induction false} AcceptedIsFrom(c: Crypto, candidate: seq<Block>, now: int)
    requires CheckChain(c, candidate, now).Ok? && candidate[0].header.height == 0
    ensures From(c, candidate, CheckChain(c, candidate, now).value.chain, now)
    decreases |candidate|
  {
    hide CheckBlock, From;
    var n := |candidate| - 1;
    if n == 0 {
      FirstBlockWithin(c, candidate, now);
    } else {
      CheckChainLast(c, candidate, now);
      AcceptedIsFrom(c, candidate[..n], now);
      hide CheckChain;
      var chain := CheckChain(c, candidate, now).value.chain;
      assert chain == chain[..n] + [chain[n]] && candidate == candidate[..n] + [candidate[n]];
      FromStep(c, candidate[..n], chain[..n], candidate[n], now);
    }
  }
}
