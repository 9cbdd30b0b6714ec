/**
 Two orders for one block: validation applies the coinbase last, `build_utxos` applies it first. When the two leave
 the same set, for a block and for a whole chain, with any hashes and any coinbases.
 */
module Orders {
  import opened Prelude
  import opened Types
  import opened Ledger
  import opened Blocks
  import opened History

  /** No transaction of the block spends an output of the block's own coinbase. The block alone shows it. */
  ghost predicate SparesCoinbase(txs: seq<Tx>) {
    forall i, op :: 1 <= i < |txs| && op in Spent(txs[i]) ==> !Creates(txs[0], op)
  }

  /** The same for every block above block 0. */
  ghost predicate SparesCoinbases(blocks: seq<Block>) {
    forall b :: 0 < b < |blocks| ==> SparesCoinbase(blocks[b].transactions)
  }

  function ApplyList(txs: seq<Tx>, utxos: Utxos, h: int): Utxos {
    if txs == [] then utxos
    else ApplyTx(txs[|txs| - 1], ApplyList(txs[..|txs| - 1], utxos, h), Some(h))
  }

  // One coinbase and a list of transactions, whatever accepted them

  lemma {:induction false} OrderAt(coinbase: Tx, txs: seq<Tx>, utxos: Utxos, h: int, op: Outpoint)
    requires coinbase.body.inputs == []
    requires forall i :: 0 <= i < |txs| ==> txs[i].txid != coinbase.txid
    ensures var first, list := ApplyList(txs, ApplyTx(coinbase, utxos, Some(h)), h), ApplyList(txs, utxos, h);
            && (!Creates(coinbase, op) ==> (op in first <==> op in list) && (op in first ==> first[op] == list[op]))
            && (Creates(coinbase, op) ==>
                  && (op in first <==> forall i :: 0 <= i < |txs| ==> op !in Spent(txs[i]))
                  && (op in first ==> first[op] == Utxo(coinbase.body.outputs[op.vout], Some(h), IsCoinbase(coinbase))))
  {
    hide ApplyTx, Created;
    if txs == [] {
      ApplyTxAt(coinbase, utxos, Some(h), op);
    } else {
      var n := |txs| - 1;
      OrderAt(coinbase, txs[..n], utxos, h, op);
      ApplyTxAt(txs[n], ApplyList(txs[..n], ApplyTx(coinbase, utxos, Some(h)), h), Some(h), op);
      ApplyTxAt(txs[n], ApplyList(txs[..n], utxos, h), Some(h), op);
    }
  }

  lemma {:induction false} OrdersAgreeIff(coinbase: Tx, txs: seq<Tx>, utxos: Utxos, h: int)
    requires coinbase.body.inputs == []
    requires forall i :: 0 <= i < |txs| ==> txs[i].txid != coinbase.txid
    ensures ApplyTx(coinbase, ApplyList(txs, utxos, h), Some(h)) == ApplyList(txs, ApplyTx(coinbase, utxos, Some(h)), h)
       <==> forall i, op :: 0 <= i < |txs| && op in Spent(txs[i]) ==> !Creates(coinbase, op)
  {
    hide ApplyTx, ApplyList, InputKeys;
    var list := ApplyList(txs, utxos, h);
    var last, first := ApplyTx(coinbase, list, Some(h)), ApplyList(txs, ApplyTx(coinbase, utxos, Some(h)), h);
    forall op
      ensures !Creates(coinbase, op) || (forall i :: 0 <= i < |txs| ==> op !in Spent(txs[i])) ==>
                (op in first <==> op in last) && (op in first ==> first[op] == last[op])
      ensures Creates(coinbase, op) && !(forall i :: 0 <= i < |txs| ==> op !in Spent(txs[i])) ==>
                op in last && op !in first
    {
      OrderAt(coinbase, txs, utxos, h, op);
      NothingSpent(coinbase);
      ApplyTxAt(coinbase, list, Some(h), op);
    }
    if forall i, op :: 0 <= i < |txs| && op in Spent(txs[i]) ==> !Creates(coinbase, op) {
      assert first == last;
    }
  }

  lemma {:induction false} NothingSpent(tx: Tx)
    requires tx.body.inputs == []
    ensures Spent(tx) == {}
  {
  }

  // What validation leaves, and what a rebuild leaves, as lists

  /** The validator's pass over the normal transactions applies exactly those, in order. */
  lemma {:induction false} CheckTxsAppliesList(c: Crypto, txs: seq<Tx>, i: nat, utxos: Utxos, h: int, fees: int)
    requires 1 <= i <= |txs| && CheckTxs(c, txs, i, ApplyList(txs[1..i], utxos, h), h, fees).Ok?
    ensures CheckTxs(c, txs, i, ApplyList(txs[1..i], utxos, h), h, fees).value.utxos == ApplyList(txs[1..], utxos, h)
    ensures forall j :: i <= j < |txs| ==> txs[j].txid != txs[0].txid
    decreases |txs| - i
  {
    hide ApplyTx, CheckTx;
    if i == |txs| {
      assert txs[1..i] == txs[1..];
    } else {
      assert txs[1..i + 1][..i - 1] == txs[1..i];
      assert TxIds(txs[..i])[0] == txs[0].txid;
      var fee := CheckTx(c, txs[i], ApplyList(txs[1..i], utxos, h), h).value;
      CheckTxsAppliesList(c, txs, i + 1, utxos, h, fees + fee);
    }
  }

  lemma {:induction false} ApplyListFirst(txs: seq<Tx>, utxos: Utxos, h: int)
    requires txs != []
    ensures ApplyList(txs, utxos, h) == ApplyList(txs[1..], ApplyTx(txs[0], utxos, Some(h)), h)
  {
    hide ApplyTx;
    var n := |txs| - 1;
    if n > 0 {
      ApplyListFirst(txs[..n], utxos, h);
      assert txs[1..][..n - 1] == txs[..n][1..];
    } else {
      assert txs[..0] == [];
    }
  }

  lemma {:induction false} RebuildAppliesList(entries: seq<Entry>, txs: seq<Tx>, h: int)
    ensures State(entries + EntriesAt(txs, Some(h))) == ApplyList(txs, State(entries), h)
  {
    hide ApplyTx, State;
    if txs == [] {
      assert entries + EntriesAt(txs, Some(h)) == entries;
    } else {
      var n := |txs| - 1;
      RebuildAppliesList(entries, txs[..n], h);
      assert entries + EntriesAt(txs, Some(h)) == entries + EntriesAt(txs[..n], Some(h)) + [Entry(txs[n], Some(h))];
      StateStep(entries + EntriesAt(txs[..n], Some(h)), Entry(txs[n], Some(h)));
    }
  }

  lemma {:induction false} AcceptedLeavesList(c: Crypto, txs: seq<Tx>, utxos: Utxos, h: int)
    requires txs != [] && CheckBody(c, txs, utxos, h).Ok?
    ensures txs[0].body.inputs == [] && forall j :: 1 <= j < |txs| ==> txs[j].txid != txs[0].txid
    ensures CheckBody(c, txs, utxos, h).value == ApplyTx(txs[0], ApplyList(txs[1..], utxos, h), Some(h))
  {
    hide ApplyTx, CheckTxs;
    assert txs[1..1] == [];
    CheckTxsAppliesList(c, txs, 1, utxos, h, 0);
  }

  /**
   For an accepted body, the set that validation leaves is the set that a rebuild leaves if and only if no
   transaction of the block spends an output of the block's own coinbase.
   */
  lemma {:induction false} BodyOrdersAgreeIff(c: Crypto, entries: seq<Entry>, txs: seq<Tx>, h: int)
    requires txs != [] && CheckBody(c, txs, State(entries), h).Ok?
    ensures CheckBody(c, txs, State(entries), h).value == State(entries + EntriesAt(txs, Some(h)))
            <==> SparesCoinbase(txs)
  {
    hide ApplyTx, ApplyList, CheckBody, State;
    var utxos, rest := State(entries), txs[1..];
    AcceptedLeavesList(c, txs, utxos, h);
    RebuildAppliesList(entries, txs, h);
    ApplyListFirst(txs, utxos, h);
    OrdersAgreeIff(txs[0], rest, utxos, h);
    SparesByTail(txs);
  }

  lemma {:induction false} SparesByTail(txs: seq<Tx>)
    requires txs != []
    ensures SparesCoinbase(txs)
       <==> forall i, op :: 0 <= i < |txs[1..]| && op in Spent(txs[1..][i]) ==> !Creates(txs[0], op)
  {
    hide Spent, Creates;
    if forall i, op :: 0 <= i < |txs[1..]| && op in Spent(txs[1..][i]) ==> !Creates(txs[0], op) {
      forall i, op | 1 <= i < |txs| && op in Spent(txs[i]) ensures !Creates(txs[0], op) {
        assert txs[1..][i - 1] == txs[i];
      }
    }
  }

  // A whole chain

  /** The set carried through the first `n` blocks is the set rebuilt from them. */
  ghost predicate CarriedIsRebuilt(c: Crypto, candidate: seq<Block>, n: nat, now: int)
    requires n <= |candidate|
  {
    && CheckChain(c, candidate[..n], now).Ok?
    && CheckChain(c, candidate[..n], now).value.utxos == BuildUtxos(CheckChain(c, candidate[..n], now).value.chain)
  }

  lemma {:induction false} FirstBlockAgrees(c: Crypto, candidate: seq<Block>, now: int)
    requires candidate != [] && CheckChain(c, candidate[..1], now).Ok? && candidate[0].header.height == 0
    ensures CarriedIsRebuilt(c, candidate, 1, now)
  {
    hide State;
    assert Flatten(candidate[..1][..0]) == [];
    assert Flatten(candidate[..1]) == EntriesAt(candidate[0].transactions, Some(0));
  }

  lemma {:induction false} NextBlockAgreesIff(c: Crypto, candidate: seq<Block>, n: nat, now: int)
    requires 0 < n < |candidate| && CheckChain(c, candidate, now).Ok? && CarriedIsRebuilt(c, candidate, n, now)
    ensures CarriedIsRebuilt(c, candidate, n + 1, now) <==> SparesCoinbase(candidate[n].transactions)
  {
    hide CheckChain, CheckBlock, CheckBody, State, Flatten, SparesCoinbase;
    CheckChainPrefix(c, candidate, n, now);
    CheckChainPrefix(c, candidate, n + 1, now);
    CheckChainLast(c, candidate[..n + 1], now);
    assert candidate[..n + 1][..n] == candidate[..n];
    var before, after := CheckChain(c, candidate[..n], now).value, CheckChain(c, candidate[..n + 1], now).value;
    AcceptedBody(c, candidate[n], before.chain, before.utxos, now);
    BodyOrdersAgreeIff(c, Flatten(before.chain), candidate[n].transactions, n);
    FlattenStep(before.chain, after.chain[n]);
    assert after.chain == before.chain + [after.chain[n]];
  }

  /**
   Incremental equals rebuilt: at every height of an accepted candidate the carried UTXO set is the one rebuilt from
   the chain, if and only if no block above block 0 spends an output of its own coinbase.
   */
  lemma {:induction false} CarriedEqualsRebuiltIff(c: Crypto, candidate: seq<Block>, now: int)
    requires CheckChain(c, candidate, now).Ok? && candidate[0].header.height == 0
    ensures (forall n :: 0 < n <= |candidate| ==> CarriedIsRebuilt(c, candidate, n, now))
            <==> SparesCoinbases(candidate)
  {
    hide CarriedIsRebuilt, CheckChain, SparesCoinbase;
    if SparesCoinbases(candidate) {
      forall n | 0 < n <= |candidate| ensures CarriedIsRebuilt(c, candidate, n, now) {
        CarriedToHeight(c, candidate, n, now);
      }
    }
    if forall n :: 0 < n <= |candidate| ==> CarriedIsRebuilt(c, candidate, n, now) {
      forall b | 0 < b < |candidate| ensures SparesCoinbase(candidate[b].transactions) {
        NextBlockAgreesIff(c, candidate, b, now);
        assert CarriedIsRebuilt(c, candidate, b + 1, now);
      }
    }
  }

  lemma {:induction false} CarriedToHeight(c: Crypto, candidate: seq<Block>, n: nat, now: int)
    requires CheckChain(c, candidate, now).Ok? && candidate[0].header.height == 0 && SparesCoinbases(candidate)
    requires 0 < n <= |candidate|
    ensures CarriedIsRebuilt(c, candidate, n, now)
  {
    hide CarriedIsRebuilt, CheckChain, SparesCoinbase;
    if n == 1 {
      CheckChainPrefix(c, candidate, 1, now);
      FirstBlockAgrees(c, candidate, now);
    } else {
      CarriedToHeight(c, candidate, n - 1, now);
      NextBlockAgreesIff(c, candidate, n - 1, now);
    }
  }

  /** The whole candidate: what `validate_chain_candidate` carries is what `build_utxos` makes of the result. */
  lemma {:induction false} SparingChainIsRebuilt(c: Crypto, candidate: seq<Block>, now: int)
    requires CheckChain(c, candidate, now).Ok? && candidate[0].header.height == 0 && SparesCoinbases(candidate)
    ensures CheckChain(c, candidate, now).value.utxos == BuildUtxos(CheckChain(c, candidate, now).value.chain)
  {
    hide CheckChain, BuildUtxos, SparesCoinbases;
    CarriedToHeight(c, candidate, |candidate|, now);
    assert candidate[..|candidate|] == candidate;
  }

  // Distinct coinbase txids are enough

  /** With injective txids and coinbases that are all distinct, no block can spend an output of its own coinbase. */
  lemma {:induction false} DistinctCoinbasesAreSpared(c: Crypto, candidate: seq<Block>, now: int)
    requires c.TxIdsInjective() && CheckChain(c, candidate, now).Ok? && PlainBlockZero(c, candidate[0])
    requires DistinctCoinbases(CheckChain(c, candidate, now).value.chain)
    ensures SparesCoinbases(candidate)
  {
    hide CheckChain, BuildUtxos, Sound, SparesCoinbase, DistinctCoinbases;
    forall n | 0 < n <= |candidate| ensures CarriedIsRebuilt(c, candidate, n, now) {
      CheckChainPrefix(c, candidate, n, now);
      DistinctCoinbasesPrefix(CheckChain(c, candidate, now).value.chain, n);
      AcceptedChainIsSound(c, candidate[..n], now);
    }
    CarriedEqualsRebuiltIff(c, candidate, now);
  }
}
