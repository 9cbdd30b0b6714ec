/**
 The transactions of a chain as one list in chain order, each block's coinbase first. With distinct coinbases it is a
 sound history: each transaction is valid against the ones before it, under an unused txid, so that no txid occurs
 twice and no outpoint is spent twice. Origins says what holds with any coinbases.
 */
module History {
  import opened Prelude
  import opened Types
  import opened Ledger
  import opened Blocks

  ghost predicate Fresh(entries: seq<Entry>, txid: Hash) {
    forall i :: 0 <= i < |entries| ==> entries[i].tx.txid != txid
  }

  /** A coinbase or a transaction that validates against the entries before it, under an unused txid. */
  ghost predicate Admissible(c: Crypto, before: seq<Entry>, e: Entry) {
    && c.TxId(e.tx.body) == e.tx.txid
    && Fresh(before, e.tx.txid)
    && e.height.Some?
    && if IsCoinbase(e.tx) then e.tx.body.inputs == []
       else CheckTx(c, e.tx, State(before), e.height.value).Ok?
  }

  ghost predicate Sound(c: Crypto, entries: seq<Entry>) {
    entries == [] ||
    var n := |entries| - 1;
    Sound(c, entries[..n]) && Admissible(c, entries[..n], entries[n])
  }

  lemma {:induction false} SoundStep(c: Crypto, entries: seq<Entry>, e: Entry)
    requires Sound(c, entries) && Admissible(c, entries, e)
    ensures Sound(c, entries + [e])
  {
    assert (entries + [e])[..|entries|] == entries;
  }

  lemma {:induction false} SoundAt(c: Crypto, entries: seq<Entry>, k: nat)
    requires Sound(c, entries) && k < |entries|
    ensures Sound(c, entries[..k]) && Admissible(c, entries[..k], entries[k])
    decreases |entries|
  {
    hide Admissible;
    var n := |entries| - 1;
    if k < n {
      SoundAt(c, entries[..n], k);
      assert entries[..n][..k] == entries[..k];
    }
  }

  /** An unspent output was created by an entry, and is recorded exactly as that entry created it. */
  ghost predicate RecordedBy(e: Entry, op: Outpoint, record: Utxo) {
    Creates(e.tx, op) && record == Utxo(e.tx.body.outputs[op.vout], e.height, IsCoinbase(e.tx))
  }

  lemma {:induction false} Provenance(entries: seq<Entry>, op: Outpoint) returns (k: nat)
    requires op in State(entries)
    ensures k < |entries| && RecordedBy(entries[k], op, State(entries)[op])
  {
    var n := |entries| - 1;
    if Creates(entries[n].tx, op) {
      k := n;
    } else {
      k := Provenance(entries[..n], op);
    }
  }

  ghost predicate Spends(e: Entry, op: Outpoint) {
    exists i :: 0 <= i < |e.tx.body.inputs| && e.tx.body.inputs[i].prev == op
  }

  lemma {:induction false} SpentWasThere(c: Crypto, entries: seq<Entry>, k: nat, op: Outpoint) returns (j: nat)
    requires Sound(c, entries) && k < |entries| && Spends(entries[k], op)
    ensures op in State(entries[..k]) && op in Spent(entries[k].tx)
    ensures j < k && Creates(entries[j].tx, op)
  {
    SoundAt(c, entries, k);
    CheckTxAccepts(c, entries[k].tx, State(entries[..k]), entries[k].height.value);
    j := Provenance(entries[..k], op);
  }

  lemma {:induction false} GoneUnlessCreated(entries: seq<Entry>, op: Outpoint)
    requires entries != []
    requires op !in State(entries[..|entries| - 1]) || op in Spent(entries[|entries| - 1].tx)
    requires !Creates(entries[|entries| - 1].tx, op)
    ensures op !in State(entries)
  {
  }

  /** A spent outpoint never comes back. */
  lemma {:induction false} SpentStaysGone(c: Crypto, entries: seq<Entry>, k: nat, op: Outpoint)
    requires Sound(c, entries) && k < |entries| && Spends(entries[k], op)
    ensures op !in State(entries)
    decreases |entries|
  {
    var n := |entries| - 1;
    hide State, CheckTx;
    var j := SpentWasThere(c, entries, k, op);
    if k < n {
      SpentStaysGone(c, entries[..n], k, op);
    }
    SoundAt(c, entries, n);
    assert entries[..n][j].tx.txid == op.txid;
    GoneUnlessCreated(entries, op);
  }

  /** With injective txids a transaction that validates cannot carry a txid that is already in the list. */
  lemma {:induction false} ValidTxIsFresh(c: Crypto, entries: seq<Entry>, tx: Tx, height: int)
    requires c.TxIdsInjective() && Sound(c, entries) && CheckTx(c, tx, State(entries), height).Ok?
    ensures Fresh(entries, tx.txid)
  {
    CheckTxAccepts(c, tx, State(entries), height);
    forall i | 0 <= i < |entries| ensures entries[i].tx.txid != tx.txid {
      SoundAt(c, entries, i);
      if entries[i].tx.txid == tx.txid {
        c.SameTxId(entries[i].tx.body, tx.body);
        assert Spends(entries[i], tx.body.inputs[0].prev);
        SpentStaysGone(c, entries, i, tx.body.inputs[0].prev);
      }
    }
  }

  lemma {:induction false} NoTxidTwice(c: Crypto, entries: seq<Entry>, i: nat, j: nat)
    requires Sound(c, entries) && i < j < |entries|
    ensures entries[i].tx.txid != entries[j].tx.txid
  {
    SoundAt(c, entries, j);
    assert entries[..j][i] == entries[i];
  }

  lemma {:induction false} NoDoubleSpend(c: Crypto, entries: seq<Entry>, i: nat, j: nat, op: Outpoint)
    requires Sound(c, entries) && i < j < |entries| && Spends(entries[i], op)
    ensures !Spends(entries[j], op)
  {
    SoundAt(c, entries, j);
    SpentStaysGone(c, entries[..j], i, op);
    if Spends(entries[j], op) {
      CheckTxAccepts(c, entries[j].tx, State(entries[..j]), entries[j].height.value);
    }
  }

  // From chains to lists

  /** The one hypothesis about coinbases that the validator does not enforce. */
  ghost predicate DistinctCoinbases(chain: seq<Block>) {
    forall i, j :: 0 <= i < j < |chain| && chain[i].transactions != [] && chain[j].transactions != [] ==>
      chain[i].transactions[0].txid != chain[j].transactions[0].txid
  }

  /** Block 0 holds one coinbase under its own txid, as the genesis block does; its outputs are left open. */
  ghost predicate PlainBlockZero(c: Crypto, block: Block) {
    && block.header.height == 0
    && |block.transactions| == 1
    && IsCoinbase(block.transactions[0]) && block.transactions[0].body.inputs == []
    && c.TxId(block.transactions[0].body) == block.transactions[0].txid
  }

  lemma {:induction false} ApplyOrder(a: Tx, b: Tx, utxos: Utxos, h: Option<int>)
    requires a.txid != b.txid
    requires forall op :: op in Spent(a) ==> !Creates(b, op)
    requires forall op :: op in Spent(b) ==> !Creates(a, op)
    ensures ApplyTx(a, ApplyTx(b, utxos, h), h) == ApplyTx(b, ApplyTx(a, utxos, h), h)
  {
    hide ApplyTx;
    var ab, ba := ApplyTx(b, ApplyTx(a, utxos, h), h), ApplyTx(a, ApplyTx(b, utxos, h), h);
    forall op ensures (op in ab <==> op in ba) && (op in ab ==> ab[op] == ba[op]) {
      ApplyOrderAt(a, b, utxos, h, op);
    }
    assert ab == ba;
  }

  lemma {:induction false} ApplyOrderAt(a: Tx, b: Tx, utxos: Utxos, h: Option<int>, op: Outpoint)
    requires a.txid != b.txid
    requires op in Spent(a) ==> !Creates(b, op)
    requires op in Spent(b) ==> !Creates(a, op)
    ensures var ab, ba := ApplyTx(b, ApplyTx(a, utxos, h), h), ApplyTx(a, ApplyTx(b, utxos, h), h);
            (op in ab <==> op in ba) && (op in ab ==> ab[op] == ba[op])
  {
    hide ApplyTx;
    ApplyTxAt(a, utxos, h, op);
    ApplyTxAt(b, utxos, h, op);
    ApplyTxAt(b, ApplyTx(a, utxos, h), h, op);
    ApplyTxAt(a, ApplyTx(b, utxos, h), h, op);
  }

  ghost predicate NoKeyWith(utxos: Utxos, txid: Hash) {
    forall op :: op in utxos ==> op.txid != txid
  }

  /** One normal transaction, while the coinbase is in the list's set but not yet in the validator's. */
  lemma {:induction false} BodyStep(c: Crypto, coinbase: Tx, tx: Tx, entries: seq<Entry>, utxos: Utxos, h: int)
    requires c.TxIdsInjective() && coinbase.body.inputs == [] && tx.txid != coinbase.txid
    requires CheckTx(c, tx, utxos, h).Ok?
    requires Sound(c, entries) && State(entries) == ApplyTx(coinbase, utxos, Some(h)) && NoKeyWith(utxos, coinbase.txid)
    ensures Sound(c, entries + [Entry(tx, Some(h))])
    ensures State(entries + [Entry(tx, Some(h))]) == ApplyTx(coinbase, ApplyTx(tx, utxos, Some(h)), Some(h))
    ensures NoKeyWith(ApplyTx(tx, utxos, Some(h)), coinbase.txid)
  {
    var e := Entry(tx, Some(h));
    CheckTxAccepts(c, tx, utxos, h);
    assert AgreeOn(tx, utxos, State(entries));
    CheckTxReadsInputsOnly(c, tx, utxos, State(entries), h);
    ValidTxIsFresh(c, entries, tx, h);
    SoundStep(c, entries, e);
    StateStep(entries, e);
    assert Spent(coinbase) == {};
    ApplyOrder(tx, coinbase, utxos, Some(h));
  }

  /**
   The normal transactions of a block: validation applies them before the coinbase, the list has them after it.
   Both ends agree, and the list stays sound.
   */
  lemma {:induction false} BodyIsSound(c: Crypto, txs: seq<Tx>, i: nat, entries: seq<Entry>, utxos: Utxos, h: int,
                                       fees: int)
    requires c.TxIdsInjective() && 1 <= i <= |txs| && txs[0].body.inputs == []
    requires CheckTxs(c, txs, i, utxos, h, fees).Ok?
    requires Sound(c, entries) && State(entries) == ApplyTx(txs[0], utxos, Some(h)) && NoKeyWith(utxos, txs[0].txid)
    ensures var all := entries + EntriesAt(txs[i..], Some(h));
            && Sound(c, all)
            && State(all) == ApplyTx(txs[0], CheckTxs(c, txs, i, utxos, h, fees).value.utxos, Some(h))
    decreases |txs| - i
  {
    hide ApplyTx, CheckTx, State, Sound;
    if i == |txs| {
      assert entries + EntriesAt(txs[i..], Some(h)) == entries;
    } else {
      assert TxIds(txs[..i])[0] == txs[0].txid;
      var fee := CheckTx(c, txs[i], utxos, h).value;
      BodyStep(c, txs[0], txs[i], entries, utxos, h);
      BodyIsSound(c, txs, i + 1, entries + [Entry(txs[i], Some(h))], ApplyTx(txs[i], utxos, Some(h)), h, fees + fee);
      assert entries + EntriesAt(txs[i..], Some(h))
          == entries + [Entry(txs[i], Some(h))] + EntriesAt(txs[i + 1..], Some(h));
    }
  }

  lemma {:induction false} FreshMeansNoKey(entries: seq<Entry>, txid: Hash)
    requires Fresh(entries, txid)
    ensures NoKeyWith(State(entries), txid)
  {
    forall op | op in State(entries) ensures op.txid != txid {
      var k := Provenance(entries, op);
    }
  }

  lemma {:induction false} BlockIsSound(c: Crypto, entries: seq<Entry>, txs: seq<Tx>, h: int)
    requires c.TxIdsInjective() && txs != [] && Sound(c, entries)
    requires CheckBody(c, txs, State(entries), h).Ok? && Fresh(entries, txs[0].txid)
    ensures var all := entries + EntriesAt(txs, Some(h));
            Sound(c, all) && State(all) == CheckBody(c, txs, State(entries), h).value
  {
    hide ApplyTx, CheckTx, CheckTxs, State, Sound;
    var first := Entry(txs[0], Some(h));
    SoundStep(c, entries, first);
    StateStep(entries, first);
    FreshMeansNoKey(entries, txs[0].txid);
    BodyIsSound(c, txs, 1, entries + [first], State(entries), h, 0);
    assert entries + EntriesAt(txs, Some(h)) == entries + [first] + EntriesAt(txs[1..], Some(h));
  }

  lemma {:induction false} FlattenAt(chain: seq<Block>, k: nat) returns (b: nat, i: nat)
    requires k < |Flatten(chain)|
    ensures b < |chain| && i < |chain[b].transactions|
    ensures Flatten(chain)[k] == Entry(chain[b].transactions[i], Some(chain[b].header.height))
  {
    var n := |chain| - 1;
    var front := Flatten(chain[..n]);
    if k < |front| {
      b, i := FlattenAt(chain[..n], k);
    } else {
      b, i := n, k - |front|;
    }
  }

  lemma {:induction false} FlattenHas(chain: seq<Block>, b: nat, i: nat) returns (k: nat)
    requires b < |chain| && i < |chain[b].transactions|
    ensures k < |Flatten(chain)| && Flatten(chain)[k] == Entry(chain[b].transactions[i], Some(chain[b].header.height))
    decreases |chain|
  {
    var n := |chain| - 1;
    if b < n {
      k := FlattenHas(chain[..n], b, i);
    } else {
      k := |Flatten(chain[..n])| + i;
    }
  }

  ghost predicate CoinbasesOnlyFirst(chain: seq<Block>) {
    forall b, i :: 0 <= b < |chain| && 0 < i < |chain[b].transactions| ==> !IsCoinbase(chain[b].transactions[i])
  }

  lemma {:induction false} CoinbaseIsFresh(c: Crypto, chain: seq<Block>, block: Block)
    requires c.TxIdsInjective() && Sound(c, Flatten(chain)) && DistinctCoinbases(chain + [block])
    requires block.transactions != [] && CheckCoinbase(c, block.transactions[0]) == None
    requires CoinbasesOnlyFirst(chain)
    ensures Fresh(Flatten(chain), block.transactions[0].txid)
  {
    var entries, coinbase := Flatten(chain), block.transactions[0];
    forall k | 0 <= k < |entries| ensures entries[k].tx.txid != coinbase.txid {
      var b, i := FlattenAt(chain, k);
      SoundAt(c, entries, k);
      if i == 0 {
        assert (chain + [block])[b] == chain[b];
        assert (chain + [block])[|chain|] == block;
      } else if entries[k].tx.txid == coinbase.txid {
        c.SameTxId(entries[k].tx.body, coinbase.body);
      }
    }
  }

  lemma {:induction false} OnlyFirstIsCoinbase(c: Crypto, txs: seq<Tx>, i: nat, utxos: Utxos, h: int, fees: int)
    requires i <= |txs| && CheckTxs(c, txs, i, utxos, h, fees).Ok?
    ensures forall j :: i <= j < |txs| ==> !IsCoinbase(txs[j])
    decreases |txs| - i
  {
    hide ApplyTx, CheckInputs, CheckOutputs, TransactionFee;
    if i < |txs| {
      var fee := CheckTx(c, txs[i], utxos, h).value;
      OnlyFirstIsCoinbase(c, txs, i + 1, ApplyTx(txs[i], utxos, Some(h)), h, fees + fee);
    }
  }

  lemma {:induction false} CoinbasesComeFirst(c: Crypto, candidate: seq<Block>, now: int)
    requires CheckChain(c, candidate, now).Ok? && PlainBlockZero(c, candidate[0])
    ensures var chain := CheckChain(c, candidate, now).value.chain;
            CoinbasesOnlyFirst(chain)
  {
    hide CheckChain, CheckBlock, CheckBody, CheckTxs;
    var chain := CheckChain(c, candidate, now).value.chain;
    GenesisOfAcceptedChain(c, candidate, now);
    forall b | 0 < b < |chain|
      ensures forall i :: 0 < i < |chain[b].transactions| ==> !IsCoinbase(chain[b].transactions[i])
    {
      BlockOfAcceptedChain(c, candidate, b, now);
      var before := CheckChain(c, candidate[..b], now).value.utxos;
      AcceptedBody(c, candidate[b], chain[..b], before, now);
      OnlyFirstIsCoinbase(c, candidate[b].transactions, 1, before, b, 0);
    }
  }

  lemma {:induction false} DistinctCoinbasesPrefix(chain: seq<Block>, n: nat)
    requires DistinctCoinbases(chain) && n <= |chain|
    ensures DistinctCoinbases(chain[..n])
  {
  }

  lemma {:induction false} GenesisIsSound(c: Crypto, candidate: seq<Block>, now: int)
    requires |candidate| == 1 && PlainBlockZero(c, candidate[0]) && CheckChain(c, candidate, now).Ok?
    ensures var carry := CheckChain(c, candidate, now).value;
            carry.utxos == BuildUtxos(carry.chain) && Sound(c, Flatten(carry.chain))
  {
    hide State;
    var entries := Flatten(candidate);
    assert Flatten(candidate[..0]) == [];
    assert entries == EntriesAt(candidate[0].transactions, Some(0));
    assert entries == [] + [Entry(candidate[0].transactions[0], Some(0))];
    SoundStep(c, [], Entry(candidate[0].transactions[0], Some(0)));
  }

  /**
   With distinct coinbases the transactions of an accepted chain, each block's coinbase first, are a sound history:
   each is valid against the ones before it, under an unused txid, and validation is left with the set they make.
   Orders says exactly when the latter holds for any coinbases and any hashes.
   */
  lemma {:induction false} AcceptedChainIsSound(c: Crypto, candidate: seq<Block>, now: int)
    requires c.TxIdsInjective() && CheckChain(c, candidate, now).Ok? && PlainBlockZero(c, candidate[0])
    requires DistinctCoinbases(CheckChain(c, candidate, now).value.chain)
    ensures var carry := CheckChain(c, candidate, now).value;
            carry.utxos == BuildUtxos(carry.chain) && Sound(c, Flatten(carry.chain))
    decreases |candidate|
  {
    hide CheckChain, CheckBlock, CheckBody, CheckTxs, State, Sound, CheckCoinbase, DistinctCoinbases;
    var carry := CheckChain(c, candidate, now).value;
    var n := |candidate| - 1;
    if n == 0 {
      GenesisIsSound(c, candidate, now);
    } else {
      CheckChainLast(c, candidate, now);
      var chain, block := carry.chain[..n], carry.chain[n];
      assert carry.chain == chain + [block];
      DistinctCoinbasesPrefix(carry.chain, n);
      AcceptedChainIsSound(c, candidate[..n], now);
      CoinbasesComeFirst(c, candidate[..n], now);
      GenesisOfAcceptedChain(c, candidate, now);
      AcceptedBody(c, candidate[n], chain, CheckChain(c, candidate[..n], now).value.utxos, now);
      CoinbaseIsFresh(c, chain, block);
      BlockIsSound(c, Flatten(chain), block.transactions, n);
      FlattenStep(chain, block);
    }
  }
}
