/**
 Repeated txids: when an accepted chain has one, and when a payment that the chain has confirmed is accepted again.
 Nothing here assumes that coinbases are distinct.
 */
module Recurrence {
  import opened Prelude
  import opened Types
  import opened Ledger
  import opened Blocks
  import opened Headers
  import opened History
  import opened Inclusion
  import opened Mempool
  import opened Operations
  import opened Replay
  import Acceptance

  /**
   On an accepted chain no txid occurs twice if and only if the coinbase txids are distinct: only a coinbase can be
   the first transaction to come back.
   */
  lemma {:induction false} TxidsRecurIff(c: Crypto, candidate: seq<Block>, now: int)
    requires c.TxIdsInjective() && CheckChain(c, candidate, now).Ok? && PlainBlockZero(c, candidate[0])
    ensures var chain := CheckChain(c, candidate, now).value.chain;
            DistinctCoinbases(chain)
            <==> forall i, j :: 0 <= i < j < |Flatten(chain)| ==> Flatten(chain)[i].tx.txid != Flatten(chain)[j].tx.txid
  {
    hide CheckChain, Sound, State, Flatten;
    var chain := CheckChain(c, candidate, now).value.chain;
    var entries := Flatten(chain);
    if DistinctCoinbases(chain) {
      AcceptedChainIsSound(c, candidate, now);
      forall i, j | 0 <= i < j < |entries| ensures entries[i].tx.txid != entries[j].tx.txid {
        NoTxidTwice(c, entries, i, j);
      }
    }
    if forall i, j :: 0 <= i < j < |entries| ==> entries[i].tx.txid != entries[j].tx.txid {
      AcceptedHeights(c, candidate, now);
      forall a, b | 0 <= a < b < |chain| && chain[a].transactions != [] && chain[b].transactions != []
        ensures chain[a].transactions[0].txid != chain[b].transactions[0].txid
      {
        var k := FlattenHas(chain, a, 0);
        var l := FlattenHas(chain, b, 0);
        assert entries[k].height != entries[l].height;
      }
    }
  }

  lemma {:induction false} AcceptedHeights(c: Crypto, candidate: seq<Block>, now: int)
    requires CheckChain(c, candidate, now).Ok? && candidate[0].header.height == 0
    ensures var chain := CheckChain(c, candidate, now).value.chain;
            forall b :: 0 <= b < |chain| ==> chain[b].header.height == b
  {
    hide CheckChain, CheckBlock, CheckBody;
    var chain := CheckChain(c, candidate, now).value.chain;
    GenesisOfAcceptedChain(c, candidate, now);
    forall b | 0 < b < |chain| ensures chain[b].header.height == b {
      BlockOfAcceptedChain(c, candidate, b, now);
      AcceptedBody(c, candidate[b], chain[..b], CheckChain(c, candidate[..b], now).value.utxos, now);
    }
  }

  // Sets that hold nothing but outputs under their makers' own txids

  ghost predicate MadeBy(body: TxBody, op: Outpoint, record: Utxo) {
    && 0 <= op.vout < |body.outputs|
    && record.out == body.outputs[op.vout] && record.coinbase == body.coinbase.Some?
  }

  ghost predicate Honest(c: Crypto, utxos: Utxos) {
    forall op :: op in utxos ==> exists body :: c.TxId(body) == op.txid && MadeBy(body, op, utxos[op])
  }

  ghost predicate OwnTxids(c: Crypto, txs: seq<Tx>) {
    forall i :: 0 <= i < |txs| ==> c.TxId(txs[i].body) == txs[i].txid
  }

  lemma {:induction false} HonestApply(c: Crypto, tx: Tx, utxos: Utxos, height: Option<int>)
    requires Honest(c, utxos) && c.TxId(tx.body) == tx.txid
    ensures Honest(c, ApplyTx(tx, utxos, height))
  {
    hide ApplyTx;
    var after := ApplyTx(tx, utxos, height);
    forall op | op in after ensures exists body :: c.TxId(body) == op.txid && MadeBy(body, op, after[op]) {
      ApplyTxAt(tx, utxos, height, op);
      if Creates(tx, op) {
        assert MadeBy(tx.body, op, after[op]);
      } else {
        var body :| c.TxId(body) == op.txid && MadeBy(body, op, utxos[op]);
        assert MadeBy(body, op, after[op]);
      }
    }
  }

  lemma {:induction false} HonestState(c: Crypto, entries: seq<Entry>)
    requires forall k :: 0 <= k < |entries| ==> c.TxId(entries[k].tx.body) == entries[k].tx.txid
    ensures Honest(c, State(entries))
  {
    hide ApplyTx, Honest;
    if entries == [] {
      NothingIsHonest(c);
    } else {
      var n := |entries| - 1;
      HonestState(c, entries[..n]);
      HonestApply(c, entries[n].tx, State(entries[..n]), entries[n].height);
    }
  }

  lemma {:induction false} NothingIsHonest(c: Crypto)
    ensures Honest(c, map[])
  {
  }

  /** Two honest sets record an output alike, up to its height. */
  lemma {:induction false} HonestAgree(c: Crypto, a: Utxos, b: Utxos, op: Outpoint)
    requires c.TxIdsInjective() && Honest(c, a) && Honest(c, b) && op in a && op in b
    ensures a[op].out == b[op].out && a[op].coinbase == b[op].coinbase
  {
    var x :| c.TxId(x) == op.txid && MadeBy(x, op, a[op]);
    var y :| c.TxId(y) == op.txid && MadeBy(y, op, b[op]);
    c.SameTxId(x, y);
  }

  /** A payment that validated once validates again exactly when all its inputs are there and mature. */
  lemma {:induction false} ValidatesAgainIff(c: Crypto, tx: Tx, before: Utxos, made: int, seen: Utxos, h: int)
    requires c.TxIdsInjective() && Honest(c, before) && Honest(c, seen) && CheckTx(c, tx, before, made).Ok?
    ensures CheckTx(c, tx, seen, h).Ok?
       <==> forall n :: 0 <= n < |tx.body.inputs| ==> Spendable(seen, tx.body.inputs[n].prev, h)
  {
    hide CheckTx, WellFormed, Honest, CanSpend, Spendable;
    CheckTxAccepts(c, tx, before, made);
    forall n | 0 <= n < |tx.body.inputs|
      ensures var op := tx.body.inputs[n].prev;
              && (op in seen && CanSpend(c, tx, n, seen[op], h) <==> Spendable(seen, op, h))
              && (op in seen ==> seen[op].out == before[op].out)
    {
      AgainAtInput(c, tx, n, before, made, seen, h);
    }
    if InputsSpendable(c, tx, seen, h) {
      SumInputsAgree(tx, before, seen, |tx.body.inputs|);
    }
    CheckTxAccepts(c, tx, seen, h);
  }

  lemma {:induction false} AgainAtInput(c: Crypto, tx: Tx, n: nat, before: Utxos, made: int, seen: Utxos, h: int)
    requires c.TxIdsInjective() && Honest(c, before) && Honest(c, seen) && n < |tx.body.inputs|
    requires var op := tx.body.inputs[n].prev; op in before && CanSpend(c, tx, n, before[op], made)
    ensures var op := tx.body.inputs[n].prev;
            && (op in seen && CanSpend(c, tx, n, seen[op], h) <==> Spendable(seen, op, h))
            && (op in seen ==> seen[op].out == before[op].out)
  {
    hide Honest;
    var op := tx.body.inputs[n].prev;
    if op in seen {
      HonestAgree(c, before, seen, op);
    }
  }

  // The sets of an accepted chain

  lemma {:induction false} HonestBefore(c: Crypto, txs: seq<Tx>, i: nat, utxos: Utxos, h: int)
    requires 1 <= i <= |txs| && Honest(c, utxos) && OwnTxids(c, txs)
    ensures Honest(c, Acceptance.SetBefore(txs, i, utxos, h))
  {
    hide Honest, ApplyTx;
    if i > 1 {
      HonestBefore(c, txs, i - 1, utxos, h);
      HonestApply(c, txs[i - 1], Acceptance.SetBefore(txs, i - 1, utxos, h), Some(h));
    }
  }

  lemma {:induction false} BodyOwnTxids(c: Crypto, txs: seq<Tx>, utxos: Utxos, h: int)
    requires txs != [] && CheckBody(c, txs, utxos, h).Ok?
    ensures OwnTxids(c, txs)
  {
    hide CheckBody, Acceptance.SetBefore, InputsSpendable;
    Acceptance.CheckBodyIff(c, txs, utxos, h);
    forall i | 1 <= i < |txs| ensures c.TxId(txs[i].body) == txs[i].txid {
      assert Acceptance.NormalTxOk(c, txs, i, utxos, h);
    }
  }

  lemma {:induction false} HonestBody(c: Crypto, txs: seq<Tx>, utxos: Utxos, h: int)
    requires txs != [] && CheckBody(c, txs, utxos, h).Ok? && Honest(c, utxos)
    ensures Honest(c, CheckBody(c, txs, utxos, h).value)
  {
    hide CheckBody, Honest, ApplyTx, Acceptance.SetBefore;
    BodyOwnTxids(c, txs, utxos, h);
    Acceptance.CheckBodyIff(c, txs, utxos, h);
    HonestBefore(c, txs, |txs|, utxos, h);
    HonestApply(c, txs[0], Acceptance.SetBefore(txs, |txs|, utxos, h), Some(h));
  }

  lemma {:induction false} HonestChain(c: Crypto, candidate: seq<Block>, now: int)
    requires CheckChain(c, candidate, now).Ok? && OwnTxids(c, candidate[0].transactions)
    ensures Honest(c, CheckChain(c, candidate, now).value.utxos)
    decreases |candidate|
  {
    hide CheckBlock, CheckBody, Honest;
    var n := |candidate| - 1;
    if n == 0 {
      HonestState(c, EntriesAt(candidate[0].transactions, Some(0)));
    } else {
      hide CheckChain;
      CheckChainLast(c, candidate, now);
      HonestChain(c, candidate[..n], now);
      var before := CheckChain(c, candidate[..n], now).value;
      AcceptedBody(c, candidate[n], before.chain, before.utxos, now);
      HonestBody(c, candidate[n].transactions, before.utxos, n);
    }
  }

  /** The honest set against which a confirmed payment was accepted. */
  lemma {:induction false} ConfirmedAgainst(c: Crypto, candidate: seq<Block>, now: int, b: nat, i: nat)
    returns (before: Utxos)
    requires CheckChain(c, candidate, now).Ok? && OwnTxids(c, candidate[0].transactions)
    requires 0 < b < |candidate| && 1 <= i < |candidate[b].transactions|
    ensures Honest(c, before) && CheckTx(c, candidate[b].transactions[i], before, b).Ok?
  {
    hide CheckChain, CheckBlock, CheckBody, Honest, CheckTx, Acceptance.SetBefore;
    BlockOfAcceptedChain(c, candidate, b, now);
    assert candidate[..b][0] == candidate[0];
    HonestChain(c, candidate[..b], now);
    var below, txs := CheckChain(c, candidate[..b], now).value, candidate[b].transactions;
    AcceptedBody(c, candidate[b], below.chain, below.utxos, now);
    Acceptance.CheckBodyIff(c, txs, below.utxos, b);
    assert Acceptance.NormalTxOk(c, txs, i, below.utxos, b);
    BodyOwnTxids(c, txs, below.utxos, b);
    HonestBefore(c, txs, i, below.utxos, b);
    before := Acceptance.SetBefore(txs, i, below.utxos, b);
    CheckTxAccepts(c, txs[i], before, b);
  }

  // A confirmed payment at the mempool's door

  /** A payment in some block of the chain. */
  ghost predicate Confirmed(chain: seq<Block>, tx: Tx) {
    exists b, i :: 0 <= b < |chain| && 1 <= i < |chain[b].transactions| && chain[b].transactions[i] == tx
  }

  /**
   A payment that the chain has confirmed comes back into the mempool: it is older than the blocks looked at, there is
   room, and every output it spent is back in the set and mature.
   */
  ghost predicate Reenters(s: Node, tx: Tx) {
    && Confirmed(s.chain, tx) && tx.txid !in IdSet(s.mempool) && tx.txid !in RecentIds(s.chain)
    && |s.mempool| < 5_000
    && forall n :: 0 <= n < |tx.body.inputs| ==>
         Spendable(BuildWithMempool(s.chain, s.mempool), tx.body.inputs[n].prev, |s.chain|)
  }

  /** A validated chain above the true genesis and an unconfirmed mempool, with any coinbases. */
  ghost predicate Settled(c: Crypto, s: Node, now: int) {
    && c.TxIdsInjective() && s.chain != [] && s.chain[0] == Genesis(c)
    && Validated(c, s.chain, now) && MempoolOk(c, s.chain, s.mempool)
  }

  lemma {:induction false} SeenIsHonest(c: Crypto, s: Node, now: int)
    requires Settled(c, s, now)
    ensures Honest(c, BuildWithMempool(s.chain, s.mempool))
  {
    hide Validated, State, Honest;
    ValidatedFacts(c, s.chain, now);
    var entries := Flatten(s.chain) + EntriesAt(s.mempool, None);
    forall k | 0 <= k < |entries| ensures c.TxId(entries[k].tx.body) == entries[k].tx.txid {
      if k < |Flatten(s.chain)| {
        var b, i := FlattenAt(s.chain, k);
        assert HonestTxids(c, s.chain[b].transactions);
      } else {
        assert Unconfirmed(c, Flatten(s.chain), s.mempool[k - |Flatten(s.chain)|]);
      }
    }
    HonestState(c, entries);
  }

  lemma {:induction false} ConfirmedValidatedOnce(c: Crypto, chain: seq<Block>, now: int, tx: Tx)
    returns (before: Utxos, made: int)
    requires Validated(c, chain, now) && chain != [] && chain[0] == Genesis(c) && Confirmed(chain, tx)
    ensures Honest(c, before) && CheckTx(c, tx, before, made).Ok? && !IsCoinbase(tx)
  {
    hide CheckChain, BuildUtxos, Within, Honest, CheckTx, CheckBlock;
    var raw :| From(c, raw, chain, now);
    GenesisOfAcceptedChain(c, raw, now);
    var b, i :| 0 <= b < |chain| && 1 <= i < |chain[b].transactions| && chain[b].transactions[i] == tx;
    BlockOfAcceptedChain(c, raw, b, now);
    before := ConfirmedAgainst(c, raw, now, b, i);
    made := b;
    CheckTxAccepts(c, tx, before, made);
  }

  /** A confirmed payment offered to the mempool is taken exactly when it re-enters. */
  lemma {:induction false} ConfirmedReentersIff(c: Crypto, s: Node, now: int, tx: Tx)
    requires Settled(c, s, now) && Confirmed(s.chain, tx)
    ensures AddTransaction(c, s, tx).node == (if Reenters(s, tx) then s.(mempool := s.mempool + [tx]) else s)
  {
    hide CheckTx, Settled, State, Honest, Spendable, RecentIds, Confirmed, Validated, MempoolOk;
    SettledFacts(c, s, now);
    var before, made := ConfirmedValidatedOnce(c, s.chain, now, tx);
    SeenIsHonest(c, s, now);
    ValidatesAgainIff(c, tx, before, made, BuildWithMempool(s.chain, s.mempool), |s.chain|);
  }

  lemma {:induction false} SettledFacts(c: Crypto, s: Node, now: int)
    requires Settled(c, s, now)
    ensures c.TxIdsInjective() && s.chain != [] && s.chain[0] == Genesis(c) && Validated(c, s.chain, now)
    ensures MempoolOk(c, s.chain, s.mempool)
  {
  }

  /** The mempool keeps its invariant over an addition exactly when no confirmed payment re-enters by it. */
  lemma {:induction false} AddKeepsUnlessReentry(c: Crypto, s: Node, now: int, tx: Tx)
    requires Settled(c, s, now)
    ensures MempoolOk(c, s.chain, AddTransaction(c, s, tx).node.mempool) <==> !Reenters(s, tx)
  {
    hide CheckTx, Settled, State, Spendable, RecentIds, Confirmed, Validated, Fresh;
    SettledFacts(c, s, now);
    var after := AddTransaction(c, s, tx).node;
    if Confirmed(s.chain, tx) {
      ConfirmedReentersIff(c, s, now, tx);
      ConfirmedIsNotFresh(s.chain, tx);
      if Reenters(s, tx) {
        assert after.mempool[|s.mempool|] == tx;
      }
    } else if after != s {
      CheckTxAccepts(c, tx, BuildWithMempool(s.chain, s.mempool), |s.chain|);
      UnconfirmedIsFresh(c, s, now, tx);
    }
  }

  lemma {:induction false} ConfirmedIsNotFresh(chain: seq<Block>, tx: Tx)
    requires Confirmed(chain, tx)
    ensures !Fresh(Flatten(chain), tx.txid)
  {
    hide Flatten;
    var b, i :| 0 <= b < |chain| && 1 <= i < |chain[b].transactions| && chain[b].transactions[i] == tx;
    var k := FlattenHas(chain, b, i);
  }

  lemma {:induction false} OutsideIsUnconfirmed(chain: seq<Block>, tx: Tx)
    requires tx.txid !in ChainIds(chain)
    ensures !Confirmed(chain, tx)
  {
    hide Flatten;
    IdsOfChain(chain, tx.txid);
    if Confirmed(chain, tx) {
      ConfirmedIsNotFresh(chain, tx);
    }
  }

  lemma {:induction false} UnconfirmedIsFresh(c: Crypto, s: Node, now: int, tx: Tx)
    requires Settled(c, s, now) && !Confirmed(s.chain, tx) && !IsCoinbase(tx) && c.TxId(tx.body) == tx.txid
    ensures Fresh(Flatten(s.chain), tx.txid)
  {
    hide Validated, MempoolOk, Flatten;
    ValidatedFacts(c, s.chain, now);
    forall k | 0 <= k < |Flatten(s.chain)| ensures Flatten(s.chain)[k].tx.txid != tx.txid {
      var b, i := FlattenAt(s.chain, k);
      assert HonestTxids(c, s.chain[b].transactions);
      if Flatten(s.chain)[k].tx.txid == tx.txid {
        c.SameTxId(s.chain[b].transactions[i].body, tx.body);
        FirstIsCoinbase(c, s.chain, b);
      }
    }
  }

  lemma {:induction false} FirstIsCoinbase(c: Crypto, chain: seq<Block>, b: nat)
    requires HeadersOk(c, chain) && BodiesOk(c, chain) && b < |chain|
    ensures chain[b].transactions != [] && IsCoinbase(chain[b].transactions[0])
  {
    if b > 0 {
      assert HeaderOk(c, chain, b);
    }
  }
}
