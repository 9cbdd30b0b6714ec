/** The mempool against the chain: what each locked operation keeps. */
module Mempool {
  import opened Prelude
  import opened Types
  import opened Ledger
  import opened Blocks
  import opened History
  import opened Operations

  ghost predicate DistinctTxids(txs: seq<Tx>) {
    forall i, j :: 0 <= i < j < |txs| ==> txs[i].txid != txs[j].txid
  }

  /** A pending transaction is no coinbase, carries its own txid, and is confirmed nowhere in the chain. */
  ghost predicate Unconfirmed(c: Crypto, entries: seq<Entry>, tx: Tx) {
    !IsCoinbase(tx) && c.TxId(tx.body) == tx.txid && Fresh(entries, tx.txid)
  }

  ghost predicate MempoolOk(c: Crypto, chain: seq<Block>, mempool: seq<Tx>) {
    && |mempool| <= 5_000
    && DistinctTxids(mempool)
    && forall i :: 0 <= i < |mempool| ==> Unconfirmed(c, Flatten(chain), mempool[i])
  }

  lemma {:induction false} IdsOfChain(chain: seq<Block>, id: Hash)
    ensures id in ChainIds(chain) <==> !Fresh(Flatten(chain), id)
  {
    if id in ChainIds(chain) {
      var b :| 0 <= b < |chain| && id in IdSet(chain[b].transactions);
      var i :| 0 <= i < |chain[b].transactions| && chain[b].transactions[i].txid == id;
      var k := FlattenHas(chain, b, i);
    }
    if !Fresh(Flatten(chain), id) {
      var k :| 0 <= k < |Flatten(chain)| && Flatten(chain)[k].tx.txid == id;
      var b, i := FlattenAt(chain, k);
      assert id in IdSet(chain[b].transactions);
    }
  }

  lemma {:induction false} PendingStep(entries: seq<Entry>, pending: seq<Tx>)
    requires pending != []
    ensures var n := |pending| - 1;
            var before := State(entries + EntriesAt(pending[..n], None));
            State(entries + EntriesAt(pending, None)) == ApplyTx(pending[n], before, None)
  {
    var n := |pending| - 1;
    assert entries + EntriesAt(pending, None) == entries + EntriesAt(pending[..n], None) + [Entry(pending[n], None)];
    StateStep(entries + EntriesAt(pending[..n], None), Entry(pending[n], None));
  }

  lemma {:induction false} NothingPending(entries: seq<Entry>)
    ensures entries + EntriesAt([], None) == entries
  {
  }

  lemma {:induction false} PendingCreates(entries: seq<Entry>, pending: seq<Tx>, op: Outpoint) returns (p: nat)
    requires op in State(entries + EntriesAt(pending, None)) && op !in State(entries)
    ensures p < |pending| && Creates(pending[p], op)
  {
    hide State, ApplyTx;
    p := 0;
    if pending == [] {
      NothingPending(entries);
    } else {
      var n := |pending| - 1;
      PendingStep(entries, pending);
      ApplyTxAt(pending[n], State(entries + EntriesAt(pending[..n], None)), None, op);
      if Creates(pending[n], op) {
        p := n;
      } else {
        p := PendingCreates(entries, pending[..n], op);
      }
    }
  }

  /**
   A transaction that validates against chain and mempool is confirmed nowhere in the chain, however far back:
   its first input would have to be an output that some pending transaction created, under a confirmed txid.
   */
  lemma {:induction false} ValidIsUnconfirmed(c: Crypto, entries: seq<Entry>, pending: seq<Tx>, tx: Tx, h: int)
    requires c.TxIdsInjective() && Sound(c, entries)
    requires forall i :: 0 <= i < |pending| ==> Fresh(entries, pending[i].txid)
    requires CheckTx(c, tx, State(entries + EntriesAt(pending, None)), h).Ok?
    ensures Unconfirmed(c, entries, tx)
  {
    hide Sound, State, CheckTx;
    CheckTxAccepts(c, tx, State(entries + EntriesAt(pending, None)), h);
    var op := tx.body.inputs[0].prev;
    forall k | 0 <= k < |entries| ensures entries[k].tx.txid != tx.txid {
      if entries[k].tx.txid == tx.txid {
        ConfirmedSpends(c, entries, k, tx);
        SpentTxidIsTaken(c, entries, k, op);
        var p := PendingCreates(entries, pending, op);
      }
    }
  }

  lemma {:induction false} SpentTxidIsTaken(c: Crypto, entries: seq<Entry>, k: nat, op: Outpoint)
    requires Sound(c, entries) && k < |entries| && Spends(entries[k], op)
    ensures op !in State(entries) && !Fresh(entries, op.txid)
  {
    var j := SpentWasThere(c, entries, k, op);
    SpentStaysGone(c, entries, k, op);
    assert entries[j].tx.txid == op.txid;
  }

  lemma {:induction false} ConfirmedSpends(c: Crypto, entries: seq<Entry>, k: nat, tx: Tx)
    requires c.TxIdsInjective() && Sound(c, entries) && k < |entries|
    requires entries[k].tx.txid == tx.txid == c.TxId(tx.body) && tx.body.inputs != []
    ensures entries[k].tx.body == tx.body && Spends(entries[k], tx.body.inputs[0].prev)
  {
    hide Sound, State, CheckTx;
    SoundAt(c, entries, k);
    c.SameTxId(entries[k].tx.body, tx.body);
    assert entries[k].tx.body.inputs[0].prev == tx.body.inputs[0].prev;
  }

  // What the operations keep

  lemma {:induction false} AddKeeps(c: Crypto, s: Node, tx: Tx)
    requires c.TxIdsInjective() && Sound(c, Flatten(s.chain)) && MempoolOk(c, s.chain, s.mempool)
    ensures MempoolOk(c, s.chain, AddTransaction(c, s, tx).node.mempool)
    ensures AddTransaction(c, s, tx).node.chain == s.chain
  {
    hide Sound, State, CheckTx, RecentIds;
    var after := AddTransaction(c, s, tx).node;
    if after != s {
      ValidIsUnconfirmed(c, Flatten(s.chain), s.mempool, tx, |s.chain|);
    }
  }

  /** Offering a known transaction again is harmless: same answer, nothing changes. */
  lemma {:induction false} AddTwice(c: Crypto, s: Node, tx: Tx)
    requires AddTransaction(c, s, tx).result.Ok?
    ensures var after := AddTransaction(c, s, tx).node;
            && AddTransaction(c, after, tx) == Outcome(after, Ok(tx.txid))
            && (tx.txid in IdSet(after.mempool) || tx.txid in RecentIds(s.chain))
  {
    hide CheckTx, RecentIds, BuildWithMempool;
    var after := AddTransaction(c, s, tx).node;
    if after != s {
      assert after.mempool[|s.mempool|] == tx;
    }
  }

  lemma {:induction false} AddAllKeeps(c: Crypto, s: Node, txs: seq<Tx>)
    requires c.TxIdsInjective() && Sound(c, Flatten(s.chain)) && MempoolOk(c, s.chain, s.mempool)
    ensures MempoolOk(c, s.chain, AddAll(c, s, txs).mempool) && AddAll(c, s, txs).chain == s.chain
  {
    hide Sound, AddTransaction, MempoolOk;
    if txs != [] {
      AddAllKeeps(c, s, txs[..|txs| - 1]);
      AddKeeps(c, AddAll(c, s, txs[..|txs| - 1]), txs[|txs| - 1]);
    }
  }

  lemma {:induction false} WithoutIsDistinct(txs: seq<Tx>, ids: set<Hash>)
    requires DistinctTxids(txs)
    ensures DistinctTxids(Without(txs, ids))
  {
    if txs != [] {
      var n := |txs| - 1;
      WithoutIsDistinct(txs[..n], ids);
      WithoutKeeps(txs[..n], ids);
    }
  }

  /** What is left after confirmed transactions are dropped is unconfirmed in the longer or the other chain. */
  lemma {:induction false} WithoutKeepsMempool(c: Crypto, mempool: seq<Tx>, ids: set<Hash>, before: seq<Block>,
                                               after: seq<Block>)
    requires MempoolOk(c, before, mempool)
    requires forall i :: 0 <= i < |mempool| && mempool[i].txid !in ids ==> Fresh(Flatten(after), mempool[i].txid)
    ensures MempoolOk(c, after, Without(mempool, ids))
  {
    hide Fresh;
    WithoutKeeps(mempool, ids);
    WithoutIsDistinct(mempool, ids);
    var rest := Without(mempool, ids);
    forall i | 0 <= i < |rest| ensures Unconfirmed(c, Flatten(after), rest[i]) {
      assert rest[i] in mempool;
    }
  }

  /** A transaction that is not in the block stays unconfirmed: it cannot share the coinbase's txid either. */
  lemma {:induction false} SubmittedKeeps(c: Crypto, chain: seq<Block>, block: Block, mempool: seq<Tx>)
    requires c.TxIdsInjective() && MempoolOk(c, chain, mempool)
    requires block.transactions != [] && CheckCoinbase(c, block.transactions[0]) == None
    ensures MempoolOk(c, chain + [block], Without(mempool, IdSet(AfterFirst(block.transactions))))
  {
    var ids := IdSet(AfterFirst(block.transactions));
    FlattenStep(chain, block);
    forall i | 0 <= i < |mempool| && mempool[i].txid !in ids ensures Fresh(Flatten(chain + [block]), mempool[i].txid) {
      assert Unconfirmed(c, Flatten(chain), mempool[i]);
      NotInBlock(c, mempool[i], block);
    }
    WithoutKeepsMempool(c, mempool, ids, chain, chain + [block]);
  }

  lemma {:induction false} NotTheCoinbase(c: Crypto, tx: Tx, coinbase: Tx)
    requires c.TxIdsInjective() && !IsCoinbase(tx) && c.TxId(tx.body) == tx.txid
    requires CheckCoinbase(c, coinbase) == None
    ensures coinbase.txid != tx.txid
  {
    if coinbase.txid == tx.txid {
      c.SameTxId(coinbase.body, tx.body);
    }
  }

  lemma {:induction false} NotInBlock(c: Crypto, tx: Tx, block: Block)
    requires c.TxIdsInjective() && !IsCoinbase(tx) && c.TxId(tx.body) == tx.txid
    requires block.transactions != [] && CheckCoinbase(c, block.transactions[0]) == None
    requires tx.txid !in IdSet(AfterFirst(block.transactions))
    ensures Fresh(BlockEntries(block), tx.txid)
  {
    var txs := block.transactions;
    NotTheCoinbase(c, tx, txs[0]);
    forall k | 0 <= k < |txs| ensures txs[k].txid != tx.txid {
      if k > 0 {
        assert AfterFirst(txs)[k - 1] == txs[k];
      }
    }
  }

  lemma {:induction false} ReplacedKeeps(c: Crypto, before: seq<Block>, after: seq<Block>, mempool: seq<Tx>)
    requires MempoolOk(c, before, mempool)
    ensures MempoolOk(c, after, Without(mempool, ChainIds(after)))
  {
    forall i | 0 <= i < |mempool| && mempool[i].txid !in ChainIds(after)
      ensures Fresh(Flatten(after), mempool[i].txid)
    {
      IdsOfChain(after, mempool[i].txid);
    }
    WithoutKeepsMempool(c, mempool, ChainIds(after), before, after);
  }

  // Which transactions an operation takes and drops, exactly

  /** One of the last 200 blocks has the txid. */
  ghost predicate InRecent(chain: seq<Block>, id: Hash) {
    exists b, i :: 0 <= b < |chain| && |chain| - 200 <= b && 0 <= i < |chain[b].transactions|
                   && chain[b].transactions[i].txid == id
  }

  ghost predicate Pending(mempool: seq<Tx>, id: Hash) {
    exists i :: 0 <= i < |mempool| && mempool[i].txid == id
  }

  /** No coinbase, not known, room left, and valid against the chain and what is pending. */
  ghost predicate Takes(c: Crypto, chain: seq<Block>, mempool: seq<Tx>, tx: Tx) {
    && !IsCoinbase(tx) && !Pending(mempool, tx.txid) && !InRecent(chain, tx.txid) && |mempool| < 5_000
    && CheckTx(c, tx, State(Flatten(chain) + EntriesAt(mempool, None)), |chain|).Ok?
  }

  lemma {:induction false} RecentMeans(chain: seq<Block>, id: Hash)
    ensures id in RecentIds(chain) <==> InRecent(chain, id)
  {
    var from := Max(0, |chain| - RECENT_BLOCKS);
    var recent := chain[from..];
    if id in RecentIds(chain) {
      var b :| 0 <= b < |recent| && id in IdSet(recent[b].transactions);
      var i :| 0 <= i < |recent[b].transactions| && recent[b].transactions[i].txid == id;
      assert chain[from + b].transactions[i].txid == id;
    }
    if InRecent(chain, id) {
      var b, i :| 0 <= b < |chain| && |chain| - 200 <= b && 0 <= i < |chain[b].transactions|
                  && chain[b].transactions[i].txid == id;
      assert recent[b - from] == chain[b];
      assert id in IdSet(recent[b - from].transactions);
    }
  }

  /** `add_transaction`: what it answers and what it leaves, in every case. */
  lemma {:induction false} AddIff(c: Crypto, s: Node, tx: Tx)
    ensures var after := AddTransaction(c, s, tx);
            var known := Pending(s.mempool, tx.txid) || InRecent(s.chain, tx.txid);
            && after.node == Node(s.chain, if Takes(c, s.chain, s.mempool, tx) then s.mempool + [tx] else s.mempool)
            && (after.result.Ok? <==> !IsCoinbase(tx) && (known || Takes(c, s.chain, s.mempool, tx)))
            && (after.result.Ok? ==> after.result == Ok(tx.txid))
  {
    hide CheckTx, State, Flatten, RecentIds, InRecent;
    RecentMeans(s.chain, tx.txid);
  }

  /** How many of the positions lie before `j`. */
  ghost predicate CountTo(at: seq<nat>, j: nat, k: nat) {
    k <= |at| && (forall i :: 0 <= i < k ==> at[i] < j) && (forall i :: k <= i < |at| ==> at[i] >= j)
  }

  /**
   Offered in turn, transactions are appended in their order: exactly those that are taken behind the ones taken before
   them.
   */
  ghost predicate TakenInTurn(c: Crypto, s: Node, txs: seq<Tx>, at: seq<nat>, after: seq<Tx>) {
    && s.mempool <= after && Picks(after[|s.mempool|..], txs, at)
    && forall j: nat, k: nat :: j < |txs| && CountTo(at, j, k) ==>
         (j in at <==> Takes(c, s.chain, after[..|s.mempool| + k], txs[j]))
  }

  lemma {:induction false} AddAllTakes(c: Crypto, s: Node, txs: seq<Tx>) returns (at: seq<nat>)
    ensures AddAll(c, s, txs).chain == s.chain && TakenInTurn(c, s, txs, at, AddAll(c, s, txs).mempool)
  {
    hide Takes, AddTransaction;
    if txs == [] {
      at := [];
      assert s.mempool[|s.mempool|..] == [];
    } else {
      var n := |txs| - 1;
      at := AddAllTakes(c, s, txs[..n]);
      var t := AddAll(c, s, txs[..n]);
      AddIff(c, t, txs[n]);
      var taken := Takes(c, s.chain, t.mempool, txs[n]);
      TakenNext(c, s, txs, at, t.mempool, taken);
      at := if taken then at + [n] else at;
    }
  }

  lemma {:induction false} CountToShorter(at: seq<nat>, n: nat, j: nat, k: nat)
    requires CountTo(at + [n], j, k) && j <= n
    ensures CountTo(at, j, k)
  {
    var longer := at + [n];
    assert longer[|at|] == n;
    assert forall i :: 0 <= i < |at| ==> longer[i] == at[i];
  }

  lemma {:induction false} TakenAt(c: Crypto, s: Node, txs: seq<Tx>, at: seq<nat>, before: seq<Tx>, j: nat, k: nat)
    requires txs != [] && j < |txs| && CountTo(at, j, k)
    requires TakenInTurn(c, s, txs[..|txs| - 1], at, before)
    ensures k <= |before| - |s.mempool|
    ensures j < |txs| - 1 ==> (j in at <==> Takes(c, s.chain, before[..|s.mempool| + k], txs[j]))
    ensures j == |txs| - 1 ==> before[..|s.mempool| + k] == before && j !in at
  {
    hide Takes;
    if j < |txs| - 1 {
      assert txs[..|txs| - 1][j] == txs[j];
    } else {
      assert forall i :: 0 <= i < |at| ==> at[i] < j;
      if |at| > 0 {
        assert at[|at| - 1] < j;
      }
    }
  }

  lemma {:induction false} TakenNext(c: Crypto, s: Node, txs: seq<Tx>, at: seq<nat>, before: seq<Tx>, taken: bool)
    requires txs != []
    requires var n := |txs| - 1;
             && TakenInTurn(c, s, txs[..n], at, before)
             && (taken <==> Takes(c, s.chain, before, txs[n]))
    ensures var n := |txs| - 1;
            if taken then TakenInTurn(c, s, txs, at + [n], before + [txs[n]]) else TakenInTurn(c, s, txs, at, before)
  {
    var n, m := |txs| - 1, |s.mempool|;
    PicksMore(before, txs, m, at);
    forall j: nat, k: nat | j < |txs| && CountTo(at, j, k)
      ensures k <= |before| - m && (before + [txs[n]])[..m + k] == before[..m + k]
      ensures j < n ==> (j in at <==> Takes(c, s.chain, before[..m + k], txs[j]))
      ensures j == n ==> before[..m + k] == before && j !in at
    {
      TakenAt(c, s, txs, at, before, j, k);
    }
    if taken {
      hide Takes, CountTo;
      forall j: nat, k: nat | j < |txs| && CountTo(at + [n], j, k) ensures CountTo(at, j, k) {
        CountToShorter(at, n, j, k);
      }
    }
  }

  lemma {:induction false} PicksMore(before: seq<Tx>, txs: seq<Tx>, m: nat, at: seq<nat>)
    requires txs != [] && m <= |before| && Picks(before[m..], txs[..|txs| - 1], at)
    ensures Picks(before[m..], txs, at)
    ensures var tx := txs[|txs| - 1]; Picks((before + [tx])[m..], txs, at + [|txs| - 1])
  {
    var tx := txs[|txs| - 1];
    assert txs == txs[..|txs| - 1] + [tx] && (before + [tx])[m..] == before[m..] + [tx];
    PicksNext(before[m..], txs[..|txs| - 1], at, tx);
  }

  /** After an accepted block exactly the pending transactions stay, in order, that no payment of the block has. */
  lemma {:induction false} SubmitLeaves(c: Crypto, s: Node, block: Block, now: int) returns (at: seq<nat>)
    requires s.chain != []
    ensures var after := SubmitBlock(c, s, block, now);
            match CheckBlock(c, block, s.chain, BuildUtxos(s.chain), now)
            case Err(e) => after == Outcome(s, Err(e))
            case Ok(_) =>
              && after.result == Ok(BlockHash(c, block)) && after.node.chain == s.chain + [Finalized(c, block)]
              && Picks(after.node.mempool, s.mempool, at)
              && forall j :: 0 <= j < |s.mempool| ==>
                   (j in at <==> forall i :: 1 <= i < |block.transactions| ==>
                                   block.transactions[i].txid != s.mempool[j].txid)
  {
    hide CheckHeader, CheckBody, BuildUtxos, Without, IdSet;
    at := [];
    var r := CheckBlock(c, block, s.chain, BuildUtxos(s.chain), now);
    if r.Ok? {
      AcceptedBody(c, block, s.chain, BuildUtxos(s.chain), now);
      at := WithoutPicks(s.mempool, IdSet(AfterFirst(block.transactions)));
      forall j | 0 <= j < |s.mempool| {
        AmongPayments(block.transactions, s.mempool[j].txid);
      }
    }
  }

  lemma {:induction false} AmongPayments(txs: seq<Tx>, id: Hash)
    ensures id !in IdSet(AfterFirst(txs)) <==> forall i :: 1 <= i < |txs| ==> txs[i].txid != id
  {
    if id in IdSet(AfterFirst(txs)) {
      var k :| 0 <= k < |AfterFirst(txs)| && AfterFirst(txs)[k].txid == id;
      assert txs[k + 1].txid == id;
    }
    if i :| 1 <= i < |txs| && txs[i].txid == id {
      assert AfterFirst(txs)[i - 1].txid == id;
    }
  }
}
