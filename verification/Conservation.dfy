/** Money conservation: what the UTXO set of an accepted chain is worth, against the subsidy schedule. */
module Conservation {
  import opened Prelude
  import opened Types
  import opened Ledger
  import opened Blocks
  import opened History
  import opened Inclusion
  import opened Operations
  import opened Orders
  import Acceptance
  import Consensus
  import Merkle

  /** What the normal transactions of a block from `i` on destroy by reusing the txid of an unspent output. */
  ghost function TxsBurn(txs: seq<Tx>, i: nat, utxos: Utxos, h: int): int
    requires i <= |txs|
    decreases |txs| - i
  {
    if i == |txs| then 0
    else Burned(txs[i], utxos) + TxsBurn(txs, i + 1, ApplyTx(txs[i], utxos, Some(h)), h)
  }

  ghost function BlockBurn(c: Crypto, txs: seq<Tx>, utxos: Utxos, h: int): int
    requires txs != []
  {
    TxsBurn(txs, 1, utxos, h)
    + match CheckTxs(c, txs, 1, utxos, h, 0) case Ok(applied) => Burned(txs[0], applied.utxos) case Err(_) => 0
  }

  ghost function ChainBurn(c: Crypto, candidate: seq<Block>, now: int): int {
    if |candidate| <= 1 then 0
    else
      var n := |candidate| - 1;
      ChainBurn(c, candidate[..n], now)
      + match CheckChain(c, candidate[..n], now)
        case Ok(before) => if candidate[n].transactions == [] then 0
                           else BlockBurn(c, candidate[n].transactions, before.utxos, n)
        case Err(_) => 0
  }

  lemma {:induction false} TotalAfterTxs(c: Crypto, txs: seq<Tx>, i: nat, utxos: Utxos, h: int, fees: int)
    requires i <= |txs| && CheckTxs(c, txs, i, utxos, h, fees).Ok?
    ensures var applied := CheckTxs(c, txs, i, utxos, h, fees).value;
            && Total(applied.utxos) == Total(utxos) - (applied.fees - fees) - TxsBurn(txs, i, utxos, h)
            && applied.fees >= fees
    decreases |txs| - i
  {
    hide Total, ApplyTx, Burned, CheckTx, InputTotal, OutputTotal;
    if i < |txs| {
      CheckTxAccepts(c, txs[i], utxos, h);
      TotalAfterTx(txs[i], utxos, Some(h));
      var fee := CheckTx(c, txs[i], utxos, h).value;
      TotalAfterTxs(c, txs, i + 1, ApplyTx(txs[i], utxos, Some(h)), h, fees + fee);
    }
  }

  lemma {:induction false} CoinbaseTotals(c: Crypto, coinbase: Tx, utxos: Utxos)
    requires CheckCoinbase(c, coinbase) == None
    ensures coinbase.body.inputs == [] && InputTotal(coinbase, utxos) == 0
    ensures |coinbase.body.outputs| == 1 && OutputTotal(coinbase) == coinbase.body.outputs[0].amount >= 0
  {
    assert SumOutputs(coinbase, 1) == SumOutputs(coinbase, 0) + coinbase.body.outputs[0].amount;
  }

  /** A block mints exactly its subsidy. */
  lemma {:induction false} TotalAfterBlock(c: Crypto, txs: seq<Tx>, utxos: Utxos, h: int)
    requires txs != [] && CheckBody(c, txs, utxos, h).Ok?
    ensures Total(CheckBody(c, txs, utxos, h).value)
         == Total(utxos) + Consensus.BlockSubsidy(h) - BlockBurn(c, txs, utxos, h)
  {
    hide Total, ApplyTx, Burned, CheckTxs, CheckCoinbase, InputTotal, OutputTotal, Consensus.BlockSubsidy;
    var applied := CheckTxs(c, txs, 1, utxos, h, 0).value;
    TotalAfterTxs(c, txs, 1, utxos, h, 0);
    CoinbaseTotals(c, txs[0], applied.utxos);
    TotalAfterTx(txs[0], applied.utxos, Some(h));
  }

  /**
   The exact law, for any candidate the validator accepts and any hash functions: what exists plus what txid
   reuse destroyed is what block 0 brought in plus the schedule up to the tip.
   */
  lemma {:induction false} ConservationLaw(c: Crypto, candidate: seq<Block>, now: int)
    requires CheckChain(c, candidate, now).Ok?
    ensures Total(CheckChain(c, candidate, now).value.utxos) + ChainBurn(c, candidate, now)
         == Total(State(EntriesAt(candidate[0].transactions, Some(0)))) + Consensus.Issued(|candidate| - 1)
    decreases |candidate|
  {
    var n := |candidate| - 1;
    if n > 0 {
      CheckChainLast(c, candidate, now);
      ConservationStep(c, candidate, now);
      ConservationLaw(c, candidate[..n], now);
    }
  }

  lemma {:induction false} ConservationStep(c: Crypto, candidate: seq<Block>, now: int)
    requires |candidate| > 1 && CheckChain(c, candidate, now).Ok?
    ensures var n := |candidate| - 1;
            && CheckChain(c, candidate[..n], now).Ok?
            && Total(CheckChain(c, candidate, now).value.utxos) + ChainBurn(c, candidate, now)
               == Total(CheckChain(c, candidate[..n], now).value.utxos) + ChainBurn(c, candidate[..n], now)
                  + Consensus.BlockSubsidy(n)
  {
    hide Total, CheckBlock, CheckBody, CheckChain, BlockBurn, Consensus.BlockSubsidy, CheckTxs, CheckCoinbase;
    var n := |candidate| - 1;
    CheckChainLast(c, candidate, now);
    var before := CheckChain(c, candidate[..n], now).value;
    AcceptedBody(c, candidate[n], before.chain, before.utxos, now);
    TotalAfterBlock(c, candidate[n].transactions, before.utxos, n);
  }

  // With the true genesis nothing negative is ever recorded, so nothing is ever burned into value

  ghost predicate NoNegative(utxos: Utxos) {
    forall op :: op in utxos ==> utxos[op].out.amount >= 0
  }

  lemma {:induction false} OverwrittenNonNegative(tx: Tx, utxos: Utxos, n: nat)
    requires NoNegative(utxos)
    ensures Overwritten(tx, utxos, n) >= 0
  {
    if n > 0 {
      OverwrittenNonNegative(tx, utxos, n - 1);
    }
  }

  lemma {:induction false} NoNegativeAfterTx(tx: Tx, utxos: Utxos, h: int)
    requires NoNegative(utxos)
    requires forall i :: 0 <= i < |tx.body.outputs| ==> tx.body.outputs[i].amount >= 0
    ensures NoNegative(ApplyTx(tx, utxos, Some(h))) && Burned(tx, utxos) >= 0
  {
    OverwrittenNonNegative(tx, utxos - Spent(tx), |tx.body.outputs|);
  }

  lemma {:induction false} NoNegativeAfterTxs(c: Crypto, txs: seq<Tx>, i: nat, utxos: Utxos, h: int, fees: int)
    requires i <= |txs| && CheckTxs(c, txs, i, utxos, h, fees).Ok? && NoNegative(utxos)
    ensures NoNegative(CheckTxs(c, txs, i, utxos, h, fees).value.utxos) && TxsBurn(txs, i, utxos, h) >= 0
    decreases |txs| - i
  {
    hide ApplyTx, Burned, CheckTx, NoNegative, InputTotal, OutputTotal, InputsSpendable;
    if i < |txs| {
      CheckTxAccepts(c, txs[i], utxos, h);
      NoNegativeAfterTx(txs[i], utxos, h);
      var fee := CheckTx(c, txs[i], utxos, h).value;
      NoNegativeAfterTxs(c, txs, i + 1, ApplyTx(txs[i], utxos, Some(h)), h, fees + fee);
    }
  }

  lemma {:induction false} BlockBurnNonNegative(c: Crypto, txs: seq<Tx>, utxos: Utxos, h: int)
    requires txs != [] && CheckBody(c, txs, utxos, h).Ok? && NoNegative(utxos)
    ensures NoNegative(CheckBody(c, txs, utxos, h).value) && BlockBurn(c, txs, utxos, h) >= 0
  {
    hide ApplyTx, Burned, CheckTxs, NoNegative, CheckCoinbase, TxsBurn;
    var applied := CheckTxs(c, txs, 1, utxos, h, 0).value;
    NoNegativeAfterTxs(c, txs, 1, utxos, h, 0);
    CoinbaseTotals(c, txs[0], applied.utxos);
    NoNegativeAfterTx(txs[0], applied.utxos, h);
  }

  lemma {:induction false} ChainBurnNonNegative(c: Crypto, candidate: seq<Block>, now: int)
    requires CheckChain(c, candidate, now).Ok? && candidate[0] == Genesis(c)
    ensures NoNegative(CheckChain(c, candidate, now).value.utxos) && ChainBurn(c, candidate, now) >= 0
    decreases |candidate|
  {
    hide CheckBlock, CheckBody, BlockBurn, CheckTxs, CheckCoinbase;
    var n := |candidate| - 1;
    if n == 0 {
      GenesisHoldsNothing(c);
    } else {
      hide CheckChain, NoNegative;
      CheckChainLast(c, candidate, now);
      ChainBurnNonNegative(c, candidate[..n], now);
      var before := CheckChain(c, candidate[..n], now).value;
      AcceptedBody(c, candidate[n], before.chain, before.utxos, now);
      BlockBurnNonNegative(c, candidate[n].transactions, before.utxos, n);
    }
  }

  lemma {:induction false} GenesisHoldsNothing(c: Crypto)
    ensures State(EntriesAt(Genesis(c).transactions, Some(0))) == map[]
  {
    var entries := EntriesAt(Genesis(c).transactions, Some(0));
    assert entries == [] + [Entry(GenesisTx(c), Some(0))];
    StateStep([], Entry(GenesisTx(c), Some(0)));
  }

  // Where no txid occurs in two blocks, nothing is burned at all

  /** No txid occurs in two blocks. The candidate alone shows it. */
  ghost predicate BlocksShareNoTxid(blocks: seq<Block>) {
    forall a, b :: 0 <= a < b < |blocks| ==> IdSet(blocks[a].transactions) !! IdSet(blocks[b].transactions)
  }

  ghost predicate KeysAmong(utxos: Utxos, ids: set<Hash>) {
    forall op :: op in utxos ==> op.txid in ids
  }

  lemma {:induction false} NewTxidBurnsNothing(tx: Tx, utxos: Utxos, ids: set<Hash>, n: nat)
    requires KeysAmong(utxos, ids) && tx.txid !in ids
    ensures Overwritten(tx, utxos, n) == 0
  {
    if n > 0 {
      NewTxidBurnsNothing(tx, utxos, ids, n - 1);
    }
  }

  lemma {:induction false} KeysAfterTx(tx: Tx, utxos: Utxos, h: Option<int>, ids: set<Hash>)
    requires KeysAmong(utxos, ids) && tx.txid !in ids
    ensures KeysAmong(ApplyTx(tx, utxos, h), ids + {tx.txid}) && Burned(tx, utxos) == 0
  {
    NewTxidBurnsNothing(tx, utxos - Spent(tx), ids, |tx.body.outputs|);
  }

  ghost predicate NoneAmong(txs: seq<Tx>, i: nat, ids: set<Hash>) {
    forall j :: i <= j < |txs| ==> txs[j].txid !in ids
  }

  lemma {:induction false} TxsBurnNothing(c: Crypto, txs: seq<Tx>, i: nat, utxos: Utxos, h: int, fees: int,
                                          ids: set<Hash>)
    requires 1 <= i <= |txs| && CheckTxs(c, txs, i, utxos, h, fees).Ok? && KeysAmong(utxos, ids)
    requires Merkle.Distinct(TxIds(txs)) && NoneAmong(txs, i, ids)
    ensures TxsBurn(txs, i, utxos, h) == 0
    ensures KeysAmong(CheckTxs(c, txs, i, utxos, h, fees).value.utxos, ids + IdSet(txs[i..]))
    decreases |txs| - i
  {
    hide ApplyTx, CheckTx, KeysAmong, Burned, IdSet, NoneAmong;
    if i == |txs| {
      NoIdsLeft(txs);
      assert ids + {} == ids;
    } else {
      var fee := CheckTx(c, txs[i], utxos, h).value;
      StillNone(txs, i, ids);
      KeysAfterTx(txs[i], utxos, Some(h), ids);
      TxsBurnNothing(c, txs, i + 1, ApplyTx(txs[i], utxos, Some(h)), h, fees + fee, ids + {txs[i].txid});
      IdsOfTail(txs, i);
      assert ids + IdSet(txs[i..]) == ids + {txs[i].txid} + IdSet(txs[i + 1..]);
    }
  }

  lemma {:induction false} NoIdsLeft(txs: seq<Tx>)
    ensures IdSet(txs[|txs|..]) == {}
  {
  }

  lemma {:induction false} StillNone(txs: seq<Tx>, i: nat, ids: set<Hash>)
    requires i < |txs| && Merkle.Distinct(TxIds(txs)) && NoneAmong(txs, i, ids)
    ensures txs[i].txid !in ids && NoneAmong(txs, i + 1, ids + {txs[i].txid})
  {
    forall j | i < j < |txs| ensures txs[j].txid != txs[i].txid {
      assert TxIds(txs)[i] == txs[i].txid && TxIds(txs)[j] == txs[j].txid;
    }
  }

  lemma {:induction false} IdsOfTail(txs: seq<Tx>, i: nat)
    requires i < |txs|
    ensures IdSet(txs[i..]) == {txs[i].txid} + IdSet(txs[i + 1..])
  {
    assert txs[i..] == [txs[i]] + txs[i + 1..];
    forall id ensures id in IdSet(txs[i..]) <==> id in {txs[i].txid} + IdSet(txs[i + 1..]) {
      if id in IdSet(txs[i..]) {
        var k :| 0 <= k < |txs[i..]| && txs[i..][k].txid == id;
        if k > 0 {
          assert txs[i + 1..][k - 1].txid == id;
        }
      }
      if id in IdSet(txs[i + 1..]) {
        var k :| 0 <= k < |txs[i + 1..]| && txs[i + 1..][k].txid == id;
        assert txs[i..][k + 1].txid == id;
      }
    }
  }

  lemma {:induction false} BlockBurnsNothing(c: Crypto, txs: seq<Tx>, utxos: Utxos, h: int, ids: set<Hash>)
    requires txs != [] && CheckBody(c, txs, utxos, h).Ok? && KeysAmong(utxos, ids) && IdSet(txs) !! ids
    ensures BlockBurn(c, txs, utxos, h) == 0 && KeysAmong(CheckBody(c, txs, utxos, h).value, ids + IdSet(txs))
  {
    hide ApplyTx, CheckTxs, KeysAmong, Burned, CheckCoinbase, TxsBurn, IdSet, Acceptance.NormalTxOk;
    Acceptance.CheckBodyIff(c, txs, utxos, h);
    IdsOfTail(txs, 0);
    assert txs[0..] == txs;
    NoneOfBlock(txs, ids);
    TxsBurnNothing(c, txs, 1, utxos, h, 0, ids);
    var applied := CheckTxs(c, txs, 1, utxos, h, 0).value;
    KeysAfterTx(txs[0], applied.utxos, Some(h), ids + IdSet(txs[1..]));
    assert ids + IdSet(txs[1..]) + {txs[0].txid} == ids + IdSet(txs);
  }

  lemma {:induction false} NoneOfBlock(txs: seq<Tx>, ids: set<Hash>)
    requires txs != [] && Merkle.Distinct(TxIds(txs)) && IdSet(txs) !! ids
    ensures NoneAmong(txs, 1, ids) && txs[0].txid !in ids + IdSet(txs[1..])
  {
    forall j | 0 <= j < |txs| ensures txs[j].txid !in ids {
      assert txs[j].txid in IdSet(txs);
    }
    forall j | 0 <= j < |txs[1..]| ensures txs[1..][j].txid != txs[0].txid {
      assert TxIds(txs)[0] == txs[0].txid && TxIds(txs)[j + 1] == txs[1..][j].txid;
    }
  }

  lemma {:induction false} KeysOfState(entries: seq<Entry>, txs: seq<Tx>, height: Option<int>)
    requires entries == EntriesAt(txs, height)
    ensures KeysAmong(State(entries), IdSet(txs))
  {
    hide State;
    forall op | op in State(entries) ensures op.txid in IdSet(txs) {
      var k := Provenance(entries, op);
      assert txs[k].txid == op.txid;
    }
  }

  lemma {:induction false} ChainIdsStep(blocks: seq<Block>)
    requires blocks != []
    ensures var n := |blocks| - 1; ChainIds(blocks) == ChainIds(blocks[..n]) + IdSet(blocks[n].transactions)
    ensures BlocksShareNoTxid(blocks) ==>
              var n := |blocks| - 1;
              BlocksShareNoTxid(blocks[..n]) && IdSet(blocks[n].transactions) !! ChainIds(blocks[..n])
  {
    hide IdSet;
    var n := |blocks| - 1;
    forall id ensures id in ChainIds(blocks) <==> id in ChainIds(blocks[..n]) + IdSet(blocks[n].transactions) {
      if id in ChainIds(blocks) {
        var b :| 0 <= b < |blocks| && id in IdSet(blocks[b].transactions);
        if b < n {
          assert blocks[..n][b] == blocks[b];
        }
      }
      if id in ChainIds(blocks[..n]) {
        var b :| 0 <= b < |blocks[..n]| && id in IdSet(blocks[..n][b].transactions);
        assert blocks[b] == blocks[..n][b];
      }
    }
  }

  lemma {:induction false} ChainBurnsNothing(c: Crypto, candidate: seq<Block>, now: int)
    requires CheckChain(c, candidate, now).Ok? && BlocksShareNoTxid(candidate)
    ensures ChainBurn(c, candidate, now) == 0
    ensures KeysAmong(CheckChain(c, candidate, now).value.utxos, ChainIds(candidate))
    decreases |candidate|
  {
    hide CheckBlock, CheckBody, State, BlockBurn, KeysAmong, BlocksShareNoTxid, ChainIds, IdSet;
    var n := |candidate| - 1;
    ChainIdsStep(candidate);
    if n == 0 {
      KeysOfState(EntriesAt(candidate[0].transactions, Some(0)), candidate[0].transactions, Some(0));
      NoIds();
      assert candidate[..0] == [];
      assert ChainIds(candidate) == IdSet(candidate[0].transactions);
    } else {
      hide CheckChain;
      CheckChainLast(c, candidate, now);
      ChainBurnsNothing(c, candidate[..n], now);
      var before := CheckChain(c, candidate[..n], now).value;
      AcceptedBody(c, candidate[n], before.chain, before.utxos, now);
      BlockBurnsNothing(c, candidate[n].transactions, before.utxos, n, ChainIds(candidate[..n]));
    }
  }

  lemma {:induction false} NoIds()
    ensures ChainIds([]) == {}
  {
  }

  /** Injective txids and distinct coinbases are enough: then no txid occurs twice in the chain at all. */
  lemma {:induction false} DistinctCoinbasesShareNoTxid(c: Crypto, candidate: seq<Block>, now: int)
    requires c.TxIdsInjective() && CheckChain(c, candidate, now).Ok? && PlainBlockZero(c, candidate[0])
    requires DistinctCoinbases(CheckChain(c, candidate, now).value.chain)
    ensures BlocksShareNoTxid(candidate)
  {
    hide CheckChain, CheckBlock, CheckBody, State, Sound, DistinctCoinbases;
    var chain := CheckChain(c, candidate, now).value.chain;
    AcceptedChainIsSound(c, candidate, now);
    GenesisOfAcceptedChain(c, candidate, now);
    forall b | 0 <= b < |chain|
      ensures chain[b].header.height == b && chain[b].transactions == candidate[b].transactions
    {
      if b > 0 {
        BlockOfAcceptedChain(c, candidate, b, now);
        AcceptedBody(c, candidate[b], chain[..b], CheckChain(c, candidate[..b], now).value.utxos, now);
      }
    }
    forall a, b | 0 <= a < b < |chain| ensures IdSet(candidate[a].transactions) !! IdSet(candidate[b].transactions) {
      SoundBlocksShareNoTxid(c, chain, a, b);
    }
  }

  lemma {:induction false} SoundBlocksShareNoTxid(c: Crypto, chain: seq<Block>, a: nat, b: nat)
    requires a < b < |chain| && Sound(c, Flatten(chain)) && chain[a].header.height != chain[b].header.height
    ensures IdSet(chain[a].transactions) !! IdSet(chain[b].transactions)
  {
    hide Sound, Flatten;
    forall i, j | 0 <= i < |chain[a].transactions| && 0 <= j < |chain[b].transactions|
      ensures chain[a].transactions[i].txid != chain[b].transactions[j].txid
    {
      var k := FlattenHas(chain, a, i);
      var l := FlattenHas(chain, b, j);
      NoTxidTwice(c, Flatten(chain), if k < l then k else l, if k < l then l else k);
    }
  }

  /**
   Money conservation under the true genesis: never more than the schedule has issued, hence never more than
   MAX_SUPPLY; and exactly what it has issued where no txid occurs in two blocks, as when coinbase txids are distinct.
   */
  lemma {:induction false} MoneyConservation(c: Crypto, candidate: seq<Block>, now: int)
    requires CheckChain(c, candidate, now).Ok? && candidate[0] == Genesis(c)
    ensures var carry, height := CheckChain(c, candidate, now).value, |candidate| - 1;
            && Total(carry.utxos) <= Consensus.Issued(height) <= Consensus.MAX_SUPPLY
            && (BlocksShareNoTxid(candidate) ==> Total(carry.utxos) == Consensus.Issued(height))
            && (c.TxIdsInjective() && DistinctCoinbases(carry.chain) ==> Total(carry.utxos) == Consensus.Issued(height))
  {
    hide CheckChain, ChainBurn, DistinctCoinbases, Consensus.Issued, BlocksShareNoTxid;
    ConservationLaw(c, candidate, now);
    ChainBurnNonNegative(c, candidate, now);
    GenesisHoldsNothing(c);
    Consensus.SupplyCap(|candidate| - 1);
    if c.TxIdsInjective() && DistinctCoinbases(CheckChain(c, candidate, now).value.chain) {
      DistinctCoinbasesShareNoTxid(c, candidate, now);
    }
    if BlocksShareNoTxid(candidate) {
      ChainBurnsNothing(c, candidate, now);
    }
  }

  /** Block 0 with the genesis header, but paying `amount` to `owner`. */
  function PremineBlock(c: Crypto, owner: string, amount: int): Block {
    var body := TxBody(GENESIS_TIMESTAMP, [], [TxOut(owner, amount)], Some(GENESIS_MESSAGE));
    Block(GenesisHeader(c), [Tx(body, c.TxId(body))], Some(GenesisHash(c)))
  }

  /**
   The validator looks only at the header of block 0, so without the true-genesis hypothesis the bound fails:
   this candidate is accepted and holds `amount` when nothing has been issued.
   */
  lemma {:induction false} BlockZeroBodyIsNotChecked(c: Crypto, owner: string, amount: int, now: int)
    ensures var candidate := [PremineBlock(c, owner, amount)];
            && CheckChain(c, candidate, now).Ok?
            && Total(CheckChain(c, candidate, now).value.utxos) == amount
            && Consensus.Issued(|candidate| - 1) == 0
  {
    var block := PremineBlock(c, owner, amount);
    ValueOfBlockZero(c, block);
    assert SumOutputs(block.transactions[0], 1) == SumOutputs(block.transactions[0], 0) + amount;
  }

  lemma {:induction false} ValueOfBlockZero(c: Crypto, block: Block)
    requires PlainBlockZero(c, block)
    ensures Total(State(EntriesAt(block.transactions, Some(0)))) == OutputTotal(block.transactions[0])
  {
    hide Total, ApplyTx;
    var tx := block.transactions[0];
    var entries := EntriesAt(block.transactions, Some(0));
    assert entries == [] + [Entry(tx, Some(0))];
    StateStep([], Entry(tx, Some(0)));
    TotalAfterTx(tx, map[], Some(0));
    NewTxidBurnsNothing(tx, map[] - Spent(tx), {}, |tx.body.outputs|);
    EmptyTotal();
  }

  lemma {:induction false} EmptyTotal()
    ensures Total(map[]) == 0
  {
  }

  /**
   Exactly when the bound holds for whatever stands in block 0, where no txid occurs in two blocks: when the outputs
   that block 0 leaves unspent are worth nothing. Both conditions can be read off the candidate. For a single
   coinbase in block 0 that value is what it pays.
   */
  lemma {:induction false} NoPremineIff(c: Crypto, candidate: seq<Block>, now: int)
    requires CheckChain(c, candidate, now).Ok? && BlocksShareNoTxid(candidate)
    ensures var premine := Total(State(EntriesAt(candidate[0].transactions, Some(0))));
            && Total(CheckChain(c, candidate, now).value.utxos) == Consensus.Issued(|candidate| - 1) + premine
            && (Total(CheckChain(c, candidate, now).value.utxos) <= Consensus.Issued(|candidate| - 1) <==> premine <= 0)
            && (PlainBlockZero(c, candidate[0]) ==> premine == OutputTotal(candidate[0].transactions[0]))
  {
    hide CheckChain, ChainBurn, Consensus.Issued, Total, State, OutputTotal, BlocksShareNoTxid;
    ConservationLaw(c, candidate, now);
    ChainBurnsNothing(c, candidate, now);
    if PlainBlockZero(c, candidate[0]) {
      ValueOfBlockZero(c, candidate[0]);
    }
  }

  // What a rebuilt set is worth

  lemma {:induction false} TotalWithin(part: Utxos, whole: Utxos)
    requires Within(part, whole) && NoNegative(whole)
    ensures Total(part) <= Total(whole)
    decreases |whole|
  {
    if whole == map[] {
      assert part == map[];
    } else {
      var op :| op in whole;
      TotalWithout(whole, op);
      TotalWithin(part - {op}, whole - {op});
      if op in part {
        TotalWithout(part, op);
      } else {
        assert part - {op} == part;
      }
    }
  }

  /** A normal transaction spends outputs of transactions before it in the chain or in the block. */
  lemma {:induction false} SpentAmong(c: Crypto, txs: seq<Tx>, i: nat, utxos: Utxos, h: int, fees: int, ids: set<Hash>)
    requires 1 <= i <= |txs| && CheckTxs(c, txs, i, utxos, h, fees).Ok? && KeysAmong(utxos, ids)
    requires Merkle.Distinct(TxIds(txs)) && NoneAmong(txs, i, ids)
    ensures forall j, op :: i <= j < |txs| && op in Spent(txs[j]) ==> op.txid in ids + IdSet(txs[i..])
    decreases |txs| - i
  {
    hide ApplyTx, CheckTx, Burned, IdSet, NoneAmong, InputKeys;
    if i < |txs| {
      var fee := CheckTx(c, txs[i], utxos, h).value;
      CheckTxAccepts(c, txs[i], utxos, h);
      SpentWereThere(c, txs[i], utxos, h);
      StillNone(txs, i, ids);
      KeysAfterTx(txs[i], utxos, Some(h), ids);
      SpentAmong(c, txs, i + 1, ApplyTx(txs[i], utxos, Some(h)), h, fees + fee, ids + {txs[i].txid});
      IdsOfTail(txs, i);
    }
  }

  lemma {:induction false} SpentWereThere(c: Crypto, tx: Tx, utxos: Utxos, h: int)
    requires InputsSpendable(c, tx, utxos, h)
    ensures forall op :: op in Spent(tx) ==> op in utxos
  {
    hide CanSpend;
  }

  lemma {:induction false} BlockIsSpared(c: Crypto, txs: seq<Tx>, utxos: Utxos, h: int, ids: set<Hash>)
    requires txs != [] && CheckBody(c, txs, utxos, h).Ok? && KeysAmong(utxos, ids) && IdSet(txs) !! ids
    ensures SparesCoinbase(txs)
  {
    hide ApplyTx, CheckTxs, KeysAmong, CheckCoinbase, IdSet, Acceptance.NormalTxOk, InputKeys;
    Acceptance.CheckBodyIff(c, txs, utxos, h);
    NoneOfBlock(txs, ids);
    SpentAmong(c, txs, 1, utxos, h, 0, ids);
  }

  /** Where no txid occurs in two blocks, no block spends its own coinbase either. */
  lemma {:induction false} UnsharedIsSpared(c: Crypto, candidate: seq<Block>, now: int)
    requires CheckChain(c, candidate, now).Ok? && BlocksShareNoTxid(candidate)
    ensures SparesCoinbases(candidate)
  {
    hide CheckChain, CheckBlock, CheckBody, KeysAmong, SparesCoinbase, IdSet, ChainIds;
    forall b | 0 < b < |candidate| ensures SparesCoinbase(candidate[b].transactions) {
      BlockOfAcceptedChain(c, candidate, b, now);
      var before := CheckChain(c, candidate[..b], now).value;
      UnsharedPrefix(candidate, b);
      ChainBurnsNothing(c, candidate[..b], now);
      AcceptedBody(c, candidate[b], before.chain, before.utxos, now);
      BlockIsSpared(c, candidate[b].transactions, before.utxos, b, ChainIds(candidate[..b]));
    }
  }

  lemma {:induction false} UnsharedPrefix(blocks: seq<Block>, b: nat)
    requires BlocksShareNoTxid(blocks) && b < |blocks|
    ensures BlocksShareNoTxid(blocks[..b]) && IdSet(blocks[b].transactions) !! ChainIds(blocks[..b])
  {
    hide IdSet;
    forall a, d | 0 <= a < d < b ensures IdSet(blocks[..b][a].transactions) !! IdSet(blocks[..b][d].transactions) {
      assert blocks[..b][a] == blocks[a] && blocks[..b][d] == blocks[d];
    }
    forall id | id in ChainIds(blocks[..b]) ensures id !in IdSet(blocks[b].transactions) {
      var a :| 0 <= a < |blocks[..b]| && id in IdSet(blocks[..b][a].transactions);
      assert blocks[..b][a] == blocks[a];
    }
  }

  /**
   The UTXO set rebuilt from a validated chain above the true genesis is never worth more than the schedule, with any
   hashes and coinbases; and exactly the schedule where no txid occurs in two blocks.
   */
  lemma {:induction false} RebuiltSupply(c: Crypto, raw: seq<Block>, chain: seq<Block>, now: int)
    requires From(c, raw, chain, now) && chain != [] && chain[0] == Genesis(c)
    ensures Total(BuildUtxos(chain)) <= Consensus.Issued(|chain| - 1) <= Consensus.MAX_SUPPLY
    ensures BlocksShareNoTxid(chain) ==> Total(BuildUtxos(chain)) == Consensus.Issued(|chain| - 1)
  {
    hide CheckChain, State, Flatten, Total, Within, NoNegative, BlocksShareNoTxid, SparesCoinbases, Consensus.Issued;
    GenesisOfAcceptedChain(c, raw, now);
    MoneyConservation(c, raw, now);
    ChainBurnNonNegative(c, raw, now);
    TotalWithin(BuildUtxos(chain), CheckChain(c, raw, now).value.utxos);
    if BlocksShareNoTxid(chain) {
      SameBodies(c, raw, now);
      UnsharedIsSpared(c, raw, now);
      SparingChainIsRebuilt(c, raw, now);
    }
  }

  lemma {:induction false} SameBodies(c: Crypto, raw: seq<Block>, now: int)
    requires CheckChain(c, raw, now).Ok?
    ensures forall b :: 0 <= b < |raw| ==> CheckChain(c, raw, now).value.chain[b].transactions == raw[b].transactions
    ensures BlocksShareNoTxid(CheckChain(c, raw, now).value.chain) <==> BlocksShareNoTxid(raw)
  {
    hide CheckChain, CheckBlock, IdSet;
    GenesisOfAcceptedChain(c, raw, now);
    forall b | 0 < b < |raw| ensures CheckChain(c, raw, now).value.chain[b].transactions == raw[b].transactions {
      BlockOfAcceptedChain(c, raw, b, now);
    }
  }
}
