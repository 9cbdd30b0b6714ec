/**
 Chains written down with their work: where the next header has a low hash, any body that validates becomes a block, so
 a chain with any history can be given.
 */
module Mining {
  import opened Prelude
  import opened Types
  import opened Ledger
  import opened Blocks
  import opened Headers
  import opened Idealization
  import opened Orders
  import opened Replay
  import opened StaticPeer
  import Conservation
  import Consensus
  import Difficulty
  import Merkle
  import TimeRules
  import Work

  /** Injective txids; every key owns the address it spells, every signature and address is good, no size matters. */
  ghost predicate Lenient(c: Crypto) {
    && c.TxIdsInjective()
    && (forall key :: c.OwnerOf(key) == key) && (forall address :: c.AddressOk(address))
    && (forall key, signature, body, index: nat :: c.SignatureOk(key, signature, body, index))
    && forall tx :: c.TxBytes(tx) == 0
  }

  lemma {:induction false} IdealIsLenient()
    ensures Lenient(Ideal())
  {
    hide OfBody;
    IdealIsCollisionFree();
  }

  // Blocks

  /** Below the target of every difficulty that the retarget can give. */
  const LOW_HASH := 1_000_000

  /** The next block with this body and nonce, as it is submitted. */
  function NextBlock(c: Crypto, chain: seq<Block>, txs: seq<Tx>, nonce: int): Block
    requires chain != [] && chain[|chain| - 1].hash.Some?
  {
    var parent, timestamp := chain[|chain| - 1].hash.value, TimeRules.MedianTimePast(chain) + 1;
    var units, root := Difficulty.NextUnits(chain), Merkle.MerkleRoot(c, TxIds(txs));
    Block(Header(VERSION, |chain|, parent, timestamp, units, root, nonce), txs, None)
  }

  lemma {:induction false} LowHashMeetsWork(c: Crypto, chain: seq<Block>)
    requires HeadersOk(c, chain)
    ensures LOW_HASH <= Work.TargetForDifficulty(Difficulty.NextUnits(chain)) && chain[|chain| - 1].hash.Some?
  {
    hide HeaderOk, Difficulty.NextUnits, Difficulty.Smooth, Work.TargetForDifficulty;
    AcceptedIsSmooth(c, chain);
    TipIsHashed(c, chain);
    if |chain| > 1 {
      DifficultyInRange(c, chain, |chain| - 1);
    }
    Difficulty.NextUnitsBounds(chain);
    Work.TargetBounds(Difficulty.NextUnits(chain));
  }

  lemma {:induction false} TipIsHashed(c: Crypto, chain: seq<Block>)
    requires HeadersOk(c, chain)
    ensures chain[|chain| - 1].hash.Some?
  {
    hide Difficulty.NextUnits, TimeRules.MedianTimePast, Merkle.MerkleRoot, CheckCoinbase;
    if |chain| > 1 {
      assert HeaderOk(c, chain, |chain| - 1);
    }
  }

  /** With a low hash a next block of allowed size is accepted whenever its body is, submitted or stored. */
  lemma {:induction false} NextBlockIsAccepted(c: Crypto, chain: seq<Block>, txs: seq<Tx>, nonce: int, utxos: Utxos,
                                               block: Block, now: int)
    requires HeadersOk(c, chain) && chain[|chain| - 1].hash.Some?
    requires BlockHash(c, NextBlock(c, chain, txs, nonce)) <= LOW_HASH
    requires block in {NextBlock(c, chain, txs, nonce), Finalized(c, NextBlock(c, chain, txs, nonce))}
    requires c.BlockBytes(block) <= Consensus.MAX_BLOCK_BYTES && TimeRules.MedianTimePast(chain) < now
    requires 1 <= |txs| <= Consensus.MAX_BLOCK_TRANSACTIONS && CheckBody(c, txs, utxos, |chain|).Ok?
    ensures CheckBlock(c, block, chain, utxos, now)
         == Ok(Accepted(Finalized(c, NextBlock(c, chain, txs, nonce)), CheckBody(c, txs, utxos, |chain|).value))
  {
    hide CheckBody, TimeRules.MedianTimePast, Difficulty.NextUnits, Merkle.MerkleRoot, Work.TargetForDifficulty,
         HeadersOk;
    LowHashMeetsWork(c, chain);
  }

  lemma {:induction false} GenesisChecks(c: Crypto, now: int)
    ensures CheckChain(c, [Genesis(c)], now) == Ok(Carry([Genesis(c)], BuildUtxos([Genesis(c)])))
    ensures BuildUtxos([Genesis(c)]) == map[]
  {
    hide State;
    var chain := [Genesis(c)];
    assert Flatten(chain[..0]) == [];
    assert Flatten(chain) == EntriesAt(Genesis(c).transactions, Some(0));
    Conservation.GenesisHoldsNothing(c);
  }

  /** The set carried through a chain that validates to itself. */
  function Carried(c: Crypto, chain: seq<Block>, now: int): Utxos
    requires CheckChain(c, chain, now).Ok?
  {
    CheckChain(c, chain, now).value.utxos
  }

  /** Block `i` is the next block on the ones before it, with this nonce, and its hash is low. */
  ghost predicate MinedAt(c: Crypto, chain: seq<Block>, nonce: int, i: nat)
    requires 0 < i < |chain|
  {
    && chain[i - 1].hash.Some?
    && chain[i] == Finalized(c, NextBlock(c, chain[..i], chain[i].transactions, nonce))
    && BlockHash(c, chain[i]) <= LOW_HASH
  }

  ghost predicate Mined(c: Crypto, chain: seq<Block>, nonce: int) {
    chain != [] && chain[0] == Genesis(c) && forall i :: 0 < i < |chain| ==> MinedAt(c, chain, nonce, i)
  }

  /** One more block of a mined chain is valid where its body is. */
  lemma {:induction false} MineNext(c: Crypto, chain: seq<Block>, nonce: int, n: nat, before: int) returns (now: int)
    requires Mined(c, chain, nonce) && 0 < n < |chain| && ValidAt(c, chain[..n], before)
    requires c.BlockBytes(chain[n]) <= Consensus.MAX_BLOCK_BYTES
    requires 1 <= |chain[n].transactions| <= Consensus.MAX_BLOCK_TRANSACTIONS
    requires CheckBody(c, chain[n].transactions, Carried(c, chain[..n], before), n).Ok?
    ensures ValidAt(c, chain[..n + 1], now) && before <= now
    ensures Carried(c, chain[..n + 1], now)
         == CheckBody(c, chain[n].transactions, Carried(c, chain[..n], before), n).value
    ensures BuildUtxos(chain[..n + 1]) == ApplyList(chain[n].transactions, BuildUtxos(chain[..n]), n)
  {
    hide CheckChain, CheckBody, CheckBlock, HeaderOk, TimeRules.MedianTimePast, Difficulty.NextUnits, Merkle.MerkleRoot,
         State, Flatten, ApplyList;
    var front, txs := chain[..n], chain[n].transactions;
    now := Max(before, TimeRules.MedianTimePast(front) + 1);
    ChainAtLaterClock(c, front, before, now);
    AcceptedHeaders(c, front, now);
    assert MinedAt(c, chain, nonce, n) && front[n - 1] == chain[n - 1];
    NextBlockIsAccepted(c, front, txs, nonce, Carried(c, front, before), chain[n], now);
    assert front + [chain[n]] == chain[..n + 1];
    CheckChainStep(c, front, chain[n], now);
    FlattenStep(front, chain[n]);
    RebuildAppliesList(Flatten(front), txs, n);
  }

  /** Two mined chains have the same timestamps and difficulties, whatever their bodies. */
  lemma {:induction false} SameTimes(c: Crypto, a: seq<Block>, m: int, b: seq<Block>, n: int, k: nat)
    requires Mined(c, a, m) && Mined(c, b, n) && 0 < k <= |a| && k <= |b|
    requires HeadersOk(c, a) && HeadersOk(c, b)
    ensures forall i :: 0 <= i < k ==> a[i].header.timestamp == b[i].header.timestamp
    ensures forall i :: 0 < i < k ==> a[i].header.difficulty == b[i].header.difficulty
  {
    hide HeaderOk, TimeRules.MedianTimePast, Difficulty.NextUnits, Merkle.MerkleRoot, HeadersOk;
    if k > 1 {
      var i := k - 1;
      SameTimes(c, a, m, b, n, i);
      assert MinedAt(c, a, m, i) && MinedAt(c, b, n, i);
      HeadersOkPrefix(c, a, i);
      HeadersOkPrefix(c, b, i);
      SameNextUnits(c, a[..i], b[..i]);
      SameMedian(a[..i], b[..i]);
    }
  }

  lemma {:induction false} SameMedian(a: seq<Block>, b: seq<Block>)
    requires |a| == |b| && forall i :: 0 <= i < |a| ==> a[i].header.timestamp == b[i].header.timestamp
    ensures TimeRules.MedianTimePast(a) == TimeRules.MedianTimePast(b)
  {
    assert Times(a) == Times(b);
  }

  lemma {:induction false} SameNextUnits(c: Crypto, a: seq<Block>, b: seq<Block>)
    requires HeadersOk(c, a) && HeadersOk(c, b) && |a| == |b|
    requires forall i :: 0 <= i < |a| ==> a[i].header.timestamp == b[i].header.timestamp
    requires forall i :: 0 < i < |a| ==> a[i].header.difficulty == b[i].header.difficulty
    ensures Difficulty.NextUnits(a) == Difficulty.NextUnits(b)
  {
    hide HeaderOk, Difficulty.NextUnits, Difficulty.Smooth;
    if |a| > 1 {
      SlowerChainIsNeverHarder(c, a, b);
      SlowerChainIsNeverHarder(c, b, a);
    } else {
      AcceptedIsSmooth(c, a);
      AcceptedIsSmooth(c, b);
      Difficulty.NextUnitsBounds(a);
      Difficulty.NextUnitsBounds(b);
    }
  }

  lemma {:induction false} SameWork(a: seq<Block>, b: seq<Block>)
    requires |a| == |b|
    requires forall i :: 0 < i < |a| ==> a[i].header.difficulty == b[i].header.difficulty
    requires forall i :: 0 < i < |a| ==> a[i].header.version == b[i].header.version
    ensures Work.ChainWork(a) == Work.ChainWork(b)
  {
    hide Work.TargetWork, Work.TargetForDifficulty, Work.Power16;
    if |a| > 1 {
      SameWork(a[..|a| - 1], b[..|a| - 1]);
    }
  }

  /** Of two mined chains the one with one block more is heavier. */
  lemma {:induction false} OneMoreIsHeavier(c: Crypto, a: seq<Block>, m: int, b: seq<Block>, n: int)
    requires Mined(c, a, m) && Mined(c, b, n) && |b| == |a| + 1 && HeadersOk(c, a) && HeadersOk(c, b)
    ensures Work.ChainWork(a).Ok? && Work.ChainWork(b).Ok? && Work.ChainWork(b).value > Work.ChainWork(a).value
  {
    hide HeaderOk, TimeRules.MedianTimePast, Difficulty.NextUnits, Merkle.MerkleRoot, HeadersOk, Work.ChainWork;
    SameTimes(c, a, m, b, n, |a|);
    forall i | 0 < i < |a| ensures a[i].header.version == b[i].header.version {
      assert MinedAt(c, a, m, i) && MinedAt(c, b, n, i);
    }
    SameWork(a, b[..|a|]);
    WorkGrows(c, b);
  }

  // Bodies

  /** A coinbase that pays five coins, and the record of its output. */
  function Mint(c: Crypto, timestamp: int, address: string, text: string): Tx {
    var body := TxBody(timestamp, [], [TxOut(address, 500_000_000)], Some(text));
    Tx(body, c.TxId(body))
  }

  function Minted(address: string, height: int): Utxo {
    Utxo(TxOut(address, 500_000_000), Some(height), true)
  }

  lemma {:induction false} MintIsCoinbase(c: Crypto, timestamp: int, address: string, text: string, utxos: Utxos,
                                          h: int)
    requires Lenient(c)
    ensures var cb := Mint(c, timestamp, address, text);
            && CheckCoinbase(c, cb) == None
            && ApplyTx(cb, utxos, Some(h)) == utxos[Outpoint(cb.txid, 0) := Minted(address, h)]
  {
    var cb := Mint(c, timestamp, address, text);
    assert Spent(cb) == {};
    assert forall op: Outpoint :: op in OutputKeys(cb.txid, 1) <==> op == Outpoint(cb.txid, 0);
  }

  lemma {:induction false} FirstEraSubsidy(h: int)
    requires 1 <= h <= 2_000_000
    ensures Consensus.BlockSubsidy(h) == 500_000_000
  {
    assert Consensus.BlockSubsidy(h) == Consensus.ShiftRight(500_000_000, 0);
  }

  /** A block with nothing but such a coinbase. */
  lemma {:induction false} MintBody(c: Crypto, cb: Tx, utxos: Utxos, h: int)
    requires CheckCoinbase(c, cb) == None && cb.body.outputs[0].amount == 500_000_000 && 1 <= h <= 2_000_000
    ensures CheckBody(c, [cb], utxos, h) == Ok(ApplyTx(cb, utxos, Some(h)))
  {
    hide ApplyTx, CheckCoinbase, Consensus.BlockSubsidy;
    FirstEraSubsidy(h);
    assert CheckTxs(c, [cb], 1, utxos, h, 0) == Ok(Applied(utxos, 0));
  }

  /** A block with such a coinbase and one payment without a fee. */
  lemma {:induction false} PaymentBody(c: Crypto, cb: Tx, tx: Tx, utxos: Utxos, h: int)
    requires CheckCoinbase(c, cb) == None && cb.body.outputs[0].amount == 500_000_000 && 1 <= h <= 2_000_000
    requires tx.txid != cb.txid && CheckTx(c, tx, utxos, h) == Ok(0)
    ensures CheckBody(c, [cb, tx], utxos, h) == Ok(ApplyTx(cb, ApplyTx(tx, utxos, Some(h)), Some(h)))
  {
    hide ApplyTx, CheckCoinbase, CheckTx, Consensus.BlockSubsidy;
    FirstEraSubsidy(h);
    var txs, after := [cb, tx], ApplyTx(tx, utxos, Some(h));
    assert CheckTxs(c, txs, 2, after, h, 0) == Ok(Applied(after, 0));
    assert TxIds(txs[..1]) == [cb.txid];
    assert CheckTxs(c, txs, 1, utxos, h, 0) == Ok(Applied(after, 0));
  }

  lemma {:induction false} ListOfOne(cb: Tx, utxos: Utxos, h: int)
    ensures ApplyList([cb], utxos, h) == ApplyTx(cb, utxos, Some(h))
  {
    hide ApplyTx;
    assert [cb][..0] == [];
  }

  lemma {:induction false} ListOfTwo(cb: Tx, tx: Tx, utxos: Utxos, h: int)
    ensures ApplyList([cb, tx], utxos, h) == ApplyTx(tx, ApplyTx(cb, utxos, Some(h)), Some(h))
  {
    hide ApplyTx;
    assert [cb, tx][..1] == [cb];
    ListOfOne(cb, utxos, h);
  }

  /** A chain is heavier than each shorter beginning of it. */
  lemma {:induction false} LongerIsHeavier(c: Crypto, chain: seq<Block>, k: nat)
    requires HeadersOk(c, chain) && 0 < k < |chain|
    ensures Work.ChainWork(chain).Ok? && Work.ChainWork(chain[..k]).Ok?
    ensures Work.ChainWork(chain).value > Work.ChainWork(chain[..k]).value
    decreases |chain|
  {
    hide HeadersOk, Work.ChainWork;
    var n := |chain| - 1;
    WorkGrows(c, chain);
    if k < n {
      HeadersOkPrefix(c, chain, n);
      LongerIsHeavier(c, chain[..n], k);
      assert chain[..n][..k] == chain[..k];
    }
  }
}
