/** Block and chain validation of node.py as functions of the block, the chain before it and the UTXO set. */
module Blocks {
  import opened Prelude
  import opened Types
  import opened Ledger
  import Consensus
  import Difficulty
  import Merkle
  import TimeRules
  import Work

  const VERSION := 2
  const GENESIS_TIMESTAMP := 1_787_103_720
  const GENESIS_MESSAGE := "GameCoin" + " mainnet genesis 2026-08-18 | v1.0.0"
    + " | subsidy 5 GAME | halving 2102400 | target 150s | no premine"

  // Genesis

  function GenesisTx(c: Crypto): Tx {
    var body := TxBody(GENESIS_TIMESTAMP, [], [], Some(GENESIS_MESSAGE));
    Tx(body, c.TxId(body))
  }

  function GenesisHeader(c: Crypto): Header {
    Header(1, 0, 0, GENESIS_TIMESTAMP, 0, Merkle.MerkleRoot(c, [GenesisTx(c).txid]), 0)
  }

  function GenesisHash(c: Crypto): Hash {
    c.HeaderHash(GenesisHeader(c))
  }

  function Genesis(c: Crypto): Block {
    Block(GenesisHeader(c), [GenesisTx(c)], Some(GenesisHash(c)))
  }

  /** The genesis block, of 18 August 2026, spelled out: it pays nothing and its Merkle root is its one txid. */
  lemma {:induction false} GenesisIs(c: Crypto)
    ensures var text := "GameCoin" + " mainnet genesis 2026-08-18 | v1.0.0"
              + " | subsidy 5 GAME | halving 2102400 | target 150s | no premine";
            var body := TxBody(1_787_103_720, [], [], Some(text));
            var header := Header(1, 0, 0, 1_787_103_720, 0, c.TxId(body), 0);
            Genesis(c) == Block(header, [Tx(body, c.TxId(body))], Some(c.HeaderHash(header)))
  {
  }

  // The UTXO set of a list of transactions, each applied at its height (None while it is pending)

  datatype Entry = Entry(tx: Tx, height: Option<int>)

  function State(entries: seq<Entry>): Utxos {
    if entries == [] then map[]
    else
      var n := |entries| - 1;
      ApplyTx(entries[n].tx, State(entries[..n]), entries[n].height)
  }

  function EntriesAt(txs: seq<Tx>, height: Option<int>): (es: seq<Entry>)
    ensures |es| == |txs| && forall i :: 0 <= i < |es| ==> es[i] == Entry(txs[i], height)
  {
    seq(|txs|, i requires 0 <= i < |txs| => Entry(txs[i], height))
  }

  function BlockEntries(block: Block): seq<Entry> {
    EntriesAt(block.transactions, Some(block.header.height))
  }

  function Flatten(chain: seq<Block>): seq<Entry> {
    if chain == [] then [] else Flatten(chain[..|chain| - 1]) + BlockEntries(chain[|chain| - 1])
  }

  /** `build_utxos` without the mempool: every block in order, every transaction of it in order, coinbase first. */
  function BuildUtxos(chain: seq<Block>): Utxos {
    State(Flatten(chain))
  }

  function BuildWithMempool(chain: seq<Block>, mempool: seq<Tx>): Utxos {
    State(Flatten(chain) + EntriesAt(mempool, None))
  }

  lemma {:induction false} StateStep(entries: seq<Entry>, e: Entry)
    ensures State(entries + [e]) == ApplyTx(e.tx, State(entries), e.height)
  {
    assert (entries + [e])[..|entries|] == entries;
  }

  lemma {:induction false} FlattenStep(chain: seq<Block>, block: Block)
    ensures Flatten(chain + [block]) == Flatten(chain) + BlockEntries(block)
  {
    assert (chain + [block])[..|chain|] == chain;
  }

  // _validate_block_against

  datatype Applied = Applied(utxos: Utxos, fees: int)

  /** The normal transactions of a block from index `i` on. */
  function CheckTxs(c: Crypto, txs: seq<Tx>, i: nat, utxos: Utxos, height: int, fees: int): Result<Applied>
    requires i <= |txs|
    decreases |txs| - i
  {
    if i == |txs| then Ok(Applied(utxos, fees))
    else if txs[i].txid in TxIds(txs[..i]) then Err(DuplicateTx)
    else
      var fee :- CheckTx(c, txs[i], utxos, height);
      CheckTxs(c, txs, i + 1, ApplyTx(txs[i], utxos, Some(height)), height, fees + fee)
  }

  function CheckCoinbase(c: Crypto, coinbase: Tx): Option<Error> {
    var outputs := coinbase.body.outputs;
    if coinbase.body.inputs != [] || !IsCoinbase(coinbase) then Some(NoCoinbase)
    else if c.TxId(coinbase.body) != coinbase.txid then Some(BadCoinbaseId)
    else if |outputs| != 1 then Some(BadCoinbaseOutputs)
    else if outputs[0].amount < 0 then Some(NegativeCoinbase)
    else if !c.AddressOk(outputs[0].address) then Some(BadCoinbaseAddress)
    else None
  }

  /** The checks made before the proof of work. */
  function CheckHeader(c: Crypto, block: Block, chain: seq<Block>, now: int): Option<Error>
    requires chain != []
  {
    var h := block.header;
    var time := TimeRules.ValidateTimestamp(chain, h.timestamp, now);
    if h.height != |chain| then Some(WrongHeight)
    else if chain[|chain| - 1].hash != Some(h.prevHash) then Some(WrongPrevHash)
    else if time.Some? then time
    else if c.BlockBytes(block) > Consensus.MAX_BLOCK_BYTES then Some(BlockTooLarge)
    else if h.version != VERSION then Some(BadVersion)
    else if h.difficulty != Difficulty.NextUnits(chain) then Some(WrongDifficulty)
    else if block.transactions == [] then Some(NoTransactions)
    else if |block.transactions| > Consensus.MAX_BLOCK_TRANSACTIONS then Some(TooManyTransactions)
    else if Merkle.MerkleRoot(c, TxIds(block.transactions)) != h.merkleRoot then Some(BadMerkleRoot)
    else if block.hash != None && block.hash != Some(BlockHash(c, block)) then Some(BadStoredHash)
    else None
  }

  /** The checks made after it, and the UTXO set they leave: the coinbase is applied last. */
  function CheckBody(c: Crypto, txs: seq<Tx>, utxos: Utxos, height: int): Result<Utxos>
    requires txs != []
  {
    match CheckCoinbase(c, txs[0])
    case Some(e) => Err(e)
    case None =>
      var applied :- CheckTxs(c, txs, 1, utxos, height, 0);
      var reward :- ExpectedCoinbaseValue(height, applied.fees);
      if txs[0].body.outputs[0].amount != reward then Err(BadReward)
      else Ok(ApplyTx(txs[0], applied.utxos, Some(height)))
  }

  function Finalized(c: Crypto, block: Block): Block {
    block.(hash := Some(BlockHash(c, block)))
  }

  datatype Accepted = Accepted(block: Block, utxos: Utxos)

  function CheckBlock(c: Crypto, block: Block, chain: seq<Block>, utxos: Utxos, now: int): Result<Accepted>
    requires chain != []
  {
    match CheckHeader(c, block, chain, now)
    case Some(e) => Err(e)
    case None =>
      if !Work.MeetsWork(BlockHash(c, block), block.header.difficulty, block.header.version) then Err(NoWork)
      else
        var after :- CheckBody(c, block.transactions, utxos, |chain|);
        Ok(Accepted(Finalized(c, block), after))
  }

  // validate_chain_candidate

  datatype Carry = Carry(chain: seq<Block>, utxos: Utxos)

  predicate GenesisMatches(c: Crypto, block: Block) {
    block.hash == Some(GenesisHash(c)) && BlockHash(c, block) == GenesisHash(c)
  }

  function CheckChain(c: Crypto, candidate: seq<Block>, now: int): (r: Result<Carry>)
    ensures r.Ok? ==> |r.value.chain| == |candidate| && candidate != []
  {
    if candidate == [] then Err(EmptyChain)
    else if |candidate| == 1 then
      if !GenesisMatches(c, candidate[0]) then Err(GenesisMismatch)
      else Ok(Carry(candidate, State(EntriesAt(candidate[0].transactions, Some(0)))))
    else
      var n := |candidate| - 1;
      var before :- CheckChain(c, candidate[..n], now);
      var last :- CheckBlock(c, candidate[n], before.chain, before.utxos, now);
      Ok(Carry(before.chain + [last.block], last.utxos))
  }

  lemma {:induction false} CheckChainStep(c: Crypto, candidate: seq<Block>, block: Block, now: int)
    requires CheckChain(c, candidate, now).Ok?
    ensures var before := CheckChain(c, candidate, now).value;
            var last := CheckBlock(c, block, before.chain, before.utxos, now);
            CheckChain(c, candidate + [block], now)
            == if last.Ok? then Ok(Carry(before.chain + [last.value.block], last.value.utxos)) else Err(last.error)
  {
    assert (candidate + [block])[..|candidate|] == candidate;
  }

  lemma {:induction false} CheckChainPrefixFails(c: Crypto, candidate: seq<Block>, n: nat, now: int)
    requires 0 < n <= |candidate| && CheckChain(c, candidate[..n], now).Err?
    ensures CheckChain(c, candidate, now) == CheckChain(c, candidate[..n], now)
    decreases |candidate| - n
  {
    if n == |candidate| {
      assert candidate[..n] == candidate;
    } else {
      assert candidate[..n + 1][..n] == candidate[..n];
      CheckChainPrefixFails(c, candidate, n + 1, now);
    }
  }

  lemma {:induction false} CheckChainLast(c: Crypto, candidate: seq<Block>, now: int)
    requires |candidate| > 1 && CheckChain(c, candidate, now).Ok?
    ensures var n := |candidate| - 1;
            var chain := CheckChain(c, candidate, now).value.chain;
            && CheckChain(c, candidate[..n], now).Ok?
            && CheckChain(c, candidate[..n], now).value.chain == chain[..n]
            && CheckBlock(c, candidate[n], chain[..n], CheckChain(c, candidate[..n], now).value.utxos, now)
               == Ok(Accepted(chain[n], CheckChain(c, candidate, now).value.utxos))
            && chain[n] == Finalized(c, candidate[n])
  {
  }

  /** Every prefix of an accepted candidate is accepted, and gives the same prefix of the validated chain. */
  lemma {:induction false} CheckChainPrefix(c: Crypto, candidate: seq<Block>, n: nat, now: int)
    requires 0 < n <= |candidate| && CheckChain(c, candidate, now).Ok?
    ensures CheckChain(c, candidate[..n], now).Ok?
    ensures CheckChain(c, candidate[..n], now).value.chain == CheckChain(c, candidate, now).value.chain[..n]
    decreases |candidate| - n
  {
    hide CheckChain, CheckBlock;
    if n == |candidate| {
      assert candidate[..n] == candidate;
    } else {
      CheckChainPrefix(c, candidate, n + 1, now);
      CheckChainLast(c, candidate[..n + 1], now);
      assert candidate[..n + 1][..n] == candidate[..n];
    }
  }

  /** What each block of an accepted chain passed, and against what. */
  lemma {:induction false} BlockOfAcceptedChain(c: Crypto, candidate: seq<Block>, i: nat, now: int)
    requires 0 < i < |candidate| && CheckChain(c, candidate, now).Ok?
    ensures CheckChain(c, candidate[..i], now).Ok?
    ensures var chain, before := CheckChain(c, candidate, now).value.chain, CheckChain(c, candidate[..i], now).value;
            && before.chain == chain[..i]
            && CheckBlock(c, candidate[i], chain[..i], before.utxos, now).Ok?
            && chain[i] == Finalized(c, candidate[i])
  {
    hide CheckChain, CheckBlock;
    CheckChainPrefix(c, candidate, i + 1, now);
    CheckChainLast(c, candidate[..i + 1], now);
    assert candidate[..i + 1][..i] == candidate[..i];
    var chain := CheckChain(c, candidate, now).value.chain;
    assert chain[..i + 1][..i] == chain[..i];
  }

  // Headers of accepted chains

  /** What an accepted header says about the chain before it. */
  ghost predicate HeaderOk(c: Crypto, chain: seq<Block>, i: nat)
    requires 0 < i < |chain|
  {
    var b := chain[i];
    && b.hash == Some(BlockHash(c, b))
    && b.header.height == i
    && chain[i - 1].hash == Some(b.header.prevHash)
    && b.header.version == VERSION
    && b.header.difficulty == Difficulty.NextUnits(chain[..i])
    && b.header.timestamp > TimeRules.MedianTimePast(chain[..i])
    && 0 < |b.transactions| <= 1_000
    && Merkle.MerkleRoot(c, TxIds(b.transactions)) == b.header.merkleRoot
    && CheckCoinbase(c, b.transactions[0]) == None
  }

  ghost predicate HeadersOk(c: Crypto, chain: seq<Block>) {
    && chain != []
    && chain[0].header == GenesisHeader(c) && chain[0].hash == Some(GenesisHash(c))
    && forall i :: 0 < i < |chain| ==> HeaderOk(c, chain, i)
  }

  lemma {:induction false} GenesisOfAcceptedChain(c: Crypto, candidate: seq<Block>, now: int)
    requires CheckChain(c, candidate, now).Ok?
    ensures CheckChain(c, candidate, now).value.chain[0] == candidate[0] && GenesisMatches(c, candidate[0])
  {
    CheckChainPrefix(c, candidate, 1, now);
    var chain := CheckChain(c, candidate, now).value.chain;
    assert chain[..1] == candidate[..1];
    assert chain[0] == chain[..1][0];
  }

  lemma {:induction false} AcceptedHeader(c: Crypto, block: Block, chain: seq<Block>, i: nat, utxos: Utxos, now: int)
    requires 0 < i < |chain| && chain[i] == Finalized(c, block)
    requires CheckBlock(c, block, chain[..i], utxos, now).Ok?
    ensures HeaderOk(c, chain, i)
  {
    hide Work.MeetsWork, Difficulty.NextUnits, Merkle.MerkleRoot, TimeRules.MedianTimePast, CheckCoinbase, CheckTxs,
         ApplyTx;
    assert chain[..i][|chain[..i]| - 1] == chain[i - 1];
  }

  /** The body of an accepted block passed its own checks. */
  lemma {:induction false} AcceptedBody(c: Crypto, block: Block, chain: seq<Block>, utxos: Utxos, now: int)
    requires chain != [] && CheckBlock(c, block, chain, utxos, now).Ok?
    ensures block.transactions != [] && CheckCoinbase(c, block.transactions[0]) == None
    ensures CheckBody(c, block.transactions, utxos, |chain|).Ok?
    ensures CheckTxs(c, block.transactions, 1, utxos, |chain|, 0).Ok?
    ensures CheckBlock(c, block, chain, utxos, now)
         == Ok(Accepted(Finalized(c, block), CheckBody(c, block.transactions, utxos, |chain|).value))
    ensures block.header.height == |chain|
  {
    hide Work.MeetsWork, Difficulty.NextUnits, Merkle.MerkleRoot, TimeRules.ValidateTimestamp, CheckCoinbase, CheckTxs,
         ApplyTx;
  }

  lemma {:induction false} AcceptedHeaders(c: Crypto, candidate: seq<Block>, now: int)
    requires CheckChain(c, candidate, now).Ok? && candidate[0].header == GenesisHeader(c)
    ensures HeadersOk(c, CheckChain(c, candidate, now).value.chain)
  {
    hide CheckChain, CheckBody, Work.MeetsWork, Difficulty.NextUnits, Merkle.MerkleRoot, TimeRules.MedianTimePast,
         CheckCoinbase, HeaderOk;
    var chain := CheckChain(c, candidate, now).value.chain;
    GenesisOfAcceptedChain(c, candidate, now);
    forall i | 0 < i < |chain| ensures HeaderOk(c, chain, i) {
      BlockOfAcceptedChain(c, candidate, i, now);
      AcceptedHeader(c, candidate[i], chain, i, CheckChain(c, candidate[..i], now).value.utxos, now);
    }
  }

  lemma {:induction false} HeadersOkPrefix(c: Crypto, chain: seq<Block>, n: nat)
    requires HeadersOk(c, chain) && 0 < n <= |chain|
    ensures HeadersOk(c, chain[..n])
  {
    forall i | 0 < i < n ensures HeaderOk(c, chain[..n], i) {
      assert HeaderOk(c, chain, i);
      assert chain[..n][..i] == chain[..i];
    }
  }
}
