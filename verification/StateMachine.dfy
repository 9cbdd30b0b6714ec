/**
 The `ChainState` object of node.py: fields that are reassigned, dictionaries updated in place, validation loops.
 Each method is proved to compute the function of Ledger, Blocks, Operations or Template that specifies it.
 */
module StateMachine {
  import opened Prelude
  import opened Types
  import opened Ledger
  import opened Blocks
  import opened Operations
  import Consensus
  import Difficulty
  import Merkle
  import Template
  import TimeRules
  import Work

  class ChainState {
    const c: Crypto
    var chain: seq<Block>
    var mempool: seq<Tx>

    function Value(): Node
      reads this
    {
      Node(chain, mempool)
    }

    constructor (c: Crypto, chain: seq<Block>, mempool: seq<Tx>)
      ensures this.c == c && Value() == Node(chain, mempool)
    {
      this.c := c;
      this.chain := chain;
      this.mempool := mempool;
    }

    /** `_load`, with what the chain and mempool files hold; None for a file that does not exist. */
    static method Load(c: Crypto, chainFile: Option<seq<Block>>, mempoolFile: Option<seq<Tx>>)
      returns (r: Result<ChainState>)
      ensures match Operations.Loaded(c, chainFile, mempoolFile)
              case Err(e) => r == Err(e)
              case Ok(s) => r.Ok? && fresh(r.value) && r.value.c == c && r.value.Value() == s
    {
      var blocks := [Genesis(c)];
      if chainFile.Some? {
        blocks := chainFile.value;
      }
      if blocks == [] || blocks[0].hash != Some(GenesisHash(c)) {
        return Err(GenesisMismatch);
      }
      var pending: seq<Tx> := [];
      if mempoolFile.Some? {
        pending := mempoolFile.value;
      }
      var state := new ChainState(c, blocks, pending);
      return Ok(state);
    }

    method BuildUtxoSet(includeMempool: bool) returns (utxos: UtxoSet)
      ensures fresh(utxos)
      ensures utxos.entries == if includeMempool then BuildWithMempool(chain, mempool) else BuildUtxos(chain)
    {
      hide ApplyTx, State;
      utxos := new UtxoSet();
      NothingApplied();
      for i := 0 to |chain|
        invariant utxos.entries == State(Flatten(chain[..i]))
      {
        var block := chain[i];
        ghost var before := Flatten(chain[..i]);
        AppliedNone(before, block.transactions, Some(block.header.height));
        for j := 0 to |block.transactions|
          invariant utxos.entries == State(before + EntriesAt(block.transactions[..j], Some(block.header.height)))
        {
          utxos.ApplyTransaction(block.transactions[j], Some(block.header.height));
          AppliedOne(before, block.transactions, j, Some(block.header.height));
        }
        assert block.transactions[..|block.transactions|] == block.transactions;
        assert chain[..i + 1] == chain[..i] + [block];
        FlattenStep(chain[..i], block);
      }
      assert chain[..|chain|] == chain;
      if includeMempool {
        AppliedNone(Flatten(chain), mempool, None);
        for j := 0 to |mempool|
          invariant utxos.entries == State(Flatten(chain) + EntriesAt(mempool[..j], None))
        {
          utxos.ApplyTransaction(mempool[j], None);
          AppliedOne(Flatten(chain), mempool, j, None);
        }
        assert mempool[..|mempool|] == mempool;
      }
    }

    method ValidateNormalTx(tx: Tx, utxos: UtxoSet, spendHeight: Option<int>) returns (r: Result<int>)
      ensures r == CheckTx(c, tx, utxos.entries, if spendHeight.Some? then spendHeight.value else |chain|)
    {
      hide CheckShape, CheckInputs, CheckOutputs, TransactionFee;
      var shape := CheckShape(c, tx);
      if shape.Some? {
        return Err(shape.value);
      }
      var height := if spendHeight.Some? then spendHeight.value else |chain|;
      var inputTotal := TotalInputs(tx, utxos, height);
      if inputTotal.Err? {
        return Err(inputTotal.error);
      }
      var outputTotal := TotalOutputs(tx);
      if outputTotal.Err? {
        return Err(outputTotal.error);
      }
      return TransactionFee(inputTotal.value, outputTotal.value);
    }

    /** The input loop of `validate_normal_tx`. */
    method TotalInputs(tx: Tx, utxos: UtxoSet, height: int) returns (r: Result<int>)
      ensures r == CheckInputs(c, tx, utxos.entries, height, 0, 0)
    {
      hide InputKeys, Consensus.CoinbaseIsMature;
      var seen: set<Outpoint> := {};
      var total := 0;
      NothingYet(tx, None);
      for i := 0 to |tx.body.inputs|
        invariant seen == InputKeys(tx, i)
        invariant CheckInputs(c, tx, utxos.entries, height, 0, 0) == CheckInputs(c, tx, utxos.entries, height, i, total)
      {
        var input := tx.body.inputs[i];
        if input.prev in seen {
          return Err(DuplicateInput);
        }
        if input.prev !in utxos.entries {
          return Err(MissingInput);
        }
        var prev := utxos.entries[input.prev];
        if prev.coinbase {
          if prev.createdHeight.None? {
            return Err(NoCreationHeight);
          }
          if !Consensus.CoinbaseIsMature(prev.createdHeight.value, height) {
            return Err(ImmatureCoinbase);
          }
        }
        if c.OwnerOf(input.pubkey) != prev.out.address {
          return Err(WrongOwner);
        }
        if !c.SignatureOk(input.pubkey, input.signature, tx.body, i) {
          return Err(BadSignature);
        }
        seen := seen + {input.prev};
        total := total + prev.out.amount;
        InputKeysStep(tx, i);
      }
      return Ok(total);
    }

    /** The output loop of `validate_normal_tx`. */
    method TotalOutputs(tx: Tx) returns (r: Result<int>)
      ensures r == CheckOutputs(c, tx, 0, 0)
    {
      var total := 0;
      for i := 0 to |tx.body.outputs|
        invariant CheckOutputs(c, tx, 0, 0) == CheckOutputs(c, tx, i, total)
      {
        var out := tx.body.outputs[i];
        if out.amount <= 0 {
          return Err(NonPositiveOutput);
        }
        if !c.AddressOk(out.address) {
          return Err(BadAddress);
        }
        total := total + out.amount;
      }
      return Ok(total);
    }

    method AddTransaction(tx: Tx) returns (r: Result<Hash>)
      modifies this`mempool
      ensures Outcome(Value(), r) == Operations.AddTransaction(c, old(Value()), tx)
      ensures r.Err? ==> Value() == old(Value())
    {
      hide CheckTx, BuildWithMempool, ChainIds;
      if IsCoinbase(tx) {
        return Err(UnexpectedCoinbase);
      }
      if tx.txid in IdSet(mempool) {
        return Ok(tx.txid);
      }
      var from := Max(0, |chain| - RECENT_BLOCKS);
      for i := from to |chain|
        invariant forall b :: from <= b < i ==> tx.txid !in IdSet(chain[b].transactions)
      {
        if tx.txid in IdSet(chain[i].transactions) {
          assert chain[from..][i - from] == chain[i];
          InRecent(chain, i - from, tx.txid);
          return Ok(tx.txid);
        }
      }
      NotRecent(chain, tx.txid);
      if |mempool| >= Consensus.MAX_MEMPOOL_TRANSACTIONS {
        return Err(MempoolFull);
      }
      var utxos := BuildUtxoSet(true);
      var fee := ValidateNormalTx(tx, utxos, Some(|chain|));
      if fee.Err? {
        return Err(fee.error);
      }
      mempool := mempool + [tx];
      return Ok(tx.txid);
    }

    /**
     On success the dictionary ends as the validated block leaves it. After a rejection it is abandoned by both
     callers, and nothing is promised about it.
     */
    method ValidateBlockAgainst(block: Block, chain: seq<Block>, utxos: UtxoSet, now: int) returns (r: Result<Block>)
      requires chain != []
      modifies utxos
      ensures match CheckBlock(c, block, chain, old(utxos.entries), now)
              case Err(e) => r == Err(e)
              case Ok(accepted) => r == Ok(accepted.block) && utxos.entries == accepted.utxos
    {
      hide CheckTxs, TimeRules.ValidateTimestamp, Work.MeetsWork, Difficulty.NextUnits, Merkle.MerkleRoot,
           CheckCoinbase;
      var h, txs := block.header, block.transactions;
      if h.height != |chain| {
        return Err(WrongHeight);
      }
      if chain[|chain| - 1].hash != Some(h.prevHash) {
        return Err(WrongPrevHash);
      }
      var time := TimeRules.ValidateTimestamp(chain, h.timestamp, now);
      if time.Some? {
        return Err(time.value);
      }
      if c.BlockBytes(block) > Consensus.MAX_BLOCK_BYTES {
        return Err(BlockTooLarge);
      }
      if h.version != VERSION {
        return Err(BadVersion);
      }
      var expected := Difficulty.ComputeNextUnits(chain);
      if h.difficulty != expected {
        return Err(WrongDifficulty);
      }
      if txs == [] {
        return Err(NoTransactions);
      }
      if |txs| > Consensus.MAX_BLOCK_TRANSACTIONS {
        return Err(TooManyTransactions);
      }
      var root := Merkle.ComputeMerkleRoot(c, TxIds(txs));
      if root != h.merkleRoot {
        return Err(BadMerkleRoot);
      }
      var bhash := BlockHash(c, block);
      if block.hash != None && block.hash != Some(bhash) {
        return Err(BadStoredHash);
      }
      if !Work.MeetsWork(bhash, h.difficulty, h.version) {
        return Err(NoWork);
      }
      var coinbase := CheckCoinbase(c, txs[0]);
      if coinbase.Some? {
        return Err(coinbase.value);
      }
      CoinbaseHasOneOutput(c, txs[0]);
      var fees := ApplyBody(txs, utxos, |chain|);
      if fees.Err? {
        return Err(fees.error);
      }
      var reward := ExpectedCoinbaseValue(|chain|, fees.value);
      if reward.Err? {
        return Err(reward.error);
      }
      if txs[0].body.outputs[0].amount != reward.value {
        return Err(BadReward);
      }
      utxos.ApplyTransaction(txs[0], Some(|chain|));
      return Ok(block.(hash := Some(bhash)));
    }

    /** The transaction loop of `_validate_block_against`. */
    method ApplyBody(txs: seq<Tx>, utxos: UtxoSet, height: int) returns (fees: Result<int>)
      requires txs != []
      modifies utxos
      ensures match CheckTxs(c, txs, 1, old(utxos.entries), height, 0)
              case Err(e) => fees == Err(e)
              case Ok(applied) => fees == Ok(applied.fees) && utxos.entries == applied.utxos
    {
      hide CheckTx, ApplyTx;
      var seen := {txs[0].txid};
      var total := 0;
      for i := 1 to |txs|
        invariant forall id :: id in seen <==> id in TxIds(txs[..i])
        invariant CheckTxs(c, txs, 1, old(utxos.entries), height, 0)
            == CheckTxs(c, txs, i, utxos.entries, height, total)
      {
        if txs[i].txid in seen {
          return Err(DuplicateTx);
        }
        var fee := ValidateNormalTx(txs[i], utxos, Some(height));
        if fee.Err? {
          return Err(fee.error);
        }
        utxos.ApplyTransaction(txs[i], Some(height));
        total := total + fee.value;
        seen := seen + {txs[i].txid};
        assert TxIds(txs[..i + 1]) == TxIds(txs[..i]) + [txs[i].txid];
      }
      return Ok(total);
    }

    method SubmitBlock(block: Block, now: int) returns (r: Result<Hash>)
      requires chain != []
      modifies this
      ensures Outcome(Value(), r) == Operations.SubmitBlock(c, old(Value()), block, now)
      ensures r.Err? ==> Value() == old(Value())
    {
      hide CheckBlock, BuildUtxos, Without;
      var utxos := BuildUtxoSet(false);
      var final := ValidateBlockAgainst(block, chain, utxos, now);
      if final.Err? {
        return Err(final.error);
      }
      chain := chain + [final.value];
      var included := IdSet(AfterFirst(final.value.transactions));
      mempool := Without(mempool, included);
      return Ok(BlockHash(c, final.value));
    }

    method ValidateChainCandidate(candidate: seq<Block>, now: int) returns (r: Result<seq<Block>>)
      ensures match CheckChain(c, candidate, now) case Err(e) => r == Err(e) case Ok(carry) => r == Ok(carry.chain)
    {
      hide CheckBlock, ApplyTx, State;
      if candidate == [] {
        return Err(EmptyChain);
      }
      var genesis := candidate[0];
      if !GenesisMatches(c, genesis) {
        GenesisFails(c, candidate, now);
        return Err(GenesisMismatch);
      }
      var validated := [genesis];
      var utxos := new UtxoSet();
      NothingApplied();
      AppliedNone([], genesis.transactions, Some(0));
      for i := 0 to |genesis.transactions|
        invariant utxos.entries == State([] + EntriesAt(genesis.transactions[..i], Some(0)))
      {
        utxos.ApplyTransaction(genesis.transactions[i], Some(0));
        AppliedOne([], genesis.transactions, i, Some(0));
      }
      assert genesis.transactions[..|genesis.transactions|] == genesis.transactions;
      assert [] + EntriesAt(genesis.transactions, Some(0)) == EntriesAt(genesis.transactions, Some(0));
      assert candidate[..1] == [genesis];
      for i := 1 to |candidate|
        invariant CheckChain(c, candidate[..i], now) == Ok(Carry(validated, utxos.entries))
      {
        assert candidate[..i + 1] == candidate[..i] + [candidate[i]];
        CheckChainStep(c, candidate[..i], candidate[i], now);
        var final := ValidateBlockAgainst(candidate[i], validated, utxos, now);
        if final.Err? {
          CheckChainPrefixFails(c, candidate, i + 1, now);
          return Err(final.error);
        }
        validated := validated + [final.value];
      }
      assert candidate[..|candidate|] == candidate;
      return Ok(validated);
    }

    method ReplaceChain(candidate: seq<Block>, now: int) returns (r: Result<bool>)
      requires chain != []
      modifies this
      ensures Outcome(Value(), r) == Operations.ReplaceChain(c, old(Value()), candidate, now)
      ensures r != Ok(true) ==> Value() == old(Value())
    {
      hide CheckChain, AddAll, Orphans, Work.ChainWork, ChainIds, Without;
      var checked := ValidateChainCandidate(candidate, now);
      if checked.Err? {
        return Err(checked.error);
      }
      var validated := checked.value;
      if validated[|validated| - 1].hash == chain[|chain| - 1].hash {
        return Ok(false);
      }
      var remote := Work.ComputeChainWork(validated);
      if remote.Err? {
        return Err(remote.error);
      }
      var local := Work.ComputeChainWork(chain);
      if local.Err? {
        return Err(local.error);
      }
      if remote.value <= local.value {
        return Err(NotHeavier);
      }
      var confirmed := ChainIds(validated);
      var orphaned := CollectOrphans(chain, confirmed);
      chain := validated;
      mempool := Without(mempool, confirmed);
      OfferAll(orphaned);
      return Ok(true);
    }

    /** The orphan loop of `replace_chain`. */
    method CollectOrphans(oldChain: seq<Block>, confirmed: set<Hash>) returns (orphaned: seq<Tx>)
      ensures orphaned == Orphans(oldChain, confirmed)
    {
      hide Orphans, Without;
      orphaned := [];
      NothingCollected(confirmed);
      for i := 0 to |oldChain|
        invariant orphaned == Orphans(oldChain[..i], confirmed)
      {
        var txs := AfterFirst(oldChain[i].transactions);
        for j := 0 to |txs|
          invariant orphaned == Orphans(oldChain[..i], confirmed) + Without(txs[..j], confirmed)
        {
          if txs[j].txid !in confirmed {
            orphaned := orphaned + [txs[j]];
          }
          WithoutStep(txs, j, confirmed);
        }
        assert txs[..|txs|] == txs;
        OrphansStep(oldChain, i, confirmed);
      }
      assert oldChain[..|oldChain|] == oldChain;
    }

    /** The best-effort loop of `replace_chain`: a refusal is ignored. */
    method OfferAll(txs: seq<Tx>)
      modifies this`mempool
      ensures Value() == AddAll(c, old(Value()), txs)
    {
      hide Operations.AddTransaction;
      for i := 0 to |txs|
        invariant chain == old(chain) && Value() == AddAll(c, old(Value()), txs[..i])
      {
        var _ := AddTransaction(txs[i]);
        assert txs[..i + 1][..i] == txs[..i];
      }
      assert txs[..|txs|] == txs;
    }

    method MiningTemplate(address: string, tag: string, now: int) returns (r: Result<Block>)
      requires chain != [] && chain[|chain| - 1].hash.Some?
      ensures r == Template.MiningTemplate(c, chain, mempool, address, tag, now)
    {
      hide CheckTx, ApplyTx, BuildUtxos, Template.Assemble, Template.BlockTime, Template.Select, Template.Revalidate;
      if !c.AddressOk(address) {
        return Err(BadAddress);
      }
      var height := |chain|;
      var selected, fees := SelectTransactions(height);
      var amount := ExpectedCoinbaseValue(height, fees);
      if amount.Err? {
        return Err(amount.error);
      }
      var timestamp := Template.BlockTime(chain, now);
      var block := Template.Assemble(c, chain, timestamp, address, tag, selected, amount.value);
      while c.BlockBytes(block) > Consensus.MAX_BLOCK_BYTES && |selected| > 0
        invariant Template.MiningTemplate(c, chain, mempool, address, tag, now)
               == Template.Shrink(c, chain, timestamp, address, tag, selected, block)
        decreases |selected|
      {
        selected := selected[..|selected| - 1];
        var applied := PriceAgain(selected, height);
        if applied.Err? {
          return Err(applied.error);
        }
        var reward := ExpectedCoinbaseValue(height, applied.value);
        if reward.Err? {
          return Err(reward.error);
        }
        block := Template.Assemble(c, chain, timestamp, address, tag, selected, reward.value);
      }
      return Ok(block);
    }

    /** The selection loop of `mining_template`. */
    method SelectTransactions(height: int) returns (selected: seq<Tx>, fees: int)
      ensures var s := Template.Select(c, mempool, |mempool|, BuildUtxos(chain), height);
              selected == s.txs && fees == s.fees
    {
      hide CheckTx, ApplyTx, BuildUtxos;
      var utxos := BuildUtxoSet(false);
      selected, fees := [], 0;
      for i := 0 to |mempool|
        invariant Template.Select(c, mempool, i, BuildUtxos(chain), height)
            == Template.Selection(selected, utxos.entries, fees)
      {
        if |selected| + 1 >= Consensus.MAX_BLOCK_TRANSACTIONS {
          SelectionIsFull(c, mempool, i, |mempool|, BuildUtxos(chain), height);
          break;
        }
        var fee := ValidateNormalTx(mempool[i], utxos, Some(height));
        if fee.Err? {
          continue;
        }
        utxos.ApplyTransaction(mempool[i], Some(height));
        selected := selected + [mempool[i]];
        fees := fees + fee.value;
      }
    }

    /** The pricing loop inside the shrink loop of `mining_template`. */
    method PriceAgain(txs: seq<Tx>, height: int) returns (fees: Result<int>)
      ensures match Template.Revalidate(c, txs, BuildUtxos(chain), height)
              case Err(e) => fees == Err(e)
              case Ok(applied) => fees == Ok(applied.fees)
    {
      hide CheckTx, ApplyTx, BuildUtxos;
      var utxos := BuildUtxoSet(false);
      var total := 0;
      for i := 0 to |txs|
        invariant Template.Revalidate(c, txs[..i], BuildUtxos(chain), height) == Ok(Applied(utxos.entries, total))
      {
        assert txs[..i + 1] == txs[..i] + [txs[i]];
        Template.RevalidateStep(c, txs[..i], txs[i], BuildUtxos(chain), height);
        var fee := ValidateNormalTx(txs[i], utxos, Some(height));
        if fee.Err? {
          FailureStays(c, txs, i + 1, BuildUtxos(chain), height);
          return Err(fee.error);
        }
        utxos.ApplyTransaction(txs[i], Some(height));
        total := total + fee.value;
      }
      assert txs[..|txs|] == txs;
      return Ok(total);
    }
  }

  lemma {:induction false} NothingApplied()
    ensures State([]) == map[]
  {
  }

  lemma {:induction false} AppliedNone(before: seq<Entry>, txs: seq<Tx>, height: Option<int>)
    ensures before + EntriesAt(txs[..0], height) == before
  {
  }

  lemma {:induction false} AppliedOne(before: seq<Entry>, txs: seq<Tx>, j: nat, height: Option<int>)
    requires j < |txs|
    ensures var front := State(before + EntriesAt(txs[..j], height));
            State(before + EntriesAt(txs[..j + 1], height)) == ApplyTx(txs[j], front, height)
  {
    assert before + EntriesAt(txs[..j + 1], height) == before + EntriesAt(txs[..j], height) + [Entry(txs[j], height)];
    StateStep(before + EntriesAt(txs[..j], height), Entry(txs[j], height));
  }

  lemma {:induction false} CoinbaseHasOneOutput(c: Crypto, coinbase: Tx)
    requires CheckCoinbase(c, coinbase) == None
    ensures |coinbase.body.outputs| == 1
  {
  }

  lemma {:induction false} NothingCollected(ids: set<Hash>)
    ensures Orphans([], ids) == [] && Without([], ids) == []
  {
  }

  lemma {:induction false} WithoutStep(txs: seq<Tx>, j: nat, ids: set<Hash>)
    requires j < |txs|
    ensures Without(txs[..j + 1], ids) == Without(txs[..j], ids) + (if txs[j].txid in ids then [] else [txs[j]])
  {
    assert txs[..j + 1][..j] == txs[..j];
  }

  lemma {:induction false} OrphansStep(chain: seq<Block>, i: nat, ids: set<Hash>)
    requires i < |chain|
    ensures Orphans(chain[..i + 1], ids) == Orphans(chain[..i], ids) + Without(AfterFirst(chain[i].transactions), ids)
  {
    assert chain[..i + 1][..i] == chain[..i];
  }

  lemma {:induction false} InRecent(chain: seq<Block>, b: nat, id: Hash)
    requires var recent := chain[Max(0, |chain| - RECENT_BLOCKS)..]; b < |recent| && id in IdSet(recent[b].transactions)
    ensures id in RecentIds(chain)
  {
  }

  lemma {:induction false} NotRecent(chain: seq<Block>, id: Hash)
    requires forall b :: Max(0, |chain| - RECENT_BLOCKS) <= b < |chain| ==> id !in IdSet(chain[b].transactions)
    ensures id !in RecentIds(chain)
  {
    var from := Max(0, |chain| - RECENT_BLOCKS);
    forall b | 0 <= b < |chain[from..]| ensures id !in IdSet(chain[from..][b].transactions) {
      assert chain[from..][b] == chain[from + b];
    }
  }

  lemma {:induction false} GenesisFails(c: Crypto, candidate: seq<Block>, now: int)
    requires candidate != [] && !GenesisMatches(c, candidate[0])
    ensures CheckChain(c, candidate, now) == Err(GenesisMismatch)
  {
    assert candidate[..1][0] == candidate[0];
    CheckChainPrefixFails(c, candidate, 1, now);
  }

  lemma {:induction false} SelectionIsFull(c: Crypto, mempool: seq<Tx>, n: nat, m: nat, utxos: Utxos, height: int)
    requires n <= m <= |mempool|
    requires |Template.Select(c, mempool, n, utxos, height).txs| + 1 >= Consensus.MAX_BLOCK_TRANSACTIONS
    ensures Template.Select(c, mempool, m, utxos, height) == Template.Select(c, mempool, n, utxos, height)
    decreases m
  {
    hide CheckTx, ApplyTx;
    if n < m {
      SelectionIsFull(c, mempool, n, m - 1, utxos, height);
    }
  }

  lemma {:induction false} FailureStays(c: Crypto, txs: seq<Tx>, n: nat, utxos: Utxos, height: int)
    requires n <= |txs| && Template.Revalidate(c, txs[..n], utxos, height).Err?
    ensures Template.Revalidate(c, txs, utxos, height) == Template.Revalidate(c, txs[..n], utxos, height)
    decreases |txs| - n
  {
    hide CheckTx, ApplyTx;
    if n == |txs| {
      assert txs[..n] == txs;
    } else {
      assert txs[..n + 1] == txs[..n] + [txs[n]];
      Template.RevalidateStep(c, txs[..n], txs[n], utxos, height);
      FailureStays(c, txs, n + 1, utxos, height);
    }
  }
}
