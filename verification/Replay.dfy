/** Validating a stored chain again from scratch: when it succeeds and what it gives. */
module Replay {
  import opened Prelude
  import opened Types
  import opened Blocks
  import opened History
  import opened Headers
  import opened Inclusion
  import opened Orders
  import Difficulty
  import Merkle
  import TimeRules
  import Work

  lemma {:induction false} BlockAtLaterClock(c: Crypto, block: Block, chain: seq<Block>, utxos: Utxos, now: int,
                                             later: int)
    requires chain != [] && now <= later && CheckBlock(c, block, chain, utxos, now).Ok?
    ensures CheckBlock(c, block, chain, utxos, later) == CheckBlock(c, block, chain, utxos, now)
  {
    hide Difficulty.NextUnits, TimeRules.MedianTimePast, Merkle.MerkleRoot, CheckBody, Work.MeetsWork;
  }

  lemma {:induction false} ChainAtLaterClock(c: Crypto, candidate: seq<Block>, now: int, later: int)
    requires now <= later && CheckChain(c, candidate, now).Ok?
    ensures CheckChain(c, candidate, later) == CheckChain(c, candidate, now)
    decreases |candidate|
  {
    hide CheckBlock;
    var n := |candidate| - 1;
    if n > 0 {
      CheckChainLast(c, candidate, now);
      ChainAtLaterClock(c, candidate[..n], now, later);
      var before := CheckChain(c, candidate[..n], now).value;
      BlockAtLaterClock(c, candidate[n], before.chain, before.utxos, now, later);
    }
  }

  /** Every stored block is within the byte limit in its stored form, with its hash field. */
  ghost predicate Fits(c: Crypto, chain: seq<Block>) {
    forall i :: 0 < i < |chain| ==> c.BlockBytes(chain[i]) <= 2_000_000
  }

  lemma {:induction false} StoredBlockAgain(c: Crypto, block: Block, chain: seq<Block>, utxos: Utxos, now: int)
    requires chain != [] && CheckBlock(c, block, chain, utxos, now).Ok?
    ensures var stored := Finalized(c, block);
            && (c.BlockBytes(stored) <= 2_000_000 ==>
                  CheckBlock(c, stored, chain, utxos, now) == CheckBlock(c, block, chain, utxos, now))
            && (c.BlockBytes(stored) > 2_000_000 ==>
                  CheckBlock(c, stored, chain, utxos, now) == Err(BlockTooLarge))
  {
    hide Difficulty.NextUnits, TimeRules.ValidateTimestamp, Merkle.MerkleRoot, CheckBody, Work.MeetsWork;
  }

  lemma {:induction false} ReplaySucceeds(c: Crypto, candidate: seq<Block>, now: int)
    requires CheckChain(c, candidate, now).Ok? && Fits(c, CheckChain(c, candidate, now).value.chain)
    ensures CheckChain(c, CheckChain(c, candidate, now).value.chain, now) == CheckChain(c, candidate, now)
    decreases |candidate|
  {
    hide CheckBlock;
    var n := |candidate| - 1;
    if n > 0 {
      CheckChainLast(c, candidate, now);
      var carry := CheckChain(c, candidate, now).value;
      ReplaySucceeds(c, candidate[..n], now);
      StoredBlockAgain(c, candidate[n], carry.chain[..n], CheckChain(c, candidate[..n], now).value.utxos, now);
      CheckChainStep(c, carry.chain[..n], carry.chain[n], now);
      assert carry.chain == carry.chain[..n] + [carry.chain[n]];
    }
  }

  lemma {:induction false} ReplayNeedsFit(c: Crypto, candidate: seq<Block>, now: int)
    requires CheckChain(c, candidate, now).Ok? && !Fits(c, CheckChain(c, candidate, now).value.chain)
    ensures CheckChain(c, CheckChain(c, candidate, now).value.chain, now).Err?
    decreases |candidate|
  {
    hide CheckBlock, Fits;
    var n := |candidate| - 1;
    FitsLast(c, CheckChain(c, candidate, now).value.chain);
    if n > 0 {
      CheckChainLast(c, candidate, now);
      var chain := CheckChain(c, candidate, now).value.chain;
      assert chain == chain[..n] + [chain[n]];
      if Fits(c, chain[..n]) {
        ReplaySucceeds(c, candidate[..n], now);
        StoredBlockAgain(c, candidate[n], chain[..n], CheckChain(c, candidate[..n], now).value.utxos, now);
        CheckChainStep(c, chain[..n], chain[n], now);
      } else {
        ReplayNeedsFit(c, candidate[..n], now);
        CheckChainPrefixFails(c, chain, n, now);
      }
    }
  }

  lemma {:induction false} FitsLast(c: Crypto, chain: seq<Block>)
    ensures |chain| <= 1 ==> Fits(c, chain)
    ensures |chain| > 1 ==>
              var n := |chain| - 1;
              Fits(c, chain) <==> Fits(c, chain[..n]) && c.BlockBytes(chain[n]) <= 2_000_000
  {
    if |chain| > 1 && Fits(c, chain[..|chain| - 1]) {
      assert forall i :: 0 < i < |chain| - 1 ==> chain[..|chain| - 1][i] == chain[i];
    }
  }

  /**
   Validating the validated chain again, at this or any later clock, gives exactly the same chain and UTXO set
   when every stored block fits the byte limit with its hash field, and fails otherwise.
   */
  lemma {:induction false} ReplayIff(c: Crypto, candidate: seq<Block>, now: int, later: int)
    requires CheckChain(c, candidate, now).Ok? && now <= later
    ensures var carry := CheckChain(c, candidate, now).value;
            && (CheckChain(c, carry.chain, later).Ok? <==> Fits(c, carry.chain))
            && (Fits(c, carry.chain) ==> CheckChain(c, carry.chain, later) == Ok(carry))
  {
    hide CheckChain, Fits;
    ChainAtLaterClock(c, candidate, now, later);
    if Fits(c, CheckChain(c, candidate, now).value.chain) {
      ReplaySucceeds(c, candidate, later);
    } else {
      ReplayNeedsFit(c, candidate, later);
    }
  }

  // Chains a node can hold

  /** Some sequence of blocks validates to this chain, with a UTXO set that the rebuilt one is part of. */
  ghost predicate Validated(c: Crypto, chain: seq<Block>, now: int) {
    exists raw :: From(c, raw, chain, now)
  }

  lemma {:induction false} ValidatedLater(c: Crypto, chain: seq<Block>, now: int, later: int)
    requires Validated(c, chain, now) && now <= later
    ensures Validated(c, chain, later)
  {
    hide CheckChain, BuildUtxos, Within;
    var raw :| From(c, raw, chain, now);
    ChainAtLaterClock(c, raw, now, later);
    assert From(c, raw, chain, later);
  }

  lemma {:induction false} ValidatedFacts(c: Crypto, chain: seq<Block>, now: int)
    requires Validated(c, chain, now) && chain != [] && chain[0] == Genesis(c)
    ensures HeadersOk(c, chain) && BodiesOk(c, chain)
    ensures c.TxIdsInjective() && DistinctCoinbases(chain) ==> Sound(c, Flatten(chain))
    ensures CoinbasesOnlyFirst(chain)
  {
    hide CheckChain, BuildUtxos, HeadersOk, BodiesOk, Sound, DistinctCoinbases, Within;
    var raw :| From(c, raw, chain, now);
    GenesisOfAcceptedChain(c, raw, now);
    AcceptedHeaders(c, raw, now);
    AcceptedBodies(c, raw, now);
    CoinbasesComeFirst(c, raw, now);
    if c.TxIdsInjective() && DistinctCoinbases(chain) {
      AcceptedChainIsSound(c, raw, now);
    }
  }

  /** A validated chain extended by any accepted block is validated, with any hashes and any coinbases. */
  lemma {:induction false} ValidatedStep(c: Crypto, chain: seq<Block>, block: Block, now: int)
    requires Validated(c, chain, now) && chain != [] && CheckBlock(c, block, chain, BuildUtxos(chain), now).Ok?
    ensures Validated(c, chain + [Finalized(c, block)], now)
  {
    hide CheckChain, CheckBlock, BuildUtxos, Within;
    var raw :| From(c, raw, chain, now);
    CheckBlockOnLarger(c, block, chain, BuildUtxos(chain), CheckChain(c, raw, now).value.utxos, now);
    FromStep(c, raw, chain, block, now);
    assert From(c, raw + [block], chain + [Finalized(c, block)], now);
  }

  lemma {:induction false} AcceptedIsValidated(c: Crypto, candidate: seq<Block>, now: int)
    requires CheckChain(c, candidate, now).Ok? && candidate[0].header.height == 0
    ensures Validated(c, CheckChain(c, candidate, now).value.chain, now)
  {
    hide CheckChain, From;
    AcceptedIsFrom(c, candidate, now);
  }

  lemma {:induction false} GenesisIsValidated(c: Crypto, now: int)
    ensures Validated(c, [Genesis(c)], now)
  {
    assert CheckChain(c, [Genesis(c)], now).Ok?;
    AcceptedIsValidated(c, [Genesis(c)], now);
  }

  /**
   Where the carried set is the rebuilt one, it stays so over an accepted block if and only if the block spends no
   output of its own coinbase.
   */
  lemma {:induction false} ValidatedStepIff(c: Crypto, raw: seq<Block>, chain: seq<Block>, block: Block, now: int)
    requires CheckChain(c, raw, now) == Ok(Carry(chain, BuildUtxos(chain))) && chain != []
    requires CheckBlock(c, block, chain, BuildUtxos(chain), now).Ok?
    ensures CheckChain(c, raw + [block], now).Ok?
    ensures var longer := chain + [Finalized(c, block)];
            && CheckChain(c, raw + [block], now).value.chain == longer
            && (CheckChain(c, raw + [block], now).value.utxos == BuildUtxos(longer)
                <==> SparesCoinbase(block.transactions))
  {
    hide CheckChain, CheckBlock, CheckBody, State, Flatten, SparesCoinbase;
    CheckChainStep(c, raw, block, now);
    AcceptedBody(c, block, chain, BuildUtxos(chain), now);
    BodyOrdersAgreeIff(c, Flatten(chain), block.transactions, |chain|);
    FlattenStep(chain, Finalized(c, block));
  }

  /** A block that would leave all coinbase txids distinct spends none of its own coinbase. */
  lemma {:induction false} DistinctCoinbaseIsSpared(c: Crypto, chain: seq<Block>, block: Block, now: int)
    requires Validated(c, chain, now) && chain != [] && chain[0] == Genesis(c)
    requires CheckBlock(c, block, chain, BuildUtxos(chain), now).Ok?
    requires c.TxIdsInjective() && DistinctCoinbases(chain + [Finalized(c, block)])
    ensures SparesCoinbase(block.transactions)
  {
    hide CheckChain, CheckBlock, CheckBody, State, Flatten, DistinctCoinbases, Sound, SparesCoinbase, CheckCoinbase,
         HeadersOk, BodiesOk, Validated;
    assert (chain + [Finalized(c, block)])[..|chain|] == chain;
    DistinctCoinbasesPrefix(chain + [Finalized(c, block)], |chain|);
    ValidatedFacts(c, chain, now);
    AcceptedBody(c, block, chain, BuildUtxos(chain), now);
    CoinbaseIsFresh(c, chain, Finalized(c, block));
    BlockIsSound(c, Flatten(chain), block.transactions, |chain|);
    BodyOrdersAgreeIff(c, Flatten(chain), block.transactions, |chain|);
  }

  /**
   What whole-chain validation makes of a stored chain: it succeeds if and only if every stored block fits, with the
   same chain and a UTXO set that the rebuilt one is part of; and is all of, where no block spends its own coinbase.
   */
  ghost predicate ReplaysToItself(c: Crypto, chain: seq<Block>, later: int) {
    && (CheckChain(c, chain, later).Ok? <==> Fits(c, chain))
    && (Fits(c, chain) ==>
          && CheckChain(c, chain, later).value.chain == chain
          && Within(BuildUtxos(chain), CheckChain(c, chain, later).value.utxos)
          && (SparesCoinbases(chain) ==> CheckChain(c, chain, later).value.utxos == BuildUtxos(chain)))
  }

  lemma {:induction false} ValidatedReplays(c: Crypto, chain: seq<Block>, now: int, later: int)
    requires Validated(c, chain, now) && now <= later
    ensures ReplaysToItself(c, chain, later)
  {
    hide CheckChain, BuildUtxos, Fits, Within, SparesCoinbases;
    var raw :| From(c, raw, chain, now);
    GenesisOfAcceptedChain(c, raw, now);
    ReplayIff(c, raw, now, later);
    if Fits(c, chain) && SparesCoinbases(chain) {
      SparingChainIsRebuilt(c, chain, later);
    }
  }
}
