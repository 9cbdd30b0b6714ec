/** What holds of the headers of every accepted chain: time, difficulty, work, and what the tip hash commits to. */
module Headers {
  import opened Prelude
  import opened Types
  import opened Ledger
  import opened Blocks
  import opened Difficulty
  import opened TimeRules
  import opened Work
  import Merkle

  // Time

  lemma {:induction false} TimesRise(c: Crypto, chain: seq<Block>)
    requires HeadersOk(c, chain)
    ensures MedianTimePast(chain) >= GENESIS_TIMESTAMP
    ensures forall i :: 0 < i < |chain| ==> chain[i].header.timestamp > GENESIS_TIMESTAMP
    decreases |chain|
  {
    hide MedianTimePast, NextUnits, Merkle.MerkleRoot, CheckCoinbase;
    var n := |chain| - 1;
    if n == 0 {
      MedianOfGenesis(c, chain);
    } else {
      HeadersOkPrefix(c, chain, n);
      TimesRise(c, chain[..n]);
      assert HeaderOk(c, chain, n);
      MedianTimePastNeverDecreases(chain[..n], chain[n]);
      assert chain[..n] + [chain[n]] == chain;
      forall i | 0 < i < |chain| ensures chain[i].header.timestamp > GENESIS_TIMESTAMP {
        if i < n {
          assert chain[..n][i] == chain[i];
        }
      }
    }
  }

  lemma {:induction false} MedianOfGenesis(c: Crypto, chain: seq<Block>)
    requires |chain| == 1 && chain[0].header == GenesisHeader(c)
    ensures MedianTimePast(chain) == GENESIS_TIMESTAMP
  {
    assert Window(Times(chain)) == [GENESIS_TIMESTAMP];
    assert Sort([GENESIS_TIMESTAMP]) == [GENESIS_TIMESTAMP];
  }

  /** Median time past never decreases along an accepted chain. */
  lemma {:induction false} MedianNeverDecreases(c: Crypto, chain: seq<Block>, i: nat, j: nat)
    requires HeadersOk(c, chain) && 0 < i <= j <= |chain|
    ensures MedianTimePast(chain[..i]) <= MedianTimePast(chain[..j])
    decreases j - i
  {
    hide MedianTimePast, NextUnits, Merkle.MerkleRoot, CheckCoinbase;
    if i < j {
      MedianNeverDecreases(c, chain, i, j - 1);
      assert HeaderOk(c, chain, j - 1);
      MedianTimePastNeverDecreases(chain[..j - 1], chain[j - 1]);
      assert chain[..j - 1] + [chain[j - 1]] == chain[..j];
    }
  }

  lemma {:induction false} AcceptedIsSmooth(c: Crypto, chain: seq<Block>)
    requires HeadersOk(c, chain)
    ensures Smooth(chain)
  {
    hide MedianTimePast, NextUnits, Merkle.MerkleRoot, CheckCoinbase, HeaderOk;
    TimesRise(c, chain);
    forall i | 0 < i < |chain| ensures chain[i].header.height == i && chain[i].header.version == 2 {
      VersionAndHeight(c, chain, i);
    }
  }

  lemma {:induction false} VersionAndHeight(c: Crypto, chain: seq<Block>, i: nat)
    requires 0 < i < |chain| && HeaderOk(c, chain, i)
    ensures chain[i].header.height == i && chain[i].header.version == 2
  {
  }

  /**
   Every accepted timestamp is later than genesis, so no gap is ever skipped: the difficulty rule reads exactly
   the last min(12, height) gaps, each clamped to 37 to 600 seconds.
   */
  lemma {:induction false} AlwaysFullWindow(c: Crypto, chain: seq<Block>)
    requires HeadersOk(c, chain)
    ensures forall i :: 0 < i < |chain| ==> chain[i].header.timestamp > chain[0].header.timestamp
    ensures |RecentSamples(chain)| == Min(ADJUST_WINDOW, |chain| - 1)
    ensures forall j :: 0 <= j < |RecentSamples(chain)| ==>
              SAMPLE_MIN_SECONDS <= RecentSamples(chain)[j].elapsed <= SAMPLE_MAX_SECONDS
  {
    hide MedianTimePast, NextUnits, Merkle.MerkleRoot, CheckCoinbase, HeaderOk, RecentSamples, ClampSeconds;
    TimesRise(c, chain);
    AcceptedIsSmooth(c, chain);
    SamplesOfChain(chain);
    forall j | 0 <= j < |RecentSamples(chain)|
      ensures SAMPLE_MIN_SECONDS <= RecentSamples(chain)[j].elapsed <= SAMPLE_MAX_SECONDS
    {
      var i := |chain| - |RecentSamples(chain)| + j;
      ClampRange(chain[i].header.timestamp - chain[i - 1].header.timestamp);
    }
  }

  lemma {:induction false} ClampRange(elapsed: int)
    ensures SAMPLE_MIN_SECONDS <= ClampSeconds(elapsed) <= SAMPLE_MAX_SECONDS
  {
  }

  // Difficulty

  lemma {:induction false} DifficultyInRange(c: Crypto, chain: seq<Block>, i: nat)
    requires HeadersOk(c, chain) && 0 < i < |chain|
    ensures InRange(chain[i].header.difficulty)
    decreases i
  {
    hide NextUnits, MedianTimePast, Merkle.MerkleRoot, CheckCoinbase, Smooth;
    HeadersOkPrefix(c, chain, i);
    AcceptedIsSmooth(c, chain[..i]);
    if i > 1 {
      DifficultyInRange(c, chain, i - 1);
      assert chain[..i][i - 1] == chain[i - 1];
    }
    assert HeaderOk(c, chain, i);
    NextUnitsBounds(chain[..i]);
  }

  /** Retarget bounds along an accepted chain; the 1.75 arm is never the cap of a chain with samples. */
  lemma {:induction false} RetargetBoundsOnChain(c: Crypto, chain: seq<Block>, i: nat)
    requires HeadersOk(c, chain) && 0 < i < |chain|
    ensures InRange(chain[i].header.difficulty)
    ensures i == 1 ==> chain[i].header.difficulty == INITIAL_DIFFICULTY_UNITS
    ensures i > 1 ==>
              var cur, next := chain[i - 1].header.difficulty, chain[i].header.difficulty;
              100 * next >= 67 * cur - 50 && 2 * next <= 3 * cur + 1
    ensures i > 1 ==>
              var s := RecentSamples(chain[..i]);
              s != [] && MaxUp(SumSeconds(s) as real / |s| as real) <= 1.5
  {
    hide NextUnits, MedianTimePast, Merkle.MerkleRoot, CheckCoinbase, Smooth, RecentSamples, MaxUp;
    DifficultyInRange(c, chain, i);
    HeadersOkPrefix(c, chain, i);
    AcceptedIsSmooth(c, chain[..i]);
    if i > 1 {
      DifficultyInRange(c, chain, i - 1);
      assert chain[..i][i - 1] == chain[i - 1];
      AlwaysFullWindow(c, chain[..i]);
      var s := RecentSamples(chain[..i]);
      SecondsAtLeast(s);
      RetargetBounds(chain[i - 1].header.difficulty, |s|, SumSeconds(s), SumHashes(s));
    }
    assert HeaderOk(c, chain, i);
    NextUnitsBounds(chain[..i]);
  }

  /** `NextFollowsWanted` for every accepted chain, and so for every block of it; after genesis 1,000,000,000 units. */
  lemma {:induction false} NextDifficultyExactly(c: Crypto, chain: seq<Block>) returns (desired: int)
    requires HeadersOk(c, chain)
    ensures |chain| == 1 ==> NextUnits(chain) == 1_000_000_000
    ensures |chain| > 1 ==>
              var n := if |chain| > 12 then 12 else |chain| - 1;
              var time, units := SumGaps(chain, n), SumUnits(chain, n);
              var up := if time < 60 * n then 1.5 else if time < 120 * n then 1.25 else 1.1;
              && time >= 37 * n && IsUnits(desired, 150.0 * units as real / time as real)
              && Follows(NextUnits(chain), chain[|chain| - 1].header.difficulty, desired, up)
  {
    hide NextUnits, MedianTimePast, Merkle.MerkleRoot, CheckCoinbase, Smooth, Follows, IsUnits, SumGaps, SumUnits;
    AcceptedIsSmooth(c, chain);
    desired := 0;
    if |chain| == 1 {
      FirstDifficulty(chain);
    } else {
      forall i | 1 <= i < |chain| ensures InRange(chain[i].header.difficulty) {
        DifficultyInRange(c, chain, i);
      }
      desired := NextFollowsWanted(chain);
    }
  }

  /** Of two accepted chains with one window of difficulties, the slower one is never asked for a harder block. */
  lemma {:induction false} SlowerChainIsNeverHarder(c: Crypto, fast: seq<Block>, slow: seq<Block>)
    requires HeadersOk(c, fast) && HeadersOk(c, slow) && |fast| == |slow| > 1
    requires forall i :: 1 <= i < |fast| && i >= |fast| - ADJUST_WINDOW ==>
               && fast[i].header.difficulty == slow[i].header.difficulty
               && fast[i].header.timestamp - fast[i - 1].header.timestamp
                  <= slow[i].header.timestamp - slow[i - 1].header.timestamp
    ensures NextUnits(slow) <= NextUnits(fast)
  {
    hide HeaderOk, NextUnits, Smooth;
    AcceptedIsSmooth(c, fast);
    AcceptedIsSmooth(c, slow);
    DifficultyInRange(c, fast, |fast| - 1);
    SlowerBlocksNeverRaise(fast, slow);
  }

  /** An accepted chain whose window holds one difficulty at exactly 150 seconds a block keeps that difficulty. */
  lemma {:induction false} SteadyChainKeepsDifficulty(c: Crypto, chain: seq<Block>, units: int)
    requires HeadersOk(c, chain) && |chain| > 1
    requires forall i :: 1 <= i < |chain| && i >= |chain| - ADJUST_WINDOW ==>
               chain[i].header.difficulty == units && chain[i].header.timestamp - chain[i - 1].header.timestamp == 150
    ensures NextUnits(chain) == units
  {
    hide HeaderOk, NextUnits, Smooth;
    AcceptedIsSmooth(c, chain);
    forall i | 1 <= i < |chain| ensures InRange(chain[i].header.difficulty) {
      DifficultyInRange(c, chain, i);
    }
    assert InRange(chain[|chain| - 1].header.difficulty);
    SteadyPaceIsFixed(chain, units);
  }

  // Work

  lemma {:induction false} WorkIsDefined(c: Crypto, chain: seq<Block>)
    requires HeadersOk(c, chain)
    ensures ChainWork(chain).Ok?
    decreases |chain|
  {
    hide BlockWork;
    var n := |chain| - 1;
    if n > 0 {
      BlockWorkIsPositive(c, chain, n);
      HeadersOkPrefix(c, chain, n);
      WorkIsDefined(c, chain[..n]);
    }
  }

  lemma {:induction false} BlockWorkIsPositive(c: Crypto, chain: seq<Block>, i: nat)
    requires HeadersOk(c, chain) && 0 < i < |chain|
    ensures BlockWork(chain[i].header).Ok? && BlockWork(chain[i].header).value > 0
  {
    hide TargetWork, TargetForDifficulty, NextUnits, MedianTimePast, Merkle.MerkleRoot, CheckCoinbase;
    DifficultyInRange(c, chain, i);
    assert HeaderOk(c, chain, i);
    TightWork(chain[i].header.difficulty);
  }

  lemma {:induction false} WorkGrows(c: Crypto, chain: seq<Block>)
    requires HeadersOk(c, chain) && |chain| > 1
    ensures ChainWork(chain).Ok? && ChainWork(chain[..|chain| - 1]).Ok?
    ensures ChainWork(chain).value > ChainWork(chain[..|chain| - 1]).value
  {
    hide BlockWork, HeadersOk;
    var n := |chain| - 1;
    HeadersOkPrefix(c, chain, n);
    WorkIsDefined(c, chain[..n]);
    BlockWorkIsPositive(c, chain, n);
  }

  // Bodies and commitments

  /** The txids of a block are its own and no two are equal. */
  ghost predicate HonestTxids(c: Crypto, txs: seq<Tx>) {
    && Merkle.Distinct(TxIds(txs))
    && forall i :: 0 <= i < |txs| ==> c.TxId(txs[i].body) == txs[i].txid
  }

  ghost predicate BodiesOk(c: Crypto, chain: seq<Block>) {
    && (chain != [] ==> chain[0] == Genesis(c))
    && forall i :: 0 <= i < |chain| ==> HonestTxids(c, chain[i].transactions)
  }

  lemma {:induction false} TxsAreHonest(c: Crypto, txs: seq<Tx>, i: nat, utxos: Utxos, h: int, fees: int)
    requires i <= |txs| && CheckTxs(c, txs, i, utxos, h, fees).Ok?
    requires HonestTxids(c, txs[..i])
    ensures HonestTxids(c, txs)
    decreases |txs| - i
  {
    hide ApplyTx, CheckTx, HonestTxids;
    if i == |txs| {
      assert txs[..i] == txs;
    } else {
      CheckTxAccepts(c, txs[i], utxos, h);
      HonestStep(c, txs, i);
      var fee := CheckTx(c, txs[i], utxos, h).value;
      TxsAreHonest(c, txs, i + 1, ApplyTx(txs[i], utxos, Some(h)), h, fees + fee);
    }
  }

  lemma {:induction false} HonestStep(c: Crypto, txs: seq<Tx>, i: nat)
    requires i < |txs| && HonestTxids(c, txs[..i])
    requires txs[i].txid !in TxIds(txs[..i]) && c.TxId(txs[i].body) == txs[i].txid
    ensures HonestTxids(c, txs[..i + 1])
  {
    assert txs[..i + 1] == txs[..i] + [txs[i]];
    forall j | 0 <= j < i ensures txs[j].txid != txs[i].txid {
      assert TxIds(txs[..i])[j] == txs[j].txid;
    }
  }

  lemma {:induction false} AcceptedBodies(c: Crypto, candidate: seq<Block>, now: int)
    requires CheckChain(c, candidate, now).Ok? && candidate[0] == Genesis(c)
    ensures BodiesOk(c, CheckChain(c, candidate, now).value.chain)
  {
    hide CheckChain, CheckBlock, CheckBody, CheckTxs, HonestTxids;
    var chain := CheckChain(c, candidate, now).value.chain;
    GenesisOfAcceptedChain(c, candidate, now);
    GenesisIsHonest(c);
    forall i | 0 < i < |chain| ensures HonestTxids(c, chain[i].transactions) {
      BlockOfAcceptedChain(c, candidate, i, now);
      var before := CheckChain(c, candidate[..i], now).value.utxos;
      AcceptedBody(c, candidate[i], chain[..i], before, now);
      CoinbaseIsHonest(c, candidate[i].transactions);
      TxsAreHonest(c, candidate[i].transactions, 1, before, i, 0);
    }
  }

  lemma {:induction false} GenesisIsHonest(c: Crypto)
    ensures HonestTxids(c, Genesis(c).transactions)
  {
  }

  lemma {:induction false} CoinbaseIsHonest(c: Crypto, txs: seq<Tx>)
    requires txs != [] && CheckCoinbase(c, txs[0]) == None
    ensures HonestTxids(c, txs[..1])
  {
  }

  /** Two blocks with honest bodies and one Merkle root carry the same transactions. */
  lemma {:induction false} RootCommitsToTransactions(c: Crypto, a: seq<Tx>, b: seq<Tx>)
    requires c.CollisionFree() && HonestTxids(c, a) && HonestTxids(c, b) && a != [] && b != []
    requires Merkle.MerkleRoot(c, TxIds(a)) == Merkle.MerkleRoot(c, TxIds(b))
    ensures a == b
  {
    hide Merkle.MerkleRoot;
    Merkle.RootDeterminesTxids(c, TxIds(a), TxIds(b));
    forall i | 0 <= i < |a| ensures a[i] == b[i] {
      assert TxIds(a)[i] == TxIds(b)[i];
      c.SameTxId(a[i].body, b[i].body);
    }
  }

  lemma {:induction false} MerkleOk(c: Crypto, chain: seq<Block>, i: nat)
    requires HeadersOk(c, chain) && BodiesOk(c, chain) && i < |chain|
    ensures Merkle.MerkleRoot(c, TxIds(chain[i].transactions)) == chain[i].header.merkleRoot
    ensures chain[i].transactions != []
    ensures chain[i].hash == Some(BlockHash(c, chain[i])) && chain[i].header.height == i
    ensures i > 0 ==> chain[i - 1].hash == Some(chain[i].header.prevHash)
  {
    hide NextUnits, MedianTimePast, CheckCoinbase;
    if i > 0 {
      assert HeaderOk(c, chain, i);
    } else {
      assert TxIds(chain[0].transactions) == [GenesisTx(c).txid];
    }
  }

  /** Two accepted blocks with the same header hash carry the same transactions. */
  lemma {:induction false} SameHeaderSameBlock(c: Crypto, a: seq<Block>, b: seq<Block>, i: nat, j: nat)
    requires c.CollisionFree() && HeadersOk(c, a) && HeadersOk(c, b) && BodiesOk(c, a) && BodiesOk(c, b)
    requires i < |a| && j < |b| && a[i].hash == b[j].hash
    ensures i == j && a[i] == b[j]
  {
    hide HeadersOk, HonestTxids, Merkle.MerkleRoot;
    MerkleOk(c, a, i);
    MerkleOk(c, b, j);
    assert a[i].header == b[j].header;
    RootCommitsToTransactions(c, a[i].transactions, b[j].transactions);
  }

  /** The tip hash commits to the whole chain: two accepted chains with one tip hash are one chain. */
  lemma {:induction false} TipCommitsToChain(c: Crypto, a: seq<Block>, b: seq<Block>)
    requires c.CollisionFree() && HeadersOk(c, a) && HeadersOk(c, b) && BodiesOk(c, a) && BodiesOk(c, b)
    requires a[|a| - 1].hash == b[|b| - 1].hash
    ensures a == b
    decreases |a|
  {
    hide HeaderOk, HonestTxids, Merkle.MerkleRoot;
    var n := |a| - 1;
    SameHeaderSameBlock(c, a, b, n, |b| - 1);
    if n > 0 {
      MerkleOk(c, a, n);
      MerkleOk(c, b, n);
      HeadersOkPrefix(c, a, n);
      HeadersOkPrefix(c, b, n);
      TipCommitsToChain(c, a[..n], b[..n]);
      assert a == a[..n] + [a[n]] && b == b[..n] + [b[n]];
    }
  }
}
