/** Monetary policy: subsidy schedule, supply and coinbase maturity (gamecoin/consensus.py). */
module Consensus {
  import opened Prelude

  const COIN := 100_000_000
  const INITIAL_BLOCK_REWARD := 5 * COIN
  const HALVING_INTERVAL_BLOCKS := 2_102_400
  const TARGET_BLOCK_SECONDS := 150
  const LEGACY_COINBASE_MATURITY := 100
  const COINBASE_MATURITY := 10
  const COINBASE_MATURITY_ACTIVATION_HEIGHT := 500
  const MAX_TX_INPUTS := 128
  const MAX_TX_OUTPUTS := 128
  const MAX_TX_BYTES := 100_000
  const MAX_BLOCK_TRANSACTIONS := 1_000
  const MAX_BLOCK_BYTES := 2_000_000
  const MAX_MEMPOOL_TRANSACTIONS := 5_000
  const MAX_SUPPLY := 2_102_399_972_668_800
  /** The first era whose subsidy is zero. */
  const LAST_ERA := 29

  /** `x >> n`. */
  function ShiftRight(x: nat, n: nat): nat {
    if n == 0 then x else ShiftRight(x, n - 1) / 2
  }

  function BlockSubsidy(height: int): nat {
    if height <= 0 then 0
    else
      var halvings := (height - 1) / HALVING_INTERVAL_BLOCKS;
      if halvings >= 63 then 0 else ShiftRight(INITIAL_BLOCK_REWARD, halvings)
  }

  function MaturityForSpendHeight(spendHeight: int): nat {
    if spendHeight >= COINBASE_MATURITY_ACTIVATION_HEIGHT then COINBASE_MATURITY else LEGACY_COINBASE_MATURITY
  }

  predicate CoinbaseIsMature(createdHeight: int, spendHeight: int) {
    createdHeight >= 0 && spendHeight >= 0 &&
    spendHeight - createdHeight >= MaturityForSpendHeight(spendHeight)
  }

  /**
   A coinbase of height `made` can be spent from one height on and ever after: 100 blocks later as long as that is
   before height 500, else 10 blocks later or at height 500.
   */
  lemma {:induction false} MaturesFrom(made: nat, height: int)
    ensures CoinbaseIsMature(made, height)
       <==> height >= (if made <= 400 then made + 100 else if made <= 490 then 500 else made + 10)
  {
  }

  /** Everything the schedule pays to heights 1 to `height`. */
  function Issued(height: int): nat
    decreases Max(0, height)
  {
    if height <= 0 then 0 else Issued(height - 1) + BlockSubsidy(height)
  }

  lemma {:induction false} ShiftToZero()
    ensures ShiftRight(INITIAL_BLOCK_REWARD, LAST_ERA - 1) == 1
    ensures ShiftRight(INITIAL_BLOCK_REWARD, LAST_ERA) == 0
  {
    assert ShiftRight(500_000_000, 8) == 1953125;
    assert ShiftRight(500_000_000, 16) == 7629;
    assert ShiftRight(500_000_000, 24) == 29;
    assert ShiftRight(500_000_000, 28) == 1;
    assert ShiftRight(500_000_000, 29) == 0;
  }

  lemma {:induction false} ShiftDecreases(n: nat, m: nat)
    requires n <= m
    ensures ShiftRight(INITIAL_BLOCK_REWARD, m) <= ShiftRight(INITIAL_BLOCK_REWARD, n)
    decreases m
  {
    if n < m {
      ShiftDecreases(n, m - 1);
    }
  }

  lemma {:induction false} SubsidyInEra(era: nat, offset: nat)
    requires 1 <= offset <= HALVING_INTERVAL_BLOCKS
    ensures BlockSubsidy(era * HALVING_INTERVAL_BLOCKS + offset) == ShiftRight(INITIAL_BLOCK_REWARD, era)
  {
    var height := era * HALVING_INTERVAL_BLOCKS + offset;
    assert (height - 1) / HALVING_INTERVAL_BLOCKS == era;
    if era >= 63 {
      ShiftToZero();
      ShiftDecreases(LAST_ERA, era);
    }
  }

  lemma {:induction false} IssuedInEra(era: nat, blocks: nat)
    requires blocks <= HALVING_INTERVAL_BLOCKS
    ensures Issued(era * HALVING_INTERVAL_BLOCKS + blocks)
         == Issued(era * HALVING_INTERVAL_BLOCKS) + blocks * ShiftRight(INITIAL_BLOCK_REWARD, era)
    decreases blocks
  {
    hide ShiftRight, BlockSubsidy;
    if blocks > 0 {
      IssuedInEra(era, blocks - 1);
      SubsidyInEra(era, blocks);
    }
  }

  lemma {:induction false} NothingAfterLastEra(height: nat)
    requires height >= LAST_ERA * HALVING_INTERVAL_BLOCKS
    ensures Issued(height) == Issued(LAST_ERA * HALVING_INTERVAL_BLOCKS)
    decreases height
  {
    if height > LAST_ERA * HALVING_INTERVAL_BLOCKS {
      NothingAfterLastEra(height - 1);
      ShiftToZero();
      ShiftDecreases(LAST_ERA, (height - 1) / HALVING_INTERVAL_BLOCKS);
    }
  }

  lemma {:induction false} IssuedMonotone(a: int, b: int)
    requires a <= b
    ensures Issued(a) <= Issued(b)
    decreases b - a
  {
    if a < b {
      IssuedMonotone(a, b - 1);
    }
  }

  /** The era loop of `circulating_supply` pays exactly what the per-height schedule pays. */
  method CirculatingSupply(height: int) returns (total: nat)
    ensures total == Issued(height)
  {
    var remaining := Max(0, height);
    var reward := INITIAL_BLOCK_REWARD;
    total := 0;
    ghost var era: nat := 0;
    while remaining > 0 && reward > 0
      invariant remaining >= 0
      invariant reward == ShiftRight(INITIAL_BLOCK_REWARD, era)
      invariant remaining > 0 ==> remaining == Max(0, height) - era * HALVING_INTERVAL_BLOCKS
      invariant remaining > 0 ==> total == Issued(era * HALVING_INTERVAL_BLOCKS)
      invariant remaining == 0 ==> total == Issued(height)
    {
      var blocks := Min(remaining, HALVING_INTERVAL_BLOCKS);
      IssuedInEra(era, blocks);
      total := total + blocks * reward;
      remaining := remaining - blocks;
      reward := reward / 2;
      era := era + 1;
    }
    if remaining > 0 {
      ShiftToZero();
      if era < LAST_ERA {
        ShiftDecreases(era, LAST_ERA - 1);
      }
      NothingAfterLastEra(era * HALVING_INTERVAL_BLOCKS);
      NothingAfterLastEra(height);
    }
  }

  method MaximumSupply() returns (total: nat)
    ensures total == MAX_SUPPLY == Issued(LAST_ERA * HALVING_INTERVAL_BLOCKS)
  {
    var reward := INITIAL_BLOCK_REWARD;
    total := 0;
    ghost var era: nat := 0;
    while reward > 0
      invariant reward == ShiftRight(INITIAL_BLOCK_REWARD, era) && era <= LAST_ERA
      invariant total == Issued(era * HALVING_INTERVAL_BLOCKS)
    {
      ShiftToZero();
      IssuedInEra(era, HALVING_INTERVAL_BLOCKS);
      total := total + HALVING_INTERVAL_BLOCKS * reward;
      reward := reward / 2;
      era := era + 1;
    }
    ShiftToZero();
    if era < LAST_ERA {
      ShiftDecreases(era, LAST_ERA - 1);
    }
    FullSupply();
  }

  /** `reward + reward / 2 + ...`, over `eras` terms. */
  function HalvingSum(reward: nat, eras: nat): nat {
    if eras == 0 then 0 else reward + HalvingSum(reward / 2, eras - 1)
  }

  lemma {:induction false} IssuedByEras(from: nat, eras: nat)
    ensures Issued((from + eras) * HALVING_INTERVAL_BLOCKS)
         == Issued(from * HALVING_INTERVAL_BLOCKS)
          + HALVING_INTERVAL_BLOCKS * HalvingSum(ShiftRight(INITIAL_BLOCK_REWARD, from), eras)
    decreases eras
  {
    hide Issued;
    if eras > 0 {
      IssuedInEra(from, HALVING_INTERVAL_BLOCKS);
      IssuedByEras(from + 1, eras - 1);
    }
  }

  lemma {:induction false} HalvingSumOfReward()
    ensures HalvingSum(500_000_000, 29) == 999_999_987
  {
    assert HalvingSum(29, 5) == 54;
    assert HalvingSum(7_629, 13) == 15249;
    assert HalvingSum(1_953_125, 21) == 3906237;
  }

  lemma {:induction false} FullSupply()
    ensures Issued(LAST_ERA * HALVING_INTERVAL_BLOCKS) == MAX_SUPPLY
  {
    IssuedByEras(0, LAST_ERA);
    HalvingSumOfReward();
  }

  /** The cap is never passed, and it is reached exactly from the end of era 28 on. */
  lemma {:induction false} SupplyCap(height: int)
    ensures Issued(height) <= MAX_SUPPLY
    ensures Issued(height) == MAX_SUPPLY <==> height >= LAST_ERA * HALVING_INTERVAL_BLOCKS
  {
    var full := LAST_ERA * HALVING_INTERVAL_BLOCKS;
    FullSupply();
    if height >= full {
      NothingAfterLastEra(height);
    } else {
      IssuedMonotone(height, full - 1);
      SubsidyInEra(LAST_ERA - 1, HALVING_INTERVAL_BLOCKS);
      ShiftToZero();
    }
  }

  function NextHalvingHeight(height: int): Option<int> {
    var h := Max(0, height);
    if BlockSubsidy(h + 1) <= 0 then None
    else Some((h / HALVING_INTERVAL_BLOCKS + 1) * HALVING_INTERVAL_BLOCKS + 1)
  }

  function BlocksUntilHalving(height: int): Option<int> {
    match NextHalvingHeight(height)
    case None => None
    case Some(next) => Some(Max(0, next - (height + 1)))
  }

  /** A reported halving height is the first later height paid differently from the next block. */
  lemma {:induction false} HalvingIsFirstChange(anyHeight: int)
    ensures var height := Max(0, anyHeight);
            && (NextHalvingHeight(anyHeight).None? <==> BlockSubsidy(height + 1) == 0)
            && match NextHalvingHeight(anyHeight)
               case None => (forall h :: h > height ==> BlockSubsidy(h) == 0) && BlocksUntilHalving(anyHeight) == None
               case Some(next) =>
                 && next > height + 1
                 && BlockSubsidy(next) < BlockSubsidy(height + 1)
                 && (forall h :: height < h < next ==> BlockSubsidy(h) == BlockSubsidy(height + 1))
                 && BlocksUntilHalving(anyHeight) == Some(next - (anyHeight + 1))
  {
    var height := Max(0, anyHeight);
    var era := height / HALVING_INTERVAL_BLOCKS;
    var start := era * HALVING_INTERVAL_BLOCKS;
    SubsidyInEra(era, height + 1 - start);
    if BlockSubsidy(height + 1) == 0 {
      forall h | h > height ensures BlockSubsidy(h) == 0 {
        var e := (h - 1) / HALVING_INTERVAL_BLOCKS;
        ShiftDecreases(era, e);
      }
    } else {
      forall h | height < h < start + HALVING_INTERVAL_BLOCKS + 1 ensures BlockSubsidy(h) == BlockSubsidy(height + 1) {
        SubsidyInEra(era, h - start);
      }
      SubsidyInEra(era + 1, 1);
      assert (era + 1) * HALVING_INTERVAL_BLOCKS == start + HALVING_INTERVAL_BLOCKS;
    }
  }
}
