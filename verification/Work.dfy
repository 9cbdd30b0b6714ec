/** Proof-of-work targets and integer work accounting (gamecoin/utils.py, gamecoin/chainwork.py). */
module Work {
  import opened Prelude
  import opened Types

  const DIFFICULTY_SCALE := 1_000_000
  const BASE_EXPECTED_HASHES := 4096
  const MIN_DIFFICULTY_UNITS := 25_000
  const MAX_DIFFICULTY_UNITS := 1_000_000_000_000
  const UINT256_SPACE := 0x1_00000000_00000000_00000000_00000000_00000000_00000000_00000000_00000000
  const MAX_HASH_INT := UINT256_SPACE - 1

  function TargetForDifficulty(units: int): (target: nat)
    ensures target >= 1
  {
    Max(1, (MAX_HASH_INT * DIFFICULTY_SCALE) / (BASE_EXPECTED_HASHES * Max(1, units)))
  }

  function Power16(n: nat): (p: nat)
    ensures p >= 1
  {
    if n == 0 then 1 else 16 * Power16(n - 1)
  }

  /** A version-1 hash needs `difficulty` leading zero hex digits out of 64. */
  predicate MeetsWork(hash: Hash, difficulty: int, version: int) {
    if version <= 1 then
      difficulty <= 0 || (difficulty <= 64 && hash < Power16(64 - difficulty))
    else
      hash <= TargetForDifficulty(difficulty)
  }

  function TargetWork(target: int): Result<nat> {
    if target < 0 || target > MAX_HASH_INT then Err(BadTarget)
    else Ok(UINT256_SPACE / (target + 1))
  }

  function BlockWork(header: Header): Result<nat> {
    if header.version <= 1 then
      if header.difficulty < 0 || header.difficulty > 64 then Err(BadLegacyDifficulty)
      else Ok(Power16(header.difficulty))
    else
      TargetWork(TargetForDifficulty(header.difficulty))
  }

  /** Work of all blocks but the first, the sum in chain order; any block without a work value makes it fail. */
  function ChainWork(blocks: seq<Block>): Result<nat> {
    if |blocks| <= 1 then Ok(0)
    else
      var before :- ChainWork(blocks[..|blocks| - 1]);
      var last :- BlockWork(blocks[|blocks| - 1].header);
      Ok(before + last)
  }

  predicate InRange(units: int) {
    25_000 <= units <= 1_000_000_000_000
  }

  lemma {:induction false} PrefixFailure(blocks: seq<Block>, n: nat)
    requires n <= |blocks| && ChainWork(blocks[..n]).Err?
    ensures ChainWork(blocks) == ChainWork(blocks[..n])
    decreases |blocks| - n
  {
    if n == |blocks| {
      assert blocks[..n] == blocks;
    } else {
      assert blocks[..n + 1][..n] == blocks[..n];
      PrefixFailure(blocks, n + 1);
    }
  }

  method ComputeChainWork(blocks: seq<Block>) returns (r: Result<nat>)
    ensures r == ChainWork(blocks)
  {
    var total := 0;
    for index := 0 to |blocks|
      invariant ChainWork(blocks[..index]) == Ok(total)
    {
      assert blocks[..index + 1][..index] == blocks[..index];
      if index > 0 {
        var work := BlockWork(blocks[index].header);
        if work.Err? {
          PrefixFailure(blocks, index + 1);
          return Err(work.error);
        }
        total := total + work.value;
      }
    }
    assert blocks[..|blocks|] == blocks;
    return Ok(total);
  }

  /** The target of an in-range difficulty: inside 256 bits and much larger than the difficulty itself. */
  lemma {:induction false} TargetBounds(units: int)
    requires InRange(units)
    ensures var t := TargetForDifficulty(units);
            && t <= MAX_HASH_INT
            && t + 1 > 64 * units
            && 64 * units * t <= 15_625 * MAX_HASH_INT < 64 * units * (t + 1)
  {
    var d := BASE_EXPECTED_HASHES * units;
    var q := (MAX_HASH_INT * DIFFICULTY_SCALE) / d;
    DivisionBounds(MAX_HASH_INT * DIFFICULTY_SCALE, d);
    assert d == 64 * (64 * units);
    assert q * d == 64 * (64 * units * q);
    assert (q + 1) * d == 64 * (64 * units * (q + 1));
    MulMonotone(units, MAX_DIFFICULTY_UNITS, units);
    assert 64 * units * d == 64 * 4096 * (units * units);
    LessByProduct(64 * units, q + 1, d);
    MulMonotone(MIN_DIFFICULTY_UNITS, units, q);
    assert q * d == 4096 * (units * q);
  }

  /**
   For every difficulty the consensus rule can produce, work is defined, and it is 4096 * units / 10^6
   rounded down by at most one hash and never up.
   */
  lemma {:induction false} TightWork(units: int)
    requires InRange(units)
    ensures TargetWork(TargetForDifficulty(units)).Ok?
    ensures var work := TargetWork(TargetForDifficulty(units)).value;
            64 * units - 15_625 <= 15_625 * work <= 64 * units && work > 0
  {
    TargetBounds(units);
    var t := TargetForDifficulty(units);
    var work := UINT256_SPACE / (t + 1);
    DivisionBounds(UINT256_SPACE, t + 1);
    var u := 64 * units;
    assert (15_625 * work) * (t + 1) == 15_625 * (work * (t + 1));
    assert (u + 1) * (t + 1) == u * (t + 1) + (t + 1);
    LessByProduct(15_625 * work, u + 1, t + 1);
    assert (15_625 * (work + 1)) * (t + 1) == 15_625 * ((work + 1) * (t + 1));
    assert (u - 1) * (t + 1) == u * t + u - (t + 1);
    LessByProduct(u - 1, 15_625 * (work + 1), t + 1);
  }

  /**
   What the difficulty of a version-2 block asks for and what the block counts for: a header hash meets it exactly if it
   is at most t, the largest number with 4096 * t * units <= (2^256 - 1) * 10^6; the work is the expected number of
   hashes, 2^256 / (t + 1), rounded down.
   */
  lemma {:induction false} WorkIsExpectedHashes(header: Header, hash: Hash) returns (t: nat, work: nat)
    requires header.version >= 2 && InRange(header.difficulty)
    ensures MeetsWork(hash, header.difficulty, header.version) <==> hash <= t
    ensures var d, top := 4096 * header.difficulty, MAX_HASH_INT * 1_000_000; t * d <= top < (t + 1) * d
    ensures BlockWork(header) == Ok(work) && work * (t + 1) <= MAX_HASH_INT + 1 < (work + 1) * (t + 1)
  {
    TightWork(header.difficulty);
    TargetBounds(header.difficulty);
    t := TargetForDifficulty(header.difficulty);
    work := BlockWork(header).value;
    var d := BASE_EXPECTED_HASHES * header.difficulty;
    DivisionBounds(MAX_HASH_INT * DIFFICULTY_SCALE, d);
    DivisionBounds(UINT256_SPACE, t + 1);
    TargetIsQuotient(header.difficulty);
  }

  lemma {:induction false} TargetIsQuotient(units: int)
    requires InRange(units)
    ensures TargetForDifficulty(units) == (MAX_HASH_INT * DIFFICULTY_SCALE) / (BASE_EXPECTED_HASHES * units)
  {
    TargetBounds(units);
    var q := (MAX_HASH_INT * DIFFICULTY_SCALE) / (BASE_EXPECTED_HASHES * units);
    assert TargetForDifficulty(units) == Max(1, q);
  }

  /** A version-1 block asks for leading zero digits, and counts for the 16^d hashes that takes. */
  lemma {:induction false} LegacyWork(header: Header, hash: Hash)
    requires header.version <= 1 && 0 <= header.difficulty <= 64
    ensures BlockWork(header).Ok? && BlockWork(header).value == Power16(header.difficulty)
    ensures MeetsWork(hash, header.difficulty, header.version)
       <==> header.difficulty == 0 || hash * BlockWork(header).value < Power16(64)
  {
    PowersMultiply(header.difficulty, 64);
    if header.difficulty > 0 {
      BelowByProduct(hash, Power16(64 - header.difficulty), Power16(header.difficulty));
    }
  }

  lemma {:induction false} BelowByProduct(a: nat, b: nat, k: nat)
    requires k > 0
    ensures a < b <==> a * k < b * k
  {
    if a < b {
      MulMonotone(a + 1, b, k);
      assert (a + 1) * k == a * k + k;
    } else {
      MulMonotone(b, a, k);
    }
  }

  lemma {:induction false} PowersMultiply(a: nat, n: nat)
    requires a <= n
    ensures Power16(n - a) * Power16(a) == Power16(n)
    decreases a
  {
    if a > 0 {
      PowersMultiply(a - 1, n);
      assert Power16(n - a + 1) == 16 * Power16(n - a);
    }
  }

  lemma {:induction false} DivAntitone(n: nat, a: nat, b: nat)
    requires 0 < a <= b
    ensures n / b <= n / a
  {
    var q := n / b;
    DivisionBounds(n, b);
    MulMonotone(a, b, q);
    if q > n / a {
      DivisionBounds(n, a);
      MulMonotone(n / a + 1, q, a);
    }
  }

  lemma {:induction false} WorkMonotone(low: int, high: int)
    requires InRange(low) && InRange(high) && low <= high
    ensures TargetForDifficulty(high) <= TargetForDifficulty(low)
    ensures TargetWork(TargetForDifficulty(low)).Ok? && TargetWork(TargetForDifficulty(high)).Ok?
    ensures TargetWork(TargetForDifficulty(low)).value <= TargetWork(TargetForDifficulty(high)).value
  {
    TightWork(low);
    TightWork(high);
    DivAntitone(MAX_HASH_INT * DIFFICULTY_SCALE, BASE_EXPECTED_HASHES * low, BASE_EXPECTED_HASHES * high);
    DivAntitone(UINT256_SPACE, TargetForDifficulty(high) + 1, TargetForDifficulty(low) + 1);
  }
}
