/**
 Fork choice by difficulty: what the total work of an accepted chain is in terms of the difficulties it states, and
 which of two chains `replace_chain` keeps.
 */
module ForkChoice {
  import opened Prelude
  import opened Types
  import opened Blocks
  import opened Headers
  import opened Operations
  import opened Work

  /** The difficulties of all blocks above block 0. */
  function TotalDifficulty(chain: seq<Block>): int {
    if |chain| <= 1 then 0
    else TotalDifficulty(chain[..|chain| - 1]) + chain[|chain| - 1].header.difficulty
  }

  /** Every unit of difficulty counts for 4096 / 10^6 = 64 / 15,625 hashes; rounding loses less than a hash a block. */
  ghost predicate CountsFor(work: int, total: int, blocks: int) {
    64 * total - 15_625 * blocks <= 15_625 * work <= 64 * total
  }

  lemma {:induction false} BlockCountsFor(c: Crypto, chain: seq<Block>, i: nat)
    requires HeadersOk(c, chain) && 0 < i < |chain|
    ensures BlockWork(chain[i].header).Ok?
    ensures CountsFor(BlockWork(chain[i].header).value, chain[i].header.difficulty, 1)
  {
    hide HeaderOk, TargetWork, TargetForDifficulty;
    DifficultyInRange(c, chain, i);
    VersionAndHeight(c, chain, i);
    TightWork(chain[i].header.difficulty);
  }

  /** Total work of an accepted chain, from its difficulties. */
  lemma {:induction false} WorkByDifficulty(c: Crypto, chain: seq<Block>)
    requires HeadersOk(c, chain)
    ensures ChainWork(chain).Ok? && CountsFor(ChainWork(chain).value, TotalDifficulty(chain), |chain| - 1)
    decreases |chain|
  {
    hide HeaderOk, BlockWork;
    var n := |chain| - 1;
    if n > 0 {
      HeadersOkPrefix(c, chain, n);
      WorkByDifficulty(c, chain[..n]);
      BlockCountsFor(c, chain, n);
    }
  }

  /**
   `replace_chain`, from what the two chains state: an invalid candidate is refused with the first objection to it. One
   with the node's own tip hash changes nothing. Any other is adopted if its difficulties outweigh the node's by more
   than the rounding, and refused as not heavier if the node's outweigh, or equal, its by as much.
   */
  lemma {:induction false} ReplaceByDifficulty(c: Crypto, s: Node, candidate: seq<Block>, now: int)
    requires HeadersOk(c, s.chain) && (candidate != [] ==> candidate[0].header == GenesisHeader(c))
    ensures var valid, after := CheckChain(c, candidate, now), ReplaceChain(c, s, candidate, now);
            && (valid.Err? ==> after == Outcome(s, Err(valid.error)))
            && (valid.Ok? ==>
                  var chain := valid.value.chain;
                  var mine, theirs := TotalDifficulty(s.chain), TotalDifficulty(chain);
                  if chain[|chain| - 1].hash == s.chain[|s.chain| - 1].hash then after == Outcome(s, Ok(false))
                  else
                    && (64 * theirs - 15_625 * (|chain| - 1) > 64 * mine ==>
                          after.result == Ok(true) && after.node.chain == chain)
                    && (64 * theirs <= 64 * mine - 15_625 * (|s.chain| - 1) ==> after == Outcome(s, Err(NotHeavier))))
  {
    hide HeaderOk, CheckChain, ChainWork, ChainIds, Without, Orphans, AddAll;
    if CheckChain(c, candidate, now).Ok? {
      var chain := CheckChain(c, candidate, now).value.chain;
      AcceptedHeaders(c, candidate, now);
      WorkByDifficulty(c, s.chain);
      WorkByDifficulty(c, chain);
      AddAllKeepsChain(c, Node(chain, Without(s.mempool, ChainIds(chain))), Orphans(s.chain, ChainIds(chain)));
    }
  }

  /** `replace_chain`, from the work: a valid candidate with another tip is adopted if and only if it is heavier. */
  lemma {:induction false} ReplaceByWorkIff(c: Crypto, s: Node, candidate: seq<Block>, now: int)
    requires HeadersOk(c, s.chain) && CheckChain(c, candidate, now).Ok? && candidate[0].header == GenesisHeader(c)
    requires var chain := CheckChain(c, candidate, now).value.chain;
             chain[|chain| - 1].hash != s.chain[|s.chain| - 1].hash
    ensures var chain, after := CheckChain(c, candidate, now).value.chain, ReplaceChain(c, s, candidate, now);
            && ChainWork(chain).Ok? && ChainWork(s.chain).Ok?
            && (if ChainWork(chain).value > ChainWork(s.chain).value
                then after.result == Ok(true) && after.node.chain == chain
                else after == Outcome(s, Err(NotHeavier)))
  {
    hide HeaderOk, CheckChain, ChainWork, ChainIds, Without, Orphans, AddAll;
    var chain := CheckChain(c, candidate, now).value.chain;
    AcceptedHeaders(c, candidate, now);
    WorkByDifficulty(c, s.chain);
    WorkByDifficulty(c, chain);
    AddAllKeepsChain(c, Node(chain, Without(s.mempool, ChainIds(chain))), Orphans(s.chain, ChainIds(chain)));
  }
}
