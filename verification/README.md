# GameCoin consensus engine: a verified model

This project models the consensus engine of a GameCoin node in Dafny and proves properties of it: the ledger and
its UTXO set, block and chain validation, the mempool, reorganization, difficulty, time and work arithmetic, mining
templates, mining workers, peer synchronization, the Merkle commitment and the Base58 addresses.

## How it is laid out

| file | what it holds |
|---|---|
| `Prelude.dfy`, `Types.dfy` | errors and options; transactions, headers, blocks, outpoints as records; the `Crypto` value |
| `Consensus.dfy` | subsidy schedule, maturity, resource limits |
| `Work.dfy`, `TimeRules.dfy`, `Difficulty.dfy` | targets and integer work, median time past, the rolling retarget |
| `Base58.dfy`, `Addresses.dfy`, `Merkle.dfy` | encodings and the commitment |
| `Ledger.dfy` | the UTXO dictionary (`UtxoSet`), transaction validation, total value |
| `Blocks.dfy`, `Acceptance.dfy`, `Objections.dfy` | block and chain validation as the code orders it, as a list of rules in no order, and that every error names a broken rule |
| `Orders.dfy`, `Inclusion.dfy` | the coinbase applied last or first: exactly when validation and a rebuild agree, and that the rebuilt set is always part of the other |
| `Origins.dfy` | where every spent output comes from, with any hashes and coinbases, and when an outpoint is spent twice |
| `History.dfy`, `Conservation.dfy`, `Headers.dfy`, `Replay.dfy` | what holds of every accepted chain |
| `Operations.dfy`, `StateMachine.dfy` | the locked operations as functions of the node's state, and the `ChainState` object with its loops, proved to compute them |
| `Mempool.dfy`, `Recurrence.dfy` | what every operation keeps of the mempool, and exactly when a confirmed payment comes back |
| `ForkChoice.dfy` | which chain wins, from the difficulties that the chains state |
| `Runs.dfy`, `Reorg.dfy` | whole runs, orphaned payments |
| `Template.dfy`, `Miner.dfy` | block templates and workers |
| `Sync.dfy`, `StaticPeer.dfy` | the peer download, and what it does against a peer that serves one chain |
| `Idealization.dfy`, `Mining.dfy`, `Scripts.dfy`, `Counterexamples.dfy` | collision-free hashes written down, chains given by a script and mined under such hashes, and the inputs on which the code falls short |

`dafny verify dfyconfig.toml` checks everything.

Each operation that the source writes as a loop over changing state is a method over a class or local variables. It is
proved to compute a function (`Ledger.CheckTx`, `Blocks.CheckBlock`, `Operations.SubmitBlock`, ...), and the properties
are proved about those functions.

## What is a parameter

- `tx_id`, the header hash and the pair hash are fields of a `Crypto` value, as are the address derivation, the address
  check, the signature check and the serialized sizes of transactions and blocks. Every theorem holds for any `Crypto`.
  Where collision freedom is needed it is a hypothesis (`TxIdsInjective`, `PairInjective`, `GenesisBound`,
  `CollisionFree`). A hash is an unbounded number, so that these hypotheses can be met, and
  `Idealization.IdealIsCollisionFree` meets all of them at once.
- The clock is an argument of each operation; a run takes nondecreasing times.
- A peer is a function from a request (height, limit) to an answer or a failure, and the size of a reply is a function
  of its blocks. The shared `found` event and the clock of a mining worker are a list of what each turn of its loop sees.
- The floating-point numbers of the difficulty plan are exact rationals, with rounding half to even.

## Hypotheses

The code does not enforce these. They are stated where they are used, of the chains that a node holds and never of what
it refuses.

- H1, true genesis: block 0 of a chain is the genesis block. The validator compares only the header hash.
  `Conservation.BlockZeroBodyIsNotChecked` gives an accepted candidate whose block 0 pays any amount, and
  `Conservation.NoPremineIff` says exactly when the supply bound holds for whatever stands in block 0. Replay and fork
  choice do not need H1, only that nothing but the genesis header has the genesis hash.
- H2, distinct coinbases: the coinbase txids of a chain are pairwise distinct. Nothing ties a coinbase to its height, so
  a mature coinbase can be mined again byte for byte. `Recurrence.TxidsRecurIff` says that H2 is exactly that no txid
  occurs twice. Five things can go wrong without it, and for each there is an input, under collision-free hashes, and
  the exact condition:
  - Validation, which carries the UTXO set, and `submit_block`, which rebuilds it, part:
    `Counterexamples.RemintedCoinbaseParts`. They agree exactly when no block spends an output of its own coinbase
    (`Orders.BodyOrdersAgreeIff`, `Orders.CarriedEqualsRebuiltIff`).
  - A valid chain cannot be submitted block by block, so that a node holding a part of it never completes a sync:
    `Counterexamples.ValidChainThatCannotBeSubmitted`. The exact condition is `StaticPeer.NextBlockIff`.
  - A confirmed payment re-enters the mempool and is confirmed again: `Counterexamples.ConfirmedPaymentReturns`. The
    exact condition is `Recurrence.ConfirmedReentersIff`, and over runs `Runs.RunKeepsInvIff`.
  - An outpoint is spent twice on the chain: the longer chain of `Counterexamples.ConfirmedPaymentReturns`. That
    happens exactly where a coinbase is mined, paid, mined again and paid again (`Origins.SpentTwiceIff`).
  - A reorganization loses a payment whose inputs are all unspent and mature in the new chain, because another orphan
    spends the same outpoint: `Counterexamples.PayablePaymentIsLost`. The exact conditions are
    `Reorg.ReorgKeepsPaymentsIff` and, from an empty mempool, `Reorg.ReorgFromEmptyMempoolIff`.

  Replay, the supply bound, fork choice, sync, the origin and age of what is spent, and the mempool after a
  reorganization do not assume H2. That no txid occurs twice and no outpoint is spent twice does.
  `Template.TemplateCoinbasesAreDistinct` shows that blocks made from this node's own template satisfy it.
- H3, fit: a stored block is within the byte limit once `hash` is filled in. Sizes are measured on the block as it was
  submitted. `Counterexamples.FullBlockDoesNotReplay` gives an accepted block that makes the node's own chain invalid;
  `Replay.ReplayIff` shows that replay succeeds if and only if every stored block fits.

One more limit belongs to the code. A batch of blocks is always requested whole, and a reply above 8 MiB is refused.
`Counterexamples.ValidChainThatCannotBeDownloaded` gives a valid, heavier chain that no new node can ever fetch.
`StaticPeer.SyncAdoptsHeavierChainIff` says exactly which syncs with a static peer complete.

## Where the documents and the code differ

The model follows the code.

- docs/CONSENSUS.md gives coinbase maturity as 100 blocks; gamecoin/consensus.py:31-42 uses 100 below height 500 and 10
  from there on, as the top-level README of the repository says. docs/CONSENSUS.md gives P2P protocol 6, the code uses 7.
- docs/CONSENSUS.md says that every candidate chain validates from the genesis and that there is no premine;
  node.py:566 checks the header of block 0 only (H1).
- docs/CONSENSUS.md gives the upward cap as 1.10x to 1.75x; with samples clamped to at least 37 seconds the 1.75x arm is
  never reached, and no accepted chain rises by more than half (`Headers.RetargetBoundsOnChain`).

## Model

| member | source | states |
|---|---|---|
| Consensus.SubsidyInEra | gamecoin/consensus.py:20-28 | every block of an era is paid the initial reward halved once per era |
| Consensus.CirculatingSupply | gamecoin/consensus.py:45-55 | the era loop returns the sum of the subsidies of blocks 1 to the height |
| Consensus.MaximumSupply | gamecoin/consensus.py:58-68 | the halving loop returns MAX_SUPPLY, which is the sum of all subsidies |
| Consensus.SupplyCap | gamecoin/consensus.py:45-68 | the issued sum never passes MAX_SUPPLY and equals it exactly from height 29 * 2,102,400 on |
| Consensus.HalvingIsFirstChange | gamecoin/consensus.py:71-86 | for any height, negative ones clamped to 0: a reported halving height is the first height paid differently from the next block; none is reported exactly when nothing more is paid; and the blocks remaining until it |
| Consensus.MaturesFrom | gamecoin/consensus.py:31-42 | a coinbase can be spent from one height on and ever after: 100 blocks later while that is before height 500, else 10 blocks later, at the earliest at 500 |
| Work.TightWork | gamecoin/chainwork.py:10-24 | for difficulties 25,000 to 10^12 work is defined and is 4096u/10^6 rounded down by at most one hash |
| Work.WorkMonotone | gamecoin/chainwork.py:10-24 | a higher difficulty never has a higher target nor less work |
| Work.WorkIsExpectedHashes | gamecoin/chainwork.py:10-24 | the exact target of a version-2 difficulty, that a hash meets it if and only if it is at most that, and the exact work, 2^256 over the target + 1 rounded down |
| Work.LegacyWork | gamecoin/chainwork.py:16-23 | a version-1 block counts for the 16^d hashes that its leading zero digits take |
| Work.ComputeChainWork | gamecoin/chainwork.py:27-33 | the loop sums the work of all blocks but the first, or fails where the first undefined work is |
| TimeRules.MedianSplitsWindow | gamecoin/time_rules.py:11-15 | the median lies between the two middle values of the sorted window |
| TimeRules.MedianTimePastIsMiddle | gamecoin/time_rules.py:11-15 | median time past is the middle of the last eleven timestamps in any ascending arrangement, or the average of the two middle ones rounded toward zero |
| TimeRules.MedianTimePastNeverDecreases | gamecoin/time_rules.py:11-33 | appending an accepted timestamp never lowers median time past, in the growing and in the sliding window |
| Difficulty.ComputeRecentSamples | node.py:287-310 | the sample loop computes the recent samples that the difficulty results are about |
| Difficulty.ComputeNextUnits | node.py:313-347 | the plan computes the next difficulty of `Difficulty.NextFollowsWanted`, within range and within 0.67 and 1.5 of an in-range tip, and the initial one after genesis |
| Difficulty.SamplesOfChain | node.py:287-310 | on version-2 chains with positive times exactly the last min(12, height) gaps are read, clamped |
| Difficulty.RetargetBounds | node.py:325-345 | one step stays in range, falls at most to 0.67 and rises at most to 1.5; the 1.75 cap is unreachable |
| Difficulty.NextUnitsBounds | node.py:313-347 | the same bounds from the tip of a chain, and the initial difficulty after genesis |
| Difficulty.RetargetAntitone | node.py:325-345 | more total time for the same work never raises the result, across rounding, clamps and cap thresholds |
| Difficulty.SlowerBlocksNeverRaise | node.py:287-345 | pointwise longer gaps never raise the next difficulty |
| Difficulty.DesiredByTotals | node.py:321-327 | the wanted difficulty is 150 * sum of difficulties / sum of clamped gaps, rounded and clamped |
| Difficulty.NextFollowsWanted | node.py:313-347 | the next difficulty exactly: the wanted one, followed down to 0.67 of the tip's and up to 1.50, 1.25 or 1.10 of it by the average gap, rounded half to even and held in range |
| Difficulty.UnitsAreUnique | node.py:323-345 | at most one value is a number so rounded and held |
| Difficulty.SteadyPaceIsFixed | node.py:313-347 | a window of one difficulty at exactly 150 seconds leaves it unchanged |
| Base58.B58Encode | gamecoin/utils.py:27-39 | the division loop computes the encoding of the round-trip theorems |
| Base58.B58Decode | gamecoin/utils.py:42-59 | the multiplication loop computes the decoding of the round-trip theorems, or reports the bad character or the empty text |
| Base58.BytesNeeded | gamecoin/utils.py:52 | (bit length + 7) / 8 is the number of base-256 digits |
| Base58.EncodeSpells | gamecoin/utils.py:27-39 | the text and the bytes are the same number, each most significant first, and leading zero bytes become leading '1's |
| Base58.DecodeSpells | gamecoin/utils.py:42-59 | decoding gives the number that the text spells with its leading zeros, and refuses an empty text and any other character |
| Base58.AlphabetCodes | gamecoin/utils.py:5 | which character is the symbol of which digit |
| Base58.EncodeThenDecode | gamecoin/utils.py:27-59 | decoding an encoding returns the bytes if and only if some byte is not zero, and one zero byte too many otherwise |
| Base58.DecodeThenEncode | gamecoin/utils.py:27-59 | encoding a decoded text returns the text if and only if some character is not '1' |
| Addresses.EncodingIsValid | gamecoin/utils.py:62-81 | the address of a payload validates if and only if the 24 bytes are not all zero |
| Addresses.OwnAddressIsValid | gamecoin/utils.py:62-81 | a key's own address is 'M' and the Base58 of 20 bytes of its hash with 4 bytes of their double hash, and validates under exactly that condition |
| Addresses.ValidAddressesAreEncodings | gamecoin/utils.py:68-81 | the valid addresses are exactly the encodings of such payloads |
| Addresses.AddressDeterminesPayload | gamecoin/utils.py:68-81 | a valid address determines its payload |
| Merkle.ComputeParents | gamecoin/utils.py:90-98 | one round of the loop pairs the level, repeating an odd last entry |
| Merkle.ComputeMerkleRoot | gamecoin/utils.py:90-98 | the level loop computes the root of the commitment theorems |
| Merkle.RootIsTopOfTree | gamecoin/utils.py:90-98 | the root is the top of the tree defined from above: each node hashes its two children, the last of a level standing in for a missing one |
| Merkle.SmallRoots | gamecoin/utils.py:90-98 | the roots of none, one, two and three txids |
| Merkle.SameHeightSameRoot | gamecoin/utils.py:90-98 | with injective pair hashing, duplicate-free lists with trees of one height and one root are equal |
| Merkle.TallerTreesDiffer | gamecoin/utils.py:90-98 | trees of different heights have different roots when leaves are not inner nodes |
| Merkle.RootDeterminesTxids | gamecoin/utils.py:90-98 | duplicate-free txid lists of any lengths with one root are equal |
| Merkle.DuplicatedLastTxidKeepsRoot | gamecoin/utils.py:94-95 | repeating the last txid of an odd list keeps the root, so the duplicate check is needed |
| Ledger.UtxoSet.ApplyTransaction | node.py:163-177 | the two loops remove the spent outpoints and then record every output with height and coinbase flag |
| Ledger.ApplyTxAt | node.py:163-177 | for each outpoint: present afterwards exactly when created here or present and unspent, and with which record |
| Ledger.CheckTxAccepts | node.py:190-249 | a normal transaction is accepted exactly when it is well formed, every input is spendable and outputs do not exceed inputs; the fee is the difference |
| Ledger.CheckTxReadsInputsOnly | node.py:212-239 | the verdict depends on the UTXO set only at the transaction's own inputs |
| Ledger.TotalAfterTx | node.py:163-177 | applying a transaction changes the total value by outputs minus inputs minus what an output overwrites |
| Blocks.CheckChainPrefix | node.py:562-575 | every prefix of an accepted candidate is accepted and gives the same prefix of the validated chain |
| Blocks.AcceptedHeaders | node.py:473-502 | every header of an accepted chain has the right height, parent, version, difficulty, time, Merkle root and coinbase |
| Acceptance.CheckBodyIff | node.py:504-534 | a body is accepted exactly when txids are distinct, each transaction is valid against the ones before it, and the coinbase pays subsidy plus fees; and the UTXO set it leaves |
| Acceptance.BlockAcceptedIff | node.py:473-534 | a block is accepted exactly when every rule holds, independent of the order of the checks |
| Blocks.GenesisIs | node.py:81-101 | the genesis block spelled out: no outputs, and the literals of its header and message |
| Objections.TxObjectionIsTrue | node.py:190-249 | every error about a transaction names a rule that it breaks |
| Objections.TxObjectionIsFirst | node.py:190-249 | no rule that comes before the one named is broken |
| Objections.InputObjectionIsFirst | node.py:212-239 | an objection to an input is about the first bad one, and is the first to it |
| Objections.BlockObjectionIsTrue | node.py:473-534 | every error about a block names a rule that the block, its coinbase or one of its payments breaks |
| Objections.BlockObjectionIsFirst | node.py:473-503 | no header rule that comes before the one named is broken |
| Objections.BodyObjectionIsFirst | node.py:504-530 | in the body the coinbase comes first, then each payment in turn, the reward last |
| Objections.ChainObjectionIsTrue | node.py:562-575 | every error about a candidate is about its block 0 or about the first block that validation refuses |
| Orders.BodyOrdersAgreeIff | node.py:516-531 | for any accepted body the set validation leaves (coinbase last) is the set a rebuild leaves (coinbase first) if and only if no transaction of the block spends its own coinbase |
| Orders.CarriedEqualsRebuiltIff | node.py:562-575 | at every height of an accepted candidate the carried set is the rebuilt one, heights and flags included, if and only if no block above block 0 spends its own coinbase |
| Orders.SparingChainIsRebuilt | node.py:179-188 | under that condition what `validate_chain_candidate` carries is what `build_utxos` makes of its result |
| Orders.DistinctCoinbasesAreSpared | node.py:504-515 | with injective txids and distinct coinbases (H2) the condition always holds |
| Counterexamples.RemintedCoinbaseParts | node.py:504-531 | an accepted body, under collision-free hashes, after which validation and a rebuild disagree about an output and about the next payment of it |
| Inclusion.FirstWithinLast | node.py:516-531 | applying the coinbase first never leaves an output that applying it last does not leave |
| Inclusion.CheckBodyOnLarger | node.py:504-534 | a body accepted against part of a set is accepted against the whole |
| Inclusion.CheckBodyOnSmaller | node.py:504-534 | a body accepted against a set is accepted against a part of it exactly when the part has every input; else the objection is a missing input |
| Inclusion.AcceptedIsFrom | node.py:562-575 | for anything that validates from scratch the rebuilt set is part of the carried one |
| Recurrence.TxidsRecurIff | node.py:504-524 | no txid occurs twice on an accepted chain if and only if its coinbase txids are distinct |
| Recurrence.ValidatesAgainIff | node.py:212-249 | a payment that validated once validates again exactly when all its inputs are there and mature |
| Recurrence.ConfirmedReentersIff | node.py:251-275 | a confirmed payment offered again is taken exactly when it is older than 200 blocks, there is room, and every output it spent is back and mature |
| Recurrence.AddKeepsUnlessReentry | node.py:251-275 | an addition keeps the mempool unconfirmed exactly when it is no such re-entry |
| Counterexamples.ConfirmedPaymentReturns | node.py:260-264 | a valid chain of 801 blocks on which a payment confirmed at height 510 is taken again, and a valid longer one that confirms it twice and spends its outpoint twice |
| History.AcceptedChainIsSound | node.py:473-534 | under H2 the transactions of an accepted chain are a sound history: each valid against the ones before it, under an unused txid |
| History.NoDoubleSpend | node.py:212-219 | in a sound history no two transactions spend one outpoint |
| History.SpentStaysGone | node.py:163-177 | a spent outpoint never returns to the set |
| History.ValidTxIsFresh | node.py:209-219 | a transaction that validates carries a txid that is not in the history |
| Origins.CarriedState | node.py:562-575 | what validation carries is what the transactions of the chain make, each block with its coinbase last |
| Origins.PaymentValidates | node.py:516-524 | each payment of an accepted chain validates against everything before it in that order |
| Origins.InputNamesEarlierOutput | node.py:212-239 | for any hashes, coinbases and block 0: each input of a payment names an output of an earlier block or of an earlier payment of its own block, and was entitled to it as it was made |
| Origins.SpentCoinbaseIsOld | gamecoin/consensus.py:31-42 | for any hashes, coinbases and block 0: a coinbase spent below height 500 is at least 100 blocks old, from 500 on at least 10 |
| Origins.AcceptedHistory | node.py:212-239 | on an accepted chain every outpoint spent above block 0 was created earlier; under injective txids, a plain block 0 and distinct coinbases no txid occurs twice and no outpoint is spent twice |
| Origins.CoinbaseBelow | node.py:212-219 | below any outpoint that is spent twice lies a coinbase output that is spent twice |
| Origins.SpentTwiceIff | node.py:212-219 | with any coinbases: some outpoint is spent twice on an accepted chain if and only if some coinbase is mined, paid in a later block, mined again there or later, and paid again in a still later block |
| Origins.ConfirmedTwiceStandsOnCoinbase | node.py:504-524 | a chain that confirms one payment twice has such a coinbase |
| Conservation.TotalAfterBlock | node.py:504-531 | a block changes the total value by exactly its subsidy minus what txid reuse destroys |
| Conservation.ConservationLaw | node.py:562-575 | for any accepted candidate: value plus destroyed value is what block 0 held plus the schedule |
| Conservation.ChainBurnsNothing | node.py:163-177 | where no txid occurs in two blocks, nothing is ever overwritten |
| Conservation.DistinctCoinbasesShareNoTxid | node.py:504-524 | with injective txids and distinct coinbases no txid occurs in two blocks |
| Conservation.MoneyConservation | node.py:562-575 | from the true genesis the value never exceeds the schedule or MAX_SUPPLY, and equals the schedule where no txid occurs in two blocks, hence with distinct coinbases |
| Conservation.BlockZeroBodyIsNotChecked | node.py:565-571 | an accepted candidate with the genesis header whose block 0 pays any amount |
| Conservation.NoPremineIff | node.py:565-571 | whatever is in block 0, where no txid occurs in two blocks: the value is the schedule plus what block 0 leaves unspent, so the bound holds if and only if that is worth nothing |
| Conservation.UnsharedIsSpared | node.py:516-531 | where no txid occurs in two blocks, no block spends its own coinbase |
| Conservation.RebuiltSupply | node.py:179-188 | the rebuilt set of a validated chain above the true genesis is never worth more than the schedule, and exactly that where no txid occurs in two blocks |
| Headers.MedianNeverDecreases | node.py:480 | median time past never decreases along an accepted chain |
| Headers.TimesRise | node.py:480 | every later timestamp exceeds the genesis timestamp |
| Headers.AlwaysFullWindow | node.py:287-310 | no gap is ever skipped: exactly min(12, height) samples of 37 to 600 seconds |
| Headers.RetargetBoundsOnChain | node.py:487-489 | every difficulty is in range, and neighbours obey 100n >= 67c - 50 and 2n <= 3c + 1 |
| Headers.NextDifficultyExactly | node.py:313-347 | that rule for every accepted chain, from its difficulties and gaps; 1,000,000,000 units after genesis |
| Headers.SlowerChainIsNeverHarder | node.py:287-345 | of two accepted chains with one window of difficulties the slower is never asked for a harder block |
| Headers.SteadyChainKeepsDifficulty | node.py:313-347 | an accepted chain at exactly 150 seconds a block keeps its difficulty |
| Headers.WorkIsDefined | gamecoin/chainwork.py:27-33 | total work of an accepted chain never raises |
| Headers.WorkGrows | gamecoin/chainwork.py:27-33 | every accepted block strictly adds work |
| Headers.RootCommitsToTransactions | node.py:496-500 | accepted bodies with one Merkle root are the same transactions |
| Headers.SameHeaderSameBlock | gamecoin/utils.py:101-117 | accepted blocks with one header hash are the same block at the same height |
| Headers.TipCommitsToChain | node.py:478-479 | two accepted chains with one tip hash are the same chain |
| Replay.ChainAtLaterClock | gamecoin/time_rules.py:18-33 | an accepted chain is accepted with the same result at every later clock |
| Replay.ReplayIff | node.py:562-575 | validating a validated chain again returns it unchanged if and only if every stored block fits the byte limit |
| Replay.ValidatedStepIff | node.py:536-543 | where the carried set is the rebuilt one it stays so over an accepted block if and only if the block spends none of its own coinbase |
| Replay.ValidatedStep | node.py:536-543 | a validated chain extended by any accepted block validates from scratch, with any hashes and coinbases |
| Replay.ValidatedReplays | node.py:562-575 | a validated chain validates to itself if and only if its stored blocks fit, at every later clock |
| Replay.DistinctCoinbaseIsSpared | node.py:504-515 | a block that leaves all coinbase txids distinct spends none of its own coinbase |
| Counterexamples.FullBlockDoesNotReplay | node.py:481-482 | a block of exactly 2,000,000 bytes that is accepted, and whose stored form makes the chain invalid |
| Operations.WithoutKeeps | node.py:543 | filtering leaves exactly the mempool's own transactions outside the given txids |
| Operations.WithoutPicks | node.py:543 | the filter keeps exactly those positions, in their order |
| Operations.AddAllKeepsChain | node.py:603-607 | offering orphans never touches the chain |
| Mempool.AddIff | node.py:251-275 | an addition appends exactly what is no coinbase, unknown to the mempool and the last 200 blocks, has room under 5,000 and validates; what it answers in each case |
| Mempool.AddAllTakes | node.py:603-607 | transactions offered in turn are appended in order, exactly those taken behind the ones taken before them |
| Mempool.SubmitLeaves | node.py:536-560 | after an accepted block exactly those pending transactions stay, in order, whose txid no payment of the block has; a refused block changes nothing |
| Mempool.ValidIsUnconfirmed | node.py:251-275 | what validates against chain and mempool is confirmed nowhere in the chain, beyond the 200 blocks looked at |
| Mempool.AddKeeps | node.py:251-275 | adding keeps the mempool invariant and the chain |
| Mempool.AddTwice | node.py:258-264 | offering an accepted transaction again answers the same and changes nothing |
| Mempool.SubmittedKeeps | node.py:541-543 | after a block no remaining entry is confirmed, not even under the coinbase's txid |
| Mempool.ReplacedKeeps | node.py:591-599 | after a replacement no remaining entry is confirmed in the new chain |
| Runs.StepNeverLosesWork | node.py:577-600 | one step with any input keeps the chain or strictly increases its work |
| Runs.WorkOverRun | node.py:577-600 | over any run, with arbitrary peer input, total work never decreases and rises whenever the chain differs |
| Runs.NeverReturns | node.py:577-600 | a node never returns to a chain it left |
| ForkChoice.WorkByDifficulty | gamecoin/chainwork.py:27-33 | total work of an accepted chain is 64/15,625 of the sum of its difficulties, less at most one hash a block |
| ForkChoice.ReplaceByDifficulty | node.py:577-609 | an invalid candidate is refused with its error, the own tip changes nothing, and any other is adopted or refused as its difficulties outweigh the node's beyond the rounding or not |
| ForkChoice.ReplaceByWorkIff | node.py:577-609 | a valid candidate with another tip is adopted if and only if it has strictly more work |
| Runs.RefusedStepsChangeNothing | node.py:577-588 | a refused operation leaves chain and mempool untouched |
| Runs.RestartResumes | node.py:124-142 | after any run from a first start, starting again from the saved files resumes with the same chain and mempool |
| Runs.LoadedIff | node.py:124-142 | a start succeeds exactly without a chain file or with one whose block 0 has the genesis hash, and what it loads |
| Runs.StepDropsOnlyConfirmed | node.py:541-543 | what a step drops from the mempool the chain confirms afterwards |
| Runs.PendingUntilConfirmed | node.py:541-609 | over any run a pending payment stays pending until a chain that the node holds confirms it |
| Runs.StepAddsOnly | node.py:251-275 | a payment becomes pending by being added or by a reorganization off a chain that confirmed it |
| Runs.RunKeepsValidated | node.py:536-600 | after any run with a rising clock, whatever was submitted or refused, the chain validates from scratch |
| Runs.StepKeepsInvIff | node.py:251-275 | one step keeps the chain validated and the mempool unconfirmed if and only if it lets no confirmed payment back in |
| Runs.RunKeepsInvIff | node.py:251-275 | over any run that adopts only true-genesis chains: always a validated chain and at most 5,000 distinct non-coinbase pending transactions, none confirmed, if and only if no confirmed payment re-enters |
| Runs.FirstRunKeepsInvIff | node.py:124-142 | the same for every run from a first start |
| Runs.DistinctNeverReenters | node.py:251-275 | where the coinbases of the chain are distinct nothing re-enters |
| Runs.RunKeepsInv | node.py:251-275 | hence distinct coinbases in the chains that the node holds keep the invariant at every moment |
| Runs.ReplayAfterRun | node.py:473-575 | after any run from genesis with a rising clock, any coinbases and any refused input, whole-chain validation returns the node's own chain if and only if the stored blocks fit, with the rebuilt UTXO set where no block spends its own coinbase |
| Runs.ReplayWithDistinctCoinbases | node.py:473-575 | with distinct coinbases in the final chain, replay gives exactly the chain and its rebuilt UTXO set |
| Runs.SupplyAfterRun | node.py:179-188 | after any run that ends above the true genesis the rebuilt UTXO set is never worth more than the schedule or MAX_SUPPLY, and exactly the schedule where no txid occurs in two blocks |
| Runs.ExactSupplyAfterRun | node.py:179-188 | with distinct coinbases it is exactly the schedule |
| Reorg.OrphanValidIff | node.py:251-275 | a payment of the old chain validates behind any pending transactions exactly when its inputs are available, with any coinbases: outputs, owners, signatures and fee need no second look |
| Reorg.ReorgMempool | node.py:590-607 | for any mempool and any coinbases in either chain, the exact mempool after a reorganization: what the new chain does not confirm, then each orphan in old-chain order if there is room and its inputs are available; it keeps the mempool invariant |
| Reorg.ReturnedShape | node.py:599-607 | what stayed comes first in order, then a subsequence of the orphans |
| Reorg.OrphanPlaces | node.py:592-596 | the orphans are exactly the payments of the old chain whose txid the new one does not have, in old-chain order |
| Reorg.ReorgKeepsPaymentsIff | node.py:577-609 | for any mempool and any coinbases no payment is lost if and only if they fit behind what stays and every input is available; and then no orphan was confirmed twice |
| Reorg.ReorgFromEmptyMempoolIff | node.py:577-609 | from an empty mempool exactly the orphans are left, in order, if and only if they fit, no two of them spend one outpoint, and each input is spendable or made by an earlier orphan |
| Reorg.ReturnedShareNoInput | node.py:603-607 | orphans that all return to an empty mempool share no input: what one of them spends stays gone |
| Reorg.OrphansShareNoInput | node.py:592-596 | where the coinbases of the old chain are distinct no two orphans spend one outpoint |
| Reorg.ReorgOfDistinctCoinbasesIff | node.py:577-609 | hence there the orphans are left exactly when they fit and each input is spendable or made by an earlier orphan |
| Counterexamples.PayablePaymentIsLost | node.py:590-607 | a reorganization between two valid chains that loses a payment whose input is unspent and mature in the new chain, with room in the mempool |
| Template.TextDeterminesHeight | node.py:437-438 | the coinbase text determines the height whatever the pool tags |
| Template.DecimalSpells | node.py:437 | the height is written in decimal, most significant digit first, without leading zeros |
| Template.TemplateCoinbasesAreDistinct | node.py:437-445 | on a chain of template-made blocks the coinbase txids are distinct |
| Template.SelectionRevalidates | node.py:425-435 | the selected transactions validate again in order with the same fees and UTXO set |
| Template.SelectionIsGreedy | node.py:425-435 | in mempool order exactly those entries are chosen that validate behind the ones chosen before them, up to 999 |
| Template.TemplateIsGreedy | node.py:417-471 | the template holds the longest beginning of the chosen entries that fits 2,000,000 bytes, any longer one being over it, with a coinbase that pays the given address subsidy and fees, at the later of the clock and median time past + 1 |
| Template.TemplateSucceeds | node.py:417-471 | with a valid address the template never raises, in the shrink loop either, and ends within the byte limit or with the coinbase alone |
| Template.OnlyTimeSizeAndWork | node.py:473-534 | at any nonce and later timestamp exactly three rules can reject a template: future time, size, work |
| Template.TemplateIsValid | node.py:417-471 | for any chain and any mempool with distinct txids, stale and conflicting entries included, the template passes all but work, under the stated time and size conditions |
| StateMachine.ChainState.Load | node.py:124-142 | the state from the files, a new node's state without them, or the genesis mismatch |
| StateMachine.ChainState.BuildUtxoSet | node.py:179-188 | a fresh dictionary with the set of the chain, and of the pending transactions when asked |
| StateMachine.ChainState.ValidateNormalTx | node.py:190-249 | the loops compute the verdict and fee of the specification |
| StateMachine.ChainState.TotalInputs | node.py:212-239 | the input loop with its `seen` set |
| StateMachine.ChainState.TotalOutputs | node.py:241-248 | the output loop |
| StateMachine.ChainState.AddTransaction | node.py:251-275 | chain, mempool and answer afterwards, for acceptance, known transactions and every rejection |
| StateMachine.ChainState.ValidateBlockAgainst | node.py:473-534 | the finalized block and the updated dictionary, or the first objection |
| StateMachine.ChainState.ApplyBody | node.py:516-524 | the transaction loop: fees and dictionary, or the first objection |
| StateMachine.ChainState.SubmitBlock | node.py:536-560 | chain, mempool and answer afterwards, on acceptance and on rejection |
| StateMachine.ChainState.ValidateChainCandidate | node.py:562-575 | the validated chain or the first objection |
| StateMachine.ChainState.ReplaceChain | node.py:577-609 | chain, mempool and answer afterwards in every case |
| StateMachine.ChainState.CollectOrphans | node.py:592-596 | the orphan loops collect the unconfirmed payments of the old chain in order |
| StateMachine.ChainState.OfferAll | node.py:603-607 | the best-effort loop offers each transaction in turn |
| StateMachine.ChainState.MiningTemplate | node.py:417-471 | the selection and shrink loops compute the template of the theorems |
| StateMachine.ChainState.SelectTransactions | node.py:425-435 | the selection loop with its early exit |
| StateMachine.ChainState.PriceAgain | node.py:459-466 | the pricing loop inside the shrink loop |
| Miner.Worker | miner.py:21-50 | a report is the worker's first attempt that meets the target, under the timestamp it was hashed with; no report only if none met it or another was first |
| Miner.NoncesArePartitioned | miner.py:24-40 | the attempts of the workers try every nonce exactly once: nonce n is tried by worker n % threads at attempt n / threads |
| Miner.StampBounds | miner.py:41-46 | the refreshed timestamp never precedes the template's and never passes both it and the latest clock reading |
| Miner.StampIsLatest | miner.py:41-46 | the timestamp of an attempt is the latest of the template's and of the clock readings after every report interval so far |
| Miner.FoundBlockIsAccepted | miner.py:169-174 | the rebuilt block of any report, whatever clocks the template and the worker read, is accepted while the chain is unchanged if and only if it is within the byte limit and at most two hours ahead of the node's clock |
| Miner.ReportIsTimely | miner.py:41-46 | where no clock reading and not median time past passes a time, the reported timestamp does not either |
| Sync.PeerSyncManager.FetchChain | node.py:783-796 | the download loop ends for any peer and returns the blocks or the first failure |
| Sync.PeerSyncManager.ExtendFrom | node.py:826-834 | the extend path: the node's state afterwards, blocks accepted before a failure included |
| Sync.PeerSyncManager.SubmitBlocks | node.py:832-833 | one batch submitted in turn |
| Sync.PeerSyncManager.SyncOnce | node.py:798-856 | the node's state afterwards on every path |
| Sync.FetchJoinsAnswers | node.py:783-796 | for any peer the download is the answers joined if they reach the wanted height and end with it; else which request failed |
| Sync.ExtendSubmitsAnswers | node.py:823-834 | for any peer the extend path submits the answers block by block and completes exactly if none is rejected and they reach the wanted height |
| StaticPeer.FetchReassembles | node.py:783-796 | the batched download reassembles the served chain if and only if every batch is within the response cap, and fails otherwise |
| StaticPeer.BatchesFitIff | gamecoin/network.py:60-62 | every batch of 100 blocks from a height on is within 8 MiB |
| StaticPeer.NextBlockIff | node.py:536-541 | a block of a valid chain is accepted on top of the blocks before it exactly when its inputs are in the rebuilt set; else an input is missing |
| StaticPeer.SparingIsSubmittable | node.py:536-541 | that always holds on a chain whose blocks spend none of their own coinbase |
| StaticPeer.ExtendReachesPeer | node.py:823-834 | the extend path reaches the peer's chain if and only if its batches are within the cap and every missing block is so accepted; what came before a failure is kept |
| StaticPeer.AnchorMeansPrefix | node.py:813-821 | an anchor has the local tip's hash exactly when the local chain is a prefix of the peer's |
| StaticPeer.PathTaken | node.py:813-823 | the extend path is taken exactly for a shorter prefix whose anchor reply is within the cap |
| StaticPeer.SyncAdoptsHeavierChainIff | node.py:798-841 | against a static peer with a valid, strictly heavier chain a completed sync ends with exactly that chain; it completes if and only if every batch is within the cap and, on the extend path, every missing block finds its inputs; otherwise the node keeps or extends its chain, and where the batches fit the failure is a missing input |
| StaticPeer.SparingSyncIff | node.py:798-841 | where no block of the peer's chain spends its own coinbase, the cap alone decides |
| StaticPeer.LargeBlocksStopSync | gamecoin/network.py:60-62 | when blocks 1 to 5 together exceed the cap no sync of a new node completes |
| Counterexamples.ValidChainThatCannotBeDownloaded | gamecoin/network.py:60-62 | such a chain that is valid and heavier, with its peer, under collision-free hashes |
| Counterexamples.ValidChainThatCannotBeSubmitted | node.py:826-834 | under collision-free hashes a valid chain within every cap, heavier than every beginning of it, with which no sync of a node that holds a beginning up to height 609 completes |
| Sync.SyncIsRun | node.py:798-856 | whatever a peer answers, a sync is a run of submissions, replacements and additions, with a rising clock where later blocks are submitted no earlier |
| Sync.SyncOffers | node.py:843-850 | after a completed sync the mempool is what the blocks left, then in order exactly the offered transactions that are taken in turn; equal tips and failed blocks offer none |
| Sync.SyncDropsOnlyConfirmed | node.py:798-856 | a sync drops no pending payment but one that a chain of the node confirms on the way |
| Sync.SyncNeverLosesWork | node.py:798-856 | no peer can make a node lose work |
| Sync.SyncKeepsValidated | node.py:798-856 | after a sync with any peer the chain still validates from scratch |

## Left out

- HTTP and RPC handlers, configuration, rate limiting, peer handshakes and broadcast: plumbing around the operations.
- Wallets, key derivation, encryption and the graphical interface: the signature check is a parameter.
- Atomic file writes, logs and locks: each locked operation is one atomic step, and a file holds what was last saved.
- SHA-256, JSON serialization and Ed25519: functions of the `Crypto` value; nothing is said about their strength.
- IEEE rounding in the difficulty plan: exact rationals stand for floats.
- Malformed JSON (missing keys, wrong types, text that is not hex): records are typed; a public key that is not hex counts as one that does not own the output.
- Extra JSON fields of blocks and transactions: records have only the fields that validation reads, and size is a function of the record.
- Pool-tag normalization: the template takes the normalized tag.
- The starting of worker processes, statistics and stale-tip polling in `mine_one`: a worker's loop and the result written back are modelled.
- Display queries (network statistics, address summaries, block search, hash-rate estimates): they change nothing.
- Difficulty.NextFollowsWanted: states the rule for chains as validation leaves them, version 2 above block 0 with positive times; the branches for version-1 blocks and missing timestamps are modelled, and no accepted chain reaches them.
- StaticPeer.SyncAdoptsHeavierChainIff: the peer gives the same answer to the same request for the length of one sync, and a negative status height is a download that ends at the wrong height.
- Sync.PeerSyncManager.constructor: one peer; the peer list, seed mode and status fields decide which peer is asked and what is displayed, not what a sync does.
- StateMachine.ChainState.ValidateBlockAgainst: after a rejection the dictionary is left unspecified, because both callers drop it.
- Reorg.ReorgMempool: assumes injective txids and H1 of the two chains; what a reorganization onto another block 0 leaves of the mempool is not said.
