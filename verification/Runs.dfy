/**
 Whole runs of a node: any interleaving of add_transaction, submit_block and replace_chain with any input, each
 locked operation being one atomic step.
 */
module Runs {
  import opened Prelude
  import opened Types
  import opened Ledger
  import opened Blocks
  import opened History
  import opened Orders
  import opened Headers
  import opened Inclusion
  import opened Replay
  import opened Operations
  import opened Mempool
  import opened Recurrence
  import opened Work
  import Conservation
  import Consensus
  import Reorg

  datatype Action = Add(tx: Tx) | Submit(block: Block) | Replace(candidate: seq<Block>)
  datatype Step = Step(action: Action, now: int)

  function Perform(c: Crypto, s: Node, step: Step): (t: Node)
    requires s.chain != []
    ensures t.chain != []
  {
    match step.action
    case Add(tx) => AddTransaction(c, s, tx).node
    case Submit(block) => SubmitBlock(c, s, block, step.now).node
    case Replace(candidate) =>
      AddAllKeepsChainOfReplace(c, s, candidate, step.now);
      ReplaceChain(c, s, candidate, step.now).node
  }

  lemma {:induction false} AddAllKeepsChainOfReplace(c: Crypto, s: Node, candidate: seq<Block>, now: int)
    requires s.chain != []
    ensures var after := ReplaceChain(c, s, candidate, now);
            && (after.result != Ok(true) ==> after.node == s)
            && (after.result == Ok(true) ==>
                  && CheckChain(c, candidate, now).Ok?
                  && after.node.chain == CheckChain(c, candidate, now).value.chain
                  && ChainWork(after.node.chain).Ok? && ChainWork(s.chain).Ok?
                  && ChainWork(after.node.chain).value > ChainWork(s.chain).value)
  {
    hide CheckBlock, ChainWork, AddTransaction, Orphans, AddAll;
    if CheckChain(c, candidate, now).Ok? {
      var validated := CheckChain(c, candidate, now).value.chain;
      var confirmed := ChainIds(validated);
      AddAllKeepsChain(c, Node(validated, Without(s.mempool, confirmed)), Orphans(s.chain, confirmed));
    }
  }

  function Run(c: Crypto, start: Node, steps: seq<Step>): (s: Node)
    requires start.chain != []
    ensures s.chain != []
  {
    if steps == [] then start
    else Perform(c, Run(c, start, steps[..|steps| - 1]), steps[|steps| - 1])
  }

  function FirstNode(c: Crypto): Node {
    Node([Genesis(c)], [])
  }

  // Fork choice, for arbitrary peer input

  /** Nothing but the genesis header has the genesis hash. */
  ghost predicate GenesisBound(c: Crypto) {
    forall h :: c.HeaderHash(h) == GenesisHash(c) ==> h == GenesisHeader(c)
  }

  lemma {:induction false} SubmittedHeaders(c: Crypto, s: Node, block: Block, now: int)
    requires HeadersOk(c, s.chain)
    ensures HeadersOk(c, SubmitBlock(c, s, block, now).node.chain)
    ensures var after := SubmitBlock(c, s, block, now);
            && (after.result.Err? ==> after.node == s)
            && (after.result.Ok? ==> after.node.chain == s.chain + [Finalized(c, block)])
  {
    hide HeaderOk, CheckHeader, CheckBody, Without;
    var after := SubmitBlock(c, s, block, now);
    if after.result.Ok? {
      AcceptedBody(c, block, s.chain, BuildUtxos(s.chain), now);
      var chain := s.chain + [Finalized(c, block)];
      assert chain[..|s.chain|] == s.chain;
      forall i | 0 < i < |chain| ensures HeaderOk(c, chain, i) {
        if i < |s.chain| {
          HeaderOkOfPrefix(c, s.chain, chain, i);
        } else {
          AcceptedHeader(c, block, chain, i, BuildUtxos(s.chain), now);
        }
      }
    }
  }

  lemma {:induction false} HeaderOkOfPrefix(c: Crypto, short: seq<Block>, long: seq<Block>, i: nat)
    requires short <= long && 0 < i < |short| && HeaderOk(c, short, i)
    ensures HeaderOk(c, long, i)
  {
    assert long[..i] == short[..i];
  }

  lemma {:induction false} ReplacedHeaders(c: Crypto, s: Node, candidate: seq<Block>, now: int)
    requires GenesisBound(c) && HeadersOk(c, s.chain)
    ensures HeadersOk(c, ReplaceChain(c, s, candidate, now).node.chain)
  {
    hide HeaderOk, CheckChain, ReplaceChain;
    AddAllKeepsChainOfReplace(c, s, candidate, now);
    if ReplaceChain(c, s, candidate, now).result == Ok(true) {
      GenesisOfAcceptedChain(c, candidate, now);
      assert c.HeaderHash(candidate[0].header) == GenesisHash(c);
      AcceptedHeaders(c, candidate, now);
    }
  }

  /** One step of any kind with any argument: more work or the same chain. */
  lemma {:induction false} StepNeverLosesWork(c: Crypto, s: Node, step: Step)
    requires GenesisBound(c) && HeadersOk(c, s.chain)
    ensures var t := Perform(c, s, step);
            && HeadersOk(c, t.chain)
            && ChainWork(s.chain).Ok? && ChainWork(t.chain).Ok?
            && (t.chain != s.chain ==> ChainWork(t.chain).value > ChainWork(s.chain).value)
  {
    hide HeaderOk, CheckTx, CheckBlock, ReplaceChain, SubmitBlock, CheckChain, ChainWork;
    WorkIsDefined(c, s.chain);
    match step.action
    case Add(_) =>
    case Submit(block) =>
      SubmittedHeaders(c, s, block, step.now);
      var t := SubmitBlock(c, s, block, step.now).node;
      if t.chain != s.chain {
        WorkGrows(c, t.chain);
        assert t.chain[..|t.chain| - 1] == s.chain;
      }
    case Replace(candidate) =>
      ReplacedHeaders(c, s, candidate, step.now);
      AddAllKeepsChainOfReplace(c, s, candidate, step.now);
      WorkIsDefined(c, Perform(c, s, step).chain);
  }

  lemma {:induction false} RunKeepsHeaders(c: Crypto, start: Node, steps: seq<Step>)
    requires GenesisBound(c) && HeadersOk(c, start.chain)
    ensures HeadersOk(c, Run(c, start, steps).chain)
  {
    hide HeaderOk, Perform;
    if steps != [] {
      RunKeepsHeaders(c, start, steps[..|steps| - 1]);
      StepNeverLosesWork(c, Run(c, start, steps[..|steps| - 1]), steps[|steps| - 1]);
    }
  }

  /** Over any run total work never decreases, and two different chains of the run never have equal work. */
  lemma {:induction false} WorkOverRun(c: Crypto, start: Node, steps: seq<Step>, i: nat, j: nat)
    requires GenesisBound(c) && HeadersOk(c, start.chain) && i <= j <= |steps|
    ensures var a, b := Run(c, start, steps[..i]).chain, Run(c, start, steps[..j]).chain;
            && ChainWork(a).Ok? && ChainWork(b).Ok? && ChainWork(a).value <= ChainWork(b).value
            && (a != b ==> ChainWork(a).value < ChainWork(b).value)
    decreases j - i
  {
    hide HeaderOk, Perform, ChainWork;
    if i == j {
      RunKeepsHeaders(c, start, steps[..i]);
      WorkIsDefined(c, Run(c, start, steps[..i]).chain);
    } else {
      WorkOverRun(c, start, steps, i, j - 1);
      assert steps[..j][..j - 1] == steps[..j - 1];
      RunKeepsHeaders(c, start, steps[..j - 1]);
      StepNeverLosesWork(c, Run(c, start, steps[..j - 1]), steps[j - 1]);
    }
  }

  /** A node never returns to a chain it left. */
  lemma {:induction false} NeverReturns(c: Crypto, start: Node, steps: seq<Step>, i: nat, j: nat, k: nat)
    requires GenesisBound(c) && HeadersOk(c, start.chain) && i <= j <= k <= |steps|
    requires Run(c, start, steps[..j]).chain != Run(c, start, steps[..i]).chain
    ensures Run(c, start, steps[..k]).chain != Run(c, start, steps[..i]).chain
  {
    hide HeaderOk, Run, ChainWork;
    WorkOverRun(c, start, steps, i, j);
    WorkOverRun(c, start, steps, j, k);
  }

  /** A refused step leaves chain and mempool as they were. */
  lemma {:induction false} RefusedStepsChangeNothing(c: Crypto, s: Node, tx: Tx, block: Block, candidate: seq<Block>,
                                                     now: int)
    requires s.chain != []
    ensures AddTransaction(c, s, tx).result.Err? ==> AddTransaction(c, s, tx).node == s
    ensures SubmitBlock(c, s, block, now).result.Err? ==> SubmitBlock(c, s, block, now).node == s
    ensures ReplaceChain(c, s, candidate, now).result != Ok(true) ==> ReplaceChain(c, s, candidate, now).node == s
  {
    hide CheckTx, ReplaceChain, CheckBlock;
    AddAllKeepsChainOfReplace(c, s, candidate, now);
  }

  /** A node that stops after any run and starts again from its files goes on with the same chain and mempool. */
  lemma {:induction false} RestartResumes(c: Crypto, steps: seq<Step>)
    requires GenesisBound(c)
    ensures var first := Loaded(c, None, None);
            && first.Ok? && first.value == FirstNode(c)
            && var s := Run(c, first.value, steps); Loaded(c, Some(s.chain), Some(s.mempool)) == Ok(s)
  {
    hide Run, HeaderOk;
    FirstNodeHeaders(c);
    RunKeepsHeaders(c, FirstNode(c), steps);
  }

  lemma {:induction false} FirstNodeHeaders(c: Crypto)
    ensures HeadersOk(c, FirstNode(c).chain)
  {
  }

  // Replay over runs

  function ClockAfter(clock: int, steps: seq<Step>): int {
    if steps == [] then clock else steps[|steps| - 1].now
  }

  /** The clock never steps back. */
  predicate Rising(clock: int, steps: seq<Step>) {
    steps == [] ||
    var n := |steps| - 1;
    Rising(clock, steps[..n]) && ClockAfter(clock, steps[..n]) <= steps[n].now
  }

  /** Block 0 of every chain that the node holds is the genesis block itself; nothing is asked of what it refuses. */
  ghost predicate HoldsGenesis(c: Crypto, start: Node, steps: seq<Step>)
    requires start.chain != []
  {
    forall n :: 0 <= n <= |steps| ==> Run(c, start, steps[..n]).chain[0] == Genesis(c)
  }

  lemma {:induction false} StepKeepsValidated(c: Crypto, s: Node, before: int, step: Step)
    requires Validated(c, s.chain, before) && before <= step.now && s.chain != []
    requires Perform(c, s, step).chain[0].header.height == 0
    ensures Validated(c, Perform(c, s, step).chain, step.now)
  {
    hide Validated, CheckTx, CheckBlock, CheckChain, ReplaceChain, BuildUtxos, Without;
    ValidatedLater(c, s.chain, before, step.now);
    match step.action
    case Add(_) =>
    case Submit(block) =>
      if CheckBlock(c, block, s.chain, BuildUtxos(s.chain), step.now).Ok? {
        AcceptedBody(c, block, s.chain, BuildUtxos(s.chain), step.now);
        ValidatedStep(c, s.chain, block, step.now);
      }
    case Replace(candidate) =>
      AddAllKeepsChainOfReplace(c, s, candidate, step.now);
      if ReplaceChain(c, s, candidate, step.now).result == Ok(true) {
        GenesisOfAcceptedChain(c, candidate, step.now);
        AcceptedIsValidated(c, candidate, step.now);
      }
  }

  /**
   After any run with a rising clock, whatever was submitted, offered or refused, the chain validates from scratch.
   Nothing but the genesis header having the genesis hash is enough, and so is a true block 0 in what is adopted.
   */
  lemma {:induction false} RunKeepsValidated(c: Crypto, start: Node, clock: int, steps: seq<Step>)
    requires HeadersOk(c, start.chain) && Validated(c, start.chain, clock) && Rising(clock, steps)
    requires GenesisBound(c) || HoldsGenesis(c, start, steps)
    ensures Validated(c, Run(c, start, steps).chain, ClockAfter(clock, steps))
  {
    hide Validated, Perform, HeaderOk;
    if steps != [] {
      var n := |steps| - 1;
      if HoldsGenesis(c, start, steps) {
        HoldsGenesisBefore(c, start, steps);
      }
      RunKeepsValidated(c, start, clock, steps[..n]);
      BlockZeroHeight(c, start, steps);
      StepKeepsValidated(c, Run(c, start, steps[..n]), ClockAfter(clock, steps[..n]), steps[n]);
    }
  }

  lemma {:induction false} HoldsGenesisBefore(c: Crypto, start: Node, steps: seq<Step>)
    requires start.chain != [] && steps != [] && HoldsGenesis(c, start, steps)
    ensures HoldsGenesis(c, start, steps[..|steps| - 1])
  {
    hide Run;
    var front := steps[..|steps| - 1];
    forall n | 0 <= n <= |front| ensures Run(c, start, front[..n]).chain[0] == Genesis(c) {
      assert front[..n] == steps[..n];
    }
  }

  lemma {:induction false} BlockZeroHeight(c: Crypto, start: Node, steps: seq<Step>)
    requires HeadersOk(c, start.chain) && (GenesisBound(c) || HoldsGenesis(c, start, steps))
    ensures Run(c, start, steps).chain[0].header.height == 0
  {
    hide Run, HeaderOk;
    if GenesisBound(c) {
      RunKeepsHeaders(c, start, steps);
    } else {
      assert steps[..|steps|] == steps;
    }
  }

  /**
   Acceptance one block at a time and acceptance from scratch agree: after any run from genesis with a rising clock,
   validating the node's own chain at this or any later clock returns the same chain if every stored block fits the
   byte limit with its hash field, and fails otherwise. Any coinbases, any refused input.
   */
  lemma {:induction false} ReplayAfterRun(c: Crypto, clock: int, steps: seq<Step>, later: int)
    requires Rising(clock, steps) && ClockAfter(clock, steps) <= later
    requires GenesisBound(c) || HoldsGenesis(c, FirstNode(c), steps)
    ensures ReplaysToItself(c, Run(c, FirstNode(c), steps).chain, later)
  {
    hide Validated, ReplaysToItself, Run, HeaderOk;
    GenesisIsValidated(c, clock);
    FirstNodeHeaders(c);
    RunKeepsValidated(c, FirstNode(c), clock, steps);
    ValidatedReplays(c, Run(c, FirstNode(c), steps).chain, ClockAfter(clock, steps), later);
  }

  /** With distinct coinbases in the chain it ended with, replay gives exactly the rebuilt UTXO set as well. */
  lemma {:induction false} ReplayWithDistinctCoinbases(c: Crypto, clock: int, steps: seq<Step>, later: int)
    requires Rising(clock, steps) && ClockAfter(clock, steps) <= later
    requires GenesisBound(c) || HoldsGenesis(c, FirstNode(c), steps)
    requires var chain := Run(c, FirstNode(c), steps).chain;
             c.TxIdsInjective() && PlainBlockZero(c, chain[0]) && DistinctCoinbases(chain)
    ensures var chain := Run(c, FirstNode(c), steps).chain;
            Fits(c, chain) ==> CheckChain(c, chain, later) == Ok(Carry(chain, BuildUtxos(chain)))
  {
    hide Run, HeaderOk, CheckChain, BuildUtxos, Fits, Within, SparesCoinbases, DistinctCoinbases, PlainBlockZero;
    var chain := Run(c, FirstNode(c), steps).chain;
    ReplayAfterRun(c, clock, steps, later);
    if Fits(c, chain) {
      DistinctCoinbasesAreSpared(c, chain, later);
    }
  }

  // The node's invariant

  /** The chain validates from scratch above the true genesis, and the mempool is unconfirmed; any coinbases. */
  ghost predicate Inv(c: Crypto, s: Node, now: int) {
    Validated(c, s.chain, now) && s.chain != [] && s.chain[0] == Genesis(c) && MempoolOk(c, s.chain, s.mempool)
  }

  lemma {:induction false} SubmitKeepsMempool(c: Crypto, s: Node, block: Block, now: int)
    requires c.TxIdsInjective() && MempoolOk(c, s.chain, s.mempool) && s.chain != []
    ensures var after := SubmitBlock(c, s, block, now).node; MempoolOk(c, after.chain, after.mempool)
  {
    hide CheckHeader, CheckBody, MempoolOk, BuildUtxos, CheckCoinbase;
    if SubmitBlock(c, s, block, now).result.Ok? {
      AcceptedBody(c, block, s.chain, BuildUtxos(s.chain), now);
      SubmittedKeeps(c, s.chain, Finalized(c, block), s.mempool);
    }
  }

  /** Offering what the chain does not confirm keeps the mempool unconfirmed. */
  lemma {:induction false} OffersKeepMempool(c: Crypto, s: Node, txs: seq<Tx>, now: int)
    requires Settled(c, s, now) && forall i :: 0 <= i < |txs| ==> !Confirmed(s.chain, txs[i])
    ensures Settled(c, AddAll(c, s, txs), now) && AddAll(c, s, txs).chain == s.chain
  {
    hide AddTransaction, Validated, MempoolOk, Confirmed;
    if txs != [] {
      var n := |txs| - 1;
      OffersKeepMempool(c, s, txs[..n], now);
      AddAllKeepsChain(c, s, txs);
      AddKeepsUnlessReentry(c, AddAll(c, s, txs[..n]), now, txs[n]);
    }
  }

  lemma {:induction false} OrphansAreUnconfirmed(chain: seq<Block>, ids: set<Hash>, other: seq<Block>)
    requires ids == ChainIds(other)
    ensures forall i :: 0 <= i < |Orphans(chain, ids)| ==> !Confirmed(other, Orphans(chain, ids)[i])
  {
    if chain != [] {
      var m := |chain| - 1;
      var rest := Without(AfterFirst(chain[m].transactions), ids);
      OrphansAreUnconfirmed(chain[..m], ids, other);
      WithoutKeeps(AfterFirst(chain[m].transactions), ids);
      forall i | 0 <= i < |rest| ensures !Confirmed(other, rest[i]) {
        OutsideIsUnconfirmed(other, rest[i]);
      }
    }
  }

  lemma {:induction false} ReplaceKeepsMempool(c: Crypto, s: Node, candidate: seq<Block>, now: int)
    requires c.TxIdsInjective() && MempoolOk(c, s.chain, s.mempool) && s.chain != []
    requires var after := ReplaceChain(c, s, candidate, now).node;
             Validated(c, after.chain, now) && after.chain[0] == Genesis(c)
    ensures var after := ReplaceChain(c, s, candidate, now).node; MempoolOk(c, after.chain, after.mempool)
  {
    hide Validated, CheckChain, MempoolOk, AddAll, ChainWork, Orphans, Confirmed;
    AddAllKeepsChainOfReplace(c, s, candidate, now);
    if ReplaceChain(c, s, candidate, now).result == Ok(true) {
      var after := CheckChain(c, candidate, now).value.chain;
      ReplacedKeeps(c, s.chain, after, s.mempool);
      OrphansAreUnconfirmed(s.chain, ChainIds(after), after);
      OffersKeepMempool(c, Node(after, Without(s.mempool, ChainIds(after))), Orphans(s.chain, ChainIds(after)), now);
    }
  }

  /** The step does not add a confirmed payment whose inputs are all back. */
  ghost predicate NoReentry(s: Node, step: Step) {
    step.action.Add? ==> !Reenters(s, step.action.tx)
  }

  /** Of one step: it keeps the invariant if and only if it lets no confirmed payment back into the mempool. */
  lemma {:induction false} StepKeepsInvIff(c: Crypto, s: Node, before: int, step: Step)
    requires c.TxIdsInjective() && Inv(c, s, before) && before <= step.now && s.chain != []
    requires Perform(c, s, step).chain[0] == Genesis(c)
    ensures Inv(c, Perform(c, s, step), step.now) <==> NoReentry(s, step)
  {
    hide Validated, MempoolOk, CheckTx, ReplaceChain, SubmitBlock, AddTransaction, Reenters;
    StepKeepsValidated(c, s, before, step);
    match step.action
    case Add(tx) =>
      AddKeepsUnlessReentry(c, s, before, tx);
      ChainAfterAdd(c, s, tx);
    case Submit(block) => SubmitKeepsMempool(c, s, block, step.now);
    case Replace(candidate) => ReplaceKeepsMempool(c, s, candidate, step.now);
  }

  lemma {:induction false} ChainAfterAdd(c: Crypto, s: Node, tx: Tx)
    ensures AddTransaction(c, s, tx).node.chain == s.chain
  {
    hide CheckTx, RecentIds;
  }

  /** No step of the run lets a confirmed payment back into the mempool. */
  ghost predicate NeverReenters(c: Crypto, start: Node, steps: seq<Step>)
    requires start.chain != []
  {
    steps == [] ||
    var n := |steps| - 1;
    NeverReenters(c, start, steps[..n]) && NoReentry(Run(c, start, steps[..n]), steps[n])
  }

  /** The invariant held at every moment of the run. */
  ghost predicate AlwaysInv(c: Crypto, start: Node, clock: int, steps: seq<Step>)
    requires start.chain != []
  {
    && Inv(c, Run(c, start, steps), ClockAfter(clock, steps))
    && (steps != [] ==> AlwaysInv(c, start, clock, steps[..|steps| - 1]))
  }

  /**
   Over any run with a rising clock that adopts only chains above the true genesis, with any coinbases: the chain
   validates from scratch and the mempool holds at most 5,000 distinct non-coinbase transactions, none confirmed
   anywhere in the chain, at every moment; if and only if no confirmed payment whose inputs are all back is added.
   */
  lemma {:induction false} RunKeepsInvIff(c: Crypto, start: Node, clock: int, steps: seq<Step>)
    requires c.TxIdsInjective() && start.chain != [] && Inv(c, start, clock) && Rising(clock, steps)
    requires HoldsGenesis(c, start, steps)
    ensures AlwaysInv(c, start, clock, steps) <==> NeverReenters(c, start, steps)
  {
    hide Inv, Perform, HoldsGenesis, NoReentry;
    if steps != [] {
      var n := |steps| - 1;
      HoldsGenesisBefore(c, start, steps);
      HoldsGenesisNow(c, start, steps);
      RunKeepsInvIff(c, start, clock, steps[..n]);
      if AlwaysInv(c, start, clock, steps[..n]) {
        StepKeepsInvIff(c, Run(c, start, steps[..n]), ClockAfter(clock, steps[..n]), steps[n]);
      }
    }
  }

  lemma {:induction false} HoldsGenesisNow(c: Crypto, start: Node, steps: seq<Step>)
    requires start.chain != [] && HoldsGenesis(c, start, steps)
    ensures Run(c, start, steps).chain[0] == Genesis(c)
  {
    hide Run;
    assert steps[..|steps|] == steps;
  }

  /** Where the coinbase txids of the chain are distinct, nothing can re-enter. */
  lemma {:induction false} DistinctNeverReenters(c: Crypto, s: Node, now: int, tx: Tx)
    requires Settled(c, s, now) && DistinctCoinbases(s.chain)
    ensures !Reenters(s, tx)
  {
    hide Validated, MempoolOk, Sound, AddTransaction, Reenters, DistinctCoinbases, HeadersOk, BodiesOk;
    ValidatedFacts(c, s.chain, now);
    AddKeeps(c, s, tx);
    AddKeepsUnlessReentry(c, s, now, tx);
  }

  /** Every chain that the node holds has distinct coinbase txids; nothing is asked of what it refuses. */
  ghost predicate HoldsDistinctCoinbases(c: Crypto, start: Node, steps: seq<Step>)
    requires start.chain != []
  {
    forall n :: 0 <= n <= |steps| ==> DistinctCoinbases(Run(c, start, steps[..n]).chain)
  }

  lemma {:induction false} HoldsDistinctBefore(c: Crypto, start: Node, steps: seq<Step>)
    requires start.chain != [] && steps != [] && HoldsDistinctCoinbases(c, start, steps)
    ensures HoldsDistinctCoinbases(c, start, steps[..|steps| - 1])
    ensures DistinctCoinbases(Run(c, start, steps[..|steps| - 1]).chain)
  {
    hide Run, DistinctCoinbases;
    var front := steps[..|steps| - 1];
    forall n | 0 <= n <= |front| ensures DistinctCoinbases(Run(c, start, front[..n]).chain) {
      assert front[..n] == steps[..n];
    }
    assert front[..|front|] == front;
  }

  /** Distinct coinbases in every chain that the node holds are enough for the invariant at every moment. */
  lemma {:induction false} RunKeepsInv(c: Crypto, start: Node, clock: int, steps: seq<Step>)
    requires c.TxIdsInjective() && start.chain != [] && Inv(c, start, clock) && Rising(clock, steps)
    requires HoldsGenesis(c, start, steps) && HoldsDistinctCoinbases(c, start, steps)
    ensures AlwaysInv(c, start, clock, steps)
  {
    hide Validated, MempoolOk, Perform, HoldsGenesis, HoldsDistinctCoinbases, Reenters, DistinctCoinbases;
    if steps != [] {
      var n := |steps| - 1;
      HoldsGenesisBefore(c, start, steps);
      HoldsGenesisNow(c, start, steps);
      HoldsDistinctBefore(c, start, steps);
      RunKeepsInv(c, start, clock, steps[..n]);
      if steps[n].action.Add? {
        DistinctNeverReenters(c, Run(c, start, steps[..n]), ClockAfter(clock, steps[..n]), steps[n].action.tx);
      }
      StepKeepsInvIff(c, Run(c, start, steps[..n]), ClockAfter(clock, steps[..n]), steps[n]);
    }
  }

  lemma {:induction false} FirstNodeInv(c: Crypto, now: int)
    ensures Inv(c, FirstNode(c), now)
  {
    hide Validated;
    GenesisIsValidated(c, now);
  }

  /** From a first start: the invariant holds at every moment if and only if no confirmed payment re-enters. */
  lemma {:induction false} FirstRunKeepsInvIff(c: Crypto, clock: int, steps: seq<Step>)
    requires c.TxIdsInjective() && Rising(clock, steps) && HoldsGenesis(c, FirstNode(c), steps)
    ensures AlwaysInv(c, FirstNode(c), clock, steps) <==> NeverReenters(c, FirstNode(c), steps)
  {
    hide Inv, HoldsGenesis;
    FirstNodeInv(c, clock);
    RunKeepsInvIff(c, FirstNode(c), clock, steps);
  }

  // What is pending

  /** What a step drops from the mempool the chain confirms afterwards; nothing is lost in any other way. */
  lemma {:induction false} StepDropsOnlyConfirmed(c: Crypto, s: Node, step: Step, tx: Tx)
    requires s.chain != [] && tx in s.mempool && tx !in Perform(c, s, step).mempool
    ensures tx.txid in ChainIds(Perform(c, s, step).chain)
  {
    hide CheckTx, CheckChain, CheckBlock, BuildUtxos, AddTransaction, ReplaceChain, SubmitBlock, Without, Takes;
    match step.action
    case Add(other) => AddIff(c, s, other);
    case Submit(block) => SubmitDrops(c, s, block, step.now, tx);
    case Replace(candidate) => ReplaceDrops(c, s, candidate, step.now, tx);
  }

  lemma {:induction false} SubmitDrops(c: Crypto, s: Node, block: Block, now: int, tx: Tx)
    requires s.chain != [] && tx in s.mempool && tx !in SubmitBlock(c, s, block, now).node.mempool
    ensures tx.txid in ChainIds(SubmitBlock(c, s, block, now).node.chain)
  {
    hide CheckBlock, BuildUtxos, SubmitBlock;
    var after := SubmitBlock(c, s, block, now).node;
    var at := SubmitLeaves(c, s, block, now);
    var j :| 0 <= j < |s.mempool| && s.mempool[j] == tx;
    if CheckBlock(c, block, s.chain, BuildUtxos(s.chain), now).Ok? {
      PickedAreIn(after.mempool, s.mempool, at);
      var i :| 1 <= i < |block.transactions| && block.transactions[i].txid == tx.txid;
      assert after.chain[|s.chain|].transactions[i].txid == tx.txid;
    }
  }

  lemma {:induction false} ReplaceDrops(c: Crypto, s: Node, candidate: seq<Block>, now: int, tx: Tx)
    requires s.chain != [] && tx in s.mempool && tx !in ReplaceChain(c, s, candidate, now).node.mempool
    ensures tx.txid in ChainIds(ReplaceChain(c, s, candidate, now).node.chain)
  {
    hide CheckChain, ChainWork, AddAll, Orphans, ChainIds, TakenInTurn, Without;
    AddAllKeepsChainOfReplace(c, s, candidate, now);
    if ReplaceChain(c, s, candidate, now).result == Ok(true) {
      var chain := CheckChain(c, candidate, now).value.chain;
      var reset := Node(chain, Without(s.mempool, ChainIds(chain)));
      WithoutKeeps(s.mempool, ChainIds(chain));
      AddAllExtends(c, reset, Orphans(s.chain, ChainIds(chain)));
    }
  }

  lemma {:induction false} AddAllExtends(c: Crypto, s: Node, txs: seq<Tx>)
    ensures s.mempool <= AddAll(c, s, txs).mempool
    ensures forall tx :: tx in AddAll(c, s, txs).mempool && tx !in s.mempool ==> tx in txs
  {
    hide Takes, AddAll;
    var at := AddAllTakes(c, s, txs);
    var after, m := AddAll(c, s, txs).mempool, |s.mempool|;
    PickedAreIn(after[m..], txs, at);
    assert after == after[..m] + after[m..] && after[..m] == s.mempool;
  }

  /** A pending payment stays pending until the chain that the node holds confirms it. */
  lemma {:induction false} PendingUntilConfirmed(c: Crypto, start: Node, steps: seq<Step>, i: nat, j: nat, tx: Tx)
    returns (k: nat)
    requires start.chain != [] && i <= j <= |steps| && tx in Run(c, start, steps[..i]).mempool
    ensures || tx in Run(c, start, steps[..j]).mempool
            || (i < k <= j && tx.txid in ChainIds(Run(c, start, steps[..k]).chain))
    decreases j - i
  {
    hide Perform, ChainIds;
    k := j;
    if i < j {
      k := PendingUntilConfirmed(c, start, steps, i, j - 1, tx);
      assert steps[..j][..j - 1] == steps[..j - 1];
      if tx in Run(c, start, steps[..j - 1]).mempool && tx !in Run(c, start, steps[..j]).mempool {
        StepDropsOnlyConfirmed(c, Run(c, start, steps[..j - 1]), steps[j - 1], tx);
        k := j;
      }
    }
  }

  /** A payment becomes pending by being added, or by a reorganization off a chain that confirmed it. */
  lemma {:induction false} StepAddsOnly(c: Crypto, s: Node, step: Step, tx: Tx)
    requires s.chain != [] && tx !in s.mempool && tx in Perform(c, s, step).mempool
    ensures || (step.action == Add(tx) && Takes(c, s.chain, s.mempool, tx))
            || (step.action.Replace? && Confirmed(s.chain, tx)
                && tx.txid !in ChainIds(Perform(c, s, step).chain))
  {
    hide CheckTx, CheckChain, CheckBlock, BuildUtxos, AddTransaction, ReplaceChain, SubmitBlock, Without, Takes,
         Confirmed, ChainIds;
    match step.action
    case Add(other) => AddIff(c, s, other);
    case Submit(block) => SubmitAddsNothing(c, s, block, step.now);
    case Replace(candidate) => ReplaceAdds(c, s, candidate, step.now, tx);
  }

  lemma {:induction false} SubmitAddsNothing(c: Crypto, s: Node, block: Block, now: int)
    requires s.chain != []
    ensures forall tx :: tx in SubmitBlock(c, s, block, now).node.mempool ==> tx in s.mempool
  {
    hide CheckBlock, BuildUtxos, SubmitBlock;
    var at := SubmitLeaves(c, s, block, now);
  }

  lemma {:induction false} ReplaceAdds(c: Crypto, s: Node, candidate: seq<Block>, now: int, tx: Tx)
    requires s.chain != [] && tx !in s.mempool && tx in ReplaceChain(c, s, candidate, now).node.mempool
    ensures Confirmed(s.chain, tx) && tx.txid !in ChainIds(ReplaceChain(c, s, candidate, now).node.chain)
  {
    hide CheckChain, ChainWork, AddAll, Orphans, ChainIds, TakenInTurn, Without, Confirmed;
    AddAllKeepsChainOfReplace(c, s, candidate, now);
    if ReplaceChain(c, s, candidate, now).result == Ok(true) {
      var chain := CheckChain(c, candidate, now).value.chain;
      var reset := Node(chain, Without(s.mempool, ChainIds(chain)));
      WithoutKeeps(s.mempool, ChainIds(chain));
      AddAllExtends(c, reset, Orphans(s.chain, ChainIds(chain)));
      Reorg.OrphansAreConfirmed(s.chain, ChainIds(chain));
    }
  }

  /** `_load`: block 0 of the stored chain must have the genesis hash; without files it is a new node. */
  lemma {:induction false} LoadedIff(c: Crypto, chainFile: Option<seq<Block>>, mempoolFile: Option<seq<Tx>>)
    ensures var r := Loaded(c, chainFile, mempoolFile);
            && (r.Ok? <==> chainFile.Some? ==>
                             chainFile.value != [] && chainFile.value[0].hash == Some(GenesisHash(c)))
            && (r.Err? ==> r == Err(GenesisMismatch))
            && (r.Ok? ==> && r.value.chain == (match chainFile case None => [Genesis(c)] case Some(chain) => chain)
                          && r.value.mempool == (match mempoolFile case None => [] case Some(txs) => txs))
  {
  }

  // Supply over runs

  /**
   After any run from genesis with a rising clock that ends above the true genesis, the rebuilt UTXO set is never
   worth more than the schedule has issued, with any hashes and coinbases; and exactly that where no txid occurs in
   two blocks of the chain.
   */
  lemma {:induction false} SupplyAfterRun(c: Crypto, clock: int, steps: seq<Step>)
    requires Rising(clock, steps) && (GenesisBound(c) || HoldsGenesis(c, FirstNode(c), steps))
    requires Run(c, FirstNode(c), steps).chain[0] == Genesis(c)
    ensures var chain := Run(c, FirstNode(c), steps).chain;
            && Total(BuildUtxos(chain)) <= Consensus.Issued(|chain| - 1) <= Consensus.MAX_SUPPLY
            && (Conservation.BlocksShareNoTxid(chain) ==> Total(BuildUtxos(chain)) == Consensus.Issued(|chain| - 1))
  {
    hide From, BuildUtxos, Run, HeaderOk, Total, Consensus.Issued, Conservation.BlocksShareNoTxid;
    GenesisIsValidated(c, clock);
    FirstNodeHeaders(c);
    RunKeepsValidated(c, FirstNode(c), clock, steps);
    var chain, now := Run(c, FirstNode(c), steps).chain, ClockAfter(clock, steps);
    var raw :| From(c, raw, chain, now);
    Conservation.RebuiltSupply(c, raw, chain, now);
  }

  /** With injective txids and distinct coinbases no txid occurs twice, so the supply is exactly the schedule. */
  lemma {:induction false} ExactSupplyAfterRun(c: Crypto, clock: int, steps: seq<Step>)
    requires c.TxIdsInjective() && Rising(clock, steps) && (GenesisBound(c) || HoldsGenesis(c, FirstNode(c), steps))
    requires var chain := Run(c, FirstNode(c), steps).chain; chain[0] == Genesis(c) && DistinctCoinbases(chain)
    ensures var chain := Run(c, FirstNode(c), steps).chain; Total(BuildUtxos(chain)) == Consensus.Issued(|chain| - 1)
  {
    hide CheckChain, BuildUtxos, Run, HeaderOk, Total, Consensus.Issued, Conservation.BlocksShareNoTxid,
         DistinctCoinbases, Within;
    GenesisIsValidated(c, clock);
    FirstNodeHeaders(c);
    RunKeepsValidated(c, FirstNode(c), clock, steps);
    var chain, now := Run(c, FirstNode(c), steps).chain, ClockAfter(clock, steps);
    var raw :| From(c, raw, chain, now);
    GenesisOfAcceptedChain(c, raw, now);
    Conservation.DistinctCoinbasesShareNoTxid(c, raw, now);
    Conservation.SameBodies(c, raw, now);
    SupplyAfterRun(c, clock, steps);
  }
}
