/** `PeerSyncManager`: the batched download, the extend path and the fetch-and-replace path. */
module Sync {
  import opened Prelude
  import opened Types
  import opened Blocks
  import opened Mempool
  import opened Operations
  import opened Runs
  import opened StateMachine
  import opened Work
  import Replay

  const P2P_BLOCK_BATCH := 100

  /** A peer's answer to a request for `limit` blocks from a height; None when the request fails. */
  type Peer = (int, int) -> Option<seq<Block>>

  // The operations

  /** `_fetch_chain` from height `start` on. */
  function Fetch(peer: Peer, remoteHeight: int, start: nat, chain: seq<Block>): Result<seq<Block>>
    decreases remoteHeight + 1 - start
  {
    if start > remoteHeight then
      if chain == [] || chain[|chain| - 1].header.height != remoteHeight then Err(WrongDownloadHeight) else Ok(chain)
    else
      match peer(start, Min(P2P_BLOCK_BATCH, remoteHeight - start + 1))
      case None => Err(RequestFailed)
      case Some(blocks) =>
        if blocks == [] then Err(NoBlocks) else Fetch(peer, remoteHeight, start + |blocks|, chain + blocks)
  }

  /** The received blocks submitted in turn, the one for height h at time `clock(h)`; the first rejection ends it. */
  function SubmitFrom(c: Crypto, s: Node, blocks: seq<Block>, i: nat, clock: int -> int): (o: Outcome<bool>)
    requires s.chain != [] && i <= |blocks|
    ensures o.node.chain != []
    decreases |blocks| - i
  {
    if i == |blocks| then Outcome(s, Ok(true))
    else
      var o := SubmitBlock(c, s, blocks[i], clock(|s.chain|));
      if o.result.Err? then Outcome(o.node, Err(o.result.error))
      else SubmitFrom(c, o.node, blocks, i + 1, clock)
  }

  /** The download loop of the extend path. */
  function Extend(c: Crypto, s: Node, peer: Peer, remoteHeight: int, start: int, clock: int -> int): (o: Outcome<bool>)
    requires s.chain != []
    ensures o.node.chain != []
    decreases remoteHeight + 1 - start
  {
    if start > remoteHeight then Outcome(s, Ok(true))
    else
      match peer(start, P2P_BLOCK_BATCH)
      case None => Outcome(s, Err(RequestFailed))
      case Some(blocks) =>
        if blocks == [] then Outcome(s, Err(NoBlocks))
        else
          var o := SubmitFrom(c, s, blocks, 0, clock);
          if o.result.Err? then o else Extend(c, o.node, peer, remoteHeight, start + |blocks|, clock)
  }

  /** Whether the peer's chain continues the local tip. */
  predicate CanIncrement(s: Node, peer: Peer, remoteHeight: int)
    requires s.chain != []
  {
    var tip := s.chain[|s.chain| - 1];
    remoteHeight > tip.header.height &&
    match peer(tip.header.height, 1)
    case None => false
    case Some(blocks) => blocks != [] && blocks[0].hash == tip.hash
  }

  /** The blocks part of `_sync_from_peer`; the replacement is validated at time `clock(0)`. */
  function SyncBlocks(c: Crypto, s: Node, peer: Peer, remoteHeight: int, clock: int -> int): Outcome<bool>
    requires s.chain != []
  {
    if CanIncrement(s, peer, remoteHeight) then
      Extend(c, s, peer, remoteHeight, s.chain[|s.chain| - 1].header.height + 1, clock)
    else
      match Fetch(peer, remoteHeight, 0, [])
      case Err(e) => Outcome(s, Err(e))
      case Ok(candidate) => ReplaceChain(c, s, candidate, clock(0))
  }

  /** `_sync_from_peer`: nothing to do on equal tips, else the blocks, then the peer's pending transactions. */
  function SyncFromPeer(c: Crypto, s: Node, peer: Peer, pending: seq<Tx>, remoteHeight: int, remoteTip: Option<Hash>,
                        clock: int -> int): Outcome<bool>
    requires s.chain != []
  {
    var tip := s.chain[|s.chain| - 1];
    if remoteHeight == tip.header.height && remoteTip == tip.hash then Outcome(s, Ok(false))
    else
      var o := SyncBlocks(c, s, peer, remoteHeight, clock);
      if o.result.Err? then o else Outcome(AddAll(c, o.node, pending), Ok(true))
  }

  class PeerSyncManager {
    const state: ChainState
    const peer: Peer

    constructor (state: ChainState, peer: Peer)
      ensures this.state == state && this.peer == peer
    {
      this.state := state;
      this.peer := peer;
    }

    /** Terminates for any peer: every answer that does not end the download brings at least one block. */
    method FetchChain(remoteHeight: int) returns (r: Result<seq<Block>>)
      ensures r == Fetch(peer, remoteHeight, 0, [])
    {
      var chain: seq<Block>, start: nat := [], 0;
      while start <= remoteHeight
        invariant Fetch(peer, remoteHeight, 0, []) == Fetch(peer, remoteHeight, start, chain)
        decreases remoteHeight + 1 - start
      {
        var limit := Min(P2P_BLOCK_BATCH, remoteHeight - start + 1);
        var answer := peer(start, limit);
        if answer.None? {
          return Err(RequestFailed);
        }
        if answer.value == [] {
          return Err(NoBlocks);
        }
        chain := chain + answer.value;
        start := start + |answer.value|;
      }
      if chain == [] || chain[|chain| - 1].header.height != remoteHeight {
        return Err(WrongDownloadHeight);
      }
      return Ok(chain);
    }

    /** The extend path; blocks accepted before a failure stay. */
    method ExtendFrom(first: int, remoteHeight: int, clock: int -> int) returns (r: Result<bool>)
      requires state.chain != []
      modifies state
      ensures Outcome(state.Value(), r) == Extend(state.c, old(state.Value()), peer, remoteHeight, first, clock)
    {
      hide SubmitBlock;
      var start := first;
      while start <= remoteHeight
        invariant state.chain != []
        invariant Extend(state.c, old(state.Value()), peer, remoteHeight, first, clock)
               == Extend(state.c, state.Value(), peer, remoteHeight, start, clock)
        decreases remoteHeight + 1 - start
      {
        var answer := peer(start, P2P_BLOCK_BATCH);
        if answer.None? {
          return Err(RequestFailed);
        }
        var blocks := answer.value;
        if blocks == [] {
          return Err(NoBlocks);
        }
        var submitted := SubmitBlocks(blocks, clock);
        if submitted.Err? {
          return submitted;
        }
        start := start + |blocks|;
      }
      return Ok(true);
    }

    method SubmitBlocks(blocks: seq<Block>, clock: int -> int) returns (r: Result<bool>)
      requires state.chain != []
      modifies state
      ensures Outcome(state.Value(), r) == SubmitFrom(state.c, old(state.Value()), blocks, 0, clock)
      ensures state.chain != []
    {
      ghost var before := state.Value();
      for i := 0 to |blocks|
        invariant state.chain != []
        invariant SubmitFrom(state.c, before, blocks, 0, clock) == SubmitFrom(state.c, state.Value(), blocks, i, clock)
      {
        SubmitKeepsBlocks(state.c, state.Value(), blocks[i], clock(|state.chain|));
        hide SubmitBlock;
        var accepted := state.SubmitBlock(blocks[i], clock(|state.chain|));
        if accepted.Err? {
          return Err(accepted.error);
        }
      }
      return Ok(true);
    }

    method SyncOnce(pending: seq<Tx>, remoteHeight: int, remoteTip: Option<Hash>, clock: int -> int)
      returns (r: Result<bool>)
      requires state.chain != []
      modifies state
      ensures var before := old(state.Value());
              Outcome(state.Value(), r)
              == SyncFromPeer(state.c, before, peer, pending, remoteHeight, remoteTip, clock)
    {
      hide ReplaceChain, Extend, Fetch, AddAll;
      var tip := state.chain[|state.chain| - 1];
      if remoteHeight == tip.header.height && remoteTip == tip.hash {
        return Ok(false);
      }
      var canIncrement := false;
      if remoteHeight > tip.header.height {
        var anchor := peer(tip.header.height, 1);
        canIncrement := anchor.Some? && anchor.value != [] && anchor.value[0].hash == tip.hash;
      }
      if canIncrement {
        var extended := ExtendFrom(tip.header.height + 1, remoteHeight, clock);
        if extended.Err? {
          return extended;
        }
      } else {
        var candidate := FetchChain(remoteHeight);
        if candidate.Err? {
          return Err(candidate.error);
        }
        var replaced := state.ReplaceChain(candidate.value, clock(0));
        if replaced.Err? {
          return replaced;
        }
      }
      state.OfferAll(pending);
      return Ok(true);
    }
  }

  lemma {:induction false} SubmitKeepsBlocks(c: Crypto, s: Node, block: Block, now: int)
    requires s.chain != []
    ensures SubmitBlock(c, s, block, now).node.chain != []
  {
    hide CheckBlock, Without, IdSet;
  }

  // Any peer: what is asked and what becomes of the answers

  /** How many blocks a request asks for: a hundred, or what is missing if only that is wanted. */
  function Limit(from: int, to: int, whole: bool): int {
    if whole || to - from >= 100 then 100 else to - from + 1
  }

  /** The peer's answers to one request after the other, each for what comes after the last, all with blocks in them. */
  ghost predicate Answered(peer: Peer, from: int, to: int, whole: bool, batches: seq<seq<Block>>)
    decreases |batches|
  {
    batches == [] ||
    (&& from <= to && peer(from, Limit(from, to, whole)) == Some(batches[0]) && batches[0] != []
     && Answered(peer, from + |batches[0]|, to, whole, batches[1..]))
  }

  function Joined(batches: seq<seq<Block>>): seq<Block> {
    if batches == [] then [] else batches[0] + Joined(batches[1..])
  }

  lemma {:induction false} NoAnswers(peer: Peer, from: int, to: int, whole: bool)
    ensures Answered(peer, from, to, whole, []) && Joined([]) == []
  {
  }

  lemma {:induction false} OneMoreAnswer(peer: Peer, from: int, to: int, whole: bool, blocks: seq<Block>,
                                         rest: seq<seq<Block>>)
    requires from <= to && peer(from, Limit(from, to, whole)) == Some(blocks) && blocks != []
    requires Answered(peer, from + |blocks|, to, whole, rest)
    ensures Answered(peer, from, to, whole, [blocks] + rest) && Joined([blocks] + rest) == blocks + Joined(rest)
  {
    assert ([blocks] + rest)[1..] == rest;
  }

  /** The request that a download ended on: not answered, or answered without blocks. */
  ghost predicate Refused(peer: Peer, from: int, to: int, whole: bool, e: Error) {
    match peer(from, Limit(from, to, whole))
    case None => e == RequestFailed
    case Some(blocks) => blocks == [] && e == NoBlocks
  }

  /**
   The download from any peer: the answers joined, if they reach the height wanted and the last block has it; else the
   first request that failed, or a wrong last height.
   */
  lemma {:induction false} FetchJoinsAnswers(peer: Peer, remoteHeight: int, start: nat, chain: seq<Block>)
    returns (batches: seq<seq<Block>>)
    ensures Answered(peer, start, remoteHeight, false, batches)
    ensures var next, all := start + |Joined(batches)|, chain + Joined(batches);
            match Fetch(peer, remoteHeight, start, chain)
            case Ok(r) => next > remoteHeight && r == all && r != [] && r[|r| - 1].header.height == remoteHeight
            case Err(e) =>
              if next <= remoteHeight then Refused(peer, next, remoteHeight, false, e)
              else e == WrongDownloadHeight && (all != [] ==> all[|all| - 1].header.height != remoteHeight)
    decreases remoteHeight + 1 - start
  {
    hide Answered, Joined;
    batches := [];
    NoAnswers(peer, start, remoteHeight, false);
    assert chain + [] == chain;
    if start <= remoteHeight {
      var answer := peer(start, Min(P2P_BLOCK_BATCH, remoteHeight - start + 1));
      if answer.Some? && answer.value != [] {
        var rest := FetchJoinsAnswers(peer, remoteHeight, start + |answer.value|, chain + answer.value);
        batches := [answer.value] + rest;
        OneMoreAnswer(peer, start, remoteHeight, false, answer.value, rest);
        assert chain + (answer.value + Joined(rest)) == chain + answer.value + Joined(rest);
      }
    }
  }

  lemma {:induction false} SubmitJoined(c: Crypto, s: Node, a: seq<Block>, b: seq<Block>, i: nat, clock: int -> int)
    requires s.chain != [] && i <= |a|
    ensures var first := SubmitFrom(c, s, a, i, clock);
            SubmitFrom(c, s, a + b, i, clock)
            == if first.result.Err? then first else SubmitFrom(c, first.node, b, 0, clock)
    decreases |a| - i
  {
    hide SubmitBlock;
    if i < |a| {
      var o := SubmitBlock(c, s, a[i], clock(|s.chain|));
      SubmitKeepsBlocks(c, s, a[i], clock(|s.chain|));
      if o.result.Ok? {
        SubmitJoined(c, o.node, a, b, i + 1, clock);
      }
    } else {
      SubmitShifted(c, s, a, b, 0, clock);
    }
  }

  lemma {:induction false} SubmitShifted(c: Crypto, s: Node, a: seq<Block>, b: seq<Block>, i: nat, clock: int -> int)
    requires s.chain != [] && i <= |b|
    ensures SubmitFrom(c, s, a + b, |a| + i, clock) == SubmitFrom(c, s, b, i, clock)
    decreases |b| - i
  {
    hide SubmitBlock;
    if i < |b| {
      var o := SubmitBlock(c, s, b[i], clock(|s.chain|));
      SubmitKeepsBlocks(c, s, b[i], clock(|s.chain|));
      if o.result.Ok? {
        SubmitShifted(c, o.node, a, b, i + 1, clock);
      }
    }
  }

  lemma {:induction false} NothingSubmitted(c: Crypto, s: Node, clock: int -> int)
    requires s.chain != []
    ensures SubmitFrom(c, s, [], 0, clock) == Outcome(s, Ok(true))
  {
  }

  /**
   The extend path with any peer: the answers are submitted block by block, one after the other. It completes if none is
   rejected and they reach the height wanted; else it ends on the rejection or on the first request that failed.
   */
  lemma {:induction false} ExtendSubmitsAnswers(c: Crypto, s: Node, peer: Peer, remoteHeight: int, from: int,
                                                clock: int -> int)
    returns (batches: seq<seq<Block>>)
    requires s.chain != []
    ensures Answered(peer, from, remoteHeight, true, batches)
    ensures var next, t := from + |Joined(batches)|, SubmitFrom(c, s, Joined(batches), 0, clock);
            var o := Extend(c, s, peer, remoteHeight, from, clock);
            && o.node == t.node
            && if t.result.Err? then o == t
               else if next > remoteHeight then o.result == Ok(true)
               else o.result.Err? && Refused(peer, next, remoteHeight, true, o.result.error)
    decreases remoteHeight + 1 - from
  {
    hide SubmitFrom, Answered, Joined;
    batches := [];
    NoAnswers(peer, from, remoteHeight, true);
    NothingSubmitted(c, s, clock);
    if from <= remoteHeight {
      var answer := peer(from, P2P_BLOCK_BATCH);
      if answer.Some? && answer.value != [] {
        var o := SubmitFrom(c, s, answer.value, 0, clock);
        var rest: seq<seq<Block>> := [];
        NoAnswers(peer, from + |answer.value|, remoteHeight, true);
        if o.result.Ok? {
          rest := ExtendSubmitsAnswers(c, o.node, peer, remoteHeight, from + |answer.value|, clock);
        }
        batches := [answer.value] + rest;
        OneMoreAnswer(peer, from, remoteHeight, true, answer.value, rest);
        SubmitJoined(c, s, answer.value, Joined(rest), 0, clock);
      }
    }
  }

  // Any peer: a sync is a run of locked steps

  lemma {:induction false} RunAppend(c: Crypto, s: Node, first: seq<Step>, second: seq<Step>)
    requires s.chain != []
    ensures Run(c, s, first + second) == Run(c, Run(c, s, first), second)
  {
    hide Perform;
    if second == [] {
      assert first + second == first;
    } else {
      var n := |second| - 1;
      RunAppend(c, s, first, second[..n]);
      assert (first + second)[..|first| + n] == first + second[..n];
    }
  }

  lemma {:induction false} OneStep(c: Crypto, s: Node, step: Step)
    requires s.chain != []
    ensures Run(c, s, [step]) == Perform(c, s, step)
  {
    hide Perform;
    assert [step][..0] == [];
  }

  lemma {:induction false} NoSteps(c: Crypto, s: Node)
    requires s.chain != []
    ensures Run(c, s, []) == s
  {
  }

  lemma {:induction false} RisingAppend(start: int, first: seq<Step>, second: seq<Step>)
    requires Rising(start, first) && Rising(ClockAfter(start, first), second)
    ensures Rising(start, first + second)
    ensures ClockAfter(start, first + second) == ClockAfter(ClockAfter(start, first), second)
  {
    if second == [] {
      assert first + second == first;
    } else {
      var n := |second| - 1;
      RisingAppend(start, first, second[..n]);
      assert (first + second)[..|first| + n] == first + second[..n];
    }
  }

  /** A later block is submitted no earlier. */
  ghost predicate Steady(clock: int -> int) {
    forall h, k :: h <= k ==> clock(h) <= clock(k)
  }

  /** Steps from `s` to `t` whose times rise from `start` and end no later than the clock does at `t`. */
  ghost predicate Timed(clock: int -> int, start: int, s: Node, steps: seq<Step>, t: Node) {
    Steady(clock) && start <= clock(|s.chain|) ==>
      Rising(start, steps) && ClockAfter(start, steps) <= clock(|t.chain|)
  }

  lemma {:induction false} OneStepTimed(clock: int -> int, start: int, s: Node, step: Step, t: Node)
    requires step.now == clock(|s.chain|) && |s.chain| <= |t.chain|
    ensures Timed(clock, start, s, [step], t)
  {
    assert [step][..0] == [];
  }

  lemma {:induction false} TimedAppend(clock: int -> int, start: int, s: Node, first: seq<Step>, t: Node,
                                       second: seq<Step>, u: Node)
    requires Timed(clock, start, s, first, t) && Timed(clock, ClockAfter(start, first), t, second, u)
    ensures Timed(clock, start, s, first + second, u)
  {
    if Steady(clock) && start <= clock(|s.chain|) {
      RisingAppend(start, first, second);
    }
  }

  lemma {:induction false} SubmittedLength(c: Crypto, s: Node, block: Block, now: int)
    requires s.chain != []
    ensures |s.chain| <= |SubmitBlock(c, s, block, now).node.chain|
  {
    hide CheckBlock, Without, IdSet;
  }

  lemma {:induction false} SubmitsAreRun(c: Crypto, s: Node, blocks: seq<Block>, i: nat, clock: int -> int, start: int)
    returns (steps: seq<Step>)
    requires s.chain != [] && i <= |blocks|
    ensures var t := SubmitFrom(c, s, blocks, i, clock).node; Run(c, s, steps) == t && Timed(clock, start, s, steps, t)
    decreases |blocks| - i
  {
    hide SubmitBlock, Run;
    steps := [];
    NoSteps(c, s);
    if i < |blocks| {
      var step := Step(Submit(blocks[i]), clock(|s.chain|));
      var t := Perform(c, s, step);
      OneStep(c, s, step);
      SubmittedLength(c, s, blocks[i], clock(|s.chain|));
      OneStepTimed(clock, start, s, step, t);
      steps := [step];
      if SubmitBlock(c, s, blocks[i], clock(|s.chain|)).result.Ok? {
        var rest := SubmitsAreRun(c, t, blocks, i + 1, clock, ClockAfter(start, [step]));
        RunAppend(c, s, [step], rest);
        TimedAppend(clock, start, s, [step], t, rest, SubmitFrom(c, s, blocks, i, clock).node);
        steps := [step] + rest;
      }
    }
  }

  lemma {:induction false} ExtendIsRun(c: Crypto, s: Node, peer: Peer, remoteHeight: int, from: int, clock: int -> int,
                                       start: int)
    returns (steps: seq<Step>)
    requires s.chain != []
    ensures var t := Extend(c, s, peer, remoteHeight, from, clock).node;
            Run(c, s, steps) == t && Timed(clock, start, s, steps, t)
    decreases remoteHeight + 1 - from
  {
    hide SubmitFrom, Run;
    steps := [];
    NoSteps(c, s);
    if from <= remoteHeight {
      var answer := peer(from, P2P_BLOCK_BATCH);
      if answer.Some? && answer.value != [] {
        steps := SubmitsAreRun(c, s, answer.value, 0, clock, start);
        var o := SubmitFrom(c, s, answer.value, 0, clock);
        if o.result.Ok? {
          var next := from + |answer.value|;
          var rest := ExtendIsRun(c, o.node, peer, remoteHeight, next, clock, ClockAfter(start, steps));
          RunAppend(c, s, steps, rest);
          TimedAppend(clock, start, s, steps, o.node, rest, Extend(c, s, peer, remoteHeight, from, clock).node);
          steps := steps + rest;
        }
      }
    }
  }

  lemma {:induction false} AddsAreRun(c: Crypto, s: Node, txs: seq<Tx>, now: int, start: int) returns (steps: seq<Step>)
    requires s.chain != []
    ensures Run(c, s, steps) == AddAll(c, s, txs)
    ensures start <= now ==> Rising(start, steps) && ClockAfter(start, steps) <= now
  {
    hide AddTransaction;
    steps := [];
    if txs != [] {
      var n := |txs| - 1;
      var before := AddsAreRun(c, s, txs[..n], now, start);
      steps := before + [Step(Add(txs[n]), now)];
      assert steps[..|before|] == before;
    }
  }

  lemma {:induction false} BlocksAreRun(c: Crypto, s: Node, peer: Peer, remoteHeight: int, clock: int -> int,
                                        start: int)
    returns (steps: seq<Step>)
    requires s.chain != []
    ensures var t := SyncBlocks(c, s, peer, remoteHeight, clock).node;
            && t.chain != [] && Run(c, s, steps) == t
            && (Steady(clock) && start <= clock(0) ==>
                  Rising(start, steps) && ClockAfter(start, steps) <= clock(|t.chain|))
  {
    hide ReplaceChain, Extend, Fetch, Run, Rising;
    steps := [];
    NoSteps(c, s);
    NoTime(start);
    if CanIncrement(s, peer, remoteHeight) {
      steps := ExtendIsRun(c, s, peer, remoteHeight, s.chain[|s.chain| - 1].header.height + 1, clock, start);
    } else {
      var candidate := Fetch(peer, remoteHeight, 0, []);
      if candidate.Ok? {
        steps := [Step(Replace(candidate.value), clock(0))];
        OneStep(c, s, steps[0]);
        OneTime(start, steps[0]);
      }
    }
  }

  lemma {:induction false} NoTime(start: int)
    ensures Rising(start, [])
  {
  }

  lemma {:induction false} OneTime(start: int, step: Step)
    ensures Rising(start, [step]) <==> start <= step.now
  {
    assert [step][..0] == [];
  }

  /**
   Whatever a peer answers, a sync does nothing but submit, replace and add: it is a run, and one with a rising clock
   when later blocks are submitted no earlier.
   */
  lemma {:induction false} SyncIsRun(c: Crypto, s: Node, peer: Peer, pending: seq<Tx>, remoteHeight: int,
                                     remoteTip: Option<Hash>, clock: int -> int, start: int)
    returns (steps: seq<Step>)
    requires s.chain != []
    ensures var t := SyncFromPeer(c, s, peer, pending, remoteHeight, remoteTip, clock).node;
            && t.chain != [] && Run(c, s, steps) == t
            && (Steady(clock) && start <= clock(0) ==>
                  Rising(start, steps) && ClockAfter(start, steps) <= clock(|t.chain|))
  {
    hide SyncBlocks, AddAll, Run, Rising;
    var tip := s.chain[|s.chain| - 1];
    steps := [];
    NoSteps(c, s);
    NoTime(start);
    if remoteHeight != tip.header.height || remoteTip != tip.hash {
      steps := BlocksAreRun(c, s, peer, remoteHeight, clock, start);
      var o := SyncBlocks(c, s, peer, remoteHeight, clock);
      if o.result.Ok? {
        var adds := AddsAreRun(c, o.node, pending, clock(|o.node.chain|), ClockAfter(start, steps));
        AddAllKeepsChain(c, o.node, pending);
        RunAppend(c, s, steps, adds);
        if Steady(clock) && start <= clock(0) {
          RisingAppend(start, steps, adds);
        }
        steps := steps + adds;
      }
    }
  }

  /**
   What a sync leaves pending. Equal tips leave the node as it is, and so do the offers of a peer whose blocks failed.
   Otherwise the mempool is what the blocks left, then in their order exactly those transactions that are no coinbase,
   unknown, find room under 5,000 and validate against the new chain and what is pending before them.
   */
  lemma {:induction false} SyncOffers(c: Crypto, s: Node, peer: Peer, pending: seq<Tx>, remoteHeight: int,
                                      remoteTip: Option<Hash>, clock: int -> int)
    returns (at: seq<nat>)
    requires s.chain != []
    ensures var tip := s.chain[|s.chain| - 1];
            var blocks := SyncBlocks(c, s, peer, remoteHeight, clock);
            var after := SyncFromPeer(c, s, peer, pending, remoteHeight, remoteTip, clock);
            if remoteHeight == tip.header.height && remoteTip == tip.hash then after == Outcome(s, Ok(false))
            else if blocks.result.Err? then after == blocks
            else && after.result == Ok(true) && after.node.chain == blocks.node.chain
                 && TakenInTurn(c, blocks.node, pending, at, after.node.mempool)
  {
    hide SyncBlocks, AddAll, TakenInTurn;
    at := AddAllTakes(c, SyncBlocks(c, s, peer, remoteHeight, clock).node, pending);
  }

  /** And a sync with any peer drops no pending payment but one that a chain of the node confirms on the way. */
  lemma {:induction false} SyncDropsOnlyConfirmed(c: Crypto, s: Node, peer: Peer, pending: seq<Tx>, remoteHeight: int,
                                                  remoteTip: Option<Hash>, clock: int -> int, tx: Tx)
    returns (steps: seq<Step>, k: nat)
    requires s.chain != [] && tx in s.mempool
    ensures var after := SyncFromPeer(c, s, peer, pending, remoteHeight, remoteTip, clock).node;
            && Run(c, s, steps) == after
            && (tx !in after.mempool ==> k <= |steps| && tx.txid in ChainIds(Run(c, s, steps[..k]).chain))
  {
    hide SyncFromPeer, Run, Rising, ChainIds;
    steps := SyncIsRun(c, s, peer, pending, remoteHeight, remoteTip, clock, 0);
    NoSteps(c, s);
    assert steps[..0] == [] && steps[..|steps|] == steps;
    k := PendingUntilConfirmed(c, s, steps, 0, |steps|, tx);
  }

  /** Hence no peer can make a node lose work, and a sync that changes the chain has gained work. */
  lemma {:induction false} SyncNeverLosesWork(c: Crypto, s: Node, peer: Peer, pending: seq<Tx>, remoteHeight: int,
                                              remoteTip: Option<Hash>, clock: int -> int)
    requires GenesisBound(c) && HeadersOk(c, s.chain)
    ensures var after := SyncFromPeer(c, s, peer, pending, remoteHeight, remoteTip, clock).node.chain;
            && ChainWork(s.chain).Ok? && ChainWork(after).Ok?
            && (after != s.chain ==> ChainWork(after).value > ChainWork(s.chain).value)
  {
    hide HeaderOk, SyncFromPeer, ChainWork, Perform;
    var steps := SyncIsRun(c, s, peer, pending, remoteHeight, remoteTip, clock, 0);
    assert steps[..0] == [] && steps[..|steps|] == steps;
    WorkOverRun(c, s, steps, 0, |steps|);
  }

  /** And after a sync with any peer a chain that validated from scratch still does. */
  lemma {:induction false} SyncKeepsValidated(c: Crypto, s: Node, peer: Peer, pending: seq<Tx>, remoteHeight: int,
                                              remoteTip: Option<Hash>, clock: int -> int, start: int)
    requires GenesisBound(c) && HeadersOk(c, s.chain) && Replay.Validated(c, s.chain, start)
    requires Steady(clock) && start <= clock(0)
    ensures var after := SyncFromPeer(c, s, peer, pending, remoteHeight, remoteTip, clock).node.chain;
            Replay.Validated(c, after, clock(|after|)) && Replay.ReplaysToItself(c, after, clock(|after|))
  {
    hide HeaderOk, SyncFromPeer, Run, Rising, Replay.Validated, Replay.ReplaysToItself;
    var steps := SyncIsRun(c, s, peer, pending, remoteHeight, remoteTip, clock, start);
    var after := Run(c, s, steps).chain;
    RunKeepsValidated(c, s, start, steps);
    Replay.ValidatedLater(c, after, ClockAfter(start, steps), clock(|after|));
    Replay.ValidatedReplays(c, after, clock(|after|), clock(|after|));
  }
}
