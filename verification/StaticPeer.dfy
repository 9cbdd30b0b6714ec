/**
 A peer that serves one chain, block replies above the response cap failing: which downloads complete, and that a
 completed sync with a valid, heavier chain ends with exactly that chain.
 */
module StaticPeer {
  import opened Prelude
  import opened Types
  import opened Blocks
  import opened Headers
  import opened Inclusion
  import opened Operations
  import opened Orders
  import opened Replay
  import opened Runs
  import opened Sync
  import opened Work

  const MAX_P2P_RESPONSE_BYTES := 8_388_608

  /** The bytes of the JSON reply that holds these blocks from this height. */
  type ReplySize = (int, seq<Block>) -> nat

  /** What a node serves: its chain from `from`, at most `limit` blocks and never more than a batch. */
  function Served(chain: seq<Block>, from: int, limit: int): seq<Block> {
    var start := Min(Max(0, from), |chain|);
    var count := Max(1, Min(limit, P2P_BLOCK_BATCH));
    chain[start..Min(start + count, |chain|)]
  }

  /** What the requester gets: `p2p_request` raises on a reply above the cap. */
  function Answer(size: ReplySize, chain: seq<Block>, from: int, limit: int): Option<seq<Block>> {
    var blocks := Served(chain, from, limit);
    if size(Max(0, from), blocks) > MAX_P2P_RESPONSE_BYTES then None else Some(blocks)
  }

  ghost predicate Serves(peer: Peer, size: ReplySize, chain: seq<Block>) {
    forall from, limit :: peer(from, limit) == Answer(size, chain, from, limit)
  }

  /** The full batches from height `start` on, as both download loops request them, are all within the cap. */
  predicate BatchesFit(size: ReplySize, chain: seq<Block>, start: nat)
    decreases |chain| - start
  {
    start >= |chain| ||
    (&& size(start, Served(chain, start, P2P_BLOCK_BATCH)) <= MAX_P2P_RESPONSE_BYTES
     && BatchesFit(size, chain, start + P2P_BLOCK_BATCH))
  }

  /**
   Whether the local chain will be extended: it is a shorter prefix, and the one-block anchor reply is within the cap.
   */
  predicate Extends(size: ReplySize, local: seq<Block>, remote: seq<Block>)
    requires local != []
  {
    && |local| < |remote| && local == remote[..|local|]
    && size(|local| - 1, [remote[|local| - 1]]) <= MAX_P2P_RESPONSE_BYTES
  }

  /** Every batch that a sync from `local` requests of `remote` is within the cap. */
  predicate DownloadFits(size: ReplySize, local: seq<Block>, remote: seq<Block>)
    requires local != []
  {
    BatchesFit(size, remote, if Extends(size, local, remote) then |local| else 0)
  }

  // The download

  lemma {:induction false} LastBatch(size: ReplySize, chain: seq<Block>, start: nat)
    requires start < |chain|
    ensures var batch := Served(chain, start, P2P_BLOCK_BATCH);
            && batch != [] && batch == Served(chain, start, Min(P2P_BLOCK_BATCH, |chain| - start))
            && chain[..start] + batch == chain[..start + |batch|] && start + |batch| <= |chain|
            && (BatchesFit(size, chain, start)
                <==> size(start, batch) <= MAX_P2P_RESPONSE_BYTES && BatchesFit(size, chain, start + |batch|))
  {
  }

  /** The batched download reassembles the served chain if and only if every batch is within the cap. */
  lemma {:induction false} FetchReassembles(peer: Peer, size: ReplySize, chain: seq<Block>, start: nat)
    requires Serves(peer, size, chain) && chain != [] && start <= |chain|
    requires chain[|chain| - 1].header.height == |chain| - 1
    ensures Fetch(peer, |chain| - 1, start, chain[..start])
         == if BatchesFit(size, chain, start) then Ok(chain) else Err(RequestFailed)
    decreases |chain| - start
  {
    if start == |chain| {
      assert chain[..start] == chain;
    } else {
      hide BatchesFit, Served;
      LastBatch(size, chain, start);
      var batch := Served(chain, start, P2P_BLOCK_BATCH);
      assert peer(start, Min(P2P_BLOCK_BATCH, |chain| - start))
          == Answer(size, chain, start, Min(P2P_BLOCK_BATCH, |chain| - start));
      FetchReassembles(peer, size, chain, start + |batch|);
    }
  }

  /** The `k`-th batch of 100 blocks from height `start` on is within 8 MiB. */
  ghost predicate BatchFits(size: ReplySize, chain: seq<Block>, start: nat, k: nat)
    requires start + 100 * k < |chain|
  {
    var from := start + 100 * k;
    size(from, chain[from..if from + 100 < |chain| then from + 100 else |chain|]) <= 8_388_608
  }

  /** All batches fit: the download loops ask for the blocks from `start` on by the hundred. */
  lemma {:induction false} BatchesFitIff(size: ReplySize, chain: seq<Block>, start: nat)
    ensures BatchesFit(size, chain, start)
       <==> forall k: nat :: start + 100 * k < |chain| ==> BatchFits(size, chain, start, k)
    decreases |chain| - start
  {
    if start < |chain| {
      BatchesFitIff(size, chain, start + 100);
      if BatchesFit(size, chain, start) {
        forall k: nat | start + 100 * k < |chain| ensures BatchFits(size, chain, start, k) {
          if k > 0 {
            assert BatchFits(size, chain, start + 100, k - 1);
          }
        }
      }
      if forall k: nat :: start + 100 * k < |chain| ==> BatchFits(size, chain, start, k) {
        assert BatchFits(size, chain, start, 0);
        forall k: nat | start + 100 + 100 * k < |chain| ensures BatchFits(size, chain, start + 100, k) {
          assert BatchFits(size, chain, start, k + 1);
        }
      }
    }
  }

  // A valid chain

  /** A chain that validates at this clock to itself, from the true genesis. */
  ghost predicate ValidAt(c: Crypto, chain: seq<Block>, now: int) {
    && chain != [] && chain[0] == Genesis(c)
    && CheckChain(c, chain, now).Ok? && CheckChain(c, chain, now).value.chain == chain
  }

  lemma {:induction false} ValidChainFacts(c: Crypto, chain: seq<Block>, now: int)
    requires ValidAt(c, chain, now)
    ensures HeadersOk(c, chain) && BodiesOk(c, chain)
  {
    hide CheckChain, HeadersOk, BodiesOk;
    AcceptedHeaders(c, chain, now);
    AcceptedBodies(c, chain, now);
  }

  /** Every input of the block at height `i` is in the UTXO set rebuilt below it. The chain alone shows it. */
  ghost predicate Submittable(chain: seq<Block>, i: nat)
    requires i < |chain|
  {
    InputsMet(chain[i].transactions, BuildUtxos(chain[..i]), i)
  }

  ghost predicate AllSubmittable(chain: seq<Block>, from: nat, to: nat)
    requires to <= |chain|
  {
    forall i :: from <= i < to ==> Submittable(chain, i)
  }

  /**
   A block of a valid chain is accepted on top of the blocks before it, at this or any later clock, exactly when it is
   submittable; otherwise an input is missing.
   */
  lemma {:induction false} NextBlockIff(c: Crypto, chain: seq<Block>, i: nat, now: int, later: int)
    requires ValidAt(c, chain, now) && 0 < i < |chain| && now <= later
    ensures var r := CheckBlock(c, chain[i], chain[..i], BuildUtxos(chain[..i]), later);
            (r.Ok? <==> Submittable(chain, i)) && (r.Err? ==> r == Err(MissingInput))
    ensures Finalized(c, chain[i]) == chain[i]
  {
    hide CheckChain, CheckBlock, BuildUtxos, Within, InputsMet;
    BlockOfAcceptedChain(c, chain, i, now);
    AcceptedIsFrom(c, chain[..i], now);
    var carried := CheckChain(c, chain[..i], now).value.utxos;
    BlockAtLaterClock(c, chain[i], chain[..i], carried, now, later);
    CheckBlockOnSmaller(c, chain[i], chain[..i], BuildUtxos(chain[..i]), carried, later);
  }

  /** A valid chain whose blocks spend none of their own coinbase is submittable throughout. */
  lemma {:induction false} SparingIsSubmittable(c: Crypto, chain: seq<Block>, now: int)
    requires ValidAt(c, chain, now) && SparesCoinbases(chain)
    ensures AllSubmittable(chain, 1, |chain|)
  {
    hide CheckChain, CheckBlock, BuildUtxos, SparesCoinbases, InputsMet;
    forall i | 1 <= i < |chain| ensures Submittable(chain, i) {
      BlockOfAcceptedChain(c, chain, i, now);
      CarriedToHeight(c, chain, i, now);
      var carried := CheckChain(c, chain[..i], now).value.utxos;
      AcceptedBody(c, chain[i], chain[..i], carried, now);
      AcceptedInputsAreMet(c, chain[i].transactions, carried, i);
    }
  }

  lemma {:induction false} SubmitNext(c: Crypto, s: Node, chain: seq<Block>, i: nat, now: int, later: int)
    requires ValidAt(c, chain, now) && 0 < i < |chain| && now <= later && s.chain == chain[..i]
    ensures var o := SubmitBlock(c, s, chain[i], later);
            if Submittable(chain, i) then o.result.Ok? && o.node.chain == chain[..i + 1]
            else o == Outcome(s, Err(MissingInput))
  {
    hide CheckHeader, CheckBody, BuildUtxos, ValidAt, Submittable, Without, IdSet;
    NextBlockIff(c, chain, i, now, later);
    if Submittable(chain, i) {
      AcceptedBody(c, chain[i], s.chain, BuildUtxos(s.chain), later);
      assert chain[..i] + [chain[i]] == chain[..i + 1];
    }
  }

  /** How far a node gets along the chain, and with which result: all the way, or up to a block that misses an input. */
  ghost predicate Reaches(o: Outcome<bool>, chain: seq<Block>, from: nat, to: nat)
    requires to <= |chain|
  {
    && from <= |o.node.chain| <= to && o.node.chain == chain[..|o.node.chain|]
    && (o.result.Ok? <==> |o.node.chain| == to) && (o.result.Ok? <==> AllSubmittable(chain, from, to))
    && (o.result.Ok? ==> o.result == Ok(true)) && (o.result.Err? ==> o.result == Err(MissingInput))
  }

  lemma {:induction false} SubmitBatch(c: Crypto, s: Node, chain: seq<Block>, blocks: seq<Block>, i: nat, now: int,
                                       clock: int -> int)
    requires ValidAt(c, chain, now) && forall h :: clock(h) >= now
    requires i <= |blocks| && 0 < |s.chain| && |s.chain| + |blocks| - i <= |chain| && s.chain == chain[..|s.chain|]
    requires blocks[i..] == chain[|s.chain|..|s.chain| + |blocks| - i]
    ensures Reaches(SubmitFrom(c, s, blocks, i, clock), chain, |s.chain|, |s.chain| + |blocks| - i)
    decreases |blocks| - i
  {
    hide ValidAt, Submittable, SubmitBlock;
    if i < |blocks| {
      var h := |s.chain|;
      assert blocks[i] == blocks[i..][0] == chain[h];
      SubmitNext(c, s, chain, h, now, clock(h));
      if Submittable(chain, h) {
        var t := SubmitBlock(c, s, blocks[i], clock(h)).node;
        assert blocks[i + 1..] == blocks[i..][1..];
        SubmitBatch(c, t, chain, blocks, i + 1, now, clock);
      }
    }
  }

  /**
   The extend path reaches the peer's chain if and only if its batches fit and every missing block is submittable;
   what was accepted before a failure is kept.
   */
  lemma {:induction false} ExtendReachesPeer(c: Crypto, s: Node, peer: Peer, size: ReplySize, chain: seq<Block>,
                                             now: int, clock: int -> int)
    requires ValidAt(c, chain, now) && forall h :: clock(h) >= now
    requires Serves(peer, size, chain) && 0 < |s.chain| <= |chain| && s.chain == chain[..|s.chain|]
    ensures var o := Extend(c, s, peer, |chain| - 1, |s.chain|, clock);
            && |s.chain| <= |o.node.chain| <= |chain| && o.node.chain == chain[..|o.node.chain|]
            && (o.result.Ok? <==> |o.node.chain| == |chain|)
            && (o.result.Ok? <==> BatchesFit(size, chain, |s.chain|) && AllSubmittable(chain, |s.chain|, |chain|))
            && (o.result.Ok? || o.result == Err(RequestFailed) || o.result == Err(MissingInput))
            && (BatchesFit(size, chain, |s.chain|) && o.result.Err? ==> o.result == Err(MissingInput))
    decreases |chain| - |s.chain|
  {
    hide ValidAt, SubmitFrom, Served, Extend, Serves, Submittable;
    if |s.chain| < |chain| {
      hide BatchesFit;
      LastBatch(size, chain, |s.chain|);
      ExtendStep(c, s, peer, size, chain, clock);
      var batch := Served(chain, |s.chain|, P2P_BLOCK_BATCH);
      if size(|s.chain|, batch) <= MAX_P2P_RESPONSE_BYTES {
        BatchIsSlice(chain, |s.chain|);
        SubmitBatch(c, s, chain, batch, 0, now, clock);
        var o := SubmitFrom(c, s, batch, 0, clock);
        if o.result.Ok? {
          ExtendReachesPeer(c, o.node, peer, size, chain, now, clock);
        }
      }
    } else {
      ExtendNothing(c, s, peer, chain, clock);
    }
  }

  lemma {:induction false} ExtendNothing(c: Crypto, s: Node, peer: Peer, chain: seq<Block>, clock: int -> int)
    requires s.chain != [] && |s.chain| == |chain|
    ensures Extend(c, s, peer, |chain| - 1, |s.chain|, clock) == Outcome(s, Ok(true))
  {
  }

  /** One turn of the extend loop against a static peer. */
  lemma {:induction false} ExtendStep(c: Crypto, s: Node, peer: Peer, size: ReplySize, chain: seq<Block>,
                                      clock: int -> int)
    requires Serves(peer, size, chain) && 0 < |s.chain| < |chain|
    ensures var h, batch := |s.chain|, Served(chain, |s.chain|, P2P_BLOCK_BATCH);
            var o := SubmitFrom(c, s, batch, 0, clock);
            Extend(c, s, peer, |chain| - 1, h, clock)
            == if size(h, batch) > MAX_P2P_RESPONSE_BYTES then Outcome(s, Err(RequestFailed))
               else if o.result.Err? then o
               else Extend(c, o.node, peer, |chain| - 1, h + |batch|, clock)
  {
    hide SubmitFrom, Served, BatchesFit;
    LastBatch(size, chain, |s.chain|);
    assert peer(|s.chain|, P2P_BLOCK_BATCH) == Answer(size, chain, |s.chain|, P2P_BLOCK_BATCH);
  }

  lemma {:induction false} BatchIsSlice(chain: seq<Block>, start: nat)
    requires start < |chain|
    ensures var batch := Served(chain, start, P2P_BLOCK_BATCH);
            batch[0..] == chain[start..start + |batch|] && start + |batch| <= |chain|
  {
  }

  // The two paths

  /** The anchor check: a served block at the local tip's height with its hash means the local chain is a prefix. */
  lemma {:induction false} AnchorMeansPrefix(c: Crypto, chain: seq<Block>, remote: seq<Block>)
    requires c.CollisionFree() && HeadersOk(c, chain) && BodiesOk(c, chain)
    requires HeadersOk(c, remote) && BodiesOk(c, remote) && |chain| <= |remote|
    ensures remote[|chain| - 1].hash == chain[|chain| - 1].hash <==> chain == remote[..|chain|]
  {
    hide HeaderOk, HonestTxids;
    HeadersOkPrefix(c, remote, |chain|);
    if remote[|chain| - 1].hash == chain[|chain| - 1].hash {
      TipCommitsToChain(c, chain, remote[..|chain|]);
    }
  }

  lemma {:induction false} PathTaken(c: Crypto, s: Node, peer: Peer, size: ReplySize, remote: seq<Block>)
    requires c.CollisionFree() && HeadersOk(c, s.chain) && BodiesOk(c, s.chain)
    requires HeadersOk(c, remote) && BodiesOk(c, remote) && Serves(peer, size, remote)
    ensures CanIncrement(s, peer, |remote| - 1) <==> Extends(size, s.chain, remote)
  {
    hide HeadersOk, BodiesOk, Served;
    TipHeight(c, s.chain);
    var h := |s.chain| - 1;
    assert peer(h, 1) == Answer(size, remote, h, 1);
    if |s.chain| < |remote| {
      ServedAnchor(remote, h);
      AnchorMeansPrefix(c, s.chain, remote);
    }
  }

  lemma {:induction false} ServedAnchor(chain: seq<Block>, h: nat)
    requires h < |chain|
    ensures Served(chain, h, 1) == [chain[h]]
  {
  }

  lemma {:induction false} ReplaceWithHeavier(c: Crypto, s: Node, remote: seq<Block>, now: int, later: int)
    requires s.chain != [] && ValidAt(c, remote, now) && now <= later
    requires remote[|remote| - 1].hash != s.chain[|s.chain| - 1].hash
    requires ChainWork(remote).Ok? && ChainWork(s.chain).Ok? && ChainWork(remote).value > ChainWork(s.chain).value
    ensures ReplaceChain(c, s, remote, later).result == Ok(true)
    ensures ReplaceChain(c, s, remote, later).node.chain == remote
  {
    hide CheckChain, ChainWork, AddAll, Orphans, ChainIds, Without;
    ChainAtLaterClock(c, remote, now, later);
    AddAllKeepsChain(c, Node(remote, Without(s.mempool, ChainIds(remote))), Orphans(s.chain, ChainIds(remote)));
  }

  lemma {:induction false} TipHeight(c: Crypto, chain: seq<Block>)
    requires HeadersOk(c, chain) && BodiesOk(c, chain)
    ensures chain != [] && chain[|chain| - 1].header.height == |chain| - 1
  {
    hide HeaderOk, BodiesOk;
    MerkleOk(c, chain, |chain| - 1);
  }

  /**
   The hypotheses of a sync: a local chain with honest headers and bodies, and a valid, strictly heavier peer chain.
   */
  ghost predicate HeavierPeer(c: Crypto, local: seq<Block>, remote: seq<Block>, now: int) {
    && HeadersOk(c, local) && BodiesOk(c, local) && ValidAt(c, remote, now)
    && ChainWork(remote).Ok? && ChainWork(local).Ok? && ChainWork(remote).value > ChainWork(local).value
  }

  lemma {:induction false} HeavierFacts(c: Crypto, local: seq<Block>, remote: seq<Block>, now: int)
    requires c.CollisionFree() && HeavierPeer(c, local, remote, now)
    ensures local != [] && remote != [] && local != remote
    ensures HeadersOk(c, remote) && BodiesOk(c, remote)
    ensures local[|local| - 1].header.height == |local| - 1 && remote[|remote| - 1].header.height == |remote| - 1
    ensures remote[|remote| - 1].hash != local[|local| - 1].hash
  {
    hide HeaderOk, BodiesOk, CheckChain, ChainWork;
    ValidChainFacts(c, remote, now);
    TipHeight(c, local);
    TipHeight(c, remote);
    if remote[|remote| - 1].hash == local[|local| - 1].hash {
      TipCommitsToChain(c, local, remote);
    }
  }

  /**
   What a sync from `local` needs of `remote`: every batch it requests is within the cap and, where the local chain is
   extended block by block, every missing block is submittable.
   */
  ghost predicate Completes(size: ReplySize, local: seq<Block>, remote: seq<Block>)
    requires local != []
  {
    && DownloadFits(size, local, remote)
    && (Extends(size, local, remote) ==> AllSubmittable(remote, |local|, |remote|))
  }

  /** The blocks part of a sync, on either path. */
  lemma {:induction false} SyncBlocksReachesPeer(c: Crypto, s: Node, peer: Peer, size: ReplySize, remote: seq<Block>,
                                                 now: int, clock: int -> int)
    requires c.CollisionFree() && HeavierPeer(c, s.chain, remote, now) && s.chain != [] && remote != []
    requires Serves(peer, size, remote) && forall h :: clock(h) >= now
    ensures var o := SyncBlocks(c, s, peer, |remote| - 1, clock);
            && (o.result.Ok? <==> Completes(size, s.chain, remote))
            && (o.node.chain == remote <==> o.result.Ok?)
            && (o.result.Err? ==> o.result == Err(RequestFailed) || o.result == Err(MissingInput))
            && (o.result.Err? && DownloadFits(size, s.chain, remote) ==> o.result == Err(MissingInput))
            && (o.result.Err? ==> s.chain <= o.node.chain && (o.node.chain <= remote || o.node == s))
  {
    hide HeadersOk, BodiesOk, ValidAt, Extend, Fetch, ReplaceChain, ChainWork, BatchesFit, AllSubmittable, CanIncrement;
    HeavierFacts(c, s.chain, remote, now);
    PathTaken(c, s, peer, size, remote);
    if Extends(size, s.chain, remote) {
      ExtendReachesPeer(c, s, peer, size, remote, now, clock);
    } else {
      assert remote[..0] == [];
      FetchReassembles(peer, size, remote, 0);
      ReplaceWithHeavier(c, s, remote, now, clock(0));
    }
  }

  /**
   Sync adopts the heavier chain: against a static peer whose chain is valid at the local clock and has strictly
   more work, a completed sync ends with exactly the peer's chain; and it completes if and only if every batch it
   requests is within the cap and, on the extend path, every missing block finds its inputs in the rebuilt set.
   Otherwise the node keeps its chain or has extended it along the peer's, and if the batches fit an input is missing.
   */
  lemma {:induction false} SyncAdoptsHeavierChainIff(c: Crypto, s: Node, peer: Peer, size: ReplySize, pending: seq<Tx>,
                                                     remote: seq<Block>, now: int, clock: int -> int)
    requires c.CollisionFree() && HeavierPeer(c, s.chain, remote, now) && s.chain != [] && remote != []
    requires Serves(peer, size, remote) && forall h :: clock(h) >= now
    ensures var o := SyncFromPeer(c, s, peer, pending, |remote| - 1, remote[|remote| - 1].hash, clock);
            && (o.result.Ok? <==> Completes(size, s.chain, remote))
            && (o.node.chain == remote <==> o.result.Ok?)
            && (o.result.Err? ==> o.result == Err(RequestFailed) || o.result == Err(MissingInput))
            && (o.result.Err? && DownloadFits(size, s.chain, remote) ==> o.result == Err(MissingInput))
            && (o.result.Err? ==> s.chain <= o.node.chain && (o.node.chain <= remote || o.node == s))
  {
    hide HeadersOk, BodiesOk, ValidAt, SyncBlocks, AddAll, ChainWork, Completes, DownloadFits;
    HeavierFacts(c, s.chain, remote, now);
    SyncBlocksReachesPeer(c, s, peer, size, remote, now, clock);
    AddAllKeepsChain(c, SyncBlocks(c, s, peer, |remote| - 1, clock).node, pending);
  }

  /** Where no block of the peer's chain spends its own coinbase, the cap alone decides. */
  lemma {:induction false} SparingSyncIff(c: Crypto, s: Node, peer: Peer, size: ReplySize, pending: seq<Tx>,
                                          remote: seq<Block>, now: int, clock: int -> int)
    requires c.CollisionFree() && HeavierPeer(c, s.chain, remote, now) && s.chain != [] && remote != []
    requires Serves(peer, size, remote) && SparesCoinbases(remote) && forall h :: clock(h) >= now
    ensures var o := SyncFromPeer(c, s, peer, pending, |remote| - 1, remote[|remote| - 1].hash, clock);
            o.node.chain == remote <==> DownloadFits(size, s.chain, remote)
  {
    hide HeadersOk, BodiesOk, SyncFromPeer, CheckChain, ChainWork, DownloadFits, Submittable, SparesCoinbases;
    SyncAdoptsHeavierChainIff(c, s, peer, size, pending, remote, now, clock);
    SparingIsSubmittable(c, remote, now);
  }

  // A chain no new node can download

  function TotalBytes(c: Crypto, blocks: seq<Block>): nat {
    if blocks == [] then 0 else TotalBytes(c, blocks[..|blocks| - 1]) + c.BlockBytes(blocks[|blocks| - 1])
  }

  /** A reply is at least as long as its blocks. */
  ghost predicate CoversBlocks(c: Crypto, size: ReplySize) {
    forall from, blocks :: size(from, blocks) >= TotalBytes(c, blocks)
  }

  lemma {:induction false} BytesOfPart(c: Crypto, blocks: seq<Block>, from: nat, to: nat)
    requires from <= to <= |blocks|
    ensures TotalBytes(c, blocks[from..to]) <= TotalBytes(c, blocks)
  {
    if blocks == [] {
      assert blocks[from..to] == [];
    } else {
      var n := |blocks| - 1;
      if from <= n {
        BytesOfPart(c, blocks[..n], from, if to <= n then to else n);
        if to <= n {
          assert blocks[..n][from..to] == blocks[from..to];
        } else {
          assert blocks[..n][from..n] == blocks[from..n];
          assert blocks[from..to] == blocks[from..n] + [blocks[n]];
          assert blocks[from..to][..n - from] == blocks[from..n];
        }
      } else {
        assert blocks[from..to] == [];
      }
    }
  }

  /**
   When blocks 1 to 5 together exceed the cap, no sync of a new node with that peer completes, however often it is
   tried: each path asks for a batch that holds all five.
   */
  lemma {:induction false} LargeBlocksStopSync(c: Crypto, peer: Peer, size: ReplySize, pending: seq<Tx>,
                                               remote: seq<Block>, remoteTip: Option<Hash>, clock: int -> int)
    requires |remote| > 5 && TotalBytes(c, remote[1..6]) > MAX_P2P_RESPONSE_BYTES
    requires CoversBlocks(c, size) && Serves(peer, size, remote)
    ensures var o := SyncFromPeer(c, FirstNode(c), peer, pending, |remote| - 1, remoteTip, clock);
            o == Outcome(FirstNode(c), Err(RequestFailed))
  {
    hide TotalBytes, SubmitFrom;
    BatchHoldsFive(c, remote, 0);
    BatchHoldsFive(c, remote, 1);
    FirstBatch(remote);
    assert peer(0, Min(P2P_BLOCK_BATCH, |remote|)) == Answer(size, remote, 0, Min(P2P_BLOCK_BATCH, |remote|));
    assert peer(1, P2P_BLOCK_BATCH) == Answer(size, remote, 1, P2P_BLOCK_BATCH);
  }

  lemma {:induction false} FirstBatch(chain: seq<Block>)
    ensures Served(chain, 0, Min(P2P_BLOCK_BATCH, |chain|)) == Served(chain, 0, P2P_BLOCK_BATCH)
  {
  }

  lemma {:induction false} BatchHoldsFive(c: Crypto, chain: seq<Block>, start: nat)
    requires |chain| > 5 && start <= 1
    ensures TotalBytes(c, Served(chain, start, P2P_BLOCK_BATCH)) >= TotalBytes(c, chain[1..6])
  {
    hide TotalBytes;
    var batch := Served(chain, start, P2P_BLOCK_BATCH);
    assert batch[1 - start..6 - start] == chain[1..6];
    BytesOfPart(c, batch, 1 - start, 6 - start);
  }
}
