/** The inputs on which the code falls short of the properties that need a hypothesis, each spelled out. */
module Counterexamples {
  import opened Prelude
  import opened Types
  import opened Ledger
  import opened Blocks
  import opened Headers
  import opened History
  import opened Idealization
  import opened Inclusion
  import opened Mempool
  import opened Mining
  import opened Operations
  import opened Orders
  import opened Recurrence
  import opened Reorg
  import opened Replay
  import opened Runs
  import opened Scripts
  import opened StaticPeer
  import opened Sync
  import Acceptance
  import Consensus
  import Origins
  import TimeRules
  import Work

  // A coinbase mined twice: the two orders of application part

  lemma {:induction false} SpenderIsRefused(c: Crypto, timestamp: int, utxos: Utxos, height: int)
    requires Lenient(c) && MintedOutpoint(c) !in utxos
    ensures CheckTx(c, Spender(c, timestamp), utxos, height) == Err(MissingInput)
  {
    var tx := Spender(c, timestamp);
    assert InputKeys(tx, 0) == {};
    assert CheckInput(c, tx, utxos, height, 0) == Err(MissingInput);
  }

  /** The block of height 600: the old coinbase again, and a payment of its mature output. */
  function RemintingBody(c: Crypto): seq<Tx> {
    [Reminted(c), Spender(c, 0)]
  }

  lemma {:induction false} RemintingBodyIsAccepted(c: Crypto, utxos: Utxos)
    requires Lenient(c) && MintedOutpoint(c) in utxos && utxos[MintedOutpoint(c)] == Minted("a", 500)
    ensures var r := CheckBody(c, RemintingBody(c), utxos, 600);
            r.Ok? && MintedOutpoint(c) in r.value && r.value[MintedOutpoint(c)] == Minted("a", 600)
  {
    hide ApplyTx, CheckTx, CheckCoinbase, CheckBody, InputKeys;
    SpenderValidates(c, 0, utxos, 500, 600);
    SpenderSpends(c, 0, Reminted(c), utxos, 600);
    var after := ApplyTx(Spender(c, 0), utxos, Some(600));
    MintIsCoinbase(c, 0, "a", "height:500", after, 600);
    PaymentBody(c, Reminted(c), Spender(c, 0), utxos, 600);
  }

  function MintedAt500(c: Crypto): seq<Entry> {
    [Entry(Reminted(c), Some(500))]
  }

  lemma {:induction false} HistoryAt500(c: Crypto)
    requires Lenient(c)
    ensures Sound(c, MintedAt500(c)) && State(MintedAt500(c)) == map[MintedOutpoint(c) := Minted("a", 500)]
  {
    hide ApplyTx, CheckTx;
    var e := Entry(Reminted(c), Some(500));
    assert MintedAt500(c) == [] + [e];
    SoundStep(c, [], e);
    StateStep([], e);
    MintIsCoinbase(c, 0, "a", "height:500", map[], 500);
  }

  /**
   With collision-free hashes: the output of a coinbase mined at height 500 is mature at 600, where the same coinbase
   is mined again and a payment in the block spends it. The body is accepted. Validation is left with an unspent
   output that a rebuild does not have, so at height 610 the two decide the next payment of it differently.
   */
  lemma {:induction false} RemintedCoinbaseParts()
    ensures var c := Ideal();
            var entries, txs := MintedAt500(c), RemintingBody(c);
            var accepted, rebuilt := CheckBody(c, txs, State(entries), 600), State(entries + EntriesAt(txs, Some(600)));
            && c.CollisionFree() && Sound(c, entries) && accepted.Ok?
            && MintedOutpoint(c) in accepted.value && MintedOutpoint(c) !in rebuilt
            && CheckTx(c, Spender(c, 1), accepted.value, 610) == Ok(0)
            && CheckTx(c, Spender(c, 1), rebuilt, 610) == Err(MissingInput)
            && !SparesCoinbase(txs)
  {
    hide OfBody, ApplyTx, CheckTx, State, CheckBody, Sound, InputKeys, Lenient;
    var c := Ideal();
    var entries, txs := MintedAt500(c), RemintingBody(c);
    IdealIsCollisionFree();
    IdealIsLenient();
    HistoryAt500(c);
    RemintingBodyIsAccepted(c, State(entries));
    var front := entries + EntriesAt(txs[..1], Some(600));
    assert entries + EntriesAt(txs, Some(600)) == front + [Entry(txs[1], Some(600))];
    StateStep(front, Entry(txs[1], Some(600)));
    SpenderSpends(c, 0, Reminted(c), State(front), 600);
    SpenderValidates(c, 1, CheckBody(c, txs, State(entries), 600).value, 600, 610);
    SpenderIsRefused(c, 1, State(entries + EntriesAt(txs, Some(600))), 610);
    assert MintedOutpoint(c) in Spent(txs[1]) && Creates(txs[0], MintedOutpoint(c));
  }

  // Worlds in which no size matters

  function NoBytes(): Block -> nat {
    (b: Block) => 0
  }

  function Weightless(main: Script, side: Script): Crypto {
    World(main, side, NoBytes())
  }

  const NOTHING := Script({}, map[], 0)

  lemma {:induction false} WeightlessFacts(main: Script, side: Script)
    requires main.height <= 400_000 && side.height <= 400_000
    ensures var c := Weightless(main, side);
            && c.CollisionFree() && Lenient(c) && (forall b :: c.BlockBytes(b) <= Consensus.MAX_BLOCK_BYTES)
            && Plays(c, main, Branch(main, 0, main.height), 0) && Plays(c, side, Branch(side, 1, side.height), 1)
  {
    hide World, Branch, Plays, Lenient;
    WorldParts(main, side, NoBytes());
    WorldIsCollisionFree(main, side, NoBytes());
    WorldMines(main, side, NoBytes());
  }

  /** The chain of the first script, valid in its world, and its output as the script tells. */
  lemma {:induction false} PlayMain(main: Script, side: Script, k: nat) returns (chain: seq<Block>, now: int)
    requires Playable(main) && main.height <= 400_000 && side.height <= 400_000 && k <= main.height
    ensures var c := Weightless(main, side);
            && chain == Branch(main, 0, main.height) && Plays(c, main, chain, 0)
            && Scene(c, chain[..k + 1], now, Carries(main, k), Rebuilds(main, k))
  {
    hide Weightless, Branch, Plays, Scene, Playable, Carries, Rebuilds;
    WeightlessFacts(main, side);
    chain := Branch(main, 0, main.height);
    now := Play(Weightless(main, side), main, chain, 0, k);
  }

  // A valid chain that cannot be submitted block by block

  /** The coinbase at 500, the reminting body at 600, at 610 a payment of the output that only validation still has. */
  const STALLING := Script({500, 600}, map[600 := 0, 610 := 1], 610)

  lemma {:induction false} StallingPlays()
    ensures Playable(STALLING) && Rebuilds(STALLING, 609) == None
  {
    Quiet(STALLING, 500, 599);
    Quiet(STALLING, 600, 609);
  }

  lemma {:induction false} StallingChain() returns (chain: seq<Block>, now: int)
    ensures var c := Weightless(STALLING, NOTHING);
            |chain| == 611 && ValidAt(c, chain, now) && !Submittable(chain, 610)
  {
    hide Weightless, Branch, Plays, Scene, Carries, Rebuilds, Submittable;
    var c := Weightless(STALLING, NOTHING);
    StallingPlays();
    var front, before := PlayMain(STALLING, NOTHING, 609);
    chain, now := PlayMain(STALLING, NOTHING, 610);
    assert chain[..611] == chain;
    SceneFacts(c, chain, now, Carries(STALLING, 610), Rebuilds(STALLING, 610));
    SceneFacts(c, chain[..610], before, Carries(STALLING, 609), None);
    StallingBody(c, chain);
    PaymentIsNotMet(c, chain);
  }

  lemma {:induction false} StallingBody(c: Crypto, chain: seq<Block>)
    requires Plays(c, STALLING, chain, 0)
    ensures |chain| == 611 && chain[610].transactions == [Filler(c, 610), Spender(c, 1)]
  {
    hide Lenient, Mined;
    assert 610 in STALLING.pays && 610 !in STALLING.mints;
  }

  lemma {:induction false} PaymentIsNotMet(c: Crypto, chain: seq<Block>)
    requires |chain| == 611 && chain[610].transactions == [Filler(c, 610), Spender(c, 1)]
    requires MintedOutpoint(c) !in BuildUtxos(chain[..610])
    ensures !Submittable(chain, 610)
  {
    hide State, Flatten;
    var txs := chain[610].transactions;
    assert txs[1].body.inputs[0].prev == MintedOutpoint(c);
    assert Acceptance.SetBefore(txs, 1, BuildUtxos(chain[..610]), 610) == BuildUtxos(chain[..610]);
  }

  lemma {:induction false} BeginningIsLighter(c: Crypto, remote: seq<Block>, now: int, k: nat)
    requires ValidAt(c, remote, now) && 0 < k < |remote|
    ensures HeavierPeer(c, remote[..k], remote, now)
  {
    hide ValidAt, HeadersOk, BodiesOk, Work.ChainWork;
    ValidPrefix(c, remote, k, now);
    ValidChainFacts(c, remote[..k], now);
    ValidChainFacts(c, remote, now);
    LongerIsHeavier(c, remote, k);
  }

  /** Replies of no size, and a node that serves the chain. */
  function Free(): ReplySize {
    (from, blocks) => 0
  }

  function Server(size: ReplySize, chain: seq<Block>): Peer {
    (from, limit) => Answer(size, chain, from, limit)
  }

  lemma {:induction false} ServerServes(size: ReplySize, chain: seq<Block>)
    ensures Serves(Server(size, chain), size, chain)
  {
  }

  lemma {:induction false} NothingIsTooLarge(chain: seq<Block>, start: nat)
    ensures BatchesFit(Free(), chain, start)
    decreases |chain| - start
  {
    if start < |chain| {
      NothingIsTooLarge(chain, start + P2P_BLOCK_BATCH);
    }
  }

  lemma {:induction false} NeverCompletes(remote: seq<Block>, k: nat)
    requires 0 < k <= 610 && |remote| == 611 && !Submittable(remote, 610)
    ensures DownloadFits(Free(), remote[..k], remote) && !Completes(Free(), remote[..k], remote)
  {
    hide BatchesFit, Submittable;
    NothingIsTooLarge(remote, k);
  }

  /**
   With collision-free hashes: a chain of 610 blocks that is valid from scratch, and a peer that serves it without ever
   meeting the cap. It is heavier than each beginning of it, and no sync of a node that holds one up to height 609
   completes, however often it is tried. The extend path is always taken, and block 610 misses an input in the rebuilt
   set.
   */
  lemma {:induction false} ValidChainThatCannotBeSubmitted(pending: seq<Tx>, mempool: seq<Tx>, k: nat, offset: nat)
    returns (remote: seq<Block>, now: int)
    requires 1 <= k <= 610
    ensures var c, clock := Weightless(STALLING, NOTHING), h => now + offset;
            var peer := Server(Free(), remote);
            && c.CollisionFree() && |remote| == 611 && HeavierPeer(c, remote[..k], remote, now)
            && Serves(peer, Free(), remote) && DownloadFits(Free(), remote[..k], remote)
            && var o := SyncFromPeer(c, Node(remote[..k], mempool), peer, pending, 610, remote[610].hash, clock);
               o.result == Err(MissingInput) && o.node.chain != remote
  {
    hide Weightless, HeavierPeer, Submittable, Serves, Server, DownloadFits, SyncFromPeer, Plays, Completes, Branch,
         ValidAt;
    var c := Weightless(STALLING, NOTHING);
    WeightlessFacts(STALLING, NOTHING);
    remote, now := StallingChain();
    BeginningIsLighter(c, remote, now, k);
    ServerServes(Free(), remote);
    NeverCompletes(remote, k);
    var s, clock: int -> int := Node(remote[..k], mempool), h => now + offset;
    SyncAdoptsHeavierChainIff(c, s, Server(Free(), remote), Free(), pending, remote, now, clock);
  }

  // A confirmed payment that comes back

  /** The coinbase at 500 and again at 600, its first output paid at 510 and by the same payment at 801. */
  const RECURRING := Script({500, 600}, map[510 := 0, 801 := 0], 801)

  lemma {:induction false} RecurringPlays()
    ensures Playable(RECURRING) && Rebuilds(RECURRING, 800) == Some(600)
  {
    Quiet(RECURRING, 500, 509);
    Quiet(RECURRING, 600, 800);
  }

  lemma {:induction false} RecurringBodies(c: Crypto, chain: seq<Block>)
    requires Plays(c, RECURRING, chain, 0)
    ensures |chain| == 802 && chain[510].transactions == [Filler(c, 510), Spender(c, 0)]
    ensures chain[801].transactions == [Filler(c, 801), Spender(c, 0)]
    ensures forall b :: 601 <= b < 801 ==> chain[b].transactions == [Filler(c, b)]
  {
    hide Lenient, Mined;
    assert 510 in RECURRING.pays && 510 !in RECURRING.mints && 801 in RECURRING.pays && 801 !in RECURRING.mints;
  }

  lemma {:induction false} SpenderIsOld(c: Crypto, chain: seq<Block>)
    requires c.TxIdsInjective() && |chain| == 801
    requires forall b :: 601 <= b < 801 ==> chain[b].transactions == [Filler(c, b)]
    ensures Spender(c, 0).txid !in RecentIds(chain)
  {
    var recent := chain[601..];
    forall b | 0 <= b < |recent| ensures Spender(c, 0).txid !in IdSet(recent[b].transactions) {
      assert recent[b] == chain[601 + b];
      if Spender(c, 0).txid == Filler(c, 601 + b).txid {
        c.SameTxId(Spender(c, 0).body, Filler(c, 601 + b).body);
      }
    }
  }

  /** The mempool takes the payment again, although the chain has confirmed it. */
  lemma {:induction false} TakenAgain(c: Crypto, chain: seq<Block>, now: int)
    requires Lenient(c) && |chain| == 801 && ValidAt(c, chain, now)
    requires At(BuildUtxos(chain), MintedOutpoint(c)) == Some(Minted("a", 600))
    requires chain[510].transactions == [Filler(c, 510), Spender(c, 0)]
    requires forall b :: 601 <= b < 801 ==> chain[b].transactions == [Filler(c, b)]
    ensures var s, tx := Node(chain, []), Spender(c, 0);
            && Settled(c, s, now) && AddTransaction(c, s, tx) == Outcome(Node(chain, [tx]), Ok(tx.txid))
            && !MempoolOk(c, chain, [tx])
  {
    hide CheckTx, State, Flatten, RecentIds, CheckChain, From, Lenient;
    var s, tx := Node(chain, []), Spender(c, 0);
    LenientIds(c);
    AcceptedIsFrom(c, chain, now);
    SpenderIsOld(c, chain);
    NothingPending(Flatten(chain));
    SpenderValidates(c, 0, BuildUtxos(chain), 600, 801);
    assert chain[510].transactions[1] == tx;
    ConfirmedIsNotFresh(chain, tx);
    assert [tx][0] == tx;
  }

  lemma {:induction false} LenientIds(c: Crypto)
    requires Lenient(c)
    ensures c.TxIdsInjective()
  {
  }

  /**
   With collision-free hashes: on a valid chain in which a coinbase recurs, a payment confirmed at height 510 is taken
   into the mempool at height 801, although the chain has confirmed it; and the block that confirms it a second time,
   spending the same outpoint a second time, gives a valid chain.
   */
  lemma {:induction false} ConfirmedPaymentReturns() returns (chain: seq<Block>, longer: seq<Block>, now: int)
    ensures var c, s := Weightless(RECURRING, NOTHING), Node(chain, []);
            var tx := Spender(c, 0);
            && c.CollisionFree() && ValidAt(c, chain, now) && |chain| == 801 && tx in chain[510].transactions
            && AddTransaction(c, s, tx) == Outcome(Node(chain, [tx]), Ok(tx.txid))
            && Settled(c, s, now) && !MempoolOk(c, chain, [tx])
            && ValidAt(c, longer, now) && chain < longer && tx in longer[801].transactions
            && Origins.SpentTwice(longer, MintedOutpoint(c))
  {
    hide Weightless, Branch, Plays, Scene, Lenient, State, Flatten, ValidAt, AddTransaction, Settled, MempoolOk,
         Carries, Rebuilds, Spender;
    var c := Weightless(RECURRING, NOTHING);
    var before: int;
    WeightlessFacts(RECURRING, NOTHING);
    RecurringPlays();
    longer, before := PlayMain(RECURRING, NOTHING, 800);
    longer, now := PlayMain(RECURRING, NOTHING, 801);
    chain := longer[..801];
    assert longer[..802] == longer;
    SceneFacts(c, longer, now, Carries(RECURRING, 801), Rebuilds(RECURRING, 801));
    SceneFacts(c, chain, before, Carries(RECURRING, 800), Some(600));
    ValidPrefix(c, longer, 801, now);
    RecurringBodies(c, longer);
    TakenAgain(c, chain, now);
    assert chain[510].transactions[1] == Spender(c, 0) && longer[801].transactions[1] == Spender(c, 0);
    PaidTwice(c, longer);
  }

  lemma {:induction false} PaidTwice(c: Crypto, chain: seq<Block>)
    requires |chain| > 801 && chain[510].transactions == [Filler(c, 510), Spender(c, 0)]
    requires chain[801].transactions == [Filler(c, 801), Spender(c, 0)]
    ensures Origins.SpentTwice(chain, MintedOutpoint(c))
  {
    assert Spender(c, 0).body.inputs[0].prev == MintedOutpoint(c);
    assert Origins.Pays(chain, 510, 1, MintedOutpoint(c)) && Origins.Pays(chain, 801, 1, MintedOutpoint(c));
  }

  lemma {:induction false} ValidPrefix(c: Crypto, chain: seq<Block>, n: nat, now: int)
    requires ValidAt(c, chain, now) && 0 < n <= |chain|
    ensures ValidAt(c, chain[..n], now)
  {
    hide CheckChain;
    CheckChainPrefix(c, chain, n, now);
  }

  // A payable payment that a reorganization loses

  /** The coinbase at 500 and again at 600, each time paid ten blocks later, by two different payments. */
  const FORKED := Script({500, 600}, map[510 := 0, 610 := 1], 610)

  /** One block more, with the coinbase at 500 and its output unspent. */
  const KEEPING := Script({500}, map[], 611)

  lemma {:induction false} ForkedPlays()
    ensures Playable(FORKED) && Playable(KEEPING) && Rebuilds(KEEPING, 611) == Some(500)
  {
    Quiet(FORKED, 500, 509);
    Quiet(FORKED, 600, 609);
    Quiet(KEEPING, 500, 611);
  }

  function Payments(c: Crypto, s: Script, k: nat): seq<Tx> {
    if k == 0 then []
    else Payments(c, s, k - 1) + (if k in s.pays then [Spender(c, s.pays[k])] else [])
  }

  lemma {:induction false} NoPayments(c: Crypto, s: Script, from: nat, to: nat)
    requires from <= to && forall h :: from < h <= to ==> h !in s.pays
    ensures Payments(c, s, to) == Payments(c, s, from)
  {
    if from < to {
      NoPayments(c, s, from, to - 1);
    }
  }

  lemma {:induction false} ForkedPayments(c: Crypto)
    ensures Payments(c, FORKED, 610) == [Spender(c, 0), Spender(c, 1)]
  {
    NoPayments(c, FORKED, 0, 509);
    NoPayments(c, FORKED, 510, 609);
    assert Payments(c, FORKED, 510) == [] + [Spender(c, 0)];
    assert Payments(c, FORKED, 610) == Payments(c, FORKED, 609) + [Spender(c, 1)];
  }

  /** The orphans of a script's chain are its payments, where the new chain has none of them. */
  lemma {:induction false} OrphansOfScript(c: Crypto, s: Script, chain: seq<Block>, nonce: int, k: nat, ids: set<Hash>)
    requires Plays(c, s, chain, nonce) && k <= s.height && forall t :: Spender(c, t).txid !in ids
    ensures Orphans(chain[..k + 1], ids) == Payments(c, s, k)
  {
    hide Lenient, FirstTx, Spender;
    if k == 0 {
      MinedFromGenesis(c, chain, nonce);
      OrphansOfGenesis(c, ids);
    } else {
      hide Mined;
      OrphansOfScript(c, s, chain, nonce, k - 1, ids);
      assert chain[..k + 1][..k] == chain[..k];
      if k in s.pays {
        assert AfterFirst(chain[k].transactions) == [Spender(c, s.pays[k])];
        WithoutOfOne(Spender(c, s.pays[k]), ids);
      } else {
        assert AfterFirst(chain[k].transactions) == [];
      }
    }
  }

  lemma {:induction false} OrphansOfGenesis(c: Crypto, ids: set<Hash>)
    ensures Orphans([Genesis(c)], ids) == []
  {
    assert AfterFirst(Genesis(c).transactions) == [];
    assert [Genesis(c)][..0] == [];
  }

  lemma {:induction false} WithoutOfOne(tx: Tx, ids: set<Hash>)
    requires tx.txid !in ids
    ensures Without([tx], ids) == [tx]
  {
    assert [tx][..0] == [];
  }

  /** A chain without payments confirms none. */
  lemma {:induction false} NoSpenderIn(c: Crypto, s: Script, chain: seq<Block>, nonce: int)
    requires Plays(c, s, chain, nonce) && s.pays == map[]
    ensures forall t :: Spender(c, t).txid !in ChainIds(chain)
  {
    hide IdSet, FirstTx;
    forall t, b | 0 <= b < |chain| ensures Spender(c, t).txid !in IdSet(chain[b].transactions) {
      var cb := if b == 0 then GenesisTx(c) else FirstTx(c, s, b);
      assert chain[b].transactions == [cb];
      CoinbaseOfScript(c, s, b);
      if Spender(c, t).txid == cb.txid {
        c.SameTxId(Spender(c, t).body, cb.body);
      }
    }
  }

  lemma {:induction false} CoinbaseOfScript(c: Crypto, s: Script, b: nat)
    ensures var cb := if b == 0 then GenesisTx(c) else FirstTx(c, s, b); IsCoinbase(cb) && c.TxId(cb.body) == cb.txid
  {
  }

  /** Of two payments of one unspent output, neither an output of the other, the first alone returns. */
  lemma {:induction false} FirstAloneReturns(c: Crypto, utxos: Utxos, h: int)
    requires c.TxIdsInjective() && Spendable(utxos, MintedOutpoint(c), h)
    ensures var orphans := [Spender(c, 0), Spender(c, 1)];
            Returned([], orphans, utxos, h) == [Spender(c, 0)] && AllPayable(orphans, utxos, h)
  {
    hide Spendable;
    var a, b, op := Spender(c, 0), Spender(c, 1), MintedOutpoint(c);
    SpenderSpends(c, 0, Reminted(c), utxos, h);
    assert a.body.inputs[0].prev == op && b.body.inputs[0].prev == op;
    assert [a, b][..1] == [a] && [a][..0] == [];
    assert InputsAvailable(a, utxos, [], h);
    assert Returned([], [a], utxos, h) == [a];
    assert SpentBy([a], op) by {
      assert op in Spent([a][0]);
    }
    assert !PendingOpen([a], op);
    assert !Available(utxos, [a], b.body.inputs[0].prev, h);
    assert !InputsAvailable(b, utxos, [a], h);
  }

  /**
   With collision-free hashes: the old chain mines one coinbase at 500 and at 600 and pays each output, the heavier one
   keeps the coinbase of 500 unspent. Both orphans are payable in the new chain, which confirms neither, and fit an
   empty mempool; the reorganization keeps the first and loses the second.
   */
  lemma {:induction false} PayablePaymentIsLost() returns (s: Node, before: int, candidate: seq<Block>, now: int)
    ensures var c := Weightless(FORKED, KEEPING);
            && c.CollisionFree() && Adopts(c, s, before, candidate, now) && s.mempool == []
            && var chain := CheckChain(c, candidate, now).value.chain;
               var orphans := Orphans(s.chain, ChainIds(chain));
               && orphans == [Spender(c, 0), Spender(c, 1)] && AllPayable(orphans, BuildUtxos(chain), |chain|)
               && ReplaceChain(c, s, candidate, now).node.mempool == [Spender(c, 0)]
  {
    hide Weightless, Branch, Plays, Scene, Lenient, State, Flatten, CheckChain, ReplaceChain, Returned, Orphans,
         ChainIds, AllPayable, Spender, Carries, Rebuilds, Validated, From, HeadersOk, BodiesOk, Work.ChainWork;
    var c := Weightless(FORKED, KEEPING);
    ForkedPlays();
    WeightlessFacts(FORKED, KEEPING);
    var chain: seq<Block>;
    chain, before := PlayMain(FORKED, KEEPING, 610);
    candidate := Branch(KEEPING, 1, 611);
    now := Play(c, KEEPING, candidate, 1, 611);
    s := Node(chain, []);
    assert chain[..611] == chain && candidate[..612] == candidate;
    SceneFacts(c, chain, before, Carries(FORKED, 610), Rebuilds(FORKED, 610));
    SceneFacts(c, candidate, now, Carries(KEEPING, 611), Some(500));
    AdoptsKeeping(c, chain, before, candidate, now);
    ReorgMempool(c, s, before, candidate, now);
    NoSpenderIn(c, KEEPING, candidate, 1);
    OrphansOfScript(c, FORKED, chain, 0, 610, ChainIds(candidate));
    ForkedPayments(c);
    FirstAloneReturns(c, BuildUtxos(candidate), 612);
  }

  lemma {:induction false} AdoptsKeeping(c: Crypto, chain: seq<Block>, before: int, candidate: seq<Block>, now: int)
    requires c.CollisionFree() && ValidAt(c, chain, before) && ValidAt(c, candidate, now)
    requires Plays(c, FORKED, chain, 0) && Plays(c, KEEPING, candidate, 1)
    ensures Adopts(c, Node(chain, []), before, candidate, now)
  {
    hide CheckChain, State, Flatten, ReplaceChain, HeadersOk, BodiesOk, Work.ChainWork, Mined, From;
    ValidChainFacts(c, chain, before);
    ValidChainFacts(c, candidate, now);
    OneMoreIsHeavier(c, chain, 0, candidate, 1);
    HeavierFacts(c, chain, candidate, now);
    ReplaceWithHeavier(c, Node(chain, []), candidate, now, now);
    AcceptedIsFrom(c, chain, before);
  }

  // A full block that does not replay

  /** 75 bytes more once the block has its hash field. */
  function FullBlockBytes(): Block -> nat {
    (b: Block) => if b.hash.None? then 2_000_000 else 2_000_075
  }

  const ONE_BLOCK := Script({}, map[], 1)

  /** Whatever is accepted on genesis in a form within the limit, and stored in one over it, does not replay. */
  lemma {:induction false} StoredIsTooLarge(c: Crypto, block: Block, now: int)
    requires HeadersOk(c, [Genesis(c)]) && CheckBlock(c, block, [Genesis(c)], map[], now).Ok?
    requires c.BlockBytes(Finalized(c, block)) > Consensus.MAX_BLOCK_BYTES
    ensures var after := SubmitBlock(c, FirstNode(c), block, now);
            && after.result.Ok? && after.node.chain == [Genesis(c), Finalized(c, block)]
            && CheckChain(c, after.node.chain, now) == Err(BlockTooLarge)
  {
    hide BuildUtxos, CheckHeader, CheckBody, Without, IdSet, HeadersOk;
    var chain := [Genesis(c)];
    GenesisChecks(c, now);
    AcceptedBody(c, block, chain, map[], now);
    StoredBlockAgain(c, block, chain, map[], now);
    CheckChainStep(c, chain, Finalized(c, block), now);
    assert chain + [Finalized(c, block)] == [Genesis(c), Finalized(c, block)];
  }

  /**
   With collision-free hashes: a block of exactly 2,000,000 bytes is mined on genesis and accepted as submitted; stored
   with its hash field it is over the limit, and the node's own chain no longer validates.
   */
  lemma {:induction false} FullBlockDoesNotReplay() returns (block: Block)
    ensures var c, now := World(ONE_BLOCK, NOTHING, FullBlockBytes()), GENESIS_TIMESTAMP + 1;
            var after := SubmitBlock(c, FirstNode(c), block, now);
            && c.CollisionFree() && after.result.Ok? && after.node.chain == [Genesis(c), Finalized(c, block)]
            && CheckChain(c, after.node.chain, now) == Err(BlockTooLarge)
  {
    hide World, CheckBlock, CheckBody, CheckChain, TimeRules.MedianTimePast, Lenient, Branch, HeadersOk, CheckCoinbase,
         Body, SubmitBlock, Plays, FirstTx, NextBlock;
    var c, now := World(ONE_BLOCK, NOTHING, FullBlockBytes()), GENESIS_TIMESTAMP + 1;
    WorldParts(ONE_BLOCK, NOTHING, FullBlockBytes());
    WorldIsCollisionFree(ONE_BLOCK, NOTHING, FullBlockBytes());
    WorldMines(ONE_BLOCK, NOTHING, FullBlockBytes());
    FirstNodeHeaders(c);
    MedianOfGenesis(c, [Genesis(c)]);
    block := FirstBlock(c, Branch(ONE_BLOCK, 0, 1));
    var cb := FirstTx(c, ONE_BLOCK, 1);
    FirstTxLeaves(c, ONE_BLOCK, 1, map[]);
    MintBody(c, cb, map[], 1);
    NextBlockIsAccepted(c, [Genesis(c)], [cb], 0, map[], block, now);
    StoredIsTooLarge(c, block, now);
  }

  lemma {:induction false} FirstBlock(c: Crypto, chain: seq<Block>) returns (block: Block)
    requires Plays(c, ONE_BLOCK, chain, 0)
    ensures block == NextBlock(c, [Genesis(c)], [FirstTx(c, ONE_BLOCK, 1)], 0) && block.hash == None
    ensures BlockHash(c, block) <= LOW_HASH
  {
    hide Lenient;
    MinedFromGenesis(c, chain, 0);
    assert MinedAt(c, chain, 0, 1);
    block := NextBlock(c, [Genesis(c)], chain[1].transactions, 0);
  }

  // A valid, heavier chain that no new node can download

  function AlmostFull(): Block -> nat {
    (b: Block) => 1_900_000
  }

  const SIX_BLOCKS := Script({}, map[], 6)

  /**
   With collision-free hashes: six blocks of 1,900,000 bytes above genesis. The chain is valid and heavier than genesis,
   its peer answers every request that the cap lets through, and no sync of a new node with it completes.
   */
  lemma {:induction false} ValidChainThatCannotBeDownloaded(pending: seq<Tx>, clock: int -> int)
    returns (remote: seq<Block>, now: int, size: ReplySize, peer: Peer)
    ensures var c := World(SIX_BLOCKS, NOTHING, AlmostFull());
            && c.CollisionFree() && HeavierPeer(c, [Genesis(c)], remote, now) && SparesCoinbases(remote)
            && CoversBlocks(c, size) && Serves(peer, size, remote)
            && SyncFromPeer(c, FirstNode(c), peer, pending, |remote| - 1, remote[|remote| - 1].hash, clock)
               == Outcome(FirstNode(c), Err(RequestFailed))
  {
    hide World, CheckChain, BuildUtxos, Work.ChainWork, SyncFromPeer, Lenient, Branch, Plays, Serves, HeadersOk,
         BodiesOk, Scene, Playable, Carries, Rebuilds, SparesCoinbases;
    var c := World(SIX_BLOCKS, NOTHING, AlmostFull());
    WorldParts(SIX_BLOCKS, NOTHING, AlmostFull());
    WorldIsCollisionFree(SIX_BLOCKS, NOTHING, AlmostFull());
    WorldMines(SIX_BLOCKS, NOTHING, AlmostFull());
    remote := Branch(SIX_BLOCKS, 0, 6);
    SixPlays();
    now := Play(c, SIX_BLOCKS, remote, 0, 6);
    assert remote[..7] == remote;
    SceneFacts(c, remote, now, Carries(SIX_BLOCKS, 6), Rebuilds(SIX_BLOCKS, 6));
    BeginningIsLighter(c, remote, now, 1);
    SixBlocks(c, remote);
    size := (from, blocks) => TotalBytes(c, blocks);
    peer := Server(size, remote);
    ServerServes(size, remote);
    FiveBlocks(c, remote);
    LargeBlocksStopSync(c, peer, size, pending, remote, remote[|remote| - 1].hash, clock);
  }

  lemma {:induction false} SixPlays()
    ensures Playable(SIX_BLOCKS)
  {
  }

  lemma {:induction false} SixBlocks(c: Crypto, remote: seq<Block>)
    requires Plays(c, SIX_BLOCKS, remote, 0)
    ensures remote[..1] == [Genesis(c)] && SparesCoinbases(remote)
  {
    hide Lenient, FirstTx;
    MinedFromGenesis(c, remote, 0);
  }

  lemma {:induction false} FiveBlocks(c: Crypto, remote: seq<Block>)
    requires |remote| == 7 && c.blockBytes == AlmostFull()
    ensures TotalBytes(c, remote[1..6]) == 9_500_000
  {
    var five := remote[1..6];
    assert five[..4] == remote[1..5] && five[..4][..3] == remote[1..4] && remote[1..4][..2] == remote[1..3];
    assert remote[1..3][..1] == remote[1..2] && remote[1..2][..0] == [];
    assert TotalBytes(c, remote[1..2]) == 1_900_000;
    assert TotalBytes(c, remote[1..3]) == 3_800_000;
    assert TotalBytes(c, remote[1..4]) == 5_700_000;
    assert TotalBytes(c, remote[1..5]) == 7_600_000;
  }
}
