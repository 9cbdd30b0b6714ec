/**
 Chains written as scripts: at which heights one and the same coinbase is mined, and at which heights its output is
 paid. A world gives the headers of two such chains small hashes of their own and spells every other header out, so
 that its hashes are free of collisions; the script tells what becomes of the output.
 */
module Scripts {
  import opened Prelude
  import opened Types
  import opened Ledger
  import opened Blocks
  import opened Idealization
  import opened Mining
  import opened Orders
  import opened StaticPeer
  import Consensus
  import Difficulty
  import Merkle
  import TimeRules

  // The transactions

  /** A coinbase that a miner can write byte for byte at height 500 and again at height 600: both pay 5 coins. */
  function Reminted(c: Crypto): Tx {
    Mint(c, 0, "a", "height:500")
  }

  function MintedOutpoint(c: Crypto): Outpoint {
    Outpoint(Reminted(c).txid, 0)
  }

  /** A payment of that output, without a fee. */
  function Spender(c: Crypto, timestamp: int): Tx {
    var body := TxBody(timestamp, [TxIn(MintedOutpoint(c), "a", "")], [TxOut("a", 500_000_000)], None);
    Tx(body, c.TxId(body))
  }

  /** The coinbase of any other block. */
  function Filler(c: Crypto, height: int): Tx {
    Mint(c, height, "f", "filler")
  }

  lemma {:induction false} SpenderValidates(c: Crypto, timestamp: int, utxos: Utxos, made: int, height: int)
    requires Lenient(c) && MintedOutpoint(c) in utxos && utxos[MintedOutpoint(c)] == Minted("a", made)
    requires made >= 0 && height >= 500 && height - made >= 10
    ensures CheckTx(c, Spender(c, timestamp), utxos, height) == Ok(0)
  {
    var tx := Spender(c, timestamp);
    assert InputKeys(tx, 0) == {};
    assert CheckInput(c, tx, utxos, height, 0) == Ok(500_000_000);
    assert CheckInputs(c, tx, utxos, height, 1, 500_000_000) == Ok(500_000_000);
    assert CheckOutputs(c, tx, 1, 500_000_000) == Ok(500_000_000);
  }

  lemma {:induction false} SpenderSpends(c: Crypto, timestamp: int, cb: Tx, utxos: Utxos, height: int)
    requires c.TxIdsInjective() && IsCoinbase(cb) && c.TxId(cb.body) == cb.txid
    ensures var tx := Spender(c, timestamp);
            && tx.txid != cb.txid && tx.txid != MintedOutpoint(c).txid
            && MintedOutpoint(c) in Spent(tx) && Creates(Reminted(c), MintedOutpoint(c))
            && MintedOutpoint(c) !in ApplyTx(tx, utxos, Some(height))
  {
    var tx := Spender(c, timestamp);
    if tx.txid == cb.txid {
      c.SameTxId(tx.body, cb.body);
    }
    if tx.txid == Reminted(c).txid {
      c.SameTxId(tx.body, Reminted(c).body);
    }
    assert tx.body.inputs[0].prev == MintedOutpoint(c);
    ApplyTxAt(tx, utxos, Some(height), MintedOutpoint(c));
  }

  // Scripts

  /** The coinbase at the heights `mints`, a payment of its output with the given timestamp at the heights `pays`. */
  datatype Script = Script(mints: set<nat>, pays: map<nat, int>, height: nat)

  function FirstTx(c: Crypto, s: Script, h: nat): Tx {
    if h in s.mints then Reminted(c) else Filler(c, h)
  }

  function Body(c: Crypto, s: Script, h: nat): seq<Tx> {
    if h in s.pays then [FirstTx(c, s, h), Spender(c, s.pays[h])] else [FirstTx(c, s, h)]
  }

  /** The height whose coinbase validation has the output from: a block's coinbase comes last. */
  function Carries(s: Script, h: nat): Option<nat> {
    if h in s.mints then Some(h)
    else if h in s.pays || h == 0 then None
    else Carries(s, h - 1)
  }

  /** The same for a rebuild: a block's coinbase comes first. */
  function Rebuilds(s: Script, h: nat): Option<nat> {
    if h in s.pays then None
    else if h in s.mints then Some(h)
    else if h == 0 then None
    else Rebuilds(s, h - 1)
  }

  /** Nothing happens between the two heights. */
  lemma {:induction false} Quiet(s: Script, from: nat, to: nat)
    requires from <= to && forall h :: from < h <= to ==> h !in s.mints && h !in s.pays
    ensures Carries(s, to) == Carries(s, from) && Rebuilds(s, to) == Rebuilds(s, from)
  {
    if from < to {
      Quiet(s, from, to - 1);
    }
  }

  /** Validation has the output, and it is mature, wherever it is paid. */
  ghost predicate Playable(s: Script) {
    && s.height <= 400_000 && 0 !in s.mints && 0 !in s.pays
    && forall h :: h in s.pays ==>
         h >= 500 && Carries(s, h - 1).Some? && h - Carries(s, h - 1).value >= 10
  }

  // The chains and the world in which they are mined

  /** Blocks 0 to `k` of the chain: block `h` has the hash `2h + nonce`. */
  function Branch(s: Script, nonce: nat, k: nat): (chain: seq<Block>)
    ensures |chain| == k + 1 && chain[k].hash.Some?
  {
    if k == 0 then [Block(GenesisHeader(Ideal()), [GenesisTx(Ideal())], Some(0))]
    else
      var front := Branch(s, nonce, k - 1);
      front + [NextBlock(Ideal(), front, Body(Ideal(), s, k), nonce).(hash := Some(2 * k + nonce))]
  }

  predicate OnBranch(s: Script, nonce: nat, h: Header) {
    h.nonce == nonce && 0 <= h.height <= s.height && h == Branch(s, nonce, h.height)[h.height].header
  }

  /** Small for the headers of the two chains, and beyond all small ones the header spelled out. */
  function WorldHash(main: Script, side: Script, h: Header): Hash {
    if OnBranch(main, 0, h) then 2 * h.height
    else if OnBranch(side, 1, h) then 2 * h.height + 1
    else 2 * (main.height + side.height) + 2 + OfHeader(h)
  }

  function World(main: Script, side: Script, bytes: Block -> nat): Crypto {
    Ideal().(headerHash := h => WorldHash(main, side, h), blockBytes := bytes)
  }

  lemma {:induction false} WorldHashInjective(main: Script, side: Script, a: Header, b: Header)
    requires WorldHash(main, side, a) == WorldHash(main, side, b)
    ensures a == b
  {
    hide OfHeader, Branch;
    if !OnBranch(main, 0, a) && !OnBranch(side, 1, a) && !OnBranch(main, 0, b) && !OnBranch(side, 1, b) {
      HeaderInjective(a, b);
    }
  }

  lemma {:induction false} WorldIsCollisionFree(main: Script, side: Script, bytes: Block -> nat)
    ensures World(main, side, bytes).CollisionFree() && Lenient(World(main, side, bytes))
  {
    hide OfBody, OfHeader, Mark, WorldHash;
    var c, ideal := World(main, side, bytes), Ideal();
    IdealIsCollisionFree();
    forall a, b | c.TxId(a) == c.TxId(b) ensures a == b {
      ideal.SameTxId(a, b);
    }
    forall a, b | c.HeaderHash(a) == c.HeaderHash(b) ensures a == b {
      WorldHashInjective(main, side, a, b);
    }
    forall a, b, x, y | c.Pair(a, b) == c.Pair(x, y) ensures a == x && b == y {
      assert ideal.Pair(a, b) == ideal.Pair(x, y);
    }
    forall body, x, y ensures c.TxId(body) != c.Pair(x, y) {
      assert ideal.TxId(body) != ideal.Pair(x, y);
    }
  }

  // The chains are mined in that world

  lemma {:induction false} BranchPrefix(s: Script, nonce: nat, k: nat, h: nat)
    requires h <= k
    ensures Branch(s, nonce, k)[..h + 1] == Branch(s, nonce, h)
    decreases k
  {
    hide NextBlock, Body;
    if h < k {
      BranchPrefix(s, nonce, k - 1, h);
      assert Branch(s, nonce, k)[..k] == Branch(s, nonce, k - 1);
      assert Branch(s, nonce, k)[..h + 1] == Branch(s, nonce, k)[..k][..h + 1];
    }
  }

  lemma {:induction false} BranchAt(s: Script, nonce: nat, k: nat, h: nat)
    requires 0 < h <= k
    ensures var chain := Branch(s, nonce, k);
            && chain[h - 1].hash.Some? && chain[h] == Branch(s, nonce, h)[h]
            && chain[h] == NextBlock(Ideal(), chain[..h], Body(Ideal(), s, h), nonce).(hash := Some(2 * h + nonce))
  {
    hide NextBlock, Body;
    var chain := Branch(s, nonce, k);
    BranchPrefix(s, nonce, k, h);
    BranchPrefix(s, nonce, k, h - 1);
    assert chain[h] == chain[..h + 1][h] && chain[h - 1] == chain[..h][h - 1];
  }

  lemma {:induction false} SameRoot(c: Crypto, d: Crypto, level: seq<Hash>)
    requires c.pairHash == d.pairHash && c.emptyHash == d.emptyHash
    ensures Merkle.MerkleRoot(c, level) == Merkle.MerkleRoot(d, level)
    decreases |level|
  {
    if |level| > 1 {
      var padded := Merkle.Padded(level);
      assert Merkle.Parents(c, padded) == Merkle.Parents(d, padded);
      SameRoot(c, d, Merkle.Parents(c, padded));
    }
  }

  lemma {:induction false} WorldParts(main: Script, side: Script, bytes: Block -> nat)
    ensures var c := World(main, side, bytes);
            && c.txHash == Ideal().txHash && c.pairHash == Ideal().pairHash && c.emptyHash == Ideal().emptyHash
            && c.blockBytes == bytes && forall h :: c.HeaderHash(h) == WorldHash(main, side, h)
  {
    hide OfBody, OfHeader, Mark, WorldHash;
  }

  lemma {:induction false} GenesisOfWorld(main: Script, side: Script, bytes: Block -> nat)
    ensures var c := World(main, side, bytes);
            Branch(main, 0, 0) == [Genesis(c)] && Branch(side, 1, 0) == [Genesis(c)]
  {
    hide OfBody, OfHeader, Mark, World;
    var c := World(main, side, bytes);
    WorldParts(main, side, bytes);
    assert GenesisTx(c) == GenesisTx(Ideal());
    SameRoot(c, Ideal(), [GenesisTx(c).txid]);
    assert GenesisHeader(c) == GenesisHeader(Ideal());
    assert OnBranch(main, 0, GenesisHeader(c));
  }

  lemma {:induction false} BranchIsMined(c: Crypto, s: Script, nonce: nat)
    requires c.pairHash == Ideal().pairHash && c.emptyHash == Ideal().emptyHash && nonce < 2
    requires Branch(s, nonce, 0) == [Genesis(c)] && s.height <= 400_000
    requires forall h :: OnBranch(s, nonce, h) ==> c.HeaderHash(h) == 2 * h.height + nonce
    ensures Mined(c, Branch(s, nonce, s.height), nonce)
    ensures forall h :: 0 < h <= s.height ==> Branch(s, nonce, s.height)[h].transactions == Body(Ideal(), s, h)
  {
    hide Body, Ideal, Genesis, TimeRules.MedianTimePast, Difficulty.NextUnits, Merkle.MerkleRoot;
    var chain := Branch(s, nonce, s.height);
    BranchPrefix(s, nonce, s.height, 0);
    assert chain[0] == chain[..1][0];
    forall h | 0 < h <= s.height
      ensures MinedAt(c, chain, nonce, h) && chain[h].transactions == Body(Ideal(), s, h)
    {
      BranchAt(s, nonce, s.height, h);
      SameRoot(c, Ideal(), TxIds(chain[h].transactions));
      assert OnBranch(s, nonce, chain[h].header);
    }
  }

  /** Both chains are mined in their world. */
  lemma {:induction false} WorldMines(main: Script, side: Script, bytes: Block -> nat)
    requires main.height <= 400_000 && side.height <= 400_000
    ensures var c := World(main, side, bytes);
            && Plays(c, main, Branch(main, 0, main.height), 0) && Plays(c, side, Branch(side, 1, side.height), 1)
  {
    hide OfBody, OfHeader, Mark, World, Branch, Mined, Body, Ideal, Lenient;
    var c := World(main, side, bytes);
    WorldParts(main, side, bytes);
    WorldIsCollisionFree(main, side, bytes);
    GenesisOfWorld(main, side, bytes);
    BranchIsMined(c, main, 0);
    BranchIsMined(c, side, 1);
    forall h ensures Body(c, main, h) == Body(Ideal(), main, h) && Body(c, side, h) == Body(Ideal(), side, h) {
      SameBody(c, Ideal(), main, h);
      SameBody(c, Ideal(), side, h);
    }
  }

  lemma {:induction false} SameBody(c: Crypto, d: Crypto, s: Script, h: nat)
    requires c.txHash == d.txHash
    ensures Body(c, s, h) == Body(d, s, h)
  {
  }

  // What a script plays out to

  /** The chain is mined and has the bodies of the script. */
  ghost predicate Plays(c: Crypto, s: Script, chain: seq<Block>, nonce: int) {
    && Lenient(c) && Mined(c, chain, nonce) && |chain| == s.height + 1
    && forall h :: 0 < h <= s.height ==> chain[h].transactions == Body(c, s, h)
  }

  function At(utxos: Utxos, op: Outpoint): Option<Utxo> {
    if op in utxos then Some(utxos[op]) else None
  }

  function Record(made: Option<nat>): Option<Utxo> {
    match made case None => None case Some(h) => Some(Minted("a", h))
  }

  /** A valid chain, and where the output of the coinbase is from in the carried and in the rebuilt set. */
  ghost predicate Scene(c: Crypto, chain: seq<Block>, now: int, carried: Option<nat>, rebuilt: Option<nat>) {
    && ValidAt(c, chain, now)
    && At(Carried(c, chain, now), MintedOutpoint(c)) == Record(carried)
    && At(BuildUtxos(chain), MintedOutpoint(c)) == Record(rebuilt)
  }

  lemma {:induction false} FirstTxLeaves(c: Crypto, s: Script, h: nat, utxos: Utxos)
    requires Lenient(c)
    ensures var cb := FirstTx(c, s, h);
            && CheckCoinbase(c, cb) == None && cb.body.outputs[0].amount == 500_000_000
            && At(ApplyTx(cb, utxos, Some(h)), MintedOutpoint(c))
               == if h in s.mints then Some(Minted("a", h)) else At(utxos, MintedOutpoint(c))
  {
    if h in s.mints {
      MintIsCoinbase(c, 0, "a", "height:500", utxos, h);
    } else {
      MintIsCoinbase(c, h, "f", "filler", utxos, h);
      if Filler(c, h).txid == Reminted(c).txid {
        c.SameTxId(Filler(c, h).body, Reminted(c).body);
      }
    }
  }

  /** One block of a script, coinbase last and coinbase first. */
  lemma {:induction false} BodyPlays(c: Crypto, s: Script, h: nat, carried: Utxos, rebuilt: Utxos)
    requires Lenient(c) && Playable(s) && 0 < h <= s.height
    requires At(carried, MintedOutpoint(c)) == Record(Carries(s, h - 1))
    requires At(rebuilt, MintedOutpoint(c)) == Record(Rebuilds(s, h - 1))
    ensures CheckBody(c, Body(c, s, h), carried, h).Ok?
    ensures At(CheckBody(c, Body(c, s, h), carried, h).value, MintedOutpoint(c)) == Record(Carries(s, h))
    ensures At(ApplyList(Body(c, s, h), rebuilt, h), MintedOutpoint(c)) == Record(Rebuilds(s, h))
  {
    hide ApplyTx, CheckTx, CheckCoinbase, CheckBody, ApplyList, FirstTx, InputKeys, Reminted, Spender;
    var cb := FirstTx(c, s, h);
    FirstTxLeaves(c, s, h, rebuilt);
    if h in s.pays {
      var tx := Spender(c, s.pays[h]);
      var after := ApplyTx(tx, carried, Some(h));
      SpenderValidates(c, s.pays[h], carried, Carries(s, h - 1).value, h);
      CoinbaseFacts(c, cb);
      SpenderSpends(c, s.pays[h], cb, carried, h);
      SpenderSpends(c, s.pays[h], cb, ApplyTx(cb, rebuilt, Some(h)), h);
      PaymentBody(c, cb, tx, carried, h);
      FirstTxLeaves(c, s, h, after);
      ListOfTwo(cb, tx, rebuilt, h);
    } else {
      MintBody(c, cb, carried, h);
      FirstTxLeaves(c, s, h, carried);
      ListOfOne(cb, rebuilt, h);
    }
  }

  lemma {:induction false} CoinbaseFacts(c: Crypto, cb: Tx)
    requires CheckCoinbase(c, cb) == None
    ensures IsCoinbase(cb) && c.TxId(cb.body) == cb.txid
  {
  }

  /** Every beginning of a playable script's chain is valid, and has the output exactly as the script tells. */
  lemma {:induction false} Play(c: Crypto, s: Script, chain: seq<Block>, nonce: int, k: nat) returns (now: int)
    requires Plays(c, s, chain, nonce) && Playable(s) && k <= s.height
    requires forall b :: c.BlockBytes(b) <= Consensus.MAX_BLOCK_BYTES
    ensures Scene(c, chain[..k + 1], now, Carries(s, k), Rebuilds(s, k))
  {
    hide Lenient, Mined, Playable, CheckChain, CheckBody, Flatten, State, ApplyList;
    if k == 0 {
      MinedFromGenesis(c, chain, nonce);
      GenesisChecks(c, 0);
      NothingYetMinted(s);
      now := 0;
    } else {
      var before := Play(c, s, chain, nonce, k - 1);
      BodyPlays(c, s, k, Carried(c, chain[..k], before), BuildUtxos(chain[..k]));
      now := MineNext(c, chain, nonce, k, before);
    }
  }

  lemma {:induction false} MinedFromGenesis(c: Crypto, chain: seq<Block>, nonce: int)
    requires Mined(c, chain, nonce)
    ensures chain[..1] == [Genesis(c)]
  {
  }

  lemma {:induction false} NothingYetMinted(s: Script)
    requires Playable(s)
    ensures Carries(s, 0) == None && Rebuilds(s, 0) == None
  {
  }

  lemma {:induction false} SceneFacts(c: Crypto, chain: seq<Block>, now: int, carried: Option<nat>,
                                      rebuilt: Option<nat>)
    requires Scene(c, chain, now, carried, rebuilt)
    ensures ValidAt(c, chain, now)
    ensures At(Carried(c, chain, now), MintedOutpoint(c)) == Record(carried)
    ensures At(BuildUtxos(chain), MintedOutpoint(c)) == Record(rebuilt)
  {
  }
}
