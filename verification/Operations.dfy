/**
 The three locked operations of `ChainState` as functions of the node's state. The ChainState class is proved
 to compute them; Runs states what holds over any interleaving of them.
 */
module Operations {
  import opened Prelude
  import opened Types
  import opened Ledger
  import opened Blocks
  import Consensus
  import Work

  const RECENT_BLOCKS := 200

  datatype Node = Node(chain: seq<Block>, mempool: seq<Tx>)
  datatype Outcome<T> = Outcome(node: Node, result: Result<T>)

  function IdSet(txs: seq<Tx>): (ids: set<Hash>)
    ensures forall id :: id in ids <==> exists i :: 0 <= i < |txs| && txs[i].txid == id
  {
    set tx | tx in txs :: tx.txid
  }

  function ChainIds(chain: seq<Block>): (ids: set<Hash>)
    ensures forall id :: id in ids <==> exists b :: 0 <= b < |chain| && id in IdSet(chain[b].transactions)
  {
    set b, id | b in chain && id in IdSet(b.transactions) :: id
  }

  function RecentIds(chain: seq<Block>): set<Hash> {
    ChainIds(chain[Max(0, |chain| - RECENT_BLOCKS)..])
  }

  /** The mempool without the transactions whose txid is in `ids`, in order. */
  function Without(mempool: seq<Tx>, ids: set<Hash>): seq<Tx> {
    if mempool == [] then []
    else
      var n := |mempool| - 1;
      Without(mempool[..n], ids) + (if mempool[n].txid in ids then [] else [mempool[n]])
  }

  /** `transactions[1:]`. */
  function AfterFirst(txs: seq<Tx>): seq<Tx> {
    if txs == [] then [] else txs[1..]
  }

  /** `_load`: what the two files hold, or a new node's state; only the stored hash of block 0 is looked at. */
  function Loaded(c: Crypto, chainFile: Option<seq<Block>>, mempoolFile: Option<seq<Tx>>): Result<Node> {
    var chain := if chainFile.Some? then chainFile.value else [Genesis(c)];
    if chain == [] || chain[0].hash != Some(GenesisHash(c)) then Err(GenesisMismatch)
    else Ok(Node(chain, if mempoolFile.Some? then mempoolFile.value else []))
  }

  function AddTransaction(c: Crypto, s: Node, tx: Tx): Outcome<Hash> {
    if IsCoinbase(tx) then Outcome(s, Err(UnexpectedCoinbase))
    else if tx.txid in IdSet(s.mempool) || tx.txid in RecentIds(s.chain) then Outcome(s, Ok(tx.txid))
    else if |s.mempool| >= Consensus.MAX_MEMPOOL_TRANSACTIONS then Outcome(s, Err(MempoolFull))
    else
      match CheckTx(c, tx, BuildWithMempool(s.chain, s.mempool), |s.chain|)
      case Err(e) => Outcome(s, Err(e))
      case Ok(_) => Outcome(s.(mempool := s.mempool + [tx]), Ok(tx.txid))
  }

  function SubmitBlock(c: Crypto, s: Node, block: Block, now: int): Outcome<Hash>
    requires s.chain != []
  {
    match CheckBlock(c, block, s.chain, BuildUtxos(s.chain), now)
    case Err(e) => Outcome(s, Err(e))
    case Ok(a) =>
      var included := IdSet(AfterFirst(a.block.transactions));
      Outcome(Node(s.chain + [a.block], Without(s.mempool, included)), Ok(BlockHash(c, a.block)))
  }

  /** The non-coinbase transactions of the old chain that the new chain does not confirm, in old-chain order. */
  function Orphans(chain: seq<Block>, confirmed: set<Hash>): seq<Tx> {
    if chain == [] then []
    else Orphans(chain[..|chain| - 1], confirmed) + Without(AfterFirst(chain[|chain| - 1].transactions), confirmed)
  }

  /** Best effort: each transaction is offered in turn and a refusal is ignored. */
  function AddAll(c: Crypto, s: Node, txs: seq<Tx>): Node {
    if txs == [] then s
    else AddTransaction(c, AddAll(c, s, txs[..|txs| - 1]), txs[|txs| - 1]).node
  }

  function ReplaceChain(c: Crypto, s: Node, candidate: seq<Block>, now: int): Outcome<bool>
    requires s.chain != []
  {
    match CheckChain(c, candidate, now)
    case Err(e) => Outcome(s, Err(e))
    case Ok(carry) =>
      var validated := carry.chain;
      if validated[|validated| - 1].hash == s.chain[|s.chain| - 1].hash then Outcome(s, Ok(false))
      else
        match (Work.ChainWork(validated), Work.ChainWork(s.chain))
        case (Err(e), _) => Outcome(s, Err(e))
        case (_, Err(e)) => Outcome(s, Err(e))
        case (Ok(remote), Ok(local)) =>
          if remote <= local then Outcome(s, Err(NotHeavier))
          else
            var confirmed := ChainIds(validated);
            var reset := Node(validated, Without(s.mempool, confirmed));
            Outcome(AddAll(c, reset, Orphans(s.chain, confirmed)), Ok(true))
  }

  lemma {:induction false} WithoutKeeps(mempool: seq<Tx>, ids: set<Hash>)
    ensures forall i :: 0 <= i < |Without(mempool, ids)| ==>
              Without(mempool, ids)[i] in mempool && Without(mempool, ids)[i].txid !in ids
    ensures forall tx :: tx in mempool && tx.txid !in ids ==> tx in Without(mempool, ids)
    ensures |Without(mempool, ids)| <= |mempool|
  {
    if mempool != [] {
      WithoutKeeps(mempool[..|mempool| - 1], ids);
    }
  }

  /** The filter keeps exactly the positions whose txid is not in `ids`, in their order. */
  lemma {:induction false} WithoutPicks(mempool: seq<Tx>, ids: set<Hash>) returns (at: seq<nat>)
    ensures Picks(Without(mempool, ids), mempool, at)
    ensures forall j :: 0 <= j < |mempool| ==> (j in at <==> mempool[j].txid !in ids)
  {
    if mempool == [] {
      at := [];
    } else {
      var n := |mempool| - 1;
      at := WithoutPicks(mempool[..n], ids);
      PicksNext(Without(mempool[..n], ids), mempool[..n], at, mempool[n]);
      assert mempool == mempool[..n] + [mempool[n]];
      assert forall j :: 0 <= j < n ==> mempool[..n][j] == mempool[j];
      assert n !in at;
      if mempool[n].txid !in ids {
        at := at + [n];
      }
    }
  }

  /** Offering transactions never touches the chain. */
  lemma {:induction false} AddAllKeepsChain(c: Crypto, s: Node, txs: seq<Tx>)
    ensures AddAll(c, s, txs).chain == s.chain
  {
    hide CheckTx;
    if txs != [] {
      AddAllKeepsChain(c, s, txs[..|txs| - 1]);
    }
  }
}
