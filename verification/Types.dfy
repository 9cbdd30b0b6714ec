/**
 The JSON dictionaries of node.py as typed records, and everything the model does not look into
 (SHA-256, JSON serialization, Ed25519) as the function fields of one `Crypto` value. Every result
 of the project is stated for an arbitrary `Crypto`; where collision freedom is needed it is an
 explicit hypothesis below.
 */
module Types {
  import opened Prelude

  /** A hash is the number its hex digits spell. It is unbounded so that collision freedom is satisfiable. */
  type Hash = nat

  datatype Outpoint = Outpoint(txid: Hash, vout: int)
  datatype TxIn = TxIn(prev: Outpoint, pubkey: string, signature: string)
  datatype TxOut = TxOut(address: string, amount: int)
  /** What `tx_id` hashes: the transaction without its `txid` field. */
  datatype TxBody = TxBody(timestamp: int, inputs: seq<TxIn>, outputs: seq<TxOut>, coinbase: Option<string>)
  datatype Tx = Tx(body: TxBody, txid: Hash)

  /** What `block_hash` hashes. */
  datatype Header = Header(version: int, height: int, prevHash: Hash, timestamp: int,
                           difficulty: int, merkleRoot: Hash, nonce: int)
  datatype Block = Block(header: Header, transactions: seq<Tx>, hash: Option<Hash>)

  datatype Utxo = Utxo(out: TxOut, createdHeight: Option<int>, coinbase: bool)
  type Utxos = map<Outpoint, Utxo>

  datatype Crypto = Crypto(
    txHash: TxBody -> Hash,
    headerHash: Header -> Hash,
    pairHash: (Hash, Hash) -> Hash,
    emptyHash: Hash,
    ownerOf: string -> string,
    addressOk: string -> bool,
    signatureOk: (string, string, TxBody, nat) -> bool,
    txBytes: Tx -> nat,
    blockBytes: Block -> nat
  ) {
    function TxId(body: TxBody): Hash { txHash(body) }
    function HeaderHash(header: Header): Hash { headerHash(header) }
    function Pair(left: Hash, right: Hash): Hash { pairHash(left, right) }
    /** `address_from_pubkey`. */
    function OwnerOf(pubkey: string): string { ownerOf(pubkey) }
    /** `validate_address`; the Addresses module proves what it promises. */
    predicate AddressOk(address: string) { addressOk(address) }
    /** The Ed25519 check of input `index` against `signing_message`. */
    predicate SignatureOk(pubkey: string, signature: string, body: TxBody, index: nat) {
      signatureOk(pubkey, signature, body, index)
    }
    function TxBytes(tx: Tx): nat { txBytes(tx) }
    function BlockBytes(block: Block): nat { blockBytes(block) }

    ghost predicate TxIdsInjective() {
      forall a, b :: TxId(a) == TxId(b) ==> a == b
    }

    ghost predicate HeaderHashInjective() {
      forall a, b :: HeaderHash(a) == HeaderHash(b) ==> a == b
    }

    ghost predicate PairInjective() {
      forall a, b, x, y :: Pair(a, b) == Pair(x, y) ==> a == x && b == y
    }

    ghost predicate LeavesAreNotNodes() {
      forall body, x, y :: TxId(body) != Pair(x, y)
    }

    /** The collision-free idealization of all three uses of SHA-256. */
    ghost predicate CollisionFree() {
      TxIdsInjective() && HeaderHashInjective() && PairInjective() && LeavesAreNotNodes()
    }

    lemma {:induction false} SameTxId(a: TxBody, b: TxBody)
      requires TxIdsInjective() && TxId(a) == TxId(b)
      ensures a == b
    {
    }
  }

  predicate IsCoinbase(tx: Tx) {
    tx.body.coinbase.Some?
  }

  /** `block_hash`: the hash of the header fields alone. */
  function BlockHash(c: Crypto, block: Block): Hash {
    c.HeaderHash(block.header)
  }

  function Times(blocks: seq<Block>): (ts: seq<int>)
    ensures |ts| == |blocks|
    ensures forall i :: 0 <= i < |ts| ==> ts[i] == blocks[i].header.timestamp
  {
    seq(|blocks|, i requires 0 <= i < |blocks| => blocks[i].header.timestamp)
  }

  function TxIds(txs: seq<Tx>): (ids: seq<Hash>)
    ensures |ids| == |txs|
    ensures forall i :: 0 <= i < |ids| ==> ids[i] == txs[i].txid
  {
    seq(|txs|, i requires 0 <= i < |txs| => txs[i].txid)
  }
}
