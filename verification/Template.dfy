/** `mining_template`: what it selects, how it shrinks, and which validation rules its block can still fail. */
module Template {
  import opened Prelude
  import opened Types
  import opened Ledger
  import opened Blocks
  import opened History
  import opened Mempool
  import Acceptance
  import Consensus
  import Difficulty
  import Merkle
  import Orders
  import TimeRules
  import Work

  // The coinbase text

  function Digit(d: nat): char
    requires d < 10
  {
    '0' + d as char
  }

  function Decimal(n: nat): string {
    if n < 10 then [Digit(n)] else Decimal(n / 10) + [Digit(n % 10)]
  }

  function TagSuffix(tag: string): string {
    if tag == "" then "" else "|pool:" + tag
  }

  /** `height:{height}`, and `|pool:{tag}` for a nonempty normalized tag. */
  function CoinbaseText(height: nat, tag: string): string {
    "height:" + (Decimal(height) + TagSuffix(tag))
  }

  lemma {:induction false} DecimalIsDigits(n: nat)
    ensures |Decimal(n)| > 0 && forall i :: 0 <= i < |Decimal(n)| ==> Decimal(n)[i] != '|'
  {
    if n >= 10 {
      DecimalIsDigits(n / 10);
    }
  }

  /** The number that a string of digits spells, most significant first. */
  function Spelled(s: string): int {
    if s == "" then 0 else 10 * Spelled(s[..|s| - 1]) + (s[|s| - 1] as int - '0' as int)
  }

  /** The height is written in decimal without leading zeros. */
  lemma {:induction false} DecimalSpells(n: nat)
    ensures Spelled(Decimal(n)) == n && (n > 0 ==> Decimal(n)[0] != '0')
    ensures Decimal(n) != ""
  {
    if n >= 10 {
      DecimalSpells(n / 10);
      assert Decimal(n)[..|Decimal(n)| - 1] == Decimal(n / 10);
    } else {
      assert Decimal(n)[..0] == "";
    }
  }

  lemma {:induction false} DecimalInjective(a: nat, b: nat)
    requires Decimal(a) == Decimal(b)
    ensures a == b
    decreases a
  {
    DecimalIsDigits(a / 10);
    DecimalIsDigits(b / 10);
    var s, t := Decimal(a), Decimal(b);
    assert s[|s| - 1] == Digit(a % 10) && t[|t| - 1] == Digit(b % 10);
    if a >= 10 && b >= 10 {
      assert s[..|s| - 1] == Decimal(a / 10) && t[..|t| - 1] == Decimal(b / 10);
      DecimalInjective(a / 10, b / 10);
    }
  }

  lemma {:induction false} BarAfterDigits(n: nat, tag: string)
    ensures var d, s := Decimal(n), Decimal(n) + TagSuffix(tag);
            && (forall k :: 0 <= k < |d| ==> s[k] != '|')
            && (|s| > |d| ==> s[|d|] == '|')
  {
    DecimalIsDigits(n);
    assert forall k :: 0 <= k < |Decimal(n)| ==> (Decimal(n) + TagSuffix(tag))[k] == Decimal(n)[k];
  }

  lemma {:induction false} NotLonger(a: nat, b: nat, x: string, y: string)
    requires Decimal(a) + TagSuffix(x) == Decimal(b) + TagSuffix(y)
    ensures |Decimal(a)| >= |Decimal(b)|
  {
    BarAfterDigits(a, x);
    BarAfterDigits(b, y);
  }

  /** The coinbase text determines the height, whatever the pool tags. */
  lemma {:induction false} TextDeterminesHeight(a: nat, b: nat, x: string, y: string)
    requires CoinbaseText(a, x) == CoinbaseText(b, y)
    ensures a == b
  {
    hide Decimal;
    assert CoinbaseText(a, x)[7..] == Decimal(a) + TagSuffix(x);
    assert CoinbaseText(b, y)[7..] == Decimal(b) + TagSuffix(y);
    NotLonger(a, b, x, y);
    NotLonger(b, a, y, x);
    assert (Decimal(a) + TagSuffix(x))[..|Decimal(a)|] == Decimal(a);
    assert (Decimal(b) + TagSuffix(y))[..|Decimal(b)|] == Decimal(b);
    DecimalInjective(a, b);
  }

  /** The coinbase of a block at `height` is as `mining_template` writes it. */
  ghost predicate HasTemplateCoinbase(c: Crypto, block: Block, height: nat) {
    && block.transactions != []
    && c.TxId(block.transactions[0].body) == block.transactions[0].txid
    && exists tag :: block.transactions[0].body.coinbase == Some(CoinbaseText(height, tag))
  }

  /** On a chain of template-made blocks the coinbase txids are distinct: the height is in the text. */
  lemma {:induction false} TemplateCoinbasesAreDistinct(c: Crypto, chain: seq<Block>)
    requires c.TxIdsInjective() && chain != [] && chain[0] == Genesis(c)
    requires forall i :: 0 < i < |chain| ==> HasTemplateCoinbase(c, chain[i], i)
    ensures DistinctCoinbases(chain)
  {
    hide CoinbaseText;
    forall i, j | 0 <= i < |chain| && 0 <= j < |chain| && i < j
      ensures chain[i].transactions[0].txid != chain[j].transactions[0].txid
    {
      var a, b := chain[i].transactions[0], chain[j].transactions[0];
      if a.txid == b.txid {
        if i == 0 {
          NotGenesisMessage(j, a, b);
        } else {
          SameTextSameHeight(i, j, a, b);
        }
        c.SameTxId(a.body, b.body);
      }
    }
  }

  lemma {:induction false} NotGenesisMessage(height: nat, a: Tx, b: Tx)
    requires a.body.coinbase == Some(GENESIS_MESSAGE)
    requires exists tag :: b.body.coinbase == Some(CoinbaseText(height, tag))
    ensures a.body != b.body
  {
    var tag :| b.body.coinbase == Some(CoinbaseText(height, tag));
    assert CoinbaseText(height, tag)[0] == 'h';
    assert GENESIS_MESSAGE[0] == 'G';
  }

  lemma {:induction false} SameTextSameHeight(i: nat, j: nat, a: Tx, b: Tx)
    requires i != j
    requires exists tag :: a.body.coinbase == Some(CoinbaseText(i, tag))
    requires exists tag :: b.body.coinbase == Some(CoinbaseText(j, tag))
    ensures a.body != b.body
  {
    hide CoinbaseText;
    var x :| a.body.coinbase == Some(CoinbaseText(i, x));
    var y :| b.body.coinbase == Some(CoinbaseText(j, y));
    if a.body == b.body {
      TextDeterminesHeight(i, j, x, y);
    }
  }

  // Selection

  datatype Selection = Selection(txs: seq<Tx>, utxos: Utxos, fees: int)

  /** The first `n` mempool entries considered in order: what does not validate is passed over. */
  function Select(c: Crypto, mempool: seq<Tx>, n: nat, utxos: Utxos, height: int): Selection
    requires n <= |mempool|
  {
    if n == 0 then Selection([], utxos, 0)
    else
      var s := Select(c, mempool, n - 1, utxos, height);
      if |s.txs| + 1 >= Consensus.MAX_BLOCK_TRANSACTIONS then s
      else
        match CheckTx(c, mempool[n - 1], s.utxos, height)
        case Err(_) => s
        case Ok(fee) =>
          Selection(s.txs + [mempool[n - 1]], ApplyTx(mempool[n - 1], s.utxos, Some(height)), s.fees + fee)
  }

  /** The selected transactions validated again in order; the first objection ends it. */
  function Revalidate(c: Crypto, txs: seq<Tx>, utxos: Utxos, height: int): Result<Applied> {
    if txs == [] then Ok(Applied(utxos, 0))
    else
      var n := |txs| - 1;
      var before :- Revalidate(c, txs[..n], utxos, height);
      var fee :- CheckTx(c, txs[n], before.utxos, height);
      Ok(Applied(ApplyTx(txs[n], before.utxos, Some(height)), before.fees + fee))
  }

  // The block

  function BlockTime(chain: seq<Block>, now: int): int {
    Max(now, TimeRules.MedianTimePast(chain) + 1)
  }

  function Coinbase(c: Crypto, height: nat, timestamp: int, address: string, tag: string, amount: int): Tx {
    var body := TxBody(timestamp, [], [TxOut(address, amount)], Some(CoinbaseText(height, tag)));
    Tx(body, c.TxId(body))
  }

  function Assemble(c: Crypto, chain: seq<Block>, timestamp: int, address: string, tag: string, txs: seq<Tx>,
                    amount: int): Block
    requires chain != [] && chain[|chain| - 1].hash.Some?
  {
    var all := [Coinbase(c, |chain|, timestamp, address, tag, amount)] + txs;
    var units, root := Difficulty.NextUnits(chain), Merkle.MerkleRoot(c, TxIds(all));
    Block(Header(VERSION, |chain|, chain[|chain| - 1].hash.value, timestamp, units, root, 0), all, None)
  }

  /** While the block is over the byte limit the last transaction is dropped and the rest is priced again. */
  function Shrink(c: Crypto, chain: seq<Block>, timestamp: int, address: string, tag: string, txs: seq<Tx>,
                  block: Block): Result<Block>
    requires chain != [] && chain[|chain| - 1].hash.Some?
    decreases |txs|
  {
    if c.BlockBytes(block) <= Consensus.MAX_BLOCK_BYTES || txs == [] then Ok(block)
    else
      var rest := txs[..|txs| - 1];
      var applied :- Revalidate(c, rest, BuildUtxos(chain), |chain|);
      var amount :- ExpectedCoinbaseValue(|chain|, applied.fees);
      Shrink(c, chain, timestamp, address, tag, rest, Assemble(c, chain, timestamp, address, tag, rest, amount))
  }

  function MiningTemplate(c: Crypto, chain: seq<Block>, mempool: seq<Tx>, address: string, tag: string,
                          now: int): Result<Block>
    requires chain != [] && chain[|chain| - 1].hash.Some?
  {
    if !c.AddressOk(address) then Err(BadAddress)
    else
      var s := Select(c, mempool, |mempool|, BuildUtxos(chain), |chain|);
      var amount :- ExpectedCoinbaseValue(|chain|, s.fees);
      var timestamp := BlockTime(chain, now);
      Shrink(c, chain, timestamp, address, tag, s.txs, Assemble(c, chain, timestamp, address, tag, s.txs, amount))
  }

  // What is selected

  lemma {:induction false} RevalidateStep(c: Crypto, txs: seq<Tx>, tx: Tx, utxos: Utxos, height: int)
    ensures Revalidate(c, txs + [tx], utxos, height)
         == match Revalidate(c, txs, utxos, height)
            case Err(e) => Err(e)
            case Ok(before) =>
              match CheckTx(c, tx, before.utxos, height)
              case Err(e) => Err(e)
              case Ok(fee) => Ok(Applied(ApplyTx(tx, before.utxos, Some(height)), before.fees + fee))
  {
    hide CheckTx, ApplyTx;
    assert (txs + [tx])[..|txs|] == txs;
  }

  lemma {:induction false} NothingToRevalidate(c: Crypto, mempool: seq<Tx>, utxos: Utxos, height: int)
    ensures Select(c, mempool, 0, utxos, height) == Selection([], utxos, 0)
    ensures Revalidate(c, [], utxos, height) == Ok(Applied(utxos, 0))
  {
  }

  lemma {:induction false} SelectStep(c: Crypto, mempool: seq<Tx>, n: nat, utxos: Utxos, height: int)
    requires 0 < n <= |mempool|
    ensures var s, t := Select(c, mempool, n - 1, utxos, height), Select(c, mempool, n, utxos, height);
            var r := CheckTx(c, mempool[n - 1], s.utxos, height);
            if r.Err? || |s.txs| >= 999 then t == s
            else
              var after := ApplyTx(mempool[n - 1], s.utxos, Some(height));
              t == Selection(s.txs + [mempool[n - 1]], after, s.fees + r.value)
  {
    hide CheckTx, ApplyTx;
  }

  /** Validating the selection again from the start gives the same fees and the same UTXO set. */
  lemma {:induction false} SelectionRevalidates(c: Crypto, mempool: seq<Tx>, n: nat, utxos: Utxos, height: int)
    requires n <= |mempool|
    ensures var s := Select(c, mempool, n, utxos, height);
            && Revalidate(c, s.txs, utxos, height) == Ok(Applied(s.utxos, s.fees))
            && |s.txs| < Consensus.MAX_BLOCK_TRANSACTIONS
  {
    NothingToRevalidate(c, mempool, utxos, height);
    hide CheckTx, ApplyTx, Select, Revalidate;
    if n > 0 {
      SelectionRevalidates(c, mempool, n - 1, utxos, height);
      SelectStep(c, mempool, n, utxos, height);
      RevalidateStep(c, Select(c, mempool, n - 1, utxos, height).txs, mempool[n - 1], utxos, height);
    }
  }

  /**
   In mempool order, exactly those entries are chosen before which fewer than 999 are chosen and which validate against
   the chain's set after the ones chosen before them: nothing that could be mined is passed over.
   */
  ghost predicate ChosenInTurn(c: Crypto, mempool: seq<Tx>, n: nat, chosen: seq<Tx>, at: seq<nat>, utxos: Utxos, h: int)
    requires n <= |mempool|
  {
    && Picks(chosen, mempool[..n], at)
    && forall j: nat, k: nat :: j < n && CountTo(at, j, k) ==>
         (j in at <==> k < 999 && CheckTx(c, mempool[j], Orders.ApplyList(chosen[..k], utxos, h), h).Ok?)
  }

  lemma {:induction false} SelectionIsGreedy(c: Crypto, mempool: seq<Tx>, n: nat, utxos: Utxos, h: int)
    returns (at: seq<nat>)
    requires n <= |mempool|
    ensures var s := Select(c, mempool, n, utxos, h);
            ChosenInTurn(c, mempool, n, s.txs, at, utxos, h) && s.utxos == Orders.ApplyList(s.txs, utxos, h)
  {
    hide CheckTx, ApplyTx, Select, ChosenInTurn, Orders.ApplyList;
    if n == 0 {
      at := NothingChosen(c, mempool, utxos, h);
    } else {
      var s := Select(c, mempool, n - 1, utxos, h);
      at := SelectionIsGreedy(c, mempool, n - 1, utxos, h);
      var taken := |s.txs| < 999 && CheckTx(c, mempool[n - 1], s.utxos, h).Ok?;
      SelectStep(c, mempool, n, utxos, h);
      ChosenNext(c, mempool, n, s.txs, at, utxos, h, taken);
      ListNext(s.txs, mempool[n - 1], utxos, h);
      at := if taken then at + [n - 1] else at;
    }
  }

  lemma {:induction false} NothingChosen(c: Crypto, mempool: seq<Tx>, utxos: Utxos, h: int) returns (at: seq<nat>)
    ensures ChosenInTurn(c, mempool, 0, [], at, utxos, h)
    ensures Select(c, mempool, 0, utxos, h) == Selection([], utxos, 0) && Orders.ApplyList([], utxos, h) == utxos
  {
    at := [];
  }

  lemma {:induction false} ListNext(txs: seq<Tx>, tx: Tx, utxos: Utxos, h: int)
    ensures Orders.ApplyList(txs + [tx], utxos, h) == ApplyTx(tx, Orders.ApplyList(txs, utxos, h), Some(h))
  {
    assert (txs + [tx])[..|txs|] == txs;
  }

  lemma {:induction false} ChosenAt(c: Crypto, mempool: seq<Tx>, n: nat, chosen: seq<Tx>, at: seq<nat>, utxos: Utxos,
                                    h: int, j: nat, k: nat)
    requires 0 < n <= |mempool| && ChosenInTurn(c, mempool, n - 1, chosen, at, utxos, h)
    requires j < n && CountTo(at, j, k)
    ensures k <= |chosen|
    ensures j < n - 1 ==>
              (j in at <==> k < 999 && CheckTx(c, mempool[j], Orders.ApplyList(chosen[..k], utxos, h), h).Ok?)
    ensures j == n - 1 ==> chosen[..k] == chosen && k == |chosen| && j !in at
  {
    hide CheckTx, Orders.ApplyList;
    if j == n - 1 {
      assert forall i :: 0 <= i < |at| ==> at[i] < j;
      if |at| > 0 {
        assert at[|at| - 1] < j;
      }
    }
  }

  lemma {:induction false} ChosenNext(c: Crypto, mempool: seq<Tx>, n: nat, chosen: seq<Tx>, at: seq<nat>, utxos: Utxos,
                                      h: int, taken: bool)
    requires 0 < n <= |mempool| && ChosenInTurn(c, mempool, n - 1, chosen, at, utxos, h)
    requires taken <==> |chosen| < 999 && CheckTx(c, mempool[n - 1], Orders.ApplyList(chosen, utxos, h), h).Ok?
    ensures if taken then ChosenInTurn(c, mempool, n, chosen + [mempool[n - 1]], at + [n - 1], utxos, h)
            else ChosenInTurn(c, mempool, n, chosen, at, utxos, h)
  {
    hide CheckTx, Orders.ApplyList;
    var tx := mempool[n - 1];
    assert mempool[..n] == mempool[..n - 1] + [tx];
    PicksNext(chosen, mempool[..n - 1], at, tx);
    forall j: nat, k: nat | j < n && CountTo(at, j, k)
      ensures k <= |chosen| && (chosen + [tx])[..k] == chosen[..k]
      ensures j < n - 1 ==>
                (j in at <==> k < 999 && CheckTx(c, mempool[j], Orders.ApplyList(chosen[..k], utxos, h), h).Ok?)
      ensures j == n - 1 ==> chosen[..k] == chosen && k == |chosen| && j !in at
    {
      ChosenAt(c, mempool, n, chosen, at, utxos, h, j, k);
    }
    if taken {
      hide CountTo;
      forall j: nat, k: nat | j < n && CountTo(at + [n - 1], j, k) ensures CountTo(at, j, k) {
        CountToShorter(at, n - 1, j, k);
      }
    }
  }

  /** `part` has its transactions among the first `n` of `txs`. */
  ghost predicate AmongFirst(part: seq<Tx>, txs: seq<Tx>, n: nat) {
    forall i :: 0 <= i < |part| ==> exists j :: 0 <= j < n && j < |txs| && txs[j] == part[i]
  }

  lemma {:induction false} AmongFirstStep(part: seq<Tx>, txs: seq<Tx>, n: nat)
    requires n < |txs| && AmongFirst(part, txs, n)
    ensures AmongFirst(part, txs, n + 1) && AmongFirst(part + [txs[n]], txs, n + 1)
    ensures DistinctTxids(txs) && DistinctTxids(part) ==> DistinctTxids(part + [txs[n]])
  {
  }

  lemma {:induction false} SelectionIsDistinct(c: Crypto, mempool: seq<Tx>, n: nat, utxos: Utxos, height: int)
    requires n <= |mempool|
    ensures AmongFirst(Select(c, mempool, n, utxos, height).txs, mempool, n)
    ensures DistinctTxids(mempool) ==> DistinctTxids(Select(c, mempool, n, utxos, height).txs)
  {
    hide CheckTx, ApplyTx, AmongFirst, DistinctTxids;
    if n > 0 {
      SelectionIsDistinct(c, mempool, n - 1, utxos, height);
      AmongFirstStep(Select(c, mempool, n - 1, utxos, height).txs, mempool, n - 1);
    } else {
      NothingSelected(mempool);
    }
  }

  lemma {:induction false} NothingSelected(mempool: seq<Tx>)
    ensures AmongFirst([], mempool, 0) && DistinctTxids([])
  {
  }

  lemma {:induction false} PrefixRevalidates(c: Crypto, txs: seq<Tx>, n: nat, utxos: Utxos, height: int)
    requires n <= |txs| && Revalidate(c, txs, utxos, height).Ok?
    ensures Revalidate(c, txs[..n], utxos, height).Ok?
  {
    hide CheckTx, ApplyTx;
    if n < |txs| {
      PrefixRevalidates(c, txs[..|txs| - 1], n, utxos, height);
      assert txs[..|txs| - 1][..n] == txs[..n];
    } else {
      assert txs[..n] == txs;
    }
  }

  /** Every selected transaction is a normal one under its own txid, and fees never go negative. */
  lemma {:induction false} RevalidatedAreHonest(c: Crypto, txs: seq<Tx>, utxos: Utxos, height: int)
    requires Revalidate(c, txs, utxos, height).Ok?
    ensures Revalidate(c, txs, utxos, height).value.fees >= 0
    ensures forall i :: 0 <= i < |txs| ==> !IsCoinbase(txs[i]) && c.TxId(txs[i].body) == txs[i].txid
  {
    hide CheckTx, ApplyTx;
    if txs != [] {
      var n := |txs| - 1;
      RevalidatedAreHonest(c, txs[..n], utxos, height);
      CheckTxAccepts(c, txs[n], Revalidate(c, txs[..n], utxos, height).value.utxos, height);
    }
  }

  // Validation of the assembled block

  /** The validator's forward pass over a block body agrees with the selection. */
  lemma {:induction false} BodyAgrees(c: Crypto, coinbase: Tx, txs: seq<Tx>, i: nat, utxos: Utxos, height: int)
    requires i <= |txs| && Revalidate(c, txs, utxos, height).Ok?
    requires DistinctTxids([coinbase] + txs)
    requires Revalidate(c, txs[..i], utxos, height).Ok?
    ensures var at := Revalidate(c, txs[..i], utxos, height).value;
            CheckTxs(c, [coinbase] + txs, i + 1, at.utxos, height, at.fees) == Revalidate(c, txs, utxos, height)
    decreases |txs| - i
  {
    hide CheckTx, ApplyTx;
    var all := [coinbase] + txs;
    if i == |txs| {
      assert txs[..i] == txs;
    } else {
      PrefixRevalidates(c, txs, i + 1, utxos, height);
      assert txs[..i + 1] == txs[..i] + [txs[i]];
      RevalidateStep(c, txs[..i], txs[i], utxos, height);
      BodyAgrees(c, coinbase, txs, i + 1, utxos, height);
      assert all[i + 1] == txs[i];
      NotSeenBefore(all, i + 1);
    }
  }

  lemma {:induction false} NotSeenBefore(txs: seq<Tx>, i: nat)
    requires DistinctTxids(txs) && i < |txs|
    ensures txs[i].txid !in TxIds(txs[..i])
  {
  }

  lemma {:induction false} CoinbaseIsDistinct(c: Crypto, coinbase: Tx, txs: seq<Tx>)
    requires c.TxIdsInjective() && IsCoinbase(coinbase) && c.TxId(coinbase.body) == coinbase.txid
    requires DistinctTxids(txs)
    requires forall i :: 0 <= i < |txs| ==> !IsCoinbase(txs[i]) && c.TxId(txs[i].body) == txs[i].txid
    ensures DistinctTxids([coinbase] + txs)
  {
    forall i | 0 <= i < |txs| ensures coinbase.txid != txs[i].txid {
      if coinbase.txid == txs[i].txid {
        c.SameTxId(coinbase.body, txs[i].body);
      }
    }
  }

  /**
   A block that `mining_template` may return: some revalidated distinct selection, assembled with its exact reward.
   */
  ghost predicate IsTemplate(c: Crypto, chain: seq<Block>, address: string, tag: string, timestamp: int, txs: seq<Tx>,
                             block: Block)
    requires chain != [] && chain[|chain| - 1].hash.Some?
  {
    && c.AddressOk(address) && DistinctTxids(txs) && |txs| < Consensus.MAX_BLOCK_TRANSACTIONS
    && Revalidate(c, txs, BuildUtxos(chain), |chain|).Ok?
    && var fees := Revalidate(c, txs, BuildUtxos(chain), |chain|).value.fees;
       block == Assemble(c, chain, timestamp, address, tag, txs, Consensus.BlockSubsidy(|chain|) + fees)
  }

  /** The block with these payments is over the byte limit. */
  ghost predicate OverLimit(c: Crypto, chain: seq<Block>, address: string, tag: string, timestamp: int, txs: seq<Tx>)
    requires chain != [] && chain[|chain| - 1].hash.Some?
  {
    exists block :: IsTemplate(c, chain, address, tag, timestamp, txs, block) && c.BlockBytes(block) > 2_000_000
  }

  lemma {:induction false} ShrinkKeepsTemplate(c: Crypto, chain: seq<Block>, timestamp: int, address: string,
                                               tag: string, txs: seq<Tx>, block: Block)
    returns (kept: nat)
    requires chain != [] && chain[|chain| - 1].hash.Some? && IsTemplate(c, chain, address, tag, timestamp, txs, block)
    ensures kept <= |txs|
    ensures var r := Shrink(c, chain, timestamp, address, tag, txs, block);
            && r.Ok? && IsTemplate(c, chain, address, tag, timestamp, txs[..kept], r.value)
            && (c.BlockBytes(r.value) <= Consensus.MAX_BLOCK_BYTES || kept == 0)
    ensures forall m :: kept < m <= |txs| ==> OverLimit(c, chain, address, tag, timestamp, txs[..m])
    decreases |txs|
  {
    hide Assemble, Revalidate, BuildUtxos, Consensus.BlockSubsidy;
    if c.BlockBytes(block) <= Consensus.MAX_BLOCK_BYTES || txs == [] {
      kept := |txs|;
      assert txs[..kept] == txs;
    } else {
      var rest := txs[..|txs| - 1];
      PrefixRevalidates(c, txs, |txs| - 1, BuildUtxos(chain), |chain|);
      RevalidatedAreHonest(c, rest, BuildUtxos(chain), |chain|);
      var amount := Consensus.BlockSubsidy(|chain|) + Revalidate(c, rest, BuildUtxos(chain), |chain|).value.fees;
      var smaller := Assemble(c, chain, timestamp, address, tag, rest, amount);
      kept := ShrinkKeepsTemplate(c, chain, timestamp, address, tag, rest, smaller);
      assert rest[..kept] == txs[..kept];
      forall m | kept < m <= |txs| ensures OverLimit(c, chain, address, tag, timestamp, txs[..m]) {
        if m < |txs| {
          assert rest[..m] == txs[..m];
        } else {
          assert txs[..m] == txs;
        }
      }
    }
  }

  /** With a valid address `mining_template` never raises, in the shrink loop either. */
  lemma {:induction false} TemplateSucceeds(c: Crypto, chain: seq<Block>, mempool: seq<Tx>, address: string,
                                            tag: string, now: int)
    returns (txs: seq<Tx>)
    requires chain != [] && chain[|chain| - 1].hash.Some? && DistinctTxids(mempool) && c.AddressOk(address)
    ensures var r := MiningTemplate(c, chain, mempool, address, tag, now);
            && r.Ok? && IsTemplate(c, chain, address, tag, BlockTime(chain, now), txs, r.value)
            && (c.BlockBytes(r.value) <= Consensus.MAX_BLOCK_BYTES || txs == [])
  {
    hide Assemble, Revalidate, BuildUtxos, Consensus.BlockSubsidy, BlockTime, Shrink, Select;
    var utxos := BuildUtxos(chain);
    var s := Select(c, mempool, |mempool|, utxos, |chain|);
    SelectionRevalidates(c, mempool, |mempool|, utxos, |chain|);
    SelectionIsDistinct(c, mempool, |mempool|, utxos, |chain|);
    RevalidatedAreHonest(c, s.txs, utxos, |chain|);
    var amount := Consensus.BlockSubsidy(|chain|) + s.fees;
    var block := Assemble(c, chain, BlockTime(chain, now), address, tag, s.txs, amount);
    var kept := ShrinkKeepsTemplate(c, chain, BlockTime(chain, now), address, tag, s.txs, block);
    txs := s.txs[..kept];
  }

  /** The template with the nonce and timestamp a worker reports. */
  function WithWork(block: Block, nonce: int, timestamp: int): Block {
    block.(header := block.header.(nonce := nonce, timestamp := timestamp))
  }

  lemma {:induction false} TemplateBody(c: Crypto, chain: seq<Block>, address: string, tag: string, timestamp: int,
                                        txs: seq<Tx>, block: Block)
    requires chain != [] && chain[|chain| - 1].hash.Some? && c.TxIdsInjective()
    requires IsTemplate(c, chain, address, tag, timestamp, txs, block)
    ensures block.transactions != [] && CheckBody(c, block.transactions, BuildUtxos(chain), |chain|).Ok?
  {
    hide Revalidate, BuildUtxos, Consensus.BlockSubsidy, CoinbaseText, CheckTxs, ApplyTx, Difficulty.NextUnits,
         Merkle.MerkleRoot;
    var coinbase, utxos := block.transactions[0], BuildUtxos(chain);
    assert block.transactions == [coinbase] + txs;
    RevalidatedAreHonest(c, txs, utxos, |chain|);
    CoinbaseIsDistinct(c, coinbase, txs);
    NothingToRevalidate(c, [], utxos, |chain|);
    assert txs[..0] == [];
    BodyAgrees(c, coinbase, txs, 0, utxos, |chain|);
  }

  lemma {:induction false} TemplateFields(c: Crypto, chain: seq<Block>, address: string, tag: string, timestamp: int,
                                          txs: seq<Tx>, block: Block)
    requires chain != [] && chain[|chain| - 1].hash.Some?
    requires IsTemplate(c, chain, address, tag, timestamp, txs, block)
    ensures block.header.height == |chain| && chain[|chain| - 1].hash == Some(block.header.prevHash)
    ensures block.header.version == VERSION && block.header.difficulty == Difficulty.NextUnits(chain)
    ensures 1 <= |block.transactions| == 1 + |txs| <= Consensus.MAX_BLOCK_TRANSACTIONS && block.hash == None
    ensures Merkle.MerkleRoot(c, TxIds(block.transactions)) == block.header.merkleRoot
    ensures block.header.timestamp == timestamp && block.header.nonce == 0
  {
    hide Revalidate, BuildUtxos, Difficulty.NextUnits, Merkle.MerkleRoot, Coinbase, Consensus.BlockSubsidy;
    assert |block.transactions| == 1 + |txs|;
  }

  lemma {:induction false} TimestampRule(chain: seq<Block>, solved: int, clock: int)
    requires chain != [] && TimeRules.MedianTimePast(chain) < solved
    ensures TimeRules.ValidateTimestamp(chain, solved, clock)
         == if solved > clock + 7_200 then Some(TimestampTooNew) else None
  {
    hide TimeRules.MedianTimePast;
  }

  /** The verdict on a template at any nonce, at its own or any later timestamp, and at any clock. */
  function Verdict(c: Crypto, block: Block, clock: int): Option<Error> {
    if block.header.timestamp > clock + 7_200 then Some(TimestampTooNew)
    else if c.BlockBytes(block) > 2_000_000 then Some(BlockTooLarge)
    else if !Work.MeetsWork(BlockHash(c, block), block.header.difficulty, VERSION) then Some(NoWork)
    else None
  }

  /**
   Exactly three rules can still reject a template once it has a nonce and a timestamp: two hours ahead of the
   clock, over the byte limit, not enough work. Everything else passes, whatever the chain and the mempool.
   */
  lemma {:induction false} OnlyTimeSizeAndWork(c: Crypto, chain: seq<Block>, address: string, tag: string,
                                               timestamp: int, txs: seq<Tx>, block: Block, nonce: int, solved: int,
                                               clock: int)
    requires chain != [] && chain[|chain| - 1].hash.Some? && c.TxIdsInjective()
    requires IsTemplate(c, chain, address, tag, timestamp, txs, block)
    requires TimeRules.MedianTimePast(chain) < timestamp <= solved
    ensures var b := WithWork(block, nonce, solved);
            var r := CheckBlock(c, b, chain, BuildUtxos(chain), clock);
            match Verdict(c, b, clock) case Some(e) => r == Err(e) case None => r.Ok?
  {
    hide IsTemplate, BuildUtxos, CheckBody, TimeRules.MedianTimePast, TimeRules.ValidateTimestamp, Difficulty.NextUnits,
         Merkle.MerkleRoot, Work.MeetsWork;
    TemplateFields(c, chain, address, tag, timestamp, txs, block);
    TemplateBody(c, chain, address, tag, timestamp, txs, block);
    TimestampRule(chain, solved, clock);
  }

  /**
   Template soundness: for any chain tip and any mempool with distinct txids, stale and conflicting entries
   included, the template meets every rule but the proof of work whenever median time past + 1 is at most two hours
   ahead, unless the block with no transaction but the coinbase is itself over the byte limit.
   */
  lemma {:induction false} TemplateIsValid(c: Crypto, chain: seq<Block>, mempool: seq<Tx>, address: string, tag: string,
                                           now: int)
    requires chain != [] && chain[|chain| - 1].hash.Some? && c.TxIdsInjective()
    requires DistinctTxids(mempool) && c.AddressOk(address)
    ensures MiningTemplate(c, chain, mempool, address, tag, now).Ok?
    ensures var b := MiningTemplate(c, chain, mempool, address, tag, now).value;
            var r := CheckBlock(c, b, chain, BuildUtxos(chain), now);
            && (r == Err(TimestampTooNew)
                <==> TimeRules.MedianTimePast(chain) + 1 > now + 7_200)
            && (r.Err? ==> r.error in {TimestampTooNew, BlockTooLarge, NoWork})
            && (r == Err(BlockTooLarge) ==> |b.transactions| == 1)
            && (r == Err(NoWork) ==> !Work.MeetsWork(BlockHash(c, b), b.header.difficulty, VERSION))
  {
    hide IsTemplate, BuildUtxos, CheckBlock, TimeRules.MedianTimePast, Work.MeetsWork, MiningTemplate,
         Difficulty.NextUnits, Merkle.MerkleRoot;
    var txs := TemplateSucceeds(c, chain, mempool, address, tag, now);
    var b := MiningTemplate(c, chain, mempool, address, tag, now).value;
    TemplateFields(c, chain, address, tag, BlockTime(chain, now), txs, b);
    var timestamp := BlockTime(chain, now);
    assert WithWork(b, 0, timestamp) == b;
    OnlyTimeSizeAndWork(c, chain, address, tag, timestamp, txs, b, 0, timestamp, now);
  }

  /** The coinbase that `mining_template` writes: one output to the given address, and the height in decimal. */
  ghost predicate CoinbaseWritten(c: Crypto, chain: seq<Block>, block: Block, address: string, tag: string)
    requires block.transactions != []
  {
    var txs, suffix := block.transactions, if tag == "" then "" else "|pool:" + tag;
    var fees := Acceptance.FeesBefore(txs, |txs|, BuildUtxos(chain), |chain|);
    var out := TxOut(address, Consensus.BlockSubsidy(|chain|) + fees);
    txs[0].body == TxBody(block.header.timestamp, [], [out], Some("height:" + (Decimal(|chain|) + suffix)))
  }

  /**
   What a template holds, for any chain tip and any mempool with distinct txids: as many of the chosen entries, from the
   first on, as the byte limit allows, the coinbase for exactly those, and the later of the clock and median time past
   + 1. The block with any more of the chosen entries is over 2,000,000 bytes.
   */
  lemma {:induction false} TemplateIsGreedy(c: Crypto, chain: seq<Block>, mempool: seq<Tx>, address: string,
                                            tag: string, now: int)
    returns (chosen: seq<Tx>, at: seq<nat>)
    requires chain != [] && chain[|chain| - 1].hash.Some? && c.TxIdsInjective()
    requires DistinctTxids(mempool) && c.AddressOk(address)
    ensures var r := MiningTemplate(c, chain, mempool, address, tag, now);
            && r.Ok? && r.value.transactions != []
            && var kept, median := |r.value.transactions| - 1, TimeRules.MedianTimePast(chain);
               && ChosenInTurn(c, mempool, |mempool|, chosen, at, BuildUtxos(chain), |chain|)
               && kept <= |chosen| && r.value.transactions[1..] == chosen[..kept]
               && (c.BlockBytes(r.value) <= 2_000_000 || kept == 0)
               && (forall m :: kept < m <= |chosen| ==>
                     OverLimit(c, chain, address, tag, r.value.header.timestamp, chosen[..m]))
               && r.value.header.timestamp == (if now > median then now else median + 1)
               && CoinbaseWritten(c, chain, r.value, address, tag)
  {
    hide IsTemplate, BuildUtxos, Revalidate, Assemble, TimeRules.MedianTimePast, Consensus.BlockSubsidy, OverLimit,
         Shrink, CheckTx, Select, ChosenInTurn, CoinbaseWritten;
    var utxos, timestamp := BuildUtxos(chain), BlockTime(chain, now);
    var s := Select(c, mempool, |mempool|, utxos, |chain|);
    at := SelectionIsGreedy(c, mempool, |mempool|, utxos, |chain|);
    chosen := s.txs;
    var block := FirstTemplate(c, chain, mempool, address, tag, timestamp);
    var kept := ShrinkKeepsTemplate(c, chain, timestamp, address, tag, chosen, block);
    var b := Shrink(c, chain, timestamp, address, tag, chosen, block).value;
    TemplateFields(c, chain, address, tag, timestamp, chosen[..kept], b);
    TemplateCoinbase(c, chain, address, tag, timestamp, chosen[..kept], b);
  }

  lemma {:induction false} FirstTemplate(c: Crypto, chain: seq<Block>, mempool: seq<Tx>, address: string, tag: string,
                                         timestamp: int)
    returns (block: Block)
    requires chain != [] && chain[|chain| - 1].hash.Some? && DistinctTxids(mempool) && c.AddressOk(address)
    ensures var s := Select(c, mempool, |mempool|, BuildUtxos(chain), |chain|);
            var amount := ExpectedCoinbaseValue(|chain|, s.fees);
            && amount.Ok? && block == Assemble(c, chain, timestamp, address, tag, s.txs, amount.value)
            && IsTemplate(c, chain, address, tag, timestamp, s.txs, block)
  {
    hide Assemble, Revalidate, BuildUtxos, Consensus.BlockSubsidy, Select;
    var utxos := BuildUtxos(chain);
    var s := Select(c, mempool, |mempool|, utxos, |chain|);
    SelectionRevalidates(c, mempool, |mempool|, utxos, |chain|);
    SelectionIsDistinct(c, mempool, |mempool|, utxos, |chain|);
    RevalidatedAreHonest(c, s.txs, utxos, |chain|);
    block := Assemble(c, chain, timestamp, address, tag, s.txs, Consensus.BlockSubsidy(|chain|) + s.fees);
  }

  lemma {:induction false} TemplateCoinbase(c: Crypto, chain: seq<Block>, address: string, tag: string, timestamp: int,
                                            txs: seq<Tx>, block: Block)
    requires chain != [] && chain[|chain| - 1].hash.Some? && c.TxIdsInjective()
    requires IsTemplate(c, chain, address, tag, timestamp, txs, block)
    ensures block.transactions != [] && block.transactions[1..] == txs
    ensures CoinbaseWritten(c, chain, block, address, tag)
  {
    hide BuildUtxos, Revalidate, Consensus.BlockSubsidy, Merkle.MerkleRoot, Difficulty.NextUnits;
    TemplateBody(c, chain, address, tag, timestamp, txs, block);
    Acceptance.CheckBodyIff(c, block.transactions, BuildUtxos(chain), |chain|);
  }
}
