/**
 The transactions of an accepted chain in the order in which validation applies them, the coinbase of a block last:
 where every spent output comes from, with any hashes and any coinbases, and when an outpoint is spent twice.
 */
module Origins {
  import opened Prelude
  import opened Types
  import opened Ledger
  import opened Blocks
  import opened History
  import opened Orders
  import Acceptance

  // The carried order

  function CoinbaseLast(txs: seq<Tx>): (r: seq<Tx>)
    ensures |r| == |txs|
  {
    if txs == [] then [] else txs[1..] + [txs[0]]
  }

  function InOrder(txs: seq<Tx>, b: nat): (entries: seq<Entry>)
    ensures |entries| == |txs|
  {
    EntriesAt(if b == 0 then txs else CoinbaseLast(txs), Some(b))
  }

  /** Block 0 as it stands, then each block with its coinbase last, every transaction at the height of its block. */
  function CarriedEntries(chain: seq<Block>): seq<Entry> {
    if chain == [] then []
    else
      var n := |chain| - 1;
      CarriedEntries(chain[..n]) + InOrder(chain[n].transactions, n)
  }

  /** Where transaction `i` of `count` stands in its block. */
  function Offset(count: nat, b: nat, i: nat): nat
    requires i < count
  {
    if b == 0 then i else if i == 0 then count - 1 else i - 1
  }

  function Start(chain: seq<Block>, b: nat): nat
    requires b <= |chain|
  {
    |CarriedEntries(chain[..b])|
  }

  /** Where transaction `i` of block `b` stands in that order. */
  function Place(chain: seq<Block>, b: nat, i: nat): nat
    requires b < |chain| && i < |chain[b].transactions|
  {
    Start(chain, b) + Offset(|chain[b].transactions|, b, i)
  }

  lemma {:induction false} CarriedStep(chain: seq<Block>, b: nat)
    requires b < |chain|
    ensures CarriedEntries(chain[..b + 1]) == CarriedEntries(chain[..b]) + InOrder(chain[b].transactions, b)
  {
    hide InOrder;
    assert chain[..b + 1][..b] == chain[..b];
  }

  lemma {:induction false} CarriedPrefix(chain: seq<Block>, b: nat)
    requires b <= |chain|
    ensures CarriedEntries(chain[..b]) <= CarriedEntries(chain)
    decreases |chain| - b
  {
    hide CarriedEntries, InOrder;
    if b == |chain| {
      assert chain[..b] == chain;
    } else {
      CarriedStep(chain, b);
      CarriedPrefix(chain, b + 1);
    }
  }

  lemma {:induction false} StartStep(chain: seq<Block>, b: nat)
    requires b < |chain|
    ensures Start(chain, b + 1) == Start(chain, b) + |chain[b].transactions|
    ensures forall i :: 0 <= i < |chain[b].transactions| ==>
              CarriedEntries(chain[..b + 1])[Place(chain, b, i)] == Entry(chain[b].transactions[i], Some(b))
  {
    hide CarriedEntries, InOrder;
    CarriedStep(chain, b);
    forall i | 0 <= i < |chain[b].transactions|
      ensures CarriedEntries(chain[..b + 1])[Place(chain, b, i)] == Entry(chain[b].transactions[i], Some(b))
    {
      InOrderAt(chain[b].transactions, b, i);
    }
  }

  lemma {:induction false} InOrderAt(txs: seq<Tx>, b: nat, i: nat)
    requires i < |txs|
    ensures InOrder(txs, b)[Offset(|txs|, b, i)] == Entry(txs[i], Some(b))
  {
  }

  lemma {:induction false} StartsRise(chain: seq<Block>, a: nat, b: nat)
    requires a < b <= |chain|
    ensures Start(chain, a) + |chain[a].transactions| <= Start(chain, b)
  {
    hide CarriedEntries;
    StartStep(chain, b - 1);
    if a < b - 1 {
      StartsRise(chain, a, b - 1);
    }
  }

  lemma {:induction false} PlaceHolds(chain: seq<Block>, b: nat, i: nat)
    requires b < |chain| && i < |chain[b].transactions|
    ensures Place(chain, b, i) < |CarriedEntries(chain)|
    ensures CarriedEntries(chain)[Place(chain, b, i)] == Entry(chain[b].transactions[i], Some(b))
  {
    hide CarriedEntries;
    StartStep(chain, b);
    CarriedPrefix(chain, b + 1);
  }

  lemma {:induction false} PlaceFound(chain: seq<Block>, p: nat) returns (b: nat, i: nat)
    requires p < |CarriedEntries(chain)|
    ensures b < |chain| && i < |chain[b].transactions| && p == Place(chain, b, i)
    ensures CarriedEntries(chain)[p] == Entry(chain[b].transactions[i], Some(b))
  {
    hide InOrder;
    var n := |chain| - 1;
    if p < |CarriedEntries(chain[..n])| {
      b, i := PlaceFound(chain[..n], p);
      assert chain[..n][..b] == chain[..b];
    } else {
      var k := p - |CarriedEntries(chain[..n])|;
      b, i := n, if n == 0 then k else if k == |chain[n].transactions| - 1 then 0 else k + 1;
    }
    PlaceHolds(chain, b, i);
  }

  /** What comes before a payment in that order: everything in earlier blocks, and earlier payments of its block. */
  lemma {:induction false} BeforePayment(chain: seq<Block>, a: nat, j: nat, b: nat, i: nat)
    requires a < |chain| && j < |chain[a].transactions| && 0 < b < |chain| && 1 <= i < |chain[b].transactions|
    ensures Place(chain, a, j) < Place(chain, b, i) <==> a < b || (a == b && 1 <= j < i)
  {
    hide CarriedEntries;
    if a < b {
      StartsRise(chain, a, b);
    } else if b < a {
      StartsRise(chain, b, a);
    }
  }

  // What validation carries

  /** Validation carries exactly what the transactions make in this order. */
  lemma {:induction false} CarriedState(c: Crypto, candidate: seq<Block>, now: int)
    requires CheckChain(c, candidate, now).Ok?
    ensures var carry := CheckChain(c, candidate, now).value; carry.utxos == State(CarriedEntries(carry.chain))
    decreases |candidate|
  {
    hide CheckBlock, CheckBody, ApplyTx, State;
    var n := |candidate| - 1;
    if n == 0 {
      assert CarriedEntries(candidate[..0]) == [];
      assert [] + EntriesAt(candidate[0].transactions, Some(0)) == EntriesAt(candidate[0].transactions, Some(0));
    } else {
      CheckChainLast(c, candidate, now);
      CarriedState(c, candidate[..n], now);
      hide CheckChain;
      var before, txs := CheckChain(c, candidate[..n], now).value, candidate[n].transactions;
      AcceptedBody(c, candidate[n], before.chain, before.utxos, now);
      AcceptedLeavesList(c, txs, before.utxos, n);
      RebuildAppliesList(CarriedEntries(before.chain), CoinbaseLast(txs), n);
      assert CoinbaseLast(txs)[..|txs| - 1] == txs[1..];
    }
  }

  lemma {:induction false} SetBeforeIsList(txs: seq<Tx>, i: nat, utxos: Utxos, h: int)
    requires 1 <= i <= |txs|
    ensures Acceptance.SetBefore(txs, i, utxos, h) == ApplyList(txs[1..i], utxos, h)
  {
    hide ApplyTx;
    if i > 1 {
      SetBeforeIsList(txs, i - 1, utxos, h);
      assert txs[1..i][..i - 2] == txs[1..i - 1];
    }
  }

  lemma {:induction false} CarriedUpTo(chain: seq<Block>, b: nat, i: nat)
    requires 0 < b < |chain| && 1 <= i < |chain[b].transactions|
    ensures Place(chain, b, i) < |CarriedEntries(chain)|
    ensures CarriedEntries(chain)[..Place(chain, b, i)]
         == CarriedEntries(chain[..b]) + EntriesAt(chain[b].transactions[1..i], Some(b))
  {
    hide CarriedEntries, InOrder;
    var front, block, all := CarriedEntries(chain[..b]), InOrder(chain[b].transactions, b), CarriedEntries(chain);
    CarriedStep(chain, b);
    CarriedPrefix(chain, b + 1);
    PaymentsFirst(chain[b].transactions, b, i);
    Prefixes(front, block, all, i - 1);
  }

  lemma {:induction false} PaymentsFirst(txs: seq<Tx>, b: nat, i: nat)
    requires 0 < b && 1 <= i < |txs|
    ensures InOrder(txs, b)[..i - 1] == EntriesAt(txs[1..i], Some(b))
  {
  }

  lemma {:induction false} Prefixes<T>(front: seq<T>, block: seq<T>, all: seq<T>, n: nat)
    requires front + block <= all && n <= |block|
    ensures all[..|front| + n] == front + block[..n]
  {
  }

  /** Each payment of an accepted chain validates against everything before it in that order. */
  lemma {:induction false} PaymentValidates(c: Crypto, candidate: seq<Block>, now: int, b: nat, i: nat)
    requires CheckChain(c, candidate, now).Ok?
    requires var chain := CheckChain(c, candidate, now).value.chain;
             0 < b < |chain| && 1 <= i < |chain[b].transactions|
    ensures var chain := CheckChain(c, candidate, now).value.chain;
            && Place(chain, b, i) < |CarriedEntries(chain)|
            && CheckTx(c, chain[b].transactions[i], State(CarriedEntries(chain)[..Place(chain, b, i)]), b).Ok?
  {
    hide CheckChain, CheckBlock, CheckBody, CheckTx, ApplyTx, State, CarriedEntries, Acceptance.SetBefore,
         InputsSpendable, WellFormed;
    var chain := CheckChain(c, candidate, now).value.chain;
    var txs := chain[b].transactions;
    BlockOfAcceptedChain(c, candidate, b, now);
    var carried := CheckChain(c, candidate[..b], now).value.utxos;
    CarriedState(c, candidate[..b], now);
    AcceptedBody(c, candidate[b], chain[..b], carried, now);
    Acceptance.CheckBodyIff(c, txs, carried, b);
    assert Acceptance.NormalTxOk(c, txs, i, carried, b);
    SetBeforeIsList(txs, i, carried, b);
    CarriedUpTo(chain, b, i);
    RebuildAppliesList(CarriedEntries(chain[..b]), txs[1..i], b);
    CheckTxAccepts(c, txs[i], Acceptance.SetBefore(txs, i, carried, b), b);
  }

  // Where an input comes from

  /**
   Each input of a payment in an accepted chain names an output of an earlier block or of an earlier payment of its own
   block, and was entitled to that output as it was made. Any hashes, any coinbases, any block 0.
   */
  lemma {:induction false} InputNamesEarlierOutput(c: Crypto, candidate: seq<Block>, now: int, b: nat, i: nat, n: nat)
    returns (a: nat, j: nat)
    requires CheckChain(c, candidate, now).Ok?
    requires var chain := CheckChain(c, candidate, now).value.chain;
             0 < b < |chain| && 1 <= i < |chain[b].transactions| && n < |chain[b].transactions[i].body.inputs|
    ensures var chain := CheckChain(c, candidate, now).value.chain;
            && a <= b && j < |chain[a].transactions| && (a == b ==> 1 <= j < i)
            && var tx, maker := chain[b].transactions[i], chain[a].transactions[j];
               var op := tx.body.inputs[n].prev;
               Creates(maker, op)
               && CanSpend(c, tx, n, Utxo(maker.body.outputs[op.vout], Some(a), IsCoinbase(maker)), b)
  {
    hide CheckChain, CheckTx, State, CarriedEntries, Place, CanSpend, WellFormed;
    var chain := CheckChain(c, candidate, now).value.chain;
    var tx := chain[b].transactions[i];
    PaymentValidates(c, candidate, now, b, i);
    var before := CarriedEntries(chain)[..Place(chain, b, i)];
    CheckTxAccepts(c, tx, State(before), b);
    var k := Provenance(before, tx.body.inputs[n].prev);
    assert before[k] == CarriedEntries(chain)[k];
    a, j := PlaceFound(chain, k);
    BeforePayment(chain, a, j, b, i);
  }

  /** A coinbase that a payment spends is at least 100 blocks old below height 500 and at least 10 from there on. */
  lemma {:induction false} SpentCoinbaseIsOld(c: Crypto, candidate: seq<Block>, now: int, b: nat, i: nat, n: nat)
    returns (a: nat, j: nat)
    requires CheckChain(c, candidate, now).Ok?
    requires var chain := CheckChain(c, candidate, now).value.chain;
             0 < b < |chain| && 1 <= i < |chain[b].transactions| && n < |chain[b].transactions[i].body.inputs|
    ensures var chain := CheckChain(c, candidate, now).value.chain;
            && a <= b && j < |chain[a].transactions|
            && Creates(chain[a].transactions[j], chain[b].transactions[i].body.inputs[n].prev)
            && (IsCoinbase(chain[a].transactions[j]) ==> b - a >= (if b < 500 then 100 else 10))
  {
    hide CheckChain;
    a, j := InputNamesEarlierOutput(c, candidate, now, b, i, n);
  }

  // The flattened chain, in the order of a rebuild

  lemma {:induction false} FlattenStart(chain: seq<Block>, a: nat, j: nat, b: nat)
    requires a < b <= |chain| && j < |chain[a].transactions|
    ensures var k := |Flatten(chain[..a])| + j;
            k < |Flatten(chain[..b])| && Flatten(chain[..b])[k].tx == chain[a].transactions[j]
  {
    assert chain[..b][..b - 1] == chain[..b - 1];
    if a < b - 1 {
      FlattenStart(chain, a, j, b - 1);
    }
  }

  lemma {:induction false} FlattenPlace(chain: seq<Block>, k: nat) returns (b: nat, i: nat)
    requires k < |Flatten(chain)|
    ensures b < |chain| && i < |chain[b].transactions| && k == |Flatten(chain[..b])| + i
    ensures Flatten(chain)[k].tx == chain[b].transactions[i] && (b == 0 ==> k == i)
  {
    var n := |chain| - 1;
    assert chain[..0] == [];
    if k < |Flatten(chain[..n])| {
      b, i := FlattenPlace(chain[..n], k);
      assert chain[..n][..b] == chain[..b];
    } else {
      b, i := n, k - |Flatten(chain[..n])|;
    }
  }

  lemma {:induction false} FlattenBefore(chain: seq<Block>, a: nat, x: nat, b: nat, i: nat)
    requires b < |chain| && a <= b && x < |chain[a].transactions| && (a == b ==> x < i)
    ensures var k := |Flatten(chain[..a])| + x;
            && k < |Flatten(chain[..b])| + i
            && k < |Flatten(chain)| && Flatten(chain)[k].tx == chain[a].transactions[x]
  {
    hide Flatten;
    assert chain[..|chain|] == chain;
    FlattenStart(chain, a, x, |chain|);
    if a < b {
      FlattenStart(chain, a, x, b);
    }
  }

  /** Every block above block 0 starts with a coinbase under its own txid. */
  lemma {:induction false} CoinbaseIsFirst(c: Crypto, candidate: seq<Block>, now: int, b: nat)
    requires CheckChain(c, candidate, now).Ok? && 0 < b < |candidate|
    ensures var txs := CheckChain(c, candidate, now).value.chain[b].transactions;
            && txs != [] && IsCoinbase(txs[0]) && txs[0].body.inputs == [] && c.TxId(txs[0].body) == txs[0].txid
  {
    hide CheckChain, CheckBlock, CheckBody;
    BlockOfAcceptedChain(c, candidate, b, now);
    var chain := CheckChain(c, candidate, now).value.chain;
    AcceptedBody(c, candidate[b], chain[..b], CheckChain(c, candidate[..b], now).value.utxos, now);
  }

  lemma {:induction false} SpendsWhere(e: Entry, op: Outpoint) returns (n: nat)
    requires Spends(e, op)
    ensures n < |e.tx.body.inputs| && e.tx.body.inputs[n].prev == op
  {
    n :| 0 <= n < |e.tx.body.inputs| && e.tx.body.inputs[n].prev == op;
  }

  /** An entry above block 0 that spends something is a payment. */
  lemma {:induction false} SpenderIsPayment(c: Crypto, candidate: seq<Block>, now: int, j: nat, op: Outpoint)
    returns (b: nat, i: nat, n: nat)
    requires CheckChain(c, candidate, now).Ok?
    requires var chain := CheckChain(c, candidate, now).value.chain;
             |chain[0].transactions| <= j < |Flatten(chain)| && Spends(Flatten(chain)[j], op)
    ensures var chain := CheckChain(c, candidate, now).value.chain;
            && 0 < b < |chain| && 1 <= i < |chain[b].transactions| && j == |Flatten(chain[..b])| + i
            && n < |chain[b].transactions[i].body.inputs| && chain[b].transactions[i].body.inputs[n].prev == op
  {
    hide CheckChain, Flatten, Spends, Creates, IsCoinbase;
    var chain := CheckChain(c, candidate, now).value.chain;
    b, i := FlattenPlace(chain, j);
    n := SpendsWhere(Flatten(chain)[j], op);
    CoinbaseIsFirst(c, candidate, now, b);
  }

  lemma {:induction false} SpentWasMade(c: Crypto, candidate: seq<Block>, now: int, j: nat, op: Outpoint)
    returns (k: nat)
    requires CheckChain(c, candidate, now).Ok?
    requires var chain := CheckChain(c, candidate, now).value.chain;
             |chain[0].transactions| <= j < |Flatten(chain)| && Spends(Flatten(chain)[j], op)
    ensures var entries := Flatten(CheckChain(c, candidate, now).value.chain);
            k < j < |entries| && Creates(entries[k].tx, op)
  {
    hide CheckChain, Flatten, CanSpend;
    var chain := CheckChain(c, candidate, now).value.chain;
    var b, i, n := SpenderIsPayment(c, candidate, now, j, op);
    var a, x := InputNamesEarlierOutput(c, candidate, now, b, i, n);
    FlattenBefore(chain, a, x, b, i);
    k := |Flatten(chain[..a])| + x;
  }

  /**
   The history of an accepted chain. Whatever is spent above block 0 was made earlier, with any hashes and coinbases.
   With injective txids, a plain block 0 and distinct coinbases no txid occurs twice and no outpoint is spent twice.
   */
  lemma {:induction false} AcceptedHistory(c: Crypto, candidate: seq<Block>, now: int, i: nat, j: nat, op: Outpoint)
    requires CheckChain(c, candidate, now).Ok?
    requires j < |Flatten(CheckChain(c, candidate, now).value.chain)|
    ensures var chain := CheckChain(c, candidate, now).value.chain;
            var entries := Flatten(chain);
            && (|chain[0].transactions| <= j && Spends(entries[j], op) ==>
                  exists k :: 0 <= k < j && Creates(entries[k].tx, op))
            && (c.TxIdsInjective() && PlainBlockZero(c, candidate[0]) && DistinctCoinbases(chain) && i < j ==>
                  && entries[i].tx.txid != entries[j].tx.txid
                  && !(Spends(entries[i], op) && Spends(entries[j], op)))
  {
    hide CheckChain, Sound, State, DistinctCoinbases, Flatten, Spends, Creates;
    var chain := CheckChain(c, candidate, now).value.chain;
    var entries := Flatten(chain);
    if |chain[0].transactions| <= j && Spends(entries[j], op) {
      var k := SpentWasMade(c, candidate, now, j, op);
    }
    if c.TxIdsInjective() && PlainBlockZero(c, candidate[0]) && DistinctCoinbases(chain) && i < j {
      AcceptedChainIsSound(c, candidate, now);
      NoTxidTwice(c, entries, i, j);
      if Spends(entries[i], op) {
        NoDoubleSpend(c, entries, i, j, op);
      }
    }
  }

  // Spending one outpoint twice

  /** A coinbase, or a transaction that validates against the entries before it. Its txid may have been used before. */
  ghost predicate AdmittedAt(c: Crypto, entries: seq<Entry>, k: nat)
    requires k < |entries|
  {
    var e := entries[k];
    && c.TxId(e.tx.body) == e.tx.txid && e.height.Some?
    && if IsCoinbase(e.tx) then e.tx.body.inputs == []
       else CheckTx(c, e.tx, State(entries[..k]), e.height.value).Ok?
  }

  ghost predicate Admitted(c: Crypto, entries: seq<Entry>) {
    forall k :: 0 <= k < |entries| ==> AdmittedAt(c, entries, k)
  }

  lemma {:induction false} AcceptedIsAdmitted(c: Crypto, candidate: seq<Block>, now: int)
    requires CheckChain(c, candidate, now).Ok? && PlainBlockZero(c, candidate[0])
    ensures Admitted(c, CarriedEntries(CheckChain(c, candidate, now).value.chain))
  {
    hide CheckChain, CheckTx, State, CarriedEntries, Place;
    var chain := CheckChain(c, candidate, now).value.chain;
    GenesisOfAcceptedChain(c, candidate, now);
    forall k | 0 <= k < |CarriedEntries(chain)| ensures AdmittedAt(c, CarriedEntries(chain), k) {
      var b, i := PlaceFound(chain, k);
      if b > 0 && i == 0 {
        CoinbaseIsFirst(c, candidate, now, b);
      } else if b > 0 {
        PaymentValidates(c, candidate, now, b, i);
        PaymentIsHonest(c, CarriedEntries(chain), k, b);
      }
    }
  }

  lemma {:induction false} PaymentIsHonest(c: Crypto, entries: seq<Entry>, k: nat, b: nat)
    requires k < |entries| && entries[k].height == Some(b)
    requires CheckTx(c, entries[k].tx, State(entries[..k]), b).Ok?
    ensures AdmittedAt(c, entries, k)
  {
    CheckTxAccepts(c, entries[k].tx, State(entries[..k]), b);
  }

  /** A spender is a payment, and what it spends is there. */
  lemma {:induction false} SpenderMet(c: Crypto, entries: seq<Entry>, k: nat, op: Outpoint)
    requires k < |entries| && AdmittedAt(c, entries, k) && op in Spent(entries[k].tx)
    ensures op in State(entries[..k]) && !IsCoinbase(entries[k].tx)
  {
    if !IsCoinbase(entries[k].tx) {
      CheckTxAccepts(c, entries[k].tx, State(entries[..k]), entries[k].height.value);
    }
  }

  /** What was spent and is there again was made again. */
  lemma {:induction false} MadeAgain(entries: seq<Entry>, p: nat, q: nat, op: Outpoint) returns (m: nat)
    requires p < q <= |entries| && op in Spent(entries[p].tx) && op in State(entries[..q])
    ensures p <= m < q && Creates(entries[m].tx, op)
    decreases q
  {
    hide ApplyTx, Spent;
    assert entries[..q][..q - 1] == entries[..q - 1];
    ApplyTxAt(entries[q - 1].tx, State(entries[..q - 1]), entries[q - 1].height, op);
    if Creates(entries[q - 1].tx, op) {
      m := q - 1;
    } else {
      m := MadeAgain(entries, p, q - 1, op);
    }
  }

  lemma {:induction false} MadeBefore(c: Crypto, entries: seq<Entry>, p: nat, op: Outpoint) returns (k: nat)
    requires p < |entries| && AdmittedAt(c, entries, p) && op in Spent(entries[p].tx)
    ensures k < p && Creates(entries[k].tx, op)
  {
    hide State;
    SpenderMet(c, entries, p, op);
    k := Provenance(entries[..p], op);
  }

  /** Two makers of one output are the same transaction; if a payment, it spends its first input twice. */
  lemma {:induction false} SameMaker(c: Crypto, entries: seq<Entry>, k: nat, m: nat, op: Outpoint)
    returns (below: Outpoint)
    requires c.TxIdsInjective() && k < |entries| && m < |entries|
    requires AdmittedAt(c, entries, k) && AdmittedAt(c, entries, m) && !IsCoinbase(entries[k].tx)
    requires Creates(entries[k].tx, op) && Creates(entries[m].tx, op)
    ensures below in Spent(entries[k].tx) && below in Spent(entries[m].tx)
  {
    c.SameTxId(entries[k].tx.body, entries[m].tx.body);
    CheckTxAccepts(c, entries[k].tx, State(entries[..k]), entries[k].height.value);
    below := entries[k].tx.body.inputs[0].prev;
  }

  /**
   Below any outpoint that is spent twice lies a coinbase output that is spent twice: a payment that makes its output a
   second time spends its own inputs a second time.
   */
  lemma {:induction false} CoinbaseBelow(c: Crypto, entries: seq<Entry>, p: nat, q: nat, op: Outpoint)
    returns (x: nat, y: nat, k: nat, root: Outpoint)
    requires c.TxIdsInjective() && Admitted(c, entries) && p < q < |entries|
    requires op in Spent(entries[p].tx) && op in Spent(entries[q].tx)
    ensures x < y < |entries| && root in Spent(entries[x].tx) && root in Spent(entries[y].tx)
    ensures k < x && IsCoinbase(entries[k].tx) && Creates(entries[k].tx, root)
    decreases q
  {
    hide AdmittedAt, State, Spent, Creates;
    k := MadeBefore(c, entries, p, op);
    if IsCoinbase(entries[k].tx) {
      x, y, root := p, q, op;
    } else {
      SpenderMet(c, entries, q, op);
      var m := MadeAgain(entries, p, q, op);
      var below := SameMaker(c, entries, k, m, op);
      x, y, k, root := CoinbaseBelow(c, entries, k, m, below);
    }
  }

  ghost predicate Pays(chain: seq<Block>, b: nat, i: nat, op: Outpoint) {
    b < |chain| && 1 <= i < |chain[b].transactions| && op in Spent(chain[b].transactions[i])
  }

  /** Two payments in different places of the chain spend the outpoint. */
  ghost predicate SpentTwice(chain: seq<Block>, op: Outpoint) {
    exists b, i, d, j :: Pays(chain, b, i, op) && Pays(chain, d, j, op) && (b < d || (b == d && i < j))
  }

  ghost predicate Mints(chain: seq<Block>, b: nat, op: Outpoint) {
    b < |chain| && chain[b].transactions != [] && Creates(chain[b].transactions[0], op)
  }

  /** A coinbase is mined, its output is paid, the same coinbase is mined again, and its output is paid again. */
  ghost predicate PaidOverAgain(chain: seq<Block>, op: Outpoint) {
    exists a: nat, b: nat, i: nat, d: nat, e: nat, j: nat ::
      && Mints(chain, a, op) && Pays(chain, b, i, op) && Mints(chain, d, op) && Pays(chain, e, j, op)
      && a < b <= d < e
  }

  /** An entry that spends something stands for a payment above block 0. */
  lemma {:induction false} PaysFound(c: Crypto, candidate: seq<Block>, now: int, p: nat, op: Outpoint)
    returns (b: nat, i: nat)
    requires CheckChain(c, candidate, now).Ok? && PlainBlockZero(c, candidate[0])
    requires var entries := CarriedEntries(CheckChain(c, candidate, now).value.chain);
             p < |entries| && op in Spent(entries[p].tx)
    ensures var chain := CheckChain(c, candidate, now).value.chain;
            Pays(chain, b, i, op) && 0 < b && p == Place(chain, b, i)
  {
    hide CheckChain, CarriedEntries, Place;
    var chain := CheckChain(c, candidate, now).value.chain;
    GenesisOfAcceptedChain(c, candidate, now);
    b, i := PlaceFound(chain, p);
    if b > 0 {
      CoinbaseIsFirst(c, candidate, now, b);
    }
  }

  lemma {:induction false} CoinbaseFound(c: Crypto, candidate: seq<Block>, now: int, k: nat, op: Outpoint)
    returns (a: nat)
    requires CheckChain(c, candidate, now).Ok? && PlainBlockZero(c, candidate[0])
    requires var entries := CarriedEntries(CheckChain(c, candidate, now).value.chain);
             k < |entries| && IsCoinbase(entries[k].tx) && Creates(entries[k].tx, op)
    ensures var chain := CheckChain(c, candidate, now).value.chain; Mints(chain, a, op) && k == Place(chain, a, 0)
  {
    hide CheckChain, CarriedEntries, Place, Creates, IsCoinbase;
    CoinbasesComeFirst(c, candidate, now);
    var i: nat;
    a, i := PlaceFound(CheckChain(c, candidate, now).value.chain, k);
  }

  lemma {:induction false} SameKind(c: Crypto, entries: seq<Entry>, k: nat, m: nat, op: Outpoint)
    requires c.TxIdsInjective() && k < |entries| && m < |entries|
    requires AdmittedAt(c, entries, k) && AdmittedAt(c, entries, m)
    requires Creates(entries[k].tx, op) && Creates(entries[m].tx, op)
    ensures IsCoinbase(entries[k].tx) <==> IsCoinbase(entries[m].tx)
  {
    c.SameTxId(entries[k].tx.body, entries[m].tx.body);
  }

  lemma {:induction false} PaysAbove(c: Crypto, candidate: seq<Block>, now: int, b: nat, i: nat, op: Outpoint)
    requires CheckChain(c, candidate, now).Ok? && PlainBlockZero(c, candidate[0])
    requires Pays(CheckChain(c, candidate, now).value.chain, b, i, op)
    ensures 0 < b
  {
    hide CheckChain;
    GenesisOfAcceptedChain(c, candidate, now);
  }

  /** What was made by a coinbase and spent twice was mined before each time. */
  lemma {:induction false} CoinbaseAgain(c: Crypto, candidate: seq<Block>, now: int, k: nat, x: nat, y: nat,
                                         op: Outpoint)
    requires c.TxIdsInjective() && CheckChain(c, candidate, now).Ok? && PlainBlockZero(c, candidate[0])
    requires var entries := CarriedEntries(CheckChain(c, candidate, now).value.chain);
             && k < x < y < |entries| && op in Spent(entries[x].tx) && op in Spent(entries[y].tx)
             && IsCoinbase(entries[k].tx) && Creates(entries[k].tx, op) && Admitted(c, entries)
    ensures PaidOverAgain(CheckChain(c, candidate, now).value.chain, op)
  {
    hide CheckChain, CarriedEntries, Place, Spent, AdmittedAt, PlainBlockZero, Creates, IsCoinbase, State, Mints, Pays;
    var chain := CheckChain(c, candidate, now).value.chain;
    var entries := CarriedEntries(chain);
    SpenderMet(c, entries, y, op);
    var m := MadeAgain(entries, x, y, op);
    SameKind(c, entries, k, m, op);
    var a := CoinbaseFound(c, candidate, now, k, op);
    var d := CoinbaseFound(c, candidate, now, m, op);
    var b, i := PaysFound(c, candidate, now, x, op);
    var e, j := PaysFound(c, candidate, now, y, op);
    InTurn(chain, a, b, i, d, e, j, op);
  }

  lemma {:induction false} InTurn(chain: seq<Block>, a: nat, b: nat, i: nat, d: nat, e: nat, j: nat, op: Outpoint)
    requires Mints(chain, a, op) && Pays(chain, b, i, op) && Mints(chain, d, op) && Pays(chain, e, j, op)
    requires 0 < b && 0 < e
    requires Place(chain, a, 0) < Place(chain, b, i) <= Place(chain, d, 0) < Place(chain, e, j)
    ensures PaidOverAgain(chain, op)
  {
    hide Place, Creates, Spent;
    BeforePayment(chain, a, 0, b, i);
    BeforePayment(chain, d, 0, b, i);
    BeforePayment(chain, d, 0, e, j);
  }

  lemma {:induction false} RootPaidOverAgain(c: Crypto, candidate: seq<Block>, now: int, b: nat, i: nat, d: nat, j: nat,
                                             op: Outpoint)
    returns (root: Outpoint)
    requires c.TxIdsInjective() && CheckChain(c, candidate, now).Ok? && PlainBlockZero(c, candidate[0])
    requires var chain := CheckChain(c, candidate, now).value.chain;
             Pays(chain, b, i, op) && Pays(chain, d, j, op) && (b < d || (b == d && i < j))
    ensures PaidOverAgain(CheckChain(c, candidate, now).value.chain, root)
  {
    hide CheckChain, CarriedEntries, Place, PaidOverAgain, Spent, Admitted, PlainBlockZero, Creates, IsCoinbase;
    var chain := CheckChain(c, candidate, now).value.chain;
    var entries := CarriedEntries(chain);
    PaysAbove(c, candidate, now, b, i, op);
    PlaceHolds(chain, b, i);
    PlaceHolds(chain, d, j);
    BeforePayment(chain, b, i, d, j);
    AcceptedIsAdmitted(c, candidate, now);
    var x, y, k: nat;
    x, y, k, root := CoinbaseBelow(c, entries, Place(chain, b, i), Place(chain, d, j), op);
    CoinbaseAgain(c, candidate, now, k, x, y, root);
  }

  /**
   On an accepted chain with injective txids and a plain block 0, and with any coinbases: some outpoint is spent twice
   if and only if some coinbase is mined, paid, mined again at the earliest in the block that pays it, and paid again.
   */
  lemma {:induction false} SpentTwiceIff(c: Crypto, candidate: seq<Block>, now: int)
    requires c.TxIdsInjective() && CheckChain(c, candidate, now).Ok? && PlainBlockZero(c, candidate[0])
    ensures var chain := CheckChain(c, candidate, now).value.chain;
            (exists op :: SpentTwice(chain, op)) <==> (exists op :: PaidOverAgain(chain, op))
  {
    hide CheckChain, Pays, Mints;
    var chain := CheckChain(c, candidate, now).value.chain;
    if op :| SpentTwice(chain, op) {
      var b, i, d, j :| Pays(chain, b, i, op) && Pays(chain, d, j, op) && (b < d || (b == d && i < j));
      var root := RootPaidOverAgain(c, candidate, now, b, i, d, j, op);
    }
    if op :| PaidOverAgain(chain, op) {
      assert SpentTwice(chain, op);
    }
  }

  /** A chain confirms a payment twice only on top of a coinbase that is mined and paid over again. */
  lemma {:induction false} ConfirmedTwiceStandsOnCoinbase(c: Crypto, candidate: seq<Block>, now: int, b: nat, i: nat,
                                                          d: nat, j: nat)
    requires c.TxIdsInjective() && CheckChain(c, candidate, now).Ok? && PlainBlockZero(c, candidate[0])
    requires var chain := CheckChain(c, candidate, now).value.chain;
             && 0 < b < |chain| && 1 <= i < |chain[b].transactions| && d < |chain| && 1 <= j < |chain[d].transactions|
             && chain[b].transactions[i].txid == chain[d].transactions[j].txid && (b < d || (b == d && i < j))
    ensures exists op :: PaidOverAgain(CheckChain(c, candidate, now).value.chain, op)
  {
    hide CheckChain, CarriedEntries, Place, PaidOverAgain, CheckTx, State, InputKeys, InputsSpendable;
    var chain := CheckChain(c, candidate, now).value.chain;
    var tx, again := chain[b].transactions[i], chain[d].transactions[j];
    PaymentValidates(c, candidate, now, b, i);
    PaymentValidates(c, candidate, now, d, j);
    CheckTxAccepts(c, tx, State(CarriedEntries(chain)[..Place(chain, b, i)]), b);
    CheckTxAccepts(c, again, State(CarriedEntries(chain)[..Place(chain, d, j)]), d);
    c.SameTxId(tx.body, again.body);
    var op := tx.body.inputs[0].prev;
    assert op in Spent(tx) && op in Spent(again);
    var root := RootPaidOverAgain(c, candidate, now, b, i, d, j, op);
  }
}
