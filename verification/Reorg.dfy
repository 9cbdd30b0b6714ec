/** A reorganization and the payments of the branch it leaves. */
module Reorg {
  import opened Prelude
  import opened Types
  import opened Ledger
  import opened Blocks
  import opened History
  import opened Replay
  import opened Operations
  import opened Mempool
  import opened Recurrence
  import Work

  ghost predicate SpentBy(txs: seq<Tx>, op: Outpoint) {
    exists i :: 0 <= i < |txs| && op in Spent(txs[i])
  }

  /** Pending transaction `j` made the output and none after it spends it. */
  ghost predicate OpenAt(pending: seq<Tx>, j: nat, op: Outpoint)
    requires j < |pending|
  {
    Creates(pending[j], op) && forall k :: j < k < |pending| ==> op !in Spent(pending[k])
  }

  ghost predicate PendingOpen(pending: seq<Tx>, op: Outpoint) {
    exists j :: 0 <= j < |pending| && OpenAt(pending, j, op)
  }

  /** Unspent in the chain, mature, and spent by no pending transaction; or an open output of a pending one. */
  ghost predicate Available(utxos: Utxos, pending: seq<Tx>, op: Outpoint, height: int) {
    (Spendable(utxos, op, height) && !SpentBy(pending, op)) || PendingOpen(pending, op)
  }

  ghost predicate InputsAvailable(tx: Tx, utxos: Utxos, pending: seq<Tx>, height: int) {
    forall i :: 0 <= i < |tx.body.inputs| ==> Available(utxos, pending, tx.body.inputs[i].prev, height)
  }

  /**
   The mempool after a reorganization, told without validation: the pending transactions that stay, then each orphan
   in turn if there is room and its inputs are available. An orphan that the old chain confirmed twice finds them
   spent the second time.
   */
  ghost function Returned(stay: seq<Tx>, orphans: seq<Tx>, utxos: Utxos, height: int): seq<Tx> {
    if orphans == [] then stay
    else
      var n := |orphans| - 1;
      var pending := Returned(stay, orphans[..n], utxos, height);
      if |pending| < 5_000 && InputsAvailable(orphans[n], utxos, pending, height)
      then pending + [orphans[n]] else pending
  }

  // What the orphans are

  lemma {:induction false} ConfirmedInLonger(chain: seq<Block>, m: nat, tx: Tx)
    requires m <= |chain| && Confirmed(chain[..m], tx)
    ensures Confirmed(chain, tx)
  {
    var b, i :| 0 <= b < m && 1 <= i < |chain[..m][b].transactions| && chain[..m][b].transactions[i] == tx;
    assert chain[b].transactions[i] == tx;
  }

  /** The orphans are payments that the old chain confirms and the new one does not. */
  lemma {:induction false} OrphansAreConfirmed(chain: seq<Block>, ids: set<Hash>)
    ensures forall n :: 0 <= n < |Orphans(chain, ids)| ==>
              Confirmed(chain, Orphans(chain, ids)[n]) && Orphans(chain, ids)[n].txid !in ids
  {
    hide Confirmed;
    if chain != [] {
      var m := |chain| - 1;
      var front, txs := Orphans(chain[..m], ids), AfterFirst(chain[m].transactions);
      OrphansAreConfirmed(chain[..m], ids);
      WithoutKeeps(txs, ids);
      forall n | 0 <= n < |front| ensures Confirmed(chain, front[n]) {
        ConfirmedInLonger(chain, m, front[n]);
      }
      forall tx | tx in txs ensures Confirmed(chain, tx) {
        LastBlockConfirms(chain, tx);
      }
    }
  }

  lemma {:induction false} LastBlockConfirms(chain: seq<Block>, tx: Tx)
    requires chain != [] && tx in AfterFirst(chain[|chain| - 1].transactions)
    ensures Confirmed(chain, tx)
  {
    var txs := chain[|chain| - 1].transactions;
    var i :| 0 <= i < |AfterFirst(txs)| && AfterFirst(txs)[i] == tx;
    assert txs[i + 1] == tx;
  }

  // The UTXO set of a chain and distinct, unconfirmed pending transactions

  ghost predicate AllFresh(entries: seq<Entry>, txs: seq<Tx>) {
    forall i :: 0 <= i < |txs| ==> Fresh(entries, txs[i].txid)
  }

  lemma {:induction false} SpentByStep(pending: seq<Tx>, op: Outpoint)
    requires pending != []
    ensures var n := |pending| - 1; SpentBy(pending, op) <==> SpentBy(pending[..n], op) || op in Spent(pending[n])
  {
    hide Spent;
    var n := |pending| - 1;
    if SpentBy(pending[..n], op) {
      var i :| 0 <= i < n && op in Spent(pending[..n][i]);
      assert op in Spent(pending[i]);
    }
    if i :| 0 <= i < |pending| && op in Spent(pending[i]) && i < n {
      assert op in Spent(pending[..n][i]);
    }
  }

  lemma {:induction false} OpenStep(pending: seq<Tx>, op: Outpoint)
    requires pending != []
    ensures var n := |pending| - 1;
            && (OpenAt(pending, n, op) <==> Creates(pending[n], op))
            && (forall j :: 0 <= j < n ==>
                  (OpenAt(pending, j, op) <==> OpenAt(pending[..n], j, op) && op !in Spent(pending[n])))
  {
    hide Spent, Creates;
    var n := |pending| - 1;
    forall j | 0 <= j < n
      ensures OpenAt(pending, j, op) <==> OpenAt(pending[..n], j, op) && op !in Spent(pending[n])
    {
      if OpenAt(pending, j, op) {
        assert forall k :: j < k < n ==> pending[..n][k] == pending[k];
      }
      if OpenAt(pending[..n], j, op) && op !in Spent(pending[n]) {
        forall k | j < k < |pending| ensures op !in Spent(pending[k]) {
          if k < n {
            assert pending[..n][k] == pending[k];
          }
        }
      }
    }
  }

  /**
   An output of the chain that stays unspent is in the set as recorded, exactly when no pending transaction spends it.
   */
  lemma {:induction false} ChainOutputSeen(entries: seq<Entry>, pending: seq<Tx>, op: Outpoint)
    requires AllFresh(entries, pending) && op in State(entries)
    ensures var seen := State(entries + EntriesAt(pending, None));
            && (op in seen <==> !SpentBy(pending, op))
            && (op in seen ==> seen[op] == State(entries)[op])
    ensures !PendingOpen(pending, op)
  {
    hide State, ApplyTx, Spent;
    var k := Provenance(entries, op);
    assert entries[k].tx.txid == op.txid;
    if pending == [] {
      NothingPending(entries);
    } else {
      var n := |pending| - 1;
      ChainOutputSeen(entries, pending[..n], op);
      SpentByStep(pending, op);
      PendingStep(entries, pending);
      ApplyTxAt(pending[n], State(entries + EntriesAt(pending[..n], None)), None, op);
    }
  }

  /** Any other output is in the set exactly when some pending transaction made it and none after that one spends it. */
  lemma {:induction false} PendingOutputSeen(entries: seq<Entry>, pending: seq<Tx>, op: Outpoint)
    requires DistinctTxids(pending) && op !in State(entries)
    ensures var seen := State(entries + EntriesAt(pending, None));
            && (op in seen <==> PendingOpen(pending, op))
            && (forall j :: 0 <= j < |pending| && OpenAt(pending, j, op) ==>
                  op in seen && seen[op] == Utxo(pending[j].body.outputs[op.vout], None, IsCoinbase(pending[j])))
  {
    hide State, ApplyTx, Spent, OpenAt;
    if pending == [] {
      NothingPending(entries);
    } else {
      var n := |pending| - 1;
      PendingOutputSeen(entries, pending[..n], op);
      OpenStep(pending, op);
      PendingStep(entries, pending);
      ApplyTxAt(pending[n], State(entries + EntriesAt(pending[..n], None)), None, op);
      if Creates(pending[n], op) {
        OneMaker(pending, op);
      }
    }
  }

  lemma {:induction false} OneMaker(pending: seq<Tx>, op: Outpoint)
    requires DistinctTxids(pending) && pending != [] && Creates(pending[|pending| - 1], op)
    ensures forall j :: 0 <= j < |pending| - 1 ==> !OpenAt(pending, j, op)
  {
  }

  // One orphan

  /** Distinct transactions that are no coinbases and that a chain with these entries does not confirm. */
  ghost predicate PendingOk(entries: seq<Entry>, pending: seq<Tx>) {
    && DistinctTxids(pending) && AllFresh(entries, pending)
    && forall i :: 0 <= i < |pending| ==> !IsCoinbase(pending[i])
  }

  /** What the node sees of an outpoint behind the pending transactions: it can be spent exactly if it is available. */
  lemma {:induction false} SeenIffAvailable(entries: seq<Entry>, pending: seq<Tx>, op: Outpoint, h: int)
    requires PendingOk(entries, pending)
    ensures Available(State(entries), pending, op, h) <==> Spendable(State(entries + EntriesAt(pending, None)), op, h)
  {
    hide State, InputKeys, OpenAt, IsCoinbase;
    if op in State(entries) {
      ChainOutputSeen(entries, pending, op);
    } else {
      PendingOutputSeen(entries, pending, op);
    }
  }

  lemma {:induction false} SettledPending(c: Crypto, chain: seq<Block>, pending: seq<Tx>, now: int)
    requires Settled(c, Node(chain, pending), now)
    ensures PendingOk(Flatten(chain), pending)
  {
    hide Flatten, Validated, Fresh, IsCoinbase;
    assert forall i :: 0 <= i < |pending| ==> Unconfirmed(c, Flatten(chain), pending[i]);
  }

  /** A node's old chain: validated above the true genesis. */
  ghost predicate Held(c: Crypto, chain: seq<Block>, now: int) {
    Validated(c, chain, now) && chain != [] && chain[0] == Genesis(c)
  }

  /**
   A payment of the old chain validates behind the pending transactions exactly when its inputs are available: its
   outputs, amounts, signatures and fee need no second look. Any coinbases in either chain.
   */
  lemma {:induction false} OrphanValidIff(c: Crypto, former: seq<Block>, before: int, s: Node, now: int, tx: Tx)
    requires Held(c, former, before) && Confirmed(former, tx) && Settled(c, s, now)
    ensures CheckTx(c, tx, BuildWithMempool(s.chain, s.mempool), |s.chain|).Ok?
       <==> InputsAvailable(tx, BuildUtxos(s.chain), s.mempool, |s.chain|)
  {
    hide Validated, Confirmed, Settled, State, Flatten, CheckTx, Honest, Spendable, Available, PendingOk;
    SettledFacts(c, s, now);
    SettledPending(c, s.chain, s.mempool, now);
    var basis, made := ConfirmedValidatedOnce(c, former, before, tx);
    SeenIsHonest(c, s, now);
    ValidatesAgainIff(c, tx, basis, made, BuildWithMempool(s.chain, s.mempool), |s.chain|);
    forall i | 0 <= i < |tx.body.inputs|
      ensures var op := tx.body.inputs[i].prev;
              Available(BuildUtxos(s.chain), s.mempool, op, |s.chain|)
              <==> Spendable(BuildWithMempool(s.chain, s.mempool), op, |s.chain|)
    {
      SeenIffAvailable(Flatten(s.chain), s.mempool, tx.body.inputs[i].prev, |s.chain|);
    }
  }

  // What was given back does not come back twice

  ghost predicate Taken(entries: seq<Entry>, pending: seq<Tx>, txid: Hash) {
    !Fresh(entries, txid) || txid in IdSet(pending)
  }

  /** What the pending transactions from index `from` on spend is gone, and no further transaction can make it. */
  ghost predicate Gone(entries: seq<Entry>, pending: seq<Tx>, from: nat) {
    forall a, op :: from <= a < |pending| && op in Spent(pending[a]) ==>
      op !in State(entries + EntriesAt(pending, None)) && Taken(entries, pending, op.txid)
  }

  lemma {:induction false} SeenIsTaken(entries: seq<Entry>, pending: seq<Tx>, op: Outpoint)
    requires op in State(entries + EntriesAt(pending, None))
    ensures Taken(entries, pending, op.txid)
  {
    hide State;
    var all := entries + EntriesAt(pending, None);
    var k := Provenance(all, op);
    assert all[k].tx.txid == op.txid;
    if k < |entries| {
      assert entries[k] == all[k];
    } else {
      assert pending[k - |entries|] == all[k].tx;
    }
  }

  lemma {:induction false} GoneStep(entries: seq<Entry>, pending: seq<Tx>, from: nat, tx: Tx)
    requires from <= |pending| && Gone(entries, pending, from) && !Taken(entries, pending, tx.txid)
    requires forall op :: op in Spent(tx) ==> op in State(entries + EntriesAt(pending, None))
    ensures Gone(entries, pending + [tx], from)
  {
    hide State, InputKeys, ApplyTx, Fresh;
    var longer := pending + [tx];
    assert longer[..|pending|] == pending;
    PendingStep(entries, longer);
    forall a, op | from <= a < |longer| && op in Spent(longer[a])
      ensures op !in State(entries + EntriesAt(longer, None)) && Taken(entries, longer, op.txid)
    {
      if a == |pending| {
        SeenIsTaken(entries, pending, op);
      } else {
        assert op in Spent(pending[a]);
      }
      TakenStays(entries, pending, tx, op.txid);
      ApplyTxAt(tx, State(entries + EntriesAt(pending, None)), None, op);
    }
  }

  lemma {:induction false} TakenStays(entries: seq<Entry>, pending: seq<Tx>, tx: Tx, txid: Hash)
    requires Taken(entries, pending, txid)
    ensures Taken(entries, pending + [tx], txid)
  {
    if txid in IdSet(pending) {
      var i :| 0 <= i < |pending| && pending[i].txid == txid;
      assert (pending + [tx])[i].txid == txid;
    }
  }

  /** A payment that has been given back finds its inputs spent. */
  lemma {:induction false} NotAvailableTwice(c: Crypto, chain: seq<Block>, pending: seq<Tx>, from: nat, tx: Tx,
                                             now: int, h: int)
    requires Settled(c, Node(chain, pending), now) && from <= |pending| && Gone(Flatten(chain), pending, from)
    requires WellFormed(c, tx) && tx.txid in IdSet(pending) && tx.txid !in IdSet(pending[..from])
    ensures !InputsAvailable(tx, BuildUtxos(chain), pending, h)
  {
    hide Validated, State, Flatten, Available, PendingOk;
    SettledPending(c, chain, pending, now);
    var a :| 0 <= a < |pending| && pending[a].txid == tx.txid;
    assert forall i :: 0 <= i < from ==> pending[..from][i] == pending[i];
    assert Unconfirmed(c, Flatten(chain), pending[a]);
    c.SameTxId(pending[a].body, tx.body);
    var op := tx.body.inputs[0].prev;
    assert op in Spent(pending[a]);
    SeenIffAvailable(Flatten(chain), pending, op, h);
  }

  // All orphans

  lemma {:induction false} RecentIsConfirmed(chain: seq<Block>, id: Hash)
    requires id in RecentIds(chain)
    ensures id in ChainIds(chain)
  {
    var from := Max(0, |chain| - RECENT_BLOCKS);
    var b :| 0 <= b < |chain[from..]| && id in IdSet(chain[from..][b].transactions);
    assert chain[from + b] == chain[from..][b];
  }

  /** Offering an unknown transaction appends it exactly when it validates and there is room. */
  lemma {:induction false} OfferOrphan(c: Crypto, chain: seq<Block>, pending: seq<Tx>, tx: Tx)
    requires !IsCoinbase(tx) && tx.txid !in ChainIds(chain) && tx.txid !in IdSet(pending)
    ensures AddTransaction(c, Node(chain, pending), tx).node
         == Node(chain, if |pending| < 5_000
                           && CheckTx(c, tx, State(Flatten(chain) + EntriesAt(pending, None)), |chain|).Ok?
                        then pending + [tx] else pending)
  {
    hide CheckTx, State, RecentIds, IsCoinbase, ChainIds;
    if tx.txid in RecentIds(chain) {
      RecentIsConfirmed(chain, tx.txid);
    }
  }

  /** Payments that the old chain confirms, and that neither the new chain nor what stays pending has. */
  ghost predicate OrphansOk(former: seq<Block>, chain: seq<Block>, stay: seq<Tx>, orphans: seq<Tx>) {
    forall n :: 0 <= n < |orphans| ==>
      Confirmed(former, orphans[n]) && orphans[n].txid !in ChainIds(chain) && orphans[n].txid !in IdSet(stay)
  }

  /** One offer: the orphan is appended exactly when there is room and its inputs are available. */
  lemma {:induction false} OfferReturns(c: Crypto, former: seq<Block>, before: int, s: Node, now: int, from: nat,
                                        tx: Tx)
    requires Held(c, former, before) && Confirmed(former, tx) && Settled(c, s, now)
    requires from <= |s.mempool| && Gone(Flatten(s.chain), s.mempool, from)
    requires tx.txid !in ChainIds(s.chain) && tx.txid !in IdSet(s.mempool[..from])
    ensures var room := |s.mempool| < 5_000;
            var after := AddTransaction(c, s, tx).node;
            && after == (if room && InputsAvailable(tx, BuildUtxos(s.chain), s.mempool, |s.chain|)
                         then Node(s.chain, s.mempool + [tx]) else s)
            && Settled(c, after, now) && Gone(Flatten(s.chain), after.mempool, from)
  {
    hide Validated, Confirmed, Settled, State, Flatten, CheckTx, InputsAvailable, Gone, ChainIds, Honest, RecentIds,
         AddTransaction, Reenters, WellFormed, MempoolOk, Taken, InputKeys;
    var basis, made := ConfirmedValidatedOnce(c, former, before, tx);
    CheckTxAccepts(c, tx, basis, made);
    SettledFacts(c, s, now);
    OutsideIsUnconfirmed(s.chain, tx);
    SettledStep(c, s, now, tx);
    if tx.txid in IdSet(s.mempool) {
      NotAvailableTwice(c, s.chain, s.mempool, from, tx, now, |s.chain|);
      KnownChangesNothing(c, s, tx);
    } else {
      OrphanValidIff(c, former, before, s, now, tx);
      OfferOrphan(c, s.chain, s.mempool, tx);
      if AddTransaction(c, s, tx).node != s {
        InputsSeen(c, tx, BuildWithMempool(s.chain, s.mempool), |s.chain|);
        OutsideIsFree(s.chain, s.mempool, tx);
        GoneStep(Flatten(s.chain), s.mempool, from, tx);
      }
    }
  }

  lemma {:induction false} SettledStep(c: Crypto, s: Node, now: int, tx: Tx)
    requires Settled(c, s, now) && !Confirmed(s.chain, tx)
    ensures Settled(c, AddTransaction(c, s, tx).node, now)
  {
    hide Validated, MempoolOk, Confirmed, CheckTx, RecentIds;
    AddKeepsUnlessReentry(c, s, now, tx);
  }

  lemma {:induction false} KnownChangesNothing(c: Crypto, s: Node, tx: Tx)
    requires tx.txid in IdSet(s.mempool)
    ensures AddTransaction(c, s, tx).node == s
  {
  }

  lemma {:induction false} InputsSeen(c: Crypto, tx: Tx, utxos: Utxos, h: int)
    requires CheckTx(c, tx, utxos, h).Ok?
    ensures forall op :: op in Spent(tx) ==> op in utxos
  {
    CheckTxAccepts(c, tx, utxos, h);
  }

  lemma {:induction false} OutsideIsFree(chain: seq<Block>, pending: seq<Tx>, tx: Tx)
    requires tx.txid !in ChainIds(chain) && tx.txid !in IdSet(pending)
    ensures !Taken(Flatten(chain), pending, tx.txid)
  {
    IdsOfChain(chain, tx.txid);
  }

  /** The best-effort loop ends with exactly the mempool that availability and room allow. */
  lemma {:induction false} OffersReturn(c: Crypto, former: seq<Block>, before: int, s: Node, now: int, orphans: seq<Tx>)
    requires Held(c, former, before) && Settled(c, s, now) && OrphansOk(former, s.chain, s.mempool, orphans)
    ensures var pending := Returned(s.mempool, orphans, BuildUtxos(s.chain), |s.chain|);
            && AddAll(c, s, orphans) == Node(s.chain, pending) && Settled(c, Node(s.chain, pending), now)
            && s.mempool <= pending && Gone(Flatten(s.chain), pending, |s.mempool|)
  {
    hide State, Settled, AddTransaction, InputsAvailable, ChainIds, Flatten, IdSet, Confirmed, Held, Spent;
    if orphans != [] {
      var n := |orphans| - 1;
      OffersReturn(c, former, before, s, now, orphans[..n]);
      var t := AddAll(c, s, orphans[..n]);
      assert t.mempool[..|s.mempool|] == s.mempool;
      OfferReturns(c, former, before, t, now, |s.mempool|, orphans[n]);
    }
  }

  /** What stays and the orphans, on the way to a new chain. */
  lemma {:induction false} OrphansAreOk(c: Crypto, s: Node, before: int, chain: seq<Block>, now: int)
    requires Settled(c, s, before) && Held(c, chain, now)
    ensures var stay, orphans := Without(s.mempool, ChainIds(chain)), Orphans(s.chain, ChainIds(chain));
            && Settled(c, Node(chain, stay), now) && OrphansOk(s.chain, chain, stay, orphans)
  {
    hide Validated, ChainIds, Orphans, Flatten, IdSet, Confirmed, MempoolOk;
    var stay, orphans := Without(s.mempool, ChainIds(chain)), Orphans(s.chain, ChainIds(chain));
    ReplacedKeeps(c, s.chain, chain, s.mempool);
    OrphansAreConfirmed(s.chain, ChainIds(chain));
    forall n | 0 <= n < |orphans| ensures orphans[n].txid !in IdSet(stay) {
      StayIsNoOrphan(c, s, before, ChainIds(chain), orphans[n]);
    }
  }

  lemma {:induction false} StayIsNoOrphan(c: Crypto, s: Node, now: int, ids: set<Hash>, tx: Tx)
    requires Settled(c, s, now) && Confirmed(s.chain, tx)
    ensures tx.txid !in IdSet(Without(s.mempool, ids))
  {
    hide Validated, Flatten, Confirmed, Fresh;
    WithoutKeeps(s.mempool, ids);
    ConfirmedIsNotFresh(s.chain, tx);
    forall i | 0 <= i < |s.mempool| ensures s.mempool[i].txid != tx.txid {
      assert Unconfirmed(c, Flatten(s.chain), s.mempool[i]);
    }
  }

  // What a reorganization leaves

  /** A node in the course of a run, about to adopt a candidate with success. Any coinbases in either chain. */
  ghost predicate Adopts(c: Crypto, s: Node, before: int, candidate: seq<Block>, now: int) {
    && Settled(c, s, before) && s.chain != []
    && ReplaceChain(c, s, candidate, now).result == Ok(true) && candidate[0] == Genesis(c)
    && CheckChain(c, candidate, now).Ok?
  }

  /**
   The mempool after a reorganization, whatever it was before: the pending transactions that the new chain does not
   confirm, then, in old-chain order, the orphaned payments whose inputs are available while there is room.
   */
  lemma {:induction false} ReorgMempool(c: Crypto, s: Node, before: int, candidate: seq<Block>, now: int)
    requires Adopts(c, s, before, candidate, now)
    ensures var chain := CheckChain(c, candidate, now).value.chain;
            var stay, orphans := Without(s.mempool, ChainIds(chain)), Orphans(s.chain, ChainIds(chain));
            var after := ReplaceChain(c, s, candidate, now).node;
            && after == Node(chain, Returned(stay, orphans, BuildUtxos(chain), |chain|))
            && MempoolOk(c, chain, after.mempool)
  {
    hide CheckChain, Validated, MempoolOk, ChainIds, Orphans, AddAll, Returned, Work.ChainWork, State, Flatten,
         OrphansOk, Without, Gone;
    var chain := CheckChain(c, candidate, now).value.chain;
    var stay, orphans := Without(s.mempool, ChainIds(chain)), Orphans(s.chain, ChainIds(chain));
    AdoptedIsHeld(c, candidate, now);
    OrphansAreOk(c, s, before, chain, now);
    OffersReturn(c, s.chain, before, Node(chain, stay), now, orphans);
  }

  lemma {:induction false} AdoptedIsHeld(c: Crypto, candidate: seq<Block>, now: int)
    requires CheckChain(c, candidate, now).Ok? && candidate[0] == Genesis(c)
    ensures Held(c, CheckChain(c, candidate, now).value.chain, now)
  {
    hide CheckChain, Validated;
    GenesisOfAcceptedChain(c, candidate, now);
    AcceptedIsValidated(c, candidate, now);
  }

  /** What stayed comes first and in order; after it a subsequence of the orphans. */
  lemma {:induction false} ReturnedShape(stay: seq<Tx>, orphans: seq<Tx>, utxos: Utxos, h: int) returns (at: seq<nat>)
    ensures var r := Returned(stay, orphans, utxos, h);
            && |stay| <= |r| <= |stay| + |orphans| && stay == r[..|stay|] && Picks(r[|stay|..], orphans, at)
  {
    hide InputsAvailable;
    at := [];
    if orphans != [] {
      var n := |orphans| - 1;
      at := ReturnedShape(stay, orphans[..n], utxos, h);
      var r, t := Returned(stay, orphans[..n], utxos, h), Returned(stay, orphans, utxos, h);
      PicksNext(r[|stay|..], orphans[..n], at, orphans[n]);
      assert orphans == orphans[..n] + [orphans[n]];
      if t != r {
        assert t[|stay|..] == r[|stay|..] + [orphans[n]];
        at := at + [n];
      }
    }
  }

  /** Each orphan's inputs are available behind what stays and the orphans before it. */
  ghost predicate AllAvailable(stay: seq<Tx>, orphans: seq<Tx>, utxos: Utxos, h: int) {
    forall n :: 0 <= n < |orphans| ==> InputsAvailable(orphans[n], utxos, stay + orphans[..n], h)
  }

  lemma {:induction false} AllAvailableStep(stay: seq<Tx>, orphans: seq<Tx>, utxos: Utxos, h: int)
    requires orphans != []
    ensures var n := |orphans| - 1;
            AllAvailable(stay, orphans, utxos, h)
            <==>
            && AllAvailable(stay, orphans[..n], utxos, h)
            && InputsAvailable(orphans[n], utxos, stay + orphans[..n], h)
  {
    hide InputsAvailable;
    var n := |orphans| - 1;
    forall i | 0 <= i < n ensures orphans[..n][i] == orphans[i] && orphans[..n][..i] == orphans[..i] {
    }
  }

  lemma {:induction false} AllReturnIff(stay: seq<Tx>, orphans: seq<Tx>, utxos: Utxos, h: int)
    requires |stay| <= 5_000
    ensures Returned(stay, orphans, utxos, h) == stay + orphans
       <==> |stay| + |orphans| <= 5_000 && AllAvailable(stay, orphans, utxos, h)
  {
    hide InputsAvailable, AllAvailable;
    if orphans == [] {
      NoneToReturn(stay, utxos, h);
      assert stay + [] == stay;
    } else {
      var n := |orphans| - 1;
      AllReturnIff(stay, orphans[..n], utxos, h);
      AllAvailableStep(stay, orphans, utxos, h);
      assert stay + orphans == stay + orphans[..n] + [orphans[n]];
      var at := ReturnedShape(stay, orphans[..n], utxos, h);
      var r := Returned(stay, orphans[..n], utxos, h);
      var longer := r + [orphans[n]];
      assert longer == stay + orphans[..n] + [orphans[n]] ==> r == longer[..|r|] == stay + orphans[..n];
    }
  }

  lemma {:induction false} NoneToReturn(stay: seq<Tx>, utxos: Utxos, h: int)
    ensures AllAvailable(stay, [], utxos, h)
  {
  }

  /**
   A reorganization loses no payment of the old branch if and only if they fit the mempool behind what stays, and
   each of their inputs is available: unspent and mature in the new chain and spent by nothing pending, or made by a
   pending transaction or an earlier orphan and not spent since. Any mempool, any coinbases. The old chain and the
   rebuilt set show it; it also means that the old branch confirmed none of them twice.
   */
  lemma {:induction false} ReorgKeepsPaymentsIff(c: Crypto, s: Node, before: int, candidate: seq<Block>, now: int)
    requires Adopts(c, s, before, candidate, now)
    ensures var chain := CheckChain(c, candidate, now).value.chain;
            var stay, orphans := Without(s.mempool, ChainIds(chain)), Orphans(s.chain, ChainIds(chain));
            var after := ReplaceChain(c, s, candidate, now).node.mempool;
            && (after == stay + orphans
                <==> |stay| + |orphans| <= 5_000
                     && AllAvailable(stay, orphans, BuildUtxos(chain), |chain|))
            && (after == stay + orphans ==> DistinctTxids(orphans))
  {
    hide CheckChain, ChainIds, Orphans, Returned, ReplaceChain, State, Flatten, AllAvailable, Validated, MempoolOk;
    var chain := CheckChain(c, candidate, now).value.chain;
    var stay, orphans := Without(s.mempool, ChainIds(chain)), Orphans(s.chain, ChainIds(chain));
    ReorgMempool(c, s, before, candidate, now);
    StayFits(c, s, before, ChainIds(chain));
    AllReturnIff(stay, orphans, BuildUtxos(chain), |chain|);
    DistinctPart(c, chain, ReplaceChain(c, s, candidate, now).node.mempool, stay, orphans);
  }

  lemma {:induction false} StayFits(c: Crypto, s: Node, now: int, ids: set<Hash>)
    requires Settled(c, s, now)
    ensures |Without(s.mempool, ids)| <= 5_000
  {
    hide Validated, Unconfirmed;
    WithoutKeeps(s.mempool, ids);
  }

  lemma {:induction false} DistinctPart(c: Crypto, chain: seq<Block>, mempool: seq<Tx>, stay: seq<Tx>, rest: seq<Tx>)
    requires MempoolOk(c, chain, mempool)
    ensures mempool == stay + rest ==> DistinctTxids(rest)
  {
    hide Unconfirmed;
    if mempool == stay + rest {
      forall i, j | 0 <= i < j < |rest| ensures rest[i].txid != rest[j].txid {
        assert mempool[|stay| + i] == rest[i] && mempool[|stay| + j] == rest[j];
      }
    }
  }

  // From an empty mempool

  ghost predicate CreatedBefore(txs: seq<Tx>, n: nat, op: Outpoint)
    requires n <= |txs|
  {
    exists j :: 0 <= j < n && Creates(txs[j], op)
  }

  /** Each input of orphan `n` is spendable in the new chain or is an output of an earlier orphan. */
  ghost predicate Payable(txs: seq<Tx>, n: nat, utxos: Utxos, height: int)
    requires n < |txs|
  {
    forall i :: 0 <= i < |txs[n].body.inputs| ==>
      Spendable(utxos, txs[n].body.inputs[i].prev, height) || CreatedBefore(txs, n, txs[n].body.inputs[i].prev)
  }

  ghost predicate AllPayable(txs: seq<Tx>, utxos: Utxos, height: int) {
    forall n :: 0 <= n < |txs| ==> Payable(txs, n, utxos, height)
  }

  /** No two of the transactions spend one outpoint. */
  ghost predicate ShareNoInput(txs: seq<Tx>) {
    forall m, n, op :: 0 <= m < n < |txs| && op in Spent(txs[m]) ==> op !in Spent(txs[n])
  }

  lemma {:induction false} PayableIffAvailable(orphans: seq<Tx>, utxos: Utxos, h: int)
    requires ShareNoInput(orphans)
    ensures AllAvailable([], orphans, utxos, h) <==> AllPayable(orphans, utxos, h)
  {
    hide InputsAvailable, Payable;
    forall n | 0 <= n < |orphans|
      ensures InputsAvailable(orphans[n], utxos, [] + orphans[..n], h) <==> Payable(orphans, n, utxos, h)
    {
      PayableAt(orphans, n, utxos, h);
    }
  }

  lemma {:induction false} PayableAt(orphans: seq<Tx>, n: nat, utxos: Utxos, h: int)
    requires ShareNoInput(orphans) && n < |orphans|
    ensures InputsAvailable(orphans[n], utxos, [] + orphans[..n], h) <==> Payable(orphans, n, utxos, h)
  {
    hide Spendable, Creates, InputKeys;
    assert [] + orphans[..n] == orphans[..n];
    forall i | 0 <= i < |orphans[n].body.inputs|
      ensures var op := orphans[n].body.inputs[i].prev;
              Available(utxos, orphans[..n], op, h) <==> Spendable(utxos, op, h) || CreatedBefore(orphans, n, op)
    {
      var op := orphans[n].body.inputs[i].prev;
      assert op in Spent(orphans[n]);
      UnspentMeansOpen(orphans, n, op);
    }
  }

  lemma {:induction false} UnspentMeansOpen(txs: seq<Tx>, n: nat, op: Outpoint)
    requires n <= |txs| && forall m :: 0 <= m < n ==> op !in Spent(txs[m])
    ensures !SpentBy(txs[..n], op) && (PendingOpen(txs[..n], op) <==> CreatedBefore(txs, n, op))
  {
    hide Spent, Creates;
    assert forall m :: 0 <= m < n ==> txs[..n][m] == txs[m];
    if j :| 0 <= j < n && Creates(txs[j], op) {
      assert OpenAt(txs[..n], j, op);
    }
    if j :| 0 <= j < |txs[..n]| && OpenAt(txs[..n], j, op) {
      assert Creates(txs[j], op);
    }
  }

  lemma {:induction false} InputIsAvailable(tx: Tx, utxos: Utxos, pending: seq<Tx>, h: int, op: Outpoint)
    requires InputsAvailable(tx, utxos, pending, h) && op in Spent(tx)
    ensures Available(utxos, pending, op, h)
  {
    hide Available;
  }

  /** Behind earlier orphans that all returned to an empty mempool, nothing that they spend is available. */
  lemma {:induction false} ReturnedIsGone(c: Crypto, former: seq<Block>, before: int, chain: seq<Block>, now: int,
                                          orphans: seq<Tx>, m: nat, op: Outpoint)
    requires Held(c, former, before) && Settled(c, Node(chain, []), now) && OrphansOk(former, chain, [], orphans)
    requires |orphans| <= 5_000
    requires AllAvailable([], orphans, BuildUtxos(chain), |chain|)
    requires m < |orphans| && op in Spent(orphans[m])
    ensures !Available(BuildUtxos(chain), orphans, op, |chain|)
  {
    hide State, Settled, Held, ChainIds, Flatten, Confirmed, Returned, AllAvailable, Spent, PendingOk, Available,
         OrphansOk;
    OffersReturn(c, former, before, Node(chain, []), now, orphans);
    AllReturnIff([], orphans, BuildUtxos(chain), |chain|);
    assert [] + orphans == orphans;
    SettledPending(c, chain, orphans, now);
    SeenIffAvailable(Flatten(chain), orphans, op, |chain|);
  }

  /** Orphans that all return to an empty mempool share no input: what one of them spends stays gone. */
  lemma {:induction false} ReturnedShareNoInput(c: Crypto, former: seq<Block>, before: int, chain: seq<Block>, now: int,
                                                orphans: seq<Tx>)
    requires Held(c, former, before) && Settled(c, Node(chain, []), now) && OrphansOk(former, chain, [], orphans)
    requires |orphans| <= 5_000
    requires AllAvailable([], orphans, BuildUtxos(chain), |chain|)
    ensures ShareNoInput(orphans)
  {
    hide State, Settled, Held, InputsAvailable, ChainIds, Flatten, Confirmed, AllAvailable, Spent, Available, IdSet;
    var utxos, h := BuildUtxos(chain), |chain|;
    forall m, n, op | 0 <= m < n < |orphans| && op in Spent(orphans[m]) ensures op !in Spent(orphans[n]) {
      var front := orphans[..n];
      AvailablePrefix(orphans, n, utxos, h);
      assert front[m] == orphans[m];
      ReturnedIsGone(c, former, before, chain, now, front, m, op);
      if op in Spent(orphans[n]) {
        InputIsAvailable(orphans[n], utxos, front, h, op);
      }
    }
  }

  lemma {:induction false} AvailablePrefix(orphans: seq<Tx>, n: nat, utxos: Utxos, h: int)
    requires n < |orphans| && AllAvailable([], orphans, utxos, h)
    ensures AllAvailable([], orphans[..n], utxos, h) && InputsAvailable(orphans[n], utxos, orphans[..n], h)
  {
    hide InputsAvailable;
    assert [] + orphans[..n] == orphans[..n];
    forall i | 0 <= i < n ensures orphans[..n][i] == orphans[i] && orphans[..n][..i] == orphans[..i] {
    }
  }

  /**
   From an empty mempool exactly the orphaned payments are left, in old-chain order, if and only if they fit it, no
   two of them spend one outpoint, and each of their inputs is unspent (and mature) in the new chain or made by an
   earlier orphan. Any coinbases.
   */
  lemma {:induction false} ReorgFromEmptyMempoolIff(c: Crypto, s: Node, before: int, candidate: seq<Block>, now: int)
    requires Adopts(c, s, before, candidate, now) && s.mempool == []
    ensures var chain := CheckChain(c, candidate, now).value.chain;
            var orphans := Orphans(s.chain, ChainIds(chain));
            ReplaceChain(c, s, candidate, now).node.mempool == orphans
            <==> |orphans| <= 5_000 && ShareNoInput(orphans)
                 && AllPayable(orphans, BuildUtxos(chain), |chain|)
  {
    hide CheckChain, ChainIds, Orphans, ReplaceChain, State, Flatten, OrphansOk, AllAvailable, AllPayable,
         ShareNoInput, Validated, MempoolOk, DistinctTxids;
    var chain := CheckChain(c, candidate, now).value.chain;
    var orphans := Orphans(s.chain, ChainIds(chain));
    ReorgKeepsPaymentsIff(c, s, before, candidate, now);
    assert [] + orphans == orphans && Without(s.mempool, ChainIds(chain)) == [];
    AdoptedIsHeld(c, candidate, now);
    OrphansAreOk(c, s, before, chain, now);
    if |orphans| <= 5_000 && AllAvailable([], orphans, BuildUtxos(chain), |chain|) {
      ReturnedShareNoInput(c, s.chain, before, chain, now, orphans);
    }
    if ShareNoInput(orphans) {
      PayableIffAvailable(orphans, BuildUtxos(chain), |chain|);
    }
  }

  // With distinct coinbases in the old chain

  /** Where the coinbases of the old chain are distinct, no two orphans spend one outpoint. */
  lemma {:induction false} OrphansShareNoInput(c: Crypto, chain: seq<Block>, now: int, ids: set<Hash>)
    requires c.TxIdsInjective() && Held(c, chain, now) && DistinctCoinbases(chain)
    ensures ShareNoInput(Orphans(chain, ids))
  {
    hide Validated, DistinctCoinbases, Flatten, Sound, InputKeys, Spent;
    ValidatedFacts(c, chain, now);
    var orphans := Orphans(chain, ids);
    var at := OrphanPlaces(chain, ids);
    forall m, n, op | 0 <= m < n < |orphans| && op in Spent(orphans[m]) ensures op !in Spent(orphans[n]) {
      var k, l := at[m], at[n];
      SpentMeansSpends(Flatten(chain)[k], op);
      SpentMeansSpends(Flatten(chain)[l], op);
      NoDoubleSpend(c, Flatten(chain), k, l, op);
    }
  }

  lemma {:induction false} SpentMeansSpends(e: Entry, op: Outpoint)
    ensures op in Spent(e.tx) <==> Spends(e, op)
  {
  }

  /** Where the orphans stand in the old chain: at rising places. */
  ghost predicate StandAt(entries: seq<Entry>, txs: seq<Tx>, at: seq<nat>) {
    && |at| == |txs| && (forall i, j :: 0 <= i < j < |at| ==> at[i] < at[j])
    && forall i :: 0 <= i < |at| ==> at[i] < |entries| && entries[at[i]].tx == txs[i]
  }

  lemma {:induction false} PlacesInBlock(block: Block, ids: set<Hash>) returns (at: seq<nat>)
    ensures StandAt(BlockEntries(block), Without(AfterFirst(block.transactions), ids), at)
    ensures forall i :: 0 <= i < |block.transactions| ==>
              (i in at <==> 1 <= i && block.transactions[i].txid !in ids)
  {
    var txs := AfterFirst(block.transactions);
    var kept := WithoutPicks(txs, ids);
    at := seq(|kept|, i requires 0 <= i < |kept| => kept[i] + 1);
    forall i | 0 <= i < |at|
      ensures at[i] < |BlockEntries(block)| && BlockEntries(block)[at[i]].tx == Without(txs, ids)[i]
    {
      assert txs[kept[i]] == block.transactions[at[i]];
    }
    forall i | 1 <= i < |block.transactions| ensures i in at <==> block.transactions[i].txid !in ids {
      assert txs[i - 1] == block.transactions[i];
      if i - 1 in kept {
        var k :| 0 <= k < |kept| && kept[k] == i - 1;
        assert at[k] == i;
      }
    }
  }

  function Shifted(n: nat, places: seq<nat>): (moved: seq<nat>)
    ensures |moved| == |places| && forall i :: 0 <= i < |places| ==> moved[i] == n + places[i]
  {
    seq(|places|, i requires 0 <= i < |places| => n + places[i])
  }

  lemma {:induction false} PlacesJoin(entries: seq<Entry>, txs: seq<Tx>, at: seq<nat>, more: seq<Entry>, rest: seq<Tx>,
                                      places: seq<nat>)
    requires StandAt(entries, txs, at) && StandAt(more, rest, places)
    ensures StandAt(entries + more, txs + rest, at + Shifted(|entries|, places))
  {
  }

  lemma {:induction false} PlacesAmong(n: nat, at: seq<nat>, places: seq<nat>, k: nat)
    requires forall i :: 0 <= i < |at| ==> at[i] < n
    ensures var all := at + Shifted(n, places);
            (k < n ==> (k in all <==> k in at)) && (n + k in all <==> k in places)
  {
    var moved := Shifted(n, places);
    if k in places {
      var i :| 0 <= i < |places| && places[i] == k;
      assert moved[i] == n + k;
    }
  }

  /** The place of a transaction is among these exactly if it is a payment and its txid is not in the set. */
  ghost predicate PlacedRightly(chain: seq<Block>, ids: set<Hash>, at: seq<nat>, b: nat, i: nat)
    requires b < |chain| && i < |chain[b].transactions|
  {
    |Flatten(chain[..b])| + i in at <==> 1 <= i && chain[b].transactions[i].txid !in ids
  }

  ghost predicate AllUnconfirmed(chain: seq<Block>, ids: set<Hash>, at: seq<nat>) {
    forall b: nat, i: nat :: b < |chain| && i < |chain[b].transactions| ==> PlacedRightly(chain, ids, at, b, i)
  }

  /** The orphans are exactly the payments of the old chain that the new one does not confirm, in old-chain order. */
  lemma {:induction false} OrphanPlaces(chain: seq<Block>, ids: set<Hash>) returns (at: seq<nat>)
    ensures StandAt(Flatten(chain), Orphans(chain, ids), at) && AllUnconfirmed(chain, ids, at)
  {
    if chain == [] {
      at := NoPlaces();
    } else {
      var m := |chain| - 1;
      var front := OrphanPlaces(chain[..m], ids);
      var back := PlacesInBlock(chain[m], ids);
      PlacesNext(chain, ids, front, back);
      at := front + Shifted(|Flatten(chain[..m])|, back);
    }
  }

  lemma {:induction false} PlacesNext(chain: seq<Block>, ids: set<Hash>, front: seq<nat>, back: seq<nat>)
    requires chain != []
    requires var m := |chain| - 1;
             && StandAt(Flatten(chain[..m]), Orphans(chain[..m], ids), front) && AllUnconfirmed(chain[..m], ids, front)
             && StandAt(BlockEntries(chain[m]), Without(AfterFirst(chain[m].transactions), ids), back)
             && forall i :: 0 <= i < |chain[m].transactions| ==>
                  (i in back <==> 1 <= i && chain[m].transactions[i].txid !in ids)
    ensures var at := front + Shifted(|Flatten(chain[..|chain| - 1])|, back);
            StandAt(Flatten(chain), Orphans(chain, ids), at) && AllUnconfirmed(chain, ids, at)
  {
    hide BlockEntries, Without;
    var m := |chain| - 1;
    var entries, rest := Flatten(chain[..m]), Without(AfterFirst(chain[m].transactions), ids);
    var at := front + Shifted(|entries|, back);
    PlacesJoin(entries, Orphans(chain[..m], ids), front, BlockEntries(chain[m]), rest, back);
    FrontIsLow(entries, Orphans(chain[..m], ids), front);
    hide StandAt;
    UnconfirmedNext(chain, ids, front, back);
  }

  lemma {:induction false} UnconfirmedNext(chain: seq<Block>, ids: set<Hash>, front: seq<nat>, back: seq<nat>)
    requires chain != []
    requires var m := |chain| - 1;
             && (forall i :: 0 <= i < |front| ==> front[i] < |Flatten(chain[..m])|)
             && AllUnconfirmed(chain[..m], ids, front)
             && forall i :: 0 <= i < |chain[m].transactions| ==>
                  (i in back <==> 1 <= i && chain[m].transactions[i].txid !in ids)
    ensures var at := front + Shifted(|Flatten(chain[..|chain| - 1])|, back);
            AllUnconfirmed(chain, ids, at)
  {
    hide Flatten;
    var m := |chain| - 1;
    var entries := Flatten(chain[..m]);
    var at := front + Shifted(|entries|, back);
    forall b: nat, i: nat | b < |chain| && i < |chain[b].transactions| ensures PlacedRightly(chain, ids, at, b, i) {
      if b < m {
        assert chain[..m][..b] == chain[..b] && chain[..m][b] == chain[b];
        FlattenWithin(chain[..m], b, i);
        PlacesAmong(|entries|, front, back, |Flatten(chain[..b])| + i);
        assert PlacedRightly(chain[..m], ids, front, b, i);
      } else {
        PlacesAmong(|entries|, front, back, i);
      }
    }
  }

  lemma {:induction false} FrontIsLow(entries: seq<Entry>, txs: seq<Tx>, at: seq<nat>)
    requires StandAt(entries, txs, at)
    ensures forall i :: 0 <= i < |at| ==> at[i] < |entries|
  {
  }

  lemma {:induction false} FlattenWithin(chain: seq<Block>, b: nat, i: nat)
    requires b < |chain| && i < |chain[b].transactions|
    ensures |Flatten(chain[..b])| + i < |Flatten(chain)|
    decreases |chain|
  {
    var n := |chain| - 1;
    if b < n {
      FlattenWithin(chain[..n], b, i);
      assert chain[..n][..b] == chain[..b];
    }
  }

  lemma {:induction false} NoPlaces() returns (at: seq<nat>)
    ensures StandAt([], [], at)
  {
    at := [];
  }

  /** From an empty mempool, with distinct coinbases in the old chain: the inputs alone decide. */
  lemma {:induction false} ReorgOfDistinctCoinbasesIff(c: Crypto, s: Node, before: int, candidate: seq<Block>, now: int)
    requires Adopts(c, s, before, candidate, now) && s.mempool == [] && DistinctCoinbases(s.chain)
    ensures var chain := CheckChain(c, candidate, now).value.chain;
            var orphans := Orphans(s.chain, ChainIds(chain));
            ReplaceChain(c, s, candidate, now).node.mempool == orphans
            <==> |orphans| <= 5_000 && AllPayable(orphans, BuildUtxos(chain), |chain|)
  {
    hide CheckChain, ChainIds, Orphans, ReplaceChain, State, Flatten, AllPayable, ShareNoInput, Validated, MempoolOk,
         DistinctCoinbases;
    ReorgFromEmptyMempoolIff(c, s, before, candidate, now);
    OrphansShareNoInput(c, s.chain, before, ChainIds(CheckChain(c, candidate, now).value.chain));
  }
}
