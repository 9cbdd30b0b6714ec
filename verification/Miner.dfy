/** `worker` of miner.py and the result that `mine_one` sends back: nonce stepping, timestamp refresh, found report. */
module Miner {
  import opened Prelude
  import opened Types
  import opened Blocks
  import opened Operations
  import opened Mempool
  import opened Template
  import TimeRules
  import Work

  /** What one turn of the loop sees of the rest of the world: the shared event, twice, and the clock. */
  datatype Turn = Turn(foundAtTop: bool, foundBeforeReport: bool, clock: int)
  datatype Found = Found(worker: nat, nonce: int, timestamp: int, digest: Hash)

  /** The timestamp in the header at attempt `k`: refreshed after every `reportEvery` attempts, never backwards. */
  function Stamp(template: Block, turns: seq<Turn>, reportEvery: nat, k: nat): int
    requires reportEvery > 0 && k <= |turns|
  {
    if k == 0 then template.header.timestamp
    else
      var before := Stamp(template, turns, reportEvery, k - 1);
      if k % reportEvery == 0 then Max(before, turns[k - 1].clock) else before
  }

  predicate Solves(c: Crypto, block: Block) {
    Work.MeetsWork(BlockHash(c, block), block.header.difficulty, block.header.version)
  }

  function Attempt(template: Block, id: nat, step: nat, turns: seq<Turn>, reportEvery: nat, k: nat): Block
    requires reportEvery > 0 && k <= |turns|
  {
    WithWork(template, id + step * k, Stamp(template, turns, reportEvery, k))
  }

  /** A report of worker `id`: some attempt of its own that meets the target. */
  ghost predicate Reported(c: Crypto, template: Block, id: nat, step: nat, reportEvery: nat, turns: seq<Turn>,
                           report: Found) {
    reportEvery > 0 &&
    exists k :: 0 <= k < |turns| &&
      var solved := Attempt(template, id, step, turns, reportEvery, k);
      && Solves(c, solved)
      && report == Found(id, solved.header.nonce, solved.header.timestamp, BlockHash(c, solved))
  }

  /**
   Attempt `k` of worker `id` is nonce `id + step * k`; a report is the first attempt that meets the target, with
   the timestamp it was hashed under; without a report either nothing met it or another worker was first.
   */
  method Worker(c: Crypto, template: Block, id: nat, step: nat, reportEvery: nat, turns: seq<Turn>)
    returns (report: Option<Found>, hashes: nat)
    requires step > 0 && reportEvery > 0
    ensures hashes <= |turns|
    ensures forall k :: 0 <= k < hashes - 1 ==> !Solves(c, Attempt(template, id, step, turns, reportEvery, k))
    ensures report.Some? ==>
              && hashes > 0
              && var solved := Attempt(template, id, step, turns, reportEvery, hashes - 1);
                 && Solves(c, solved)
                 && report == Some(Found(id, solved.header.nonce, solved.header.timestamp, BlockHash(c, solved)))
                 && Reported(c, template, id, step, reportEvery, turns, report.value)
    ensures report.None? ==>
              || (hashes == |turns| && forall k :: 0 <= k < hashes ==>
                    !Solves(c, Attempt(template, id, step, turns, reportEvery, k)))
              || (hashes < |turns| && turns[hashes].foundAtTop)
              || (hashes > 0 && turns[hashes - 1].foundBeforeReport)
  {
    hide Work.MeetsWork;
    var block, nonce := template, id;
    report, hashes := None, 0;
    while hashes < |turns| && !turns[hashes].foundAtTop
      invariant hashes <= |turns| && nonce == id + step * hashes
      invariant block == WithWork(template, block.header.nonce, Stamp(template, turns, reportEvery, hashes))
      invariant forall k :: 0 <= k < hashes ==> !Solves(c, Attempt(template, id, step, turns, reportEvery, k))
    {
      var turn := turns[hashes];
      block := block.(header := block.header.(nonce := nonce));
      assert block == Attempt(template, id, step, turns, reportEvery, hashes);
      var digest := BlockHash(c, block);
      hashes := hashes + 1;
      if Work.MeetsWork(digest, template.header.difficulty, template.header.version) {
        if !turn.foundBeforeReport {
          report := Some(Found(id, nonce, block.header.timestamp, digest));
        }
        return;
      }
      nonce := nonce + step;
      NextNonce(id, step, hashes);
      if hashes % reportEvery == 0 {
        block := block.(header := block.header.(timestamp := Max(block.header.timestamp, turn.clock)));
      }
    }
  }

  lemma {:induction false} NextNonce(id: nat, step: nat, k: nat)
    requires k > 0
    ensures id + step * k == id + step * (k - 1) + step
  {
  }

  /**
   The workers partition the nonces: nonce `n` is tried by worker `n % threads` at attempt `n / threads` and by no
   other.
   */
  lemma {:induction false} NoncesArePartitioned(template: Block, turns: seq<Turn>, reportEvery: nat, threads: nat,
                                                nonce: nat, id: nat, k: nat)
    requires threads > 0 && id < threads && reportEvery > 0 && k <= |turns|
    ensures nonce == nonce % threads + threads * (nonce / threads)
    ensures Attempt(template, id, threads, turns, reportEvery, k).header.nonce == nonce
       <==> id == nonce % threads && k == nonce / threads
  {
    hide Stamp;
    if id + threads * k == nonce {
      Quotient(nonce, threads, id, k);
    }
  }

  lemma {:induction false} Quotient(n: nat, d: nat, r: nat, q: nat)
    requires d > 0 && r < d && n == r + d * q
    ensures n / d == q && n % d == r
  {
    DivisionUnique(n, d, q);
  }

  /** The refreshed timestamp never precedes the template's, and never passes both it and the latest clock reading. */
  lemma {:induction false} StampBounds(template: Block, turns: seq<Turn>, reportEvery: nat, k: nat, latest: int)
    requires reportEvery > 0 && k <= |turns|
    ensures template.header.timestamp <= Stamp(template, turns, reportEvery, k)
    ensures (forall i :: 0 <= i < k ==> turns[i].clock <= latest) ==>
              Stamp(template, turns, reportEvery, k) <= Max(template.header.timestamp, latest)
  {
    if k > 0 {
      StampBounds(template, turns, reportEvery, k - 1, latest);
    }
  }

  /**
   The timestamp at attempt `k` is the latest of the template's and of the clock readings at the refreshes so far, one
   after every `reportEvery` attempts: none of them is later, and it is one of them.
   */
  lemma {:induction false} StampIsLatest(template: Block, turns: seq<Turn>, reportEvery: nat, k: nat)
    requires reportEvery > 0 && k <= |turns|
    ensures var stamp := Stamp(template, turns, reportEvery, k);
            && template.header.timestamp <= stamp
            && (forall j :: 0 < j <= k && j % reportEvery == 0 ==> turns[j - 1].clock <= stamp)
            && (stamp == template.header.timestamp
                || exists j :: 0 < j <= k && j % reportEvery == 0 && turns[j - 1].clock == stamp)
  {
    if k > 0 {
      StampIsLatest(template, turns, reportEvery, k - 1);
    }
  }

  /** `mine_one` writes the reported timestamp and nonce back into the template it was given. */
  function Rebuilt(template: Block, report: Found): Block {
    WithWork(template, report.nonce, report.timestamp)
  }

  lemma {:induction false} ReportFacts(c: Crypto, template: Block, id: nat, step: nat, reportEvery: nat,
                                       turns: seq<Turn>, report: Found, latest: int)
    requires Reported(c, template, id, step, reportEvery, turns, report)
    ensures Solves(c, Rebuilt(template, report)) && BlockHash(c, Rebuilt(template, report)) == report.digest
    ensures template.header.timestamp <= report.timestamp
    ensures (forall i :: 0 <= i < |turns| ==> turns[i].clock <= latest) && template.header.timestamp <= latest ==>
              report.timestamp <= latest
  {
    hide Work.MeetsWork;
    var k :| 0 <= k < |turns| &&
      var solved := Attempt(template, id, step, turns, reportEvery, k);
      && Solves(c, solved)
      && report == Found(id, solved.header.nonce, solved.header.timestamp, BlockHash(c, solved));
    StampBounds(template, turns, reportEvery, k, latest);
  }

  /** The verdict on a solved template hangs on its size and on how far its timestamp is ahead of the node's clock. */
  lemma {:induction false} OnlySizeAndTimeAreLeft(c: Crypto, chain: seq<Block>, address: string, tag: string,
                                                  timestamp: int, txs: seq<Tx>, template: Block, report: Found,
                                                  now: int)
    requires chain != [] && chain[|chain| - 1].hash.Some? && c.TxIdsInjective()
    requires IsTemplate(c, chain, address, tag, timestamp, txs, template)
    requires TimeRules.MedianTimePast(chain) < timestamp <= report.timestamp
    requires Solves(c, Rebuilt(template, report)) && template.header.version == VERSION
    ensures CheckBlock(c, Rebuilt(template, report), chain, BuildUtxos(chain), now).Ok?
       <==> && c.BlockBytes(Rebuilt(template, report)) <= 2_000_000
            && report.timestamp <= now + 7_200
  {
    hide BuildUtxos, CheckBlock, Work.MeetsWork, TimeRules.MedianTimePast, IsTemplate;
    OnlyTimeSizeAndWork(c, chain, address, tag, timestamp, txs, template, report.nonce, report.timestamp, now);
  }

  lemma {:induction false} TimeBounds(chain: seq<Block>, start: int, latest: int)
    ensures TimeRules.MedianTimePast(chain) < BlockTime(chain, start)
    ensures TimeRules.MedianTimePast(chain) + 1 <= latest && start <= latest ==> BlockTime(chain, start) <= latest
  {
    hide TimeRules.MedianTimePast;
  }

  lemma {:induction false} SubmitOfValid(c: Crypto, s: Node, block: Block, now: int)
    requires s.chain != []
    ensures var after := SubmitBlock(c, s, block, now);
            && (after.result.Ok? <==> CheckBlock(c, block, s.chain, BuildUtxos(s.chain), now).Ok?)
            && (after.result.Ok? ==>
                  && after.result == Ok(BlockHash(c, block))
                  && after.node.chain == s.chain + [Finalized(c, block)])
  {
    hide BuildUtxos, CheckHeader, CheckBody, Without, IdSet, Work.MeetsWork;
    if CheckBlock(c, block, s.chain, BuildUtxos(s.chain), now).Ok? {
      AcceptedBody(c, block, s.chain, BuildUtxos(s.chain), now);
    }
  }

  /**
   Any worker's report on a template is accepted while the chain is unchanged, whatever has happened to the mempool
   since and whatever clocks the template and the worker have read, exactly when the block with its nonce and timestamp
   filled in is within the byte limit and its timestamp is at most two hours ahead of the node's clock.
   */
  lemma {:induction false} FoundBlockIsAccepted(c: Crypto, s: Node, mempool: seq<Tx>, address: string, tag: string,
                                                start: int, template: Block, id: nat, step: nat, reportEvery: nat,
                                                turns: seq<Turn>, report: Found, now: int)
    requires c.TxIdsInjective() && s.chain != [] && s.chain[|s.chain| - 1].hash.Some?
    requires DistinctTxids(mempool)
    requires MiningTemplate(c, s.chain, mempool, address, tag, start) == Ok(template)
    requires Reported(c, template, id, step, reportEvery, turns, report)
    ensures var block, after := Rebuilt(template, report), SubmitBlock(c, s, Rebuilt(template, report), now);
            && BlockHash(c, block) == report.digest
            && (after.result.Ok? <==> && c.BlockBytes(block) <= 2_000_000
                                      && report.timestamp <= now + 7_200)
            && (after.result.Ok? ==>
                  && after.result == Ok(report.digest)
                  && after.node.chain == s.chain + [Finalized(c, block)])
  {
    hide *;
    TemplateNeedsAddress(c, s.chain, mempool, address, tag, start);
    var txs := TemplateSucceeds(c, s.chain, mempool, address, tag, start);
    var timestamp := BlockTime(s.chain, start);
    TemplateFields(c, s.chain, address, tag, timestamp, txs, template);
    ReportFacts(c, template, id, step, reportEvery, turns, report, now);
    TimeBounds(s.chain, start, now);
    OnlySizeAndTimeAreLeft(c, s.chain, address, tag, timestamp, txs, template, report, now);
    SubmitOfValid(c, s, Rebuilt(template, report), now);
  }

  /** No clock reading past `latest`, and median time past below it: then neither is the reported timestamp. */
  lemma {:induction false} ReportIsTimely(c: Crypto, chain: seq<Block>, mempool: seq<Tx>, address: string, tag: string,
                                          start: int, template: Block, id: nat, step: nat, reportEvery: nat,
                                          turns: seq<Turn>, report: Found, latest: int)
    requires c.TxIdsInjective() && chain != [] && chain[|chain| - 1].hash.Some? && DistinctTxids(mempool)
    requires MiningTemplate(c, chain, mempool, address, tag, start) == Ok(template)
    requires Reported(c, template, id, step, reportEvery, turns, report)
    requires TimeRules.MedianTimePast(chain) < latest && start <= latest
    requires forall i :: 0 <= i < |turns| ==> turns[i].clock <= latest
    ensures template.header.timestamp <= report.timestamp <= latest
  {
    hide *;
    TemplateNeedsAddress(c, chain, mempool, address, tag, start);
    var txs := TemplateSucceeds(c, chain, mempool, address, tag, start);
    TemplateFields(c, chain, address, tag, BlockTime(chain, start), txs, template);
    ReportFacts(c, template, id, step, reportEvery, turns, report, latest);
    TimeBounds(chain, start, latest);
  }

  lemma {:induction false} TemplateNeedsAddress(c: Crypto, chain: seq<Block>, mempool: seq<Tx>, address: string,
                                                tag: string, now: int)
    requires chain != [] && chain[|chain| - 1].hash.Some?
    requires MiningTemplate(c, chain, mempool, address, tag, now).Ok?
    ensures c.AddressOk(address)
  {
    hide Select, Shrink, BuildUtxos, Assemble;
  }
}
