/** src/solutions/jasonaw98.ts: a de-duplicated pending queue, one settlement
    map per block hash and a completed set; `newBlock` filters the queue first
    and then notifies every candidate. */
module Jasonaw98 {
  import opened Types
  import opened Settlement

  class Tracker {
    /** Transactions in order of first arrival. */
    var pendingQueue: seq<Tx>
    /** For each block hash seen, the state each transaction settled with there. */
    var settledTransactions: map<Hash, map<Tx, Settled>>
    /** Transactions that have been reported done. */
    var completedTransactions: set<Tx>
    /** Every call to `onTxSettled` / `onTxDone`, in order. */
    var trace: seq<Note>
    /** The block hashes passed to `getBody`, in order. */
    ghost var bodyFetches: seq<Hash>

    ghost predicate Valid()
      reads this
    {
      NoDuplicates(pendingQueue) && Ledger(settledTransactions, completedTransactions, trace)
    }

    constructor ()
      ensures Valid()
      ensures pendingQueue == [] && settledTransactions == map[] && completedTransactions == {}
      ensures trace == [] && bodyFetches == []
    {
      pendingQueue, settledTransactions, completedTransactions, trace, bodyFetches := [], map[], {}, [], [];
    }

    /** `newBlock`: one body fetch, the block's map created if missing, then
        `readyToSettle` (queue order, not yet in the map, included or invalid)
        each stored and notified. */
    method OnNewBlock(api: Api, blockHash: Hash, parent: Hash)
      requires Valid()
      modifies this
      ensures Valid()
      ensures pendingQueue == old(pendingQueue) && completedTransactions == old(completedTransactions)
      ensures bodyFetches == old(bodyFetches) + [blockHash]
      ensures var m := BlockMap(old(settledTransactions), blockHash);
              var r := SettleAll(api, blockHash, api.getBody(blockHash),
                                 Candidates(api, blockHash, api.getBody(blockHash), pendingQueue, m), m);
              && settledTransactions == old(settledTransactions)[blockHash := r.settled]
              && trace == old(trace) + r.notes
              && r == ScanBlock(api, blockHash, api.getBody(blockHash), pendingQueue, m)
      ensures NotesFor(NewBlock(blockHash, parent), trace[|old(trace)|..])
    {
      var blockTransactions := api.getBody(blockHash);
      bodyFetches := bodyFetches + [blockHash];
      var settledBlock := BlockMap(settledTransactions, blockHash);
      settledTransactions := settledTransactions[blockHash := settledBlock];
      var readyToSettle := Candidates(api, blockHash, blockTransactions, pendingQueue, settledBlock);
      SettleReady(api, blockHash, blockTransactions, readyToSettle, settledBlock);
      ghost var r := SettleAll(api, blockHash, blockTransactions, readyToSettle, settledBlock);
      StoreTwice(old(settledTransactions), blockHash, settledBlock, r.settled);
      FilterPassKeepsLedger(api, blockHash, blockTransactions, pendingQueue, old(settledTransactions),
                            completedTransactions, old(trace));
      assert trace[|old(trace)|..] == r.notes;
    }

    /** The `forEach` over `readyToSettle`: each candidate's state is stored in
        the block's map and notified, with no second look at the map. */
    method SettleReady(api: Api, blockHash: Hash, body: seq<Tx>, ready: seq<Tx>, m0: map<Tx, Settled>)
      requires blockHash in settledTransactions && settledTransactions[blockHash] == m0
      modifies this
      ensures pendingQueue == old(pendingQueue) && completedTransactions == old(completedTransactions)
      ensures bodyFetches == old(bodyFetches)
      ensures var r := SettleAll(api, blockHash, body, ready, m0);
              settledTransactions == old(settledTransactions)[blockHash := r.settled] && trace == old(trace) + r.notes
    {
      var settledBlock := m0;
      for i := 0 to |ready|
        invariant pendingQueue == old(pendingQueue) && completedTransactions == old(completedTransactions)
        invariant bodyFetches == old(bodyFetches)
        invariant var r := SettleAll(api, blockHash, body, ready[..i], m0);
                  settledBlock == r.settled && trace == old(trace) + r.notes
        invariant settledTransactions == old(settledTransactions)[blockHash := settledBlock]
      {
        var tx := ready[i];
        assert ready[..i + 1][..i] == ready[..i];
        var settlementState: Settled;
        if tx in body {
          var isValid := api.isTxValid(blockHash, tx);
          if isValid {
            var isSuccessful := api.isTxSuccessful(blockHash, tx);
            settlementState := Settled.Valid(blockHash, isSuccessful);
          } else {
            settlementState := Invalid(blockHash);
          }
        } else {
          settlementState := Invalid(blockHash);
        }
        settledBlock := settledBlock[tx := settlementState];
        settledTransactions := settledTransactions[blockHash := settledBlock];
        trace := trace + [SettledN(tx, settlementState)];
      }
      assert ready[..|ready|] == ready;
    }

    /** `newTransaction`: queue the transaction unless it is already queued. */
    method OnNewTx(transaction: Tx)
      requires Valid()
      modifies this
      ensures Valid()
      ensures pendingQueue == if transaction in old(pendingQueue) then old(pendingQueue) else old(pendingQueue) + [transaction]
      ensures settledTransactions == old(settledTransactions) && completedTransactions == old(completedTransactions)
      ensures trace == old(trace) && bodyFetches == old(bodyFetches)
    {
      if transaction !in pendingQueue {
        pendingQueue := pendingQueue + [transaction];
      }
    }

    /** `finalized`: nothing for a block without a map; otherwise every queued
        transaction stored in that map and not yet completed is reported done
        with the stored state, in queue order. */
    method OnFinalized(blockHash: Hash)
      requires Valid()
      modifies this
      ensures Valid()
      ensures pendingQueue == old(pendingQueue) && settledTransactions == old(settledTransactions)
      ensures bodyFetches == old(bodyFetches)
      ensures blockHash !in settledTransactions ==> completedTransactions == old(completedTransactions) && trace == old(trace)
      ensures blockHash in settledTransactions ==>
                var r := DoneScan(pendingQueue, settledTransactions[blockHash], old(completedTransactions));
                completedTransactions == r.done && trace == old(trace) + r.notes
      ensures old(trace) <= trace && NotesFor(Finalized(blockHash), trace[|old(trace)|..])
    {
      if blockHash !in settledTransactions {
        return;
      }
      var settledBlock := settledTransactions[blockHash];
      ghost var d0, t0 := completedTransactions, trace;
      var q := pendingQueue;
      for i := 0 to |q|
        invariant pendingQueue == q && settledTransactions == old(settledTransactions) && bodyFetches == old(bodyFetches)
        invariant DoneState(q, i, settledBlock, d0, t0, completedTransactions, trace)
      {
        var tx := q[i];
        DoneAdvance(q, i, settledBlock, d0, t0, completedTransactions, trace);
        if tx in settledBlock && tx !in completedTransactions {
          completedTransactions := completedTransactions + {tx};
          trace := trace + [DoneN(tx, settledBlock[tx])];
        }
      }
      DoneFinish(q, settledTransactions, blockHash, d0, t0, completedTransactions, trace);
    }

    /** The dispatcher: one handler per event kind. */
    method Dispatch(api: Api, e: Event)
      requires Valid()
      modifies this
      ensures Valid()
      ensures old(pendingQueue) <= pendingQueue && old(trace) <= trace
      ensures NotesFor(e, trace[|old(trace)|..])
    {
      match e
      case NewBlock(h, p) => OnNewBlock(api, h, p);
      case NewTransaction(tx) => OnNewTx(tx);
      case Finalized(h) => OnFinalized(h);
    }
  }
}
