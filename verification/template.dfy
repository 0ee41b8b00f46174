/** src/solutions/template.ts: a de-duplicated arrival queue, one settlement
    map per block hash and a done set. */
module Template {
  import opened Types
  import opened Settlement

  class Tracker {
    /** Transactions in order of first arrival. */
    var txQueue: seq<Tx>
    /** For each block hash seen, the state each transaction settled with there. */
    var settledByBlock: map<Hash, map<Tx, Settled>>
    /** Transactions that have been reported done. */
    var doneTx: set<Tx>
    /** Every call to `onTxSettled` / `onTxDone`, in order. */
    var trace: seq<Note>
    /** The block hashes passed to `getBody`, in order. */
    ghost var bodyFetches: seq<Hash>

    ghost predicate Valid()
      reads this
    {
      NoDuplicates(txQueue) && Ledger(settledByBlock, doneTx, trace)
    }

    constructor ()
      ensures Valid()
      ensures txQueue == [] && settledByBlock == map[] && doneTx == {} && trace == [] && bodyFetches == []
    {
      txQueue, settledByBlock, doneTx, trace, bodyFetches := [], map[], {}, [], [];
    }

    /** `newBlock`: fetch the body once and settle the queue against the block's
        map, in queue order. */
    method OnNewBlock(api: Api, blockHash: Hash, parent: Hash)
      requires Valid()
      modifies this
      ensures Valid()
      ensures txQueue == old(txQueue) && doneTx == old(doneTx)
      ensures bodyFetches == old(bodyFetches) + [blockHash]
      ensures var r := ScanBlock(api, blockHash, api.getBody(blockHash), txQueue, BlockMap(old(settledByBlock), blockHash));
              settledByBlock == old(settledByBlock)[blockHash := r.settled] && trace == old(trace) + r.notes
      ensures NotesFor(NewBlock(blockHash, parent), trace[|old(trace)|..])
    {
      var body := api.getBody(blockHash);
      bodyFetches := bodyFetches + [blockHash];
      var byBlock := BlockMap(settledByBlock, blockHash);
      settledByBlock := settledByBlock[blockHash := byBlock];
      SettleQueue(api, blockHash, body, byBlock);
      ghost var r := ScanBlock(api, blockHash, body, txQueue, byBlock);
      SettlePassKeepsLedger(api, blockHash, body, txQueue, old(settledByBlock), doneTx, old(trace));
      StoreTwice(old(settledByBlock), blockHash, byBlock, r.settled);
      assert trace[|old(trace)|..] == r.notes;
    }

    /** The loop of `newBlock` over the queue, storing each settled state in
        the block's map and notifying it. */
    method SettleQueue(api: Api, blockHash: Hash, body: seq<Tx>, m0: map<Tx, Settled>)
      requires blockHash in settledByBlock && settledByBlock[blockHash] == m0
      modifies this
      ensures txQueue == old(txQueue) && doneTx == old(doneTx) && bodyFetches == old(bodyFetches)
      ensures var r := ScanBlock(api, blockHash, body, txQueue, m0);
              settledByBlock == old(settledByBlock)[blockHash := r.settled] && trace == old(trace) + r.notes
    {
      var byBlock := m0;
      var q := txQueue;
      ghost var t0 := trace;
      for i := 0 to |q|
        invariant txQueue == q && doneTx == old(doneTx) && bodyFetches == old(bodyFetches)
        invariant ScanState(api, blockHash, body, q, i, m0, t0, byBlock, trace)
        invariant settledByBlock == old(settledByBlock)[blockHash := byBlock]
      {
        var tx := q[i];
        ScanAdvance(api, blockHash, body, q, i, m0, t0, byBlock, trace);
        if tx !in byBlock {
          var state: Option<Settled> := None;
          if tx in body {
            var valid := api.isTxValid(blockHash, tx);
            if valid {
              var successful := api.isTxSuccessful(blockHash, tx);
              state := Some(Settled.Valid(blockHash, successful));
            } else {
              state := Some(Invalid(blockHash));
            }
          } else {
            var valid := api.isTxValid(blockHash, tx);
            if !valid {
              state := Some(Invalid(blockHash));
            }
          }
          assert state == Decide(api, blockHash, body, tx);
          if state.Some? {
            StoreTwice(old(settledByBlock), blockHash, byBlock, byBlock[tx := state.value]);
            byBlock := byBlock[tx := state.value];
            settledByBlock := settledByBlock[blockHash := byBlock];
            trace := trace + [SettledN(tx, state.value)];
          }
        }
      }
      assert q[..|q|] == q;
    }

    /** `newTransaction`: queue the transaction unless it is already queued. */
    method OnNewTx(tx: Tx)
      requires Valid()
      modifies this
      ensures Valid()
      ensures txQueue == if tx in old(txQueue) then old(txQueue) else old(txQueue) + [tx]
      ensures settledByBlock == old(settledByBlock) && doneTx == old(doneTx) && trace == old(trace)
      ensures bodyFetches == old(bodyFetches)
    {
      if tx !in txQueue {
        txQueue := txQueue + [tx];
      }
    }

    /** `finalized`: report done, with the stored state and in queue order,
        every transaction settled at exactly this block and not yet done. */
    method OnFinalized(blockHash: Hash)
      requires Valid()
      modifies this
      ensures Valid()
      ensures txQueue == old(txQueue) && settledByBlock == old(settledByBlock) && bodyFetches == old(bodyFetches)
      ensures blockHash !in settledByBlock ==> doneTx == old(doneTx) && trace == old(trace)
      ensures blockHash in settledByBlock ==>
                var r := DoneScan(txQueue, settledByBlock[blockHash], old(doneTx));
                doneTx == r.done && trace == old(trace) + r.notes
      ensures old(trace) <= trace && NotesFor(Finalized(blockHash), trace[|old(trace)|..])
    {
      if blockHash !in settledByBlock {
        return;
      }
      var byBlock := settledByBlock[blockHash];
      ghost var d0, t0 := doneTx, trace;
      var q := txQueue;
      for i := 0 to |q|
        invariant txQueue == q && settledByBlock == old(settledByBlock) && bodyFetches == old(bodyFetches)
        invariant DoneState(q, i, byBlock, d0, t0, doneTx, trace)
      {
        var tx := q[i];
        DoneAdvance(q, i, byBlock, d0, t0, doneTx, trace);
        if tx in byBlock && tx !in doneTx {
          doneTx := doneTx + {tx};
          trace := trace + [DoneN(tx, byBlock[tx])];
        }
      }
      DoneFinish(q, settledByBlock, blockHash, d0, t0, doneTx, trace);
    }

    /** The dispatcher: one handler per event kind. Settled notifications
        come only from `newBlock`, done notifications only from `finalized`,
        and the queue never shrinks. */
    method Dispatch(api: Api, e: Event)
      requires Valid()
      modifies this
      ensures Valid()
      ensures old(txQueue) <= txQueue && old(trace) <= trace
      ensures NotesFor(e, trace[|old(trace)|..])
    {
      match e
      case NewBlock(h, p) => OnNewBlock(api, h, p);
      case NewTransaction(tx) => OnNewTx(tx);
      case Finalized(h) => OnFinalized(h);
    }
  }
}
