/** src/solutions/prananda21.ts: the filter-then-notify tracker whose
    `newTransaction` handler only re-queues a transaction that is already
    queued. The queue starts empty, so it stays empty and nothing is ever
    notified; the settle pass is still modelled in full. */
module Prananda21 {
  import opened Types
  import opened Settlement

  class Tracker {
    /** The pending queue (always empty in practice). */
    var pendingTx: seq<Tx>
    /** For each block hash seen, the state each transaction settled with there. */
    var settledTx: map<Hash, map<Tx, Settled>>
    /** Every call to `onTxSettled` / `onTxDone`, in order. */
    var trace: seq<Note>
    /** The block hashes passed to `getBody`, in order. */
    ghost var bodyFetches: seq<Hash>

    /** Nothing is ever queued, notified or stored. */
    ghost predicate Inert()
      reads this
    {
      pendingTx == [] && trace == [] && forall h | h in settledTx :: settledTx[h] == map[]
    }

    constructor ()
      ensures Inert()
      ensures settledTx == map[] && bodyFetches == []
    {
      pendingTx, settledTx, trace, bodyFetches := [], map[], [], [];
    }

    /** `newBlock`: one body fetch, the block's map created if missing, then
        every queued candidate (not in the map, included or invalid) stored
        and notified. */
    method OnNewBlock(api: Api, blockHash: Hash, parent: Hash)
      modifies this
      ensures pendingTx == old(pendingTx) && bodyFetches == old(bodyFetches) + [blockHash]
      ensures var m := BlockMap(old(settledTx), blockHash);
              var r := SettleAll(api, blockHash, api.getBody(blockHash),
                                 Candidates(api, blockHash, api.getBody(blockHash), pendingTx, m), m);
              settledTx == old(settledTx)[blockHash := r.settled] && trace == old(trace) + r.notes
      ensures old(Inert()) ==> Inert() && blockHash in settledTx
    {
      var block := api.getBody(blockHash);
      bodyFetches := bodyFetches + [blockHash];
      var blockSettlement := BlockMap(settledTx, blockHash);
      settledTx := settledTx[blockHash := blockSettlement];
      var readySettlement := Candidates(api, blockHash, block, pendingTx, blockSettlement);
      SettleReady(api, blockHash, block, readySettlement, blockSettlement);
      ghost var r := SettleAll(api, blockHash, block, readySettlement, blockSettlement);
      assert settledTx == old(settledTx)[blockHash := r.settled];
    }

    /** The `forEach` over the candidates: each state is stored, then notified. */
    method SettleReady(api: Api, blockHash: Hash, body: seq<Tx>, ready: seq<Tx>, m0: map<Tx, Settled>)
      requires blockHash in settledTx && settledTx[blockHash] == m0
      modifies this
      ensures pendingTx == old(pendingTx) && bodyFetches == old(bodyFetches)
      ensures var r := SettleAll(api, blockHash, body, ready, m0);
              settledTx == old(settledTx)[blockHash := r.settled] && trace == old(trace) + r.notes
    {
      var blockSettlement := m0;
      for i := 0 to |ready|
        invariant pendingTx == old(pendingTx) && bodyFetches == old(bodyFetches)
        invariant var r := SettleAll(api, blockHash, body, ready[..i], m0);
                  blockSettlement == r.settled && trace == old(trace) + r.notes
        invariant settledTx == old(settledTx)[blockHash := blockSettlement]
      {
        var tx := ready[i];
        assert ready[..i + 1][..i] == ready[..i];
        var settlement: Settled;
        if tx in body {
          var isValid := api.isTxValid(blockHash, tx);
          if isValid {
            var isSuccess := api.isTxSuccessful(blockHash, tx);
            settlement := Settled.Valid(blockHash, isSuccess);
          } else {
            settlement := Invalid(blockHash);
          }
        } else {
          settlement := Invalid(blockHash);
        }
        blockSettlement := blockSettlement[tx := settlement];
        settledTx := settledTx[blockHash := blockSettlement];
        trace := trace + [SettledN(tx, settlement)];
      }
      assert ready[..|ready|] == ready;
    }

    /** `newTransaction`: push the transaction only when it is already queued. */
    method OnNewTx(transaction: Tx)
      modifies this
      ensures pendingTx == if transaction in old(pendingTx) then old(pendingTx) + [transaction] else old(pendingTx)
      ensures settledTx == old(settledTx) && trace == old(trace) && bodyFetches == old(bodyFetches)
      ensures old(Inert()) ==> Inert()
    {
      if transaction in pendingTx {
        pendingTx := pendingTx + [transaction];
      }
    }

    /** `finalized`: looks the block's map up and returns early when it is
        missing; either way nothing is stored or notified (the method has no
        `modifies` clause). The lookup is returned so that its outcome is
        visible: found exactly when the block has a map, a `Map` object
        being truthy even when empty. */
    method OnFinalized(blockHash: Hash) returns (blockSettlement: Option<map<Tx, Settled>>)
      ensures blockSettlement.Some? <==> blockHash in settledTx
      ensures blockSettlement.Some? ==> blockSettlement.value == settledTx[blockHash]
      ensures Inert() && blockSettlement.Some? ==> blockSettlement.value == map[]
    {
      if blockHash !in settledTx {
        return None;
      }
      blockSettlement := Some(settledTx[blockHash]);
    }

    /** The dispatcher: the tracker stays inert whatever the events, and a
        `finalized` event changes nothing at all. */
    method Dispatch(api: Api, e: Event)
      modifies this
      ensures old(Inert()) ==> Inert()
      ensures e.Finalized? ==> unchanged(this)
      ensures e.NewBlock? ==> e.blockHash in settledTx && bodyFetches == old(bodyFetches) + [e.blockHash]
    {
      match e
      case NewBlock(h, p) => OnNewBlock(api, h, p);
      case NewTransaction(tx) => OnNewTx(tx);
      case Finalized(h) => var _ := OnFinalized(h);
    }
  }
}
