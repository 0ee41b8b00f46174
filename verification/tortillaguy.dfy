/** src/solutions/TortillaGuy.ts: a record of blocks by hash with child
    lists, a pending list that only grows, and a new-block handler that
    settles every pending transaction at every block: valid if the body
    lists it, invalid otherwise. Finalization does nothing. */
module Tortillaguy {
  import opened Types

  datatype Status = Pending | Finalized

  /** A `chain` entry. */
  datatype Record = Record(parent: Hash, children: seq<Hash>, body: seq<Tx>, status: Status)

  /** The settled note of one pending transaction at a block. */
  function SettleOne(api: Api, h: Hash, body: seq<Tx>, tx: Tx): (n: Note)
    ensures n.SettledN? && n.tx == tx && n.s.blockHash == h && !n.s.Untyped?
    ensures n.s.Valid? <==> tx in body
    ensures n.s.Valid? ==> n.s.successful == api.isTxSuccessful(h, tx)
  {
    if tx in body then SettledN(tx, Valid(h, api.isTxSuccessful(h, tx))) else SettledN(tx, Invalid(h))
  }

  /** `pendingTxs.forEach(...)` at a block. */
  function SettlePending(api: Api, h: Hash, body: seq<Tx>, pending: seq<Tx>): (notes: seq<Note>)
    decreases |pending|
  {
    if pending == [] then []
    else SettlePending(api, h, body, pending[..|pending| - 1]) + [SettleOne(api, h, body, pending[|pending| - 1])]
  }

  /** Every pending entry gets exactly one settled note per block, in
      pending order: valid with its success flag when the body lists it,
      invalid otherwise; so a transaction is settled at each block as often
      as it was announced. */
  lemma {:induction false} SettlePendingSpec(api: Api, h: Hash, body: seq<Tx>, pending: seq<Tx>, tx: Tx)
    ensures |SettlePending(api, h, body, pending)| == |pending|
    ensures forall k | 0 <= k < |pending| :: SettlePending(api, h, body, pending)[k] == SettleOne(api, h, body, pending[k])
    ensures Mentions(SettlePending(api, h, body, pending), tx) == multiset(pending)[tx]
    decreases |pending|
  {
    if pending != [] {
      var p' := pending[..|pending| - 1];
      assert pending == p' + [pending[|pending| - 1]];
      SettlePendingSpec(api, h, body, p', tx);
      assert SettlePending(api, h, body, pending)[..|p'|] == SettlePending(api, h, body, p');
    }
  }

  /** The chain after storing a block and linking it under a truthy parent,
      which must then be recorded (the block itself included). */
  function Stored(chain: map<Hash, Record>, h: Hash, parent: Hash, body: seq<Tx>): (r: map<Hash, Record>)
    requires parent != "" ==> parent in chain || parent == h
    ensures r.Keys == chain.Keys + {h}
    ensures parent != "" ==> r[parent].children == (if parent == h then [] else chain[parent].children) + [h]
    ensures forall k | k in chain && k != h && k != parent :: r[k] == chain[k]
  {
    var added := chain[h := Record(parent, [], body, Pending)];
    if parent != "" then added[parent := added[parent].(children := added[parent].children + [h])] else added
  }

  class Tracker {
    const api: Api
    var chain: map<Hash, Record>
    var pendingTxs: seq<Tx>
    /** Every call to `onTxSettled`, in order. */
    var trace: seq<Note>

    constructor (api: Api)
      ensures this.api == api && chain == map[] && pendingTxs == [] && trace == []
    {
      this.api := api;
      chain, pendingTxs, trace := map[], [], [];
    }

    /** `onNewBlock`: store the block, link it under a truthy parent, then
        settle every pending transaction. An unrecorded truthy parent throws
        in the source, so it is excluded here. */
    method OnNewBlock(blockHash: Hash, parent: Hash)
      requires parent != "" ==> parent in chain || parent == blockHash
      modifies this`chain, this`trace
      ensures chain == Stored(old(chain), blockHash, parent, api.getBody(blockHash))
      ensures trace == old(trace) + SettlePending(api, blockHash, api.getBody(blockHash), pendingTxs)
      ensures NotesFor(NewBlock(blockHash, parent), trace[|old(trace)|..])
    {
      var body := api.getBody(blockHash);
      chain := chain[blockHash := Record(parent, [], body, Pending)];
      if parent != "" {
        chain := chain[parent := chain[parent].(children := chain[parent].children + [blockHash])];
      }
      SettleAll(blockHash, body);
    }

    /** The `pendingTxs.forEach` of `onNewBlock`. */
    method SettleAll(blockHash: Hash, body: seq<Tx>)
      modifies this`trace
      ensures trace == old(trace) + SettlePending(api, blockHash, body, pendingTxs)
      ensures forall n | n in trace[|old(trace)|..] :: n.SettledN?
    {
      for k := 0 to |pendingTxs|
        invariant trace == old(trace) + SettlePending(api, blockHash, body, pendingTxs[..k])
      {
        var tx := pendingTxs[k];
        assert pendingTxs[..k + 1] == pendingTxs[..k] + [tx];
        assert pendingTxs[..k + 1][..k] == pendingTxs[..k];
        if tx in body {
          trace := trace + [SettledN(tx, Valid(blockHash, api.isTxSuccessful(blockHash, tx)))];
        } else {
          trace := trace + [SettledN(tx, Invalid(blockHash))];
        }
      }
      assert pendingTxs[..|pendingTxs|] == pendingTxs;
      SettlePendingSpec(api, blockHash, body, pendingTxs, "");
      assert trace[|old(trace)|..] == SettlePending(api, blockHash, body, pendingTxs);
    }

    /** `onNewTx`: append, duplicates included; nothing ever removes. */
    method OnNewTx(transaction: Tx)
      modifies this`pendingTxs
      ensures pendingTxs == old(pendingTxs) + [transaction]
    {
      pendingTxs := pendingTxs + [transaction];
    }

    /** `onFinalized` has an empty body. */
    method OnFinalized(blockHash: Hash)
      ensures trace == old(trace) && chain == old(chain) && pendingTxs == old(pendingTxs)
    {
    }

    /** The event switch of the tracker. */
    method Dispatch(e: Event)
      requires e.NewBlock? && e.parent != "" ==> e.parent in chain || e.parent == e.blockHash
      modifies this
      ensures old(trace) <= trace && NotesFor(e, trace[|old(trace)|..])
      ensures old(pendingTxs) <= pendingTxs
    {
      match e
      case NewBlock(h, p) => OnNewBlock(h, p);
      case NewTransaction(tx) => OnNewTx(tx);
      case Finalized(h) => OnFinalized(h);
    }
  }
}
