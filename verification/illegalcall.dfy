/** src/solutions/illegalcall.ts: a duplicate-free queue, a parent map, the
    block each transaction last settled at, and caches for block bodies and
    for the validity and success of each (block, transaction) pair.
    Finalizing walks the recorded parents and reports done, and dequeues,
    every queued transaction that some walked block with a cached body
    includes or invalidates. */
module Illegalcall {
  import opened Types
  import opened Settlement
  import opened Ancestry

  // ---------------------------------------------------------------------------
  // Caches and the call log

  /** Every cached answer is the client's answer, every logged call filled
      its cache entry, and no call was made twice: validity and success are
      asked at most once per (block, transaction) pair and a body at most
      once per block. */
  ghost predicate CacheInv(api: Api, validity: map<(Hash, Tx), bool>, success: map<(Hash, Tx), bool>,
                           bodies: map<Hash, seq<Tx>>, calls: seq<Call>)
  {
    && (forall k | k in validity :: validity[k] == api.isTxValid(k.0, k.1))
    && (forall k | k in success :: success[k] == api.isTxSuccessful(k.0, k.1))
    && (forall h | h in bodies :: bodies[h] == api.getBody(h))
    && (forall c | c in calls ::
          && (c.GetBody? ==> c.h in bodies)
          && (c.IsTxValid? ==> (c.h, c.tx) in validity)
          && (c.IsTxSuccessful? ==> (c.h, c.tx) in success))
    && NoDuplicates(calls)
  }

  // ---------------------------------------------------------------------------
  // Settling at a new block

  /** The notifications of the `newBlock` loop and the settled-at map after
      it. */
  datatype Round = Round(notes: seq<Note>, settledAt: map<Tx, Hash>)

  /** The loop of `newBlock` over the queue: invalid transactions settle
      invalid, valid included ones settle valid with the success flag, and
      each settled transaction's block is overwritten with this one. */
  function SettleRound(api: Api, h: Hash, body: seq<Tx>, q: seq<Tx>, settledAt: map<Tx, Hash>): (r: Round)
    decreases |q|
  {
    if q == [] then Round([], settledAt)
    else
      var prev := SettleRound(api, h, body, q[..|q| - 1], settledAt);
      var tx := q[|q| - 1];
      var d := Decide(api, h, body, tx);
      if d.Some? then Round(prev.notes + [SettledN(tx, d.value)], prev.settledAt[tx := h])
      else prev
  }

  /** One settled notification per queued transaction that is invalid at
      the block or valid and included, with `Decide`'s state, in queue order. */
  lemma {:induction false} SettleRoundNotes(api: Api, h: Hash, body: seq<Tx>, q: seq<Tx>, settledAt: map<Tx, Hash>)
    requires NoDuplicates(q)
    ensures var r := SettleRound(api, h, body, q, settledAt);
            && InArrivalOrder(r.notes, q)
            && (forall n | n in r.notes :: n.SettledN? && Decide(api, h, body, n.tx) == Some(n.s))
            && (forall tx | tx in q && Decide(api, h, body, tx).Some? :: exists n | n in r.notes :: n.tx == tx)
    decreases |q|
  {
    if q != [] {
      var q' := q[..|q| - 1];
      var tx := q[|q| - 1];
      assert q == q' + [tx];
      NoDuplicatesPrefix(q);
      SettleRoundNotes(api, h, body, q', settledAt);
      var prev := SettleRound(api, h, body, q', settledAt);
      ArrivalOrderWiden(prev.notes, q);
      var d := Decide(api, h, body, tx);
      if d.Some? {
        ArrivalOrderExtend(prev.notes, q, SettledN(tx, d.value));
      }
    }
  }

  /** The queued transactions that settle, and only those, now map to this
      block; every other entry keeps its block. */
  lemma {:induction false} SettleRoundMap(api: Api, h: Hash, body: seq<Tx>, q: seq<Tx>, settledAt: map<Tx, Hash>)
    ensures var r := SettleRound(api, h, body, q, settledAt);
            && r.settledAt.Keys == settledAt.Keys + (set tx | tx in q && Decide(api, h, body, tx).Some?)
            && (forall tx | tx in r.settledAt ::
                  r.settledAt[tx] == if tx in q && Decide(api, h, body, tx).Some? then h else settledAt[tx])
    decreases |q|
  {
    if q != [] {
      var q' := q[..|q| - 1];
      var tx := q[|q| - 1];
      assert q == q' + [tx];
      SettleRoundMap(api, h, body, q', settledAt);
    }
  }

  /** Both halves together: the notes and the settled-at map of one round. */
  lemma SettleRoundSpec(api: Api, h: Hash, body: seq<Tx>, q: seq<Tx>, settledAt: map<Tx, Hash>)
    requires NoDuplicates(q)
    ensures var r := SettleRound(api, h, body, q, settledAt);
            && InArrivalOrder(r.notes, q)
            && (forall n | n in r.notes :: n.SettledN? && Decide(api, h, body, n.tx) == Some(n.s))
            && (forall tx | tx in q && Decide(api, h, body, tx).Some? :: exists n | n in r.notes :: n.tx == tx)
            && r.settledAt.Keys == settledAt.Keys + (set tx | tx in q && Decide(api, h, body, tx).Some?)
            && (forall tx | tx in r.settledAt ::
                  r.settledAt[tx] == if tx in q && Decide(api, h, body, tx).Some? then h else settledAt[tx])
  {
    SettleRoundNotes(api, h, body, q, settledAt);
    SettleRoundMap(api, h, body, q, settledAt);
  }

  /** One more queued transaction extends the round by its own decision. */
  lemma SettleRoundSnoc(api: Api, h: Hash, body: seq<Tx>, q: seq<Tx>, i: nat, settledAt: map<Tx, Hash>)
    requires i < |q|
    ensures var prev := SettleRound(api, h, body, q[..i], settledAt);
            var d := Decide(api, h, body, q[i]);
            SettleRound(api, h, body, q[..i + 1], settledAt)
            == if d.Some? then Round(prev.notes + [SettledN(q[i], d.value)], prev.settledAt[q[i] := h]) else prev
  {
    assert q[..i + 1][..i] == q[..i];
  }

  /** The validity keys one more pass of the loop adds. */
  lemma PairsStep(h: Hash, q: seq<Tx>, i: nat)
    requires i < |q|
    ensures (set tx | tx in q[..i + 1] :: (h, tx)) == (set tx | tx in q[..i] :: (h, tx)) + {(h, q[i])}
  {
    assert q[..i + 1] == q[..i] + [q[i]];
  }

  /** The state after the `newBlock` loop has handled `q[..i]`, on values. */
  ghost predicate SettlingState(api: Api, blockHash: Hash, body: seq<Tx>, q: seq<Tx>, i: nat, m0: map<Tx, Hash>,
                                b0: map<Hash, seq<Tx>>, v0: set<(Hash, Tx)>, t0: seq<Note>,
                                trace: seq<Note>, mapping: map<Tx, Hash>, bodies: map<Hash, seq<Tx>>,
                                keys: set<(Hash, Tx)>)
    requires i <= |q|
  {
    && (var r := SettleRound(api, blockHash, body, q[..i], m0);
        trace == t0 + r.notes && mapping == r.settledAt)
    && bodies == (if i == 0 then b0 else b0[blockHash := body])
    && keys == v0 + (set tx | tx in q[..i] :: (blockHash, tx))
    && (forall n | n in trace[|t0|..] :: n.SettledN?)
  }

  /** One pass of the loop takes the loop state from `q[..i]` to `q[..i + 1]`. */
  lemma SettlingAdvance(api: Api, blockHash: Hash, body: seq<Tx>, q: seq<Tx>, i: nat, m0: map<Tx, Hash>,
                        b0: map<Hash, seq<Tx>>, v0: set<(Hash, Tx)>, t0: seq<Note>,
                        trace1: seq<Note>, mapping1: map<Tx, Hash>, bodies1: map<Hash, seq<Tx>>, keys1: set<(Hash, Tx)>,
                        trace2: seq<Note>, mapping2: map<Tx, Hash>, bodies2: map<Hash, seq<Tx>>, keys2: set<(Hash, Tx)>)
    requires i < |q|
    requires SettlingState(api, blockHash, body, q, i, m0, b0, v0, t0, trace1, mapping1, bodies1, keys1)
    requires bodies2 == bodies1[blockHash := body] && keys2 == keys1 + {(blockHash, q[i])}
    requires var d := Decide(api, blockHash, body, q[i]);
             && trace2 == trace1 + (if d.Some? then [SettledN(q[i], d.value)] else [])
             && mapping2 == if d.Some? then mapping1[q[i] := blockHash] else mapping1
    ensures SettlingState(api, blockHash, body, q, i + 1, m0, b0, v0, t0, trace2, mapping2, bodies2, keys2)
  {
    SettleRoundSnoc(api, blockHash, body, q, i, m0);
    PairsStep(blockHash, q, i);
    assert trace2[|t0|..] == trace1[|t0|..] + trace2[|trace1|..];
  }

  // ---------------------------------------------------------------------------
  // Finalizing

  /** The blocks `finalized` collects: from the block, each hash whose
      recorded parent is truthy, moving to that parent; the first hash with
      no truthy recorded parent ends the walk and is not collected. */
  function FinalizePath(p: map<Hash, Hash>, h: Hash): (path: seq<Hash>)
    requires Acyclic(p)
    decreases Height(p, h)
  {
    if h in p && p[h] != "" then
      HeightDecreases(p, h);
      [h] + FinalizePath(p, p[h])
    else []
  }

  /** For a truthy block, the collected walk is the block's lineage without
      its last, root-most, element. */
  lemma {:induction false} FinalizePathIsLineage(p: map<Hash, Hash>, h: Hash)
    requires Acyclic(p) && h != ""
    ensures var l := Lineage(p, h);
            l != [] && FinalizePath(p, h) == l[..|l| - 1]
    decreases Height(p, h)
  {
    if h in p && p[h] != "" {
      HeightDecreases(p, h);
      FinalizePathIsLineage(p, p[h]);
      var l := Lineage(p, p[h]);
      assert Lineage(p, h) == [h] + l;
      assert ([h] + l)[..|[h] + l| - 1] == [h] + l[..|l| - 1];
    }
  }

  /** The `some` test of `finalized`: a walked block with a cached body that
      includes the transaction or in which it is invalid. */
  function ShouldFinalize(api: Api, bodies: map<Hash, seq<Tx>>, path: seq<Hash>, tx: Tx): (b: bool)
  {
    if path == [] then false
    else
      var bh := path[0];
      if bh in bodies && (tx in bodies[bh] || !api.isTxValid(bh, tx)) then true
      else ShouldFinalize(api, bodies, path[1..], tx)
  }

  lemma {:induction false} ShouldFinalizeSpec(api: Api, bodies: map<Hash, seq<Tx>>, path: seq<Hash>, tx: Tx)
    ensures ShouldFinalize(api, bodies, path, tx) <==>
            exists bh | bh in path :: bh in bodies && (tx in bodies[bh] || !api.isTxValid(bh, tx))
    decreases |path|
  {
    if path != [] {
      ShouldFinalizeSpec(api, bodies, path[1..], tx);
      assert path == [path[0]] + path[1..];
    }
  }

  /** The block a transaction is reported done at: its recorded settling
      block, or the empty hash (JavaScript's `undefined`) if it never
      settled. */
  function SettledBlock(settledAt: map<Tx, Hash>, tx: Tx): Hash
  {
    if tx in settledAt then settledAt[tx] else ""
  }

  /** The done notifications of `finalized` and the queue entries it keeps. */
  datatype Sweep = Sweep(notes: seq<Note>, kept: seq<Tx>)

  function DoneRound(api: Api, bodies: map<Hash, seq<Tx>>, settledAt: map<Tx, Hash>, path: seq<Hash>, q: seq<Tx>): (r: Sweep)
    decreases |q|
  {
    if q == [] then Sweep([], [])
    else
      var prev := DoneRound(api, bodies, settledAt, path, q[..|q| - 1]);
      var tx := q[|q| - 1];
      if ShouldFinalize(api, bodies, path, tx) then
        Sweep(prev.notes + [DoneN(tx, Judge(api, SettledBlock(settledAt, tx), tx))], prev.kept)
      else Sweep(prev.notes, prev.kept + [tx])
  }

  /** Every queued transaction that a walked block includes or invalidates
      is reported done once, in queue order, against the block it last
      settled at and with the state judged there; exactly the others stay
      queued, in order. */
  lemma {:induction false} DoneRoundSpec(api: Api, bodies: map<Hash, seq<Tx>>, settledAt: map<Tx, Hash>, path: seq<Hash>, q: seq<Tx>)
    requires NoDuplicates(q)
    ensures var r := DoneRound(api, bodies, settledAt, path, q);
            && InArrivalOrder(r.notes, q)
            && (forall n | n in r.notes ::
                  n.DoneN? && ShouldFinalize(api, bodies, path, n.tx)
                  && n.s == Judge(api, SettledBlock(settledAt, n.tx), n.tx))
            && (forall tx | tx in q && ShouldFinalize(api, bodies, path, tx) :: exists n | n in r.notes :: n.tx == tx)
            && (forall tx :: tx in r.kept <==> tx in q && !ShouldFinalize(api, bodies, path, tx))
            && NoDuplicates(r.kept)
    decreases |q|
  {
    if q != [] {
      var q' := q[..|q| - 1];
      var tx := q[|q| - 1];
      assert q == q' + [tx];
      NoDuplicatesPrefix(q);
      DoneRoundSpec(api, bodies, settledAt, path, q');
      var prev := DoneRound(api, bodies, settledAt, path, q');
      ArrivalOrderWiden(prev.notes, q);
      if ShouldFinalize(api, bodies, path, tx) {
        ArrivalOrderExtend(prev.notes, q, DoneN(tx, Judge(api, SettledBlock(settledAt, tx), tx)));
      } else {
        NoDuplicatesAppend(prev.kept, tx);
      }
    }
  }

  // ---------------------------------------------------------------------------
  // The tracker

  class Tracker {
    const api: Api
    /** Transactions in order of first arrival; finalizing removes them. */
    var txnQueue: seq<Tx>
    /** The parent recorded for each announced block. */
    var blockToParentMapping: map<Hash, Hash>
    /** The block each transaction last settled at. */
    var txnToBlockMapping: map<Tx, Hash>
    /** Cached block bodies. */
    var blockHashToBody: map<Hash, seq<Tx>>
    /** Cached `isTxValid` / `isTxSuccessful` answers per (block, transaction). */
    var txnValidityCache: map<(Hash, Tx), bool>
    var txnSuccessCache: map<(Hash, Tx), bool>
    /** Every call to `onTxSettled` / `onTxDone`, in order. */
    var trace: seq<Note>
    /** Every call to the read side of the client, in order. */
    ghost var calls: seq<Call>

    ghost predicate Valid()
      reads this
    {
      NoDuplicates(txnQueue) && CacheInv(api, txnValidityCache, txnSuccessCache, blockHashToBody, calls)
    }

    constructor (api: Api)
      ensures Valid() && this.api == api
      ensures txnQueue == [] && blockToParentMapping == map[] && txnToBlockMapping == map[]
      ensures blockHashToBody == map[] && txnValidityCache == map[] && txnSuccessCache == map[]
      ensures trace == [] && calls == []
    {
      this.api := api;
      txnQueue, blockToParentMapping, txnToBlockMapping := [], map[], map[];
      blockHashToBody, txnValidityCache, txnSuccessCache := map[], map[], map[];
      trace, calls := [], [];
    }

    /** The cached `isTxValid` lookup: asks the client only on a miss. */
    method CheckValid(h: Hash, tx: Tx) returns (valid: bool)
      requires Valid()
      modifies this`txnValidityCache, this`calls
      ensures Valid()
      ensures valid == api.isTxValid(h, tx)
      ensures txnValidityCache == old(txnValidityCache)[(h, tx) := valid]
      ensures calls == old(calls) + if (h, tx) in old(txnValidityCache) then [] else [IsTxValid(h, tx)]
    {
      if (h, tx) in txnValidityCache {
        valid := txnValidityCache[(h, tx)];
      } else {
        valid := api.isTxValid(h, tx);
        NoDuplicatesAppend(calls, IsTxValid(h, tx));
        calls := calls + [IsTxValid(h, tx)];
        txnValidityCache := txnValidityCache[(h, tx) := valid];
      }
    }

    /** The cached `isTxSuccessful` lookup. */
    method CheckSuccess(h: Hash, tx: Tx) returns (successful: bool)
      requires Valid()
      modifies this`txnSuccessCache, this`calls
      ensures Valid()
      ensures successful == api.isTxSuccessful(h, tx)
      ensures txnSuccessCache == old(txnSuccessCache)[(h, tx) := successful]
      ensures calls == old(calls) + if (h, tx) in old(txnSuccessCache) then [] else [IsTxSuccessful(h, tx)]
    {
      if (h, tx) in txnSuccessCache {
        successful := txnSuccessCache[(h, tx)];
      } else {
        successful := api.isTxSuccessful(h, tx);
        NoDuplicatesAppend(calls, IsTxSuccessful(h, tx));
        calls := calls + [IsTxSuccessful(h, tx)];
        txnSuccessCache := txnSuccessCache[(h, tx) := successful];
      }
    }

    /** The cached `getBody` lookup. */
    method FetchBody(h: Hash) returns (body: seq<Tx>)
      requires Valid()
      modifies this`blockHashToBody, this`calls
      ensures Valid()
      ensures body == api.getBody(h)
      ensures blockHashToBody == old(blockHashToBody)[h := body]
      ensures calls == old(calls) + if h in old(blockHashToBody) then [] else [GetBody(h)]
    {
      if h in blockHashToBody {
        body := blockHashToBody[h];
      } else {
        body := api.getBody(h);
        NoDuplicatesAppend(calls, GetBody(h));
        calls := calls + [GetBody(h)];
        blockHashToBody := blockHashToBody[h := body];
      }
    }

    /** `newBlock`: record the parent, then for each queued transaction look
        up its validity and the body, settle it invalid if invalid, valid if
        included, and remember the block it settled at. The body is fetched
        only when the queue is not empty. */
    method OnNewBlock(blockHash: Hash, parent: Hash)
      requires Valid()
      modifies this
      ensures Valid()
      ensures txnQueue == old(txnQueue)
      ensures blockToParentMapping == old(blockToParentMapping)[blockHash := parent]
      ensures var r := SettleRound(api, blockHash, api.getBody(blockHash), txnQueue, old(txnToBlockMapping));
              trace == old(trace) + r.notes && txnToBlockMapping == r.settledAt
      ensures blockHashToBody == if txnQueue == [] then old(blockHashToBody)
                                 else old(blockHashToBody)[blockHash := api.getBody(blockHash)]
      ensures txnValidityCache.Keys == old(txnValidityCache).Keys + (set tx | tx in txnQueue :: (blockHash, tx))
      ensures old(txnSuccessCache).Keys <= txnSuccessCache.Keys
      ensures old(calls) <= calls
      ensures NotesFor(NewBlock(blockHash, parent), trace[|old(trace)|..])
    {
      blockToParentMapping := blockToParentMapping[blockHash := parent];
      var q := txnQueue;
      ghost var body := api.getBody(blockHash);
      for i := 0 to |q|
        invariant Valid() && txnQueue == q
        invariant blockToParentMapping == old(blockToParentMapping)[blockHash := parent]
        invariant Settling(blockHash, body, q, i, old(txnToBlockMapping), old(blockHashToBody),
                           old(txnValidityCache).Keys, old(trace))
        invariant old(txnSuccessCache).Keys <= txnSuccessCache.Keys
        invariant old(calls) <= calls
      {
        SettleNext(blockHash, body, q, i, old(txnToBlockMapping), old(blockHashToBody),
                   old(txnValidityCache).Keys, old(trace));
      }
      assert q[..|q|] == q;
    }

    /** The state after the `newBlock` loop has handled `q[..i]`. */
    ghost predicate Settling(blockHash: Hash, body: seq<Tx>, q: seq<Tx>, i: nat, m0: map<Tx, Hash>,
                             b0: map<Hash, seq<Tx>>, v0: set<(Hash, Tx)>, t0: seq<Note>)
      reads this
      requires i <= |q|
    {
      SettlingState(api, blockHash, body, q, i, m0, b0, v0, t0,
                    trace, txnToBlockMapping, blockHashToBody, txnValidityCache.Keys)
    }

    /** One pass of the `newBlock` loop, for the transaction at `i`. */
    method SettleNext(blockHash: Hash, ghost body: seq<Tx>, q: seq<Tx>, i: nat, ghost m0: map<Tx, Hash>,
                      ghost b0: map<Hash, seq<Tx>>, ghost v0: set<(Hash, Tx)>, ghost t0: seq<Note>)
      requires Valid() && txnQueue == q && i < |q| && body == api.getBody(blockHash)
      requires Settling(blockHash, body, q, i, m0, b0, v0, t0)
      modifies this`txnToBlockMapping, this`blockHashToBody, this`txnValidityCache, this`txnSuccessCache,
               this`trace, this`calls
      ensures Valid()
      ensures Settling(blockHash, body, q, i + 1, m0, b0, v0, t0)
      ensures old(txnSuccessCache).Keys <= txnSuccessCache.Keys
      ensures old(calls) <= calls
    {
      var txn := q[i];
      ghost var trace1, mapping1, bodies1, keys1 := trace, txnToBlockMapping, blockHashToBody, txnValidityCache.Keys;
      SettleOne(blockHash, txn, body);
      SettlingAdvance(api, blockHash, body, q, i, m0, b0, v0, t0, trace1, mapping1, bodies1, keys1,
                      trace, txnToBlockMapping, blockHashToBody, txnValidityCache.Keys);
    }

    /** The body of the `newBlock` loop for one queued transaction. */
    method SettleOne(blockHash: Hash, txn: Tx, ghost body: seq<Tx>)
      requires Valid() && body == api.getBody(blockHash)
      modifies this`txnToBlockMapping, this`blockHashToBody, this`txnValidityCache, this`txnSuccessCache,
               this`trace, this`calls
      ensures Valid()
      ensures blockHashToBody == old(blockHashToBody)[blockHash := body]
      ensures txnValidityCache.Keys == old(txnValidityCache).Keys + {(blockHash, txn)}
      ensures old(txnSuccessCache).Keys <= txnSuccessCache.Keys
      ensures old(calls) <= calls
      ensures var d := Decide(api, blockHash, body, txn);
              && trace == old(trace) + (if d.Some? then [SettledN(txn, d.value)] else [])
              && txnToBlockMapping == if d.Some? then old(txnToBlockMapping)[txn := blockHash] else old(txnToBlockMapping)
    {
      var d := DecideOne(blockHash, txn, body);
      if d.Some? {
        trace := trace + [SettledN(txn, d.value)];
        txnToBlockMapping := txnToBlockMapping[txn := blockHash];
      }
    }

    /** The checks of one pass of the `newBlock` loop: validity first, then
        the body, then success for an included valid transaction. */
    method DecideOne(blockHash: Hash, txn: Tx, ghost body: seq<Tx>) returns (d: Option<Settled>)
      requires Valid() && body == api.getBody(blockHash)
      modifies this`blockHashToBody, this`txnValidityCache, this`txnSuccessCache, this`calls
      ensures Valid()
      ensures d == Decide(api, blockHash, body, txn)
      ensures blockHashToBody == old(blockHashToBody)[blockHash := body]
      ensures txnValidityCache.Keys == old(txnValidityCache).Keys + {(blockHash, txn)}
      ensures old(txnSuccessCache).Keys <= txnSuccessCache.Keys
      ensures old(calls) <= calls
    {
      var valid := CheckValid(blockHash, txn);
      var blockBodyTxns := FetchBody(blockHash);
      if !valid {
        d := Some(Invalid(blockHash));
      } else if txn in blockBodyTxns {
        var successful := CheckSuccess(blockHash, txn);
        d := Some(Settled.Valid(blockHash, successful));
      } else {
        d := None;
      }
    }

    /** `newTransaction`: queue the transaction unless it is already queued. */
    method OnNewTx(transaction: Tx)
      requires Valid()
      modifies this`txnQueue
      ensures Valid()
      ensures txnQueue == if transaction in old(txnQueue) then old(txnQueue) else old(txnQueue) + [transaction]
    {
      if transaction !in txnQueue {
        NoDuplicatesAppend(txnQueue, transaction);
        txnQueue := txnQueue + [transaction];
      }
    }

    /** `finalized`: collect the walk from the block, then, for a snapshot of
        the queue, report done and dequeue each transaction that a collected
        block with a cached body includes or invalidates. The walk only ends
        if the recorded parents are acyclic. */
    method OnFinalized(blockHash: Hash)
      requires Valid() && Acyclic(blockToParentMapping)
      modifies this`txnQueue, this`txnValidityCache, this`txnSuccessCache, this`trace, this`calls
      ensures Valid()
      ensures var r := DoneRound(api, blockHashToBody, txnToBlockMapping,
                                 FinalizePath(blockToParentMapping, blockHash), old(txnQueue));
              trace == old(trace) + r.notes && txnQueue == r.kept
      ensures old(txnValidityCache).Keys <= txnValidityCache.Keys
      ensures old(txnSuccessCache).Keys <= txnSuccessCache.Keys
      ensures old(calls) <= calls
      ensures NotesFor(Finalized(blockHash), trace[|old(trace)|..])
    {
      var blocksToFinalize := CollectPath(blockHash);
      Sweep(blocksToFinalize);
    }

    /** The loop of `finalized` over a snapshot of the queue. */
    method Sweep(blocksToFinalize: seq<Hash>)
      requires Valid()
      modifies this`txnQueue, this`txnValidityCache, this`txnSuccessCache, this`trace, this`calls
      ensures Valid()
      ensures var r := DoneRound(api, blockHashToBody, txnToBlockMapping, blocksToFinalize, old(txnQueue));
              trace == old(trace) + r.notes && txnQueue == r.kept
      ensures old(txnValidityCache).Keys <= txnValidityCache.Keys
      ensures old(txnSuccessCache).Keys <= txnSuccessCache.Keys
      ensures old(calls) <= calls
      ensures forall n | n in trace[|old(trace)|..] :: n.DoneN?
    {
      var txnToProcess := txnQueue;
      for i := 0 to |txnToProcess|
        invariant Valid()
        invariant Sweeping(blocksToFinalize, txnToProcess, i, old(trace))
        invariant old(txnValidityCache).Keys <= txnValidityCache.Keys
        invariant old(txnSuccessCache).Keys <= txnSuccessCache.Keys
        invariant old(calls) <= calls
      {
        FinalizeNext(blocksToFinalize, txnToProcess, i, old(trace));
      }
      assert txnToProcess[..|txnToProcess|] == txnToProcess;
    }

    /** The state after the loop of `finalized` has handled `snapshot[..i]`. */
    ghost predicate Sweeping(path: seq<Hash>, snapshot: seq<Tx>, i: nat, t0: seq<Note>)
      reads this
      requires i <= |snapshot|
    {
      && (var r := DoneRound(api, blockHashToBody, txnToBlockMapping, path, snapshot[..i]);
          trace == t0 + r.notes && txnQueue == r.kept + snapshot[i..])
      && (forall n | n in trace[|t0|..] :: n.DoneN?)
    }

    /** The `while (parentBlockHash)` walk of `finalized`. */
    method CollectPath(blockHash: Hash) returns (blocksToFinalize: seq<Hash>)
      requires Acyclic(blockToParentMapping)
      ensures blocksToFinalize == FinalizePath(blockToParentMapping, blockHash)
    {
      var p := blockToParentMapping;
      blocksToFinalize := [];
      var currentBlockHash := blockHash;
      var parentBlockHash := if blockHash in p then p[blockHash] else "";
      while parentBlockHash != ""
        invariant parentBlockHash == if currentBlockHash in p then p[currentBlockHash] else ""
        invariant blocksToFinalize + FinalizePath(p, currentBlockHash) == FinalizePath(p, blockHash)
        decreases Height(p, currentBlockHash)
      {
        HeightDecreases(p, currentBlockHash);
        assert FinalizePath(p, currentBlockHash) == [currentBlockHash] + FinalizePath(p, parentBlockHash);
        blocksToFinalize := blocksToFinalize + [currentBlockHash];
        currentBlockHash := parentBlockHash;
        parentBlockHash := if currentBlockHash in p then p[currentBlockHash] else "";
      }
    }

    /** One pass of the loop of `finalized`, for the snapshot entry at `i`. */
    method FinalizeNext(path: seq<Hash>, snapshot: seq<Tx>, i: nat, ghost t0: seq<Note>)
      requires Valid() && i < |snapshot| && Sweeping(path, snapshot, i, t0)
      modifies this`txnQueue, this`txnValidityCache, this`txnSuccessCache, this`trace, this`calls
      ensures Valid() && Sweeping(path, snapshot, i + 1, t0)
      ensures old(txnValidityCache).Keys <= txnValidityCache.Keys
      ensures old(txnSuccessCache).Keys <= txnSuccessCache.Keys
      ensures old(calls) <= calls
    {
      var txn := snapshot[i];
      ghost var prev := DoneRound(api, blockHashToBody, txnToBlockMapping, path, snapshot[..i]);
      ghost var trace1 := trace;
      assert snapshot[..i + 1][..i] == snapshot[..i];
      assert snapshot[..i + 1] == snapshot[..i] + [txn];
      assert snapshot[i..] == [txn] + snapshot[i + 1..];
      assert txnQueue == prev.kept + [txn] + snapshot[i + 1..];
      NoDuplicatesBefore(txnQueue, |prev.kept|);
      assert txnQueue[..|prev.kept|] == prev.kept;
      var shouldFinalize := ShouldFinalizeCached(path, txn);
      if shouldFinalize {
        ReportAndDrop(txn, prev.kept, snapshot[i + 1..]);
      }
      assert trace[|t0|..] == trace1[|t0|..] + trace[|trace1|..];
    }

    /** A transaction to finalize: report it done, then splice it out of the
        queue. */
    method ReportAndDrop(txn: Tx, ghost kept: seq<Tx>, ghost rest: seq<Tx>)
      requires Valid() && txnQueue == kept + [txn] + rest && txn !in kept
      modifies this`txnQueue, this`txnValidityCache, this`txnSuccessCache, this`trace, this`calls
      ensures Valid() && txnQueue == kept + rest
      ensures trace == old(trace) + [DoneN(txn, Judge(api, SettledBlock(txnToBlockMapping, txn), txn))]
      ensures old(txnValidityCache).Keys <= txnValidityCache.Keys
      ensures old(txnSuccessCache).Keys <= txnSuccessCache.Keys
      ensures old(calls) <= calls
    {
      ReportDone(txn);
      RemoveFirstAfter(kept, txn, rest);
      NoDuplicatesDrop(kept, txn, rest);
      txnQueue := RemoveFirst(txnQueue, txn);
    }

    /** The `blocksToFinalize.some(...)` test, which looks up validity at each
        block with a cached body until one answers true. */
    method ShouldFinalizeCached(path: seq<Hash>, txn: Tx) returns (b: bool)
      requires Valid()
      modifies this`txnValidityCache, this`calls
      ensures Valid()
      ensures b == ShouldFinalize(api, blockHashToBody, path, txn)
      ensures old(txnValidityCache).Keys <= txnValidityCache.Keys
      ensures old(calls) <= calls
    {
      b := false;
      var k := 0;
      while k < |path| && !b
        invariant 0 <= k <= |path| && Valid()
        invariant ShouldFinalize(api, blockHashToBody, path, txn) == (b || ShouldFinalize(api, blockHashToBody, path[k..], txn))
        invariant old(txnValidityCache).Keys <= txnValidityCache.Keys
        invariant old(calls) <= calls
      {
        assert path[k..][1..] == path[k + 1..];
        var bh := path[k];
        if bh in blockHashToBody {
          var blockBody := blockHashToBody[bh];
          var valid := CheckValid(bh, txn);
          if txn in blockBody || !valid {
            b := true;
          }
        }
        k := k + 1;
      }
    }

    /** The done notification of `finalized`, against the block the
        transaction last settled at (the empty hash if none). */
    method ReportDone(txn: Tx)
      requires Valid()
      modifies this`txnValidityCache, this`txnSuccessCache, this`trace, this`calls
      ensures Valid()
      ensures trace == old(trace) + [DoneN(txn, Judge(api, SettledBlock(txnToBlockMapping, txn), txn))]
      ensures old(txnValidityCache).Keys <= txnValidityCache.Keys
      ensures old(txnSuccessCache).Keys <= txnSuccessCache.Keys
      ensures old(calls) <= calls
    {
      var settledBlockHash := if txn in txnToBlockMapping then txnToBlockMapping[txn] else "";
      var valid := CheckValid(settledBlockHash, txn);
      if !valid {
        trace := trace + [DoneN(txn, Invalid(settledBlockHash))];
      } else {
        var successful := CheckSuccess(settledBlockHash, txn);
        trace := trace + [DoneN(txn, Settled.Valid(settledBlockHash, successful))];
      }
    }

    /** The event switch of the tracker. */
    method Dispatch(e: Event)
      requires Valid()
      requires e.Finalized? ==> Acyclic(blockToParentMapping)
      modifies this
      ensures Valid()
      ensures old(trace) <= trace && NotesFor(e, trace[|old(trace)|..])
    {
      match e
      case NewBlock(h, p) => OnNewBlock(h, p);
      case NewTransaction(tx) => OnNewTx(tx);
      case Finalized(h) => OnFinalized(h);
    }
  }
}
