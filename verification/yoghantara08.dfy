/** src/solutions/yoghantara08.ts: an insertion-ordered set of transactions,
    one insertion-ordered settlement map per block hash and a finalized set.
    Each JavaScript `Map` is modelled as a Dafny map together with the order in
    which its keys were first inserted. */
module Yoghantara08 {
  import opened Types
  import opened Settlement

  /** The transactions named by `notes`, in order (unpin calls name none). */
  function TxsOf(notes: seq<Note>): (txs: seq<Tx>)
    decreases |notes|
  {
    if notes == [] then []
    else
      var n := notes[|notes| - 1];
      TxsOf(notes[..|notes| - 1]) + (if n.UnpinN? then [] else [n.tx])
  }

  lemma TxsOfSnoc(notes: seq<Note>, n: Note)
    requires !n.UnpinN?
    ensures TxsOf(notes + [n]) == TxsOf(notes) + [n.tx]
  {
    assert (notes + [n])[..|notes|] == notes;
  }

  /** Without unpin calls, `TxsOf` names exactly the notes' transactions, in
      the same positions. */
  lemma {:induction false} TxsOfSpec(notes: seq<Note>)
    requires forall n | n in notes :: !n.UnpinN?
    ensures |TxsOf(notes)| == |notes|
    ensures forall k | 0 <= k < |notes| :: TxsOf(notes)[k] == notes[k].tx
    decreases |notes|
  {
    if notes != [] {
      var notes' := notes[..|notes| - 1];
      assert forall n | n in notes' :: n in notes;
      TxsOfSpec(notes');
    }
  }

  /** Each block's key order lists the keys of its map, each once. */
  ghost predicate OrderMatches(settled: map<Hash, map<Tx, Settled>>, keyOrder: map<Hash, seq<Tx>>)
  {
    && settled.Keys == keyOrder.Keys
    && (forall h | h in keyOrder :: NoDuplicates(keyOrder[h]))
    && (forall h, tx | h in settled && tx in settled[h] :: h in keyOrder && tx in keyOrder[h])
    && (forall h, tx | h in keyOrder && tx in keyOrder[h] :: h in settled && tx in settled[h])
  }

  /** The key order of the block's map (empty for a new map). */
  function BlockOrder(keyOrder: map<Hash, seq<Tx>>, h: Hash): (o: seq<Tx>)
    ensures h in keyOrder ==> o == keyOrder[h]
    ensures h !in keyOrder ==> o == []
  {
    if h in keyOrder then keyOrder[h] else []
  }

  /** A settle pass appends exactly the newly settled transactions to the
      block's key order, so the key order keeps matching the map. */
  lemma SettlePassKeepsOrder(api: Api, h: Hash, body: seq<Tx>, q: seq<Tx>,
                             settled: map<Hash, map<Tx, Settled>>, keyOrder: map<Hash, seq<Tx>>)
    requires OrderMatches(settled, keyOrder)
    ensures var r := ScanBlock(api, h, body, q, BlockMap(settled, h));
            OrderMatches(settled[h := r.settled], keyOrder[h := BlockOrder(keyOrder, h) + TxsOf(r.notes)])
  {
    var m := BlockMap(settled, h);
    var o := BlockOrder(keyOrder, h);
    BlockOrderAfterScan(api, h, body, q, m, o);
  }

  /** A settle pass keeps both invariants of the tracker and makes only
      settled calls. */
  lemma NewBlockKeeps(api: Api, h: Hash, body: seq<Tx>, q: seq<Tx>, settled: map<Hash, map<Tx, Settled>>,
                      keyOrder: map<Hash, seq<Tx>>, finalized: set<Tx>, trace: seq<Note>)
    requires OrderMatches(settled, keyOrder) && Ledger(settled, finalized, trace)
    ensures var r := ScanBlock(api, h, body, q, BlockMap(settled, h));
            && OrderMatches(settled[h := r.settled], keyOrder[h := BlockOrder(keyOrder, h) + TxsOf(r.notes)])
            && Ledger(settled[h := r.settled], finalized, trace + r.notes)
            && forall n | n in r.notes :: n.SettledN?
  {
    SettlePassKeepsLedger(api, h, body, q, settled, finalized, trace);
    SettlePassKeepsOrder(api, h, body, q, settled, keyOrder);
  }

  /** One block's key order after a settle pass. */
  lemma BlockOrderAfterScan(api: Api, h: Hash, body: seq<Tx>, q: seq<Tx>, m: map<Tx, Settled>, o: seq<Tx>)
    requires NoDuplicates(o) && forall tx :: tx in o <==> tx in m
    ensures var r := ScanBlock(api, h, body, q, m);
            && NoDuplicates(o + TxsOf(r.notes))
            && forall tx :: tx in o + TxsOf(r.notes) <==> tx in r.settled
  {
    ScanBlockSpec(api, h, body, q, m);
    var r := ScanBlock(api, h, body, q, m);
    TxsOfSpec(r.notes);
    AppendFreshDistinct(o, m, r.notes, q);
    var t := TxsOf(r.notes);
    forall tx
      ensures tx in o + t <==> tx in r.settled
    {
      if tx in t {
        var k :| 0 <= k < |t| && t[k] == tx;
        assert r.notes[k] in r.notes;
      }
      if tx in r.settled && tx !in m {
        var k :| 0 <= k < |r.notes| && r.notes[k] == SettledN(tx, r.settled[tx]);
        assert t[k] == tx;
      }
    }
  }

  /** Appending the transactions of notes in arrival order, none of them a
      key already listed, keeps the list free of repeats. */
  lemma AppendFreshDistinct(o: seq<Tx>, m: map<Tx, Settled>, notes: seq<Note>, q: seq<Tx>)
    requires NoDuplicates(o) && forall tx :: tx in o <==> tx in m
    requires InArrivalOrder(notes, q)
    requires forall n | n in notes :: n.tx !in m
    requires |TxsOf(notes)| == |notes| && forall k | 0 <= k < |notes| :: TxsOf(notes)[k] == notes[k].tx
    ensures NoDuplicates(o + TxsOf(notes))
  {
    var t := TxsOf(notes);
    var o' := o + t;
    forall i, j | 0 <= i < j < |o'|
      ensures o'[i] != o'[j]
    {
      if j < |o| {
        assert o'[i] == o[i] && o'[j] == o[j];
      } else if i < |o| {
        assert o'[i] == o[i] && o[i] in m;
        assert o'[j] == notes[j - |o|].tx && notes[j - |o|] in notes;
      } else {
        assert o'[i] == notes[i - |o|].tx && o'[j] == notes[j - |o|].tx;
        ArrivalOrderDistinct(notes, q, i - |o|, j - |o|);
      }
    }
  }

  /** Where the settle loop of `newBlock` stands after the first `i` queued
      transactions: the block's map, its key order and the calls made are
      those of a settle pass over that prefix. */
  ghost predicate SettleLoopState(api: Api, h: Hash, body: seq<Tx>, q: seq<Tx>, i: nat, m0: map<Tx, Settled>,
                            o0: seq<Tx>, t0: seq<Note>, m: map<Tx, Settled>, order: seq<Tx>, trace: seq<Note>)
    requires i <= |q|
  {
    var r := ScanBlock(api, h, body, q[..i], m0);
    m == r.settled && order == o0 + TxsOf(r.notes) && trace == t0 + r.notes
  }

  /** One step of the settle loop: a transaction already in the map, or
      excluded but valid, leaves everything as it is; any other is stored,
      appended to the key order and notified with the state `Decide` gives. */
  lemma SettleLoopAdvance(api: Api, h: Hash, body: seq<Tx>, q: seq<Tx>, i: nat, m0: map<Tx, Settled>,
                    o0: seq<Tx>, t0: seq<Note>, m: map<Tx, Settled>, order: seq<Tx>, trace: seq<Note>)
    requires i < |q| && SettleLoopState(api, h, body, q, i, m0, o0, t0, m, order, trace)
    ensures var tx := q[i];
            if tx in m || (tx !in body && api.isTxValid(h, tx))
            then SettleLoopState(api, h, body, q, i + 1, m0, o0, t0, m, order, trace)
            else
              var s := if tx in body && api.isTxValid(h, tx) then Settled.Valid(h, api.isTxSuccessful(h, tx))
                       else Invalid(h);
              SettleLoopState(api, h, body, q, i + 1, m0, o0, t0, m[tx := s], order + [tx], trace + [SettledN(tx, s)])
  {
    var p := ScanBlock(api, h, body, q[..i], m0);
    ScanBlockStep(api, h, body, q, i, m0);
    var tx := q[i];
    if !(tx in m || (tx !in body && api.isTxValid(h, tx))) {
      var s := if tx in body && api.isTxValid(h, tx) then Settled.Valid(h, api.isTxSuccessful(h, tx))
               else Invalid(h);
      assert Decide(api, h, body, tx) == Some(s);
      TxsOfSnoc(p.notes, SettledN(tx, s));
    }
  }

  class Tracker {
    /** `state.new`: transactions in order of first arrival. */
    var newTxs: seq<Tx>
    /** `state.settled`: for each block hash seen, its settlement map ... */
    var settled: map<Hash, map<Tx, Settled>>
    /** ... and the order in which that map's keys were inserted. */
    var keyOrder: map<Hash, seq<Tx>>
    /** `state.finalized`: transactions that have been reported done. */
    var finalized: set<Tx>
    /** Every call to `onTxSettled` / `onTxDone`, in order. */
    var trace: seq<Note>
    /** The block hashes passed to `getBody`, in order. */
    ghost var bodyFetches: seq<Hash>

    ghost predicate Valid()
      reads this
    {
      NoDuplicates(newTxs) && OrderMatches(settled, keyOrder) && Ledger(settled, finalized, trace)
    }

    constructor ()
      ensures Valid()
      ensures newTxs == [] && settled == map[] && keyOrder == map[] && finalized == {}
      ensures trace == [] && bodyFetches == []
    {
      newTxs, settled, keyOrder, finalized, trace, bodyFetches := [], map[], map[], {}, [], [];
    }

    /** `newTransaction`: add to the set; a repeat changes nothing. */
    method OnNewTx(transaction: Tx)
      requires Valid()
      modifies this
      ensures Valid()
      ensures newTxs == if transaction in old(newTxs) then old(newTxs) else old(newTxs) + [transaction]
      ensures settled == old(settled) && keyOrder == old(keyOrder) && finalized == old(finalized)
      ensures trace == old(trace) && bodyFetches == old(bodyFetches)
    {
      if transaction !in newTxs {
        newTxs := newTxs + [transaction];
      }
    }

    /** `newBlock`: one body fetch, the block's map reused or created, then
        the set walked in insertion order: already settled here, or excluded
        but valid, is skipped; anything else is stored and notified. */
    method OnNewBlock(api: Api, blockHash: Hash, parent: Hash)
      requires Valid()
      modifies this
      ensures Valid()
      ensures newTxs == old(newTxs) && finalized == old(finalized)
      ensures bodyFetches == old(bodyFetches) + [blockHash]
      ensures var r := ScanBlock(api, blockHash, api.getBody(blockHash), newTxs, BlockMap(old(settled), blockHash));
              && settled == old(settled)[blockHash := r.settled]
              && keyOrder == old(keyOrder)[blockHash := BlockOrder(old(keyOrder), blockHash) + TxsOf(r.notes)]
              && trace == old(trace) + r.notes
      ensures NotesFor(NewBlock(blockHash, parent), trace[|old(trace)|..])
    {
      var body := api.getBody(blockHash);
      bodyFetches := bodyFetches + [blockHash];
      var blockSettled := BlockMap(settled, blockHash);
      var order := BlockOrder(keyOrder, blockHash);
      settled := settled[blockHash := blockSettled];
      keyOrder := keyOrder[blockHash := order];
      SettleNew(api, blockHash, body, blockSettled, order);
      ghost var r := ScanBlock(api, blockHash, body, newTxs, blockSettled);
      StoreTwice(old(settled), blockHash, blockSettled, r.settled);
      StoreTwice(old(keyOrder), blockHash, order, order + TxsOf(r.notes));
      NewBlockKeeps(api, blockHash, body, newTxs, old(settled), old(keyOrder), finalized, old(trace));
      assert trace[|old(trace)|..] == r.notes;
    }

    /** The `for ... of state.new` loop of `newBlock`. The block's map is one
        object held both by the loop and by `state.settled`; the model updates
        the loop's copy and stores it back once the loop is over, which no
        reader can tell apart. */
    method SettleNew(api: Api, blockHash: Hash, body: seq<Tx>, m0: map<Tx, Settled>, o0: seq<Tx>)
      modifies this
      ensures newTxs == old(newTxs) && finalized == old(finalized) && bodyFetches == old(bodyFetches)
      ensures var r := ScanBlock(api, blockHash, body, newTxs, m0);
              && settled == old(settled)[blockHash := r.settled]
              && keyOrder == old(keyOrder)[blockHash := o0 + TxsOf(r.notes)]
              && trace == old(trace) + r.notes
    {
      var blockSettled, order := m0, o0;
      var q := newTxs;
      ghost var t0 := trace;
      for i := 0 to |q|
        invariant newTxs == q && finalized == old(finalized) && bodyFetches == old(bodyFetches)
        invariant settled == old(settled) && keyOrder == old(keyOrder)
        invariant SettleLoopState(api, blockHash, body, q, i, m0, o0, t0, blockSettled, order, trace)
      {
        var tx := q[i];
        SettleLoopAdvance(api, blockHash, body, q, i, m0, o0, t0, blockSettled, order, trace);
        if tx in blockSettled {
          continue;
        }
        if tx !in body && api.isTxValid(blockHash, tx) {
          continue;
        }
        var s: Settled := if tx in body && api.isTxValid(blockHash, tx)
          then Settled.Valid(blockHash, api.isTxSuccessful(blockHash, tx))
          else Invalid(blockHash);
        blockSettled := blockSettled[tx := s];
        order := order + [tx];
        trace := trace + [SettledN(tx, s)];
      }
      assert q[..|q|] == q;
      settled := settled[blockHash := blockSettled];
      keyOrder := keyOrder[blockHash := order];
    }

    /** `finalized`: nothing for a block without a map; otherwise the block's
        map is walked in insertion order and every entry not yet finalized is
        reported done with its stored state. */
    method OnFinalized(blockHash: Hash)
      requires Valid()
      modifies this
      ensures Valid()
      ensures newTxs == old(newTxs) && settled == old(settled) && keyOrder == old(keyOrder)
      ensures bodyFetches == old(bodyFetches)
      ensures blockHash !in settled ==> finalized == old(finalized) && trace == old(trace)
      ensures blockHash in settled ==>
                var r := DoneScan(keyOrder[blockHash], settled[blockHash], old(finalized));
                finalized == r.done && trace == old(trace) + r.notes
      ensures old(trace) <= trace && NotesFor(Finalized(blockHash), trace[|old(trace)|..])
    {
      if blockHash !in settled {
        return;
      }
      var blockSettled := settled[blockHash];
      var q := keyOrder[blockHash];
      ghost var d0, t0 := finalized, trace;
      for i := 0 to |q|
        invariant newTxs == old(newTxs) && settled == old(settled) && keyOrder == old(keyOrder)
        invariant bodyFetches == old(bodyFetches)
        invariant DoneState(q, i, blockSettled, d0, t0, finalized, trace)
      {
        var tx := q[i];
        assert tx in blockSettled;
        DoneAdvance(q, i, blockSettled, d0, t0, finalized, trace);
        if tx in finalized {
          continue;
        }
        finalized := finalized + {tx};
        trace := trace + [DoneN(tx, blockSettled[tx])];
      }
      DoneFinish(q, settled, blockHash, d0, t0, finalized, trace);
    }

    /** The dispatcher: one handler per event kind. */
    method Dispatch(api: Api, e: Event)
      requires Valid()
      modifies this
      ensures Valid()
      ensures old(newTxs) <= newTxs && old(trace) <= trace
      ensures NotesFor(e, trace[|old(trace)|..])
    {
      match e
      case NewBlock(h, p) => OnNewBlock(api, h, p);
      case NewTransaction(tx) => OnNewTx(tx);
      case Finalized(h) => OnFinalized(h);
    }
  }

  /** The done pass over a block's key order reports every stored entry not
      yet finalized: walking the map in insertion order misses none of it. */
  lemma DoneCoversBlockMap(keyOrder: seq<Tx>, byBlock: map<Tx, Settled>, done: set<Tx>)
    requires forall tx :: tx in keyOrder <==> tx in byBlock
    ensures var r := DoneScan(keyOrder, byBlock, done);
            && r.done == done + byBlock.Keys
            && (forall tx | tx in byBlock && tx !in done :: DoneN(tx, byBlock[tx]) in r.notes)
  {
    DoneScanSpec(keyOrder, byBlock, done);
  }
}
