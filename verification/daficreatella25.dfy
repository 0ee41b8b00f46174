/** src/solutions/daficreatella25.ts: an arrival list that keeps repeats, a
    per-transaction record, one settlement map per block hash and a done set. */
module Daficreatella25 {
  import opened Types
  import opened Settlement

  /** The per-transaction record: the latest state and the block it settled at
      (`''` until it settles). Written, never read. */
  datatype TxRecord = TxRecord(settlement: Option<Settled>, blockhash: Hash)

  /** The records after a run of settled notifications: each notified
      transaction's record is overwritten with the state and its block. */
  function Recorded(rec: map<Tx, TxRecord>, notes: seq<Note>): map<Tx, TxRecord>
    decreases |notes|
  {
    if notes == [] then rec
    else
      var n := notes[|notes| - 1];
      var r := Recorded(rec, notes[..|notes| - 1]);
      if n.SettledN? then r[n.tx := TxRecord(Some(n.s), n.s.blockHash)] else r
  }

  /** Recording never loses a record. */
  lemma {:induction false} RecordedKeeps(rec: map<Tx, TxRecord>, notes: seq<Note>)
    ensures rec.Keys <= Recorded(rec, notes).Keys
    decreases |notes|
  {
    if notes != [] {
      RecordedKeeps(rec, notes[..|notes| - 1]);
    }
  }

  /** Recording one more settled notification overwrites that transaction's record. */
  lemma RecordedAppend(rec: map<Tx, TxRecord>, notes: seq<Note>, tx: Tx, s: Settled)
    ensures Recorded(rec, notes + [SettledN(tx, s)]) == Recorded(rec, notes)[tx := TxRecord(Some(s), s.blockHash)]
  {
    assert (notes + [SettledN(tx, s)])[..|notes|] == notes;
  }

  /** Where the settle loop of `newBlock` stands after the first `i`
      arrivals: the block's map, the calls made and the records are those of a
      settle pass over that prefix. */
  ghost predicate RecordState(api: Api, h: Hash, body: seq<Tx>, q: seq<Tx>, i: nat, m0: map<Tx, Settled>,
                              t0: seq<Note>, r0: map<Tx, TxRecord>, m: map<Tx, Settled>, trace: seq<Note>,
                              rec: map<Tx, TxRecord>)
    requires i <= |q|
  {
    && ScanState(api, h, body, q, i, m0, t0, m, trace)
    && rec == Recorded(r0, ScanBlock(api, h, body, q[..i], m0).notes)
  }

  /** One step of that loop: a transaction settled as `Decide` says is
      stored, notified and recorded with its block; any other changes
      nothing. */
  lemma RecordAdvance(api: Api, h: Hash, body: seq<Tx>, q: seq<Tx>, i: nat, m0: map<Tx, Settled>,
                      t0: seq<Note>, r0: map<Tx, TxRecord>, m: map<Tx, Settled>, trace: seq<Note>,
                      rec: map<Tx, TxRecord>)
    requires i < |q| && RecordState(api, h, body, q, i, m0, t0, r0, m, trace, rec)
    ensures var d := Decide(api, h, body, q[i]);
            if q[i] in m || d.None? then RecordState(api, h, body, q, i + 1, m0, t0, r0, m, trace, rec)
            else RecordState(api, h, body, q, i + 1, m0, t0, r0, m[q[i] := d.value],
                             trace + [SettledN(q[i], d.value)], rec[q[i] := TxRecord(Some(d.value), h)])
  {
    ScanAdvance(api, h, body, q, i, m0, t0, m, trace);
    ScanBlockStep(api, h, body, q, i, m0);
    var d := Decide(api, h, body, q[i]);
    if !(q[i] in m || d.None?) {
      RecordedAppend(r0, ScanBlock(api, h, body, q[..i], m0).notes, q[i], d.value);
    }
  }

  /** The transactions named by settled notifications. */
  ghost function Noted(notes: seq<Note>): set<Tx>
  {
    set n | n in notes && n.SettledN? :: n.tx
  }

  /** When the notified transactions are distinct and all have records, the
      records keep their keys, each notified transaction's record holds the
      state it was notified with, and every other record is untouched. */
  lemma {:induction false} RecordedSpec(rec: map<Tx, TxRecord>, notes: seq<Note>)
    requires forall n | n in notes :: n.SettledN? && n.tx in rec
    requires forall i, j | 0 <= i < j < |notes| :: notes[i].tx != notes[j].tx
    ensures Recorded(rec, notes).Keys == rec.Keys
    ensures forall n | n in notes :: Recorded(rec, notes)[n.tx] == TxRecord(Some(n.s), n.s.blockHash)
    ensures forall tx | tx in rec && tx !in Noted(notes) :: Recorded(rec, notes)[tx] == rec[tx]
    decreases |notes|
  {
    if notes != [] {
      var notes' := notes[..|notes| - 1];
      var last := notes[|notes| - 1];
      assert notes == notes' + [last];
      assert forall k | 0 <= k < |notes'| :: notes'[k] == notes[k] && notes'[k].tx != last.tx;
      RecordedSpec(rec, notes');
      assert Noted(notes) == Noted(notes') + {last.tx};
    }
  }

  class Tracker {
    /** The record of each transaction seen. */
    var transactionRecord: map<Tx, TxRecord>
    /** Every arrival, repeats included, in order. */
    var transactionOrder: seq<Tx>
    /** For each block hash seen, the state each transaction settled with there. */
    var settledByBlock: map<Hash, map<Tx, Settled>>
    /** Transactions that have been reported done. */
    var doneTransactions: set<Tx>
    /** Every call to `onTxSettled` / `onTxDone`, in order. */
    var trace: seq<Note>
    /** The block hashes passed to `getBody`, in order. */
    ghost var bodyFetches: seq<Hash>

    /** Every arrival has a record, and the ledger invariant holds even though
        arrivals repeat. */
    ghost predicate Valid()
      reads this
    {
      (forall tx | tx in transactionOrder :: tx in transactionRecord)
      && Ledger(settledByBlock, doneTransactions, trace)
    }

    constructor ()
      ensures Valid()
      ensures transactionRecord == map[] && transactionOrder == [] && settledByBlock == map[]
      ensures doneTransactions == {} && trace == [] && bodyFetches == []
    {
      transactionRecord, transactionOrder, settledByBlock := map[], [], map[];
      doneTransactions, trace, bodyFetches := {}, [], [];
    }

    /** `newBlock`: one body fetch, the block's map created if missing, then
        the arrival list walked in order, skipping anything already in the
        map, with each settled state stored, recorded and notified. */
    method OnNewBlock(api: Api, blockHash: Hash, parent: Hash)
      requires Valid()
      modifies this
      ensures Valid()
      ensures transactionOrder == old(transactionOrder) && doneTransactions == old(doneTransactions)
      ensures bodyFetches == old(bodyFetches) + [blockHash]
      ensures var r := ScanBlock(api, blockHash, api.getBody(blockHash), transactionOrder,
                                 BlockMap(old(settledByBlock), blockHash));
              && settledByBlock == old(settledByBlock)[blockHash := r.settled]
              && trace == old(trace) + r.notes
              && transactionRecord == Recorded(old(transactionRecord), r.notes)
      ensures NotesFor(NewBlock(blockHash, parent), trace[|old(trace)|..])
    {
      var blockBodies := api.getBody(blockHash);
      bodyFetches := bodyFetches + [blockHash];
      var byBlock := BlockMap(settledByBlock, blockHash);
      settledByBlock := settledByBlock[blockHash := byBlock];
      SettleOrder(api, blockHash, blockBodies, byBlock);
      ghost var r := ScanBlock(api, blockHash, blockBodies, transactionOrder, byBlock);
      StoreTwice(old(settledByBlock), blockHash, byBlock, r.settled);
      SettlePassKeepsLedger(api, blockHash, blockBodies, transactionOrder, old(settledByBlock),
                            doneTransactions, old(trace));
      RecordedKeeps(old(transactionRecord), r.notes);
      assert trace[|old(trace)|..] == r.notes;
    }

    /** The loop of `newBlock` over the arrival list. */
    method SettleOrder(api: Api, blockHash: Hash, body: seq<Tx>, m0: map<Tx, Settled>)
      requires blockHash in settledByBlock && settledByBlock[blockHash] == m0
      requires forall tx | tx in transactionOrder :: tx in transactionRecord
      modifies this
      ensures transactionOrder == old(transactionOrder) && doneTransactions == old(doneTransactions)
      ensures bodyFetches == old(bodyFetches)
      ensures var r := ScanBlock(api, blockHash, body, transactionOrder, m0);
              && settledByBlock == old(settledByBlock)[blockHash := r.settled]
              && trace == old(trace) + r.notes
              && transactionRecord == Recorded(old(transactionRecord), r.notes)
    {
      var byBlock := m0;
      var q := transactionOrder;
      ghost var t0, r0 := trace, transactionRecord;
      for i := 0 to |q|
        invariant transactionOrder == q && doneTransactions == old(doneTransactions)
        invariant bodyFetches == old(bodyFetches)
        invariant RecordState(api, blockHash, body, q, i, m0, t0, r0, byBlock, trace, transactionRecord)
        invariant settledByBlock == old(settledByBlock)[blockHash := byBlock]
      {
        var transaction := q[i];
        RecordAdvance(api, blockHash, body, q, i, m0, t0, r0, byBlock, trace, transactionRecord);
        if transaction in byBlock {
          continue;
        }
        var shouldSettle := transaction in body || !api.isTxValid(blockHash, transaction);
        if shouldSettle {
          var settled: Settled;
          if transaction in body {
            var isValid := api.isTxValid(blockHash, transaction);
            if isValid {
              var isSuccessful := api.isTxSuccessful(blockHash, transaction);
              settled := Settled.Valid(blockHash, isSuccessful);
            } else {
              settled := Invalid(blockHash);
            }
          } else {
            settled := Invalid(blockHash);
          }
          assert Decide(api, blockHash, body, transaction) == Some(settled);
          StoreTwice(old(settledByBlock), blockHash, byBlock, byBlock[transaction := settled]);
          byBlock := byBlock[transaction := settled];
          settledByBlock := settledByBlock[blockHash := byBlock];
          transactionRecord := transactionRecord[transaction := TxRecord(Some(settled), blockHash)];
          trace := trace + [SettledN(transaction, settled)];
        }
      }
      assert q[..|q|] == q;
    }

    /** `newTransaction`: reset the record and append, even a repeat. */
    method OnNewTx(transaction: Tx)
      requires Valid()
      modifies this
      ensures Valid()
      ensures transactionOrder == old(transactionOrder) + [transaction]
      ensures transactionRecord == old(transactionRecord)[transaction := TxRecord(None, "")]
      ensures settledByBlock == old(settledByBlock) && doneTransactions == old(doneTransactions)
      ensures trace == old(trace) && bodyFetches == old(bodyFetches)
    {
      transactionRecord := transactionRecord[transaction := TxRecord(None, "")];
      transactionOrder := transactionOrder + [transaction];
    }

    /** `finalized`: nothing for a block without a map; otherwise every
        arrival stored in that map and not yet done is reported done with the
        stored state, in arrival order, once. */
    method OnFinalized(blockHash: Hash)
      requires Valid()
      modifies this
      ensures Valid()
      ensures transactionOrder == old(transactionOrder) && transactionRecord == old(transactionRecord)
      ensures settledByBlock == old(settledByBlock) && bodyFetches == old(bodyFetches)
      ensures blockHash !in settledByBlock ==> doneTransactions == old(doneTransactions) && trace == old(trace)
      ensures blockHash in settledByBlock ==>
                var r := DoneScan(transactionOrder, settledByBlock[blockHash], old(doneTransactions));
                doneTransactions == r.done && trace == old(trace) + r.notes
      ensures old(trace) <= trace && NotesFor(Finalized(blockHash), trace[|old(trace)|..])
    {
      if blockHash !in settledByBlock {
        return;
      }
      var byBlock := settledByBlock[blockHash];
      ghost var d0, t0 := doneTransactions, trace;
      var q := transactionOrder;
      for i := 0 to |q|
        invariant transactionOrder == q && transactionRecord == old(transactionRecord)
        invariant settledByBlock == old(settledByBlock) && bodyFetches == old(bodyFetches)
        invariant DoneState(q, i, byBlock, d0, t0, doneTransactions, trace)
      {
        var transaction := q[i];
        DoneAdvance(q, i, byBlock, d0, t0, doneTransactions, trace);
        if transaction !in byBlock || transaction in doneTransactions {
          continue;
        }
        doneTransactions := doneTransactions + {transaction};
        trace := trace + [DoneN(transaction, byBlock[transaction])];
      }
      DoneFinish(q, settledByBlock, blockHash, d0, t0, doneTransactions, trace);
    }

    /** The dispatcher: one handler per event kind. */
    method Dispatch(api: Api, e: Event)
      requires Valid()
      modifies this
      ensures Valid()
      ensures old(transactionOrder) <= transactionOrder && old(trace) <= trace
      ensures NotesFor(e, trace[|old(trace)|..])
    {
      match e
      case NewBlock(h, p) => OnNewBlock(api, h, p);
      case NewTransaction(tx) => OnNewTx(tx);
      case Finalized(h) => OnFinalized(h);
    }
  }

  /** After a settle pass every notified transaction's record holds the state
      it was notified with at this block, and every other record is unchanged. */
  lemma SettlePassRecords(api: Api, h: Hash, body: seq<Tx>, q: seq<Tx>, m: map<Tx, Settled>, rec: map<Tx, TxRecord>)
    requires forall tx | tx in q :: tx in rec
    ensures var r := ScanBlock(api, h, body, q, m);
      && Recorded(rec, r.notes).Keys == rec.Keys
      && (forall n | n in r.notes ::
            n.SettledN? && n.tx in Recorded(rec, r.notes) && Recorded(rec, r.notes)[n.tx] == TxRecord(Some(n.s), h))
      && (forall tx | tx in rec && tx !in Noted(r.notes) :: Recorded(rec, r.notes)[tx] == rec[tx])
  {
    ScanBlockSpec(api, h, body, q, m);
    var r := ScanBlock(api, h, body, q, m);
    forall i, j | 0 <= i < j < |r.notes|
      ensures r.notes[i].tx != r.notes[j].tx
    {
      ArrivalOrderDistinct(r.notes, q, i, j);
    }
    RecordedSpec(rec, r.notes);
  }
}
