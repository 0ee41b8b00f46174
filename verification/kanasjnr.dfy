/** src/solutions/kanasjnr.ts: the tracker keeps its state on the `api` object
    itself, created on the first `newBlock` or `newTransaction`. Trackers built
    over the same `api` object therefore share one queue, one set of
    settlement maps and one done set, while each notifies its own output. */
module Kanasjnr {
  import opened Types
  import opened Settlement

  /** The lazily created `__trackerState`. */
  class TrackerState {
    var arrived: seq<Tx>
    var settledByBlock: map<Hash, map<Tx, Settled>>
    var done: set<Tx>

    /** The queue holds no repeats and every stored state names its block. */
    ghost predicate Valid()
      reads this
    {
      NoDuplicates(arrived)
      && forall h, tx | h in settledByBlock && tx in settledByBlock[h] ::
           settledByBlock[h][tx].blockHash == h && !settledByBlock[h][tx].Untyped?
    }

    constructor ()
      ensures Valid()
      ensures arrived == [] && settledByBlock == map[] && done == {}
    {
      arrived, settledByBlock, done := [], map[], {};
    }
  }

  /** The `api` object: its read side and the slot the tracker writes into. */
  class ApiObject {
    const read: Api
    var trackerState: TrackerState?

    constructor (read: Api)
      ensures this.read == read && trackerState == null
    {
      this.read := read;
      trackerState := null;
    }

    ghost predicate Valid()
      reads this, trackerState
    {
      trackerState != null ==> trackerState.Valid()
    }
  }

  class Tracker {
    const api: ApiObject
    /** Every call this tracker makes to `onTxSettled` / `onTxDone`, in order. */
    var trace: seq<Note>
    /** The block hashes this tracker passed to `getBody`, in order. */
    ghost var bodyFetches: seq<Hash>

    /** The tracker's own notifications agree with the shared state: none
        before the state exists, and afterwards each settled or done note
        matches the state stored under its block, settled at most once per
        block and done at most once (`Agrees`). */
    ghost predicate Valid()
      reads this, api, api.trackerState
    {
      && api.Valid()
      && (api.trackerState == null ==> trace == [])
      && (api.trackerState != null ==>
            Agrees(api.trackerState.settledByBlock, api.trackerState.done, trace))
    }

    constructor (api: ApiObject)
      requires api.Valid()
      ensures this.api == api && trace == [] && bodyFetches == []
      ensures Valid()
    {
      this.api := api;
      trace, bodyFetches := [], [];
    }

    /** The state, created and stored on the `api` object when missing
        (`api.__trackerState ?? (api.__trackerState = {...})`). */
    method State() returns (state: TrackerState)
      requires api.Valid()
      modifies api
      ensures api.trackerState == state && state.Valid()
      ensures old(api.trackerState) != null ==> state == old(api.trackerState)
      ensures old(api.trackerState) == null ==>
                fresh(state) && state.arrived == [] && state.settledByBlock == map[] && state.done == {}
    {
      if api.trackerState == null {
        api.trackerState := new TrackerState();
      }
      state := api.trackerState;
    }

    /** `newBlock`: always one body fetch, then the state (created if
        missing), the block's map (created if missing), the candidates in
        arrival order (not in the map, included or invalid), and each one
        stored and notified. */
    method OnNewBlock(blockHash: Hash, parent: Hash)
      requires Valid()
      modifies this, api, api.trackerState
      ensures Valid() && api.trackerState != null
      ensures old(trace) <= trace && NotesFor(NewBlock(blockHash, parent), trace[|old(trace)|..])
      ensures old(api.trackerState) != null ==>
                Grows(old(api.trackerState.settledByBlock), old(api.trackerState.done),
                      api.trackerState.settledByBlock, api.trackerState.done)
      ensures bodyFetches == old(bodyFetches) + [blockHash]
      ensures old(api.trackerState) == null ==>
                && fresh(api.trackerState)
                && api.trackerState.arrived == [] && api.trackerState.done == {}
                && api.trackerState.settledByBlock == map[blockHash := map[]]
                && trace == old(trace)
      ensures old(api.trackerState) != null ==>
                var st := old(api.trackerState);
                var a := api.read;
                var m := BlockMap(old(st.settledByBlock), blockHash);
                var r := SettleAll(a, blockHash, a.getBody(blockHash),
                                   Candidates(a, blockHash, a.getBody(blockHash), st.arrived, m), m);
                && api.trackerState == st
                && st.arrived == old(st.arrived) && st.done == old(st.done)
                && st.settledByBlock == old(st.settledByBlock)[blockHash := r.settled]
                && trace == old(trace) + r.notes
                && r == ScanBlock(a, blockHash, a.getBody(blockHash), st.arrived, m)
    {
      ghost var m0 := if api.trackerState == null then map[] else BlockMap(api.trackerState.settledByBlock, blockHash);
      ghost var sbb0 := if api.trackerState == null then map[] else api.trackerState.settledByBlock;
      ghost var t0 := trace;
      var body := api.read.getBody(blockHash);
      bodyFetches := bodyFetches + [blockHash];
      var state := State();
      var perBlock := BlockMap(state.settledByBlock, blockHash);
      ghost var stored, created := state.settledByBlock, perBlock;
      state.settledByBlock := state.settledByBlock[blockHash := perBlock];
      var candidates := Candidates(api.read, blockHash, body, state.arrived, perBlock);
      perBlock := SettleCandidates(blockHash, body, candidates, perBlock);
      state.settledByBlock := state.settledByBlock[blockHash := perBlock];
      StoreTwice(stored, blockHash, created, perBlock);
      FilterThenSettleIsScan(api.read, blockHash, body, state.arrived, m0);
      SettlePassStates(api.read, blockHash, body, state.arrived, m0);
      if old(api.trackerState) != null {
        AgreesAfterSettle(api.read, blockHash, body, state.arrived, sbb0, state.done, t0);
        assert trace[|t0|..] == ScanBlock(api.read, blockHash, body, state.arrived, m0).notes;
      } else {
        assert trace[|t0|..] == [];
      }
    }

    /** The loop over the candidates: each state is stored in the block's
        map and notified; returns the block's map. */
    method SettleCandidates(blockHash: Hash, body: seq<Tx>, candidates: seq<Tx>, m0: map<Tx, Settled>)
      returns (perBlock: map<Tx, Settled>)
      modifies this
      ensures bodyFetches == old(bodyFetches)
      ensures var r := SettleAll(api.read, blockHash, body, candidates, m0);
              perBlock == r.settled && trace == old(trace) + r.notes
    {
      perBlock := m0;
      for i := 0 to |candidates|
        invariant bodyFetches == old(bodyFetches)
        invariant var r := SettleAll(api.read, blockHash, body, candidates[..i], m0);
                  perBlock == r.settled && trace == old(trace) + r.notes
      {
        var tx := candidates[i];
        assert candidates[..i + 1][..i] == candidates[..i];
        var settled: Settled;
        if tx in body {
          var valid := api.read.isTxValid(blockHash, tx);
          if !valid {
            settled := Invalid(blockHash);
          } else {
            var successful := api.read.isTxSuccessful(blockHash, tx);
            settled := Settled.Valid(blockHash, successful);
          }
        } else {
          settled := Invalid(blockHash);
        }
        perBlock := perBlock[tx := settled];
        trace := trace + [SettledN(tx, settled)];
      }
      assert candidates[..|candidates|] == candidates;
    }

    /** `newTransaction`: the state (created if missing), then the
        transaction queued unless already queued. */
    method OnNewTx(transaction: Tx)
      requires Valid()
      modifies api, api.trackerState
      ensures Valid() && api.trackerState != null
      ensures old(api.trackerState) != null ==>
                Grows(old(api.trackerState.settledByBlock), old(api.trackerState.done),
                      api.trackerState.settledByBlock, api.trackerState.done)
      ensures old(api.trackerState) == null ==>
                && fresh(api.trackerState)
                && api.trackerState.arrived == [transaction]
                && api.trackerState.settledByBlock == map[] && api.trackerState.done == {}
      ensures old(api.trackerState) != null ==>
                var st := old(api.trackerState);
                && api.trackerState == st
                && st.arrived == (if transaction in old(st.arrived) then old(st.arrived) else old(st.arrived) + [transaction])
                && st.settledByBlock == old(st.settledByBlock) && st.done == old(st.done)
    {
      var state := State();
      if transaction !in state.arrived {
        state.arrived := state.arrived + [transaction];
      }
    }

    /** `finalized`: nothing before any state exists or for a block without a
        map; otherwise every arrival stored in that map and not yet done is
        reported done with the stored state, in arrival order. */
    method OnFinalized(blockHash: Hash)
      requires Valid()
      modifies this, api.trackerState
      ensures Valid() && api.trackerState == old(api.trackerState)
      ensures bodyFetches == old(bodyFetches)
      ensures old(trace) <= trace && NotesFor(Finalized(blockHash), trace[|old(trace)|..])
      ensures api.trackerState != null ==>
                Grows(old(api.trackerState.settledByBlock), old(api.trackerState.done),
                      api.trackerState.settledByBlock, api.trackerState.done)
      ensures api.trackerState == null || blockHash !in api.trackerState.settledByBlock ==>
                trace == old(trace) && (api.trackerState != null ==> api.trackerState.done == old(api.trackerState.done))
      ensures api.trackerState != null && blockHash in api.trackerState.settledByBlock ==>
                var st := api.trackerState;
                var r := DoneScan(st.arrived, st.settledByBlock[blockHash], old(st.done));
                st.done == r.done && trace == old(trace) + r.notes
      ensures api.trackerState != null ==>
                api.trackerState.arrived == old(api.trackerState.arrived)
                && api.trackerState.settledByBlock == old(api.trackerState.settledByBlock)
    {
      var state := api.trackerState;
      if state == null {
        return;
      }
      if blockHash !in state.settledByBlock {
        assert trace[|trace|..] == [];
        return;
      }
      var perBlock := state.settledByBlock[blockHash];
      ghost var d0, t0 := state.done, trace;
      for i := 0 to |state.arrived|
        invariant state.arrived == old(state.arrived) && state.settledByBlock == old(state.settledByBlock)
        invariant bodyFetches == old(bodyFetches)
        invariant var r := DoneScan(state.arrived[..i], perBlock, d0);
                  state.done == r.done && trace == t0 + r.notes
      {
        var tx := state.arrived[i];
        assert state.arrived[..i + 1][..i] == state.arrived[..i];
        if tx !in perBlock {
          continue;
        }
        if tx in state.done {
          continue;
        }
        var settled := perBlock[tx];
        state.done := state.done + {tx};
        trace := trace + [DoneN(tx, settled)];
      }
      assert state.arrived[..|state.arrived|] == state.arrived;
      AgreesAfterDone(state.arrived, state.settledByBlock, blockHash, d0, t0);
      assert trace[|t0|..] == DoneScan(state.arrived, perBlock, d0).notes;
    }

    /** The dispatcher: one handler per event kind. The tracker's own
        notifications keep agreeing with the shared state, each event adds
        only notes of its kind, and the shared state only grows: stored
        states are never replaced and done transactions stay done. */
    method Dispatch(e: Event)
      requires Valid()
      modifies this, api, api.trackerState
      ensures Valid() && (api.trackerState != null || e.Finalized?)
      ensures old(trace) <= trace && NotesFor(e, trace[|old(trace)|..])
      ensures old(api.trackerState) != null ==>
                api.trackerState == old(api.trackerState)
                && Grows(old(api.trackerState.settledByBlock), old(api.trackerState.done),
                         api.trackerState.settledByBlock, api.trackerState.done)
    {
      match e
      case NewBlock(h, p) => OnNewBlock(h, p);
      case NewTransaction(tx) => OnNewTx(tx);
      case Finalized(h) => OnFinalized(h);
    }
  }

  /** The shared state only grows from `sbb`, `done` to `sbb'`, `done'`:
      every stored state stays stored unchanged and every done transaction
      stays done. */
  ghost predicate Grows(sbb: map<Hash, map<Tx, Settled>>, done: set<Tx>,
                        sbb': map<Hash, map<Tx, Settled>>, done': set<Tx>)
  {
    && (forall h, tx | h in sbb && tx in sbb[h] :: h in sbb' && tx in sbb'[h] && sbb'[h][tx] == sbb[h][tx])
    && done <= done'
  }

  /** A tracker's notes keep agreeing with a shared state that only grows,
      whichever tracker made it grow. */
  lemma AgreesGrow(sbb: map<Hash, map<Tx, Settled>>, done: set<Tx>,
                   sbb': map<Hash, map<Tx, Settled>>, done': set<Tx>, trace: seq<Note>)
    requires Agrees(sbb, done, trace) && Grows(sbb, done, sbb', done')
    ensures Agrees(sbb', done', trace)
  {
  }

  /** A settle pass keeps a tracker's notes agreeing with the shared state,
      only grows it, and emits only settled notes at its block. */
  lemma AgreesAfterSettle(api: Api, h: Hash, body: seq<Tx>, q: seq<Tx>,
                          sbb: map<Hash, map<Tx, Settled>>, done: set<Tx>, trace: seq<Note>)
    requires Agrees(sbb, done, trace)
    ensures var r := ScanBlock(api, h, body, q, BlockMap(sbb, h));
      && Agrees(sbb[h := r.settled], done, trace + r.notes)
      && Grows(sbb, done, sbb[h := r.settled], done)
      && (forall n | n in r.notes :: n.SettledN? && n.s.blockHash == h)
  {
    var m := BlockMap(sbb, h);
    ScanBlockSpec(api, h, body, q, m);
    var r := ScanBlock(api, h, body, q, m);
    var sbb' := sbb[h := r.settled];
    forall n | n in trace + r.notes && (n.SettledN? || n.DoneN?)
      ensures n.s.blockHash in sbb' && n.tx in sbb'[n.s.blockHash] && sbb'[n.s.blockHash][n.tx] == n.s
    {
      if n in trace && n.s.blockHash == h {
        assert n.tx in m;
      }
    }
    OnceAfterSettle(sbb, done, trace, h, q, r.notes, m);
  }

  /** A done pass against a stored block map whose states name that block
      keeps a tracker's notes agreeing with the shared state, only grows it,
      and emits only done notes. */
  lemma AgreesAfterDone(q: seq<Tx>, sbb: map<Hash, map<Tx, Settled>>, h: Hash, done: set<Tx>, trace: seq<Note>)
    requires Agrees(sbb, done, trace) && h in sbb
    requires forall tx | tx in sbb[h] :: sbb[h][tx].blockHash == h
    ensures var r := DoneScan(q, sbb[h], done);
      && Agrees(sbb, r.done, trace + r.notes)
      && Grows(sbb, done, sbb, r.done)
      && (forall n | n in r.notes :: n.DoneN?)
  {
    DoneScanSpec(q, sbb[h], done);
    var r := DoneScan(q, sbb[h], done);
    var t := trace + r.notes;
    assert forall k | |trace| <= k < |t| :: t[k] == r.notes[k - |trace|] && t[k] in r.notes;
    forall i, j | 0 <= i < j < |t| && t[i].SettledN? && t[j].SettledN? && t[i].tx == t[j].tx
      ensures t[i].s.blockHash != t[j].s.blockHash
    {
      assert t[i] == trace[i] && t[j] == trace[j];
    }
    forall i, j | 0 <= i < j < |t| && t[i].DoneN? && t[j].DoneN?
      ensures t[i].tx != t[j].tx
    {
      if j < |trace| {
        assert t[i] == trace[i] && t[j] == trace[j];
      } else if i < |trace| {
        assert t[i] in trace;
      } else {
        ArrivalOrderDistinct(r.notes, q, i - |trace|, j - |trace|);
      }
    }
  }

  /** The states a settle pass stores name their block and are never untyped. */
  lemma SettlePassStates(api: Api, h: Hash, body: seq<Tx>, q: seq<Tx>, m: map<Tx, Settled>)
    requires forall tx | tx in m :: m[tx].blockHash == h && !m[tx].Untyped?
    ensures var r := ScanBlock(api, h, body, q, m);
            forall tx | tx in r.settled :: r.settled[tx].blockHash == h && !r.settled[tx].Untyped?
  {
    ScanBlockSpec(api, h, body, q, m);
  }

  /** One tracker handling an event keeps every other tracker over the same
      `api` object valid: the other's notifications are untouched and the
      shared state they agree with only grows. */
  method DispatchBeside(t: Tracker, other: Tracker, e: Event)
    requires t != other && t.api == other.api && t.Valid() && other.Valid()
    modifies t, t.api, t.api.trackerState
    ensures t.Valid() && other.Valid() && other.trace == old(other.trace)
  {
    ghost var st := t.api.trackerState;
    ghost var sbb, done := if st == null then map[] else st.settledByBlock, if st == null then {} else st.done;
    t.Dispatch(e);
    if st != null {
      AgreesGrow(sbb, done, st.settledByBlock, st.done, other.trace);
    }
  }

  /** Two trackers over one `api` object share their queue: a transaction
      announced to one of them is queued for the other as well. */
  method SharedQueue(read: Api, tx: Tx) returns (t1: Tracker, t2: Tracker)
    ensures t1 != t2 && t1.api == t2.api
    ensures t2.api.trackerState != null && t2.api.trackerState.arrived == [tx]
  {
    var a := new ApiObject(read);
    t1 := new Tracker(a);
    t2 := new Tracker(a);
    t1.OnNewTx(tx);
  }
}
