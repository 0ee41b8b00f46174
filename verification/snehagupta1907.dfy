/** src/solutions/snehagupta1907.ts: one record per arrival (repeats get their
    own record), a parent map, and an ancestry test that decides when a
    transaction is settled again and when it is done. Records are objects the
    handlers update in place; here they are values in a sequence that the
    handlers reassign, which is the same thing since nothing else refers to
    them. */
module Snehagupta1907 {
  import opened Types
  import opened Ancestry

  /** The state kept on a record, without its block hash. */
  datatype SettledState = ValidState(successful: bool) | InvalidState

  /** One arrival. `firstSettledBlock` is `""` until first set; a missing
      `firstSettledState` is `None`. */
  datatype TrackedTxn = TrackedTxn(
    transaction: Tx,
    arrivalOrder: nat,
    done: bool,
    settledInBlocks: set<Hash>,
    firstSettledBlock: Hash,
    firstSettledState: Option<SettledState>)

  /** `{ blockHash, ...state }`: with no state the object has no `type`. */
  function Stamp(h: Hash, st: Option<SettledState>): (s: Settled)
    ensures s.blockHash == h
    ensures st == None <==> s.Untyped?
    ensures st == Some(InvalidState) <==> s.Invalid?
    ensures st.Some? && st.value.ValidState? <==> s.Valid?
    ensures s.Valid? ==> s.successful == st.value.successful
  {
    match st
    case None => Untyped(h)
    case Some(ValidState(ok)) => Settled.Valid(h, ok)
    case Some(InvalidState) => Invalid(h)
  }

  /** `isDes(hash, ancestor)`: walk up from `hash` while the current hash is
      truthy, answering true on meeting `ancestor`. */
  function IsDes(p: map<Hash, Hash>, hash: Hash, ancestor: Hash): bool
    requires Acyclic(p)
    decreases Height(p, hash)
  {
    if hash == "" then false
    else if hash == ancestor then true
    else if hash in p then
      HeightDecreases(p, hash);
      IsDes(p, p[hash], ancestor)
    else false
  }

  /** `isDes` answers exactly "is `ancestor` on the lineage of `hash`": the
      block itself or a block reached through recorded parents, never the
      empty hash. */
  lemma {:induction false} IsDesIffLineage(p: map<Hash, Hash>, hash: Hash, ancestor: Hash)
    requires Acyclic(p)
    ensures IsDes(p, hash, ancestor) <==> ancestor in Lineage(p, hash)
    decreases Height(p, hash)
  {
    if hash != "" && hash != ancestor && hash in p {
      HeightDecreases(p, hash);
      IsDesIffLineage(p, p[hash], ancestor);
    }
  }

  /** Every block descends from itself (for a truthy hash), and descent is
      transitive. */
  lemma IsDesOrder(p: map<Hash, Hash>, a: Hash, b: Hash, c: Hash)
    requires Acyclic(p)
    ensures a != "" ==> IsDes(p, a, a)
    ensures IsDes(p, a, b) && IsDes(p, b, c) ==> IsDes(p, a, c)
  {
    IsDesIffLineage(p, a, b);
    IsDesIffLineage(p, b, c);
    IsDesIffLineage(p, a, c);
    if IsDes(p, a, b) && IsDes(p, b, c) {
      LineageTransitive(p, a, b, c);
    }
  }

  /** The `newBlock` filter for one record: not done, not settled at this
      hash, and its first settling block (if any) not an ancestor-or-self of
      this block. */
  predicate IsCandidate(p: map<Hash, Hash>, h: Hash, t: TrackedTxn)
    requires Acyclic(p)
  {
    !t.done && h !in t.settledInBlocks && !(t.firstSettledBlock != "" && IsDes(p, h, t.firstSettledBlock))
  }

  /** The candidate records, as ascending positions among the first `n`. */
  function Candidates(p: map<Hash, Hash>, h: Hash, recs: seq<TrackedTxn>, n: nat): (c: seq<nat>)
    requires Acyclic(p) && n <= |recs|
    ensures forall k | 0 <= k < |c| :: c[k] < n
    ensures forall i, j | 0 <= i < j < |c| :: c[i] < c[j]
    ensures forall j | 0 <= j < n :: j in c <==> IsCandidate(p, h, recs[j])
  {
    if n == 0 then []
    else
      var c := Candidates(p, h, recs, n - 1);
      if IsCandidate(p, h, recs[n - 1]) then c + [n - 1] else c
  }

  /** The `firstSettledBlock` update on candidacy: set when unset, replaced
      when neither block descends from the other, kept otherwise. */
  function Relink(p: map<Hash, Hash>, h: Hash, fs: Hash): Hash
    requires Acyclic(p)
  {
    if fs == "" then h
    else if !IsDes(p, h, fs) && !IsDes(p, fs, h) then h
    else fs
  }

  /** What handling one candidate does: the updated record, the settled
      notification if any, and the checks it asks the chain client for. */
  datatype Step = Step(rec: TrackedTxn, note: Option<Note>, calls: seq<Call>)

  function SettleOne(api: Api, p: map<Hash, Hash>, h: Hash, body: seq<Tx>, t: TrackedTxn): (s: Step)
    requires Acyclic(p)
  {
    var t1 := t.(firstSettledBlock := Relink(p, h, t.firstSettledBlock));
    var tx := t.transaction;
    if tx in body then
      var ok := api.isTxSuccessful(h, tx);
      Step(t1.(firstSettledState := Some(ValidState(ok)), settledInBlocks := t.settledInBlocks + {h}),
           Some(SettledN(tx, Settled.Valid(h, ok))), [IsTxSuccessful(h, tx)])
    else if !api.isTxValid(h, tx) then
      Step(t1.(firstSettledState := Some(InvalidState), settledInBlocks := t.settledInBlocks + {h}),
           Some(SettledN(tx, Invalid(h))), [IsTxValid(h, tx)])
    else Step(t1, None, [IsTxValid(h, tx)])
  }

  /** The outcome rule for one candidate: included settles valid with the
      success flag and never asks `isTxValid`; excluded and invalid settles
      invalid; excluded and valid settles nothing. A settled record is marked
      settled at this hash; the first settling block is always truthy. */
  lemma SettleOneSpec(api: Api, p: map<Hash, Hash>, h: Hash, body: seq<Tx>, t: TrackedTxn)
    requires Acyclic(p)
    ensures var s := SettleOne(api, p, h, body, t);
            var tx := t.transaction;
            && s.rec.transaction == tx && s.rec.arrivalOrder == t.arrivalOrder && s.rec.done == t.done
            && s.rec.firstSettledBlock == Relink(p, h, t.firstSettledBlock)
            && (h != "" ==> s.rec.firstSettledBlock != "")
            && (tx in body ==> s.note == Some(SettledN(tx, Settled.Valid(h, api.isTxSuccessful(h, tx))))
                               && s.calls == [IsTxSuccessful(h, tx)])
            && (tx !in body ==> s.calls == [IsTxValid(h, tx)])
            && (tx !in body && !api.isTxValid(h, tx) ==> s.note == Some(SettledN(tx, Invalid(h))))
            && (tx !in body && api.isTxValid(h, tx) ==> s.note == None && s.rec.settledInBlocks == t.settledInBlocks)
            && (s.note.Some? ==> s.rec.settledInBlocks == t.settledInBlocks + {h}
                                 && s.note.value.s == Stamp(h, s.rec.firstSettledState))
  {
  }

  /** The `forEach` over the candidates: the records after it, the settled
      notifications with the position of the record each comes from, and the
      checks asked for (not counting the one body fetch). */
  datatype BlockPass = BlockPass(recs: seq<TrackedTxn>, notes: seq<Note>, from: seq<nat>, calls: seq<Call>)

  function SettlePass(api: Api, p: map<Hash, Hash>, h: Hash, body: seq<Tx>, recs: seq<TrackedTxn>, c: seq<nat>): (r: BlockPass)
    requires Acyclic(p)
    requires forall k | 0 <= k < |c| :: c[k] < |recs|
    ensures |r.recs| == |recs|
    decreases |c|
  {
    if c == [] then BlockPass(recs, [], [], [])
    else
      var prev := SettlePass(api, p, h, body, recs, c[..|c| - 1]);
      var j := c[|c| - 1];
      var s := SettleOne(api, p, h, body, prev.recs[j]);
      BlockPass(prev.recs[j := s.rec],
                prev.notes + (if s.note.Some? then [s.note.value] else []),
                prev.from + (if s.note.Some? then [j] else []),
                prev.calls + s.calls)
  }

  /** The settling pass touches exactly the candidates, each once, and its
      notifications come from distinct candidates in ascending position. */
  lemma SettlePassSpec(api: Api, p: map<Hash, Hash>, h: Hash, body: seq<Tx>, recs: seq<TrackedTxn>, c: seq<nat>)
    requires Acyclic(p)
    requires forall k | 0 <= k < |c| :: c[k] < |recs|
    requires forall a, b | 0 <= a < b < |c| :: c[a] < c[b]
    ensures var r := SettlePass(api, p, h, body, recs, c);
            && (forall j | 0 <= j < |recs| ::
                  r.recs[j] == if j in c then SettleOne(api, p, h, body, recs[j]).rec else recs[j])
            && |r.from| == |r.notes|
            && (forall k | 0 <= k < |r.from| ::
                  r.from[k] in c && SettleOne(api, p, h, body, recs[r.from[k]]).note == Some(r.notes[k]))
            && (forall a, b | 0 <= a < b < |r.from| :: r.from[a] < r.from[b])
            && (forall j | j in c && SettleOne(api, p, h, body, recs[j]).note.Some? :: j in r.from)
  {
    SettlePassRecords(api, p, h, body, recs, c);
    SettlePassNotes(api, p, h, body, recs, c);
  }

  /** Each candidate's record is replaced by what `SettleOne` makes of it;
      every other record is left alone. */
  lemma {:induction false} SettlePassRecords(api: Api, p: map<Hash, Hash>, h: Hash, body: seq<Tx>,
                                             recs: seq<TrackedTxn>, c: seq<nat>)
    requires Acyclic(p)
    requires forall k | 0 <= k < |c| :: c[k] < |recs|
    requires forall a, b | 0 <= a < b < |c| :: c[a] < c[b]
    ensures var r := SettlePass(api, p, h, body, recs, c);
            forall j | 0 <= j < |recs| ::
              r.recs[j] == if j in c then SettleOne(api, p, h, body, recs[j]).rec else recs[j]
    decreases |c|
  {
    if c != [] {
      var c0 := c[..|c| - 1];
      SettlePassRecords(api, p, h, body, recs, c0);
      var j := c[|c| - 1];
      assert forall k | 0 <= k < |c0| :: c0[k] < j;
      assert c == c0 + [j];
    }
  }

  /** A record that is not a candidate comes out of the pass as it went in. */
  lemma {:induction false} SettlePassUntouched(api: Api, p: map<Hash, Hash>, h: Hash, body: seq<Tx>,
                                               recs: seq<TrackedTxn>, c: seq<nat>, j: nat)
    requires Acyclic(p)
    requires forall k | 0 <= k < |c| :: c[k] < |recs|
    requires j < |recs| && forall k | 0 <= k < |c| :: c[k] < j
    ensures SettlePass(api, p, h, body, recs, c).recs[j] == recs[j]
    decreases |c|
  {
    if c != [] {
      SettlePassUntouched(api, p, h, body, recs, c[..|c| - 1], j);
    }
  }

  /** The settled notifications: one per candidate that `SettleOne` settles,
      in ascending position. */
  lemma {:induction false} SettlePassNotes(api: Api, p: map<Hash, Hash>, h: Hash, body: seq<Tx>,
                                           recs: seq<TrackedTxn>, c: seq<nat>)
    requires Acyclic(p)
    requires forall k | 0 <= k < |c| :: c[k] < |recs|
    requires forall a, b | 0 <= a < b < |c| :: c[a] < c[b]
    ensures var r := SettlePass(api, p, h, body, recs, c);
            && |r.from| == |r.notes|
            && (forall k | 0 <= k < |r.from| ::
                  r.from[k] in c && SettleOne(api, p, h, body, recs[r.from[k]]).note == Some(r.notes[k]))
            && (forall a, b | 0 <= a < b < |r.from| :: r.from[a] < r.from[b])
            && (forall j | j in c && SettleOne(api, p, h, body, recs[j]).note.Some? :: j in r.from)
    decreases |c|
  {
    if c != [] {
      var c0 := c[..|c| - 1];
      SettlePassNotes(api, p, h, body, recs, c0);
      var j := c[|c| - 1];
      assert forall k | 0 <= k < |c0| :: c0[k] < j;
      assert c == c0 + [j];
      SettlePassUntouched(api, p, h, body, recs, c0, j);
      var prev := SettlePass(api, p, h, body, recs, c0);
      var r := SettlePass(api, p, h, body, recs, c);
      var s := SettleOne(api, p, h, body, recs[j]);
      if s.note.Some? {
        assert r.notes == prev.notes + [s.note.value] && r.from == prev.from + [j];
        forall k | 0 <= k < |r.from|
          ensures r.from[k] in c && SettleOne(api, p, h, body, recs[r.from[k]]).note == Some(r.notes[k])
        {
          if k < |prev.from| {
            assert r.from[k] == prev.from[k] && r.notes[k] == prev.notes[k];
          }
        }
        forall a, b | 0 <= a < b < |r.from|
          ensures r.from[a] < r.from[b]
        {
          if b < |prev.from| {
            assert r.from[a] == prev.from[a] && r.from[b] == prev.from[b];
          } else {
            assert r.from[a] == prev.from[a] && prev.from[a] in c0;
          }
        }
      } else {
        assert r.notes == prev.notes && r.from == prev.from;
      }
    }
  }

  /** The records still waiting for `finalized`: not done, with a first
      settling block. Ascending positions among the first `n`. */
  function Unfinished(recs: seq<TrackedTxn>, n: nat): (c: seq<nat>)
    requires n <= |recs|
    ensures forall k | 0 <= k < |c| :: c[k] < n
    ensures forall i, j | 0 <= i < j < |c| :: c[i] < c[j]
    ensures forall j | 0 <= j < n :: j in c <==> !recs[j].done && recs[j].firstSettledBlock != ""
  {
    if n == 0 then []
    else
      var c := Unfinished(recs, n - 1);
      if !recs[n - 1].done && recs[n - 1].firstSettledBlock != "" then c + [n - 1] else c
  }

  /** The `forEach` of `finalized` over the waiting records. */
  datatype Sweep = Sweep(recs: seq<TrackedTxn>, notes: seq<Note>, from: seq<nat>)

  function DoneSweep(p: map<Hash, Hash>, h: Hash, recs: seq<TrackedTxn>, c: seq<nat>): (r: Sweep)
    requires Acyclic(p)
    requires forall k | 0 <= k < |c| :: c[k] < |recs|
    ensures |r.recs| == |recs|
    decreases |c|
  {
    if c == [] then Sweep(recs, [], [])
    else
      var prev := DoneSweep(p, h, recs, c[..|c| - 1]);
      var j := c[|c| - 1];
      var t := prev.recs[j];
      if IsDes(p, h, t.firstSettledBlock) then
        Sweep(prev.recs[j := t.(done := true)],
              prev.notes + [DoneN(t.transaction, Stamp(t.firstSettledBlock, t.firstSettledState))],
              prev.from + [j])
      else prev
  }

  /** A waiting record is marked done exactly when the finalized block is its
      first settling block or descends from it; nothing else changes. */
  lemma {:induction false} DoneSweepRecords(p: map<Hash, Hash>, h: Hash, recs: seq<TrackedTxn>, c: seq<nat>)
    requires Acyclic(p)
    requires forall k | 0 <= k < |c| :: c[k] < |recs|
    requires forall a, b | 0 <= a < b < |c| :: c[a] < c[b]
    ensures var r := DoneSweep(p, h, recs, c);
            forall j | 0 <= j < |recs| ::
              r.recs[j] == if j in c && IsDes(p, h, recs[j].firstSettledBlock) then recs[j].(done := true) else recs[j]
    decreases |c|
  {
    if c != [] {
      var c0 := c[..|c| - 1];
      DoneSweepRecords(p, h, recs, c0);
      var j := c[|c| - 1];
      assert forall k | 0 <= k < |c0| :: c0[k] < j;
      assert c == c0 + [j];
    }
  }

  /** A record that is not waiting comes out of the sweep as it went in. */
  lemma {:induction false} DoneSweepUntouched(p: map<Hash, Hash>, h: Hash, recs: seq<TrackedTxn>, c: seq<nat>, j: nat)
    requires Acyclic(p)
    requires forall k | 0 <= k < |c| :: c[k] < |recs|
    requires j < |recs| && forall k | 0 <= k < |c| :: c[k] < j
    ensures DoneSweep(p, h, recs, c).recs[j] == recs[j]
    decreases |c|
  {
    if c != [] {
      DoneSweepUntouched(p, h, recs, c[..|c| - 1], j);
    }
  }

  /** The done notifications: one per record marked done, reporting the
      record's first settling block and state, in ascending position. */
  lemma {:induction false} DoneSweepNotes(p: map<Hash, Hash>, h: Hash, recs: seq<TrackedTxn>, c: seq<nat>)
    requires Acyclic(p)
    requires forall k | 0 <= k < |c| :: c[k] < |recs|
    requires forall a, b | 0 <= a < b < |c| :: c[a] < c[b]
    ensures var r := DoneSweep(p, h, recs, c);
            && |r.from| == |r.notes|
            && (forall k | 0 <= k < |r.from| ::
                  && r.from[k] in c && IsDes(p, h, recs[r.from[k]].firstSettledBlock)
                  && r.notes[k] == DoneN(recs[r.from[k]].transaction,
                                         Stamp(recs[r.from[k]].firstSettledBlock, recs[r.from[k]].firstSettledState)))
            && (forall a, b | 0 <= a < b < |r.from| :: r.from[a] < r.from[b])
            && (forall j | j in c && IsDes(p, h, recs[j].firstSettledBlock) :: j in r.from)
    decreases |c|
  {
    if c != [] {
      var c0 := c[..|c| - 1];
      DoneSweepNotes(p, h, recs, c0);
      var j := c[|c| - 1];
      assert forall k | 0 <= k < |c0| :: c0[k] < j;
      assert c == c0 + [j];
      DoneSweepUntouched(p, h, recs, c0, j);
      var prev := DoneSweep(p, h, recs, c0);
      var r := DoneSweep(p, h, recs, c);
      if IsDes(p, h, recs[j].firstSettledBlock) {
        assert r.from == prev.from + [j];
        forall a, b | 0 <= a < b < |r.from|
          ensures r.from[a] < r.from[b]
        {
          if b < |prev.from| {
            assert r.from[a] == prev.from[a] && r.from[b] == prev.from[b];
          } else {
            assert r.from[a] == prev.from[a] && prev.from[a] in c0;
          }
        }
      } else {
        assert r.notes == prev.notes && r.from == prev.from;
      }
    }
  }

  /** Record `i` arrived `i`-th. */
  ghost predicate Arrivals(recs: seq<TrackedTxn>)
  {
    forall i | 0 <= i < |recs| :: recs[i].arrivalOrder == i
  }

  /** What the notifications so far say about the records: `from[k]` is the
      record notification `k` is about; a record is settled at most once per
      block hash and done at most once; a done record has a first settling
      block, and its done notification reports that block and its state. */
  ghost predicate Consistent(recs: seq<TrackedTxn>, trace: seq<Note>, from: seq<nat>)
  {
    && |from| == |trace|
    && (forall k | 0 <= k < |trace| ::
          && from[k] < |recs| && (trace[k].SettledN? || trace[k].DoneN?)
          && trace[k].tx == recs[from[k]].transaction)
    && (forall k | 0 <= k < |trace| && trace[k].SettledN? ::
          trace[k].s.blockHash in recs[from[k]].settledInBlocks)
    && (forall k | 0 <= k < |trace| && trace[k].DoneN? ::
          recs[from[k]].done
          && trace[k].s == Stamp(recs[from[k]].firstSettledBlock, recs[from[k]].firstSettledState))
    && (forall j | 0 <= j < |recs| && recs[j].done :: recs[j].firstSettledBlock != "")
    && (forall a, b | 0 <= a < b < |trace| && trace[a].SettledN? && trace[b].SettledN? && from[a] == from[b] ::
          trace[a].s.blockHash != trace[b].s.blockHash)
    && (forall a, b | 0 <= a < b < |trace| && trace[a].DoneN? && trace[b].DoneN? :: from[a] != from[b])
  }

  /** Consistency survives a step that only adds block hashes to the records'
      settled sets, leaves done records alone, and notifies, from distinct
      records in ascending position, settlements at hashes newly added. */
  lemma SettleExtend(recs: seq<TrackedTxn>, recs': seq<TrackedTxn>, trace: seq<Note>, from: seq<nat>,
                     notes: seq<Note>, nf: seq<nat>)
    requires Consistent(recs, trace, from) && |recs'| == |recs|
    requires forall j | 0 <= j < |recs| ::
               && recs'[j].transaction == recs[j].transaction && recs'[j].done == recs[j].done
               && recs[j].settledInBlocks <= recs'[j].settledInBlocks
               && (recs[j].done ==> recs'[j] == recs[j])
    requires |nf| == |notes|
    requires forall k | 0 <= k < |notes| ::
               && nf[k] < |recs| && notes[k].SettledN? && notes[k].tx == recs[nf[k]].transaction
               && notes[k].s.blockHash in recs'[nf[k]].settledInBlocks
               && notes[k].s.blockHash !in recs[nf[k]].settledInBlocks
    requires forall a, b | 0 <= a < b < |nf| :: nf[a] < nf[b]
    ensures Consistent(recs', trace + notes, from + nf)
  {
    var t', f' := trace + notes, from + nf;
    forall k | 0 <= k < |t'|
      ensures && f'[k] < |recs'| && (t'[k].SettledN? || t'[k].DoneN?)
              && t'[k].tx == recs'[f'[k]].transaction
    {
      if k >= |trace| {
        assert t'[k] == notes[k - |trace|] && f'[k] == nf[k - |trace|];
      }
    }
    forall a, b | 0 <= a < b < |t'| && t'[a].SettledN? && t'[b].SettledN?
      ensures f'[a] == f'[b] ==> t'[a].s.blockHash != t'[b].s.blockHash
    {
      if b >= |trace| && a < |trace| {
        assert t'[a] == trace[a] && f'[a] == from[a];
        assert t'[b] == notes[b - |trace|] && f'[b] == nf[b - |trace|];
      } else if a >= |trace| {
        assert f'[a] == nf[a - |trace|] && f'[b] == nf[b - |trace|];
      }
    }
  }

  /** Consistency survives a step that marks records done and notifies, from
      distinct records in ascending position, each of them exactly once with
      its first settling block and state. */
  lemma DoneExtend(recs: seq<TrackedTxn>, recs': seq<TrackedTxn>, trace: seq<Note>, from: seq<nat>,
                   notes: seq<Note>, nf: seq<nat>)
    requires Consistent(recs, trace, from) && |recs'| == |recs|
    requires forall j | 0 <= j < |recs| ::
               recs'[j] == recs[j] || (!recs[j].done && recs[j].firstSettledBlock != "" && recs'[j] == recs[j].(done := true))
    requires |nf| == |notes|
    requires forall k | 0 <= k < |notes| ::
               && nf[k] < |recs| && !recs[nf[k]].done && recs'[nf[k]].done
               && notes[k] == DoneN(recs[nf[k]].transaction,
                                    Stamp(recs[nf[k]].firstSettledBlock, recs[nf[k]].firstSettledState))
    requires forall a, b | 0 <= a < b < |nf| :: nf[a] < nf[b]
    ensures Consistent(recs', trace + notes, from + nf)
  {
    var t', f' := trace + notes, from + nf;
    forall k | 0 <= k < |t'|
      ensures && f'[k] < |recs'| && (t'[k].SettledN? || t'[k].DoneN?)
              && t'[k].tx == recs'[f'[k]].transaction
    {
      if k >= |trace| {
        assert t'[k] == notes[k - |trace|] && f'[k] == nf[k - |trace|];
      }
    }
    forall k | 0 <= k < |t'| && t'[k].DoneN?
      ensures recs'[f'[k]].done && t'[k].s == Stamp(recs'[f'[k]].firstSettledBlock, recs'[f'[k]].firstSettledState)
    {
      if k >= |trace| {
        assert t'[k] == notes[k - |trace|] && f'[k] == nf[k - |trace|];
      }
    }
    forall a, b | 0 <= a < b < |t'| && t'[a].DoneN? && t'[b].DoneN?
      ensures f'[a] != f'[b]
    {
      if b >= |trace| && a < |trace| {
        assert f'[a] == from[a] && f'[b] == nf[b - |trace|];
      } else if a >= |trace| {
        assert f'[a] == nf[a - |trace|] && f'[b] == nf[b - |trace|];
      }
    }
  }

  /** The settling pass of a `newBlock` keeps the records consistent with the
      notifications; every new notification is a settlement at this block. */
  lemma SettlePassKeepsConsistent(api: Api, p: map<Hash, Hash>, h: Hash, body: seq<Tx>,
                                  recs: seq<TrackedTxn>, trace: seq<Note>, from: seq<nat>)
    requires Acyclic(p) && Arrivals(recs) && Consistent(recs, trace, from)
    ensures var r := SettlePass(api, p, h, body, recs, Candidates(p, h, recs, |recs|));
            && Arrivals(r.recs) && Consistent(r.recs, trace + r.notes, from + r.from)
            && (forall n | n in r.notes :: n.SettledN? && n.s.blockHash == h)
  {
    var c := Candidates(p, h, recs, |recs|);
    var r := SettlePass(api, p, h, body, recs, c);
    SettlePassSpec(api, p, h, body, recs, c);
    forall j | 0 <= j < |recs|
      ensures && r.recs[j].transaction == recs[j].transaction
              && r.recs[j].arrivalOrder == recs[j].arrivalOrder
              && r.recs[j].done == recs[j].done
              && recs[j].settledInBlocks <= r.recs[j].settledInBlocks
              && (recs[j].done ==> r.recs[j] == recs[j])
    {
      SettleOneSpec(api, p, h, body, recs[j]);
    }
    forall k | 0 <= k < |r.notes|
      ensures && r.notes[k].SettledN? && r.notes[k].s.blockHash == h
              && r.notes[k].tx == recs[r.from[k]].transaction
              && h in r.recs[r.from[k]].settledInBlocks
              && h !in recs[r.from[k]].settledInBlocks
    {
      SettleOneSpec(api, p, h, body, recs[r.from[k]]);
    }
    SettleExtend(recs, r.recs, trace, from, r.notes, r.from);
  }

  /** What the tracker keeps across a `newBlock`: the settling pass over the
      candidates keeps the records consistent and numbered by arrival, makes
      only settled calls, in arrival order, and does nothing at all when
      there is no candidate. */
  lemma NewBlockKeeps(api: Api, p: map<Hash, Hash>, h: Hash, parent: Hash,
                      recs: seq<TrackedTxn>, trace: seq<Note>, from: seq<nat>)
    requires Acyclic(p) && Arrivals(recs) && Consistent(recs, trace, from)
    ensures var c := Candidates(p, h, recs, |recs|);
            var r := SettlePass(api, p, h, api.getBody(h), recs, c);
            && Arrivals(r.recs) && Consistent(r.recs, trace + r.notes, from + r.from)
            && NotesFor(NewBlock(h, parent), r.notes) && ArrivalOrdered(r.recs, r.from)
            && (c == [] ==> r == BlockPass(recs, [], [], []))
  {
    SettlePassKeepsConsistent(api, p, h, api.getBody(h), recs, trace, from);
    SettlePassArrivalOrdered(api, p, h, api.getBody(h), recs);
  }

  /** The sweep of a `finalized` keeps the records consistent with the
      notifications; every new notification is a done notification. */
  lemma DoneSweepKeepsConsistent(p: map<Hash, Hash>, h: Hash, recs: seq<TrackedTxn>, trace: seq<Note>, from: seq<nat>)
    requires Acyclic(p) && Arrivals(recs) && Consistent(recs, trace, from)
    ensures var r := DoneSweep(p, h, recs, Unfinished(recs, |recs|));
            && Arrivals(r.recs) && Consistent(r.recs, trace + r.notes, from + r.from)
            && (forall n | n in r.notes :: n.DoneN?)
  {
    var c := Unfinished(recs, |recs|);
    var r := DoneSweep(p, h, recs, c);
    DoneSweepRecords(p, h, recs, c);
    DoneSweepNotes(p, h, recs, c);
    DoneExtend(recs, r.recs, trace, from, r.notes, r.from);
  }

  /** A transaction that is valid but not in the body of the first block it
      meets is never notified settled, yet the block is recorded as its first
      settling block with no state; finalizing that block reports it done
      with a state that has no `type`. */
  lemma DoneWithoutSettlement(api: Api, p: map<Hash, Hash>, h: Hash, tx: Tx)
    requires Acyclic(p) && h != ""
    requires tx !in api.getBody(h) && api.isTxValid(h, tx)
    ensures var recs := [TrackedTxn(tx, 0, false, {}, "", None)];
            var r := SettlePass(api, p, h, api.getBody(h), recs, Candidates(p, h, recs, 1));
            && r.notes == []
            && DoneSweep(p, h, r.recs, Unfinished(r.recs, 1)).notes == [DoneN(tx, Untyped(h))]
  {
    UnsettledFirstMeeting(api, p, h, tx);
    FinalizeFirstMeeting(p, h, tx);
  }

  /** The settle half: no notification, and the block becomes the record's
      first settling block with no state. */
  lemma UnsettledFirstMeeting(api: Api, p: map<Hash, Hash>, h: Hash, tx: Tx)
    requires Acyclic(p) && h != ""
    requires tx !in api.getBody(h) && api.isTxValid(h, tx)
    ensures var recs := [TrackedTxn(tx, 0, false, {}, "", None)];
            var r := SettlePass(api, p, h, api.getBody(h), recs, Candidates(p, h, recs, 1));
            r.notes == [] && r.recs == [TrackedTxn(tx, 0, false, {}, h, None)]
  {
    var recs := [TrackedTxn(tx, 0, false, {}, "", None)];
    FreshRecordIsCandidate(p, h, recs[0]);
    var s := SettleOne(api, p, h, api.getBody(h), recs[0]);
    assert s == Step(TrackedTxn(tx, 0, false, {}, h, None), None, [IsTxValid(h, tx)]);
    var c: seq<nat> := [0];
    assert c[..0] == [];
    assert SettlePass(api, p, h, api.getBody(h), recs, []) == BlockPass(recs, [], [], []);
  }

  /** A fresh record is the one candidate of a lone arrival. */
  lemma FreshRecordIsCandidate(p: map<Hash, Hash>, h: Hash, t: TrackedTxn)
    requires Acyclic(p) && !t.done && t.settledInBlocks == {} && t.firstSettledBlock == ""
    ensures Candidates(p, h, [t], 1) == [0]
  {
    assert IsCandidate(p, h, t);
    assert Candidates(p, h, [t], 0) == [];
  }

  /** The finalize half: such a record is reported done at that block with a
      state that has no `type`. */
  lemma FinalizeFirstMeeting(p: map<Hash, Hash>, h: Hash, tx: Tx)
    requires Acyclic(p) && h != ""
    ensures var recs := [TrackedTxn(tx, 0, false, {}, h, None)];
            DoneSweep(p, h, recs, Unfinished(recs, 1)).notes == [DoneN(tx, Untyped(h))]
  {
    var recs := [TrackedTxn(tx, 0, false, {}, h, None)];
    assert Unfinished(recs, 0) == [];
    var w := Unfinished(recs, 1);
    assert w == [0];
    assert w[..0] == [];
    assert IsDes(p, h, h);
  }

  /** The records `nf` points at, in strictly increasing arrival order. */
  ghost predicate ArrivalOrdered(recs: seq<TrackedTxn>, nf: seq<nat>)
  {
    && (forall k | 0 <= k < |nf| :: nf[k] < |recs|)
    && (forall a, b | 0 <= a < b < |nf| :: recs[nf[a]].arrivalOrder < recs[nf[b]].arrivalOrder)
  }

  /** Settled notifications of one `newBlock` follow arrival order. */
  lemma SettlePassArrivalOrdered(api: Api, p: map<Hash, Hash>, h: Hash, body: seq<Tx>, recs: seq<TrackedTxn>)
    requires Acyclic(p) && Arrivals(recs)
    ensures var r := SettlePass(api, p, h, body, recs, Candidates(p, h, recs, |recs|));
            ArrivalOrdered(r.recs, r.from)
  {
    var c := Candidates(p, h, recs, |recs|);
    SettlePassSpec(api, p, h, body, recs, c);
    var r := SettlePass(api, p, h, body, recs, c);
    forall j | 0 <= j < |recs|
      ensures r.recs[j].arrivalOrder == j
    {
      SettleOneSpec(api, p, h, body, recs[j]);
    }
  }

  /** Done notifications of one `finalized` follow arrival order. */
  lemma DoneSweepArrivalOrdered(p: map<Hash, Hash>, h: Hash, recs: seq<TrackedTxn>)
    requires Acyclic(p) && Arrivals(recs)
    ensures var r := DoneSweep(p, h, recs, Unfinished(recs, |recs|));
            ArrivalOrdered(r.recs, r.from)
  {
    var c := Unfinished(recs, |recs|);
    DoneSweepRecords(p, h, recs, c);
    DoneSweepNotes(p, h, recs, c);
  }

  /** Where the candidate loop of `newBlock` stands after the first `k`
      candidates: records, notifications and checks are those of the settling
      pass over them, behind one body fetch once the loop has started. */
  ghost predicate PassState(api: Api, p: map<Hash, Hash>, h: Hash, recs0: seq<TrackedTxn>, c: seq<nat>, k: nat,
                            trace0: seq<Note>, from0: seq<nat>, calls0: seq<Call>,
                            recs: seq<TrackedTxn>, trace: seq<Note>, from: seq<nat>, calls: seq<Call>)
    requires Acyclic(p) && k <= |c| && forall i | 0 <= i < |c| :: c[i] < |recs0|
  {
    var r := SettlePass(api, p, h, api.getBody(h), recs0, c[..k]);
    && recs == r.recs && trace == trace0 + r.notes && from == from0 + r.from
    && calls == calls0 + (if k == 0 then [] else [GetBody(h)]) + r.calls
  }

  /** One step of that loop: the body is fetched before the first candidate,
      then the candidate is handled as `SettleOne` says. */
  lemma PassAdvance(api: Api, p: map<Hash, Hash>, h: Hash, recs0: seq<TrackedTxn>, c: seq<nat>, k: nat,
                    trace0: seq<Note>, from0: seq<nat>, calls0: seq<Call>,
                    recs: seq<TrackedTxn>, trace: seq<Note>, from: seq<nat>, calls: seq<Call>)
    requires Acyclic(p) && k < |c| && forall i | 0 <= i < |c| :: c[i] < |recs0|
    requires PassState(api, p, h, recs0, c, k, trace0, from0, calls0, recs, trace, from, calls)
    ensures c[k] < |recs|
    ensures var s := SettleOne(api, p, h, api.getBody(h), recs[c[k]]);
            PassState(api, p, h, recs0, c, k + 1, trace0, from0, calls0,
                      recs[c[k] := s.rec],
                      trace + (if s.note.Some? then [s.note.value] else []),
                      from + (if s.note.Some? then [c[k]] else []),
                      (if k == 0 then calls + [GetBody(h)] else calls) + s.calls)
  {
    assert c[..k + 1][..k] == c[..k];
    var r := SettlePass(api, p, h, api.getBody(h), recs0, c[..k]);
    var s := SettleOne(api, p, h, api.getBody(h), recs[c[k]]);
    if k == 0 {
      assert calls + [GetBody(h)] + s.calls == calls0 + [GetBody(h)] + (r.calls + s.calls);
    } else {
      assert calls + s.calls == calls0 + [GetBody(h)] + (r.calls + s.calls);
    }
  }

  /** Where the sweep loop of `finalized` stands after the first `k`
      waiting records: records and notifications are those of the sweep over
      them. */
  ghost predicate SweepState(p: map<Hash, Hash>, h: Hash, recs0: seq<TrackedTxn>, c: seq<nat>, k: nat,
                             trace0: seq<Note>, from0: seq<nat>,
                             recs: seq<TrackedTxn>, trace: seq<Note>, from: seq<nat>)
    requires Acyclic(p) && k <= |c| && forall i | 0 <= i < |c| :: c[i] < |recs0|
  {
    var r := DoneSweep(p, h, recs0, c[..k]);
    recs == r.recs && trace == trace0 + r.notes && from == from0 + r.from
  }

  /** One step of that loop: a record whose first settling block is the
      finalized block or one of its ancestors is reported done and marked;
      any other is left alone. */
  lemma SweepAdvance(p: map<Hash, Hash>, h: Hash, recs0: seq<TrackedTxn>, c: seq<nat>, k: nat,
                     trace0: seq<Note>, from0: seq<nat>,
                     recs: seq<TrackedTxn>, trace: seq<Note>, from: seq<nat>)
    requires Acyclic(p) && k < |c| && forall i | 0 <= i < |c| :: c[i] < |recs0|
    requires SweepState(p, h, recs0, c, k, trace0, from0, recs, trace, from)
    ensures c[k] < |recs|
    ensures var t := recs[c[k]];
            if IsDes(p, h, t.firstSettledBlock)
            then SweepState(p, h, recs0, c, k + 1, trace0, from0, recs[c[k] := t.(done := true)],
                            trace + [DoneN(t.transaction, Stamp(t.firstSettledBlock, t.firstSettledState))],
                            from + [c[k]])
            else SweepState(p, h, recs0, c, k + 1, trace0, from0, recs, trace, from)
  {
    assert c[..k + 1][..k] == c[..k];
  }

  /** What the tracker keeps across a `finalized`: the sweep keeps the
      records consistent and numbered by arrival and makes only done calls,
      in arrival order. */
  lemma FinalizedKeeps(p: map<Hash, Hash>, h: Hash, recs: seq<TrackedTxn>, trace: seq<Note>, from: seq<nat>)
    requires Acyclic(p) && Arrivals(recs) && Consistent(recs, trace, from)
    ensures var r := DoneSweep(p, h, recs, Unfinished(recs, |recs|));
            && Arrivals(r.recs) && Consistent(r.recs, trace + r.notes, from + r.from)
            && NotesFor(Finalized(h), r.notes) && ArrivalOrdered(r.recs, r.from)
  {
    DoneSweepKeepsConsistent(p, h, recs, trace, from);
    DoneSweepArrivalOrdered(p, h, recs);
  }

  class Tracker {
    /** The chain client the handler closes over. */
    const api: Api
    /** One record per `newTransaction`, in arrival order. */
    var trackedTxn: seq<TrackedTxn>
    var counter: nat
    /** The parent of every block announced so far. */
    var parentOf: map<Hash, Hash>
    /** Every call to `onTxSettled` / `onTxDone`, in order. */
    var trace: seq<Note>
    /** For each notification, the position of the record it is about. */
    ghost var from: seq<nat>
    /** Every call to the chain client's read side, in order. */
    ghost var calls: seq<Call>

    ghost predicate Valid()
      reads this
    {
      Acyclic(parentOf) && counter == |trackedTxn| && Arrivals(trackedTxn) && Consistent(trackedTxn, trace, from)
    }

    constructor (api: Api)
      ensures Valid() && this.api == api
      ensures trackedTxn == [] && counter == 0 && parentOf == map[] && trace == [] && from == [] && calls == []
    {
      this.api := api;
      trackedTxn, counter, parentOf, trace, from, calls := [], 0, map[], [], [], [];
      EmptyAcyclic();
    }

    /** `newTransaction`: a fresh record with the next arrival number, not
        done, settled nowhere. */
    method OnNewTx(transaction: Tx)
      requires Valid()
      modifies this
      ensures Valid()
      ensures trackedTxn == old(trackedTxn) + [TrackedTxn(transaction, old(counter), false, {}, "", None)]
      ensures counter == old(counter) + 1
      ensures parentOf == old(parentOf) && trace == old(trace) && from == old(from) && calls == old(calls)
    {
      trackedTxn := trackedTxn + [TrackedTxn(transaction, counter, false, {}, "", None)];
      counter := counter + 1;
    }

    /** `newBlock`: record the parent, then settle the candidates in arrival
        order, fetching the body once and only if there is a candidate. */
    method OnNewBlock(blockHash: Hash, parent: Hash)
      requires Valid()
      requires Acyclic(parentOf[blockHash := parent])
      modifies this
      ensures Valid()
      ensures parentOf == old(parentOf)[blockHash := parent] && counter == old(counter)
      ensures var c := Candidates(parentOf, blockHash, old(trackedTxn), |old(trackedTxn)|);
              var r := SettlePass(api, parentOf, blockHash, api.getBody(blockHash), old(trackedTxn), c);
              && trackedTxn == r.recs && trace == old(trace) + r.notes && from == old(from) + r.from
              && calls == old(calls) + (if c == [] then [] else [GetBody(blockHash)] + r.calls)
      ensures old(trace) <= trace && NotesFor(NewBlock(blockHash, parent), trace[|old(trace)|..])
      ensures old(from) <= from && ArrivalOrdered(trackedTxn, from[|old(from)|..])
    {
      parentOf := parentOf[blockHash := parent];
      var candidates := Candidates(parentOf, blockHash, trackedTxn, |trackedTxn|);
      ghost var recs0, trace0, from0, calls0 := trackedTxn, trace, from, calls;
      NewBlockKeeps(api, parentOf, blockHash, parent, recs0, trace0, from0);
      ghost var r := SettlePass(api, parentOf, blockHash, api.getBody(blockHash), recs0, candidates);
      SettleCandidates(blockHash, candidates);
      assert trace[|old(trace)|..] == r.notes;
      assert from[|old(from)|..] == r.from;
    }

    /** The `forEach` of `newBlock` over the candidates; the body is fetched
        before the first one, so not at all when there is none. */
    method SettleCandidates(blockHash: Hash, candidates: seq<nat>)
      requires Acyclic(parentOf)
      requires forall k | 0 <= k < |candidates| :: candidates[k] < |trackedTxn|
      modifies this
      ensures parentOf == old(parentOf) && counter == old(counter)
      ensures var r := SettlePass(api, parentOf, blockHash, api.getBody(blockHash), old(trackedTxn), candidates);
              && trackedTxn == r.recs && trace == old(trace) + r.notes && from == old(from) + r.from
              && calls == old(calls) + (if candidates == [] then [] else [GetBody(blockHash)] + r.calls)
    {
      ghost var recs0, trace0, from0, calls0 := trackedTxn, trace, from, calls;
      var body: Option<seq<Tx>> := None;
      for k := 0 to |candidates|
        invariant parentOf == old(parentOf) && counter == old(counter)
        invariant (k == 0 <==> body == None) && (k > 0 ==> body == Some(api.getBody(blockHash)))
        invariant PassState(api, parentOf, blockHash, recs0, candidates, k, trace0, from0, calls0,
                            trackedTxn, trace, from, calls)
      {
        PassAdvance(api, parentOf, blockHash, recs0, candidates, k, trace0, from0, calls0,
                    trackedTxn, trace, from, calls);
        if body.None? {
          var b := api.getBody(blockHash);
          body := Some(b);
          calls := calls + [GetBody(blockHash)];
        }
        HandleCandidate(blockHash, candidates[k], body.value);
      }
      assert candidates[..|candidates|] == candidates;
    }

    /** The first statements of that body: set the first settling block
        when unset, or move it here when neither block descends from the
        other. */
    method MoveFirstSettled(blockHash: Hash, t: TrackedTxn) returns (t': TrackedTxn)
      requires Acyclic(parentOf)
      ensures t' == t.(firstSettledBlock := Relink(parentOf, blockHash, t.firstSettledBlock))
    {
      t' := t;
      if t'.firstSettledBlock == "" {
        t' := t'.(firstSettledBlock := blockHash);
      } else {
        var fs := t'.firstSettledBlock;
        if !IsDes(parentOf, blockHash, fs) && !IsDes(parentOf, fs, blockHash) {
          t' := t'.(firstSettledBlock := blockHash);
        }
      }
    }

    /** The body of that `forEach` for one candidate, once the block body is
        known: move the first settling block, then settle valid if included,
        invalid if excluded and not valid. */
    method HandleCandidate(blockHash: Hash, j: nat, body: seq<Tx>)
      requires Acyclic(parentOf) && j < |trackedTxn|
      modifies this
      ensures parentOf == old(parentOf) && counter == old(counter)
      ensures var s := SettleOne(api, parentOf, blockHash, body, old(trackedTxn[j]));
              && trackedTxn == old(trackedTxn)[j := s.rec]
              && trace == old(trace) + (if s.note.Some? then [s.note.value] else [])
              && from == old(from) + (if s.note.Some? then [j] else [])
              && calls == old(calls) + s.calls
    {
      ghost var t0 := trackedTxn[j];
      ghost var s := SettleOne(api, parentOf, blockHash, body, t0);
      var tx := MoveFirstSettled(blockHash, trackedTxn[j]);
      var inBody := tx.transaction in body;
      if inBody {
        var successful := api.isTxSuccessful(blockHash, tx.transaction);
        calls := calls + [IsTxSuccessful(blockHash, tx.transaction)];
        tx := tx.(firstSettledState := Some(ValidState(successful)), settledInBlocks := tx.settledInBlocks + {blockHash});
        assert s == Step(tx, Some(SettledN(tx.transaction, Settled.Valid(blockHash, successful))),
                         [IsTxSuccessful(blockHash, tx.transaction)]);
        trace := trace + [SettledN(tx.transaction, Settled.Valid(blockHash, successful))];
        from := from + [j];
      } else {
        var valid := api.isTxValid(blockHash, tx.transaction);
        calls := calls + [IsTxValid(blockHash, tx.transaction)];
        if valid {
          assert s == Step(tx, None, [IsTxValid(blockHash, tx.transaction)]);
        } else {
          tx := tx.(firstSettledState := Some(InvalidState), settledInBlocks := tx.settledInBlocks + {blockHash});
          assert s == Step(tx, Some(SettledN(tx.transaction, Invalid(blockHash))), [IsTxValid(blockHash, tx.transaction)]);
          trace := trace + [SettledN(tx.transaction, Invalid(blockHash))];
          from := from + [j];
        }
      }
      trackedTxn := trackedTxn[j := tx];
    }

    /** `finalized`: every record not done and with a first settling block
        that the finalized block equals or descends from is reported done, in
        arrival order, with that block and its first state. */
    method OnFinalized(blockHash: Hash)
      requires Valid()
      modifies this
      ensures Valid()
      ensures parentOf == old(parentOf) && counter == old(counter) && calls == old(calls)
      ensures var r := DoneSweep(parentOf, blockHash, old(trackedTxn), Unfinished(old(trackedTxn), |old(trackedTxn)|));
              trackedTxn == r.recs && trace == old(trace) + r.notes && from == old(from) + r.from
      ensures old(trace) <= trace && NotesFor(Finalized(blockHash), trace[|old(trace)|..])
      ensures old(from) <= from && ArrivalOrdered(trackedTxn, from[|old(from)|..])
    {
      var waiting := Unfinished(trackedTxn, |trackedTxn|);
      ghost var recs0, trace0, from0 := trackedTxn, trace, from;
      for k := 0 to |waiting|
        invariant parentOf == old(parentOf) && counter == old(counter) && calls == old(calls)
        invariant SweepState(parentOf, blockHash, recs0, waiting, k, trace0, from0, trackedTxn, trace, from)
      {
        SweepAdvance(parentOf, blockHash, recs0, waiting, k, trace0, from0, trackedTxn, trace, from);
        var j := waiting[k];
        var tx := trackedTxn[j];
        var settled := tx.firstSettledBlock;
        if IsDes(parentOf, blockHash, settled) {
          trace := trace + [DoneN(tx.transaction, Stamp(settled, tx.firstSettledState))];
          from := from + [j];
          trackedTxn := trackedTxn[j := tx.(done := true)];
        }
      }
      assert waiting[..|waiting|] == waiting;
      FinalizedKeeps(parentOf, blockHash, recs0, trace0, from0);
      ghost var r := DoneSweep(parentOf, blockHash, recs0, waiting);
      assert from[|old(from)|..] == r.from;
      assert trace[|old(trace)|..] == r.notes;
    }

    /** The dispatcher: one handler per event kind. */
    method Dispatch(e: Event)
      requires Valid()
      requires e.NewBlock? ==> Acyclic(parentOf[e.blockHash := e.parent])
      modifies this
      ensures Valid()
      ensures old(trace) <= trace && NotesFor(e, trace[|old(trace)|..])
      ensures |trackedTxn| == |old(trackedTxn)| + (if e.NewTransaction? then 1 else 0)
    {
      match e
      case NewBlock(h, p) => OnNewBlock(h, p);
      case NewTransaction(tx) => OnNewTx(tx);
      case Finalized(h) => OnFinalized(h);
    }
  }
}
