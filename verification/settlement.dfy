/** The settle-at-a-block and done-at-a-block passes shared by the trackers that
    keep one settlement map per block hash (template, daficreatella25,
    jasonaw98, kalmndo, kanasjnr, prananda21, yoghantara08), the order in which
    they notify, and the ledger invariant that links their maps to the trace. */
module Settlement {
  import opened Types

  // ---------------------------------------------------------------------------
  // Arrival order

  /** Position of the first occurrence of `x` in `q` (JavaScript's `indexOf`). */
  function IndexOf<T(==)>(q: seq<T>, x: T): (i: nat)
    requires x in q
    ensures i < |q| && q[i] == x && x !in q[..i]
  {
    if q[0] == x then 0
    else
      var j := IndexOf(q[1..], x);
      assert q[..j + 1] == [q[0]] + q[1..][..j];
      j + 1
  }

  /** The first occurrence is the only position holding `x` with no earlier `x`. */
  lemma IndexOfUnique<T>(q: seq<T>, x: T, i: nat)
    requires i < |q| && q[i] == x && x !in q[..i]
    ensures IndexOf(q, x) == i
  {
    var r := IndexOf(q, x);
    assert forall k | 0 <= k < i :: q[..i][k] == q[k];
    assert forall k | 0 <= k < r :: q[..r][k] == q[k];
  }

  /** An element of a prefix has the same first position in the prefix as in
      the whole sequence. */
  lemma IndexOfPrefix<T>(q: seq<T>, k: nat, x: T)
    requires k <= |q| && x in q[..k]
    ensures IndexOf(q, x) == IndexOf(q[..k], x) < k
  {
    var j := IndexOf(q[..k], x);
    assert q[..k][..j] == q[..j];
    IndexOfUnique(q, x, j);
  }

  /** Every note names a transaction of `q`, and the notes follow the order of
      first arrival in `q` strictly, so no transaction is named twice. */
  ghost predicate InArrivalOrder(notes: seq<Note>, q: seq<Tx>)
  {
    (forall k | 0 <= k < |notes| :: !notes[k].UnpinN? && notes[k].tx in q) &&
    forall i, j | 0 <= i < j < |notes| :: IndexOf(q, notes[i].tx) < IndexOf(q, notes[j].tx)
  }

  /** Notes in arrival order name pairwise distinct transactions. */
  lemma ArrivalOrderDistinct(notes: seq<Note>, q: seq<Tx>, i: nat, j: nat)
    requires InArrivalOrder(notes, q) && i < j < |notes|
    ensures notes[i].tx != notes[j].tx
  {
  }

  /** Appending a note for the last element of `q`, which occurs nowhere before,
      keeps notes about a prefix of `q` in arrival order. */
  lemma ArrivalOrderExtend(notes: seq<Note>, q: seq<Tx>, n: Note)
    requires |q| > 0 && InArrivalOrder(notes, q[..|q| - 1])
    requires !n.UnpinN? && n.tx == q[|q| - 1] && n.tx !in q[..|q| - 1]
    ensures InArrivalOrder(notes + [n], q)
  {
    var q' := q[..|q| - 1];
    IndexOfUnique(q, n.tx, |q| - 1);
    forall k | 0 <= k < |notes|
      ensures IndexOf(q, notes[k].tx) == IndexOf(q', notes[k].tx) < |q| - 1
    {
      IndexOfPrefix(q, |q| - 1, notes[k].tx);
    }
    var r := notes + [n];
    forall i, j | 0 <= i < j < |r|
      ensures r[i].tx in q && r[j].tx in q && IndexOf(q, r[i].tx) < IndexOf(q, r[j].tx)
    {
      if j < |notes| {
        assert r[i] == notes[i] && r[j] == notes[j];
      }
    }
  }

  /** Notes about a prefix of `q` are in arrival order for `q` too. */
  lemma ArrivalOrderWiden(notes: seq<Note>, q: seq<Tx>)
    requires |q| > 0 && InArrivalOrder(notes, q[..|q| - 1])
    ensures InArrivalOrder(notes, q)
  {
    forall k | 0 <= k < |notes|
      ensures notes[k].tx in q && IndexOf(q, notes[k].tx) == IndexOf(q[..|q| - 1], notes[k].tx)
    {
      IndexOfPrefix(q, |q| - 1, notes[k].tx);
    }
  }

  // ---------------------------------------------------------------------------
  // Settling at a new block

  /** What a tracker of this family decides for `tx` at block `h` with body
      `body`: included and valid settles valid with the success flag, included
      and invalid or excluded and invalid settles invalid, and excluded but
      valid stays unsettled. */
  function Decide(api: Api, h: Hash, body: seq<Tx>, tx: Tx): (r: Option<Settled>)
    ensures r.Some? <==> tx in body || !api.isTxValid(h, tx)
    ensures r.Some? ==> !r.value.Untyped? && r.value.blockHash == h
    ensures r.Some? ==> (r.value.Valid? <==> tx in body && api.isTxValid(h, tx))
    ensures r.Some? && r.value.Valid? ==> r.value.successful == api.isTxSuccessful(h, tx)
  {
    if tx in body then
      if api.isTxValid(h, tx) then Some(Valid(h, api.isTxSuccessful(h, tx))) else Some(Invalid(h))
    else if !api.isTxValid(h, tx) then Some(Invalid(h))
    else None
  }

  /** The state a transaction is reported with by the trackers that judge it
      without its body: valid with the success flag when valid at the block,
      invalid otherwise. */
  function Judge(api: Api, h: Hash, tx: Tx): (s: Settled)
    ensures s.blockHash == h && !s.Untyped?
    ensures s.Valid? <==> api.isTxValid(h, tx)
    ensures s.Valid? ==> s.successful == api.isTxSuccessful(h, tx)
  {
    if api.isTxValid(h, tx) then Valid(h, api.isTxSuccessful(h, tx)) else Invalid(h)
  }

  /** The notifications of one pass and the block's settlement map after it. */
  datatype Pass = Pass(notes: seq<Note>, settled: map<Tx, Settled>)

  /** One block's pass over the arrival queue `q`, checking the block's map
      before each transaction: a transaction already in the map is skipped;
      otherwise it is stored and notified when `Decide` settles it. */
  function ScanBlock(api: Api, h: Hash, body: seq<Tx>, q: seq<Tx>, m: map<Tx, Settled>): (r: Pass)
    decreases |q|
  {
    if q == [] then Pass([], m)
    else
      var p := ScanBlock(api, h, body, q[..|q| - 1], m);
      var tx := q[|q| - 1];
      if tx in p.settled then p
      else match Decide(api, h, body, tx)
        case None => p
        case Some(s) => Pass(p.notes + [SettledN(tx, s)], p.settled[tx := s])
  }

  /** One step of the pass, as a loop over the queue takes it. */
  lemma ScanBlockStep(api: Api, h: Hash, body: seq<Tx>, q: seq<Tx>, i: nat, m: map<Tx, Settled>)
    requires i < |q|
    ensures var p := ScanBlock(api, h, body, q[..i], m);
            var d := Decide(api, h, body, q[i]);
            ScanBlock(api, h, body, q[..i + 1], m)
              == if q[i] in p.settled || d.None? then p
                 else Pass(p.notes + [SettledN(q[i], d.value)], p.settled[q[i] := d.value])
  {
    assert q[..i + 1][..i] == q[..i];
  }

  /** Where a settle loop stands after the first `i` queued transactions:
      the block's map and the calls made are those of a settle pass over that
      prefix. */
  ghost predicate ScanState(api: Api, h: Hash, body: seq<Tx>, q: seq<Tx>, i: nat, m0: map<Tx, Settled>,
                            t0: seq<Note>, m: map<Tx, Settled>, trace: seq<Note>)
    requires i <= |q|
  {
    var r := ScanBlock(api, h, body, q[..i], m0);
    m == r.settled && trace == t0 + r.notes
  }

  /** One step of a settle loop: a transaction already in the map, or one
      `Decide` leaves unsettled, changes nothing; any other is stored and
      notified with the state `Decide` gives. */
  lemma ScanAdvance(api: Api, h: Hash, body: seq<Tx>, q: seq<Tx>, i: nat, m0: map<Tx, Settled>,
                    t0: seq<Note>, m: map<Tx, Settled>, trace: seq<Note>)
    requires i < |q| && ScanState(api, h, body, q, i, m0, t0, m, trace)
    ensures var d := Decide(api, h, body, q[i]);
            if q[i] in m || d.None? then ScanState(api, h, body, q, i + 1, m0, t0, m, trace)
            else ScanState(api, h, body, q, i + 1, m0, t0, m[q[i] := d.value], trace + [SettledN(q[i], d.value)])
  {
    ScanBlockStep(api, h, body, q, i, m0);
  }

  /** What a settle pass does: it notifies, in arrival order, exactly the
      queued transactions not yet in the block's map that `Decide` settles,
      each with the state `Decide` gives, and stores exactly those states. */
  lemma {:induction false} ScanBlockSpec(api: Api, h: Hash, body: seq<Tx>, q: seq<Tx>, m: map<Tx, Settled>)
    ensures var r := ScanBlock(api, h, body, q, m);
      && (forall n | n in r.notes ::
            n.SettledN? && n.tx in q && n.tx !in m && n.tx in r.settled && r.settled[n.tx] == n.s
            && Decide(api, h, body, n.tx) == Some(n.s))
      && (forall tx | tx in m :: tx in r.settled && r.settled[tx] == m[tx])
      && (forall tx | tx in r.settled && tx !in m :: SettledN(tx, r.settled[tx]) in r.notes)
      && (forall tx | tx in q && tx !in m && Decide(api, h, body, tx).Some? :: tx in r.settled)
      && InArrivalOrder(r.notes, q)
    decreases |q|
  {
    if q != [] {
      var q' := q[..|q| - 1];
      ScanBlockSpec(api, h, body, q', m);
      var p := ScanBlock(api, h, body, q', m);
      var tx := q[|q| - 1];
      assert q == q' + [tx];
      ArrivalOrderWiden(p.notes, q);
      if tx !in p.settled && Decide(api, h, body, tx).Some? {
        ArrivalOrderExtend(p.notes, q, SettledN(tx, Decide(api, h, body, tx).value));
      }
    }
  }

  /** The state a candidate settles with: valid with the success flag when
      included and valid, invalid otherwise. */
  function Outcome(api: Api, h: Hash, body: seq<Tx>, tx: Tx): (s: Settled)
    ensures Decide(api, h, body, tx).Some? ==> Decide(api, h, body, tx) == Some(s)
  {
    if tx in body && api.isTxValid(h, tx) then Valid(h, api.isTxSuccessful(h, tx)) else Invalid(h)
  }

  /** The `filter` step of the filter-then-notify trackers: the queue entries,
      in queue order, that are not yet in the block's map and are included or
      invalid. The map is read once, before any entry is stored. */
  function Candidates(api: Api, h: Hash, body: seq<Tx>, q: seq<Tx>, m: map<Tx, Settled>): (c: seq<Tx>)
    decreases |q|
  {
    if q == [] then []
    else
      var c' := Candidates(api, h, body, q[..|q| - 1], m);
      var tx := q[|q| - 1];
      if tx !in m && Decide(api, h, body, tx).Some? then c' + [tx] else c'
  }

  /** The candidates are exactly the queued transactions not in the map that
      `Decide` settles, kept in queue order and without new duplicates. */
  lemma {:induction false} CandidatesSpec(api: Api, h: Hash, body: seq<Tx>, q: seq<Tx>, m: map<Tx, Settled>)
    ensures var c := Candidates(api, h, body, q, m);
      && (forall tx :: tx in c <==> tx in q && tx !in m && Decide(api, h, body, tx).Some?)
      && (NoDuplicates(q) ==> NoDuplicates(c))
    decreases |q|
  {
    if q != [] {
      var q' := q[..|q| - 1];
      assert q == q' + [q[|q| - 1]];
      CandidatesSpec(api, h, body, q', m);
    }
  }

  /** The `forEach` step of the filter-then-notify trackers: every candidate
      is stored and notified with its `Outcome`, with no second look at the map. */
  function SettleAll(api: Api, h: Hash, body: seq<Tx>, c: seq<Tx>, m: map<Tx, Settled>): (r: Pass)
    decreases |c|
  {
    if c == [] then Pass([], m)
    else
      var p := SettleAll(api, h, body, c[..|c| - 1], m);
      var tx := c[|c| - 1];
      var s := Outcome(api, h, body, tx);
      Pass(p.notes + [SettledN(tx, s)], p.settled[tx := s])
  }

  /** Every candidate, duplicates included, gets exactly one notification at
      its own position, and its state is stored. */
  lemma {:induction false} SettleAllSpec(api: Api, h: Hash, body: seq<Tx>, c: seq<Tx>, m: map<Tx, Settled>)
    ensures var r := SettleAll(api, h, body, c, m);
      && |r.notes| == |c|
      && (forall k | 0 <= k < |c| :: r.notes[k] == SettledN(c[k], Outcome(api, h, body, c[k])))
      && (forall tx | tx in c :: tx in r.settled && r.settled[tx] == Outcome(api, h, body, tx))
      && (forall tx | tx !in c :: tx in r.settled <==> tx in m)
    decreases |c|
  {
    if c != [] {
      var c' := c[..|c| - 1];
      assert c == c' + [c[|c| - 1]];
      SettleAllSpec(api, h, body, c', m);
    }
  }

  /** Filtering first and then notifying every candidate gives exactly the
      interleaved pass when the queue holds no duplicates. */
  lemma {:induction false} FilterThenSettleIsScan(api: Api, h: Hash, body: seq<Tx>, q: seq<Tx>, m: map<Tx, Settled>)
    requires NoDuplicates(q)
    ensures SettleAll(api, h, body, Candidates(api, h, body, q, m), m) == ScanBlock(api, h, body, q, m)
    decreases |q|
  {
    if q != [] {
      var q' := q[..|q| - 1];
      var tx := q[|q| - 1];
      assert NoDuplicates(q');
      FilterThenSettleIsScan(api, h, body, q', m);
      ScanBlockSpec(api, h, body, q', m);
      var c' := Candidates(api, h, body, q', m);
      var p := ScanBlock(api, h, body, q', m);
      assert forall k | 0 <= k < |q'| :: q'[k] == q[k] != tx;
      if tx !in m && Decide(api, h, body, tx).Some? {
        var c := c' + [tx];
        assert c[..|c| - 1] == c';
      } else {
      }
    }
  }

  /** With duplicates the two strategies differ: a transaction queued twice and
      invalid at the block is notified twice by filter-then-notify, once by the
      interleaved pass. */
  lemma FilterThenSettleRepeatsDuplicates(api: Api, h: Hash, tx: Tx)
    requires !api.isTxValid(h, tx)
    ensures SettleAll(api, h, [], Candidates(api, h, [], [tx, tx], map[]), map[]).notes
            == [SettledN(tx, Invalid(h)), SettledN(tx, Invalid(h))]
    ensures ScanBlock(api, h, [], [tx, tx], map[]).notes == [SettledN(tx, Invalid(h))]
  {
    assert [tx, tx][..1] == [tx];
    assert Candidates(api, h, [], [tx], map[]) == [tx];
    assert ScanBlock(api, h, [], [tx], map[]).settled == map[tx := Invalid(h)];
    var c := Candidates(api, h, [], [tx, tx], map[]);
    assert c == [tx, tx];
    assert c[..1] == [tx];
    assert [tx][..0] == [];
    assert SettleAll(api, h, [], [tx], map[]).notes == [SettledN(tx, Invalid(h))];
  }

  // ---------------------------------------------------------------------------
  // Done at a finalized block

  /** The notifications of one done pass and the done set after it. */
  datatype DonePass = DonePass(notes: seq<Note>, done: set<Tx>)

  /** The done pass over `q` against one block's settlement map: every entry
      stored in the map and not yet done is reported with its stored state and
      marked done. */
  function DoneScan(q: seq<Tx>, byBlock: map<Tx, Settled>, done: set<Tx>): (r: DonePass)
    decreases |q|
  {
    if q == [] then DonePass([], done)
    else
      var p := DoneScan(q[..|q| - 1], byBlock, done);
      var tx := q[|q| - 1];
      if tx in byBlock && tx !in p.done then DonePass(p.notes + [DoneN(tx, byBlock[tx])], p.done + {tx})
      else p
  }

  /** What a done pass does: it reports, in arrival order, exactly the queued
      transactions stored in the block's map and not done before, each with
      its stored state, and adds exactly those to the done set. */
  lemma {:induction false} DoneScanSpec(q: seq<Tx>, byBlock: map<Tx, Settled>, done: set<Tx>)
    ensures var r := DoneScan(q, byBlock, done);
      && (forall n | n in r.notes ::
            n.DoneN? && n.tx in q && n.tx in byBlock && byBlock[n.tx] == n.s && n.tx !in done)
      && (forall tx :: tx in r.done <==> tx in done || (tx in q && tx in byBlock))
      && (forall tx | tx in q && tx in byBlock && tx !in done :: DoneN(tx, byBlock[tx]) in r.notes)
      && InArrivalOrder(r.notes, q)
    decreases |q|
  {
    if q != [] {
      var q' := q[..|q| - 1];
      DoneScanSpec(q', byBlock, done);
      var p := DoneScan(q', byBlock, done);
      var tx := q[|q| - 1];
      assert q == q' + [tx];
      ArrivalOrderWiden(p.notes, q);
      if tx in byBlock && tx !in p.done {
        ArrivalOrderExtend(p.notes, q, DoneN(tx, byBlock[tx]));
      }
    }
  }

  // ---------------------------------------------------------------------------
  // The ledger invariant across events

  /** Each transaction gets at most one settled notification per block hash. */
  ghost predicate SettledOncePerBlock(trace: seq<Note>)
  {
    forall i, j | 0 <= i < j < |trace| && trace[i].SettledN? && trace[j].SettledN? && trace[i].tx == trace[j].tx ::
      trace[i].s.blockHash != trace[j].s.blockHash
  }

  /** Each transaction gets at most one done notification, ever. */
  ghost predicate DoneOnce(trace: seq<Note>)
  {
    forall i, j | 0 <= i < j < |trace| && trace[i].DoneN? && trace[j].DoneN? :: trace[i].tx != trace[j].tx
  }

  /** The invariant that ties the per-block settlement maps and the done set to
      the notifications: a state is stored under a block iff it was notified
      settled there; settled at most once per block; done at most once per
      transaction, only for transactions in the done set, and always with a
      state stored (hence notified settled) at that block. */
  ghost predicate Ledger(settledByBlock: map<Hash, map<Tx, Settled>>, done: set<Tx>, trace: seq<Note>)
  {
    && (forall h, tx | h in settledByBlock && tx in settledByBlock[h] ::
          settledByBlock[h][tx].blockHash == h && SettledN(tx, settledByBlock[h][tx]) in trace)
    && (forall n | n in trace && n.SettledN? ::
          n.s.blockHash in settledByBlock && n.tx in settledByBlock[n.s.blockHash]
          && settledByBlock[n.s.blockHash][n.tx] == n.s)
    && (forall n | n in trace && n.DoneN? ::
          n.tx in done && n.s.blockHash in settledByBlock && n.tx in settledByBlock[n.s.blockHash]
          && settledByBlock[n.s.blockHash][n.tx] == n.s)
    && (forall n | n in trace :: !n.UnpinN?)
    && SettledOncePerBlock(trace)
    && DoneOnce(trace)
  }

  /** The part of the ledger invariant one tracker can keep when other
      trackers write into the same maps: each of its settled and done notes
      agrees with the state stored under that note's block, each of its done
      notes names a done transaction, it emits no unpin, it settles a
      transaction at most once per block and reports it done at most once.
      A stored state need not come from a note of this tracker. */
  ghost predicate Agrees(settledByBlock: map<Hash, map<Tx, Settled>>, done: set<Tx>, trace: seq<Note>)
  {
    && (forall n | n in trace && n.SettledN? ::
          n.s.blockHash in settledByBlock && n.tx in settledByBlock[n.s.blockHash]
          && settledByBlock[n.s.blockHash][n.tx] == n.s)
    && (forall n | n in trace && n.DoneN? ::
          n.tx in done && n.s.blockHash in settledByBlock && n.tx in settledByBlock[n.s.blockHash]
          && settledByBlock[n.s.blockHash][n.tx] == n.s)
    && (forall n | n in trace :: !n.UnpinN?)
    && SettledOncePerBlock(trace)
    && DoneOnce(trace)
  }

  /** Nothing has happened yet. */
  lemma LedgerInit()
    ensures Ledger(map[], {}, [])
  {
  }

  /** Done implies settled: under the ledger invariant every done notification
      repeats a settled notification of the same transaction and state that
      came before it in the trace. */
  lemma {:induction false} DoneImpliesSettled(sbb: map<Hash, map<Tx, Settled>>, done: set<Tx>, trace: seq<Note>, n: Note)
    requires Ledger(sbb, done, trace) && n in trace && n.DoneN?
    ensures SettledN(n.tx, n.s) in trace
  {
    assert sbb[n.s.blockHash][n.tx] == n.s;
  }

  /** Storing twice under one key keeps only the second value. */
  lemma StoreTwice<V>(m: map<Hash, V>, h: Hash, first: V, second: V)
    ensures m[h := first][h := second] == m[h := second]
  {
  }

  /** The block map a tracker of this family uses at `h` (created empty when
      missing). */
  function BlockMap(sbb: map<Hash, map<Tx, Settled>>, h: Hash): (m: map<Tx, Settled>)
    ensures h !in sbb ==> m == map[]
    ensures h in sbb ==> m == sbb[h]
  {
    if h in sbb then sbb[h] else map[]
  }

  /** A settle pass keeps the ledger invariant. */
  lemma {:induction false} LedgerAfterSettle(sbb: map<Hash, map<Tx, Settled>>, done: set<Tx>, trace: seq<Note>,
                                             h: Hash, q: seq<Tx>, r: Pass, m: map<Tx, Settled>)
    requires Ledger(sbb, done, trace)
    requires m == BlockMap(sbb, h)
    requires forall n | n in r.notes ::
      n.SettledN? && n.tx !in m && n.tx in r.settled && r.settled[n.tx] == n.s && n.s.blockHash == h
    requires forall tx | tx in m :: tx in r.settled && r.settled[tx] == m[tx]
    requires forall tx | tx in r.settled && tx !in m :: SettledN(tx, r.settled[tx]) in r.notes
    requires InArrivalOrder(r.notes, q)
    ensures Ledger(sbb[h := r.settled], done, trace + r.notes)
  {
    var sbb': map<Hash, map<Tx, Settled>> := sbb[h := r.settled];
    var t := trace + r.notes;
    forall h', tx | h' in sbb' && tx in sbb'[h']
      ensures sbb'[h'][tx].blockHash == h' && SettledN(tx, sbb'[h'][tx]) in t
    {
      if h' == h {
        if tx in m {
          assert SettledN(tx, sbb[h][tx]) in trace;
        } else {
          assert SettledN(tx, r.settled[tx]) in r.notes;
        }
      } else {
        assert SettledN(tx, sbb[h'][tx]) in trace;
      }
    }
    forall n | n in t && (n.SettledN? || n.DoneN?)
      ensures n.s.blockHash in sbb' && n.tx in sbb'[n.s.blockHash] && sbb'[n.s.blockHash][n.tx] == n.s
    {
      if n in trace {
        if n.s.blockHash == h {
          assert n.tx in m;
        }
      }
    }
    OnceAfterSettle(sbb, done, trace, h, q, r.notes, m);
  }

  /** Settled notes for transactions the block's map lacks, in arrival
      order, keep every transaction settled once per block and done once. */
  lemma OnceAfterSettle(sbb: map<Hash, map<Tx, Settled>>, done: set<Tx>, trace: seq<Note>,
                        h: Hash, q: seq<Tx>, notes: seq<Note>, m: map<Tx, Settled>)
    requires Agrees(sbb, done, trace)
    requires m == BlockMap(sbb, h)
    requires forall n | n in notes :: n.SettledN? && n.tx !in m && n.s.blockHash == h
    requires InArrivalOrder(notes, q)
    ensures SettledOncePerBlock(trace + notes) && DoneOnce(trace + notes)
  {
    var t := trace + notes;
    assert forall k | |trace| <= k < |t| :: t[k] == notes[k - |trace|] && t[k] in notes;
    forall i, j | 0 <= i < j < |t| && t[i].SettledN? && t[j].SettledN?
      ensures t[i].tx == t[j].tx ==> t[i].s.blockHash != t[j].s.blockHash
    {
      if j < |trace| {
        assert t[i] == trace[i] && t[j] == trace[j];
      } else if i < |trace| {
        assert t[i] in trace;
      } else {
        ArrivalOrderDistinct(notes, q, i - |trace|, j - |trace|);
      }
    }
    forall i, j | 0 <= i < j < |t| && t[i].DoneN? && t[j].DoneN?
      ensures t[i].tx != t[j].tx
    {
      assert t[i] == trace[i] && t[j] == trace[j];
    }
  }

  /** A settle pass of this family (interleaved check-and-store over the queue
      against the block's map) keeps the ledger invariant and emits only
      settled notifications. */
  lemma SettlePassKeepsLedger(api: Api, h: Hash, body: seq<Tx>, q: seq<Tx>,
                              sbb: map<Hash, map<Tx, Settled>>, done: set<Tx>, trace: seq<Note>)
    requires Ledger(sbb, done, trace)
    ensures var r := ScanBlock(api, h, body, q, BlockMap(sbb, h));
      && Ledger(sbb[h := r.settled], done, trace + r.notes)
      && (forall n | n in r.notes :: n.SettledN? && n.s.blockHash == h)
  {
    var m := BlockMap(sbb, h);
    ScanBlockSpec(api, h, body, q, m);
    LedgerAfterSettle(sbb, done, trace, h, q, ScanBlock(api, h, body, q, m), m);
  }

  /** The filter-then-notify pass over a duplicate-free queue keeps the ledger
      invariant and emits only settled notifications. */
  lemma FilterPassKeepsLedger(api: Api, h: Hash, body: seq<Tx>, q: seq<Tx>,
                              sbb: map<Hash, map<Tx, Settled>>, done: set<Tx>, trace: seq<Note>)
    requires Ledger(sbb, done, trace) && NoDuplicates(q)
    ensures var r := SettleAll(api, h, body, Candidates(api, h, body, q, BlockMap(sbb, h)), BlockMap(sbb, h));
      && r == ScanBlock(api, h, body, q, BlockMap(sbb, h))
      && Ledger(sbb[h := r.settled], done, trace + r.notes)
      && (forall n | n in r.notes :: n.SettledN? && n.s.blockHash == h)
  {
    FilterThenSettleIsScan(api, h, body, q, BlockMap(sbb, h));
    SettlePassKeepsLedger(api, h, body, q, sbb, done, trace);
  }

  /** A done pass against a stored block map keeps the ledger invariant and
      emits only done notifications. */
  lemma DonePassKeepsLedger(q: seq<Tx>, sbb: map<Hash, map<Tx, Settled>>, h: Hash, done: set<Tx>, trace: seq<Note>)
    requires Ledger(sbb, done, trace) && h in sbb
    ensures var r := DoneScan(q, sbb[h], done);
      && Ledger(sbb, r.done, trace + r.notes)
      && (forall n | n in r.notes :: n.DoneN?)
  {
    DoneScanSpec(q, sbb[h], done);
    LedgerAfterDone(sbb, done, trace, h, q, DoneScan(q, sbb[h], done));
  }

  /** Where a done loop stands after the first `i` queued transactions: the
      done set and the calls made are those of a done pass over that prefix. */
  ghost predicate DoneState(q: seq<Tx>, i: nat, byBlock: map<Tx, Settled>, d0: set<Tx>, t0: seq<Note>,
                            done: set<Tx>, trace: seq<Note>)
    requires i <= |q|
  {
    var r := DoneScan(q[..i], byBlock, d0);
    done == r.done && trace == t0 + r.notes
  }

  /** One step of a done loop: a transaction stored in the block's map and not
      yet done is marked done and reported; any other changes nothing. */
  lemma DoneAdvance(q: seq<Tx>, i: nat, byBlock: map<Tx, Settled>, d0: set<Tx>, t0: seq<Note>,
                    done: set<Tx>, trace: seq<Note>)
    requires i < |q| && DoneState(q, i, byBlock, d0, t0, done, trace)
    ensures var tx := q[i];
            if tx in byBlock && tx !in done
            then DoneState(q, i + 1, byBlock, d0, t0, done + {tx}, trace + [DoneN(tx, byBlock[tx])])
            else DoneState(q, i + 1, byBlock, d0, t0, done, trace)
  {
    assert q[..i + 1][..i] == q[..i];
  }

  /** A finished done loop against the finalized block's map: it made the
      calls of the done pass over the whole queue, all of them done calls, and
      the ledger invariant still holds. */
  lemma DoneFinish(q: seq<Tx>, sbb: map<Hash, map<Tx, Settled>>, h: Hash, d0: set<Tx>, t0: seq<Note>,
                   done: set<Tx>, trace: seq<Note>)
    requires Ledger(sbb, d0, t0) && h in sbb && DoneState(q, |q|, sbb[h], d0, t0, done, trace)
    ensures var r := DoneScan(q, sbb[h], d0);
            && done == r.done && trace == t0 + r.notes
            && Ledger(sbb, done, trace)
            && t0 <= trace && NotesFor(Finalized(h), trace[|t0|..])
  {
    assert q[..|q|] == q;
    DonePassKeepsLedger(q, sbb, h, d0, t0);
    assert trace[|t0|..] == DoneScan(q, sbb[h], d0).notes;
  }

  /** A done pass against the finalized block's map keeps the ledger invariant. */
  lemma {:induction false} LedgerAfterDone(sbb: map<Hash, map<Tx, Settled>>, done: set<Tx>, trace: seq<Note>,
                                           h: Hash, q: seq<Tx>, r: DonePass)
    requires Ledger(sbb, done, trace) && h in sbb
    requires forall n | n in r.notes :: n.DoneN? && n.tx in sbb[h] && sbb[h][n.tx] == n.s && n.tx !in done
    requires forall tx :: tx in r.done <==> tx in done || (tx in q && tx in sbb[h])
    requires InArrivalOrder(r.notes, q)
    ensures Ledger(sbb, r.done, trace + r.notes)
  {
    var t := trace + r.notes;
    forall n | n in t && n.DoneN?
      ensures n.tx in r.done && n.s.blockHash in sbb && n.tx in sbb[n.s.blockHash] && sbb[n.s.blockHash][n.tx] == n.s
    {
      if n in r.notes {
        assert sbb[h][n.tx].blockHash == h;
      }
    }
    assert forall k | |trace| <= k < |t| :: t[k] == r.notes[k - |trace|] && t[k] in r.notes;
    forall i, j | 0 <= i < j < |t| && t[i].SettledN? && t[j].SettledN? && t[i].tx == t[j].tx
      ensures t[i].s.blockHash != t[j].s.blockHash
    {
      assert t[i] == trace[i] && t[j] == trace[j];
    }
    forall i, j | 0 <= i < j < |t| && t[i].DoneN? && t[j].DoneN?
      ensures t[i].tx != t[j].tx
    {
      if j < |trace| {
        assert t[i] == trace[i] && t[j] == trace[j];
      } else if i < |trace| {
        assert t[i] in trace;
      } else {
        ArrivalOrderDistinct(r.notes, q, i - |trace|, j - |trace|);
      }
    }
  }
}
