/** src/solutions/emibotti.ts: one array of transactions, walked by index in
    both handlers while entries are spliced out of it. A new block notifies
    every visited transaction valid at the block and splices out the invalid
    ones; a finalized block reports every visited transaction successful
    there as done and splices it out. The body is fetched and ignored. */
module Emibotti {
  import opened Types
  import opened Settlement

  /** Which handler walks the array. */
  datatype Mode = NewBlockWalk | FinalizedWalk

  /** Whether the walk splices `tx` out: invalid at a new block, successful
      at a finalized one. */
  predicate Drops(api: Api, h: Hash, mode: Mode, tx: Tx)
  {
    match mode
    case NewBlockWalk => !api.isTxValid(h, tx)
    case FinalizedWalk => api.isTxSuccessful(h, tx)
  }

  /** What a walk leaves in the array and the transactions it visited. */
  datatype Walk = Walk(queue: seq<Tx>, visited: seq<Tx>)

  /** `for (const tx of transactions)` from index `i`: the iterator reads the
      entry at `i` and moves to `i + 1`; a dropped entry is spliced out at
      its first occurrence, so the entry that shifts into its place is not
      visited. The walk ends once the index reaches the length. */
  function Scan(api: Api, h: Hash, mode: Mode, q: seq<Tx>, i: nat): (r: Walk)
    requires i <= |q| + 1
    decreases |q| + 1 - i
  {
    if i >= |q| then Walk(q, [])
    else
      var tx := q[i];
      if Drops(api, h, mode, tx) then
        var rest := Scan(api, h, mode, Spliced(q, tx), i + 1);
        Walk(rest.queue, [tx] + rest.visited)
      else
        var rest := Scan(api, h, mode, q, i + 1);
        Walk(rest.queue, [tx] + rest.visited)
  }

  /** What one dropped visit leaves: the first occurrence spliced out. */
  function Spliced(q: seq<Tx>, tx: Tx): (r: seq<Tx>)
    requires tx in q
    ensures multiset(r) == multiset(q) - multiset{tx}
  {
    var j := IndexOf(q, tx);
    assert q == q[..j] + [tx] + q[j + 1..];
    RemoveAt(q, j)
  }

  /** The array after one visit. */
  function AfterVisit(api: Api, h: Hash, mode: Mode, q: seq<Tx>, tx: Tx): seq<Tx>
    requires tx in q
  {
    if Drops(api, h, mode, tx) then Spliced(q, tx) else q
  }

  /** One visit, then the rest of the walk. */
  lemma ScanStep(api: Api, h: Hash, mode: Mode, q: seq<Tx>, i: nat, before: seq<Tx>)
    requires i < |q|
    ensures var rest := Scan(api, h, mode, AfterVisit(api, h, mode, q, q[i]), i + 1);
            && Scan(api, h, mode, q, i).queue == rest.queue
            && before + Scan(api, h, mode, q, i).visited == (before + [q[i]]) + rest.visited
  {
  }

  /** A walk only removes entries, and visits entries of the array only. */
  lemma {:induction false} ScanShrinks(api: Api, h: Hash, mode: Mode, q: seq<Tx>, i: nat)
    requires i <= |q| + 1
    ensures var r := Scan(api, h, mode, q, i);
            multiset(r.queue) <= multiset(q) && forall t | t in r.visited :: t in q
    decreases |q| + 1 - i
  {
    if i < |q| {
      var q' := AfterVisit(api, h, mode, q, q[i]);
      ScanShrinks(api, h, mode, q', i + 1);
      ScanStep(api, h, mode, q, i, []);
      var r' := Scan(api, h, mode, q', i + 1);
      assert multiset(q') <= multiset(q);
      forall t | t in r'.visited ensures t in q {
        assert t in multiset(q');
      }
    }
  }

  /** A transaction the walk does not drop keeps its count; one it drops
      loses one entry per visit. */
  lemma {:induction false} ScanCount(api: Api, h: Hash, mode: Mode, q: seq<Tx>, i: nat, t: Tx)
    requires i <= |q| + 1
    ensures var r := Scan(api, h, mode, q, i);
            if Drops(api, h, mode, t) then multiset(r.queue)[t] + multiset(r.visited)[t] == multiset(q)[t]
            else multiset(r.queue)[t] == multiset(q)[t]
    decreases |q| + 1 - i
  {
    if i < |q| {
      var tx := q[i];
      var q' := AfterVisit(api, h, mode, q, tx);
      ScanCount(api, h, mode, q', i + 1, t);
      ScanStep(api, h, mode, q, i, []);
      var rest := Scan(api, h, mode, q', i + 1);
      var r := Scan(api, h, mode, q, i);
      assert r.queue == rest.queue && r.visited == [tx] + rest.visited;
      assert multiset(r.visited)[t] == multiset(rest.visited)[t] + if tx == t then 1 else 0;
      assert multiset(q')[t] == multiset(q)[t] - if Drops(api, h, mode, tx) && tx == t then 1 else 0;
    }
  }

  /** When no entry is dropped, the walk visits every entry from `i` on and
      leaves the array as it was. */
  lemma {:induction false} ScanKeepsAll(api: Api, h: Hash, mode: Mode, q: seq<Tx>, i: nat)
    requires i <= |q| && forall t | t in q :: !Drops(api, h, mode, t)
    ensures Scan(api, h, mode, q, i) == Walk(q, q[i..])
    decreases |q| - i
  {
    if i < |q| {
      ScanKeepsAll(api, h, mode, q, i + 1);
      assert q[i..] == [q[i]] + q[i + 1..];
    }
  }

  /** The splice skips: of two distinct entries both dropped, the second
      shifts into the first one's slot, is never visited and stays. */
  lemma ScanSkipsShiftedEntry(api: Api, h: Hash, mode: Mode, a: Tx, b: Tx)
    requires a != b && Drops(api, h, mode, a) && Drops(api, h, mode, b)
    ensures Scan(api, h, mode, [a, b], 0) == Walk([b], [a])
  {
    assert Spliced([a, b], a) == [b];
  }

  /** The notes one visit emits: at a new block, a valid one with the
      success flag when valid; at a finalized block, a valid-and-successful
      done when successful. */
  function EmitOne(api: Api, h: Hash, mode: Mode, tx: Tx): (notes: seq<Note>)
  {
    match mode
    case NewBlockWalk =>
      if api.isTxValid(h, tx) then [SettledN(tx, Valid(h, api.isTxSuccessful(h, tx)))] else []
    case FinalizedWalk =>
      if api.isTxSuccessful(h, tx) then [DoneN(tx, Valid(h, true))] else []
  }

  /** The notes of a walk, in visiting order. */
  function Emitted(api: Api, h: Hash, mode: Mode, visited: seq<Tx>): (notes: seq<Note>)
    decreases |visited|
  {
    if visited == [] then []
    else Emitted(api, h, mode, visited[..|visited| - 1]) + EmitOne(api, h, mode, visited[|visited| - 1])
  }

  /** The state of the walking loop at index `i`, with `visited` seen so
      far, on its way to the whole walk `target`. */
  ghost predicate WalkState(api: Api, h: Hash, mode: Mode, target: Walk, t0: seq<Note>,
                            q: seq<Tx>, i: nat, visited: seq<Tx>, trace: seq<Note>)
    requires i <= |q| + 1
  {
    var r := Scan(api, h, mode, q, i);
    && r.queue == target.queue && visited + r.visited == target.visited
    && trace == t0 + Emitted(api, h, mode, visited)
  }

  lemma WalkAdvance(api: Api, h: Hash, mode: Mode, target: Walk, t0: seq<Note>,
                    q: seq<Tx>, i: nat, visited: seq<Tx>, trace: seq<Note>)
    requires i < |q| && WalkState(api, h, mode, target, t0, q, i, visited, trace)
    ensures var q' := AfterVisit(api, h, mode, q, q[i]);
            i + 1 <= |q'| + 1 &&
            WalkState(api, h, mode, target, t0, q', i + 1, visited + [q[i]], trace + EmitOne(api, h, mode, q[i]))
  {
    ScanStep(api, h, mode, q, i, visited);
    assert (visited + [q[i]])[..|visited|] == visited;
  }

  /** A note a walk may emit for a visited transaction. */
  ghost predicate Emits(api: Api, h: Hash, mode: Mode, n: Note)
  {
    match mode
    case NewBlockWalk => n.SettledN? && api.isTxValid(h, n.tx) && n.s == Valid(h, api.isTxSuccessful(h, n.tx))
    case FinalizedWalk => n.DoneN? && api.isTxSuccessful(h, n.tx) && n.s == Valid(h, true)
  }

  /** Every note names a visited transaction: a valid one notified with its
      success flag at a new block, a successful one reported done at a
      finalized block. */
  lemma {:induction false} EmittedShape(api: Api, h: Hash, mode: Mode, visited: seq<Tx>)
    ensures forall n | n in Emitted(api, h, mode, visited) :: !n.UnpinN? && n.tx in visited && Emits(api, h, mode, n)
    decreases |visited|
  {
    if visited != [] {
      var v' := visited[..|visited| - 1];
      assert visited == v' + [visited[|visited| - 1]];
      EmittedShape(api, h, mode, v');
    }
  }

  /** A transaction is named once per visit when it emits, never otherwise:
      exactly the valid visits at a new block and the dropped visits at a
      finalized block. */
  lemma {:induction false} EmittedCount(api: Api, h: Hash, mode: Mode, visited: seq<Tx>, tx: Tx)
    ensures Mentions(Emitted(api, h, mode, visited), tx)
            == if Drops(api, h, mode, tx) == (mode == NewBlockWalk) then 0 else multiset(visited)[tx]
    decreases |visited|
  {
    if visited != [] {
      var v' := visited[..|visited| - 1];
      var x := visited[|visited| - 1];
      assert visited == v' + [x];
      EmittedCount(api, h, mode, v', tx);
      var one := EmitOne(api, h, mode, x);
      assert Emitted(api, h, mode, visited) == Emitted(api, h, mode, v') + one;
      MentionsConcat(Emitted(api, h, mode, v'), one, tx);
      EmitOneMentions(api, h, mode, x, tx);
      assert multiset(visited)[tx] == multiset(v')[tx] + if x == tx then 1 else 0;
    }
  }

  /** One visit names `tx` once when it is `tx` and emits, never otherwise. */
  lemma EmitOneMentions(api: Api, h: Hash, mode: Mode, x: Tx, tx: Tx)
    ensures Mentions(EmitOne(api, h, mode, x), tx)
            == if x == tx && Drops(api, h, mode, x) != (mode == NewBlockWalk) then 1 else 0
  {
    var one := EmitOne(api, h, mode, x);
    if one != [] {
      assert one[..0] == [];
    }
  }

  /** If every tracked transaction is valid at the block, the block removes
      nothing and notifies each of them again, once per entry. */
  lemma ValidTxsRenotified(api: Api, h: Hash, q: seq<Tx>)
    requires forall t | t in q :: api.isTxValid(h, t)
    ensures Scan(api, h, NewBlockWalk, q, 0) == Walk(q, q)
    ensures forall t | t in q :: Mentions(Emitted(api, h, NewBlockWalk, q), t) == multiset(q)[t]
  {
    ScanKeepsAll(api, h, NewBlockWalk, q, 0);
    assert q[0..] == q;
    forall t | t in q ensures Mentions(Emitted(api, h, NewBlockWalk, q), t) == multiset(q)[t] {
      EmittedCount(api, h, NewBlockWalk, q, t);
    }
  }

  class Tracker {
    const api: Api
    var transactions: seq<Tx>
    /** Every call to `onTxSettled` / `onTxDone`, in order. */
    var trace: seq<Note>

    constructor (api: Api)
      ensures this.api == api && transactions == [] && trace == []
    {
      this.api := api;
      transactions, trace := [], [];
    }

    /** `onNewBlock`: fetch the body (unused), then walk the array. */
    method OnNewBlock(blockHash: Hash, parent: Hash)
      modifies this
      ensures var r := Scan(api, blockHash, NewBlockWalk, old(transactions), 0);
              transactions == r.queue && trace == old(trace) + Emitted(api, blockHash, NewBlockWalk, r.visited)
    {
      var _ := api.getBody(blockHash);
      WalkArray(blockHash, NewBlockWalk);
    }

    /** `onNewTx`: append, duplicates included. */
    method OnNewTx(transaction: Tx)
      modifies this`transactions
      ensures transactions == old(transactions) + [transaction]
    {
      transactions := transactions + [transaction];
    }

    /** `onFinalized`: walk the array. */
    method OnFinalized(blockHash: Hash)
      modifies this
      ensures var r := Scan(api, blockHash, FinalizedWalk, old(transactions), 0);
              transactions == r.queue && trace == old(trace) + Emitted(api, blockHash, FinalizedWalk, r.visited)
    {
      WalkArray(blockHash, FinalizedWalk);
    }

    /** The loop both handlers share: read the entry at the index, step the
        index, emit or splice. */
    method WalkArray(blockHash: Hash, mode: Mode)
      modifies this
      ensures var r := Scan(api, blockHash, mode, old(transactions), 0);
              transactions == r.queue && trace == old(trace) + Emitted(api, blockHash, mode, r.visited)
    {
      ghost var target := Scan(api, blockHash, mode, transactions, 0);
      ghost var visited: seq<Tx> := [];
      var i := 0;
      while i < |transactions|
        invariant i <= |transactions| + 1
        invariant WalkState(api, blockHash, mode, target, old(trace), transactions, i, visited, trace)
        decreases |transactions| + 1 - i
      {
        WalkAdvance(api, blockHash, mode, target, old(trace), transactions, i, visited, trace);
        var tx := transactions[i];
        i := i + 1;
        VisitEntry(blockHash, mode, tx);
        visited := visited + [tx];
      }
      assert visited + [] == visited;
    }

    /** One visit of the walk: emit, splice, or both. */
    method VisitEntry(blockHash: Hash, mode: Mode, tx: Tx)
      requires tx in transactions
      modifies this
      ensures transactions == AfterVisit(api, blockHash, mode, old(transactions), tx)
      ensures trace == old(trace) + EmitOne(api, blockHash, mode, tx)
    {
      match mode
      case NewBlockWalk =>
        if api.isTxValid(blockHash, tx) {
          var successful := api.isTxSuccessful(blockHash, tx);
          trace := trace + [SettledN(tx, Valid(blockHash, successful))];
        } else {
          transactions := RemoveAt(transactions, IndexOf(transactions, tx));
        }
      case FinalizedWalk =>
        if api.isTxSuccessful(blockHash, tx) {
          trace := trace + [DoneN(tx, Valid(blockHash, true))];
          transactions := RemoveAt(transactions, IndexOf(transactions, tx));
        }
    }

    /** The event switch of the tracker. */
    method Dispatch(e: Event)
      modifies this
      ensures old(trace) <= trace && NotesFor(e, trace[|old(trace)|..])
    {
      match e
      case NewBlock(h, p) =>
        OnNewBlock(h, p);
        ghost var r := Scan(api, h, NewBlockWalk, old(transactions), 0);
        EmittedShape(api, h, NewBlockWalk, r.visited);
        assert trace[|old(trace)|..] == Emitted(api, h, NewBlockWalk, r.visited);
      case NewTransaction(tx) => OnNewTx(tx);
      case Finalized(h) =>
        OnFinalized(h);
        ghost var r := Scan(api, h, FinalizedWalk, old(transactions), 0);
        EmittedShape(api, h, FinalizedWalk, r.visited);
        assert trace[|old(trace)|..] == Emitted(api, h, FinalizedWalk, r.visited);
    }
  }
}
