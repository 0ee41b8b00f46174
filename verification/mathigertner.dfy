/** src/solutions/mathigertner.ts: a duplicate-free pending list, the parent
    recorded for each block and the set of blocks seen finalized. Blocks
    settle every pending transaction they include as valid, without asking
    whether it is valid; finalizing reports done, against the root-most block
    of the finalized chain that includes it, every pending transaction some
    chain block includes, and splices those out. */
module Mathigertner {
  import opened Types
  import opened Settlement
  import opened Ancestry

  // ---------------------------------------------------------------------------
  // The chain of a block

  /** `buildChainFromBlock`: the block's ancestors, root first, ending with
      the block; the walk stops at an empty or unrecorded parent. */
  function Chain(p: map<Hash, Hash>, h: Hash): (c: seq<Hash>)
    requires Acyclic(p)
    decreases Height(p, h)
  {
    if h == "" then []
    else if h in p then
      HeightDecreases(p, h);
      Chain(p, p[h]) + [h]
    else [h]
  }

  /** The chain is the lineage read backwards: it ends with the block, each
      element is the recorded parent of the next, it holds no empty hash, and
      its first element has no truthy recorded parent. */
  lemma {:induction false} ChainSpec(p: map<Hash, Hash>, h: Hash)
    requires Acyclic(p)
    ensures var c := Chain(p, h);
            var l := Lineage(p, h);
            && |c| == |l|
            && (forall k | 0 <= k < |c| :: c[k] == l[|l| - 1 - k])
            && (h == "" <==> c == [])
            && (c != [] ==> c[|c| - 1] == h && (c[0] !in p || p[c[0]] == ""))
            && (forall k | 0 <= k < |c| :: c[k] != "")
            && (forall k | 0 < k < |c| :: c[k] in p && p[c[k]] == c[k - 1])
    decreases Height(p, h)
  {
    LineageSpec(p, h);
    if h != "" && h in p {
      HeightDecreases(p, h);
      ChainSpec(p, p[h]);
      var c', l' := Chain(p, p[h]), Lineage(p, p[h]);
      assert Lineage(p, h) == [h] + l';
      if c' != [] {
        assert Chain(p, h)[0] == c'[0];
      }
    }
  }

  // ---------------------------------------------------------------------------
  // Settling at a new block

  /** The loop of `onNewBlock`: every pending transaction the body includes
      settles valid with its success flag, in pending order. */
  function SettleIncluded(api: Api, h: Hash, body: seq<Tx>, q: seq<Tx>): (notes: seq<Note>)
    decreases |q|
  {
    if q == [] then []
    else
      var prev := SettleIncluded(api, h, body, q[..|q| - 1]);
      var tx := q[|q| - 1];
      if tx in body then prev + [SettledN(tx, Settled.Valid(h, api.isTxSuccessful(h, tx)))] else prev
  }

  /** One valid settled notification per pending transaction in the body, in
      pending order, and none for the others: validity is never consulted. */
  lemma {:induction false} SettleIncludedSpec(api: Api, h: Hash, body: seq<Tx>, q: seq<Tx>)
    requires NoDuplicates(q)
    ensures var notes := SettleIncluded(api, h, body, q);
            && InArrivalOrder(notes, q)
            && (forall n | n in notes :: n.SettledN? && n.tx in body && n.s == Settled.Valid(h, api.isTxSuccessful(h, n.tx)))
            && (forall tx | tx in q && tx in body :: exists n | n in notes :: n.tx == tx)
    decreases |q|
  {
    if q != [] {
      var q' := q[..|q| - 1];
      var tx := q[|q| - 1];
      assert q == q' + [tx];
      NoDuplicatesPrefix(q);
      SettleIncludedSpec(api, h, body, q');
      var prev := SettleIncluded(api, h, body, q');
      ArrivalOrderWiden(prev, q);
      if tx in body {
        ArrivalOrderExtend(prev, q, SettledN(tx, Settled.Valid(h, api.isTxSuccessful(h, tx))));
      }
    }
  }

  // ---------------------------------------------------------------------------
  // Finalizing

  /** The inner loop of `onFinalized`: the first chain block whose body
      includes the transaction. */
  function FirstIncluding(api: Api, chain: seq<Hash>, tx: Tx): (r: Option<Hash>)
  {
    if chain == [] then None
    else if tx in api.getBody(chain[0]) then Some(chain[0])
    else FirstIncluding(api, chain[1..], tx)
  }

  /** A block is found iff some chain block includes the transaction, and the
      one found is the root-most: no chain block before it includes it. */
  lemma {:induction false} FirstIncludingSpec(api: Api, chain: seq<Hash>, tx: Tx)
    ensures var r := FirstIncluding(api, chain, tx);
            && (r.Some? <==> exists b | b in chain :: tx in api.getBody(b))
            && (r.Some? ==> r.value in chain && tx in api.getBody(r.value)
                            && forall j | 0 <= j < IndexOf(chain, r.value) :: tx !in api.getBody(chain[j]))
    decreases |chain|
  {
    if chain != [] {
      assert chain == [chain[0]] + chain[1..];
      FirstIncludingSpec(api, chain[1..], tx);
      var r := FirstIncluding(api, chain, tx);
      if r.Some? && tx !in api.getBody(chain[0]) {
        var v := r.value;
        var t := chain[1..];
        var k := IndexOf(t, v);
        assert chain[k + 1] == v && v !in chain[..k + 1] by {
          assert chain[..k + 1] == [chain[0]] + t[..k];
        }
        IndexOfUnique(chain, v, k + 1);
        forall j | 0 <= j < k + 1 ensures tx !in api.getBody(chain[j]) {
          if j > 0 { assert chain[j] == t[j - 1]; }
        }
      }
    }
  }

  /** The done notifications of `onFinalized`. */
  function DoneFound(api: Api, chain: seq<Hash>, q: seq<Tx>): (notes: seq<Note>)
    decreases |q|
  {
    if q == [] then []
    else
      var prev := DoneFound(api, chain, q[..|q| - 1]);
      var tx := q[|q| - 1];
      var r := FirstIncluding(api, chain, tx);
      if r.Some? then prev + [DoneN(tx, Settled.Valid(r.value, api.isTxSuccessful(r.value, tx)))] else prev
  }

  /** The indices `onFinalized` collects in `toRemove`: increasing, in
      range, and exactly the positions whose transaction a chain block
      includes. */
  function FoundIndices(api: Api, chain: seq<Hash>, q: seq<Tx>): (idx: seq<nat>)
    ensures Increasing(idx) && forall k | 0 <= k < |idx| :: idx[k] < |q|
    ensures forall i | 0 <= i < |q| :: i in idx <==> FirstIncluding(api, chain, q[i]).Some?
    decreases |q|
  {
    if q == [] then []
    else
      var prev := FoundIndices(api, chain, q[..|q| - 1]);
      if FirstIncluding(api, chain, q[|q| - 1]).Some? then prev + [|q| - 1] else prev
  }

  /** The pending transactions no chain block includes, in order. */
  function Unfound(api: Api, chain: seq<Hash>, q: seq<Tx>): (rest: seq<Tx>)
    decreases |q|
  {
    if q == [] then []
    else
      var prev := Unfound(api, chain, q[..|q| - 1]);
      var tx := q[|q| - 1];
      if FirstIncluding(api, chain, tx).Some? then prev else prev + [tx]
  }

  /** Every pending transaction some chain block includes is reported done
      once, in pending order, as valid at the block found. */
  lemma {:induction false} DoneFoundSpec(api: Api, chain: seq<Hash>, q: seq<Tx>)
    requires NoDuplicates(q)
    ensures var notes := DoneFound(api, chain, q);
            && InArrivalOrder(notes, q)
            && (forall n | n in notes ::
                  && n.DoneN? && FirstIncluding(api, chain, n.tx).Some?
                  && n.s == (var b := FirstIncluding(api, chain, n.tx).value; Settled.Valid(b, api.isTxSuccessful(b, n.tx))))
            && (forall tx | tx in q && FirstIncluding(api, chain, tx).Some? :: exists n | n in notes :: n.tx == tx)
    decreases |q|
  {
    if q != [] {
      var q' := q[..|q| - 1];
      var tx := q[|q| - 1];
      assert q == q' + [tx];
      NoDuplicatesPrefix(q);
      DoneFoundSpec(api, chain, q');
      var prev := DoneFound(api, chain, q');
      ArrivalOrderWiden(prev, q);
      var r := FirstIncluding(api, chain, tx);
      if r.Some? {
        ArrivalOrderExtend(prev, q, DoneN(tx, Settled.Valid(r.value, api.isTxSuccessful(r.value, tx))));
      }
    }
  }

  /** The state of the collecting loop of `onFinalized` after `i` entries. */
  ghost predicate CollectState(api: Api, chain: seq<Hash>, q: seq<Tx>, i: nat, t0: seq<Note>, trace: seq<Note>, toRemove: seq<nat>)
    requires i <= |q|
  {
    trace == t0 + DoneFound(api, chain, q[..i]) && toRemove == FoundIndices(api, chain, q[..i])
  }

  lemma CollectAdvance(api: Api, chain: seq<Hash>, q: seq<Tx>, i: nat, t0: seq<Note>, trace: seq<Note>, toRemove: seq<nat>)
    requires i < |q| && CollectState(api, chain, q, i, t0, trace, toRemove)
    ensures var r := FirstIncluding(api, chain, q[i]);
            if r.Some? then
              CollectState(api, chain, q, i + 1, t0, trace + [DoneN(q[i], Settled.Valid(r.value, api.isTxSuccessful(r.value, q[i])))], toRemove + [i])
            else CollectState(api, chain, q, i + 1, t0, trace, toRemove)
  {
    assert q[..i + 1][..i] == q[..i];
  }

  /** `onFinalized` reports nothing but done notifications. */
  lemma {:induction false} DoneFoundKinds(api: Api, chain: seq<Hash>, q: seq<Tx>)
    ensures forall n | n in DoneFound(api, chain, q) :: n.DoneN?
    decreases |q|
  {
    if q != [] {
      DoneFoundKinds(api, chain, q[..|q| - 1]);
    }
  }

  /** Exactly the pending transactions no chain block includes remain,
      duplicate-free. */
  lemma {:induction false} UnfoundSpec(api: Api, chain: seq<Hash>, q: seq<Tx>)
    requires NoDuplicates(q)
    ensures var rest := Unfound(api, chain, q);
            && (forall tx :: tx in rest <==> tx in q && FirstIncluding(api, chain, tx).None?)
            && NoDuplicates(rest)
    decreases |q|
  {
    if q != [] {
      var q' := q[..|q| - 1];
      var tx := q[|q| - 1];
      assert q == q' + [tx];
      NoDuplicatesPrefix(q);
      UnfoundSpec(api, chain, q');
      if FirstIncluding(api, chain, tx).None? {
        NoDuplicatesAppend(Unfound(api, chain, q'), tx);
      }
    }
  }

  /** Strictly increasing indices. */
  predicate Increasing(idx: seq<nat>)
  {
    forall i, j | 0 <= i < j < |idx| :: idx[i] < idx[j]
  }

  /** The reverse-order splice loop: remove the last index first, then the
      rest. */
  function SpliceDescending(q: seq<Tx>, idx: seq<nat>): (r: seq<Tx>)
    requires Increasing(idx) && forall k | 0 <= k < |idx| :: idx[k] < |q|
    ensures |r| == |q| - |idx|
    decreases |idx|
  {
    if idx == [] then q
    else SpliceDescending(RemoveAt(q, idx[|idx| - 1]), idx[..|idx| - 1])
  }

  /** Splicing indices below the last position leaves the last element last. */
  lemma {:induction false} SpliceBeforeLast(q: seq<Tx>, x: Tx, idx: seq<nat>)
    requires Increasing(idx) && forall k | 0 <= k < |idx| :: idx[k] < |q|
    ensures SpliceDescending(q + [x], idx) == SpliceDescending(q, idx) + [x]
    decreases |idx|
  {
    if idx != [] {
      var t := idx[|idx| - 1];
      assert RemoveAt(q + [x], t) == RemoveAt(q, t) + [x];
      SpliceBeforeLast(RemoveAt(q, t), x, idx[..|idx| - 1]);
    }
  }

  /** Splicing out the collected indices, last first, leaves exactly the
      transactions no chain block includes, in their order. */
  lemma {:induction false} SpliceLeavesUnfound(api: Api, chain: seq<Hash>, q: seq<Tx>)
    ensures SpliceDescending(q, FoundIndices(api, chain, q)) == Unfound(api, chain, q)
    decreases |q|
  {
    if q != [] {
      var q' := q[..|q| - 1];
      var tx := q[|q| - 1];
      assert q == q' + [tx];
      SpliceLeavesUnfound(api, chain, q');
      var idx' := FoundIndices(api, chain, q');
      if FirstIncluding(api, chain, tx).Some? {
        assert FoundIndices(api, chain, q) == idx' + [|q| - 1];
        assert RemoveAt(q, |q| - 1) == q';
        assert (idx' + [|q| - 1])[..|idx'|] == idx';
      } else {
        SpliceBeforeLast(q', tx, idx');
      }
    }
  }

  // ---------------------------------------------------------------------------
  // The tracker

  class Tracker {
    const api: Api
    /** Transactions in order of first arrival. */
    var pendingTransactions: seq<Tx>
    /** The parent stored for each block (the stored `blockHash` repeats the key). */
    var blockChain: map<Hash, Hash>
    var finalizedBlocks: set<Hash>
    /** Every call to `onTxSettled` / `onTxDone`, in order. */
    var trace: seq<Note>
    /** Every call to the read side of the client, in order. */
    ghost var calls: seq<Call>

    ghost predicate Valid()
      reads this
    {
      NoDuplicates(pendingTransactions)
    }

    constructor (api: Api)
      ensures Valid() && this.api == api
      ensures pendingTransactions == [] && blockChain == map[] && finalizedBlocks == {}
      ensures trace == [] && calls == []
    {
      this.api := api;
      pendingTransactions, blockChain, finalizedBlocks := [], map[], {};
      trace, calls := [], [];
    }

    /** `onNewTransaction`: append unless already pending. */
    method OnNewTransaction(transaction: Tx)
      requires Valid()
      modifies this`pendingTransactions
      ensures Valid()
      ensures pendingTransactions ==
              if transaction in old(pendingTransactions) then old(pendingTransactions)
              else old(pendingTransactions) + [transaction]
    {
      if transaction !in pendingTransactions {
        NoDuplicatesAppend(pendingTransactions, transaction);
        pendingTransactions := pendingTransactions + [transaction];
      }
    }

    /** `onNewBlock`: one body fetch, record the parent, settle the pending
        transactions the body includes. Its removal list stays empty, so the
        pending list is unchanged. */
    method OnNewBlock(blockHash: Hash, parent: Hash)
      requires Valid()
      modifies this`blockChain, this`trace, this`calls
      ensures Valid()
      ensures blockChain == old(blockChain)[blockHash := parent]
      ensures trace == old(trace) + SettleIncluded(api, blockHash, api.getBody(blockHash), pendingTransactions)
      ensures |calls| > |old(calls)| && calls[..|old(calls)| + 1] == old(calls) + [GetBody(blockHash)]
      ensures forall c | c in calls[|old(calls)| + 1..] :: c.IsTxSuccessful?
      ensures NotesFor(NewBlock(blockHash, parent), trace[|old(trace)|..])
    {
      var blockTxs := api.getBody(blockHash);
      calls := calls + [GetBody(blockHash)];
      ghost var c0 := calls;
      blockChain := blockChain[blockHash := parent];
      var q := pendingTransactions;
      for i := 0 to |q|
        invariant blockChain == old(blockChain)[blockHash := parent]
        invariant trace == old(trace) + SettleIncluded(api, blockHash, blockTxs, q[..i])
        invariant forall n | n in trace[|old(trace)|..] :: n.SettledN?
        invariant |calls| >= |c0| && calls[..|c0|] == c0
        invariant forall c | c in calls[|c0|..] :: c.IsTxSuccessful?
      {
        var tx := q[i];
        assert q[..i + 1] == q[..i] + [tx];
        ghost var trace1, calls1 := trace, calls;
        if tx in blockTxs {
          var successful := api.isTxSuccessful(blockHash, tx);
          calls := calls + [IsTxSuccessful(blockHash, tx)];
          trace := trace + [SettledN(tx, Settled.Valid(blockHash, successful))];
        }
        assert trace[|old(trace)|..] == trace1[|old(trace)|..] + trace[|trace1|..];
        assert calls[|c0|..] == calls1[|c0|..] + calls[|calls1|..];
      }
      assert q[..|q|] == q;
    }

    /** `buildChainFromBlock`, building the chain front-first with `unshift`. */
    method BuildChainFromBlock(blockHash: Hash) returns (chain: seq<Hash>)
      requires Acyclic(blockChain)
      ensures chain == Chain(blockChain, blockHash)
    {
      chain := [];
      var current := blockHash;
      while current != ""
        invariant Chain(blockChain, current) + chain == Chain(blockChain, blockHash)
        decreases if current == "" then 0 else Height(blockChain, current) + 1
      {
        ghost var prev := current;
        chain := [current] + chain;
        if current in blockChain {
          HeightDecreases(blockChain, current);
          current := blockChain[current];
          assert Chain(blockChain, prev) == Chain(blockChain, current) + [prev];
        } else {
          current := "";
        }
      }
    }

    /** `onFinalized`: mark the chain finalized, report done every pending
        transaction some chain block includes, then splice those out from the
        highest index down. The walk only ends if the recorded parents are
        acyclic. */
    method OnFinalized(blockHash: Hash)
      requires Valid() && Acyclic(blockChain)
      modifies this`pendingTransactions, this`finalizedBlocks, this`trace, this`calls
      ensures Valid()
      ensures var chain := Chain(blockChain, blockHash);
              && finalizedBlocks == old(finalizedBlocks) + (set b | b in chain)
              && trace == old(trace) + DoneFound(api, chain, old(pendingTransactions))
              && pendingTransactions == Unfound(api, chain, old(pendingTransactions))
      ensures old(calls) <= calls
      ensures NotesFor(Finalized(blockHash), trace[|old(trace)|..])
    {
      var finalizedChain := BuildChainFromBlock(blockHash);
      MarkFinalized(finalizedChain);
      var q := pendingTransactions;
      var toRemove := CollectDone(finalizedChain);
      SpliceOut(toRemove);
      SpliceLeavesUnfound(api, finalizedChain, q);
      UnfoundSpec(api, finalizedChain, q);
    }

    /** The last loop of `onFinalized`: splice out the collected indices,
        highest first, so the lower ones still point at their entries. */
    method SpliceOut(toRemove: seq<nat>)
      requires Increasing(toRemove) && forall k | 0 <= k < |toRemove| :: toRemove[k] < |pendingTransactions|
      modifies this`pendingTransactions
      ensures pendingTransactions == SpliceDescending(old(pendingTransactions), toRemove)
    {
      var i := |toRemove|;
      assert toRemove[..i] == toRemove;
      while i > 0
        invariant 0 <= i <= |toRemove|
        invariant forall k | 0 <= k < i :: toRemove[k] < |pendingTransactions|
        invariant SpliceDescending(pendingTransactions, toRemove[..i]) == SpliceDescending(old(pendingTransactions), toRemove)
      {
        i := i - 1;
        ghost var before := pendingTransactions;
        pendingTransactions := RemoveAt(pendingTransactions, toRemove[i]);
        assert toRemove[..i + 1][..i] == toRemove[..i];
        assert SpliceDescending(before, toRemove[..i + 1]) == SpliceDescending(pendingTransactions, toRemove[..i]);
      }
    }

    /** The first loop of `onFinalized`: add each chain block to the set. */
    method MarkFinalized(chain: seq<Hash>)
      modifies this`finalizedBlocks
      ensures finalizedBlocks == old(finalizedBlocks) + (set b | b in chain)
    {
      for i := 0 to |chain|
        invariant finalizedBlocks == old(finalizedBlocks) + (set b | b in chain[..i])
      {
        assert chain[..i + 1] == chain[..i] + [chain[i]];
        if chain[i] !in finalizedBlocks {
          finalizedBlocks := finalizedBlocks + {chain[i]};
        }
      }
      assert chain[..|chain|] == chain;
    }

    /** The second loop of `onFinalized`: report done each pending
        transaction some chain block includes and collect its index. */
    method CollectDone(chain: seq<Hash>) returns (toRemove: seq<nat>)
      modifies this`trace, this`calls
      ensures trace == old(trace) + DoneFound(api, chain, pendingTransactions)
      ensures toRemove == FoundIndices(api, chain, pendingTransactions)
      ensures old(calls) <= calls
      ensures forall n | n in trace[|old(trace)|..] :: n.DoneN?
    {
      toRemove := [];
      var q := pendingTransactions;
      for i := 0 to |q|
        invariant CollectState(api, chain, q, i, old(trace), trace, toRemove)
        invariant old(calls) <= calls
      {
        var tx := q[i];
        CollectAdvance(api, chain, q, i, old(trace), trace, toRemove);
        var belongsToFinalizedChain, txBlockHash := FindIncluding(chain, tx);
        if belongsToFinalizedChain {
          var successful := api.isTxSuccessful(txBlockHash, tx);
          calls := calls + [IsTxSuccessful(txBlockHash, tx)];
          trace := trace + [DoneN(tx, Settled.Valid(txBlockHash, successful))];
          toRemove := toRemove + [i];
        }
      }
      assert q[..|q|] == q;
      assert trace[|old(trace)|..] == DoneFound(api, chain, q);
      DoneFoundKinds(api, chain, q);
    }

    /** The search of `onFinalized` for the first chain block including `tx`,
        fetching each body on the way. */
    method FindIncluding(chain: seq<Hash>, tx: Tx) returns (belongs: bool, txBlockHash: Hash)
      modifies this`calls
      ensures var r := FirstIncluding(api, chain, tx);
              belongs == r.Some? && txBlockHash == if belongs then r.value else ""
      ensures old(calls) <= calls
    {
      belongs, txBlockHash := false, "";
      var k := 0;
      while k < |chain| && !belongs
        invariant 0 <= k <= |chain|
        invariant belongs ==> FirstIncluding(api, chain, tx) == Some(txBlockHash)
        invariant !belongs ==> txBlockHash == "" && FirstIncluding(api, chain, tx) == FirstIncluding(api, chain[k..], tx)
        invariant old(calls) <= calls
      {
        assert chain[k..][1..] == chain[k + 1..];
        var chainBlockTxs := api.getBody(chain[k]);
        calls := calls + [GetBody(chain[k])];
        if tx in chainBlockTxs {
          belongs, txBlockHash := true, chain[k];
        }
        k := k + 1;
      }
    }

    /** The event switch of the tracker. */
    method Dispatch(e: Event)
      requires Valid()
      requires e.Finalized? ==> Acyclic(blockChain)
      modifies this
      ensures Valid()
      ensures old(trace) <= trace && NotesFor(e, trace[|old(trace)|..])
    {
      match e
      case NewBlock(h, p) => OnNewBlock(h, p);
      case NewTransaction(tx) => OnNewTransaction(tx);
      case Finalized(h) => OnFinalized(h);
    }
  }
}
