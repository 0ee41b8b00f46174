/** src/solutions/hardslinger.ts: an arrival list with repeats, a memo of
    block bodies, and a successor map from each parent to the blocks
    announced under it, kept in insertion order. A block settles every
    tracked entry it invalidates and, separately, every one it includes;
    finalizing reports the finalized block's own included entries done once
    per element of its canonical chain, then forgets the successor map. */
module Hardslinger {
  import opened Types
  import opened Ancestry

  // ---------------------------------------------------------------------------
  // The successor map

  /** The parent of `h` by `chain.entries().find(...)`: the first key, in
      insertion order, whose successor list holds `h`. */
  function FindParent(order: seq<Hash>, chain: map<Hash, seq<Hash>>, h: Hash): (r: Option<Hash>)
  {
    if order == [] then None
    else if order[0] in chain && h in chain[order[0]] then Some(order[0])
    else FindParent(order[1..], chain, h)
  }

  /** A key is found iff some listed key's successors hold the block, and it
      is the first such key in insertion order. */
  lemma {:induction false} FindParentSpec(order: seq<Hash>, chain: map<Hash, seq<Hash>>, h: Hash)
    ensures var r := FindParent(order, chain, h);
            && (r.Some? <==> exists i | 0 <= i < |order| :: order[i] in chain && h in chain[order[i]])
            && (r.Some? ==> exists i | 0 <= i < |order| ::
                              && order[i] == r.value && r.value in chain && h in chain[r.value]
                              && forall j | 0 <= j < i :: !(order[j] in chain && h in chain[order[j]]))
    decreases |order|
  {
    if order != [] {
      FindParentSpec(order[1..], chain, h);
      var r := FindParent(order, chain, h);
      if !(order[0] in chain && h in chain[order[0]]) {
        if r.Some? {
          var i :| 0 <= i < |order[1..]| && order[1..][i] == r.value && r.value in chain && h in chain[r.value]
                   && forall j | 0 <= j < i :: !(order[1..][j] in chain && h in chain[order[1..][j]]);
          assert order[i + 1] == r.value;
          forall j | 0 <= j < i + 1 ensures !(order[j] in chain && h in chain[order[j]]) {
            if j > 0 { assert order[j] == order[1..][j - 1]; }
          }
        } else {
          forall i | 0 <= i < |order| ensures !(order[i] in chain && h in chain[order[i]]) {
            if i > 0 { assert order[i] == order[1..][i - 1]; }
          }
        }
      }
    }
  }

  /** Every block that some successor list holds. */
  function Listed(chain: map<Hash, seq<Hash>>): set<Hash>
  {
    set k, h | k in chain && h in chain[k] :: h
  }

  /** The parent relation `findCanonicalChain` follows. */
  function ParentOf(order: seq<Hash>, chain: map<Hash, seq<Hash>>): map<Hash, Hash>
  {
    map h | h in Listed(chain) && FindParent(order, chain, h).Some? :: FindParent(order, chain, h).value
  }

  /** `findCanonicalChain(h, path)`: prepend the parent of `h` and move to it,
      until `h` is the empty hash or has no parent. Its recursion only ends
      if the parent relation is acyclic. */
  function FindCanonicalChain(order: seq<Hash>, chain: map<Hash, seq<Hash>>, h: Hash, path: seq<Hash>): (c: seq<Hash>)
    requires Acyclic(ParentOf(order, chain))
    decreases Height(ParentOf(order, chain), h)
  {
    if h == "" then path
    else
      var parent := FindParent(order, chain, h);
      if parent.None? then path
      else
        assert h in ParentOf(order, chain) by {
          var i :| 0 <= i < |order| && order[i] in chain && h in chain[order[i]] by { FindParentSpec(order, chain, h); }
          assert h in Listed(chain);
        }
        HeightDecreases(ParentOf(order, chain), h);
        FindCanonicalChain(order, chain, parent.value, [parent.value] + path)
  }

  /** The accumulated path only ever sits at the end. */
  lemma {:induction false} CanonicalChainAppends(order: seq<Hash>, chain: map<Hash, seq<Hash>>, h: Hash, path: seq<Hash>)
    requires Acyclic(ParentOf(order, chain))
    ensures FindCanonicalChain(order, chain, h, path) == FindCanonicalChain(order, chain, h, []) + path
    decreases Height(ParentOf(order, chain), h)
  {
    var parent := FindParent(order, chain, h);
    if h != "" && parent.Some? {
      var p := ParentOf(order, chain);
      var i :| 0 <= i < |order| && order[i] in chain && h in chain[order[i]] by { FindParentSpec(order, chain, h); }
      assert h in Listed(chain);
      HeightDecreases(p, h);
      var pv := parent.value;
      assert FindCanonicalChain(order, chain, h, path) == FindCanonicalChain(order, chain, pv, [pv] + path);
      assert FindCanonicalChain(order, chain, h, []) == FindCanonicalChain(order, chain, pv, [pv] + []);
      assert [pv] + [] == [pv];
      CanonicalChainAppends(order, chain, pv, [pv] + path);
      CanonicalChainAppends(order, chain, pv, [pv]);
    }
  }

  /** The canonical chain of `h` lists its ancestors root first and excludes
      `h`: it is empty iff `h` is empty or has no parent, it ends with the
      parent of `h`, each element is the parent of the next, and the first
      element is empty or parentless. */
  lemma {:induction false} CanonicalChainSpec(order: seq<Hash>, chain: map<Hash, seq<Hash>>, h: Hash)
    requires Acyclic(ParentOf(order, chain))
    ensures var p := ParentOf(order, chain);
            var c := FindCanonicalChain(order, chain, h, []);
            && (c == [] <==> h == "" || h !in p)
            && (c != [] ==> h in p && c[|c| - 1] == p[h] && (c[0] == "" || c[0] !in p))
            && (forall k | 0 < k < |c| :: c[k] != "" && c[k] in p && p[c[k]] == c[k - 1])
    decreases Height(ParentOf(order, chain), h)
  {
    var p := ParentOf(order, chain);
    var parent := FindParent(order, chain, h);
    FindParentSpec(order, chain, h);
    if h != "" && parent.Some? {
      var i :| 0 <= i < |order| && order[i] in chain && h in chain[order[i]];
      assert h in Listed(chain);
      var pv := parent.value;
      assert h in p && p[h] == pv;
      HeightDecreases(p, h);
      CanonicalChainSpec(order, chain, pv);
      CanonicalChainAppends(order, chain, pv, [pv]);
      var c0 := FindCanonicalChain(order, chain, pv, []);
      var c := c0 + [pv];
      assert FindCanonicalChain(order, chain, h, []) == FindCanonicalChain(order, chain, pv, [pv] + []);
      assert [pv] + [] == [pv];
      if c0 != [] { assert c[0] == c0[0]; }
      forall k | 0 < k < |c| ensures c[k] != "" && c[k] in p && p[c[k]] == c[k - 1] {
        if k < |c0| { assert c[k] == c0[k] && c[k - 1] == c0[k - 1]; }
      }
    } else if h != "" {
      assert h !in p;
    }
  }

  // ---------------------------------------------------------------------------
  // Settling and finalizing

  /** The notes `onNewBlock` emits for one tracked entry: invalid if it is
      invalid at the block, and then, independently, valid if the body holds
      it. */
  function EntryNotes(api: Api, h: Hash, body: seq<Tx>, tx: Tx): (notes: seq<Note>)
  {
    (if !api.isTxValid(h, tx) then [SettledN(tx, Invalid(h))] else [])
    + (if tx in body then [SettledN(tx, Settled.Valid(h, api.isTxSuccessful(h, tx)))] else [])
  }

  /** How many settled notes one entry yields: one per branch that fires. */
  function PerEntry(api: Api, h: Hash, body: seq<Tx>, tx: Tx): nat
  {
    (if !api.isTxValid(h, tx) then 1 else 0) + (if tx in body then 1 else 0)
  }

  /** The loop of `onNewBlock` over the tracked entries. */
  function SettleEntries(api: Api, h: Hash, body: seq<Tx>, q: seq<Tx>): (notes: seq<Note>)
    decreases |q|
  {
    if q == [] then [] else SettleEntries(api, h, body, q[..|q| - 1]) + EntryNotes(api, h, body, q[|q| - 1])
  }

  /** Every note settles a tracked entry at the block, invalid only if it is
      invalid there and valid only if the body includes it. */
  lemma {:induction false} SettleEntriesSpec(api: Api, h: Hash, body: seq<Tx>, q: seq<Tx>)
    ensures forall n | n in SettleEntries(api, h, body, q) ::
              && n.SettledN? && n.tx in q
              && (n.s.Invalid? || n.s.Valid?) && n.s.blockHash == h
              && (n.s.Invalid? ==> !api.isTxValid(h, n.tx))
              && (n.s.Valid? ==> n.tx in body && n.s.successful == api.isTxSuccessful(h, n.tx))
    decreases |q|
  {
    if q != [] {
      var q' := q[..|q| - 1];
      assert q == q' + [q[|q| - 1]];
      SettleEntriesSpec(api, h, body, q');
    }
  }

  /** Each transaction is named once per branch that fires for it, per
      tracked copy: an invalid included entry is settled twice per copy. */
  lemma {:induction false} SettleEntriesCount(api: Api, h: Hash, body: seq<Tx>, q: seq<Tx>, tx: Tx)
    ensures Mentions(SettleEntries(api, h, body, q), tx) == multiset(q)[tx] * PerEntry(api, h, body, tx)
    decreases |q|
  {
    if q != [] {
      var q' := q[..|q| - 1];
      var x := q[|q| - 1];
      assert q == q' + [x];
      SettleEntriesCount(api, h, body, q', tx);
      assert SettleEntries(api, h, body, q) == SettleEntries(api, h, body, q') + EntryNotes(api, h, body, x);
      MentionsConcat(SettleEntries(api, h, body, q'), EntryNotes(api, h, body, x), tx);
      EntryMentions(api, h, body, x, tx);
      assert multiset(q) == multiset(q') + multiset{x};
      var c, k := multiset(q')[tx], PerEntry(api, h, body, tx);
      if x == tx {
        assert multiset(q)[tx] == c + 1;
        Distribute(c, 1, k);
      } else {
        assert multiset(q)[tx] == c;
      }
    }
  }

  lemma Distribute(a: nat, d: nat, k: nat)
    ensures (a + d) * k == a * k + d * k
  {
  }

  lemma EntryMentions(api: Api, h: Hash, body: seq<Tx>, x: Tx, tx: Tx)
    ensures Mentions(EntryNotes(api, h, body, x), tx) == if x == tx then PerEntry(api, h, body, tx) else 0
  {
    var a := if !api.isTxValid(h, x) then [SettledN(x, Invalid(h))] else [];
    var b := if x in body then [SettledN(x, Settled.Valid(h, api.isTxSuccessful(h, x)))] else [];
    MentionsConcat(a, b, tx);
  }

  /** An entry that is invalid at a block whose body still includes it is
      settled twice in the same event. */
  lemma InvalidIncludedSettlesTwice(api: Api, h: Hash, body: seq<Tx>, tx: Tx)
    requires !api.isTxValid(h, tx) && tx in body
    ensures SettleEntries(api, h, body, [tx]) ==
            [SettledN(tx, Invalid(h)), SettledN(tx, Settled.Valid(h, api.isTxSuccessful(h, tx)))]
  {
    assert [tx][..0] == [];
  }

  /** One pass of `finalize`: every tracked entry the finalized block's body
      includes is reported done as valid there. */
  function DoneEntries(api: Api, h: Hash, body: seq<Tx>, q: seq<Tx>): (notes: seq<Note>)
    decreases |q|
  {
    if q == [] then []
    else
      var prev := DoneEntries(api, h, body, q[..|q| - 1]);
      var tx := q[|q| - 1];
      if tx in body then prev + [DoneN(tx, Settled.Valid(h, api.isTxSuccessful(h, tx)))] else prev
  }

  /** `n` passes, one per canonical chain element. */
  function Repeat(notes: seq<Note>, n: nat): (r: seq<Note>)
  {
    if n == 0 then [] else Repeat(notes, n - 1) + notes
  }

  /** `finalize` reports only the finalized block's own included entries,
      as valid at that block. */
  lemma {:induction false} FinalizeSpec(api: Api, h: Hash, body: seq<Tx>, q: seq<Tx>, rounds: nat)
    ensures forall n | n in Repeat(DoneEntries(api, h, body, q), rounds) ::
              n.DoneN? && n.tx in q && n.tx in body && n.s == Settled.Valid(h, api.isTxSuccessful(h, n.tx))
    decreases rounds
  {
    if rounds > 0 {
      DoneEntriesSpec(api, h, body, q);
      FinalizeSpec(api, h, body, q, rounds - 1);
    }
  }

  /** ... and names each transaction once per tracked copy per canonical
      chain element: never for an empty chain. */
  lemma {:induction false} FinalizeCount(api: Api, h: Hash, body: seq<Tx>, q: seq<Tx>, rounds: nat, tx: Tx)
    ensures Mentions(Repeat(DoneEntries(api, h, body, q), rounds), tx)
            == rounds * (if tx in body then multiset(q)[tx] else 0)
    decreases rounds
  {
    if rounds > 0 {
      DoneEntriesCount(api, h, body, q, tx);
      FinalizeCount(api, h, body, q, rounds - 1, tx);
      MentionsConcat(Repeat(DoneEntries(api, h, body, q), rounds - 1), DoneEntries(api, h, body, q), tx);
      Distribute(rounds - 1, 1, if tx in body then multiset(q)[tx] else 0);
    }
  }

  lemma {:induction false} DoneEntriesSpec(api: Api, h: Hash, body: seq<Tx>, q: seq<Tx>)
    ensures forall n | n in DoneEntries(api, h, body, q) ::
              n.DoneN? && n.tx in q && n.tx in body && n.s == Settled.Valid(h, api.isTxSuccessful(h, n.tx))
    decreases |q|
  {
    if q != [] {
      var q' := q[..|q| - 1];
      assert q == q' + [q[|q| - 1]];
      DoneEntriesSpec(api, h, body, q');
    }
  }

  lemma {:induction false} DoneEntriesCount(api: Api, h: Hash, body: seq<Tx>, q: seq<Tx>, tx: Tx)
    ensures Mentions(DoneEntries(api, h, body, q), tx) == if tx in body then multiset(q)[tx] else 0
    decreases |q|
  {
    if q != [] {
      var q' := q[..|q| - 1];
      var x := q[|q| - 1];
      assert q == q' + [x];
      DoneEntriesCount(api, h, body, q', tx);
      var prev := DoneEntries(api, h, body, q');
      if x in body {
        var n := DoneN(x, Settled.Valid(h, api.isTxSuccessful(h, x)));
        MentionsConcat(prev, [n], tx);
        assert [n][..0] == [];
      }
    }
  }

  // ---------------------------------------------------------------------------
  // The tracker

  class Tracker {
    const api: Api
    /** Every arrival, repeats included. */
    var txSequence: seq<Tx>
    /** Memoised block bodies. */
    var blockToTxs: map<Hash, seq<Tx>>
    /** The successor map: the blocks announced under each parent ... */
    var chain: map<Hash, seq<Hash>>
    /** ... and its keys in insertion order. */
    var chainOrder: seq<Hash>
    /** Every call to `onTxSettled` / `onTxDone`, in order. */
    var trace: seq<Note>
    /** The block hashes passed to `getBody`, in order. */
    ghost var bodyFetches: seq<Hash>

    /** Memoised bodies are the client's, each fetched exactly once, and the
        insertion order lists each key of the successor map once. */
    ghost predicate Valid()
      reads this`blockToTxs, this`bodyFetches, this`chain, this`chainOrder
    {
      && (forall h | h in blockToTxs :: blockToTxs[h] == api.getBody(h))
      && NoDuplicates(bodyFetches) && (forall h :: h in bodyFetches <==> h in blockToTxs)
      && NoDuplicates(chainOrder) && (forall h :: h in chainOrder <==> h in chain)
    }

    constructor (api: Api)
      ensures Valid() && this.api == api
      ensures txSequence == [] && blockToTxs == map[] && chain == map[] && chainOrder == []
      ensures trace == [] && bodyFetches == []
    {
      this.api := api;
      txSequence, blockToTxs, chain, chainOrder := [], map[], map[], [];
      trace, bodyFetches := [], [];
    }

    /** `getTxs`: the memoised body, fetched on the first request only. */
    method GetTxs(blockHash: Hash) returns (txs: seq<Tx>)
      requires Valid()
      modifies this`blockToTxs, this`bodyFetches
      ensures Valid()
      ensures txs == api.getBody(blockHash)
      ensures blockToTxs == old(blockToTxs)[blockHash := txs]
      ensures bodyFetches == old(bodyFetches) + if blockHash in old(blockToTxs) then [] else [blockHash]
    {
      if blockHash in blockToTxs {
        txs := blockToTxs[blockHash];
      } else {
        txs := api.getBody(blockHash);
        NoDuplicatesAppend(bodyFetches, blockHash);
        bodyFetches := bodyFetches + [blockHash];
        blockToTxs := blockToTxs[blockHash := txs];
      }
    }

    /** `buildChain`: append the block to its parent's successor list,
        creating the list, at the end of the insertion order, if absent. */
    method BuildChain(block: Hash, parent: Hash)
      requires Valid()
      modifies this`chain, this`chainOrder
      ensures Valid()
      ensures chain == old(chain)[parent := (if parent in old(chain) then old(chain)[parent] else []) + [block]]
      ensures chainOrder == old(chainOrder) + if parent in old(chain) then [] else [parent]
    {
      var successors := if parent in chain then chain[parent] else [];
      successors := successors + [block];
      if parent !in chain {
        NoDuplicatesAppend(chainOrder, parent);
        chainOrder := chainOrder + [parent];
      }
      chain := chain[parent := successors];
    }

    /** `onNewBlock`: extend the successor map, fetch the body through the
        memo, and settle each tracked entry per `EntryNotes`. */
    method OnNewBlock(blockHash: Hash, parent: Hash)
      requires Valid()
      modifies this`chain, this`chainOrder, this`blockToTxs, this`bodyFetches, this`trace
      ensures Valid()
      ensures chain == old(chain)[parent := (if parent in old(chain) then old(chain)[parent] else []) + [blockHash]]
      ensures chainOrder == old(chainOrder) + if parent in old(chain) then [] else [parent]
      ensures blockToTxs == old(blockToTxs)[blockHash := api.getBody(blockHash)]
      ensures bodyFetches == old(bodyFetches) + if blockHash in old(blockToTxs) then [] else [blockHash]
      ensures trace == old(trace) + SettleEntries(api, blockHash, api.getBody(blockHash), txSequence)
      ensures NotesFor(NewBlock(blockHash, parent), trace[|old(trace)|..])
    {
      BuildChain(blockHash, parent);
      var blockTxs := GetTxs(blockHash);
      SettlePass(blockHash, blockTxs);
    }

    /** The loop of `onNewBlock` over the tracked entries. */
    method SettlePass(blockHash: Hash, blockTxs: seq<Tx>)
      modifies this`trace
      ensures trace == old(trace) + SettleEntries(api, blockHash, blockTxs, txSequence)
      ensures forall n | n in trace[|old(trace)|..] :: n.SettledN?
    {
      var q := txSequence;
      for index := 0 to |q|
        invariant trace == old(trace) + SettleEntries(api, blockHash, blockTxs, q[..index])
        invariant forall n | n in trace[|old(trace)|..] :: n.SettledN?
      {
        var tx := q[index];
        assert q[..index + 1] == q[..index] + [tx];
        ghost var trace1 := trace;
        var valid := api.isTxValid(blockHash, tx);
        if !valid {
          trace := trace + [SettledN(tx, Invalid(blockHash))];
        }
        if tx in blockTxs {
          var state := api.isTxSuccessful(blockHash, tx);
          trace := trace + [SettledN(tx, Settled.Valid(blockHash, state))];
        }
        assert trace == trace1 + EntryNotes(api, blockHash, blockTxs, tx);
        assert trace[|old(trace)|..] == trace1[|old(trace)|..] + trace[|trace1|..];
      }
      assert q[..|q|] == q;
    }

    /** `onNewTx`: append, repeats included. */
    method OnNewTx(transaction: Tx)
      modifies this`txSequence
      ensures txSequence == old(txSequence) + [transaction]
    {
      txSequence := txSequence + [transaction];
    }

    /** `onFinalized`: finalize, then clear the successor map. */
    method OnFinalized(blockHash: Hash)
      requires Valid() && Acyclic(ParentOf(chainOrder, chain))
      modifies this`chain, this`chainOrder, this`blockToTxs, this`bodyFetches, this`trace
      ensures Valid()
      ensures chain == map[] && chainOrder == []
      ensures var rounds := |FindCanonicalChain(old(chainOrder), old(chain), blockHash, [])|;
              trace == old(trace) + Repeat(DoneEntries(api, blockHash, api.getBody(blockHash), txSequence), rounds)
      ensures NotesFor(Finalized(blockHash), trace[|old(trace)|..])
    {
      ghost var rounds := |FindCanonicalChain(chainOrder, chain, blockHash, [])|;
      Finalize(blockHash);
      chain, chainOrder := map[], [];
      FinalizeSpec(api, blockHash, api.getBody(blockHash), txSequence, rounds);
      assert trace[|old(trace)|..] == Repeat(DoneEntries(api, blockHash, api.getBody(blockHash), txSequence), rounds);
    }

    /** `finalize`: one pass over the tracked entries per canonical chain
        element, each against the finalized block's own body. */
    method Finalize(blockHash: Hash)
      requires Valid() && Acyclic(ParentOf(chainOrder, chain))
      modifies this`blockToTxs, this`bodyFetches, this`trace
      ensures Valid()
      ensures var rounds := |FindCanonicalChain(chainOrder, chain, blockHash, [])|;
              trace == old(trace) + Repeat(DoneEntries(api, blockHash, api.getBody(blockHash), txSequence), rounds)
    {
      var canonicalChain := FindCanonicalChain(chainOrder, chain, blockHash, []);
      DoneRounds(blockHash, |canonicalChain|);
    }

    /** The outer loop of `finalize`, one round per canonical chain element. */
    method DoneRounds(blockHash: Hash, rounds: nat)
      requires Valid()
      modifies this`blockToTxs, this`bodyFetches, this`trace
      ensures Valid()
      ensures trace == old(trace) + Repeat(DoneEntries(api, blockHash, api.getBody(blockHash), txSequence), rounds)
    {
      ghost var pass := DoneEntries(api, blockHash, api.getBody(blockHash), txSequence);
      for r := 0 to rounds
        invariant Valid()
        invariant trace == old(trace) + Repeat(pass, r)
      {
        DoneRound(blockHash);
      }
    }

    /** One round of `finalize`: the body, then the inner loop. */
    method DoneRound(blockHash: Hash)
      requires Valid()
      modifies this`blockToTxs, this`bodyFetches, this`trace
      ensures Valid()
      ensures trace == old(trace) + DoneEntries(api, blockHash, api.getBody(blockHash), txSequence)
    {
      var blockTxs := GetTxs(blockHash);
      DonePass(blockHash, blockTxs);
    }

    /** The inner loop of `finalize`. */
    method DonePass(blockHash: Hash, blockTxs: seq<Tx>)
      modifies this`trace
      ensures trace == old(trace) + DoneEntries(api, blockHash, blockTxs, txSequence)
    {
      var q := txSequence;
      for index := 0 to |q|
        invariant trace == old(trace) + DoneEntries(api, blockHash, blockTxs, q[..index])
      {
        var tx := q[index];
        assert q[..index + 1] == q[..index] + [tx];
        if tx in blockTxs {
          var state := api.isTxSuccessful(blockHash, tx);
          trace := trace + [DoneN(tx, Settled.Valid(blockHash, state))];
        }
      }
      assert q[..|q|] == q;
    }

    /** The event switch of the tracker. */
    method Dispatch(e: Event)
      requires Valid()
      requires e.Finalized? ==> Acyclic(ParentOf(chainOrder, chain))
      modifies this
      ensures Valid()
      ensures old(trace) <= trace && NotesFor(e, trace[|old(trace)|..])
    {
      match e
      case NewBlock(h, p) => OnNewBlock(h, p);
      case NewTransaction(tx) => OnNewTx(tx);
      case Finalized(h) => OnFinalized(h);
    }
  }
}
