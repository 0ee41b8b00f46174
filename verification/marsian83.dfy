/** src/solutions/marsian83.ts: a `Chain` object holding a list of block
    records and an id per transaction, and a tracker that settles every body
    entry of each new block and, on finalization, prunes the finalized
    block's siblings and unpins what each prune returns. No operation ever
    adds a child to a block, so in every reachable state the sibling lists
    are empty and finalization does nothing. */
module Marsian83 {
  import opened Types
  import opened Settlement

  /** A block record; `parent` and each child stand for the `{ hash }`
      objects of the source. */
  datatype Block = Block(hash: Hash, parent: Hash, children: seq<Hash>, txns: seq<Tx>)

  // ---------------------------------------------------------------------------
  // The block list

  /** `getBlock`: the position of the first block with this hash. */
  function FindBlock(blocks: seq<Block>, h: Hash): (r: Option<nat>)
    ensures r.Some? ==> r.value < |blocks| && blocks[r.value].hash == h
                        && forall j | 0 <= j < r.value :: blocks[j].hash != h
    ensures r.None? ==> forall j | 0 <= j < |blocks| :: blocks[j].hash != h
  {
    if blocks == [] then None
    else if blocks[0].hash == h then Some(0)
    else match FindBlock(blocks[1..], h)
      case None => None
      case Some(i) => Some(i + 1)
  }

  /** `children.filter(sibling => sibling.hash !== h)`. */
  function Without(cs: seq<Hash>, h: Hash): (r: seq<Hash>)
    ensures forall c :: c in r <==> c in cs && c != h
  {
    if cs == [] then [] else (if cs[0] == h then [] else [cs[0]]) + Without(cs[1..], h)
  }

  /** `siblings`: the other children of the block's parent, or nothing if
      the block or its parent is unknown. */
  function Siblings(blocks: seq<Block>, h: Hash): (sibs: seq<Hash>)
    ensures FindBlock(blocks, h).None? ==> sibs == []
    ensures forall c | c in sibs :: c != h && exists j | 0 <= j < |blocks| :: c in blocks[j].children
  {
    match FindBlock(blocks, h)
    case None => []
    case Some(i) =>
      match FindBlock(blocks, blocks[i].parent)
      case None => []
      case Some(j) => Without(blocks[j].children, blocks[i].hash)
  }

  /** No block has a child: what every operation of the chain keeps. */
  ghost predicate Childless(blocks: seq<Block>)
  {
    forall j | 0 <= j < |blocks| :: blocks[j].children == []
  }

  /** Without children no block has siblings. */
  lemma ChildlessNoSiblings(blocks: seq<Block>, h: Hash)
    requires Childless(blocks)
    ensures Siblings(blocks, h) == []
  {
  }

  /** `registerTxn`: append to the first block with this hash, if any. */
  function Register(blocks: seq<Block>, h: Hash, txns: seq<Tx>): (r: seq<Block>)
    ensures |r| == |blocks|
    ensures forall j | 0 <= j < |r| :: r[j].hash == blocks[j].hash && r[j].parent == blocks[j].parent
                                        && r[j].children == blocks[j].children
    ensures forall j | 0 <= j < |r| :: r[j].txns == blocks[j].txns + if FindBlock(blocks, h) == Some(j) then txns else []
  {
    match FindBlock(blocks, h)
    case None => blocks
    case Some(i) => blocks[i := blocks[i].(txns := blocks[i].txns + txns)]
  }

  /** Registering keeps every hash in place, so the block found stays the
      same, and registering in two steps is registering the concatenation. */
  lemma RegisterStep(blocks: seq<Block>, h: Hash, t: seq<Tx>, x: Tx)
    ensures Register(blocks, h, []) == blocks
    ensures Register(Register(blocks, h, t), h, [x]) == Register(blocks, h, t + [x])
  {
    var r := Register(blocks, h, t);
    SameHashesSameBlock(blocks, r, h);
    match FindBlock(blocks, h)
    case None =>
    case Some(i) =>
      assert blocks[i].txns + [] == blocks[i].txns;
      assert blocks[i].txns + t + [x] == blocks[i].txns + (t + [x]);
  }

  lemma {:induction false} SameHashesSameBlock(a: seq<Block>, b: seq<Block>, h: Hash)
    requires |a| == |b| && forall j | 0 <= j < |a| :: a[j].hash == b[j].hash
    ensures FindBlock(a, h) == FindBlock(b, h)
    decreases |a|
  {
    if a != [] {
      SameHashesSameBlock(a[1..], b[1..], h);
    }
  }

  /** `removeBlock`: drop the first block with this hash (the object found
      by `getBlock`), if any. */
  function RemoveBlock(blocks: seq<Block>, h: Hash): (r: seq<Block>)
    ensures FindBlock(blocks, h).None? ==> r == blocks
    ensures FindBlock(blocks, h).Some? ==>
              multiset(r) == multiset(blocks) - multiset{blocks[FindBlock(blocks, h).value]}
              && |r| == |blocks| - 1
  {
    match FindBlock(blocks, h)
    case None => blocks
    case Some(i) =>
      assert blocks == blocks[..i] + [blocks[i]] + blocks[i + 1..];
      RemoveAt(blocks, i)
  }

  // ---------------------------------------------------------------------------
  // Pruning

  /** Children rank below their parent: the recursion of `pruneBranch`
      follows child links and so ends. */
  ghost predicate ChildRanked(blocks: seq<Block>, rank: map<Hash, nat>)
  {
    forall j, c | 0 <= j < |blocks| && c in blocks[j].children ::
      c in rank && blocks[j].hash in rank && rank[c] < rank[blocks[j].hash]
  }

  function Measure(rank: map<Hash, nat>, h: Hash): nat
  {
    if h in rank then rank[h] + 1 else 0
  }

  /** Dropping blocks keeps the ranking. */
  lemma RankedSub(blocks: seq<Block>, r: seq<Block>, rank: map<Hash, nat>)
    requires ChildRanked(blocks, rank) && multiset(r) <= multiset(blocks)
    ensures ChildRanked(r, rank)
  {
    forall j, c | 0 <= j < |r| && c in r[j].children
      ensures c in rank && r[j].hash in rank && rank[c] < rank[r[j].hash]
    {
      assert r[j] in multiset(r);
      var k :| 0 <= k < |blocks| && blocks[k] == r[j];
    }
  }

  /** The blocks after `pruneBranch(h)`: prune each child of the first block
      with this hash in turn, then remove that block; unknown hashes change
      nothing. Only blocks are removed. */
  function Prune(blocks: seq<Block>, h: Hash, rank: map<Hash, nat>): (r: seq<Block>)
    requires ChildRanked(blocks, rank)
    ensures multiset(r) <= multiset(blocks)
    ensures FindBlock(blocks, h).None? ==> r == blocks
    decreases Measure(rank, h), 1
  {
    match FindBlock(blocks, h)
    case None => blocks
    case Some(i) =>
      var after := PruneAll(blocks, blocks[i].children, Measure(rank, h), rank);
      RankedSub(blocks, after, rank);
      RemoveBlock(after, h)
  }

  /** The loop of `pruneBranch` over the children, in order. */
  function PruneAll(blocks: seq<Block>, cs: seq<Hash>, bound: nat, rank: map<Hash, nat>): (r: seq<Block>)
    requires ChildRanked(blocks, rank)
    requires forall c | c in cs :: Measure(rank, c) < bound
    ensures multiset(r) <= multiset(blocks)
    decreases bound, 0, |cs|
  {
    if cs == [] then blocks
    else
      var next := Prune(blocks, cs[0], rank);
      RankedSub(blocks, next, rank);
      PruneAll(next, cs[1..], bound, rank)
  }

  /** The state of the loop of `pruneBranch` after `k` children, started
      from `b0`. */
  ghost predicate PruneState(b0: seq<Block>, b: seq<Block>, cs: seq<Hash>, k: nat, bound: nat, rank: map<Hash, nat>)
    requires k <= |cs|
  {
    && ChildRanked(b0, rank) && ChildRanked(b, rank)
    && (forall c | c in cs :: Measure(rank, c) < bound)
    && PruneAll(b, cs[k..], bound, rank) == PruneAll(b0, cs, bound, rank)
  }

  /** One round of the loop of `pruneBranch`: prune the next child, then
      the rest. */
  lemma PruneAllStep(b0: seq<Block>, b: seq<Block>, cs: seq<Hash>, k: nat, bound: nat, rank: map<Hash, nat>)
    requires k < |cs| && PruneState(b0, b, cs, k, bound, rank)
    ensures PruneState(b0, Prune(b, cs[k], rank), cs, k + 1, bound, rank)
  {
    assert cs[k..][1..] == cs[k + 1..];
    RankedSub(b, Prune(b, cs[k], rank), rank);
  }

  /** Dropping blocks keeps a childless chain childless. */
  lemma ChildlessSub(blocks: seq<Block>, rest: seq<Block>)
    requires Childless(blocks) && multiset(rest) <= multiset(blocks)
    ensures Childless(rest)
  {
    forall j | 0 <= j < |rest|
      ensures rest[j].children == []
    {
      assert rest[j] in multiset(blocks);
    }
  }

  /** Without children, pruning a block removes exactly that block. */
  lemma ChildlessPrune(blocks: seq<Block>, h: Hash, rank: map<Hash, nat>)
    requires Childless(blocks)
    ensures ChildRanked(blocks, rank)
    ensures Prune(blocks, h, rank) == RemoveBlock(blocks, h)
  {
  }

  /** What `pruneBranch(s) || []` hands to `unpin`: the direct children of
      the block, or nothing for an unknown hash. */
  function PrunedList(blocks: seq<Block>, h: Hash): seq<Hash>
  {
    match FindBlock(blocks, h)
    case None => []
    case Some(i) => blocks[i].children
  }

  /** The finalization loop over the siblings: prune each and unpin what
      the prune returned. */
  datatype Sweep = Sweep(blocks: seq<Block>, notes: seq<Note>)

  function PruneSiblings(blocks: seq<Block>, sibs: seq<Hash>, rank: map<Hash, nat>): (r: Sweep)
    requires ChildRanked(blocks, rank)
    ensures multiset(r.blocks) <= multiset(blocks)
    ensures |r.notes| == |sibs| && forall n | n in r.notes :: n.UnpinN?
    decreases |sibs|
  {
    if sibs == [] then Sweep(blocks, [])
    else
      var next := Prune(blocks, sibs[0], rank);
      RankedSub(blocks, next, rank);
      var rest := PruneSiblings(next, sibs[1..], rank);
      Sweep(rest.blocks, [UnpinN(PrunedList(blocks, sibs[0]))] + rest.notes)
  }

  /** One turn of the finalization loop. */
  lemma PruneSiblingsStep(blocks: seq<Block>, sibs: seq<Hash>, rank: map<Hash, nat>, before: seq<Note>)
    requires ChildRanked(blocks, rank) && sibs != []
    ensures ChildRanked(Prune(blocks, sibs[0], rank), rank)
    ensures var rest := PruneSiblings(Prune(blocks, sibs[0], rank), sibs[1..], rank);
            && PruneSiblings(blocks, sibs, rank).blocks == rest.blocks
            && before + PruneSiblings(blocks, sibs, rank).notes
               == (before + [UnpinN(PrunedList(blocks, sibs[0]))]) + rest.notes
  {
    var next := Prune(blocks, sibs[0], rank);
    RankedSub(blocks, next, rank);
    var rest := PruneSiblings(next, sibs[1..], rank);
    var u := UnpinN(PrunedList(blocks, sibs[0]));
    assert PruneSiblings(blocks, sibs, rank) == Sweep(rest.blocks, [u] + rest.notes);
    assert before + ([u] + rest.notes) == (before + [u]) + rest.notes;
  }

  // ---------------------------------------------------------------------------
  // Settling

  /** The loop of `onNewBlock`: one settled note per body entry, valid with
      the success flag when valid at the block, invalid otherwise. */
  function SettleBody(api: Api, h: Hash, txns: seq<Tx>): (notes: seq<Note>)
    decreases |txns|
  {
    if txns == [] then []
    else SettleBody(api, h, txns[..|txns| - 1]) + [SettledN(txns[|txns| - 1], Judge(api, h, txns[|txns| - 1]))]
  }

  /** The state of the loop of `onNewBlock` after `k` body entries. */
  ghost predicate BodyState(api: Api, h: Hash, txns: seq<Tx>, k: nat, added: seq<Block>, t0: seq<Note>,
                            blocks: seq<Block>, trace: seq<Note>)
    requires k <= |txns|
  {
    blocks == Register(added, h, txns[..k]) && trace == t0 + SettleBody(api, h, txns[..k])
  }

  lemma BodyAdvance(api: Api, h: Hash, txns: seq<Tx>, k: nat, added: seq<Block>, t0: seq<Note>,
                    blocks: seq<Block>, trace: seq<Note>)
    requires k < |txns| && BodyState(api, h, txns, k, added, t0, blocks, trace)
    ensures BodyState(api, h, txns, k + 1, added, t0, Register(blocks, h, [txns[k]]),
                      trace + [SettledN(txns[k], Judge(api, h, txns[k]))])
  {
    PrefixStep(txns, k);
    assert txns[..k + 1][..k] == txns[..k];
    RegisterStep(added, h, txns[..k], txns[k]);
  }

  /** Every body entry, tracked or not, yields exactly one settled note at
      the block, typed valid iff valid there, and entry by entry. */
  lemma {:induction false} SettleBodySpec(api: Api, h: Hash, txns: seq<Tx>)
    ensures var notes := SettleBody(api, h, txns);
            && |notes| == |txns|
            && (forall k | 0 <= k < |notes| ::
                  && notes[k].SettledN? && notes[k].tx == txns[k] && notes[k].s.blockHash == h
                  && (notes[k].s.Valid? <==> api.isTxValid(h, txns[k]))
                  && (notes[k].s.Valid? ==> notes[k].s.successful == api.isTxSuccessful(h, txns[k]))
                  && (notes[k].s.Invalid? <==> !api.isTxValid(h, txns[k])))
    decreases |txns|
  {
    if txns != [] {
      SettleBodySpec(api, h, txns[..|txns| - 1]);
    }
  }

  /** Each transaction is settled as often as the body lists it. */
  lemma {:induction false} SettleBodyCount(api: Api, h: Hash, txns: seq<Tx>, tx: Tx)
    ensures Mentions(SettleBody(api, h, txns), tx) == multiset(txns)[tx]
    decreases |txns|
  {
    if txns != [] {
      var t' := txns[..|txns| - 1];
      var x := txns[|txns| - 1];
      assert txns == t' + [x];
      SettleBodyCount(api, h, t', tx);
    }
  }

  // ---------------------------------------------------------------------------
  // The chain object

  class Chain {
    var blocks: seq<Block>
    var transactionIds: map<Tx, nat>
    var currentTxnId: nat
    /** A ranking of the child links, witnessing that pruning ends. */
    ghost var rank: map<Hash, nat>

    /** Ids are distinct and run from 1 to the last one handed out. */
    ghost predicate Valid()
      reads this
    {
      && ChildRanked(blocks, rank)
      && (forall t | t in transactionIds :: 1 <= transactionIds[t] <= currentTxnId)
      && (forall t, u | t in transactionIds && u in transactionIds && t != u :: transactionIds[t] != transactionIds[u])
    }

    constructor ()
      ensures Valid() && Childless(blocks)
      ensures blocks == [] && transactionIds == map[] && currentTxnId == 0
    {
      blocks, transactionIds, currentTxnId := [], map[], 0;
      rank := map[];
    }

    /** `addBlock`: append a record with no children and no transactions. */
    method AddBlock(hash: Hash, parent: Hash)
      requires Valid()
      modifies this`blocks
      ensures Valid()
      ensures blocks == old(blocks) + [Block(hash, parent, [], [])]
      ensures Childless(old(blocks)) ==> Childless(blocks)
    {
      blocks := blocks + [Block(hash, parent, [], [])];
    }

    /** `addTxn`: give a new transaction the next id; ignore repeats. */
    method AddTxn(txn: Tx)
      requires Valid()
      modifies this`transactionIds, this`currentTxnId
      ensures Valid()
      ensures txn in old(transactionIds) ==> transactionIds == old(transactionIds) && currentTxnId == old(currentTxnId)
      ensures txn !in old(transactionIds) ==>
                currentTxnId == old(currentTxnId) + 1 && transactionIds == old(transactionIds)[txn := currentTxnId]
    {
      if txn in transactionIds {
        return;
      }
      currentTxnId := currentTxnId + 1;
      transactionIds := transactionIds[txn := currentTxnId];
    }

    /** `registerTxn`. */
    method RegisterTxn(blockHash: Hash, txn: Tx)
      requires Valid()
      modifies this`blocks
      ensures Valid()
      ensures blocks == Register(old(blocks), blockHash, [txn])
      ensures Childless(old(blocks)) ==> Childless(blocks)
    {
      var found := FindBlock(blocks, blockHash);
      if found.None? {
        return;
      }
      var i := found.value;
      blocks := blocks[i := blocks[i].(txns := blocks[i].txns + [txn])];
    }

    /** `removeBlock`. */
    method RemoveBlockOf(hash: Hash)
      requires Valid()
      modifies this`blocks
      ensures Valid()
      ensures blocks == RemoveBlock(old(blocks), hash)
    {
      var found := FindBlock(blocks, hash);
      if found.None? {
        return;
      }
      ghost var before := blocks;
      var i := found.value;
      assert before == before[..i] + [before[i]] + before[i + 1..];
      blocks := RemoveAt(blocks, i);
      RankedSub(before, blocks, rank);
    }

    /** `pruneBranch`: prune each child in turn, then remove the block;
        returns the direct children, or nothing for an unknown hash. */
    method PruneBranch(hash: Hash) returns (pruned: Option<seq<Hash>>)
      requires Valid()
      modifies this`blocks
      ensures Valid()
      ensures blocks == Prune(old(blocks), hash, rank)
      ensures pruned == match FindBlock(old(blocks), hash)
                        case None => None
                        case Some(i) => Some(old(blocks)[i].children)
      decreases Measure(rank, hash), 1
    {
      var found := FindBlock(blocks, hash);
      if found.None? {
        return None;
      }
      var block := blocks[found.value];
      var children := block.children;
      assert forall c | c in children :: Measure(rank, c) < Measure(rank, hash);
      var list := PruneChildren(children, Measure(rank, hash));
      RemoveBlockOf(hash);
      return Some(list);
    }

    /** The loop of `pruneBranch`: each child's branch in turn, collecting
        the child hashes. */
    method PruneChildren(children: seq<Hash>, ghost bound: nat) returns (list: seq<Hash>)
      requires Valid() && forall c | c in children :: Measure(rank, c) < bound
      modifies this`blocks
      ensures Valid()
      ensures blocks == PruneAll(old(blocks), children, bound, rank)
      ensures list == children
      decreases bound, 0
    {
      list := [];
      for k := 0 to |children|
        invariant Valid()
        invariant list == children[..k]
        invariant PruneState(old(blocks), blocks, children, k, bound, rank)
      {
        PruneAllStep(old(blocks), blocks, children, k, bound, rank);
        PrefixStep(children, k);
        list := list + [children[k]];
        var _ := PruneBranch(children[k]);
      }
      assert children[..|children|] == children;
    }
  }

  // ---------------------------------------------------------------------------
  // The tracker

  class Tracker {
    const api: Api
    const chain: Chain
    /** Every call to `onTxSettled` and `unpin`, in order. */
    var trace: seq<Note>

    ghost predicate Valid()
      reads this, chain
    {
      chain.Valid()
    }

    constructor (api: Api)
      ensures Valid() && this.api == api && fresh(chain)
      ensures chain.blocks == [] && chain.transactionIds == map[] && trace == []
    {
      this.api := api;
      chain := new Chain();
      trace := [];
    }

    /** `onNewBlock`: add the block, then for each body entry, in the order
        the sort leaves them, register it with the block and settle it.
        `txns` is the body after that sort. */
    method OnNewBlock(blockHash: Hash, parent: Hash, txns: seq<Tx>)
      requires Valid() && multiset(txns) == multiset(api.getBody(blockHash))
      modifies this`trace, chain`blocks
      ensures Valid()
      ensures chain.blocks == Register(old(chain.blocks) + [Block(blockHash, parent, [], [])], blockHash, txns)
      ensures trace == old(trace) + SettleBody(api, blockHash, txns)
      ensures Childless(old(chain.blocks)) ==> Childless(chain.blocks)
      ensures NotesFor(NewBlock(blockHash, parent), trace[|old(trace)|..])
    {
      chain.AddBlock(blockHash, parent);
      ghost var added := chain.blocks;
      RegisterStep(added, blockHash, [], "");
      assert txns[..0] == [];
      for k := 0 to |txns|
        invariant Valid()
        invariant BodyState(api, blockHash, txns, k, added, old(trace), chain.blocks, trace)
        invariant Childless(old(chain.blocks)) ==> Childless(chain.blocks)
      {
        var txn := txns[k];
        BodyAdvance(api, blockHash, txns, k, added, old(trace), chain.blocks, trace);
        chain.RegisterTxn(blockHash, txn);
        var valid := api.isTxValid(blockHash, txn);
        var successful := if valid then api.isTxSuccessful(blockHash, txn) else false;
        trace := trace + [SettledN(txn, if valid then Settled.Valid(blockHash, successful) else Invalid(blockHash))];
      }
      assert txns[..|txns|] == txns;
      SettleBodySpec(api, blockHash, txns);
    }

    /** `onNewTx`. */
    method OnNewTx(transaction: Tx)
      requires Valid()
      modifies chain`transactionIds, chain`currentTxnId
      ensures Valid()
      ensures transaction in old(chain.transactionIds) ==> chain.transactionIds == old(chain.transactionIds)
      ensures transaction !in old(chain.transactionIds) ==>
                chain.transactionIds == old(chain.transactionIds)[transaction := old(chain.currentTxnId) + 1]
    {
      chain.AddTxn(transaction);
    }

    /** `onFinalized`: prune each sibling of the block and unpin what the
        prune returned. */
    method OnFinalized(blockHash: Hash)
      requires Valid()
      modifies this`trace, chain`blocks
      ensures Valid()
      ensures var r := PruneSiblings(old(chain.blocks), Siblings(old(chain.blocks), blockHash), chain.rank);
              chain.blocks == r.blocks && trace == old(trace) + r.notes
      ensures NotesFor(Finalized(blockHash), trace[|old(trace)|..])
      ensures Childless(old(chain.blocks)) ==> Childless(chain.blocks)
    {
      var siblings := Siblings(chain.blocks, blockHash);
      PruneEach(siblings);
      assert trace[|old(trace)|..] == PruneSiblings(old(chain.blocks), siblings, chain.rank).notes;
      if Childless(old(chain.blocks)) {
        ChildlessSub(old(chain.blocks), chain.blocks);
      }
    }

    /** The loop of `onFinalized` over the siblings. */
    method PruneEach(siblings: seq<Hash>)
      requires Valid()
      modifies this`trace, chain`blocks
      ensures Valid()
      ensures var r := PruneSiblings(old(chain.blocks), siblings, chain.rank);
              chain.blocks == r.blocks && trace == old(trace) + r.notes
    {
      ghost var target := PruneSiblings(chain.blocks, siblings, chain.rank);
      for k := 0 to |siblings|
        invariant Valid()
        invariant var r := PruneSiblings(chain.blocks, siblings[k..], chain.rank);
                  r.blocks == target.blocks && trace + r.notes == old(trace) + target.notes
      {
        assert siblings[k..][1..] == siblings[k + 1..];
        PruneSiblingsStep(chain.blocks, siblings[k..], chain.rank, trace);
        PruneOne(siblings[k]);
      }
      assert siblings[|siblings|..] == [];
      assert trace + [] == old(trace) + target.notes;
    }

    /** The body of the loop of `onFinalized`. */
    method PruneOne(sibling: Hash)
      requires Valid()
      modifies this`trace, chain`blocks
      ensures Valid()
      ensures chain.blocks == Prune(old(chain.blocks), sibling, chain.rank)
      ensures trace == old(trace) + [UnpinN(PrunedList(old(chain.blocks), sibling))]
    {
      var pruned := chain.PruneBranch(sibling);
      var list := if pruned.Some? then pruned.value else [];
      trace := trace + [UnpinN(list)];
    }

    /** The event switch of the tracker; `txns` is the sorted body of a new
        block. */
    method Dispatch(e: Event, txns: seq<Tx>)
      requires Valid()
      requires e.NewBlock? ==> multiset(txns) == multiset(api.getBody(e.blockHash))
      modifies this`trace, chain`blocks, chain`transactionIds, chain`currentTxnId
      ensures Valid()
      ensures old(trace) <= trace && NotesFor(e, trace[|old(trace)|..])
      ensures Childless(old(chain.blocks)) ==> Childless(chain.blocks)
    {
      match e
      case NewBlock(h, p) => OnNewBlock(h, p, txns);
      case NewTransaction(tx) => OnNewTx(tx);
      case Finalized(h) => OnFinalized(h);
    }
  }

  /** In every state the tracker reaches, finalization prunes nothing and
      unpins nothing: no block ever gets a child. */
  lemma FinalizeIsInert(blocks: seq<Block>, h: Hash, rank: map<Hash, nat>)
    requires Childless(blocks)
    ensures ChildRanked(blocks, rank)
    ensures PruneSiblings(blocks, Siblings(blocks, h), rank) == Sweep(blocks, [])
  {
    ChildlessNoSiblings(blocks, h);
  }
}
