/** src/solutions/GHkrishna.ts: a `BlockManager` keeping block records in an
    insertion-ordered map, and a tracker that settles each tracked,
    not-yet-settled transaction the first time a block body lists it and
    reports every body entry of a finalized block as done. */
module Ghkrishna {
  import opened Types

  /** A stored block record. */
  datatype Block = Block(hash: Hash, parent: Hash, child: seq<Hash>, finalized: bool, transactions: seq<Tx>)

  /** The fields a `Partial<Block>` passed to `updateBlock` may carry. */
  datatype Patch = Patch(
    hash: Option<Hash>, parent: Option<Hash>, child: Option<seq<Hash>>,
    finalized: Option<bool>, transactions: Option<seq<Tx>>)

  /** `{ ...block, ...updatedBlock }`: every field the patch carries wins. */
  function Merge(b: Block, p: Patch): (r: Block)
  {
    Block(
      if p.hash.Some? then p.hash.value else b.hash,
      if p.parent.Some? then p.parent.value else b.parent,
      if p.child.Some? then p.child.value else b.child,
      if p.finalized.Some? then p.finalized.value else b.finalized,
      if p.transactions.Some? then p.transactions.value else b.transactions)
  }

  /** A patch carrying no field changes nothing; a patch carrying every
      field replaces the record; a field the patch lacks keeps its value;
      applying a patch twice is applying it once. */
  lemma MergeSpec(b: Block, p: Patch)
    ensures p == Patch(None, None, None, None, None) ==> Merge(b, p) == b
    ensures p.hash.Some? && p.parent.Some? && p.child.Some? && p.finalized.Some? && p.transactions.Some? ==>
              Merge(b, p) == Block(p.hash.value, p.parent.value, p.child.value, p.finalized.value, p.transactions.value)
    ensures p.hash.None? ==> Merge(b, p).hash == b.hash
    ensures p.child.None? ==> Merge(b, p).child == b.child
    ensures Merge(Merge(b, p), p) == Merge(b, p)
  {
  }

  // ---------------------------------------------------------------------------
  // The map's iteration order

  /** The keys of `order` still in `keys`, in the same order: what deleting
      from a JavaScript `Map` leaves of its iteration order. */
  function Keep(order: seq<Hash>, keys: set<Hash>): (r: seq<Hash>)
    ensures forall k :: k in r <==> k in order && k in keys
    ensures NoDuplicates(order) ==> NoDuplicates(r)
  {
    if order == [] then []
    else (if order[0] in keys then [order[0]] else []) + Keep(order[1..], keys)
  }

  /** Filtering twice is filtering by the smaller key set. */
  lemma {:induction false} KeepKeep(order: seq<Hash>, a: set<Hash>, b: set<Hash>)
    requires b <= a
    ensures Keep(Keep(order, a), b) == Keep(order, b)
  {
    if order != [] {
      KeepKeep(order[1..], a, b);
      if order[0] in a {
        var l := Keep(order, a);
        assert l == [order[0]] + Keep(order[1..], a);
        assert l[0] == order[0] && l[1..] == Keep(order[1..], a);
        assert Keep(l, b) == (if order[0] in b then [order[0]] else []) + Keep(Keep(order[1..], a), b);
        assert Keep(order, b) == (if order[0] in b then [order[0]] else []) + Keep(order[1..], b);
      } else {
        assert order[0] !in b;
        assert Keep(order, a) == [] + Keep(order[1..], a) == Keep(order[1..], a);
        assert Keep(order, b) == [] + Keep(order[1..], b) == Keep(order[1..], b);
      }
    }
  }

  /** `Array.from(values()).filter(block => block.parent === parentHash)`,
      in iteration order. */
  function ByParent(blocks: map<Hash, Block>, order: seq<Hash>, p: Hash): (r: seq<Block>)
    ensures forall b | b in r :: b.parent == p && exists k :: k in order && k in blocks && blocks[k] == b
    ensures forall k | k in order && k in blocks && blocks[k].parent == p :: blocks[k] in r
  {
    if order == [] then []
    else
      var rest := ByParent(blocks, order[1..], p);
      var k := order[0];
      if k in blocks && blocks[k].parent == p then [blocks[k]] + rest else rest
  }

  // ---------------------------------------------------------------------------
  // Deleting a subtree

  /** `deleteBlock`: remove the block, then each hash of its child list, in
      order and recursively; an unknown hash changes nothing. It ends because
      every call that goes on removes a key first. */
  function DeleteTree(blocks: map<Hash, Block>, h: Hash): (r: map<Hash, Block>)
    ensures r.Keys <= blocks.Keys && forall k | k in r :: r[k] == blocks[k]
    ensures h !in r
    ensures h !in blocks ==> r == blocks
    decreases blocks.Keys, 0
  {
    if h !in blocks then blocks
    else DeleteEach(blocks - {h}, blocks[h].child)
  }

  /** `block.child.forEach(child => this.deleteBlock(child))`. */
  function DeleteEach(blocks: map<Hash, Block>, cs: seq<Hash>): (r: map<Hash, Block>)
    ensures r.Keys <= blocks.Keys && forall k | k in r :: r[k] == blocks[k]
    ensures forall c | c in cs :: c !in r
    decreases blocks.Keys, 1, |cs|
  {
    if cs == [] then blocks
    else DeleteEach(DeleteTree(blocks, cs[0]), cs[1..])
  }

  /** The removed blocks are closed under child lists: a removed block's
      listed children are all gone. */
  ghost predicate ChildClosed(blocks: map<Hash, Block>, r: map<Hash, Block>)
  {
    forall k, c | k in blocks && k !in r && c in blocks[k].child :: c !in r
  }

  /** Every removed block other than the roots is listed as a child by a
      removed block. */
  ghost predicate ReachedFrom(blocks: map<Hash, Block>, r: map<Hash, Block>, roots: seq<Hash>)
  {
    forall k | k in blocks && k !in r && k !in roots ::
      exists j :: j in blocks && j !in r && k in blocks[j].child
  }

  /** `deleteBlock(h)` removes `h`, every child listed by a removed block,
      and nothing that is not listed by a removed block. */
  lemma {:induction false} DeleteTreeSpec(blocks: map<Hash, Block>, h: Hash)
    ensures ChildClosed(blocks, DeleteTree(blocks, h))
    ensures ReachedFrom(blocks, DeleteTree(blocks, h), [h])
    decreases blocks.Keys, 0
  {
    if h in blocks {
      var m := blocks - {h};
      var cs := blocks[h].child;
      var r := DeleteEach(m, cs);
      DeleteEachSpec(m, cs);
      assert r == DeleteTree(blocks, h);
      forall k | k in blocks && k !in r && k != h
        ensures exists j :: j in blocks && j !in r && k in blocks[j].child
      {
        if k !in cs {
          var j :| j in m && j !in r && k in m[j].child;
          assert j in blocks && k in blocks[j].child;
        }
      }
    }
  }

  lemma {:induction false} DeleteEachSpec(blocks: map<Hash, Block>, cs: seq<Hash>)
    ensures ChildClosed(blocks, DeleteEach(blocks, cs))
    ensures ReachedFrom(blocks, DeleteEach(blocks, cs), cs)
    decreases blocks.Keys, 1, |cs|
  {
    if cs != [] {
      var n := DeleteTree(blocks, cs[0]);
      var r := DeleteEach(n, cs[1..]);
      DeleteTreeSpec(blocks, cs[0]);
      DeleteEachSpec(n, cs[1..]);
      assert r == DeleteEach(blocks, cs);
      forall k, c | k in blocks && k !in r && c in blocks[k].child
        ensures c !in r
      {
        if k in n {
          assert c in n[k].child;
        }
      }
      forall k | k in blocks && k !in r && k !in cs
        ensures exists j :: j in blocks && j !in r && k in blocks[j].child
      {
        if k in n {
          var j :| j in n && j !in r && k in n[j].child;
          assert j in blocks && k in blocks[j].child;
        } else {
          var j :| j in blocks && j !in n && k in blocks[j].child;
          assert j !in r;
        }
      }
    }
  }

  // ---------------------------------------------------------------------------
  // The block manager

  class BlockManager {
    /** The map's contents. */
    var blocks: map<Hash, Block>
    /** The map's keys in insertion order, which is its iteration order. */
    var order: seq<Hash>

    ghost predicate Valid()
      reads this
    {
      NoDuplicates(order) && forall k :: k in order <==> k in blocks
    }

    constructor ()
      ensures Valid() && blocks == map[] && order == []
    {
      blocks, order := map[], [];
    }

    /** `addBlock`: insert or overwrite under the block's own hash; an
        overwritten key keeps its place in the iteration order. */
    method AddBlock(block: Block)
      requires Valid()
      modifies this
      ensures Valid()
      ensures blocks == old(blocks)[block.hash := block]
      ensures order == if block.hash in old(blocks) then old(order) else old(order) + [block.hash]
      ensures GetBlockById(block.hash) == Some(block)
    {
      if block.hash !in blocks {
        NoDuplicatesAppend(order, block.hash);
        order := order + [block.hash];
      }
      blocks := blocks[block.hash := block];
    }

    /** `getBlocksByParent`: exactly the stored blocks with this parent. */
    function GetBlocksByParent(parentHash: Hash): (r: seq<Block>)
      requires Valid()
      reads this
      ensures forall b | b in r :: b.parent == parentHash && b in blocks.Values
      ensures forall k | k in blocks && blocks[k].parent == parentHash :: blocks[k] in r
    {
      ByParent(blocks, order, parentHash)
    }

    /** `deleteBlock`. */
    method DeleteBlock(blockHash: Hash)
      requires Valid()
      modifies this
      ensures Valid()
      ensures blocks == DeleteTree(old(blocks), blockHash)
      ensures order == Keep(old(order), blocks.Keys)
      decreases blocks.Keys, 0
    {
      var block := GetBlockById(blockHash);
      if block.None? {
        assert Keep(order, blocks.Keys) == order by { KeepAll(order, blocks.Keys); }
        return;
      }
      ghost var order0 := order;
      blocks := blocks - {blockHash};
      order := Keep(order, blocks.Keys);
      var children := block.value.child;
      ghost var start := blocks;
      for k := 0 to |children|
        invariant Valid()
        invariant blocks.Keys <= start.Keys
        invariant DeleteEach(blocks, children[k..]) == DeleteEach(start, children)
        invariant order == Keep(order0, blocks.Keys)
      {
        assert children[k..][1..] == children[k + 1..];
        ghost var before := blocks;
        DeleteBlock(children[k]);
        KeepKeep(order0, before.Keys, blocks.Keys);
      }
      assert children[|children|..] == [];
    }

    /** `getBlockById`. */
    function GetBlockById(blockHash: Hash): (r: Option<Block>)
      reads this
      ensures r.Some? <==> blockHash in blocks
      ensures r.Some? ==> r.value == blocks[blockHash]
    {
      if blockHash in blocks then Some(blocks[blockHash]) else None
    }

    /** `updateBlock`: merge the patch into a stored record; an unknown hash
        changes nothing, and the key keeps its place. */
    method UpdateBlock(blockHash: Hash, updatedBlock: Patch)
      requires Valid()
      modifies this`blocks
      ensures Valid()
      ensures blockHash !in old(blocks) ==> blocks == old(blocks)
      ensures blockHash in old(blocks) ==> blocks == old(blocks)[blockHash := Merge(old(blocks)[blockHash], updatedBlock)]
    {
      var block := GetBlockById(blockHash);
      if block.Some? {
        blocks := blocks[blockHash := Merge(block.value, updatedBlock)];
      }
    }
  }

  lemma {:induction false} KeepAll(order: seq<Hash>, keys: set<Hash>)
    requires forall k | k in order :: k in keys
    ensures Keep(order, keys) == order
  {
    if order != [] {
      KeepAll(order[1..], keys);
    }
  }

  // ---------------------------------------------------------------------------
  // Settling

  /** A `txMap` entry. */
  datatype Entry = Entry(blockHash: Hash, finalizedBlockHash: Hash, settled: bool, done: bool)

  datatype Round = Round(txMap: map<Tx, Entry>, notes: seq<Note>)

  /** Whether the block settles `tx` as valid: valid there and successful. */
  predicate Succeeds(api: Api, h: Hash, tx: Tx)
  {
    api.isTxValid(h, tx) && api.isTxSuccessful(h, tx)
  }

  /** One turn of the body loop of `onNewBlock`: a tracked entry not yet
      settled is settled valid-and-successful and kept, or settled invalid
      and dropped; anything else is skipped. */
  function SettleStep(api: Api, h: Hash, r: Round, tx: Tx): Round
  {
    if tx in r.txMap && !r.txMap[tx].settled then
      if Succeeds(api, h, tx) then
        Round(r.txMap[tx := Entry(h, "", true, false)], r.notes + [SettledN(tx, Valid(h, true))])
      else Round(r.txMap - {tx}, r.notes + [SettledN(tx, Invalid(h))])
    else r
  }

  /** The body loop of `onNewBlock`, over the body in order. */
  function SettleBody(api: Api, h: Hash, m: map<Tx, Entry>, body: seq<Tx>): Round
    decreases |body|
  {
    if body == [] then Round(m, [])
    else SettleStep(api, h, SettleBody(api, h, m, body[..|body| - 1]), body[|body| - 1])
  }

  /** A transaction is notified iff the body lists it and it was tracked and
      not yet settled, and then exactly once, however often the body lists
      it: valid-and-successful settles it and keeps it, anything else settles
      it invalid and forgets it. Entries the body does not list are left as
      they were, and every note is a settled note at the block. */
  lemma {:induction false} SettleBodySpec(api: Api, h: Hash, m: map<Tx, Entry>, body: seq<Tx>)
    ensures var r := SettleBody(api, h, m, body);
            && (forall t | t !in body :: (t in r.txMap <==> t in m) && (t in m ==> r.txMap[t] == m[t]))
            && (forall t | t in body && t in m && !m[t].settled ::
                  if Succeeds(api, h, t) then t in r.txMap && r.txMap[t] == Entry(h, "", true, false)
                  else t !in r.txMap)
            && (forall t | t in body && !(t in m && !m[t].settled) ::
                  (t in r.txMap <==> t in m) && (t in m ==> r.txMap[t] == m[t]))
            && (forall t :: Mentions(r.notes, t) == if t in body && t in m && !m[t].settled then 1 else 0)
            && (forall n | n in r.notes ::
                  n.SettledN? && n.tx in body
                  && n.s == if Succeeds(api, h, n.tx) then Valid(h, true) else Invalid(h))
    decreases |body|
  {
    if body != [] {
      var b' := body[..|body| - 1];
      var x := body[|body| - 1];
      assert body == b' + [x];
      SettleBodySpec(api, h, m, b');
      var p := SettleBody(api, h, m, b');
      var r := SettleBody(api, h, m, body);
      assert r == SettleStep(api, h, p, x);
      if x in p.txMap && !p.txMap[x].settled {
        var n := r.notes[|r.notes| - 1];
        assert r.notes == p.notes + [n];
        assert r.notes[..|r.notes| - 1] == p.notes;
        assert x !in b';
      }
    }
  }

  /** The finalization loop: one done note per body entry, valid and
      successful, at the finalized block. */
  function DoneAll(h: Hash, body: seq<Tx>): (notes: seq<Note>)
    decreases |body|
  {
    if body == [] then [] else DoneAll(h, body[..|body| - 1]) + [DoneN(body[|body| - 1], Valid(h, true))]
  }

  /** Done notes follow the body entry by entry, tracked or not, so a
      transaction is reported as often as the body lists it. */
  lemma {:induction false} DoneAllSpec(h: Hash, body: seq<Tx>)
    ensures var notes := DoneAll(h, body);
            && |notes| == |body|
            && (forall k | 0 <= k < |body| :: notes[k] == DoneN(body[k], Valid(h, true)))
            && (forall t :: Mentions(notes, t) == multiset(body)[t])
    decreases |body|
  {
    if body != [] {
      var b' := body[..|body| - 1];
      assert body == b' + [body[|body| - 1]];
      DoneAllSpec(h, b');
      assert DoneAll(h, body)[..|body| - 1] == DoneAll(h, b');
    }
  }

  // ---------------------------------------------------------------------------
  // The tracker

  class Tracker {
    const api: Api
    const blockManager: BlockManager
    var txMap: map<Tx, Entry>
    /** `undefined` until the first `finalized` event. */
    var latestFinalizedBlock: Hash
    /** Every call to `onTxSettled` / `onTxDone`, in order. */
    var trace: seq<Note>

    ghost predicate Valid()
      reads this, blockManager
    {
      blockManager.Valid()
    }

    constructor (api: Api)
      ensures Valid() && this.api == api && fresh(blockManager)
      ensures blockManager.blocks == map[] && txMap == map[] && latestFinalizedBlock == "" && trace == []
    {
      this.api := api;
      blockManager := new BlockManager();
      txMap, latestFinalizedBlock, trace := map[], "", [];
    }

    /** `onNewBlock`: store the block with its body, append it to the child
        list of a stored, truthy parent, then settle the body. */
    method OnNewBlock(blockHash: Hash, parent: Hash)
      requires Valid()
      modifies this`txMap, this`trace, blockManager
      ensures Valid()
      ensures var added := old(blockManager.blocks)[blockHash := Block(blockHash, parent, [], false, api.getBody(blockHash))];
              blockManager.blocks ==
                if parent != "" && parent in added
                then added[parent := added[parent].(child := added[parent].child + [blockHash])]
                else added
      ensures blockManager.order ==
                if blockHash in old(blockManager.blocks) then old(blockManager.order)
                else old(blockManager.order) + [blockHash]
      ensures var r := SettleBody(api, blockHash, old(txMap), api.getBody(blockHash));
              txMap == r.txMap && trace == old(trace) + r.notes
      ensures NotesFor(NewBlock(blockHash, parent), trace[|old(trace)|..])
    {
      var newBlockTxs := api.getBody(blockHash);
      blockManager.AddBlock(Block(blockHash, parent, [], false, newBlockTxs));
      var parentDetails: Option<Block> := None;
      if parent != "" {
        parentDetails := blockManager.GetBlockById(parent);
      }
      if parentDetails.Some? {
        assert parent in blockManager.blocks;
        blockManager.blocks := blockManager.blocks[parent := parentDetails.value.(child := parentDetails.value.child + [blockHash])];
      }
      SettleTxs(blockHash, newBlockTxs);
    }

    /** The body loop of `onNewBlock`. */
    method SettleTxs(blockHash: Hash, newBlockTxs: seq<Tx>)
      modifies this`txMap, this`trace
      ensures var r := SettleBody(api, blockHash, old(txMap), newBlockTxs);
              txMap == r.txMap && trace == old(trace) + r.notes
      ensures NotesFor(NewBlock(blockHash, ""), trace[|old(trace)|..])
    {
      for k := 0 to |newBlockTxs|
        invariant var r := SettleBody(api, blockHash, old(txMap), newBlockTxs[..k]);
                  txMap == r.txMap && trace == old(trace) + r.notes
      {
        var tx := newBlockTxs[k];
        assert newBlockTxs[..k + 1] == newBlockTxs[..k] + [tx];
        assert newBlockTxs[..k + 1][..k] == newBlockTxs[..k];
        if tx in txMap && !txMap[tx].settled {
          if api.isTxValid(blockHash, tx) && api.isTxSuccessful(blockHash, tx) {
            txMap := txMap[tx := Entry(blockHash, "", true, false)];
            trace := trace + [SettledN(tx, Settled.Valid(blockHash, true))];
          } else {
            txMap := txMap - {tx};
            trace := trace + [SettledN(tx, Invalid(blockHash))];
          }
        }
      }
      assert newBlockTxs[..|newBlockTxs|] == newBlockTxs;
      SettleBodySpec(api, blockHash, old(txMap), newBlockTxs);
      assert trace[|old(trace)|..] == SettleBody(api, blockHash, old(txMap), newBlockTxs).notes;
    }

    /** `onNewTx`: (re)create an entry that is not settled, even over a
        settled one. */
    method OnNewTx(transaction: Tx)
      modifies this`txMap
      ensures txMap == old(txMap)[transaction := Entry("", "", false, false)]
      ensures transaction in txMap && !txMap[transaction].settled
    {
      txMap := txMap[transaction := Entry("", "", false, false)];
    }

    /** `onFinalized`: remember the block, then report every body entry as
        done, valid and successful. */
    method OnFinalized(blockHash: Hash)
      modifies this`latestFinalizedBlock, this`trace
      ensures latestFinalizedBlock == blockHash
      ensures trace == old(trace) + DoneAll(blockHash, api.getBody(blockHash))
      ensures NotesFor(Finalized(blockHash), trace[|old(trace)|..])
    {
      latestFinalizedBlock := blockHash;
      var finalizedTxs := api.getBody(blockHash);
      for k := 0 to |finalizedTxs|
        invariant latestFinalizedBlock == blockHash
        invariant trace == old(trace) + DoneAll(blockHash, finalizedTxs[..k])
      {
        assert finalizedTxs[..k + 1] == finalizedTxs[..k] + [finalizedTxs[k]];
        assert finalizedTxs[..k + 1][..k] == finalizedTxs[..k];
        trace := trace + [DoneN(finalizedTxs[k], Settled.Valid(blockHash, true))];
      }
      assert finalizedTxs[..|finalizedTxs|] == finalizedTxs;
      DoneAllSpec(blockHash, finalizedTxs);
      assert trace[|old(trace)|..] == DoneAll(blockHash, finalizedTxs);
    }

    /** The event switch of the tracker. */
    method Dispatch(e: Event)
      requires Valid()
      modifies this, blockManager
      ensures Valid()
      ensures old(trace) <= trace && NotesFor(e, trace[|old(trace)|..])
    {
      match e
      case NewBlock(h, p) => OnNewBlock(h, p);
      case NewTransaction(tx) => OnNewTx(tx);
      case Finalized(h) => OnFinalized(h);
    }
  }
}
