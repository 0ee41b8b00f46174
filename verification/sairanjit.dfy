/** src/solutions/sairanjit.ts: a pool of announced transactions, a list of
    blocks in which a new block is nested under the first listed block that
    shares its parent, and handlers that judge every body entry by its
    success alone. */
module Sairanjit {
  import opened Types

  /** A stored block; `children` holds the blocks nested under it. */
  datatype Block = Block(blockHash: Hash, parentHash: Hash, transactions: seq<Tx>, children: seq<Block>)

  /** A pool entry. */
  datatype PoolEntry = PoolEntry(index: int, transaction: Tx, isTxSettled: bool)

  // ---------------------------------------------------------------------------
  // Placing a new block

  /** `blocksArray.find(blk => blk.parentHash === parent)`: the position of
      the first top-level block with the same parent. */
  function FirstWithParent(blocks: seq<Block>, parent: Hash): (r: Option<nat>)
    ensures r.Some? ==> r.value < |blocks| && blocks[r.value].parentHash == parent
                        && forall j | 0 <= j < r.value :: blocks[j].parentHash != parent
    ensures r.None? ==> forall j | 0 <= j < |blocks| :: blocks[j].parentHash != parent
  {
    if blocks == [] then None
    else if blocks[0].parentHash == parent then Some(0)
    else match FirstWithParent(blocks[1..], parent)
      case None => None
      case Some(i) => Some(i + 1)
  }

  /** Where `onNewBlock` puts the new block: as the last child of the first
      top-level block sharing its parent, or else at the end of the list
      (both remaining branches push it there). */
  function Place(blocks: seq<Block>, b: Block): (r: seq<Block>)
  {
    match FirstWithParent(blocks, b.parentHash)
    case None => blocks + [b]
    case Some(i) => blocks[i := blocks[i].(children := blocks[i].children + [b])]
  }

  /** How many blocks the list holds, nested ones included. */
  function Total(blocks: seq<Block>): nat
    decreases blocks
  {
    if blocks == [] then 0
    else
      assert blocks[0] in blocks;
      1 + Total(blocks[0].children) + Total(blocks[1..])
  }

  lemma {:induction false} TotalConcat(a: seq<Block>, b: seq<Block>)
    ensures Total(a + b) == Total(a) + Total(b)
    decreases |a|
  {
    if a != [] {
      assert (a + b)[0] == a[0] && (a + b)[1..] == a[1..] + b;
      TotalConcat(a[1..], b);
    } else {
      assert a + b == b;
    }
  }

  /** The new block is stored exactly once more than before; the top-level
      blocks keep their order and contents except that the first one sharing
      the parent gains it as its last child, and without such a block it is
      appended at the top level. */
  lemma PlaceSpec(blocks: seq<Block>, b: Block)
    requires b.children == []
    ensures Total(Place(blocks, b)) == Total(blocks) + 1
    ensures match FirstWithParent(blocks, b.parentHash)
            case None => Place(blocks, b) == blocks + [b]
            case Some(i) =>
              && |Place(blocks, b)| == |blocks|
              && Place(blocks, b)[i].children == blocks[i].children + [b]
              && forall j | 0 <= j < |blocks| && j != i :: Place(blocks, b)[j] == blocks[j]
  {
    assert Total([b]) == 1 by {
      assert [b][1..] == [];
    }
    match FirstWithParent(blocks, b.parentHash)
    case None =>
      TotalConcat(blocks, [b]);
    case Some(i) =>
      var old_ := blocks[i];
      var new_ := old_.(children := old_.children + [b]);
      var r := Place(blocks, b);
      assert blocks == blocks[..i] + ([old_] + blocks[i + 1..]);
      assert r == blocks[..i] + ([new_] + blocks[i + 1..]);
      TotalConcat(blocks[..i], [old_] + blocks[i + 1..]);
      TotalConcat(blocks[..i], [new_] + blocks[i + 1..]);
      assert ([old_] + blocks[i + 1..])[1..] == blocks[i + 1..];
      assert ([new_] + blocks[i + 1..])[1..] == blocks[i + 1..];
      TotalConcat(old_.children, [b]);
  }

  // ---------------------------------------------------------------------------
  // Notifying

  /** The outcome both handlers give a body entry: valid and successful when
      successful at the block, invalid otherwise. */
  function Verdict(api: Api, h: Hash, tx: Tx): (s: Settled)
    ensures s.blockHash == h && !s.Untyped?
    ensures s.Valid? <==> api.isTxSuccessful(h, tx)
    ensures s.Valid? ==> s.successful
  {
    if api.isTxSuccessful(h, tx) then Valid(h, true) else Invalid(h)
  }

  /** One note per body entry, settled at a new block or done at a
      finalized one. */
  function BodyNotes(api: Api, h: Hash, body: seq<Tx>, done: bool): (notes: seq<Note>)
    decreases |body|
  {
    if body == [] then []
    else
      var tx := body[|body| - 1];
      BodyNotes(api, h, body[..|body| - 1], done)
        + [if done then DoneN(tx, Verdict(api, h, tx)) else SettledN(tx, Verdict(api, h, tx))]
  }

  /** Every body entry, tracked or not, gets exactly one note, in body order,
      judged by its success at the block; so a transaction is named as often
      as the body lists it. */
  lemma {:induction false} BodyNotesSpec(api: Api, h: Hash, body: seq<Tx>, done: bool, tx: Tx)
    ensures |BodyNotes(api, h, body, done)| == |body|
    ensures forall k | 0 <= k < |body| ::
              BodyNotes(api, h, body, done)[k]
              == if done then DoneN(body[k], Verdict(api, h, body[k])) else SettledN(body[k], Verdict(api, h, body[k]))
    ensures Mentions(BodyNotes(api, h, body, done), tx) == multiset(body)[tx]
    decreases |body|
  {
    if body != [] {
      var b' := body[..|body| - 1];
      assert body == b' + [body[|body| - 1]];
      BodyNotesSpec(api, h, b', done, tx);
      assert BodyNotes(api, h, body, done)[..|b'|] == BodyNotes(api, h, b', done);
    }
  }

  // ---------------------------------------------------------------------------
  // The tracker

  class Tracker {
    const api: Api
    var transactionPool: seq<PoolEntry>
    var blocksArray: seq<Block>
    var currentFinalizedBlock: Hash
    /** Every call to `onTxSettled` / `onTxDone`, in order. */
    var trace: seq<Note>

    constructor (api: Api)
      ensures this.api == api && transactionPool == [] && blocksArray == []
      ensures currentFinalizedBlock == "" && trace == []
    {
      this.api := api;
      transactionPool, blocksArray, currentFinalizedBlock, trace := [], [], "", [];
    }

    /** `onNewBlock`: store the block with its body, then settle every body
        entry. */
    method OnNewBlock(blockHash: Hash, parent: Hash)
      modifies this`blocksArray, this`trace
      ensures blocksArray == Place(old(blocksArray), Block(blockHash, parent, api.getBody(blockHash), []))
      ensures trace == old(trace) + BodyNotes(api, blockHash, api.getBody(blockHash), false)
      ensures NotesFor(NewBlock(blockHash, parent), trace[|old(trace)|..])
    {
      var transactionsInBlock := api.getBody(blockHash);
      var block := Block(blockHash, parent, transactionsInBlock, []);
      var parentBlock := FirstWithParent(blocksArray, parent);
      if parentBlock.Some? {
        var i := parentBlock.value;
        blocksArray := blocksArray[i := blocksArray[i].(children := blocksArray[i].children + [block])];
      } else {
        blocksArray := blocksArray + [block];
      }
      Notify(blockHash, transactionsInBlock, false);
    }

    /** The `forEach` of both handlers over a body. */
    method Notify(blockHash: Hash, body: seq<Tx>, done: bool)
      modifies this`trace
      ensures trace == old(trace) + BodyNotes(api, blockHash, body, done)
      ensures forall n | n in trace[|old(trace)|..] :: if done then n.DoneN? else n.SettledN?
    {
      for k := 0 to |body|
        invariant trace == old(trace) + BodyNotes(api, blockHash, body[..k], done)
      {
        var transaction := body[k];
        assert body[..k + 1] == body[..k] + [transaction];
        assert body[..k + 1][..k] == body[..k];
        var isTxSuccessful := api.isTxSuccessful(blockHash, transaction);
        var s := if isTxSuccessful then Valid(blockHash, true) else Invalid(blockHash);
        trace := trace + [if done then DoneN(transaction, s) else SettledN(transaction, s)];
      }
      assert body[..|body|] == body;
      BodyNotesSpec(api, blockHash, body, done, "");
      assert trace[|old(trace)|..] == BodyNotes(api, blockHash, body, done);
    }

    /** `onNewTx`: append an unsettled entry with index 0, duplicates
        included. */
    method OnNewTx(transaction: Tx)
      modifies this`transactionPool
      ensures transactionPool == old(transactionPool) + [PoolEntry(0, transaction, false)]
    {
      transactionPool := transactionPool + [PoolEntry(0, transaction, false)];
    }

    /** `onFinalized`: remember the block, then report every body entry as
        done. */
    method OnFinalized(blockHash: Hash)
      modifies this`currentFinalizedBlock, this`trace
      ensures currentFinalizedBlock == blockHash
      ensures trace == old(trace) + BodyNotes(api, blockHash, api.getBody(blockHash), true)
      ensures NotesFor(Finalized(blockHash), trace[|old(trace)|..])
    {
      currentFinalizedBlock := blockHash;
      var blockTransactions := api.getBody(blockHash);
      Notify(blockHash, blockTransactions, true);
    }

    /** The event switch of the tracker. */
    method Dispatch(e: Event)
      modifies this
      ensures old(trace) <= trace && NotesFor(e, trace[|old(trace)|..])
    {
      match e
      case NewBlock(h, p) => OnNewBlock(h, p);
      case NewTransaction(tx) => OnNewTx(tx);
      case Finalized(h) => OnFinalized(h);
    }
  }
}
