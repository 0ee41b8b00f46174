/** src/solutions/divljo31.ts: a tracker whose state lives at module level,
    shared by every tracker the module creates. Each new block settles every
    body entry with its own outcome, then settles whatever is still pending as
    invalid and forgets it; each finalized block reports every body entry as
    done with its own outcome. */
module Divljo31 {
  import opened Types
  import opened Settlement

  /** The module-level `bodies`, `seenBlocks` and `seenTxs`. One object is
      handed to every tracker, as the module's constants are. */
  class Shared {
    var bodies: map<Hash, seq<Tx>>
    var seenBlocks: set<Hash>
    /** The `seenTxs` set, in insertion order. */
    var seenTxs: seq<Tx>

    ghost predicate Valid()
      reads this
    {
      NoDuplicates(seenTxs)
    }

    constructor ()
      ensures Valid() && bodies == map[] && seenBlocks == {} && seenTxs == []
    {
      bodies, seenBlocks, seenTxs := map[], {}, [];
    }
  }

  // ---------------------------------------------------------------------------
  // Settling a new block

  datatype Round = Round(seen: seq<Tx>, notes: seq<Note>)

  /** One turn of the body loop of `onNewBlock`: an unseen entry joins the
      pending set; the entry is settled with its outcome at the block; a
      valid entry leaves the pending set. */
  function SettleStep(api: Api, h: Hash, r: Round, tx: Tx): Round
  {
    var seen := if tx in r.seen then r.seen else r.seen + [tx];
    Round(if api.isTxValid(h, tx) then RemoveFirst(seen, tx) else seen,
          r.notes + [SettledN(tx, Judge(api, h, tx))])
  }

  /** The body loop of `onNewBlock`, over the body in order. */
  function SettleBody(api: Api, h: Hash, seen: seq<Tx>, body: seq<Tx>): Round
    decreases |body|
  {
    if body == [] then Round(seen, [])
    else SettleStep(api, h, SettleBody(api, h, seen, body[..|body| - 1]), body[|body| - 1])
  }

  /** One settled note per body entry, in body order, each with the entry's
      outcome at the block; afterwards the pending set holds exactly the
      pending transactions the body does not list and the body entries
      invalid at the block, each once. */
  lemma {:induction false} SettleBodySpec(api: Api, h: Hash, seen: seq<Tx>, body: seq<Tx>)
    requires NoDuplicates(seen)
    ensures var r := SettleBody(api, h, seen, body);
            && NoDuplicates(r.seen)
            && (forall t :: t in r.seen <==> (t in seen && t !in body) || (t in body && !api.isTxValid(h, t)))
            && |r.notes| == |body|
            && (forall k | 0 <= k < |body| :: r.notes[k] == SettledN(body[k], Judge(api, h, body[k])))
    decreases |body|
  {
    if body != [] {
      var b' := body[..|body| - 1];
      var x := body[|body| - 1];
      assert body == b' + [x];
      SettleBodySpec(api, h, seen, b');
      var p := SettleBody(api, h, seen, b');
      var s := if x in p.seen then p.seen else p.seen + [x];
      if x !in p.seen {
        NoDuplicatesAppend(p.seen, x);
      }
      RemoveFirstNoDuplicates(s, x);
      assert SettleBody(api, h, seen, body).notes[..|b'|] == p.notes;
    }
  }

  /** Each transaction is settled by the loop as often as the body lists
      it. */
  lemma {:induction false} SettleBodyCount(api: Api, h: Hash, seen: seq<Tx>, body: seq<Tx>, tx: Tx)
    ensures Mentions(SettleBody(api, h, seen, body).notes, tx) == multiset(body)[tx]
    decreases |body|
  {
    if body != [] {
      var b' := body[..|body| - 1];
      assert body == b' + [body[|body| - 1]];
      SettleBodyCount(api, h, seen, b', tx);
      var notes := SettleBody(api, h, seen, body).notes;
      assert notes[..|notes| - 1] == SettleBody(api, h, seen, b').notes;
    }
  }

  /** `seenTxs.forEach(...)`: an invalid note for each leftover, in
      insertion order. */
  function Flush(h: Hash, seen: seq<Tx>): (notes: seq<Note>)
    decreases |seen|
  {
    if seen == [] then [] else Flush(h, seen[..|seen| - 1]) + [SettledN(seen[|seen| - 1], Invalid(h))]
  }

  /** Each leftover gets one invalid note at the block, in order. */
  lemma {:induction false} FlushSpec(h: Hash, seen: seq<Tx>, tx: Tx)
    ensures |Flush(h, seen)| == |seen|
    ensures forall k | 0 <= k < |seen| :: Flush(h, seen)[k] == SettledN(seen[k], Invalid(h))
    ensures Mentions(Flush(h, seen), tx) == multiset(seen)[tx]
    decreases |seen|
  {
    if seen != [] {
      var s' := seen[..|seen| - 1];
      assert seen == s' + [seen[|seen| - 1]];
      FlushSpec(h, s', tx);
      assert Flush(h, seen)[..|s'|] == Flush(h, s');
    }
  }

  /** The notes of `onNewBlock` from a pending set. */
  function NewBlockNotes(api: Api, h: Hash, seen: seq<Tx>): seq<Note>
  {
    var r := SettleBody(api, h, seen, api.getBody(h));
    r.notes + Flush(h, r.seen)
  }

  /** `onNewBlock` emits settled notes only. */
  lemma NewBlockNotesSettled(api: Api, h: Hash, seen: seq<Tx>)
    requires NoDuplicates(seen)
    ensures forall n | n in NewBlockNotes(api, h, seen) :: n.SettledN?
  {
    var r := SettleBody(api, h, seen, api.getBody(h));
    SettleBodySpec(api, h, seen, api.getBody(h));
    FlushSpec(h, r.seen, "");
  }

  /** A transaction is settled once per body entry, plus once more as
      invalid when it was pending and not in the body, or is in the body but
      invalid at the block: an invalid body entry is settled invalid twice
      in the same event. */
  lemma NewBlockCount(api: Api, h: Hash, seen: seq<Tx>, tx: Tx)
    requires NoDuplicates(seen)
    ensures var body := api.getBody(h);
            Mentions(NewBlockNotes(api, h, seen), tx)
            == multiset(body)[tx] + if (tx in seen && tx !in body) || (tx in body && !api.isTxValid(h, tx)) then 1 else 0
    ensures var body := api.getBody(h);
            tx in body && !api.isTxValid(h, tx) ==> Mentions(NewBlockNotes(api, h, seen), tx) >= 2
  {
    var body := api.getBody(h);
    var r := SettleBody(api, h, seen, body);
    SettleBodySpec(api, h, seen, body);
    SettleBodyCount(api, h, seen, body, tx);
    FlushSpec(h, r.seen, tx);
    NoDuplicatesCount(r.seen, tx);
    MentionsConcat(r.notes, Flush(h, r.seen), tx);
  }

  /** The done notes of `onFinalized`: one per body entry, with the entry's
      outcome at the block. */
  function DoneBody(api: Api, h: Hash, body: seq<Tx>): (notes: seq<Note>)
    decreases |body|
  {
    if body == [] then [] else DoneBody(api, h, body[..|body| - 1]) + [DoneN(body[|body| - 1], Judge(api, h, body[|body| - 1]))]
  }

  /** Done notes follow the body entry by entry, whatever the tracker has
      seen, so a transaction is reported as often as the body lists it. */
  lemma {:induction false} DoneBodySpec(api: Api, h: Hash, body: seq<Tx>, tx: Tx)
    ensures |DoneBody(api, h, body)| == |body|
    ensures forall k | 0 <= k < |body| :: DoneBody(api, h, body)[k] == DoneN(body[k], Judge(api, h, body[k]))
    ensures Mentions(DoneBody(api, h, body), tx) == multiset(body)[tx]
    decreases |body|
  {
    if body != [] {
      var b' := body[..|body| - 1];
      assert body == b' + [body[|body| - 1]];
      DoneBodySpec(api, h, b', tx);
      assert DoneBody(api, h, body)[..|b'|] == DoneBody(api, h, b');
    }
  }

  // ---------------------------------------------------------------------------
  // The tracker

  class Tracker {
    const api: Api
    const shared: Shared
    /** Every call to `onTxSettled` / `onTxDone` this tracker makes, in order. */
    var trace: seq<Note>

    ghost predicate Valid()
      reads this, shared
    {
      shared.Valid()
    }

    /** The tracker closes over the module's shared state. */
    constructor (api: Api, shared: Shared)
      ensures this.api == api && this.shared == shared && trace == []
    {
      this.api := api;
      this.shared := shared;
      trace := [];
    }

    /** `onNewBlock`: record the body and the block, settle every body entry,
        then settle every leftover pending transaction as invalid and clear
        the pending set. */
    method OnNewBlock(blockHash: Hash, parent: Hash)
      requires Valid()
      modifies this`trace, shared
      ensures Valid()
      ensures shared.bodies == old(shared.bodies)[blockHash := api.getBody(blockHash)]
      ensures shared.seenBlocks == old(shared.seenBlocks) + {blockHash}
      ensures shared.seenTxs == []
      ensures trace == old(trace) + NewBlockNotes(api, blockHash, old(shared.seenTxs))
      ensures NotesFor(NewBlock(blockHash, parent), trace[|old(trace)|..])
    {
      var blockBody := api.getBody(blockHash);
      shared.bodies := shared.bodies[blockHash := blockBody];
      shared.seenBlocks := shared.seenBlocks + {blockHash};
      ghost var t0 := trace;
      ghost var seen0 := shared.seenTxs;
      SettleTxs(blockHash, blockBody);
      if |shared.seenTxs| != 0 {
        FlushPending(blockHash);
      } else {
        assert trace == trace + Flush(blockHash, shared.seenTxs);
      }
      shared.seenTxs := [];
      assert trace == t0 + NewBlockNotes(api, blockHash, seen0);
      NewBlockNotesSettled(api, blockHash, seen0);
      assert trace[|t0|..] == NewBlockNotes(api, blockHash, seen0);
    }

    /** The body loop of `onNewBlock`. */
    method SettleTxs(blockHash: Hash, blockBody: seq<Tx>)
      requires Valid()
      modifies this`trace, shared`seenTxs
      ensures Valid()
      ensures var r := SettleBody(api, blockHash, old(shared.seenTxs), blockBody);
              shared.seenTxs == r.seen && trace == old(trace) + r.notes
    {
      for k := 0 to |blockBody|
        invariant Valid()
        invariant var r := SettleBody(api, blockHash, old(shared.seenTxs), blockBody[..k]);
                  shared.seenTxs == r.seen && trace == old(trace) + r.notes
      {
        assert blockBody[..k + 1] == blockBody[..k] + [blockBody[k]];
        assert blockBody[..k + 1][..k] == blockBody[..k];
        SettleOne(blockHash, blockBody[k]);
      }
      assert blockBody[..|blockBody|] == blockBody;
    }

    /** One turn of the body loop of `onNewBlock`. */
    method SettleOne(blockHash: Hash, tx: Tx)
      requires Valid()
      modifies this`trace, shared`seenTxs
      ensures Valid()
      ensures var r := SettleStep(api, blockHash, Round(old(shared.seenTxs), old(trace)), tx);
              shared.seenTxs == r.seen && trace == r.notes
    {
      if tx !in shared.seenTxs {
        OnNewTx(tx);
      }
      // `blockBody.includes(tx)` holds for every entry of the body.
      if api.isTxValid(blockHash, tx) {
        if api.isTxSuccessful(blockHash, tx) {
          trace := trace + [SettledN(tx, Settled.Valid(blockHash, true))];
        } else {
          trace := trace + [SettledN(tx, Settled.Valid(blockHash, false))];
        }
        RemoveFirstNoDuplicates(shared.seenTxs, tx);
        shared.seenTxs := RemoveFirst(shared.seenTxs, tx);
      } else {
        trace := trace + [SettledN(tx, Invalid(blockHash))];
      }
    }

    /** `seenTxs.forEach(tx => onTxSettled(tx, invalid))`. */
    method FlushPending(blockHash: Hash)
      modifies this`trace
      ensures trace == old(trace) + Flush(blockHash, shared.seenTxs)
    {
      var seen := shared.seenTxs;
      for k := 0 to |seen|
        invariant trace == old(trace) + Flush(blockHash, seen[..k])
      {
        assert seen[..k + 1] == seen[..k] + [seen[k]];
        assert seen[..k + 1][..k] == seen[..k];
        trace := trace + [SettledN(seen[k], Invalid(blockHash))];
      }
      assert seen[..|seen|] == seen;
    }

    /** `onNewTx`: add to the pending set unless it is there. */
    method OnNewTx(transaction: Tx)
      requires Valid()
      modifies shared`seenTxs
      ensures Valid()
      ensures shared.seenTxs == if transaction in old(shared.seenTxs) then old(shared.seenTxs) else old(shared.seenTxs) + [transaction]
      ensures transaction in shared.seenTxs
    {
      if transaction !in shared.seenTxs {
        NoDuplicatesAppend(shared.seenTxs, transaction);
        shared.seenTxs := shared.seenTxs + [transaction];
      }
    }

    /** `onFinalized`: report every body entry as done with its outcome at
        the block. */
    method OnFinalized(blockHash: Hash)
      modifies this`trace
      ensures trace == old(trace) + DoneBody(api, blockHash, api.getBody(blockHash))
      ensures NotesFor(Finalized(blockHash), trace[|old(trace)|..])
    {
      var finalizedBody := api.getBody(blockHash);
      for k := 0 to |finalizedBody|
        invariant trace == old(trace) + DoneBody(api, blockHash, finalizedBody[..k])
      {
        var tx := finalizedBody[k];
        assert finalizedBody[..k + 1] == finalizedBody[..k] + [tx];
        assert finalizedBody[..k + 1][..k] == finalizedBody[..k];
        if api.isTxValid(blockHash, tx) {
          if api.isTxSuccessful(blockHash, tx) {
            trace := trace + [DoneN(tx, Settled.Valid(blockHash, true))];
          } else {
            trace := trace + [DoneN(tx, Settled.Valid(blockHash, false))];
          }
        } else {
          trace := trace + [DoneN(tx, Invalid(blockHash))];
        }
      }
      assert finalizedBody[..|finalizedBody|] == finalizedBody;
      DoneBodySpec(api, blockHash, finalizedBody, "");
      assert trace[|old(trace)|..] == DoneBody(api, blockHash, finalizedBody);
    }

    /** The event switch of the tracker. */
    method Dispatch(e: Event)
      requires Valid()
      modifies this`trace, shared
      ensures Valid()
      ensures old(trace) <= trace && NotesFor(e, trace[|old(trace)|..])
    {
      match e
      case NewBlock(h, p) => OnNewBlock(h, p);
      case NewTransaction(tx) => OnNewTx(tx);
      case Finalized(h) => OnFinalized(h);
    }
  }
}
