/** src/solutions/johnthecat.ts: a block tree with child lists and finalized
    flags, an insertion-ordered pending set, and per block the transactions
    settled in it. */
module Johnthecat {
  import opened Types
  import opened Settlement

  /** A block as stored: its parent (`""` when absent), the hashes announced
      with it as parent, and whether it has been finalized. */
  datatype Block = Block(hash: Hash, parent: Hash, children: seq<Hash>, finalized: bool)

  /** `rank` strictly decreases from a block to each of its listed children
      that is still stored. */
  ghost predicate ChildRanked(blocks: map<Hash, Block>, rank: map<Hash, nat>)
  {
    && blocks.Keys <= rank.Keys
    && forall h, c | h in blocks && c in blocks[h].children && c in blocks :: rank[c] < rank[h]
  }

  /** Following child lists never returns to a block. */
  ghost predicate ChildAcyclic(blocks: map<Hash, Block>)
  {
    exists rank :: ChildRanked(blocks, rank)
  }

  ghost function Rank(blocks: map<Hash, Block>, h: Hash): nat
    requires ChildAcyclic(blocks) && h in blocks
  {
    var rank :| ChildRanked(blocks, rank);
    rank[h]
  }

  lemma RankDecreases(blocks: map<Hash, Block>, h: Hash, c: Hash)
    requires ChildAcyclic(blocks) && h in blocks && c in blocks[h].children && c in blocks
    ensures Rank(blocks, c) < Rank(blocks, h)
  {
  }

  /** The stored blocks are keyed by their own hash. */
  ghost predicate Keyed(blocks: map<Hash, Block>)
  {
    forall h | h in blocks :: blocks[h].hash == h
  }

  /** `pruneBranch`: the block, then the branch under each stored child in
      child-list order. */
  function Subtree(blocks: map<Hash, Block>, h: Hash): (r: seq<Hash>)
    requires ChildAcyclic(blocks) && h in blocks
    decreases Rank(blocks, h), 1
  {
    [h] + Subtrees(blocks, h, blocks[h].children)
  }

  /** The branches under the stored blocks of `cs`, all children of `h`. */
  function Subtrees(blocks: map<Hash, Block>, h: Hash, cs: seq<Hash>): (r: seq<Hash>)
    requires ChildAcyclic(blocks) && h in blocks
    requires forall c | c in cs :: c in blocks[h].children
    decreases Rank(blocks, h), 0, |cs|
  {
    if cs == [] then []
    else
      var c := cs[|cs| - 1];
      var prev := Subtrees(blocks, h, cs[..|cs| - 1]);
      if c in blocks then
        RankDecreases(blocks, h, c);
        prev + Subtree(blocks, c)
      else prev
  }

  lemma {:induction false} SubtreesHas(blocks: map<Hash, Block>, h: Hash, cs: seq<Hash>, c: Hash)
    requires ChildAcyclic(blocks) && h in blocks
    requires forall x | x in cs :: x in blocks[h].children
    requires c in cs && c in blocks
    ensures forall y | y in Subtree(blocks, c) :: y in Subtrees(blocks, h, cs)
    decreases |cs|
  {
    var prev := cs[..|cs| - 1];
    assert cs == prev + [cs[|cs| - 1]];
    if c in prev {
      SubtreesHas(blocks, h, prev, c);
    }
  }

  lemma {:induction false} SubtreesFrom(blocks: map<Hash, Block>, h: Hash, cs: seq<Hash>, y: Hash)
    requires ChildAcyclic(blocks) && h in blocks
    requires forall x | x in cs :: x in blocks[h].children
    requires y in Subtrees(blocks, h, cs)
    ensures exists c :: c in cs && c in blocks && y in Subtree(blocks, c)
    decreases |cs|
  {
    var c := cs[|cs| - 1];
    var prev := cs[..|cs| - 1];
    if y in Subtrees(blocks, h, prev) {
      SubtreesFrom(blocks, h, prev, y);
      var c' :| c' in prev && c' in blocks && y in Subtree(blocks, c');
      assert c' in cs;
    } else {
      assert c in cs && c in blocks && y in Subtree(blocks, c);
    }
  }

  /** `pruneBranch` lists the block first, then only stored blocks; the list
      is closed under stored children, and every other block in it is a child
      of one listed: the block and exactly its stored descendants. */
  lemma {:induction false} SubtreeSpec(blocks: map<Hash, Block>, h: Hash)
    requires ChildAcyclic(blocks) && h in blocks
    ensures var r := Subtree(blocks, h);
            && r[0] == h
            && (forall y | y in r :: y in blocks)
            && (forall x, c | x in r && c in blocks[x].children && c in blocks :: c in r)
            && (forall y | y in r && y != h :: exists x :: x in r && x in blocks && y in blocks[x].children)
    decreases Rank(blocks, h)
  {
    var r := Subtree(blocks, h);
    var cs := blocks[h].children;
    forall y | y in r && y != h
      ensures y in blocks && exists x :: x in r && x in blocks && y in blocks[x].children
    {
      assert y in Subtrees(blocks, h, cs);
      SubtreesFrom(blocks, h, cs, y);
      var c :| c in cs && c in blocks && y in Subtree(blocks, c);
      RankDecreases(blocks, h, c);
      SubtreeSpec(blocks, c);
      SubtreesHas(blocks, h, cs, c);
      if y == c {
        assert h in r;
      } else {
        var x :| x in Subtree(blocks, c) && x in blocks && y in blocks[x].children;
        assert x in r;
      }
    }
    forall x, c | x in r && c in blocks[x].children && c in blocks
      ensures c in r
    {
      if x == h {
        RankDecreases(blocks, h, c);
        SubtreeSpec(blocks, c);
        SubtreesHas(blocks, h, cs, c);
      } else {
        assert x in Subtrees(blocks, h, cs);
        SubtreesFrom(blocks, h, cs, x);
        var c' :| c' in cs && c' in blocks && x in Subtree(blocks, c');
        RankDecreases(blocks, h, c');
        SubtreeSpec(blocks, c');
        SubtreesHas(blocks, h, cs, c');
      }
    }
  }

  /** The stored blocks not yet finalized. */
  function Unfinalized(blocks: map<Hash, Block>): set<Hash>
  {
    set h | h in blocks && !blocks[h].finalized
  }

  /** Setting a flag changes no child list, so the ranking survives. */
  lemma FlagKeepsAcyclic(blocks: map<Hash, Block>, h: Hash)
    requires ChildAcyclic(blocks) && h in blocks
    ensures ChildAcyclic(blocks[h := blocks[h].(finalized := true)])
  {
    var rank :| ChildRanked(blocks, rank);
    assert ChildRanked(blocks[h := blocks[h].(finalized := true)], rank);
  }

  lemma MarkShrinks(blocks: map<Hash, Block>, h: Hash)
    requires h in blocks && !blocks[h].finalized
    ensures |Unfinalized(blocks[h := blocks[h].(finalized := true)])| < |Unfinalized(blocks)|
  {
    assert Unfinalized(blocks[h := blocks[h].(finalized := true)]) == Unfinalized(blocks) - {h};
  }

  /** `finalizeBlock` never looks up a missing parent: walking up from `h`
      through blocks it marks, every truthy parent it reaches is stored
      (otherwise the source throws on `undefined.finalized`). */
  predicate WalkSafe(blocks: map<Hash, Block>, h: Hash)
    requires h in blocks
    decreases |Unfinalized(blocks)|
  {
    var b := blocks[h];
    if b.finalized || b.parent == "" then true
    else if b.parent !in blocks then false
    else
      MarkShrinks(blocks, h);
      WalkSafe(blocks[h := b.(finalized := true)], b.parent)
  }

  /** The sibling loop of `finalizeBlock`: the branch of every stored sibling
      other than the block itself, in the parent's child-list order. */
  function SiblingBranches(blocks: map<Hash, Block>, h: Hash, sibs: seq<Hash>): (r: seq<Hash>)
    requires ChildAcyclic(blocks)
  {
    if sibs == [] then []
    else
      var s := sibs[|sibs| - 1];
      SiblingBranches(blocks, h, sibs[..|sibs| - 1])
        + (if s in blocks && blocks[s].hash != h then Subtree(blocks, s) else [])
  }

  /** The flag updates of `finalizeBlock` and the blocks it returns as
      finalized. */
  datatype Walked = Walked(blocks: map<Hash, Block>, finalized: seq<Hash>)

  function Walk(blocks: map<Hash, Block>, h: Hash): (r: Walked)
    requires h in blocks && WalkSafe(blocks, h)
    decreases |Unfinalized(blocks)|
  {
    var b := blocks[h];
    if b.finalized then Walked(blocks, [])
    else
      var m := blocks[h := b.(finalized := true)];
      if b.parent == "" then Walked(m, [h])
      else
        MarkShrinks(blocks, h);
        var up := Walk(m, b.parent);
        Walked(up.blocks, [h] + up.finalized)
  }

  /** The blocks `finalizeBlock` returns as pruned: at each block it marks,
      the sibling branches when the parent is stored with more than one
      child, then those of the parent's walk. */
  function WalkPruned(blocks: map<Hash, Block>, h: Hash): (r: seq<Hash>)
    requires ChildAcyclic(blocks) && h in blocks && WalkSafe(blocks, h)
    decreases |Unfinalized(blocks)|
  {
    var b := blocks[h];
    if b.finalized || b.parent == "" then []
    else
      var m := blocks[h := b.(finalized := true)];
      FlagKeepsAcyclic(blocks, h);
      MarkShrinks(blocks, h);
      var sib := if b.parent in m && |m[b.parent].children| > 1 then SiblingBranches(m, h, m[b.parent].children) else [];
      sib + WalkPruned(m, b.parent)
  }

  /** `finalizeBlock`: an already finalized block yields nothing and changes
      nothing. Otherwise exactly the listed blocks, each once, become
      finalized, and no other field of any block changes. */
  lemma WalkFlags(blocks: map<Hash, Block>, h: Hash)
    requires h in blocks && WalkSafe(blocks, h)
    ensures var r := Walk(blocks, h);
            && (blocks[h].finalized ==> r == Walked(blocks, []))
            && r.blocks.Keys == blocks.Keys
            && (forall k | k in blocks :: r.blocks[k] == blocks[k].(finalized := r.blocks[k].finalized))
            && (forall k | k in blocks :: r.blocks[k].finalized <==> blocks[k].finalized || k in r.finalized)
            && (forall k | k in r.finalized :: k in blocks && !blocks[k].finalized)
            && NoDuplicates(r.finalized)
  {
    WalkShape(blocks, h);
    WalkMarks(blocks, h);
  }

  lemma {:induction false} WalkShape(blocks: map<Hash, Block>, h: Hash)
    requires h in blocks && WalkSafe(blocks, h)
    ensures var r := Walk(blocks, h);
            && (blocks[h].finalized ==> r == Walked(blocks, []))
            && r.blocks.Keys == blocks.Keys
            && (forall k | k in blocks :: r.blocks[k] == blocks[k].(finalized := r.blocks[k].finalized))
    decreases |Unfinalized(blocks)|
  {
    var b := blocks[h];
    if !b.finalized && b.parent != "" {
      var m := blocks[h := b.(finalized := true)];
      MarkShrinks(blocks, h);
      WalkShape(m, b.parent);
    }
  }

  lemma {:induction false} WalkMarks(blocks: map<Hash, Block>, h: Hash)
    requires h in blocks && WalkSafe(blocks, h)
    ensures var r := Walk(blocks, h);
            && (forall k | k in blocks :: k in r.blocks && (r.blocks[k].finalized <==> blocks[k].finalized || k in r.finalized))
            && (forall k | k in r.finalized :: k in blocks && !blocks[k].finalized)
            && NoDuplicates(r.finalized)
    decreases |Unfinalized(blocks)|
  {
    var b := blocks[h];
    if !b.finalized && b.parent != "" {
      var m := blocks[h := b.(finalized := true)];
      MarkShrinks(blocks, h);
      WalkMarks(m, b.parent);
      WalkShape(m, b.parent);
      var up := Walk(m, b.parent);
      var r := Walk(blocks, h);
      assert r.finalized == [h] + up.finalized;
      assert h !in up.finalized;
      forall k | k in blocks
        ensures r.blocks[k].finalized <==> blocks[k].finalized || k in r.finalized
      {
        assert m[k].finalized <==> blocks[k].finalized || k == h;
      }
    }
  }

  /** The blocks `finalizeBlock` lists: the block first, each next entry the
      parent of the one before, stopping at a root or at a parent that was
      already finalized (or is listed: a parent cycle). */
  lemma {:induction false} WalkChain(blocks: map<Hash, Block>, h: Hash)
    requires h in blocks && WalkSafe(blocks, h)
    ensures var r := Walk(blocks, h);
            && (blocks[h].finalized <==> r.finalized == [])
            && (!blocks[h].finalized ==> r.finalized[0] == h)
            && (forall k | k in r.finalized :: k in blocks)
            && (forall i | 0 <= i < |r.finalized| - 1 :: r.finalized[i + 1] == blocks[r.finalized[i]].parent)
            && (|r.finalized| > 0 ==>
                  var p := blocks[r.finalized[|r.finalized| - 1]].parent;
                  p == "" || (p in blocks && (blocks[p].finalized || p in r.finalized)))
    decreases |Unfinalized(blocks)|
  {
    var b := blocks[h];
    if !b.finalized && b.parent != "" {
      var m := blocks[h := b.(finalized := true)];
      MarkShrinks(blocks, h);
      WalkChain(m, b.parent);
      var up := Walk(m, b.parent);
      var r := Walk(blocks, h);
      assert r.finalized == [h] + up.finalized;
      assert forall k | k in r.finalized :: k in blocks;
      assert forall k | k in m :: m[k].parent == blocks[k].parent;
      forall i | 0 <= i < |r.finalized| - 1
        ensures r.finalized[i + 1] == blocks[r.finalized[i]].parent
      {
        if i > 0 {
          assert r.finalized[i] == up.finalized[i - 1] && r.finalized[i + 1] == up.finalized[i];
        } else {
          assert r.finalized[1] == up.finalized[0];
        }
      }
      var last := r.finalized[|r.finalized| - 1];
      var p := blocks[last].parent;
      if up.finalized == [] {
        assert last == h && m[p].finalized;
      } else {
        assert last == up.finalized[|up.finalized| - 1];
      }
    }
  }

  /** Everything `finalizeBlock` returns as pruned is a stored block. */
  lemma {:induction false} SiblingBranchesStored(blocks: map<Hash, Block>, h: Hash, sibs: seq<Hash>)
    requires ChildAcyclic(blocks)
    ensures forall y | y in SiblingBranches(blocks, h, sibs) :: y in blocks
    decreases |sibs|
  {
    if sibs != [] {
      SiblingBranchesStored(blocks, h, sibs[..|sibs| - 1]);
      var s := sibs[|sibs| - 1];
      if s in blocks {
        SubtreeSpec(blocks, s);
      }
    }
  }

  lemma {:induction false} WalkPrunedStored(blocks: map<Hash, Block>, h: Hash)
    requires ChildAcyclic(blocks) && h in blocks && WalkSafe(blocks, h)
    ensures forall y | y in WalkPruned(blocks, h) :: y in blocks
    decreases |Unfinalized(blocks)|
  {
    var b := blocks[h];
    if !b.finalized && b.parent != "" {
      var m := blocks[h := b.(finalized := true)];
      FlagKeepsAcyclic(blocks, h);
      MarkShrinks(blocks, h);
      WalkPrunedStored(m, b.parent);
      if b.parent in m && |m[b.parent].children| > 1 {
        SiblingBranchesStored(m, h, m[b.parent].children);
      }
    }
  }

  // ---------------------------------------------------------------------------
  // Settling at a new block

  /** The loop of `newBlock` over the pending set: what stays pending, what is
      recorded under the block, and the settled notifications. */
  datatype Scan = Scan(kept: seq<Tx>, processed: seq<Tx>, notes: seq<Note>)

  function SettleScan(api: Api, h: Hash, body: seq<Tx>, q: seq<Tx>): (r: Scan)
  {
    if q == [] then Scan([], [], [])
    else
      var prev := SettleScan(api, h, body, q[..|q| - 1]);
      var tx := q[|q| - 1];
      if tx in body then
        var s := if api.isTxValid(h, tx) then Settled.Valid(h, api.isTxSuccessful(h, tx)) else Invalid(h);
        Scan(prev.kept, prev.processed + [tx], prev.notes + [SettledN(tx, s)])
      else if !api.isTxValid(h, tx) then
        Scan(prev.kept + [tx], prev.processed, prev.notes + [SettledN(tx, Invalid(h))])
      else Scan(prev.kept + [tx], prev.processed, prev.notes)
  }

  /** `xs` lists elements of `q` in strictly increasing first position. */
  ghost predicate InOrderOf(xs: seq<Tx>, q: seq<Tx>)
  {
    (forall k | 0 <= k < |xs| :: xs[k] in q) &&
    forall i, j | 0 <= i < j < |xs| :: IndexOf(q, xs[i]) < IndexOf(q, xs[j])
  }

  lemma InOrderExtend(xs: seq<Tx>, q: seq<Tx>, extend: bool)
    requires |q| > 0 && InOrderOf(xs, q[..|q| - 1]) && q[|q| - 1] !in q[..|q| - 1]
    ensures InOrderOf(if extend then xs + [q[|q| - 1]] else xs, q)
  {
    var q' := q[..|q| - 1];
    IndexOfUnique(q, q[|q| - 1], |q| - 1);
    forall k | 0 <= k < |xs|
      ensures IndexOf(q, xs[k]) == IndexOf(q', xs[k]) < |q| - 1
    {
      IndexOfPrefix(q, |q| - 1, xs[k]);
    }
    var r := xs + [q[|q| - 1]];
    if extend {
      forall i, j | 0 <= i < j < |r|
        ensures r[i] in q && r[j] in q && IndexOf(q, r[i]) < IndexOf(q, r[j])
      {
        if j < |xs| {
          assert r[i] == xs[i] && r[j] == xs[j];
        }
      }
    }
  }

  /** The pending branch of `newBlock` leaves both lists duplicate-free and
      reports nothing but settled notifications. */
  lemma NewBlockKeeps(api: Api, h: Hash, parent: Hash, body: seq<Tx>, q: seq<Tx>)
    requires NoDuplicates(q)
    ensures var r := SettleScan(api, h, body, q);
            && NoDuplicates(r.kept) && NoDuplicates(r.processed)
            && NotesFor(NewBlock(h, parent), r.notes)
  {
    SettleScanSplit(api, h, body, q);
    SettleScanNotes(api, h, body, q);
  }

  /** The pending set is split by inclusion in the body: included
      transactions are recorded in arrival order, the others stay pending. */
  lemma {:induction false} SettleScanSplit(api: Api, h: Hash, body: seq<Tx>, q: seq<Tx>)
    requires NoDuplicates(q)
    ensures var r := SettleScan(api, h, body, q);
            && (forall tx :: tx in r.kept <==> tx in q && tx !in body)
            && (forall tx :: tx in r.processed <==> tx in q && tx in body)
            && NoDuplicates(r.kept) && InOrderOf(r.processed, q)
  {
    SettleScanMembers(api, h, body, q);
    SettleScanOrder(api, h, body, q);
  }

  lemma {:induction false} SettleScanMembers(api: Api, h: Hash, body: seq<Tx>, q: seq<Tx>)
    ensures var r := SettleScan(api, h, body, q);
            && (forall tx :: tx in r.kept <==> tx in q && tx !in body)
            && (forall tx :: tx in r.processed <==> tx in q && tx in body)
    decreases |q|
  {
    if q != [] {
      var q' := q[..|q| - 1];
      assert q == q' + [q[|q| - 1]];
      SettleScanMembers(api, h, body, q');
    }
  }

  lemma {:induction false} SettleScanOrder(api: Api, h: Hash, body: seq<Tx>, q: seq<Tx>)
    requires NoDuplicates(q)
    ensures var r := SettleScan(api, h, body, q);
            NoDuplicates(r.kept) && InOrderOf(r.processed, q)
    decreases |q|
  {
    if q != [] {
      var q' := q[..|q| - 1];
      var tx := q[|q| - 1];
      NoDuplicatesPrefix(q);
      SettleScanOrder(api, h, body, q');
      SettleScanMembers(api, h, body, q');
      var prev := SettleScan(api, h, body, q');
      InOrderExtend(prev.processed, q, tx in body);
      if tx !in body {
        NoDuplicatesAppend(prev.kept, tx);
      }
    }
  }

  /** Included transactions are settled valid (with the success flag) or
      invalid by `isTxValid`; excluded ones are settled invalid whenever
      `isTxValid` says so, and otherwise not at all; notifications follow
      arrival order. */
  lemma {:induction false} SettleScanNotes(api: Api, h: Hash, body: seq<Tx>, q: seq<Tx>)
    requires NoDuplicates(q)
    ensures var r := SettleScan(api, h, body, q);
            && InArrivalOrder(r.notes, q)
            && (forall n | n in r.notes ::
                  && n.SettledN?
                  && (n.tx in body ==> n.s == if api.isTxValid(h, n.tx) then Settled.Valid(h, api.isTxSuccessful(h, n.tx)) else Invalid(h))
                  && (n.tx !in body ==> n.s == Invalid(h) && !api.isTxValid(h, n.tx)))
            && (forall tx | tx in q && (tx in body || !api.isTxValid(h, tx)) :: exists n :: n in r.notes && n.tx == tx)
    decreases |q|
  {
    if q != [] {
      var q' := q[..|q| - 1];
      var tx := q[|q| - 1];
      assert q == q' + [tx];
      NoDuplicatesPrefix(q);
      SettleScanNotes(api, h, body, q');
      var prev := SettleScan(api, h, body, q');
      var r := SettleScan(api, h, body, q);
      if tx in body || !api.isTxValid(h, tx) {
        assert r.notes[|r.notes| - 1].tx == tx;
        ArrivalOrderExtend(prev.notes, q, r.notes[|r.notes| - 1]);
      } else {
        ArrivalOrderWiden(prev.notes, q);
      }
    }
  }

  // ---------------------------------------------------------------------------
  // Reporting finalized blocks

  /** The state reported done for `tx` recorded under block `b`: valid and
      successful, or invalid (a valid but unsuccessful one is reported
      invalid). */
  function DoneState(api: Api, b: Hash, tx: Tx): (s: Settled)
    ensures s.blockHash == b
    ensures s.Valid? <==> api.isTxValid(b, tx) && api.isTxSuccessful(b, tx)
    ensures s.Valid? ==> s.successful
    ensures !s.Untyped?
  {
    if api.isTxValid(b, tx) && api.isTxSuccessful(b, tx) then Settled.Valid(b, true) else Invalid(b)
  }

  /** The inner loop: one done notification per recorded transaction. */
  function DoneList(api: Api, b: Hash, txs: seq<Tx>): (r: seq<Note>)
    ensures |r| == |txs|
    ensures forall k | 0 <= k < |txs| :: r[k] == DoneN(txs[k], DoneState(api, b, txs[k]))
  {
    if txs == [] then []
    else DoneList(api, b, txs[..|txs| - 1]) + [DoneN(txs[|txs| - 1], DoneState(api, b, txs[|txs| - 1]))]
  }

  /** The outer loop over the finalized blocks: each record is read, deleted,
      and reported. */
  datatype Report = Report(settled: map<Hash, seq<Tx>>, notes: seq<Note>)

  function DoneAll(api: Api, st: map<Hash, seq<Tx>>, fin: seq<Hash>): (r: Report)
  {
    if fin == [] then Report(st, [])
    else
      var prev := DoneAll(api, st, fin[..|fin| - 1]);
      var b := fin[|fin| - 1];
      Report(prev.settled - {b},
             prev.notes + (if b in prev.settled then DoneList(api, b, prev.settled[b]) else []))
  }

  /** Every finalized block's record is deleted, and only those. Every done
      notification is about a transaction recorded under one of the blocks,
      at that block and with its done state. */
  lemma {:induction false} DoneAllRecords(api: Api, st: map<Hash, seq<Tx>>, fin: seq<Hash>)
    ensures var r := DoneAll(api, st, fin);
            && r.settled == (map k | k in st && k !in fin :: st[k])
            && (forall n | n in r.notes ::
                  && n.DoneN? && n.s.blockHash in fin && n.s.blockHash in st
                  && n.tx in st[n.s.blockHash] && n.s == DoneState(api, n.s.blockHash, n.tx))
    decreases |fin|
  {
    if fin != [] {
      var f' := fin[..|fin| - 1];
      var b := fin[|fin| - 1];
      assert fin == f' + [b];
      DoneAllRecords(api, st, f');
      var prev := DoneAll(api, st, f');
      if b in prev.settled {
        var l := DoneList(api, b, prev.settled[b]);
        forall n | n in l
          ensures n.DoneN? && n.s.blockHash == b && n.tx in st[b] && n.s == DoneState(api, b, n.tx)
        {
          var k :| 0 <= k < |l| && l[k] == n;
        }
      }
    }
  }

  /** With duplicate-free `fin`, done notifications are grouped by block in
      the order of `fin` (newest finalized block first). */
  lemma {:induction false} DoneAllGrouped(api: Api, st: map<Hash, seq<Tx>>, fin: seq<Hash>)
    requires NoDuplicates(fin)
    ensures var r := DoneAll(api, st, fin);
            forall i, j | 0 <= i < j < |r.notes| ::
              r.notes[i].DoneN? && r.notes[j].DoneN? &&
              r.notes[i].s.blockHash in fin && r.notes[j].s.blockHash in fin &&
              IndexOf(fin, r.notes[i].s.blockHash) <= IndexOf(fin, r.notes[j].s.blockHash)
    decreases |fin|
  {
    if fin != [] {
      var f' := fin[..|fin| - 1];
      var b := fin[|fin| - 1];
      assert fin == f' + [b];
      NoDuplicatesPrefix(fin);
      DoneAllGrouped(api, st, f');
      DoneAllRecords(api, st, f');
      DoneAllRecords(api, st, fin);
      var prev := DoneAll(api, st, f');
      var r := DoneAll(api, st, fin);
      IndexOfUnique(fin, b, |fin| - 1);
      forall n | n in prev.notes
        ensures IndexOf(fin, n.s.blockHash) == IndexOf(f', n.s.blockHash) < |fin| - 1
      {
        IndexOfPrefix(fin, |fin| - 1, n.s.blockHash);
      }
      var added := if b in prev.settled then DoneList(api, b, prev.settled[b]) else [];
      assert r.notes == prev.notes + added;
      GroupedExtend(fin, prev.notes, added);
    }
  }

  lemma GroupedExtend(fin: seq<Hash>, a: seq<Note>, added: seq<Note>)
    requires |fin| > 0 && IndexOf(fin, fin[|fin| - 1]) == |fin| - 1
    requires forall n | n in a :: n.DoneN? && n.s.blockHash in fin && IndexOf(fin, n.s.blockHash) < |fin| - 1
    requires forall i, j | 0 <= i < j < |a| ::
               a[i].DoneN? && a[j].DoneN? && a[i].s.blockHash in fin && a[j].s.blockHash in fin &&
               IndexOf(fin, a[i].s.blockHash) <= IndexOf(fin, a[j].s.blockHash)
    requires forall n | n in added :: n.DoneN? && n.s.blockHash == fin[|fin| - 1]
    ensures var r := a + added;
            forall i, j | 0 <= i < j < |r| ::
              r[i].DoneN? && r[j].DoneN? && r[i].s.blockHash in fin && r[j].s.blockHash in fin &&
              IndexOf(fin, r[i].s.blockHash) <= IndexOf(fin, r[j].s.blockHash)
  {
    var r := a + added;
    forall i, j | 0 <= i < j < |r|
      ensures r[i].DoneN? && r[j].DoneN? && r[i].s.blockHash in fin && r[j].s.blockHash in fin &&
              IndexOf(fin, r[i].s.blockHash) <= IndexOf(fin, r[j].s.blockHash)
    {
      if j >= |a| && i < |a| {
        assert r[i] in a;
        assert r[j] in added;
      } else if i >= |a| {
        assert r[i] in added && r[j] in added;
      } else {
        assert r[i] == a[i] && r[j] == a[j];
      }
    }
  }

  /** With duplicate-free `fin` and records, no (block, transaction) pair is
      reported done twice. */
  lemma {:induction false} DoneAllOnce(api: Api, st: map<Hash, seq<Tx>>, fin: seq<Hash>)
    requires NoDuplicates(fin) && forall k | k in st :: NoDuplicates(st[k])
    ensures var r := DoneAll(api, st, fin);
            forall i, j | 0 <= i < j < |r.notes| ::
              r.notes[i].DoneN? && r.notes[j].DoneN? &&
              (r.notes[i].s.blockHash != r.notes[j].s.blockHash || r.notes[i].tx != r.notes[j].tx)
    decreases |fin|
  {
    if fin != [] {
      var f' := fin[..|fin| - 1];
      var b := fin[|fin| - 1];
      assert fin == f' + [b];
      NoDuplicatesPrefix(fin);
      DoneAllOnce(api, st, f');
      DoneAllRecords(api, st, f');
      var prev := DoneAll(api, st, f');
      var r := DoneAll(api, st, fin);
      var l := if b in prev.settled then prev.settled[b] else [];
      assert NoDuplicates(l);
      var added := if b in prev.settled then DoneList(api, b, prev.settled[b]) else [];
      assert |added| == |l| && forall k | 0 <= k < |l| :: added[k] == DoneN(l[k], DoneState(api, b, l[k]));
      assert r.notes == prev.notes + added;
      forall i, j | 0 <= i < j < |r.notes|
        ensures r.notes[i].s.blockHash != r.notes[j].s.blockHash || r.notes[i].tx != r.notes[j].tx
      {
        if j >= |prev.notes| && i < |prev.notes| {
          assert r.notes[i] in prev.notes && r.notes[i].s.blockHash in f';
          assert r.notes[j] == added[j - |prev.notes|] && r.notes[j].s.blockHash == b;
        } else if i >= |prev.notes| {
          assert r.notes[i] == added[i - |prev.notes|] && r.notes[j] == added[j - |prev.notes|];
        } else {
          assert r.notes[i] == prev.notes[i] && r.notes[j] == prev.notes[j];
        }
      }
    }
  }

  // ---------------------------------------------------------------------------
  // Keeping child lists acyclic

  /** The blocks after `blocks[blockHash] = createBlock(blocks, blockHash, parent)`. */
  function Registered(blocks: map<Hash, Block>, hash: Hash, parent: Hash): (m: map<Hash, Block>)
    ensures m.Keys == blocks.Keys + {hash} && m[hash] == Block(hash, parent, [], false)
  {
    var withChild :=
      if parent != "" && parent in blocks
      then blocks[parent := blocks[parent].(children := blocks[parent].children + [hash])]
      else blocks;
    withChild[hash := Block(hash, parent, [], false)]
  }

  /** Registering a block adds a childless block and at most one edge into
      it, so child lists stay acyclic. */
  lemma RegisterKeepsAcyclic(blocks: map<Hash, Block>, hash: Hash, parent: Hash)
    requires ChildAcyclic(blocks)
    ensures ChildAcyclic(Registered(blocks, hash, parent))
  {
    var rank :| ChildRanked(blocks, rank);
    var rank' := (map k | k in rank :: rank[k] + 1)[hash := 0];
    var m := Registered(blocks, hash, parent);
    forall h, c | h in m && c in m[h].children && c in m
      ensures rank'[c] < rank'[h]
    {
      if c != hash {
        assert h != hash;
        assert c in blocks[h].children;
      }
    }
    assert ChildRanked(m, rank');
  }

  lemma WalkKeepsAcyclic(blocks: map<Hash, Block>, h: Hash)
    requires ChildAcyclic(blocks) && h in blocks && WalkSafe(blocks, h)
    ensures ChildAcyclic(Walk(blocks, h).blocks)
  {
    WalkFlags(blocks, h);
    var rank :| ChildRanked(blocks, rank);
    var m := Walk(blocks, h).blocks;
    forall k | k in m ensures m[k].children == blocks[k].children { }
    assert ChildRanked(m, rank);
  }

  lemma RemoveKeepsAcyclic(blocks: map<Hash, Block>, s: set<Hash>)
    requires ChildAcyclic(blocks)
    ensures ChildAcyclic(blocks - s)
  {
    var rank :| ChildRanked(blocks, rank);
    assert ChildRanked(blocks - s, rank);
  }

  class Tracker {
    /** The chain client the handler closes over. */
    const api: Api
    /** Every announced block still stored, by hash. */
    var blocks: map<Hash, Block>
    /** The pending set, in insertion order. */
    var pendingTransactions: seq<Tx>
    /** For each block whose `newBlock` found pending transactions, those
        included in its body. */
    var settledTransactions: map<Hash, seq<Tx>>
    /** Every call to `onTxSettled` / `onTxDone`, in order. */
    var trace: seq<Note>
    /** The block hashes passed to `getBody`, in order. */
    ghost var bodyFetches: seq<Hash>

    ghost predicate Valid()
      reads this
    {
      && ChildAcyclic(blocks) && Keyed(blocks)
      && NoDuplicates(pendingTransactions)
      && (forall h | h in settledTransactions :: NoDuplicates(settledTransactions[h]))
    }

    constructor (api: Api)
      ensures Valid() && this.api == api
      ensures blocks == map[] && pendingTransactions == [] && settledTransactions == map[]
      ensures trace == [] && bodyFetches == []
    {
      this.api := api;
      blocks, pendingTransactions, settledTransactions, trace, bodyFetches := map[], [], map[], [], [];
      assert ChildRanked(map[], map[]);
    }

    /** `createBlock`: a fresh childless, unfinalized block; its hash is
        appended to the child list of a stored, truthy parent. */
    method CreateBlock(hash: Hash, parent: Hash) returns (block: Block)
      modifies this
      ensures block == Block(hash, parent, [], false)
      ensures blocks ==
                if parent != "" && parent in old(blocks)
                then old(blocks)[parent := old(blocks)[parent].(children := old(blocks)[parent].children + [hash])]
                else old(blocks)
      ensures pendingTransactions == old(pendingTransactions) && settledTransactions == old(settledTransactions)
      ensures trace == old(trace) && bodyFetches == old(bodyFetches)
    {
      block := Block(hash, parent, [], false);
      if parent != "" {
        if parent in blocks {
          var parentBlock := blocks[parent];
          blocks := blocks[parent := parentBlock.(children := parentBlock.children + [hash])];
        }
      }
    }

    /** `pruneBranch`, which reads the blocks and changes nothing. */
    method PruneBranch(h: Hash) returns (pruned: seq<Hash>)
      requires ChildAcyclic(blocks) && h in blocks
      ensures pruned == Subtree(blocks, h)
      decreases Rank(blocks, h)
    {
      pruned := [h];
      var children := blocks[h].children;
      for i := 0 to |children|
        invariant pruned == [h] + Subtrees(blocks, h, children[..i])
      {
        assert children[..i + 1][..i] == children[..i];
        var child := children[i];
        if child in blocks {
          RankDecreases(blocks, h, child);
          var sub := PruneBranch(child);
          pruned := pruned + sub;
        }
      }
      assert children[..|children|] == children;
    }

    /** The sibling loop of `finalizeBlock`, which reads the blocks and
        changes nothing. */
    method CollectSiblings(h: Hash, siblings: seq<Hash>) returns (pruned: seq<Hash>)
      requires ChildAcyclic(blocks)
      ensures pruned == SiblingBranches(blocks, h, siblings)
    {
      pruned := [];
      for i := 0 to |siblings|
        invariant pruned == SiblingBranches(blocks, h, siblings[..i])
      {
        assert siblings[..i + 1][..i] == siblings[..i];
        var sibling := siblings[i];
        if sibling in blocks && blocks[sibling].hash != h {
          var sub := PruneBranch(sibling);
          pruned := pruned + sub;
        }
      }
      assert siblings[..|siblings|] == siblings;
    }

    /** `finalizeBlock`: mark the block and walk up through its parents,
        collecting the branches of the siblings met on the way. */
    method FinalizeBlock(h: Hash) returns (finalized: seq<Hash>, pruned: seq<Hash>)
      requires ChildAcyclic(blocks) && h in blocks && WalkSafe(blocks, h)
      modifies this
      ensures var w := Walk(old(blocks), h);
              blocks == w.blocks && finalized == w.finalized && pruned == WalkPruned(old(blocks), h)
      ensures pendingTransactions == old(pendingTransactions) && settledTransactions == old(settledTransactions)
      ensures trace == old(trace) && bodyFetches == old(bodyFetches)
      decreases |Unfinalized(blocks)|
    {
      finalized, pruned := [], [];
      var block := blocks[h];
      if block.finalized {
        return;
      }
      FlagKeepsAcyclic(blocks, h);
      MarkShrinks(blocks, h);
      blocks := blocks[h := block.(finalized := true)];
      finalized := [h];
      if block.parent != "" {
        if block.parent in blocks && |blocks[block.parent].children| > 1 {
          pruned := CollectSiblings(h, blocks[block.parent].children);
        }
        ghost var m := blocks;
        assert WalkSafe(m, block.parent);
        var upFinalized, upPruned := FinalizeBlock(block.parent);
        assert Walk(old(blocks), h) == Walked(Walk(m, block.parent).blocks, [h] + Walk(m, block.parent).finalized);
        assert WalkPruned(old(blocks), h) == pruned + WalkPruned(m, block.parent);
        pruned := pruned + upPruned;
        finalized := finalized + upFinalized;
      }
    }

    /** `newBlock`: register the block; with a non-empty pending set, fetch
        the body once, settle and record the included transactions, settle
        invalid the excluded invalid ones, and record the block's list. */
    method OnNewBlock(blockHash: Hash, parent: Hash)
      requires Valid()
      modifies this
      ensures Valid()
      ensures blocks == Registered(old(blocks), blockHash, parent)
      ensures old(pendingTransactions) == [] ==>
                && pendingTransactions == [] && settledTransactions == old(settledTransactions)
                && trace == old(trace) && bodyFetches == old(bodyFetches)
      ensures old(pendingTransactions) != [] ==>
                var r := SettleScan(api, blockHash, api.getBody(blockHash), old(pendingTransactions));
                && pendingTransactions == r.kept
                && settledTransactions == old(settledTransactions)[blockHash := r.processed]
                && trace == old(trace) + r.notes
                && bodyFetches == old(bodyFetches) + [blockHash]
      ensures old(trace) <= trace && NotesFor(NewBlock(blockHash, parent), trace[|old(trace)|..])
    {
      var block := CreateBlock(blockHash, parent);
      blocks := blocks[blockHash := block];
      RegisterKeepsAcyclic(old(blocks), blockHash, parent);
      if |pendingTransactions| > 0 {
        var body := api.getBody(blockHash);
        bodyFetches := bodyFetches + [blockHash];
        var processed := SettlePending(blockHash, body);
        NewBlockKeeps(api, blockHash, parent, body, old(pendingTransactions));
        settledTransactions := settledTransactions[blockHash := processed];
        assert trace[|old(trace)|..] == SettleScan(api, blockHash, body, old(pendingTransactions)).notes;
      }
    }

    /** The loop of `newBlock` over the pending set: included transactions
        leave the set and are returned, in set order. */
    method SettlePending(blockHash: Hash, body: seq<Tx>) returns (processed: seq<Tx>)
      requires NoDuplicates(pendingTransactions)
      modifies this
      ensures var r := SettleScan(api, blockHash, body, old(pendingTransactions));
              pendingTransactions == r.kept && processed == r.processed && trace == old(trace) + r.notes
      ensures blocks == old(blocks) && settledTransactions == old(settledTransactions)
      ensures bodyFetches == old(bodyFetches)
    {
      processed := [];
      var q := pendingTransactions;
      for i := 0 to |q|
        invariant blocks == old(blocks) && settledTransactions == old(settledTransactions)
        invariant bodyFetches == old(bodyFetches)
        invariant var r := SettleScan(api, blockHash, body, q[..i]);
                  && pendingTransactions == r.kept + q[i..] && processed == r.processed
                  && trace == old(trace) + r.notes
      {
        processed := SettleNext(blockHash, body, q, i, processed, old(trace));
      }
      assert q[..|q|] == q;
    }

    /** One pass of that loop, for the pending transaction `q[i]`. */
    method SettleNext(blockHash: Hash, body: seq<Tx>, q: seq<Tx>, i: nat, processed0: seq<Tx>, ghost trace0: seq<Note>)
        returns (processed: seq<Tx>)
      requires NoDuplicates(q) && i < |q|
      requires var r := SettleScan(api, blockHash, body, q[..i]);
               && pendingTransactions == r.kept + q[i..] && processed0 == r.processed
               && trace == trace0 + r.notes
      modifies this
      ensures var r := SettleScan(api, blockHash, body, q[..i + 1]);
              && pendingTransactions == r.kept + q[i + 1..] && processed == r.processed
              && trace == trace0 + r.notes
      ensures blocks == old(blocks) && settledTransactions == old(settledTransactions)
      ensures bodyFetches == old(bodyFetches)
    {
      processed := processed0;
      assert q[..i + 1][..i] == q[..i];
      var transaction := q[i];
      ghost var prev := SettleScan(api, blockHash, body, q[..i]);
      assert q[i..] == [transaction] + q[i + 1..];
      if transaction in body {
        NoDuplicatesBefore(q, i);
        SettleScanSplit(api, blockHash, body, q[..i]);
        assert transaction !in prev.kept;
        assert prev.kept + q[i..] == prev.kept + [transaction] + q[i + 1..];
        RemoveFirstAfter(prev.kept, transaction, q[i + 1..]);
        pendingTransactions := RemoveFirst(pendingTransactions, transaction);
        processed := processed + [transaction];
        var valid := api.isTxValid(blockHash, transaction);
        var state: Settled;
        if valid {
          var successful := api.isTxSuccessful(blockHash, transaction);
          state := Settled.Valid(blockHash, successful);
        } else {
          state := Invalid(blockHash);
        }
        trace := trace + [SettledN(transaction, state)];
        assert SettleScan(api, blockHash, body, q[..i + 1])
            == Scan(prev.kept, prev.processed + [transaction], prev.notes + [SettledN(transaction, state)]);
      } else {
        assert prev.kept + q[i..] == (prev.kept + [transaction]) + q[i + 1..];
        var valid := api.isTxValid(blockHash, transaction);
        if !valid {
          trace := trace + [SettledN(transaction, Invalid(blockHash))];
          assert SettleScan(api, blockHash, body, q[..i + 1])
              == Scan(prev.kept + [transaction], prev.processed, prev.notes + [SettledN(transaction, Invalid(blockHash))]);
        } else {
          assert SettleScan(api, blockHash, body, q[..i + 1]) == Scan(prev.kept + [transaction], prev.processed, prev.notes);
        }
      }
    }

    /** `newTransaction`: add to the pending set. */
    method OnNewTx(transaction: Tx)
      requires Valid()
      modifies this
      ensures Valid()
      ensures pendingTransactions ==
                if transaction in old(pendingTransactions) then old(pendingTransactions)
                else old(pendingTransactions) + [transaction]
      ensures blocks == old(blocks) && settledTransactions == old(settledTransactions)
      ensures trace == old(trace) && bodyFetches == old(bodyFetches)
    {
      if transaction !in pendingTransactions {
        pendingTransactions := pendingTransactions + [transaction];
      }
    }

    /** The inner loop of `finalized` for one block's recorded list. */
    method ReportBlock(b: Hash, txs: seq<Tx>)
      modifies this
      ensures trace == old(trace) + DoneList(api, b, txs)
      ensures blocks == old(blocks) && pendingTransactions == old(pendingTransactions)
      ensures settledTransactions == old(settledTransactions) && bodyFetches == old(bodyFetches)
    {
      for k := 0 to |txs|
        invariant trace == old(trace) + DoneList(api, b, txs[..k])
        invariant blocks == old(blocks) && pendingTransactions == old(pendingTransactions)
        invariant settledTransactions == old(settledTransactions) && bodyFetches == old(bodyFetches)
      {
        assert txs[..k + 1][..k] == txs[..k];
        var transaction := txs[k];
        var state: Settled := Invalid(b);
        var valid := api.isTxValid(b, transaction);
        if valid {
          var successful := api.isTxSuccessful(b, transaction);
          if successful {
            state := Settled.Valid(b, true);
          }
        }
        trace := trace + [DoneN(transaction, state)];
      }
      assert txs[..|txs|] == txs;
    }

    /** `finalized`: for a stored block, finalize it and its unfinalized
        ancestors, delete every pruned block, then report and delete the
        record of each newly finalized block, block by block. */
    method OnFinalized(blockHash: Hash)
      requires Valid()
      requires blockHash in blocks ==> WalkSafe(blocks, blockHash)
      modifies this
      ensures Valid()
      ensures pendingTransactions == old(pendingTransactions) && bodyFetches == old(bodyFetches)
      ensures blockHash !in old(blocks) ==>
                blocks == old(blocks) && settledTransactions == old(settledTransactions) && trace == old(trace)
      ensures blockHash in old(blocks) ==>
                var w := Walk(old(blocks), blockHash);
                var d := DoneAll(api, old(settledTransactions), w.finalized);
                && blocks == w.blocks - (set x | x in WalkPruned(old(blocks), blockHash))
                && settledTransactions == d.settled && trace == old(trace) + d.notes
      ensures old(trace) <= trace && NotesFor(Finalized(blockHash), trace[|old(trace)|..])
    {
      if blockHash !in blocks {
        return;
      }
      var finalized, pruned := FinalizeBlock(blockHash);
      ghost var walked := blocks;
      DeletePruned(pruned);
      ReportFinalized(finalized);
      WalkKeepsAcyclic(old(blocks), blockHash);
      WalkFlags(old(blocks), blockHash);
      RemoveKeepsAcyclic(walked, set x | x in pruned);
      DoneAllRecords(api, old(settledTransactions), finalized);
    }

    /** The deletion loop of `finalized`. */
    method DeletePruned(pruned: seq<Hash>)
      modifies this
      ensures blocks == old(blocks) - (set x | x in pruned)
      ensures settledTransactions == old(settledTransactions) && trace == old(trace)
      ensures pendingTransactions == old(pendingTransactions) && bodyFetches == old(bodyFetches)
    {
      for i := 0 to |pruned|
        invariant blocks == old(blocks) - (set x | x in pruned[..i])
        invariant settledTransactions == old(settledTransactions) && trace == old(trace)
        invariant pendingTransactions == old(pendingTransactions) && bodyFetches == old(bodyFetches)
      {
        assert pruned[..i + 1] == pruned[..i] + [pruned[i]];
        assert forall x :: x in pruned[..i + 1] <==> x in pruned[..i] || x == pruned[i];
        blocks := blocks - {pruned[i]};
      }
      assert pruned[..|pruned|] == pruned;
    }

    /** The reporting loop of `finalized`: take and delete each newly
        finalized block's record and report its transactions done. */
    method ReportFinalized(finalized: seq<Hash>)
      modifies this
      ensures var d := DoneAll(api, old(settledTransactions), finalized);
              settledTransactions == d.settled && trace == old(trace) + d.notes
      ensures blocks == old(blocks)
      ensures pendingTransactions == old(pendingTransactions) && bodyFetches == old(bodyFetches)
    {
      for i := 0 to |finalized|
        invariant var d := DoneAll(api, old(settledTransactions), finalized[..i]);
                  settledTransactions == d.settled && trace == old(trace) + d.notes
        invariant blocks == old(blocks)
        invariant pendingTransactions == old(pendingTransactions) && bodyFetches == old(bodyFetches)
      {
        assert finalized[..i + 1][..i] == finalized[..i];
        var b := finalized[i];
        var settled: Option<seq<Tx>> := None;
        if b in settledTransactions {
          settled := Some(settledTransactions[b]);
        }
        settledTransactions := settledTransactions - {b};
        if settled.Some? {
          ReportBlock(b, settled.value);
        }
      }
      assert finalized[..|finalized|] == finalized;
    }

    /** The dispatcher: one handler per event kind. */
    method Dispatch(e: Event)
      requires Valid()
      requires e.Finalized? && e.blockHash in blocks ==> WalkSafe(blocks, e.blockHash)
      modifies this
      ensures Valid()
      ensures old(trace) <= trace && NotesFor(e, trace[|old(trace)|..])
    {
      match e
      case NewBlock(h, p) => OnNewBlock(h, p);
      case NewTransaction(tx) => OnNewTx(tx);
      case Finalized(h) => OnFinalized(h);
    }
  }
}
