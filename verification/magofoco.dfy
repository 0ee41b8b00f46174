/** src/solutions/magofoco.ts: arrays of arrivals, blocks and settled records.
    Settling collects the candidates of a block, sorts them by arrival and
    records one settled entry per candidate; finalizing walks the stored
    parents, reports the records settled on that walk and removes them and the
    walked blocks. */
module Magofoco {
  import opened Types
  import opened Settlement
  import opened Ancestry

  /** A stored block. `children` is a single slot, overwritten by each new
      child. */
  datatype Block = Block(blockHash: Hash, parent: Hash, children: Option<Hash>)

  /** A candidate of `newBlock`, tagged with its first arrival position. */
  datatype Arrival = Arrival(transaction: Tx, arrivalIndex: nat)

  /** One settled notification, kept until its block is finalized. */
  datatype SettledRecord = SettledRecord(transaction: Tx, settled: Settled, arrivalIndex: nat)

  // ---------------------------------------------------------------------------
  // The stored blocks

  /** No two stored blocks share a hash. */
  predicate UniqueHashes(blocks: seq<Block>)
  {
    forall i, j | 0 <= i < j < |blocks| :: blocks[i].blockHash != blocks[j].blockHash
  }

  /** `blocks.findIndex(b => b.blockHash === h)`, with `None` for `-1`. */
  function BlockIndex(blocks: seq<Block>, h: Hash): (r: Option<nat>)
    ensures r.Some? ==> r.value < |blocks| && blocks[r.value].blockHash == h
    ensures r.Some? ==> forall k | 0 <= k < r.value :: blocks[k].blockHash != h
    ensures r.None? ==> forall k | 0 <= k < |blocks| :: blocks[k].blockHash != h
  {
    if blocks == [] then None
    else if blocks[0].blockHash == h then Some(0)
    else
      var r := BlockIndex(blocks[1..], h);
      if r.Some? then Some(r.value + 1) else None
  }

  /** The parent links of the stored blocks, keyed by hash. */
  function ParentMap(blocks: seq<Block>): (p: map<Hash, Hash>)
    requires UniqueHashes(blocks)
    ensures forall k | 0 <= k < |blocks| :: blocks[k].blockHash in p && p[blocks[k].blockHash] == blocks[k].parent
    ensures forall h | h in p :: BlockIndex(blocks, h).Some?
  {
    map i | 0 <= i < |blocks| :: blocks[i].blockHash := blocks[i].parent
  }

  /** The block list after `newBlock`: a new hash is appended with an empty
      child slot, then a truthy stored parent's slot is overwritten with the
      new hash. */
  function Announced(blocks: seq<Block>, blockHash: Hash, parent: Hash): (r: seq<Block>)
  {
    var added := if BlockIndex(blocks, blockHash).Some? then blocks else blocks + [Block(blockHash, parent, None)];
    var p := BlockIndex(added, parent);
    if parent != "" && p.Some? then added[p.value := added[p.value].(children := Some(blockHash))]
    else added
  }

  /** Announcing a block keeps hashes unique, stores the hash (with the given
      parent when it is new), moves no block and changes no parent link; only
      a truthy stored parent's child slot changes, to the new hash. */
  lemma AnnouncedSpec(blocks: seq<Block>, blockHash: Hash, parent: Hash)
    requires UniqueHashes(blocks)
    ensures var r := Announced(blocks, blockHash, parent);
            && UniqueHashes(r)
            && |r| == |blocks| + (if BlockIndex(blocks, blockHash).Some? then 0 else 1)
            && (forall k | 0 <= k < |blocks| :: r[k].blockHash == blocks[k].blockHash && r[k].parent == blocks[k].parent)
            && (forall k | 0 <= k < |blocks| && r[k] != blocks[k] :: r[k].blockHash == parent && r[k].children == Some(blockHash))
            && BlockIndex(r, blockHash).Some?
            && (BlockIndex(blocks, blockHash).None? ==> r[|blocks|].parent == parent && r[|blocks|].blockHash == blockHash)
            && (parent != "" && BlockIndex(r, parent).Some? ==> r[BlockIndex(r, parent).value].children == Some(blockHash))
  {
    var added := if BlockIndex(blocks, blockHash).Some? then blocks else blocks + [Block(blockHash, parent, None)];
    assert UniqueHashes(added);
    assert BlockIndex(added, blockHash).Some? by {
      if BlockIndex(blocks, blockHash).None? {
        assert added[|blocks|].blockHash == blockHash;
      }
    }
    var r := Announced(blocks, blockHash, parent);
    assert |r| == |added| && forall k | 0 <= k < |added| ::
      r[k].blockHash == added[k].blockHash && r[k].parent == added[k].parent;
    SameHashesIndex(r, added, blockHash);
    SameHashesIndex(r, added, parent);
  }

  /** Two block lists with the same hashes in the same places find every
      hash at the same index. */
  lemma {:induction false} SameHashesIndex(a: seq<Block>, b: seq<Block>, h: Hash)
    requires |a| == |b| && forall k | 0 <= k < |a| :: a[k].blockHash == b[k].blockHash
    ensures BlockIndex(a, h) == BlockIndex(b, h)
    decreases |a|
  {
    if a != [] {
      SameHashesIndex(a[1..], b[1..], h);
    }
  }

  // ---------------------------------------------------------------------------
  // The finalization walk

  /** The blocks `finalized` walks: the block, then each stored parent, for
      as long as the current hash is stored. */
  function PresentPath(p: map<Hash, Hash>, h: Hash): (path: seq<Hash>)
    requires Acyclic(p)
    decreases Height(p, h)
  {
    if h in p then
      HeightDecreases(p, h);
      [h] + PresentPath(p, p[h])
    else []
  }

  lemma PathUnfold(p: map<Hash, Hash>, h: Hash)
    requires Acyclic(p)
    ensures h in p ==> Height(p, p[h]) < Height(p, h) && PresentPath(p, h) == [h] + PresentPath(p, p[h])
    ensures h !in p ==> PresentPath(p, h) == []
  {
    if h in p {
      HeightDecreases(p, h);
    }
  }

  /** `find` by hash succeeds exactly for the stored hashes, and finds the
      recorded parent. */
  lemma FindInParentMap(blocks: seq<Block>, h: Hash)
    requires UniqueHashes(blocks)
    ensures var i := BlockIndex(blocks, h);
            && (i.Some? <==> h in ParentMap(blocks))
            && (i.Some? ==> blocks[i.value].blockHash == h && blocks[i.value].parent == ParentMap(blocks)[h])
  {
  }

  lemma {:induction false} PathHeights(p: map<Hash, Hash>, h: Hash)
    requires Acyclic(p)
    ensures forall k | k in PresentPath(p, h) :: k in p && Height(p, k) <= Height(p, h)
    decreases Height(p, h)
  {
    if h in p {
      HeightDecreases(p, h);
      PathHeights(p, p[h]);
    }
  }

  /** The walk is empty exactly for an unknown block, starts at the block,
      steps from each block to its parent, ends at a block whose parent is not
      stored, and visits no block twice. */
  lemma {:induction false} PresentPathSpec(p: map<Hash, Hash>, h: Hash)
    requires Acyclic(p)
    ensures var path := PresentPath(p, h);
            && (path == [] <==> h !in p)
            && (path != [] ==> path[0] == h)
            && (forall k | k in path :: k in p)
            && (forall i | 0 <= i < |path| - 1 :: path[i + 1] == p[path[i]])
            && (path != [] ==> p[path[|path| - 1]] !in p)
            && NoDuplicates(path)
    decreases Height(p, h)
  {
    if h in p {
      HeightDecreases(p, h);
      PresentPathSpec(p, p[h]);
      PathHeights(p, p[h]);
      var rest := PresentPath(p, p[h]);
      var path := [h] + rest;
      assert h !in rest;
      forall i | 0 <= i < |path| - 1
        ensures path[i + 1] == p[path[i]]
      {
        if i > 0 {
          assert path[i] == rest[i - 1] && path[i + 1] == rest[i];
        }
      }
      forall i, j | 0 <= i < j < |path|
        ensures path[i] != path[j]
      {
        if i > 0 {
          assert path[i] == rest[i - 1] && path[j] == rest[j - 1];
        } else {
          assert path[j] in rest;
        }
      }
    }
  }

  /** The blocks left after the removal loop of `finalized`: those whose
      hash is not in `hs`, in their stored order. */
  function Drop(blocks: seq<Block>, hs: seq<Hash>): (r: seq<Block>)
  {
    if blocks == [] then []
    else (if blocks[0].blockHash in hs then [] else [blocks[0]]) + Drop(blocks[1..], hs)
  }

  lemma DropMembers(blocks: seq<Block>, hs: seq<Hash>)
    ensures forall b :: b in Drop(blocks, hs) <==> b in blocks && b.blockHash !in hs
    ensures UniqueHashes(blocks) ==> UniqueHashes(Drop(blocks, hs))
  {
    DropKeeps(blocks, hs);
    if UniqueHashes(blocks) {
      DropUnique(blocks, hs);
    }
  }

  lemma {:induction false} DropKeeps(blocks: seq<Block>, hs: seq<Hash>)
    ensures forall b :: b in Drop(blocks, hs) <==> b in blocks && b.blockHash !in hs
    decreases |blocks|
  {
    if blocks != [] {
      DropKeeps(blocks[1..], hs);
      assert blocks == [blocks[0]] + blocks[1..];
    }
  }

  lemma {:induction false} DropUnique(blocks: seq<Block>, hs: seq<Hash>)
    requires UniqueHashes(blocks)
    ensures UniqueHashes(Drop(blocks, hs))
    decreases |blocks|
  {
    if blocks != [] {
      UniqueTail(blocks);
      DropUnique(blocks[1..], hs);
      DropKeeps(blocks[1..], hs);
      var rest := Drop(blocks[1..], hs);
      var r := Drop(blocks, hs);
      if blocks[0].blockHash !in hs {
        assert r == [blocks[0]] + rest;
        forall i, j | 0 <= i < j < |r|
          ensures r[i].blockHash != r[j].blockHash
        {
          if i == 0 {
            assert r[j] in rest;
            var k :| 0 <= k < |blocks[1..]| && blocks[1..][k] == r[j];
          } else {
            assert r[i] == rest[i - 1] && r[j] == rest[j - 1];
          }
        }
      }
    }
  }

  /** One pass of the removal loop: removing the block found by hash (if
      any) is dropping that hash too. */
  lemma DropStep(blocks: seq<Block>, hs: seq<Hash>, h: Hash)
    requires UniqueHashes(blocks)
    ensures var d := Drop(blocks, hs);
            var i := BlockIndex(d, h);
            (if i.Some? then RemoveAt(d, i.value) else d) == Drop(blocks, hs + [h])
  {
    DropMembers(blocks, hs);
    DropOne(Drop(blocks, hs), h);
    DropTwice(blocks, hs, h);
  }

  /** With unique hashes, `findIndex` then `splice` removes every block
      with that hash. */
  lemma {:induction false} DropOne(blocks: seq<Block>, h: Hash)
    requires UniqueHashes(blocks)
    ensures var i := BlockIndex(blocks, h);
            (if i.Some? then RemoveAt(blocks, i.value) else blocks) == Drop(blocks, [h])
    decreases |blocks|
  {
    if blocks != [] {
      UniqueTail(blocks);
      if blocks[0].blockHash == h {
        DropOneHead(blocks, h);
      } else {
        DropOne(blocks[1..], h);
        DropOneLater(blocks, h);
      }
    }
  }

  lemma DropOneLater(blocks: seq<Block>, h: Hash)
    requires blocks != [] && blocks[0].blockHash != h
    requires var i := BlockIndex(blocks[1..], h);
             (if i.Some? then RemoveAt(blocks[1..], i.value) else blocks[1..]) == Drop(blocks[1..], [h])
    ensures var i := BlockIndex(blocks, h);
            (if i.Some? then RemoveAt(blocks, i.value) else blocks) == Drop(blocks, [h])
  {
    var tail := blocks[1..];
    var ri := BlockIndex(tail, h);
    assert blocks[0].blockHash !in [h];
    assert Drop(blocks, [h]) == [blocks[0]] + Drop(tail, [h]);
    if ri.Some? {
      assert BlockIndex(blocks, h) == Some(ri.value + 1);
      RemoveAtTail(blocks, ri.value);
    } else {
      assert blocks == [blocks[0]] + tail;
    }
  }

  lemma RemoveAtTail<T>(s: seq<T>, i: nat)
    requires i + 1 < |s|
    ensures RemoveAt(s, i + 1) == [s[0]] + RemoveAt(s[1..], i)
  {
    assert s[1..][..i] == s[1..i + 1] && s[1..][i + 1..] == s[i + 2..];
  }

  lemma UniqueTail(blocks: seq<Block>)
    requires UniqueHashes(blocks) && blocks != []
    ensures UniqueHashes(blocks[1..])
    ensures forall k | 0 <= k < |blocks[1..]| :: blocks[1..][k].blockHash != blocks[0].blockHash
  {
    forall i, j | 0 <= i < j < |blocks[1..]|
      ensures blocks[1..][i].blockHash != blocks[1..][j].blockHash
    {
      assert blocks[1..][i] == blocks[i + 1] && blocks[1..][j] == blocks[j + 1];
    }
    forall k | 0 <= k < |blocks[1..]| ensures blocks[1..][k].blockHash != blocks[0].blockHash {
      assert blocks[1..][k] == blocks[k + 1];
    }
  }

  lemma DropOneHead(blocks: seq<Block>, h: Hash)
    requires UniqueHashes(blocks) && blocks != [] && blocks[0].blockHash == h
    ensures BlockIndex(blocks, h) == Some(0) && RemoveAt(blocks, 0) == Drop(blocks, [h])
  {
    UniqueTail(blocks);
    DropUnchanged(blocks[1..], [], h);
    DropNone(blocks[1..]);
    assert [] + [h] == [h];
    assert Drop(blocks, [h]) == Drop(blocks[1..], [h]);
    assert RemoveAt(blocks, 0) == blocks[1..];
  }

  lemma {:induction false} DropNone(blocks: seq<Block>)
    ensures Drop(blocks, []) == blocks
    decreases |blocks|
  {
    if blocks != [] {
      DropNone(blocks[1..]);
      assert blocks == [blocks[0]] + blocks[1..];
    }
  }

  lemma {:induction false} DropTwice(blocks: seq<Block>, hs: seq<Hash>, h: Hash)
    ensures Drop(Drop(blocks, hs), [h]) == Drop(blocks, hs + [h])
    decreases |blocks|
  {
    if blocks != [] {
      DropTwice(blocks[1..], hs, h);
      var rest := Drop(blocks[1..], hs);
      assert blocks[0].blockHash in hs + [h] <==> blocks[0].blockHash in hs || blocks[0].blockHash == h;
      var b := blocks[0];
      if b.blockHash !in hs {
        var d := [b] + rest;
        assert Drop(blocks, hs) == d;
        assert d[1..] == rest && d[0] == b;
        assert Drop(d, [h]) == (if b.blockHash in [h] then [] else [b]) + Drop(rest, [h]);
      } else {
        assert Drop(blocks, hs) == rest;
      }
      assert Drop(blocks, hs + [h]) == (if b.blockHash in hs + [h] then [] else [b]) + Drop(blocks[1..], hs + [h]);
    }
  }

  /** A hash that no block carries drops nothing more. */
  lemma {:induction false} DropUnchanged(blocks: seq<Block>, hs: seq<Hash>, h: Hash)
    requires forall k | 0 <= k < |blocks| :: blocks[k].blockHash != h
    ensures Drop(blocks, hs + [h]) == Drop(blocks, hs)
    decreases |blocks|
  {
    if blocks != [] {
      DropUnchanged(blocks[1..], hs, h);
    }
  }

  // ---------------------------------------------------------------------------
  // Sorting by arrival

  /** Insert `x` after every element whose key is not larger. */
  function InsertByKey<T>(x: T, s: seq<T>, key: T -> nat): (r: seq<T>)
  {
    if s == [] then [x]
    else if key(x) < key(s[0]) then [x] + s
    else [s[0]] + InsertByKey(x, s[1..], key)
  }

  /** `s.sort((a, b) => key(a) - key(b))`: JavaScript's sort is stable, and
      so is this insertion sort. */
  function SortByKey<T>(s: seq<T>, key: T -> nat): (r: seq<T>)
    decreases |s|
  {
    if s == [] then []
    else InsertByKey(s[|s| - 1], SortByKey(s[..|s| - 1], key), key)
  }

  ghost predicate SortedByKey<T>(s: seq<T>, key: T -> nat)
  {
    forall i, j | 0 <= i < j < |s| :: key(s[i]) <= key(s[j])
  }

  /** The elements of `s` with key `k`, in their order in `s`. */
  function WithKey<T>(s: seq<T>, key: T -> nat, k: nat): (r: seq<T>)
  {
    if s == [] then []
    else (if key(s[0]) == k then [s[0]] else []) + WithKey(s[1..], key, k)
  }

  lemma {:induction false} WithKeyConcat<T>(a: seq<T>, b: seq<T>, key: T -> nat, k: nat)
    ensures WithKey(a + b, key, k) == WithKey(a, key, k) + WithKey(b, key, k)
    decreases |a|
  {
    if a != [] {
      assert (a + b)[1..] == a[1..] + b;
      WithKeyConcat(a[1..], b, key, k);
    } else {
      assert a + b == b;
    }
  }

  lemma {:induction false} WithKeyAbsent<T>(s: seq<T>, key: T -> nat, k: nat)
    requires forall i | 0 <= i < |s| :: key(s[i]) != k
    ensures WithKey(s, key, k) == []
    decreases |s|
  {
    if s != [] {
      WithKeyAbsent(s[1..], key, k);
    }
  }

  lemma {:induction false} InsertPerm<T>(x: T, s: seq<T>, key: T -> nat)
    ensures multiset(InsertByKey(x, s, key)) == multiset(s) + multiset{x}
    decreases |s|
  {
    if s != [] && key(x) >= key(s[0]) {
      InsertPerm(x, s[1..], key);
      assert s == [s[0]] + s[1..];
    }
  }

  lemma {:induction false} InsertSorted<T>(x: T, s: seq<T>, key: T -> nat)
    requires SortedByKey(s, key)
    ensures SortedByKey(InsertByKey(x, s, key), key)
    decreases |s|
  {
    var r := InsertByKey(x, s, key);
    if s != [] && key(x) >= key(s[0]) {
      var s1 := s[1..];
      assert SortedByKey(s1, key);
      InsertSorted(x, s1, key);
      var t := InsertByKey(x, s1, key);
      assert r == [s[0]] + t;
      assert forall j | 0 <= j < |s1| :: s1[j] == s[j + 1];
      InsertBound(x, s1, key, key(s[0]));
      forall i, j | 0 <= i < j < |r|
        ensures key(r[i]) <= key(r[j])
      {
        if i > 0 {
          assert r[i] == t[i - 1] && r[j] == t[j - 1];
        } else {
          assert r[j] == t[j - 1];
        }
      }
    }
  }

  /** A lower bound on every key survives an insertion above it. */
  lemma InsertBound<T>(x: T, s: seq<T>, key: T -> nat, b: nat)
    requires b <= key(x) && forall j | 0 <= j < |s| :: b <= key(s[j])
    ensures forall j | 0 <= j < |InsertByKey(x, s, key)| :: b <= key(InsertByKey(x, s, key)[j])
  {
    var t := InsertByKey(x, s, key);
    InsertPerm(x, s, key);
    forall j | 0 <= j < |t|
      ensures b <= key(t[j])
    {
      assert t[j] in multiset(s) + multiset{x};
      if t[j] != x {
        var m :| 0 <= m < |s| && s[m] == t[j];
      }
    }
  }

  lemma {:induction false} InsertStable<T>(x: T, s: seq<T>, key: T -> nat, k: nat)
    requires SortedByKey(s, key)
    ensures WithKey(InsertByKey(x, s, key), key, k) == WithKey(s, key, k) + (if key(x) == k then [x] else [])
    decreases |s|
  {
    var r := InsertByKey(x, s, key);
    if s == [] {
      assert WithKey(r, key, k) == (if key(x) == k then [x] else []) + WithKey([x][1..], key, k);
    } else if key(x) < key(s[0]) {
      assert r == [x] + s && r[1..] == s;
      if key(x) == k {
        WithKeyAbsent(s, key, k);
      }
    } else {
      var s1 := s[1..];
      assert SortedByKey(s1, key);
      InsertStable(x, s1, key, k);
      var t := InsertByKey(x, s1, key);
      assert r == [s[0]] + t && r[1..] == t;
      var head := if key(s[0]) == k then [s[0]] else [];
      assert WithKey(r, key, k) == head + WithKey(t, key, k);
      assert WithKey(s, key, k) == head + WithKey(s1, key, k);
    }
  }

  /** Inserting into a sorted sequence keeps it sorted, adds exactly `x`,
      and puts `x` after every element with the same key. */
  lemma InsertSpec<T>(x: T, s: seq<T>, key: T -> nat)
    requires SortedByKey(s, key)
    ensures var r := InsertByKey(x, s, key);
            && SortedByKey(r, key) && multiset(r) == multiset(s) + multiset{x}
            && forall k :: WithKey(r, key, k) == WithKey(s, key, k) + (if key(x) == k then [x] else [])
  {
    InsertPerm(x, s, key);
    InsertSorted(x, s, key);
    forall k
      ensures WithKey(InsertByKey(x, s, key), key, k) == WithKey(s, key, k) + (if key(x) == k then [x] else [])
    {
      InsertStable(x, s, key, k);
    }
  }

  /** The sort keeps every element (a permutation), orders the keys, and
      keeps the relative order of elements with equal keys (stability). */
  lemma {:induction false} SortSpec<T>(s: seq<T>, key: T -> nat)
    ensures var r := SortByKey(s, key);
            && SortedByKey(r, key) && multiset(r) == multiset(s)
            && forall k :: WithKey(r, key, k) == WithKey(s, key, k)
    decreases |s|
  {
    if s != [] {
      var init := s[..|s| - 1];
      var x := s[|s| - 1];
      SortSpec(init, key);
      InsertSpec(x, SortByKey(init, key), key);
      assert s == init + [x];
      forall k
        ensures WithKey(SortByKey(s, key), key, k) == WithKey(s, key, k)
      {
        WithKeyConcat(init, [x], key, k);
        assert WithKey([x], key, k) == (if key(x) == k then [x] else []) + WithKey([x][1..], key, k);
      }
    }
  }

  // ---------------------------------------------------------------------------
  // Settling at a new block

  /** `settledTransactions.some(...)`: a record of `tx` settled at `h`. */
  predicate AlreadySettled(recs: seq<SettledRecord>, tx: Tx, h: Hash)
  {
    exists k | 0 <= k < |recs| :: recs[k].transaction == tx && recs[k].settled.blockHash == h
  }

  function ArrivalKey(a: Arrival): nat
  {
    a.arrivalIndex
  }

  /** The first loop of `newBlock`: body entries, in body order and with
      repeats, that have arrived and are not yet settled at this block. */
  function IncludedArrivals(h: Hash, body: seq<Tx>, txs: seq<Tx>, recs: seq<SettledRecord>): (c: seq<Arrival>)
    decreases |body|
  {
    if body == [] then []
    else
      var tx := body[|body| - 1];
      IncludedArrivals(h, body[..|body| - 1], txs, recs)
        + (if tx in txs && !AlreadySettled(recs, tx, h) then [Arrival(tx, IndexOf(txs, tx))] else [])
  }

  /** The second loop over the first `n` arrivals: those, with repeats, not
      in the body, not yet settled at this block and invalid there. */
  function InvalidArrivals(api: Api, h: Hash, body: seq<Tx>, txs: seq<Tx>, n: nat, recs: seq<SettledRecord>): (c: seq<Arrival>)
    requires n <= |txs|
  {
    if n == 0 then []
    else
      var tx := txs[n - 1];
      InvalidArrivals(api, h, body, txs, n - 1, recs)
        + (if tx !in body && !AlreadySettled(recs, tx, h) && !api.isTxValid(h, tx) then [Arrival(tx, IndexOf(txs, tx))] else [])
  }

  /** The candidates of `newBlock` after the sort by arrival. */
  function NewArrivals(api: Api, h: Hash, body: seq<Tx>, txs: seq<Tx>, recs: seq<SettledRecord>): (c: seq<Arrival>)
  {
    SortByKey(IncludedArrivals(h, body, txs, recs) + InvalidArrivals(api, h, body, txs, |txs|, recs), ArrivalKey)
  }

  /** The candidate condition of `newBlock`. */
  ghost predicate Eligible(api: Api, h: Hash, body: seq<Tx>, txs: seq<Tx>, recs: seq<SettledRecord>, a: Arrival)
  {
    && a.transaction in txs && a.arrivalIndex == IndexOf(txs, a.transaction)
    && !AlreadySettled(recs, a.transaction, h)
    && (a.transaction in body || !api.isTxValid(h, a.transaction))
  }

  lemma {:induction false} IncludedArrivalsSpec(h: Hash, body: seq<Tx>, txs: seq<Tx>, recs: seq<SettledRecord>)
    ensures forall a :: a in IncludedArrivals(h, body, txs, recs) <==>
              a.transaction in body && a.transaction in txs && a.arrivalIndex == IndexOf(txs, a.transaction)
              && !AlreadySettled(recs, a.transaction, h)
    decreases |body|
  {
    if body != [] {
      IncludedArrivalsSpec(h, body[..|body| - 1], txs, recs);
      assert body == body[..|body| - 1] + [body[|body| - 1]];
    }
  }

  lemma {:induction false} InvalidArrivalsSpec(api: Api, h: Hash, body: seq<Tx>, txs: seq<Tx>, n: nat, recs: seq<SettledRecord>)
    requires n <= |txs|
    ensures forall a :: a in InvalidArrivals(api, h, body, txs, n, recs) <==>
              a.transaction in txs[..n] && a.arrivalIndex == IndexOf(txs, a.transaction)
              && a.transaction !in body && !AlreadySettled(recs, a.transaction, h) && !api.isTxValid(h, a.transaction)
    decreases n
  {
    if n > 0 {
      InvalidArrivalsSpec(api, h, body, txs, n - 1, recs);
      assert txs[..n] == txs[..n - 1] + [txs[n - 1]];
    }
  }

  /** The sorted candidates are exactly the arrivals that are included or
      invalid and not yet settled at this block, each tagged with its first
      arrival position, in non-decreasing arrival position. */
  lemma NewArrivalsSpec(api: Api, h: Hash, body: seq<Tx>, txs: seq<Tx>, recs: seq<SettledRecord>)
    ensures var c := NewArrivals(api, h, body, txs, recs);
            && (forall a :: a in c <==> Eligible(api, h, body, txs, recs, a))
            && SortedByKey(c, ArrivalKey)
  {
    var u := IncludedArrivals(h, body, txs, recs) + InvalidArrivals(api, h, body, txs, |txs|, recs);
    IncludedArrivalsSpec(h, body, txs, recs);
    InvalidArrivalsSpec(api, h, body, txs, |txs|, recs);
    assert txs[..|txs|] == txs;
    SortSpec(u, ArrivalKey);
    var c := NewArrivals(api, h, body, txs, recs);
    forall a
      ensures a in c <==> a in u
    {
      assert a in c <==> a in multiset(c);
      assert a in u <==> a in multiset(u);
    }
  }

  /** The notifications of the last loop of `newBlock` and the records it
      pushes. */
  datatype Settling = Settling(notes: seq<Note>, recs: seq<SettledRecord>)

  function SettleArrivals(api: Api, h: Hash, txs: seq<Tx>, c: seq<Arrival>): (r: Settling)
    requires forall k | 0 <= k < |c| :: c[k].transaction in txs
    decreases |c|
  {
    if c == [] then Settling([], [])
    else
      var prev := SettleArrivals(api, h, txs, c[..|c| - 1]);
      var tx := c[|c| - 1].transaction;
      var s := Judge(api, h, tx);
      Settling(prev.notes + [SettledN(tx, s)], prev.recs + [SettledRecord(tx, s, IndexOf(txs, tx))])
  }

  /** One settled notification and one record per candidate, in candidate
      order, both with the judged state. */
  lemma {:induction false} SettleArrivalsSpec(api: Api, h: Hash, txs: seq<Tx>, c: seq<Arrival>)
    requires forall k | 0 <= k < |c| :: c[k].transaction in txs
    ensures var r := SettleArrivals(api, h, txs, c);
            && |r.notes| == |c| && |r.recs| == |c|
            && (forall k | 0 <= k < |c| :: r.notes[k] == SettledN(c[k].transaction, Judge(api, h, c[k].transaction)))
            && (forall k | 0 <= k < |c| ::
                  r.recs[k] == SettledRecord(c[k].transaction, Judge(api, h, c[k].transaction), IndexOf(txs, c[k].transaction)))
    decreases |c|
  {
    if c != [] {
      SettleArrivalsSpec(api, h, txs, c[..|c| - 1]);
    }
  }

  /** A record as `newBlock` stores it: the state judged at its block and the
      first arrival position of its transaction. */
  ghost predicate Recorded(api: Api, txs: seq<Tx>, r: SettledRecord)
  {
    r.transaction in txs && r.arrivalIndex == IndexOf(txs, r.transaction)
    && r.settled == Judge(api, r.settled.blockHash, r.transaction)
  }

  ghost predicate Coherent(api: Api, txs: seq<Tx>, recs: seq<SettledRecord>)
  {
    forall r | r in recs :: Recorded(api, txs, r)
  }

  /** Arrivals only append, so first positions and stored records survive. */
  lemma CoherentGrow(api: Api, txs: seq<Tx>, recs: seq<SettledRecord>, tx: Tx)
    requires Coherent(api, txs, recs)
    ensures Coherent(api, txs + [tx], recs)
  {
    forall r | r in recs
      ensures Recorded(api, txs + [tx], r)
    {
      assert (txs + [tx])[..|txs|] == txs;
      IndexOfPrefix(txs + [tx], |txs|, r.transaction);
    }
  }

  /** Every sorted candidate is eligible, and their first arrival positions
      do not decrease. */
  lemma NewArrivalsEligible(api: Api, h: Hash, body: seq<Tx>, txs: seq<Tx>, recs: seq<SettledRecord>)
    ensures var c := NewArrivals(api, h, body, txs, recs);
            && (forall k | 0 <= k < |c| :: Eligible(api, h, body, txs, recs, c[k]))
            && (forall i, j | 0 <= i < j < |c| :: c[i].arrivalIndex <= c[j].arrivalIndex)
  {
    NewArrivalsSpec(api, h, body, txs, recs);
    var c := NewArrivals(api, h, body, txs, recs);
    forall i, j | 0 <= i < j < |c|
      ensures c[i].arrivalIndex <= c[j].arrivalIndex
    {
      assert ArrivalKey(c[i]) <= ArrivalKey(c[j]);
    }
  }

  /** `newBlock` notifies one settled per candidate in non-decreasing order
      of first arrival, each with its judged state, and only for transactions
      that are included or invalid and not yet settled at the block. */
  lemma NewBlockNotes(api: Api, h: Hash, body: seq<Tx>, txs: seq<Tx>, recs: seq<SettledRecord>)
    ensures var c := NewArrivals(api, h, body, txs, recs);
            (forall k | 0 <= k < |c| :: c[k].transaction in txs) &&
            var r := SettleArrivals(api, h, txs, c);
            && (forall k | 0 <= k < |r.notes| ::
                  r.notes[k].SettledN? && r.notes[k].tx in txs && r.notes[k].s == Judge(api, h, r.notes[k].tx))
            && (forall i, j | 0 <= i < j < |r.notes| :: IndexOf(txs, r.notes[i].tx) <= IndexOf(txs, r.notes[j].tx))
            && (forall k | 0 <= k < |r.notes| ::
                  !AlreadySettled(recs, r.notes[k].tx, h) && (r.notes[k].tx in body || !api.isTxValid(h, r.notes[k].tx)))
  {
    NewArrivalsEligible(api, h, body, txs, recs);
    var c := NewArrivals(api, h, body, txs, recs);
    SettleArrivalsSpec(api, h, txs, c);
  }

  /** Every transaction that is included or invalid and not yet settled at
      the block gets a settled notification. */
  lemma NewBlockComplete(api: Api, h: Hash, body: seq<Tx>, txs: seq<Tx>, recs: seq<SettledRecord>, tx: Tx)
    requires tx in txs && !AlreadySettled(recs, tx, h) && (tx in body || !api.isTxValid(h, tx))
    ensures var c := NewArrivals(api, h, body, txs, recs);
            (forall k | 0 <= k < |c| :: c[k].transaction in txs) &&
            var r := SettleArrivals(api, h, txs, c);
            exists k | 0 <= k < |r.notes| :: r.notes[k] == SettledN(tx, Judge(api, h, tx))
  {
    NewArrivalsSpec(api, h, body, txs, recs);
    NewArrivalsEligible(api, h, body, txs, recs);
    var c := NewArrivals(api, h, body, txs, recs);
    SettleArrivalsSpec(api, h, txs, c);
    assert Eligible(api, h, body, txs, recs, Arrival(tx, IndexOf(txs, tx)));
    var k :| 0 <= k < |c| && c[k] == Arrival(tx, IndexOf(txs, tx));
    assert SettleArrivals(api, h, txs, c).notes[k] == SettledN(tx, Judge(api, h, tx));
  }

  /** The records `newBlock` pushes keep the record invariant. */
  lemma NewBlockCoherent(api: Api, h: Hash, body: seq<Tx>, txs: seq<Tx>, recs: seq<SettledRecord>)
    requires Coherent(api, txs, recs)
    ensures var c := NewArrivals(api, h, body, txs, recs);
            (forall k | 0 <= k < |c| :: c[k].transaction in txs) &&
            Coherent(api, txs, recs + SettleArrivals(api, h, txs, c).recs)
  {
    NewArrivalsEligible(api, h, body, txs, recs);
    var c := NewArrivals(api, h, body, txs, recs);
    SettleArrivalsSpec(api, h, txs, c);
    var r := SettleArrivals(api, h, txs, c);
    forall x | x in recs + r.recs
      ensures Recorded(api, txs, x)
    {
      if x !in recs {
        var k :| 0 <= k < |r.recs| && r.recs[k] == x;
      }
    }
  }

  // ---------------------------------------------------------------------------
  // Finalizing

  function RecordKey(r: SettledRecord): nat
  {
    r.arrivalIndex
  }

  /** The collecting loop of `finalized`: the records settled at a walked
      block, in stored order. */
  function OnPath(recs: seq<SettledRecord>, path: seq<Hash>): (f: seq<SettledRecord>)
    decreases |recs|
  {
    if recs == [] then []
    else
      var x := recs[|recs| - 1];
      OnPath(recs[..|recs| - 1], path) + (if x.settled.blockHash in path then [x] else [])
  }

  /** The records settled elsewhere, in stored order. */
  function OffPath(recs: seq<SettledRecord>, path: seq<Hash>): (f: seq<SettledRecord>)
    decreases |recs|
  {
    if recs == [] then []
    else
      var x := recs[|recs| - 1];
      OffPath(recs[..|recs| - 1], path) + (if x.settled.blockHash in path then [] else [x])
  }

  /** The records split into those on the walk and the others. */
  lemma PathSplit(recs: seq<SettledRecord>, path: seq<Hash>)
    ensures multiset(recs) == multiset(OnPath(recs, path)) + multiset(OffPath(recs, path))
    ensures forall x :: x in OnPath(recs, path) <==> x in recs && x.settled.blockHash in path
    ensures forall x :: x in OffPath(recs, path) <==> x in recs && x.settled.blockHash !in path
  {
    PathCount(recs, path);
    PathMembers(recs, path);
  }

  lemma {:induction false} PathCount(recs: seq<SettledRecord>, path: seq<Hash>)
    ensures multiset(recs) == multiset(OnPath(recs, path)) + multiset(OffPath(recs, path))
    decreases |recs|
  {
    if recs != [] {
      PathCount(recs[..|recs| - 1], path);
      assert recs == recs[..|recs| - 1] + [recs[|recs| - 1]];
    }
  }

  lemma {:induction false} PathMembers(recs: seq<SettledRecord>, path: seq<Hash>)
    ensures forall x :: x in OnPath(recs, path) <==> x in recs && x.settled.blockHash in path
    ensures forall x :: x in OffPath(recs, path) <==> x in recs && x.settled.blockHash !in path
    decreases |recs|
  {
    if recs != [] {
      PathMembers(recs[..|recs| - 1], path);
      assert recs == recs[..|recs| - 1] + [recs[|recs| - 1]];
    }
  }

  /** The done notifications of `finalized`, one per collected record. */
  function DoneNotes(f: seq<SettledRecord>): (notes: seq<Note>)
    decreases |f|
  {
    if f == [] then []
    else DoneNotes(f[..|f| - 1]) + [DoneN(f[|f| - 1].transaction, f[|f| - 1].settled)]
  }

  lemma {:induction false} DoneNotesSpec(f: seq<SettledRecord>)
    ensures |DoneNotes(f)| == |f|
    ensures forall k | 0 <= k < |f| :: DoneNotes(f)[k] == DoneN(f[k].transaction, f[k].settled)
    decreases |f|
  {
    if f != [] {
      DoneNotesSpec(f[..|f| - 1]);
    }
  }

  /** `settledTransactions.findIndex(...)` for a transaction at a block,
      with `None` for `-1`. */
  function FindRecord(recs: seq<SettledRecord>, tx: Tx, h: Hash): (r: Option<nat>)
    ensures r.Some? ==> r.value < |recs| && recs[r.value].transaction == tx && recs[r.value].settled.blockHash == h
    ensures r.None? ==> !AlreadySettled(recs, tx, h)
  {
    if recs == [] then None
    else if recs[0].transaction == tx && recs[0].settled.blockHash == h then Some(0)
    else
      var r := FindRecord(recs[1..], tx, h);
      assert forall k | 1 <= k < |recs| :: recs[k] == recs[1..][k - 1];
      if r.Some? then Some(r.value + 1) else None
  }

  /** The records after the removal loop of `finalized`: for each collected
      record in turn, the first stored record with its transaction and block
      is spliced out. */
  function SpliceEach(recs: seq<SettledRecord>, f: seq<SettledRecord>): (r: seq<SettledRecord>)
    decreases |f|
  {
    if f == [] then recs
    else
      var cur := SpliceEach(recs, f[..|f| - 1]);
      var x := f[|f| - 1];
      var i := FindRecord(cur, x.transaction, x.settled.blockHash);
      if i.Some? then RemoveAt(cur, i.value) else cur
  }

  lemma RemoveAtMultiset<T>(s: seq<T>, i: nat)
    requires i < |s|
    ensures multiset(RemoveAt(s, i)) == multiset(s) - multiset{s[i]}
  {
    assert s == s[..i] + [s[i]] + s[i + 1..];
  }

  /** Records with the same transaction and block are identical, so each
      splice removes exactly the collected record. */
  lemma {:induction false} SpliceEachSpec(api: Api, txs: seq<Tx>, recs: seq<SettledRecord>, f: seq<SettledRecord>)
    requires Coherent(api, txs, recs) && multiset(f) <= multiset(recs)
    ensures multiset(SpliceEach(recs, f)) == multiset(recs) - multiset(f)
    decreases |f|
  {
    if f != [] {
      var f' := f[..|f| - 1];
      var x := f[|f| - 1];
      assert f == f' + [x];
      assert multiset(f) == multiset(f') + multiset{x};
      SpliceEachSpec(api, txs, recs, f');
      var cur := SpliceEach(recs, f');
      assert x in multiset(recs) && x in recs;
      CoherentSub(api, txs, recs, cur);
      SpliceOne(api, txs, cur, x);
    }
  }

  /** Every record of a sub-multiset is one of the stored records. */
  lemma CoherentSub(api: Api, txs: seq<Tx>, recs: seq<SettledRecord>, cur: seq<SettledRecord>)
    requires Coherent(api, txs, recs) && multiset(cur) <= multiset(recs)
    ensures Coherent(api, txs, cur)
  {
    forall r | r in cur
      ensures Recorded(api, txs, r)
    {
      assert r in multiset(cur);
      assert r in multiset(recs);
    }
  }

  /** One splice of a stored record removes that very record. */
  lemma SpliceOne(api: Api, txs: seq<Tx>, cur: seq<SettledRecord>, x: SettledRecord)
    requires Coherent(api, txs, cur) && Recorded(api, txs, x) && x in multiset(cur)
    ensures var i := FindRecord(cur, x.transaction, x.settled.blockHash);
            i.Some? && multiset(RemoveAt(cur, i.value)) == multiset(cur) - multiset{x}
  {
    assert x in cur;
    var i := FindRecord(cur, x.transaction, x.settled.blockHash);
    assert AlreadySettled(cur, x.transaction, x.settled.blockHash) by {
      var k :| 0 <= k < |cur| && cur[k] == x;
    }
    assert Recorded(api, txs, cur[i.value]);
    assert cur[i.value] == x;
    RemoveAtMultiset(cur, i.value);
  }

  /** `finalized` removes exactly the records settled on the walk and keeps
      the record invariant. */
  lemma FinalizeRecords(api: Api, txs: seq<Tx>, recs: seq<SettledRecord>, path: seq<Hash>)
    requires Coherent(api, txs, recs)
    ensures var r := SpliceEach(recs, SortByKey(OnPath(recs, path), RecordKey));
            && multiset(r) == multiset(OffPath(recs, path))
            && (forall x :: x in r <==> x in recs && x.settled.blockHash !in path)
            && Coherent(api, txs, r)
  {
    var on := OnPath(recs, path);
    var f := SortByKey(on, RecordKey);
    PathSplit(recs, path);
    assert multiset(f) == multiset(on) by {
      SortSpec(on, RecordKey);
    }
    SpliceEachSpec(api, txs, recs, f);
    var r := SpliceEach(recs, f);
    assert multiset(r) == multiset(OffPath(recs, path));
    CoherentSub(api, txs, recs, r);
    forall x
      ensures x in r <==> x in OffPath(recs, path)
    {
      assert x in r <==> x in multiset(r);
      assert x in OffPath(recs, path) <==> x in multiset(OffPath(recs, path));
    }
  }

  /** `finalized` reports every record settled on the walk, each once, with
      its stored state, in non-decreasing order of first arrival, records of
      the same arrival in stored order. */
  lemma FinalizeNotes(api: Api, txs: seq<Tx>, recs: seq<SettledRecord>, path: seq<Hash>)
    requires Coherent(api, txs, recs)
    ensures var f := SortByKey(OnPath(recs, path), RecordKey);
            var notes := DoneNotes(f);
            && multiset(f) == multiset(OnPath(recs, path))
            && (forall k :: WithKey(f, RecordKey, k) == WithKey(OnPath(recs, path), RecordKey, k))
            && |notes| == |f|
            && (forall k | 0 <= k < |f| ::
                  notes[k] == DoneN(f[k].transaction, f[k].settled) && f[k] in recs && f[k].settled.blockHash in path)
            && (forall k | 0 <= k < |f| :: f[k].transaction in txs)
            && (forall i, j | 0 <= i < j < |f| :: IndexOf(txs, f[i].transaction) <= IndexOf(txs, f[j].transaction))
  {
    var on := OnPath(recs, path);
    var f := SortByKey(on, RecordKey);
    PathSplit(recs, path);
    SortSpec(on, RecordKey);
    DoneNotesSpec(f);
    forall k | 0 <= k < |f|
      ensures f[k] in recs && f[k].settled.blockHash in path
    {
      assert f[k] in multiset(on);
    }
    forall i, j | 0 <= i < j < |f|
      ensures IndexOf(txs, f[i].transaction) <= IndexOf(txs, f[j].transaction)
    {
      assert RecordKey(f[i]) <= RecordKey(f[j]);
      assert Recorded(api, txs, f[i]) && Recorded(api, txs, f[j]);
    }
  }

  // ---------------------------------------------------------------------------
  // The tracker

  class Tracker {
    /** The chain client the handler closes over. */
    const api: Api
    /** Every announced transaction, in arrival order, with repeats. */
    var transactions: seq<Tx>
    /** The stored blocks, in announcement order. */
    var blocks: seq<Block>
    /** One record per settled notification not yet reported done. */
    var settledTransactions: seq<SettledRecord>
    /** Every call to `onTxSettled` / `onTxDone`, in order. */
    var trace: seq<Note>

    ghost predicate Valid()
      reads this
    {
      UniqueHashes(blocks) && Coherent(api, transactions, settledTransactions)
    }

    constructor (api: Api)
      ensures Valid() && this.api == api
      ensures transactions == [] && blocks == [] && settledTransactions == [] && trace == []
    {
      this.api := api;
      transactions, blocks, settledTransactions, trace := [], [], [], [];
    }

    /** `newBlock`: store the block, collect the candidates, sort them by
        arrival, then judge, notify and record each. */
    method OnNewBlock(blockHash: Hash, parent: Hash)
      requires Valid()
      modifies this
      ensures Valid()
      ensures transactions == old(transactions)
      ensures blocks == Announced(old(blocks), blockHash, parent)
      ensures var c := NewArrivals(api, blockHash, api.getBody(blockHash), transactions, old(settledTransactions));
              (forall k | 0 <= k < |c| :: c[k].transaction in transactions) &&
              var r := SettleArrivals(api, blockHash, transactions, c);
              trace == old(trace) + r.notes && settledTransactions == old(settledTransactions) + r.recs
      ensures old(trace) <= trace && NotesFor(NewBlock(blockHash, parent), trace[|old(trace)|..])
    {
      AddBlock(blockHash, parent);
      AnnouncedSpec(old(blocks), blockHash, parent);
      var blockBody := api.getBody(blockHash);
      var candidates := CollectIncluded(blockHash, blockBody);
      candidates := CollectInvalid(blockHash, blockBody, candidates);
      candidates := SortByKey(candidates, ArrivalKey);
      NewArrivalsEligible(api, blockHash, blockBody, transactions, settledTransactions);
      NewBlockNotes(api, blockHash, blockBody, transactions, settledTransactions);
      NewBlockCoherent(api, blockHash, blockBody, transactions, settledTransactions);
      SettleCandidates(blockHash, candidates);
      assert trace[|old(trace)|..] == SettleArrivals(api, blockHash, transactions, candidates).notes;
    }

    /** The block bookkeeping of `newBlock`. */
    method AddBlock(blockHash: Hash, parent: Hash)
      modifies this
      ensures blocks == Announced(old(blocks), blockHash, parent)
      ensures transactions == old(transactions) && settledTransactions == old(settledTransactions)
      ensures trace == old(trace)
    {
      if BlockIndex(blocks, blockHash).None? {
        blocks := blocks + [Block(blockHash, parent, None)];
      }
      var parentIndex := BlockIndex(blocks, parent);
      if parent != "" && parentIndex.Some? {
        blocks := blocks[parentIndex.value := blocks[parentIndex.value].(children := Some(blockHash))];
      }
    }

    /** The loop of `newBlock` over the body. */
    method CollectIncluded(blockHash: Hash, blockBody: seq<Tx>) returns (candidates: seq<Arrival>)
      ensures candidates == IncludedArrivals(blockHash, blockBody, transactions, settledTransactions)
    {
      candidates := [];
      for i := 0 to |blockBody|
        invariant candidates == IncludedArrivals(blockHash, blockBody[..i], transactions, settledTransactions)
      {
        assert blockBody[..i + 1][..i] == blockBody[..i];
        var transaction := blockBody[i];
        if transaction in transactions {
          var alreadySettled := AlreadySettled(settledTransactions, transaction, blockHash);
          if !alreadySettled {
            candidates := candidates + [Arrival(transaction, IndexOf(transactions, transaction))];
          }
        }
      }
      assert blockBody[..|blockBody|] == blockBody;
    }

    /** The loop of `newBlock` over the arrivals. */
    method CollectInvalid(blockHash: Hash, blockBody: seq<Tx>, candidates0: seq<Arrival>) returns (candidates: seq<Arrival>)
      ensures candidates == candidates0 + InvalidArrivals(api, blockHash, blockBody, transactions, |transactions|, settledTransactions)
    {
      candidates := candidates0;
      for i := 0 to |transactions|
        invariant candidates == candidates0 + InvalidArrivals(api, blockHash, blockBody, transactions, i, settledTransactions)
      {
        var transaction := transactions[i];
        if transaction in blockBody {
          continue;
        }
        var alreadySettled := AlreadySettled(settledTransactions, transaction, blockHash);
        if !alreadySettled && !api.isTxValid(blockHash, transaction) {
          candidates := candidates + [Arrival(transaction, IndexOf(transactions, transaction))];
        }
      }
    }

    /** The notifying loop of `newBlock`. */
    method SettleCandidates(blockHash: Hash, candidates: seq<Arrival>)
      requires forall k | 0 <= k < |candidates| :: candidates[k].transaction in transactions
      modifies this
      ensures transactions == old(transactions) && blocks == old(blocks)
      ensures var r := SettleArrivals(api, blockHash, transactions, candidates);
              trace == old(trace) + r.notes && settledTransactions == old(settledTransactions) + r.recs
    {
      for i := 0 to |candidates|
        invariant transactions == old(transactions) && blocks == old(blocks)
        invariant var r := SettleArrivals(api, blockHash, transactions, candidates[..i]);
                  trace == old(trace) + r.notes && settledTransactions == old(settledTransactions) + r.recs
      {
        assert candidates[..i + 1][..i] == candidates[..i];
        var transaction := candidates[i].transaction;
        var isTransactionValid := api.isTxValid(blockHash, transaction);
        var settledState: Settled;
        if isTransactionValid {
          settledState := Settled.Valid(blockHash, api.isTxSuccessful(blockHash, transaction));
        } else {
          settledState := Invalid(blockHash);
        }
        trace := trace + [SettledN(transaction, settledState)];
        settledTransactions := settledTransactions + [SettledRecord(transaction, settledState, IndexOf(transactions, transaction))];
      }
      assert candidates[..|candidates|] == candidates;
    }

    /** `newTransaction`: append, repeats included. */
    method OnNewTx(transaction: Tx)
      requires Valid()
      modifies this
      ensures Valid()
      ensures transactions == old(transactions) + [transaction]
      ensures blocks == old(blocks) && settledTransactions == old(settledTransactions) && trace == old(trace)
    {
      CoherentGrow(api, transactions, settledTransactions, transaction);
      transactions := transactions + [transaction];
    }

    /** `finalized`: walk the stored parents, report the records settled on
        the walk sorted by arrival, splice them out, then remove the walked
        blocks. Following parent links must not cycle, or the walk never
        ends. */
    method OnFinalized(blockHash: Hash)
      requires Valid() && Acyclic(ParentMap(blocks))
      modifies this
      ensures Valid()
      ensures transactions == old(transactions)
      ensures var path := PresentPath(ParentMap(old(blocks)), blockHash);
              var f := SortByKey(OnPath(old(settledTransactions), path), RecordKey);
              && trace == old(trace) + DoneNotes(f)
              && settledTransactions == SpliceEach(old(settledTransactions), f)
              && blocks == Drop(old(blocks), path)
      ensures old(trace) <= trace && NotesFor(Finalized(blockHash), trace[|old(trace)|..])
    {
      var finalizedBlocks := WalkPath(blockHash);
      var finalizedTransactions := CollectOnPath(finalizedBlocks);
      finalizedTransactions := SortByKey(finalizedTransactions, RecordKey);
      FinalizeRecords(api, transactions, settledTransactions, finalizedBlocks);
      DoneNotesSpec(finalizedTransactions);
      ReportAndSplice(finalizedTransactions);
      DropMembers(blocks, finalizedBlocks);
      RemoveBlocks(finalizedBlocks);
      assert trace[|old(trace)|..] == DoneNotes(finalizedTransactions);
    }

    /** The parent walk of `finalized`, which reads the blocks and changes
        nothing. */
    method WalkPath(blockHash: Hash) returns (finalizedBlocks: seq<Hash>)
      requires UniqueHashes(blocks) && Acyclic(ParentMap(blocks))
      ensures finalizedBlocks == PresentPath(ParentMap(blocks), blockHash)
    {
      ghost var p := ParentMap(blocks);
      finalizedBlocks := [];
      FindInParentMap(blocks, blockHash);
      var index := BlockIndex(blocks, blockHash);
      var currentBlock: Option<Block> := if index.Some? then Some(blocks[index.value]) else None;
      ghost var current := blockHash;
      while currentBlock.Some?
        invariant currentBlock.Some? <==> current in p
        invariant currentBlock.Some? ==> currentBlock.value.blockHash == current && currentBlock.value.parent == p[current]
        invariant finalizedBlocks + PresentPath(p, current) == PresentPath(p, blockHash)
        decreases Height(p, current) + (if current in p then 1 else 0)
      {
        var block := currentBlock.value;
        PathUnfold(p, current);
        FindInParentMap(blocks, block.parent);
        finalizedBlocks := finalizedBlocks + [block.blockHash];
        current := block.parent;
        index := BlockIndex(blocks, block.parent);
        currentBlock := if index.Some? then Some(blocks[index.value]) else None;
      }
      PathUnfold(p, current);
    }

    /** The collecting loop of `finalized`. */
    method CollectOnPath(finalizedBlocks: seq<Hash>) returns (finalizedTransactions: seq<SettledRecord>)
      ensures finalizedTransactions == OnPath(settledTransactions, finalizedBlocks)
    {
      finalizedTransactions := [];
      for i := 0 to |settledTransactions|
        invariant finalizedTransactions == OnPath(settledTransactions[..i], finalizedBlocks)
      {
        assert settledTransactions[..i + 1][..i] == settledTransactions[..i];
        var settledTransaction := settledTransactions[i];
        if settledTransaction.settled.blockHash in finalizedBlocks {
          finalizedTransactions := finalizedTransactions + [settledTransaction];
        }
      }
      assert settledTransactions[..|settledTransactions|] == settledTransactions;
    }

    /** The reporting loop of `finalized`. */
    method ReportAndSplice(finalizedTransactions: seq<SettledRecord>)
      modifies this
      ensures trace == old(trace) + DoneNotes(finalizedTransactions)
      ensures settledTransactions == SpliceEach(old(settledTransactions), finalizedTransactions)
      ensures transactions == old(transactions) && blocks == old(blocks)
    {
      for i := 0 to |finalizedTransactions|
        invariant transactions == old(transactions) && blocks == old(blocks)
        invariant trace == old(trace) + DoneNotes(finalizedTransactions[..i])
        invariant settledTransactions == SpliceEach(old(settledTransactions), finalizedTransactions[..i])
      {
        assert finalizedTransactions[..i + 1][..i] == finalizedTransactions[..i];
        var finalized := finalizedTransactions[i];
        trace := trace + [DoneN(finalized.transaction, finalized.settled)];
        var index := FindRecord(settledTransactions, finalized.transaction, finalized.settled.blockHash);
        if index.Some? {
          settledTransactions := RemoveAt(settledTransactions, index.value);
        }
      }
      assert finalizedTransactions[..|finalizedTransactions|] == finalizedTransactions;
    }

    /** The block-removal loop of `finalized`. */
    method RemoveBlocks(finalizedBlocks: seq<Hash>)
      requires UniqueHashes(blocks)
      modifies this
      ensures blocks == Drop(old(blocks), finalizedBlocks)
      ensures transactions == old(transactions) && settledTransactions == old(settledTransactions)
      ensures trace == old(trace)
    {
      DropNone(blocks);
      for i := 0 to |finalizedBlocks|
        invariant transactions == old(transactions) && settledTransactions == old(settledTransactions)
        invariant trace == old(trace)
        invariant blocks == Drop(old(blocks), finalizedBlocks[..i])
      {
        PrefixStep(finalizedBlocks, i);
        DropStep(old(blocks), finalizedBlocks[..i], finalizedBlocks[i]);
        var blockIndex := BlockIndex(blocks, finalizedBlocks[i]);
        if blockIndex.Some? {
          blocks := RemoveAt(blocks, blockIndex.value);
        }
      }
      assert finalizedBlocks[..|finalizedBlocks|] == finalizedBlocks;
    }

    /** The dispatcher: one handler per event kind. */
    method Dispatch(e: Event)
      requires Valid()
      requires e.Finalized? ==> Acyclic(ParentMap(blocks))
      modifies this
      ensures Valid()
      ensures old(trace) <= trace && NotesFor(e, trace[|old(trace)|..])
    {
      match e
      case NewBlock(h, p) => OnNewBlock(h, p);
      case NewTransaction(tx) => OnNewTx(tx);
      case Finalized(h) => OnFinalized(h);
    }
  }
}
