/** Parent links between block hashes, the acyclicity that makes walking them
    terminate, and the walk from a block towards the root that several trackers
    use. */
module Ancestry {
  import opened Types

  /** `rank` strictly decreases from a block to its recorded parent. */
  ghost predicate RankedBy(p: map<Hash, Hash>, rank: map<Hash, nat>)
  {
    p.Keys <= rank.Keys && forall h | h in p && p[h] in p :: rank[p[h]] < rank[h]
  }

  /** Following parent links never comes back to a block already visited. */
  ghost predicate Acyclic(p: map<Hash, Hash>)
  {
    exists rank :: RankedBy(p, rank)
  }

  /** An upper bound on the number of parent links that can be followed from
      `h`: it drops by one at each step. */
  ghost function Height(p: map<Hash, Hash>, h: Hash): nat
    requires Acyclic(p)
  {
    var rank :| RankedBy(p, rank);
    if h in p then rank[h] + 1 else 0
  }

  lemma HeightDecreases(p: map<Hash, Hash>, h: Hash)
    requires Acyclic(p) && h in p
    ensures Height(p, p[h]) < Height(p, h)
  {
  }

  /** No links, no cycle. */
  lemma EmptyAcyclic()
    ensures Acyclic(map[])
  {
    assert RankedBy(map[], map[]);
  }

  /** Recording the parent of a block that is new, is nobody's parent yet and
      is not its own parent keeps the links acyclic: blocks announced after
      their parents never close a cycle. */
  lemma FreshBlockKeepsAcyclic(p: map<Hash, Hash>, h: Hash, parent: Hash)
    requires Acyclic(p) && h !in p && h != parent
    requires forall k | k in p :: p[k] != h
    ensures Acyclic(p[h := parent])
  {
    var rank :| RankedBy(p, rank);
    var r := rank[h := if parent in p then rank[parent] + 1 else 0];
    assert RankedBy(p[h := parent], r);
  }

  /** The walk of `isDes` and `buildChainFromBlock`: from `h` while the current
      hash is truthy, moving to its recorded parent; a hash with no record ends
      the walk after itself, the empty hash ends it before itself. */
  function Lineage(p: map<Hash, Hash>, h: Hash): (l: seq<Hash>)
    requires Acyclic(p)
    decreases Height(p, h)
  {
    if h == "" then []
    else if h in p then
      HeightDecreases(p, h);
      [h] + Lineage(p, p[h])
    else [h]
  }

  /** The lineage starts at the block itself, holds no empty hash, and links
      each element to the next by a recorded parent. */
  lemma {:induction false} LineageSpec(p: map<Hash, Hash>, h: Hash)
    requires Acyclic(p)
    ensures var l := Lineage(p, h);
            && (h == "" <==> l == [])
            && (l != [] ==> l[0] == h)
            && (forall k | 0 <= k < |l| :: l[k] != "")
            && (forall k | 0 <= k < |l| - 1 :: l[k] in p && p[l[k]] == l[k + 1])
            && (l != [] ==> var last := l[|l| - 1]; last !in p || p[last] == "")
    decreases Height(p, h)
  {
    if h != "" && h in p {
      HeightDecreases(p, h);
      LineageSpec(p, p[h]);
    }
  }

  /** The lineage is closed under taking parents: a later block's lineage is
      a suffix of an earlier block's, so "is in the lineage" is transitive. */
  lemma {:induction false} LineageTransitive(p: map<Hash, Hash>, a: Hash, b: Hash, c: Hash)
    requires Acyclic(p) && b in Lineage(p, a) && c in Lineage(p, b)
    ensures c in Lineage(p, a)
    decreases Height(p, a)
  {
    if a != b {
      assert a != "" && a in p;
      HeightDecreases(p, a);
      LineageTransitive(p, p[a], b, c);
    }
  }
}
