/** Values exchanged between a transaction tracker, the chain client that feeds
    it events and the output boundary it notifies. Shared by every tracker. */
module Types {

  /** Block hashes and transaction ids are opaque strings. The empty string
      plays the part of JavaScript's falsy hash (an absent or empty parent). */
  type Hash = string
  type Tx = string

  datatype Option<T> = None | Some(value: T)

  /** The object handed to `onTxSettled` / `onTxDone`. `Untyped` is an object
      that carries only a block hash and no `type`; one tracker can emit it. */
  datatype Settled =
    | Valid(blockHash: Hash, successful: bool)
    | Invalid(blockHash: Hash)
    | Untyped(blockHash: Hash)

  /** The three incoming events. */
  datatype Event =
    | NewBlock(blockHash: Hash, parent: Hash)
    | NewTransaction(value: Tx)
    | Finalized(blockHash: Hash)

  /** One call to the output boundary, in the order the tracker makes them:
      `onTxSettled`, `onTxDone`, or `api.unpin`. */
  datatype Note =
    | SettledN(tx: Tx, s: Settled)
    | DoneN(tx: Tx, s: Settled)
    | UnpinN(hashes: seq<Hash>)

  /** The read side of the chain client: deterministic, side-effect free. */
  datatype Api = Api(
    getBody: Hash -> seq<Tx>,
    isTxValid: (Hash, Tx) -> bool,
    isTxSuccessful: (Hash, Tx) -> bool)

  /** One invocation of the read side, for the trackers that keep a call log. */
  datatype Call =
    | GetBody(h: Hash)
    | IsTxValid(h: Hash, tx: Tx)
    | IsTxSuccessful(h: Hash, tx: Tx)

  /** The notes emitted while handling `e`: settled notifications only for
      `newBlock`, done notifications and unpin calls only for `finalized`, and
      nothing for `newTransaction`. */
  ghost predicate NotesFor(e: Event, notes: seq<Note>)
  {
    forall n | n in notes :: (n.SettledN? ==> e.NewBlock?) && (!n.SettledN? ==> e.Finalized?)
  }

  /** How many settled or done notes name `tx`. */
  function Mentions(notes: seq<Note>, tx: Tx): (c: nat)
    ensures c <= |notes|
  {
    if notes == [] then 0
    else
      var n := notes[|notes| - 1];
      Mentions(notes[..|notes| - 1], tx) + if !n.UnpinN? && n.tx == tx then 1 else 0
  }

  /** Mentions add up over concatenation. */
  lemma {:induction false} MentionsConcat(a: seq<Note>, b: seq<Note>, tx: Tx)
    ensures Mentions(a + b, tx) == Mentions(a, tx) + Mentions(b, tx)
    decreases |b|
  {
    if b != [] {
      assert (a + b)[..|a + b| - 1] == a + b[..|b| - 1];
      assert (a + b)[|a + b| - 1] == b[|b| - 1];
      MentionsConcat(a, b[..|b| - 1], tx);
    } else {
      assert a + b == a;
    }
  }

  /** No element occurs twice. */
  predicate NoDuplicates<T(==)>(s: seq<T>)
  {
    forall i, j | 0 <= i < j < |s| :: s[i] != s[j]
  }

  /** `s` with the first occurrence of `x` removed (JavaScript's
      `s.splice(s.indexOf(x), 1)` when `x` is present). */
  function RemoveFirst<T(==)>(s: seq<T>, x: T): (r: seq<T>)
    ensures x !in s ==> r == s
    ensures x in s ==> |r| == |s| - 1 && multiset(r) == multiset(s) - multiset{x}
  {
    if s == [] then []
    else
      assert s == [s[0]] + s[1..];
      if s[0] == x then s[1..] else [s[0]] + RemoveFirst(s[1..], x)
  }

  /** JavaScript's `s.splice(i, 1)`. */
  function RemoveAt<T>(s: seq<T>, i: nat): (r: seq<T>)
    requires i < |s|
    ensures |r| == |s| - 1
    ensures forall k | 0 <= k < i :: r[k] == s[k]
    ensures forall k | i <= k < |r| :: r[k] == s[k + 1]
  {
    s[..i] + s[i + 1..]
  }

  /** One more element of a prefix. */
  lemma PrefixStep<T>(s: seq<T>, i: nat)
    requires i < |s|
    ensures s[..i + 1] == s[..i] + [s[i]]
  {
  }

  /** Dropping the last element keeps a sequence duplicate-free, and that
      element occurs nowhere before. */
  lemma NoDuplicatesPrefix<T>(q: seq<T>)
    requires NoDuplicates(q) && q != []
    ensures NoDuplicates(q[..|q| - 1]) && q[|q| - 1] !in q[..|q| - 1]
  {
    var q' := q[..|q| - 1];
    forall i, j | 0 <= i < j < |q'| ensures q'[i] != q'[j] { assert q'[i] == q[i] && q'[j] == q[j]; }
    forall i | 0 <= i < |q'| ensures q'[i] != q[|q| - 1] { assert q'[i] == q[i]; }
  }

  lemma NoDuplicatesBefore<T>(q: seq<T>, i: nat)
    requires NoDuplicates(q) && i < |q|
    ensures NoDuplicates(q[..i]) && q[i] !in q[..i]
  {
    assert q[..i + 1][..i] == q[..i];
    NoDuplicatesPrefix(q[..i + 1]);
  }

  /** Appending an element that does not occur yet keeps a sequence
      duplicate-free. */
  lemma NoDuplicatesAppend<T>(s: seq<T>, x: T)
    requires NoDuplicates(s) && x !in s
    ensures NoDuplicates(s + [x])
  {
    var k := s + [x];
    forall i, j | 0 <= i < j < |k| ensures k[i] != k[j] {
      if j == |s| { assert k[i] in s; } else { assert k[i] == s[i] && k[j] == s[j]; }
    }
  }

  /** Dropping an element from the middle keeps a sequence duplicate-free. */
  lemma NoDuplicatesDrop<T>(a: seq<T>, x: T, b: seq<T>)
    requires NoDuplicates(a + [x] + b)
    ensures NoDuplicates(a + b)
  {
    var s, k := a + [x] + b, a + b;
    forall i, j | 0 <= i < j < |k| ensures k[i] != k[j] {
      var i', j' := if i < |a| then i else i + 1, if j < |a| then j else j + 1;
      assert k[i] == s[i'] && k[j] == s[j'];
    }
  }

  /** In a duplicate-free sequence, removing `x` removes exactly `x`. */
  lemma {:induction false} RemoveFirstNoDuplicates<T>(s: seq<T>, x: T)
    requires NoDuplicates(s)
    ensures NoDuplicates(RemoveFirst(s, x))
    ensures forall y :: y in RemoveFirst(s, x) <==> y in s && y != x
  {
    if s != [] {
      var t := s[1..];
      assert NoDuplicates(t) by {
        forall i, j | 0 <= i < j < |t| ensures t[i] != t[j] { assert t[i] == s[i + 1] && t[j] == s[j + 1]; }
      }
      assert s[0] !in t by {
        forall i | 0 <= i < |t| ensures t[i] != s[0] { assert t[i] == s[i + 1]; }
      }
      assert s == [s[0]] + t;
      if s[0] != x {
        RemoveFirstNoDuplicates(t, x);
        var r := RemoveFirst(t, x);
        assert RemoveFirst(s, x) == [s[0]] + r;
        assert NoDuplicates([s[0]] + r) by {
          var k := [s[0]] + r;
          forall i, j | 0 <= i < j < |k| ensures k[i] != k[j] {
            if i == 0 { assert k[j] in r; } else { assert k[i] == r[i - 1] && k[j] == r[j - 1]; }
          }
        }
      }
    }
  }

  /** A duplicate-free sequence holds each element once. */
  lemma {:induction false} NoDuplicatesCount<T>(s: seq<T>, x: T)
    requires NoDuplicates(s)
    ensures multiset(s)[x] == if x in s then 1 else 0
  {
    if s != [] {
      var t := s[..|s| - 1];
      NoDuplicatesPrefix(s);
      assert s == t + [s[|s| - 1]];
      NoDuplicatesCount(t, x);
    }
  }

  /** Removing an element that occurs after every element of `a` leaves `a`
      in place. */
  lemma {:induction false} RemoveFirstAfter<T>(a: seq<T>, x: T, b: seq<T>)
    requires x !in a
    ensures RemoveFirst(a + [x] + b, x) == a + b
    decreases |a|
  {
    if a == [] {
      assert a + [x] + b == [x] + b;
      RemoveFirstCons(x, b, x);
    } else {
      var y, a' := a[0], a[1..];
      assert a == [y] + a';
      RemoveFirstAfter(a', x, b);
      RemoveFirstPast(y, a', x, b);
    }
  }

  /** The inductive step of `RemoveFirstAfter`: one more element in front. */
  lemma RemoveFirstPast<T>(y: T, a: seq<T>, x: T, b: seq<T>)
    requires y != x && RemoveFirst(a + [x] + b, x) == a + b
    ensures RemoveFirst([y] + a + [x] + b, x) == [y] + a + b
  {
    assert [y] + a + [x] + b == [y] + (a + [x] + b);
    RemoveFirstCons(y, a + [x] + b, x);
  }

  /** One unfolding of `RemoveFirst` at the front. */
  lemma RemoveFirstCons<T>(y: T, t: seq<T>, x: T)
    ensures RemoveFirst([y] + t, x) == if y == x then t else [y] + RemoveFirst(t, x)
  {
    assert ([y] + t)[0] == y && ([y] + t)[1..] == t;
  }
}
