/** Least recently used, said of the history: after any stores and fetches the entries of the cache are those used last,
    the last used first, each with the value stored last under its key. */
module LruHistory {
  import opened Common
  import opened Lru

  datatype Op<K, V> = Store(key: K, value: V) | Fetch(key: K)

  /** What the operations leave in a cache of n entries and no elasticity. */
  function Run<K(==), V>(ops: seq<Op<K, V>>, n: nat): seq<Entry<K, V>> {
    if ops == [] then []
    else
      match ops[|ops| - 1]
      case Store(k, v) => Inserted(Run(ops[..|ops| - 1], n), k, v, n, 0)
      case Fetch(k) => Touched(Run(ops[..|ops| - 1], n), k)
  }

  predicate Has<K(==), V>(es: seq<Entry<K, V>>, k: K) {
    exists i :: 0 <= i < |es| && es[i].key == k
  }

  /** When a key was last used, counting from 1: stored, or fetched while it was there; 0 for never. */
  function LastUse<K(==), V>(ops: seq<Op<K, V>>, n: nat, k: K): nat {
    if ops == [] then 0
    else
      var front, op := ops[..|ops| - 1], ops[|ops| - 1];
      if op.key == k && (op.Store? || Has(Run(front, n), k)) then |ops| else LastUse(front, n, k)
  }

  /** The value stored last under a key. */
  function LastValue<K(==), V>(ops: seq<Op<K, V>>, k: K): Option<V> {
    if ops == [] then None
    else
      var op := ops[|ops| - 1];
      if op.Store? && op.key == k then Some(op.value) else LastValue(ops[..|ops| - 1], k)
  }

  lemma {:induction false} LastUseBound<K, V>(ops: seq<Op<K, V>>, n: nat, k: K)
    ensures LastUse(ops, n, k) <= |ops|
    decreases |ops|
  {
    if ops != [] {
      LastUseBound(ops[..|ops| - 1], n, k);
    }
  }

  ghost predicate UsedLastFirst<K, V>(es: seq<Entry<K, V>>, ops: seq<Op<K, V>>, n: nat) {
    forall i, j :: 0 <= i < j < |es| ==> LastUse(ops, n, es[i].key) > LastUse(ops, n, es[j].key)
  }

  ghost predicate ValuesKept<K, V>(es: seq<Entry<K, V>>, ops: seq<Op<K, V>>, n: nat) {
    forall i :: 0 <= i < |es| ==> LastUse(ops, n, es[i].key) > 0 && LastValue(ops, es[i].key) == Some(es[i].value)
  }

  /** A key that was used and is gone was used before all those that are there, and the cache is full. */
  ghost predicate OthersOlder<K(!new), V>(es: seq<Entry<K, V>>, ops: seq<Op<K, V>>, n: nat) {
    forall k :: LastUse(ops, n, k) > 0 && !Has(es, k) ==> |es| == n && OlderThanAll(es, ops, n, k)
  }

  ghost predicate OlderThanAll<K, V>(es: seq<Entry<K, V>>, ops: seq<Op<K, V>>, n: nat, k: K) {
    forall i :: 0 <= i < |es| ==> LastUse(ops, n, es[i].key) > LastUse(ops, n, k)
  }

  ghost predicate Recent<K(!new), V>(es: seq<Entry<K, V>>, ops: seq<Op<K, V>>, n: nat) {
    |es| <= n && UsedLastFirst(es, ops, n) && ValuesKept(es, ops, n) && OthersOlder(es, ops, n)
  }

  lemma FoundIff<K, V>(es: seq<Entry<K, V>>, k: K)
    ensures Find(es, k) < |es| <==> Has(es, k)
  {
    if Find(es, k) == |es| {
      forall i | 0 <= i < |es|
        ensures es[i].key != k
      {
        FindIsFirst(es, k, i);
      }
    }
  }

  /** What one more operation changes: the last use and value of its own key. */
  lemma OneMore<K, V>(front: seq<Op<K, V>>, op: Op<K, V>, n: nat, k: K)
    ensures var ops := front + [op];
      && LastUse(front, n, k) <= |front|
      && LastUse(ops, n, k) ==
          (if k == op.key && (op.Store? || Has(Run(front, n), k)) then |ops| else LastUse(front, n, k))
      && LastValue(ops, k) == (if k == op.key && op.Store? then Some(op.value) else LastValue(front, k))
  {
    var ops := front + [op];
    assert ops[..|ops| - 1] == front && ops[|ops| - 1] == op;
    LastUseBound(front, n, k);
  }

  /** The new list: the used entry, then old entries with other keys in their old order. */
  ghost predicate Reordered<K, V>(es: seq<Entry<K, V>>, es': seq<Entry<K, V>>, first: Entry<K, V>, from: seq<nat>) {
    && |es'| == |from| + 1 && es'[0] == first
    && (forall j :: 0 <= j < |from| ==> from[j] < |es| && es'[j + 1] == es[from[j]] && es[from[j]].key != first.key)
    && (forall i, j :: 0 <= i < j < |from| ==> from[i] < from[j])
  }

  lemma KeepsOrder<K(!new), V>(es: seq<Entry<K, V>>, es': seq<Entry<K, V>>, front: seq<Op<K, V>>, op: Op<K, V>, n: nat,
      v: V, from: seq<nat>)
    requires Recent(es, front, n) && es == Run(front, n) && Reordered(es, es', Entry(op.key, v), from)
    requires op.Store? || Has(es, op.key)
    ensures UsedLastFirst(es', front + [op], n)
  {
    forall i, j | 0 <= i < j < |es'|
      ensures LastUse(front + [op], n, es'[i].key) > LastUse(front + [op], n, es'[j].key)
    {
      OneMore(front, op, n, es'[i].key);
      OneMore(front, op, n, es'[j].key);
      assert es'[j] == es[from[j - 1]];
      if i > 0 {
        assert es'[i] == es[from[i - 1]] && from[i - 1] < from[j - 1];
      }
    }
  }

  lemma KeepsValues<K(!new), V>(es: seq<Entry<K, V>>, es': seq<Entry<K, V>>, front: seq<Op<K, V>>, op: Op<K, V>, n: nat,
      v: V, from: seq<nat>)
    requires Recent(es, front, n) && es == Run(front, n) && Reordered(es, es', Entry(op.key, v), from)
    requires op.Store? || Has(es, op.key)
    requires if op.Store? then v == op.value else LastValue(front, op.key) == Some(v)
    ensures ValuesKept(es', front + [op], n)
  {
    forall i | 0 <= i < |es'|
      ensures LastUse(front + [op], n, es'[i].key) > 0 && LastValue(front + [op], es'[i].key) == Some(es'[i].value)
    {
      OneMore(front, op, n, es'[i].key);
      if i > 0 {
        assert es'[i] == es[from[i - 1]];
      }
    }
  }

  lemma Outlives<K(!new), V>(es: seq<Entry<K, V>>, es': seq<Entry<K, V>>, front: seq<Op<K, V>>, op: Op<K, V>, n: nat,
      v: V, from: seq<nat>, k: K)
    requires Recent(es, front, n) && es == Run(front, n) && Reordered(es, es', Entry(op.key, v), from)
    requires (op.Store? || Has(es, op.key)) && k != op.key
    requires forall j :: 0 <= j < |from| ==> LastUse(front, n, es[from[j]].key) > LastUse(front, n, k)
    ensures OlderThanAll(es', front + [op], n, k)
  {
    forall i | 0 <= i < |es'|
      ensures LastUse(front + [op], n, es'[i].key) > LastUse(front + [op], n, k)
    {
      OneMore(front, op, n, es'[i].key);
      OneMore(front, op, n, k);
      if i > 0 {
        assert es'[i] == es[from[i - 1]];
      }
    }
  }

  // ---------- the three cases ----------

  /** The positions 0 to n - 1 but for i. */
  function AllBut(n: nat, i: nat): (q: seq<nat>)
    requires i < n
    ensures |q| == n - 1 && forall j :: 0 <= j < n - 1 ==> q[j] == if j < i then j else j + 1
  {
    seq(n - 1, j => if j < i then j else j + 1)
  }

  lemma MovesUp<K(!new), V>(es: seq<Entry<K, V>>, front: seq<Op<K, V>>, op: Op<K, V>, n: nat, i: nat, v: V)
    requires Recent(es, front, n) && es == Run(front, n) && i < |es| && es[i].key == op.key
    requires if op.Store? then v == op.value else v == es[i].value
    ensures Recent(ToFront(es[i := Entry(op.key, v)], i), front + [op], n)
  {
    var es', from := ToFront(es[i := Entry(op.key, v)], i), AllBut(|es|, i);
    assert Reordered(es, es', Entry(op.key, v), from) by { UpShape(es, i, Entry(op.key, v)); }
    KeepsOrder(es, es', front, op, n, v, from);
    KeepsValues(es, es', front, op, n, v, from);
    forall k | LastUse(front + [op], n, k) > 0 && !Has(es', k)
      ensures |es'| == n && OlderThanAll(es', front + [op], n, k)
    {
      assert es'[0].key == op.key;
      OneMore(front, op, n, k);
      StillGone(es, i, Entry(op.key, v), k);
      assert OlderThanAll(es, front, n, k);
      Outlives(es, es', front, op, n, v, from, k);
    }
  }

  lemma UpShape<K, V>(es: seq<Entry<K, V>>, i: nat, first: Entry<K, V>)
    requires i < |es| && first.key == es[i].key && UniqueKeys(es)
    ensures Reordered(es, ToFront(es[i := first], i), first, AllBut(|es|, i))
  {
  }

  lemma StillGone<K, V>(es: seq<Entry<K, V>>, i: nat, first: Entry<K, V>, k: K)
    requires i < |es| && first.key == es[i].key && !Has(ToFront(es[i := first], i), k)
    ensures !Has(es, k)
  {
    var q := es[i := first];
    forall j | 0 <= j < |es|
      ensures es[j].key != k
    {
      MovedMember(q, i, q[j]);
    }
  }

  function UpTo(n: nat): (q: seq<nat>)
    ensures |q| == n && forall j :: 0 <= j < n ==> q[j] == j
  {
    seq(n, j => j)
  }

  lemma LastIsDropped<K, V>(es: seq<Entry<K, V>>, e: Entry<K, V>, n: nat, k: K)
    requires 0 < n && |es| <= n && Has(es, k)
    ensures Has(Trim([e] + es, n, 0), k) || (|es| == n && es[n - 1].key == k)
  {
    var i :| 0 <= i < |es| && es[i].key == k;
    if i < n - 1 {
      assert Trim([e] + es, n, 0)[i + 1] == es[i];
    }
  }

  lemma AddsNew<K(!new), V>(es: seq<Entry<K, V>>, front: seq<Op<K, V>>, op: Op<K, V>, n: nat)
    requires Recent(es, front, n) && es == Run(front, n) && op.Store? && !Has(es, op.key) && n > 0
    ensures Recent(Trim([Entry(op.key, op.value)] + es, n, 0), front + [op], n)
  {
    var kept := Min(|es|, n - 1);
    var es', from := Trim([Entry(op.key, op.value)] + es, n, 0), UpTo(kept);
    assert Reordered(es, es', Entry(op.key, op.value), from);
    KeepsOrder(es, es', front, op, n, op.value, from);
    KeepsValues(es, es', front, op, n, op.value, from);
    forall k | LastUse(front + [op], n, k) > 0 && !Has(es', k)
      ensures |es'| == n && OlderThanAll(es', front + [op], n, k)
    {
      assert es'[0].key == op.key;
      OneMore(front, op, n, k);
      if Has(es, k) {
        LastIsDropped(es, Entry(op.key, op.value), n, k);
      } else {
        assert OlderThanAll(es, front, n, k);
      }
      Outlives(es, es', front, op, n, op.value, from, k);
    }
  }

  lemma Misses<K(!new), V>(es: seq<Entry<K, V>>, front: seq<Op<K, V>>, op: Op<K, V>, n: nat)
    requires Recent(es, front, n) && es == Run(front, n) && op.Fetch? && !Has(es, op.key)
    ensures Recent(es, front + [op], n)
  {
    forall k
      ensures LastUse(front + [op], n, k) == LastUse(front, n, k) && LastValue(front + [op], k) == LastValue(front, k)
    {
      OneMore(front, op, n, k);
    }
    forall k | LastUse(front + [op], n, k) > 0 && !Has(es, k)
      ensures |es| == n && OlderThanAll(es, front + [op], n, k)
    {
      assert OlderThanAll(es, front, n, k);
    }
  }

  /** After any operations on a cache of n entries: the entries stand in order of last use, each with the value stored
      last under its key; and a key that was used and is not there was used before all of them, with the cache full. */
  lemma {:induction false} RecentlyUsed<K(!new), V>(ops: seq<Op<K, V>>, n: nat)
    requires n > 0
    ensures Recent(Run(ops, n), ops, n)
    decreases |ops|
  {
    if ops != [] {
      var front, op := ops[..|ops| - 1], ops[|ops| - 1];
      var es := Run(front, n);
      RecentlyUsed(front, n);
      assert front + [op] == ops;
      FoundIff(es, op.key);
      var i := Find(es, op.key);
      if i < |es| {
        assert es[i := Entry(op.key, es[i].value)] == es;
        MovesUp(es, front, op, n, i, if op.Store? then op.value else es[i].value);
      } else if op.Store? {
        AddsNew(es, front, op, n);
      } else {
        Misses(es, front, op, n);
      }
    }
  }

  /** The operations carried out on a cache object. */
  method Replay<K(==, !new), V>(ops: seq<Op<K, V>>, n: nat) returns (c: Cache<K, V>)
    requires n > 0
    ensures fresh(c) && c.Valid() && c.Entries() == Run(ops, n) && Recent(c.Entries(), ops, n)
  {
    c := new Cache(n, 0);
    for j := 0 to |ops|
      invariant fresh(c) && c.Valid() && c.maxSize == n && c.elasticity == 0 && c.Entries() == Run(ops[..j], n)
    {
      assert ops[..j + 1][..j] == ops[..j] && ops[..j + 1][j] == ops[j];
      match ops[j]
      case Store(k, v) => c.Insert(k, v);
      case Fetch(k) => var _ := c.Get(k);
    }
    assert ops[..|ops|] == ops;
    RecentlyUsed(ops, n);
  }
}
