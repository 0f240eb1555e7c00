/** The LRU map: a list of nodes, most recently used first, and a hash map from keys to list nodes. */
module Lru {
  import opened Common

  datatype Entry<K, V> = Entry(key: K, value: V)

  // ---------- what the operations do to the list of entries ----------

  /** Position of the first entry for k, or the length. */
  function Find<K(==), V>(es: seq<Entry<K, V>>, k: K): (i: nat)
    ensures i <= |es| && (i < |es| ==> es[i].key == k)
  {
    if es == [] || es[0].key == k then 0 else 1 + Find(es[1..], k)
  }

  lemma {:induction false} FindIsFirst<K, V>(es: seq<Entry<K, V>>, k: K, j: nat)
    requires j < Find(es, k)
    ensures es[j].key != k
  {
    if j > 0 {
      FindIsFirst(es[1..], k, j - 1);
    }
  }

  lemma {:induction false} FindAt<K, V>(es: seq<Entry<K, V>>, k: K, i: nat)
    requires i <= |es| && forall j :: 0 <= j < i ==> es[j].key != k
    requires i < |es| ==> es[i].key == k
    ensures Find(es, k) == i
  {
    if i > 0 {
      FindAt(es[1..], k, i - 1);
    }
  }

  ghost predicate UniqueKeys<K, V>(es: seq<Entry<K, V>>) {
    forall i, j :: 0 <= i < j < |es| ==> es[i].key != es[j].key
  }

  function ToFront<A>(s: seq<A>, i: nat): seq<A>
    requires i < |s|
  {
    [s[i]] + s[..i] + s[i + 1..]
  }

  /** Prune from the back to maxSize entries, once maxSize + elasticity is reached. */
  function Trim<A>(s: seq<A>, maxSize: nat, elasticity: nat): seq<A> {
    if maxSize == 0 || |s| < maxSize + elasticity || |s| <= maxSize then s else s[..maxSize]
  }

  function Inserted<K(==), V>(es: seq<Entry<K, V>>, k: K, v: V, maxSize: nat, elasticity: nat): seq<Entry<K, V>> {
    var i := Find(es, k);
    if i < |es| then ToFront(es[i := Entry(k, v)], i)
    else Trim([Entry(k, v)] + es, maxSize, elasticity)
  }

  function Touched<K(==), V>(es: seq<Entry<K, V>>, k: K): seq<Entry<K, V>> {
    var i := Find(es, k);
    if i < |es| then ToFront(es, i) else es
  }

  // ---------- agreement of the list and the map ----------

  ghost predicate NodeOk<K, V>(id: nat, node: map<nat, Entry<K, V>>, cache: map<K, nat>, next: nat) {
    id < next && id in node && node[id].key in cache && cache[node[id].key] == id
  }

  ghost predicate NodesOk<K, V>(keys: seq<nat>, node: map<nat, Entry<K, V>>, cache: map<K, nat>, next: nat) {
    forall i :: 0 <= i < |keys| ==> NodeOk(keys[i], node, cache, next)
  }

  ghost predicate Distinct(keys: seq<nat>) {
    forall i, j :: 0 <= i < j < |keys| ==> keys[i] != keys[j]
  }

  ghost predicate Listed<K, V>(keys: seq<nat>, node: map<nat, Entry<K, V>>, cache: map<K, nat>) {
    forall k :: k in cache ==> cache[k] in keys && cache[k] in node && node[cache[k]].key == k
  }

  /** Each node is where the map says its key is, and each key's node is in the list, once. */
  ghost predicate Agree<K, V>(keys: seq<nat>, node: map<nat, Entry<K, V>>, cache: map<K, nat>, next: nat) {
    |cache| == |keys| && NodesOk(keys, node, cache, next) && Distinct(keys) && Listed(keys, node, cache)
  }

  ghost function View<K, V>(keys: seq<nat>, node: map<nat, Entry<K, V>>, cache: map<K, nat>, next: nat)
      : (es: seq<Entry<K, V>>)
    requires NodesOk(keys, node, cache, next)
    ensures |es| == |keys|
    ensures forall i :: 0 <= i < |keys| ==> es[i] == node[keys[i]]
  {
    seq(|keys|, i requires 0 <= i < |keys| && NodeOk(keys[i], node, cache, next) => node[keys[i]])
  }

  lemma PrefixOfPrefix<A>(s: seq<A>, i: nat, j: nat)
    requires j <= i <= |s|
    ensures s[..i][..j] == s[..j]
  {
  }

  lemma MovedIndex<A>(s: seq<A>, i: nat, j: nat)
    requires i < |s| && j < |s|
    ensures ToFront(s, i)[j] == s[if j == 0 then i else if j <= i then j - 1 else j]
  {
  }

  lemma MovedMember<A>(s: seq<A>, i: nat, x: A)
    requires i < |s| && x in s
    ensures x in ToFront(s, i)
  {
  }

  lemma SpliceKeeps<K, V>(keys: seq<nat>, node: map<nat, Entry<K, V>>, cache: map<K, nat>, next: nat, i: nat)
    requires Agree(keys, node, cache, next) && i < |keys|
    ensures Agree(ToFront(keys, i), node, cache, next)
    ensures View(ToFront(keys, i), node, cache, next) == ToFront(View(keys, node, cache, next), i)
  {
    var moved := ToFront(keys, i);
    forall j | 0 <= j < |keys|
      ensures NodeOk(moved[j], node, cache, next)
    {
      MovedIndex(keys, i, j);
    }
    SpliceDistinct(keys, i);
    forall k | k in cache
      ensures cache[k] in moved
    {
      MovedMember(keys, i, cache[k]);
    }
    var es := View(keys, node, cache, next);
    forall j | 0 <= j < |keys|
      ensures View(moved, node, cache, next)[j] == ToFront(es, i)[j]
    {
      MovedIndex(keys, i, j);
      MovedIndex(es, i, j);
    }
  }

  lemma SpliceDistinct(keys: seq<nat>, i: nat)
    requires Distinct(keys) && i < |keys|
    ensures Distinct(ToFront(keys, i))
  {
    forall a, b | 0 <= a < b < |keys|
      ensures ToFront(keys, i)[a] != ToFront(keys, i)[b]
    {
      MovedIndex(keys, i, a);
      MovedIndex(keys, i, b);
    }
  }

  lemma EmplaceKeeps<K, V>(keys: seq<nat>, node: map<nat, Entry<K, V>>, cache: map<K, nat>, next: nat, k: K, v: V)
    requires Agree(keys, node, cache, next) && k !in cache
    ensures var node', cache' := node[next := Entry(k, v)], cache[k := next];
      && Agree([next] + keys, node', cache', next + 1)
      && View([next] + keys, node', cache', next + 1) == [Entry(k, v)] + View(keys, node, cache, next)
  {
    var node', cache', keys' := node[next := Entry(k, v)], cache[k := next], [next] + keys;
    assert NodesOk(keys', node', cache', next + 1) by { EmplaceNodes(keys, node, cache, next, k, v); }
    assert Distinct(keys') by { EmplaceDistinct(keys, node, cache, next); }
    assert Listed(keys', node', cache') by { EmplaceListed(keys, node, cache, next, k, v); }
    assert |cache'| == |keys'|;
    EmplaceView(keys, node, cache, next, k, v);
  }

  lemma EmplaceNodes<K, V>(keys: seq<nat>, node: map<nat, Entry<K, V>>, cache: map<K, nat>, next: nat, k: K, v: V)
    requires NodesOk(keys, node, cache, next) && k !in cache
    ensures NodesOk([next] + keys, node[next := Entry(k, v)], cache[k := next], next + 1)
  {
    var node', cache', keys' := node[next := Entry(k, v)], cache[k := next], [next] + keys;
    forall j | 0 <= j < |keys'|
      ensures NodeOk(keys'[j], node', cache', next + 1)
    {
      assert j > 0 ==> keys'[j] == keys[j - 1] && NodeOk(keys[j - 1], node, cache, next);
    }
  }

  lemma EmplaceDistinct<K, V>(keys: seq<nat>, node: map<nat, Entry<K, V>>, cache: map<K, nat>, next: nat)
    requires NodesOk(keys, node, cache, next) && Distinct(keys)
    ensures Distinct([next] + keys)
  {
    var keys' := [next] + keys;
    forall a, b | 0 <= a < b < |keys'|
      ensures keys'[a] != keys'[b]
    {
      assert keys'[b] == keys[b - 1] && NodeOk(keys[b - 1], node, cache, next);
    }
  }

  lemma EmplaceView<K, V>(keys: seq<nat>, node: map<nat, Entry<K, V>>, cache: map<K, nat>, next: nat, k: K, v: V)
    requires NodesOk(keys, node, cache, next)
    requires NodesOk([next] + keys, node[next := Entry(k, v)], cache[k := next], next + 1)
    ensures View([next] + keys, node[next := Entry(k, v)], cache[k := next], next + 1) ==
      [Entry(k, v)] + View(keys, node, cache, next)
  {
    var node', keys' := node[next := Entry(k, v)], [next] + keys;
    var es := View(keys', node', cache[k := next], next + 1);
    forall j | 0 <= j < |keys'|
      ensures es[j] == ([Entry(k, v)] + View(keys, node, cache, next))[j]
    {
      assert j > 0 ==> keys'[j] == keys[j - 1] && NodeOk(keys[j - 1], node, cache, next);
    }
  }

  lemma EmplaceListed<K, V>(keys: seq<nat>, node: map<nat, Entry<K, V>>, cache: map<K, nat>, next: nat, k: K, v: V)
    requires NodesOk(keys, node, cache, next) && Listed(keys, node, cache) && k !in cache
    ensures Listed([next] + keys, node[next := Entry(k, v)], cache[k := next])
  {
    var node', cache', keys' := node[next := Entry(k, v)], cache[k := next], [next] + keys;
    forall k' | k' in cache'
      ensures cache'[k'] in keys' && cache'[k'] in node' && node'[cache'[k']].key == k'
    {
      if k' != k {
        var j :| 0 <= j < |keys| && keys[j] == cache[k'];
        assert NodeOk(keys[j], node, cache, next) && keys'[j + 1] == keys[j];
      } else {
        assert keys'[0] == next;
      }
    }
  }

  lemma PopKeeps<K, V>(keys: seq<nat>, node: map<nat, Entry<K, V>>, cache: map<K, nat>, next: nat)
    requires Agree(keys, node, cache, next) && keys != []
    ensures var last := |keys| - 1;
      && keys[last] in node
      && var cache' := cache - {node[keys[last]].key};
      && Agree(keys[..last], node, cache', next)
      && View(keys[..last], node, cache', next) == View(keys, node, cache, next)[..last]
  {
    var last := |keys| - 1;
    assert NodeOk(keys[last], node, cache, next);
    var gone := node[keys[last]].key;
    var cache', keys' := cache - {gone}, keys[..last];
    assert NodesOk(keys', node, cache', next) by { PopNodes(keys, node, cache, next); }
    assert Listed(keys', node, cache') by { PopListed(keys, node, cache, next); }
    assert cache.Keys == cache'.Keys + {gone};
  }

  lemma PopNodes<K, V>(keys: seq<nat>, node: map<nat, Entry<K, V>>, cache: map<K, nat>, next: nat)
    requires NodesOk(keys, node, cache, next) && Distinct(keys) && keys != []
    ensures keys[|keys| - 1] in node
    ensures NodesOk(keys[..|keys| - 1], node, cache - {node[keys[|keys| - 1]].key}, next)
  {
    var last := |keys| - 1;
    assert NodeOk(keys[last], node, cache, next);
    var cache', keys' := cache - {node[keys[last]].key}, keys[..last];
    forall j | 0 <= j < last
      ensures NodeOk(keys'[j], node, cache', next)
    {
      assert NodeOk(keys[j], node, cache, next);
    }
  }

  lemma PopListed<K, V>(keys: seq<nat>, node: map<nat, Entry<K, V>>, cache: map<K, nat>, next: nat)
    requires NodesOk(keys, node, cache, next) && Listed(keys, node, cache) && keys != []
    ensures keys[|keys| - 1] in node
    ensures Listed(keys[..|keys| - 1], node, cache - {node[keys[|keys| - 1]].key})
  {
    var last := |keys| - 1;
    assert NodeOk(keys[last], node, cache, next);
    var cache', keys' := cache - {node[keys[last]].key}, keys[..last];
    forall k | k in cache'
      ensures cache'[k] in keys'
    {
      var j :| 0 <= j < |keys| && keys[j] == cache[k];
      assert j < last && keys'[j] == keys[j];
    }
  }

  // ---------- the class ----------

  class Cache<K(==), V> {
    const maxSize: nat
    const elasticity: nat
    /** The list: node identities in order. A node keeps its identity when it is spliced. */
    var keys: seq<nat>
    var node: map<nat, Entry<K, V>>
    var cache: map<K, nat>
    var nextNode: nat

    ghost predicate Valid()
      reads this
    {
      Agree(keys, node, cache, nextNode)
    }

    /** The entries in order of last use. */
    ghost function Entries(): seq<Entry<K, V>>
      requires Valid()
      reads this
    {
      View(keys, node, cache, nextNode)
    }

    lemma EntriesUnique()
      requires Valid()
      ensures UniqueKeys(Entries())
    {
      forall i, j | 0 <= i < j < |keys|
        ensures Entries()[i].key != Entries()[j].key
      {
        assert NodeOk(keys[i], node, cache, nextNode) && NodeOk(keys[j], node, cache, nextNode);
      }
    }

    lemma FoundAt(k: K, i: nat)
      requires Valid() && k in cache && i < |keys| && keys[i] == cache[k]
      ensures Find(Entries(), k) == i
    {
      EntriesUnique();
      FindAt(Entries(), k, i);
    }

    lemma NotFound(k: K)
      requires Valid()
      ensures k in cache <==> Find(Entries(), k) < |Entries()|
    {
      var i := Find(Entries(), k);
      if i < |keys| {
        assert NodeOk(keys[i], node, cache, nextNode);
      }
      if k in cache {
        var j :| 0 <= j < |keys| && keys[j] == cache[k];
        FoundAt(k, j);
      }
    }

    constructor (maxSize: nat, elasticity: nat)
      ensures Valid() && Entries() == [] && this.maxSize == maxSize && this.elasticity == elasticity
    {
      this.maxSize, this.elasticity := maxSize, elasticity;
      keys, node, cache, nextNode := [], map[], map[], 0;
    }

    method Size() returns (n: nat)
      requires Valid()
      ensures n == |Entries()|
    {
      n := |cache|;
    }

    method Contains(k: K) returns (found: bool)
      requires Valid()
      ensures found <==> Find(Entries(), k) < |Entries()|
    {
      NotFound(k);
      found := k in cache;
    }

    /** keys_.splice(keys_.begin(), keys_, node) */
    method Splice(k: K, ghost i: nat)
      requires Valid() && k in cache && i < |keys| && keys[i] == cache[k]
      modifies this`keys
      ensures Valid() && Entries() == ToFront(old(Entries()), i)
    {
      var id := cache[k];
      var at :| 0 <= at < |keys| && keys[at] == id;
      assert at == i;
      SpliceKeeps(keys, node, cache, nextNode, at);
      keys := [id] + keys[..at] + keys[at + 1..];
    }

    /** The value for k, which becomes the most recently used; None where the source throws KeyNotFound. */
    method Get(k: K) returns (r: Option<V>)
      requires Valid()
      modifies this`keys
      ensures Valid() && Entries() == Touched(old(Entries()), k)
      ensures var es := old(Entries()); var i := Find(es, k);
        r == if i < |es| then Some(es[i].value) else None
    {
      NotFound(k);
      if k !in cache {
        return None;
      }
      ghost var i :| 0 <= i < |keys| && keys[i] == cache[k];
      FoundAt(k, i);
      r := Some(node[cache[k]].value);
      assert r.value == Entries()[i].value;
      Splice(k, i);
    }

    /** Overwrite and move to the front, or add at the front and prune. */
    method Insert(k: K, v: V)
      requires Valid()
      modifies this
      ensures Valid() && Entries() == Inserted(old(Entries()), k, v, maxSize, elasticity)
    {
      NotFound(k);
      if k in cache {
        ghost var i :| 0 <= i < |keys| && keys[i] == cache[k];
        FoundAt(k, i);
        Overwrite(k, v, i);
        Splice(k, i);
      } else {
        EmplaceFront(k, v);
        var _ := Prune();
      }
    }

    method Overwrite(k: K, v: V, ghost i: nat)
      requires Valid() && k in cache && i < |keys| && keys[i] == cache[k]
      modifies this`node
      ensures Valid() && Entries() == old(Entries())[i := Entry(k, v)]
    {
      node := node[cache[k] := Entry(k, v)];
      assert Entries() == old(Entries())[i := Entry(k, v)];
    }

    method EmplaceFront(k: K, v: V)
      requires Valid() && k !in cache
      modifies this
      ensures Valid() && Entries() == [Entry(k, v)] + old(Entries())
    {
      EmplaceKeeps(keys, node, cache, nextNode, k, v);
      node := node[nextNode := Entry(k, v)];
      keys := [nextNode] + keys;
      cache := cache[k := nextNode];
      nextNode := nextNode + 1;
    }

    method Prune() returns (count: nat)
      requires Valid()
      modifies this
      ensures Valid() && Entries() == Trim(old(Entries()), maxSize, elasticity)
      ensures count == |old(Entries())| - |Entries()|
    {
      count := 0;
      var maxAllowed := maxSize + elasticity;
      if maxSize == 0 || |cache| < maxAllowed {
        return;
      }
      ghost var before := Entries();
      while |cache| > maxSize
        invariant Valid() && |keys| + count == |before|
        invariant Entries() == before[..|keys|]
        invariant count > 0 ==> |keys| >= maxSize
        decreases |cache|
      {
        ghost var left := |keys| - 1;
        PrefixOfPrefix(before, left + 1, left);
        PopBack();
        count := count + 1;
      }
    }

    /** cache_.erase(keys_.back().key); keys_.pop_back() */
    method PopBack()
      requires Valid() && keys != []
      modifies this`keys, this`cache
      ensures Valid() && |keys| == |old(keys)| - 1
      ensures Entries() == old(Entries())[..|keys|]
    {
      PopKeeps(keys, node, cache, nextNode);
      cache := cache - {node[keys[|keys| - 1]].key};
      keys := keys[..|keys| - 1];
    }

    /** The value of the least recently used entry; None where the source reads the back of an empty list. */
    method PruneValue() returns (r: Option<V>)
      requires Valid()
      ensures var es := Entries();
        r == if es == [] then None else Some(es[|es| - 1].value)
    {
      if keys == [] {
        return None;
      }
      var back := node[keys[|keys| - 1]].key;
      r := Some(node[cache[back]].value);
    }
  }

}
