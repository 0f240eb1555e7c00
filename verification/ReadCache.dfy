/** The container cache of a restore: an LRU map from container names to slots of a fixed pool of buffers. */
module ReadCache {
  import opened Common
  import opened Bits
  import opened Lru

  const MAX_CONTAINER_SIZE: nat := 0x40_0000
  /** The LRU map's limit, fixed in the class definition whatever the configured pool size. */
  const LRU_LIMIT: nat := 64

  type Name = seq<byte>
  type Buffer = b: seq<byte> | |b| == MAX_CONTAINER_SIZE witness seq(MAX_CONTAINER_SIZE, i => 0)
  type Container = c: seq<byte> | |c| <= MAX_CONTAINER_SIZE

  type Slots = seq<Entry<Name, nat>>

  /** memcpy of a container to the start of a buffer: the rest keeps its old bytes. */
  function Overwritten(buf: Buffer, data: Container): Buffer {
    data + buf[|data|..]
  }

  // ---------- the containers on disk ----------

  datatype Disk = Disk(base: map<Name, Container>, delta: map<Name, Container>)

  /** The base directory is tried first, then the delta directory. */
  function OnDisk(d: Disk, name: Name): Option<Container> {
    if name in d.base then Some(d.base[name])
    else if name in d.delta then Some(d.delta[name])
    else None
  }

  // ---------- the cache as a value ----------

  datatype State = State(slots: Slots, pool: seq<Buffer>, current: nat)

  /** None where the source reads the back of an empty list or a slot outside the pool. */
  function Stored(st: State, name: Name, data: Container): Option<State> {
    var full := |st.slots| + 1 > |st.pool|;
    if full && st.slots == [] then None
    else
      var slot := if full then st.slots[|st.slots| - 1].value else st.current;
      if slot >= |st.pool| then None
      else
        Some(State(Inserted(st.slots, name, slot % WORD32, LRU_LIMIT, 0),
                   st.pool[slot := Overwritten(st.pool[slot], data)],
                   if full then st.current else st.current + 1))
  }

  datatype Outcome =
    | Exit
    | Fault
    | Got(state: State, bytes: seq<byte>)

  /** One turn of the request loop: what a request puts at the start of its container buffer. */
  function Request(st: State, d: Disk, name: Name): Outcome {
    var i := Find(st.slots, name);
    if i < |st.slots| then
      var slot := st.slots[i].value;
      if slot >= |st.pool| then Fault
      else Got(st.(slots := Touched(st.slots, name)), st.pool[slot])
    else
      match OnDisk(d, name)
      case None => Exit
      case Some(data) =>
        match Stored(st, name, data)
        case None => Fault
        case Some(next) => Got(next, data)
  }

  /** The bytes start with the container of that name: the one in the base directory, or, where there is none, the one
      in the delta directory. */
  predicate Holds(d: Disk, name: Name, bytes: seq<byte>) {
    if name in d.base then d.base[name] <= bytes else name in d.delta && d.delta[name] <= bytes
  }

  /** Every request of the run gives the bytes on disk. */
  predicate RunRight(st: State, d: Disk, names: seq<Name>)
    decreases |names|
  {
    names == [] ||
    var r := Request(st, d, names[0]);
    && r.Got? && Holds(d, names[0], r.bytes)
    && RunRight(r.state, d, names[1..])
  }

  ghost predicate AllOnDisk(d: Disk, names: seq<Name>) {
    forall i :: 0 <= i < |names| ==> names[i] in d.base || names[i] in d.delta
  }

  // ---------- a pool of exactly the LRU limit is right ----------

  ghost predicate SlotsUnique(es: Slots) {
    forall i, j :: 0 <= i < j < |es| ==> es[i].value != es[j].value
  }

  ghost predicate EntryRight(e: Entry<Name, nat>, pool: seq<Buffer>, d: Disk) {
    e.value < |pool| && OnDisk(d, e.key).Some? && OnDisk(d, e.key).value <= pool[e.value]
  }

  ghost predicate AllRight(es: Slots, pool: seq<Buffer>, d: Disk) {
    forall i :: 0 <= i < |es| ==> EntryRight(es[i], pool, d)
  }

  ghost predicate AllBelow(es: Slots, n: nat) {
    forall i :: 0 <= i < |es| ==> es[i].value < n
  }

  /** Live names are distinct, live in distinct slots that are in use, and each slot starts with its container. */
  ghost predicate Agrees(st: State, d: Disk) {
    && |st.pool| == LRU_LIMIT && st.current == |st.slots| <= LRU_LIMIT
    && UniqueKeys(st.slots) && SlotsUnique(st.slots) && AllBelow(st.slots, st.current)
    && AllRight(st.slots, st.pool, d)
  }

  lemma TouchKeeps(es: Slots, i: nat, n: nat, pool: seq<Buffer>, d: Disk)
    requires i < |es| && UniqueKeys(es) && SlotsUnique(es) && AllBelow(es, n) && AllRight(es, pool, d)
    ensures var es' := ToFront(es, i);
      |es'| == |es| && UniqueKeys(es') && SlotsUnique(es') && AllBelow(es', n) && AllRight(es', pool, d)
  {
    var es' := ToFront(es, i);
    forall a | 0 <= a < |es|
      ensures es'[a].value < n && EntryRight(es'[a], pool, d)
    {
      MovedIndex(es, i, a);
    }
    forall a, b | 0 <= a < b < |es|
      ensures es'[a].key != es'[b].key && es'[a].value != es'[b].value
    {
      MovedIndex(es, i, a);
      MovedIndex(es, i, b);
    }
  }

  /** Adding a name in a slot no remaining entry uses. */
  lemma AddKeeps(es: Slots, name: Name, slot: nat, data: Container, n: nat, pool: seq<Buffer>, d: Disk)
    requires UniqueKeys(es) && SlotsUnique(es) && AllBelow(es, n) && AllRight(es, pool, d)
    requires forall i :: 0 <= i < |es| ==> es[i].key != name && es[i].value != slot
    requires slot < n && slot < |pool| && OnDisk(d, name) == Some(data)
    ensures var es' := [Entry(name, slot)] + es;
      && UniqueKeys(es') && SlotsUnique(es') && AllBelow(es', n)
      && AllRight(es', pool[slot := Overwritten(pool[slot], data)], d)
  {
    var es', pool' := [Entry(name, slot)] + es, pool[slot := Overwritten(pool[slot], data)];
    forall i | 0 <= i < |es'|
      ensures EntryRight(es'[i], pool', d)
    {
      assert i > 0 ==> es'[i] == es[i - 1] && EntryRight(es[i - 1], pool, d);
    }
  }

  lemma NewName(es: Slots, name: Name)
    requires Find(es, name) == |es|
    ensures forall i :: 0 <= i < |es| ==> es[i].key != name
  {
    forall i | 0 <= i < |es|
      ensures es[i].key != name
    {
      FindIsFirst(es, name, i);
    }
  }

  lemma FillKeeps(st: State, d: Disk, name: Name, data: Container)
    requires Agrees(st, d) && Find(st.slots, name) == |st.slots| < LRU_LIMIT && OnDisk(d, name) == Some(data)
    ensures Stored(st, name, data).Some? && Agrees(Stored(st, name, data).value, d)
  {
    NewName(st.slots, name);
    AddKeeps(st.slots, name, st.current, data, st.current + 1, st.pool, d);
    FillShape(st, name, data);
  }

  lemma FillShape(st: State, name: Name, data: Container)
    requires |st.pool| == LRU_LIMIT && Find(st.slots, name) == |st.slots| == st.current < LRU_LIMIT
    ensures Stored(st, name, data) == Some(State([Entry(name, st.current)] + st.slots,
                                                 st.pool[st.current := Overwritten(st.pool[st.current], data)],
                                                 st.current + 1))
  {
  }

  lemma EvictKeeps(st: State, d: Disk, name: Name, data: Container)
    requires Agrees(st, d) && Find(st.slots, name) == |st.slots| == LRU_LIMIT && OnDisk(d, name) == Some(data)
    ensures Stored(st, name, data).Some? && Agrees(Stored(st, name, data).value, d)
  {
    NewName(st.slots, name);
    var last := LRU_LIMIT - 1;
    var kept, slot := st.slots[..last], st.slots[last].value;
    assert slot < LRU_LIMIT;
    AddKeeps(kept, name, slot, data, st.current, st.pool, d);
    EvictShape(st, name, data);
  }

  lemma EvictShape(st: State, name: Name, data: Container)
    requires |st.pool| == |st.slots| == LRU_LIMIT && Find(st.slots, name) == LRU_LIMIT
    requires st.slots[LRU_LIMIT - 1].value < LRU_LIMIT
    ensures var slot := st.slots[LRU_LIMIT - 1].value;
      Stored(st, name, data) == Some(State([Entry(name, slot)] + st.slots[..LRU_LIMIT - 1],
                                           st.pool[slot := Overwritten(st.pool[slot], data)], st.current))
  {
    var slot := st.slots[LRU_LIMIT - 1].value;
    assert ([Entry(name, slot)] + st.slots)[..LRU_LIMIT] == [Entry(name, slot)] + st.slots[..LRU_LIMIT - 1];
  }

  lemma StoreRight(st: State, d: Disk, name: Name, data: Container)
    requires Agrees(st, d) && Find(st.slots, name) == |st.slots| && OnDisk(d, name) == Some(data)
    ensures Stored(st, name, data).Some? && Agrees(Stored(st, name, data).value, d)
  {
    if |st.slots| < LRU_LIMIT {
      FillKeeps(st, d, name, data);
    } else {
      EvictKeeps(st, d, name, data);
    }
  }

  lemma HitRight(st: State, d: Disk, name: Name)
    requires Agrees(st, d) && Find(st.slots, name) < |st.slots|
    ensures EntryRight(st.slots[Find(st.slots, name)], st.pool, d)
    ensures Agrees(st.(slots := Touched(st.slots, name)), d)
  {
    TouchKeeps(st.slots, Find(st.slots, name), st.current, st.pool, d);
  }

  /** With a pool of the LRU limit, a request gives the container on disk, and the cache goes on agreeing with the
      disk. */
  lemma RequestRight(st: State, d: Disk, name: Name)
    requires Agrees(st, d) && OnDisk(d, name).Some?
    ensures var r := Request(st, d, name);
      r.Got? && OnDisk(d, name).value <= r.bytes && Agrees(r.state, d)
  {
    if Find(st.slots, name) < |st.slots| {
      HitRight(st, d, name);
    } else {
      StoreRight(st, d, name, OnDisk(d, name).value);
    }
  }

  lemma {:induction false} AgreeingRun(st: State, d: Disk, names: seq<Name>)
    requires Agrees(st, d) && AllOnDisk(d, names)
    ensures RunRight(st, d, names)
    decreases |names|
  {
    if names != [] {
      RequestRight(st, d, names[0]);
      AgreeingRun(Request(st, d, names[0]).state, d, names[1..]);
    }
  }

  // ---------- any other pool size goes wrong ----------

  /** A disk with one container for each of a few numbered names, holding its number. */
  function Numbered(i: nat): Name
    requires i < 256
  {
    [i, 0, 0, 0, 0, 0, 0]
  }

  function JustItsNumber(name: Name): Container {
    name[..if |name| < 1 then |name| else 1]
  }

  function TestDisk(): Disk {
    var names := set i: nat | i < 256 :: Numbered(i);
    Disk(map name | name in names :: JustItsNumber(name), map[])
  }

  lemma TestDiskHas(i: nat)
    requires i < 256
    ensures OnDisk(TestDisk(), Numbered(i)) == Some([i])
  {
    var name := Numbered(i);
    assert name in TestDisk().base && name[..1] == [i];
    assert JustItsNumber(name) == name[..1];
  }

  /** Names from..last in order, then name 0 again. */
  function FillThenFirst(from: nat, last: nat): seq<Name>
    requires from <= last + 1 <= 256
    decreases last + 1 - from
  {
    if from == last + 1 then [Numbered(0)] else [Numbered(from)] + FillThenFirst(from + 1, last)
  }

  /** Names 0..k-1 are cached in slots 0..k-1, the newest first. */
  ghost predicate Filled(st: State, k: nat) {
    && |st.slots| == st.current == k <= 256
    && forall i :: 0 <= i < k ==> st.slots[i] == Entry(Numbered(k - 1 - i), k - 1 - i)
  }

  lemma MissWhenFilled(st: State, k: nat)
    requires Filled(st, k) && k < 256
    ensures Find(st.slots, Numbered(k)) == k
  {
    assert forall i :: 0 <= i < k ==> st.slots[i].key[0] == k - 1 - i;
    FindAt(st.slots, Numbered(k), k);
  }

  /** A smaller pool: the slot of the oldest name is reused, but the name stays in the map. */
  lemma {:induction false} SmallPoolBreaks(st: State, k: nat)
    requires 1 <= |st.pool| < LRU_LIMIT && Filled(st, k) && k <= |st.pool|
    ensures !RunRight(st, TestDisk(), FillThenFirst(k, |st.pool|))
    decreases |st.pool| - k
  {
    MissWhenFilled(st, k);
    TestDiskHas(k);
    var next := Request(st, TestDisk(), Numbered(k));
    if k < |st.pool| {
      assert Filled(next.state, k + 1);
      SmallPoolBreaks(next.state, k + 1);
    } else {
      StaleSlot(st, k);
    }
  }

  lemma StaleSlot(st: State, k: nat)
    requires 1 <= |st.pool| < LRU_LIMIT && Filled(st, k) && k == |st.pool|
    ensures !RunRight(st, TestDisk(), [Numbered(k)] + [Numbered(0)])
  {
    MissWhenFilled(st, k);
    TestDiskHas(k);
    TestDiskHas(0);
    var r := Request(st, TestDisk(), Numbered(k));
    var st' := r.state;
    assert st'.slots == [Entry(Numbered(k), 0)] + st.slots;
    assert st'.pool[0][0] == k;
    assert st'.slots[k] == Entry(Numbered(0), 0);
    assert forall i :: 0 <= i < k ==> st'.slots[i].key[0] != 0;
    FindAt(st'.slots, Numbered(0), k);
    assert Request(st', TestDisk(), Numbered(0)).bytes[0] == k;
    var names := [Numbered(k)] + [Numbered(0)];
    assert names[1..] == [Numbered(0)];
  }

  /** 65 names in a circle. */
  function Circle(from: nat, last: nat): seq<Name>
    decreases last - from
  {
    if from >= last then [Numbered(last % 65)] else [Numbered(from % 65)] + Circle(from + 1, last)
  }

  /** After k requests round the circle the map holds the latest 64 names, and slot k is next. */
  ghost predicate Circled(st: State, k: nat) {
    && st.current == k && |st.slots| == (if k < LRU_LIMIT then k else LRU_LIMIT)
    && forall i :: 0 <= i < |st.slots| ==> st.slots[i].key == Numbered((k - 1 - i) % 65)
  }

  lemma MissOnCircle(st: State, k: nat)
    requires Circled(st, k)
    ensures Find(st.slots, Numbered(k % 65)) == |st.slots|
  {
    assert forall i :: 0 <= i < |st.slots| ==> st.slots[i].key[0] == (k - 1 - i) % 65;
    FindAt(st.slots, Numbered(k % 65), |st.slots|);
  }

  lemma NextOnCircle(st: State, k: nat, next: State)
    requires |st.pool| > LRU_LIMIT && Circled(st, k) && k < |st.pool|
    requires Stored(st, Numbered(k % 65), [k % 65]) == Some(next)
    ensures Circled(next, k + 1) && |next.pool| == |st.pool|
  {
    MissOnCircle(st, k);
    var es: Slots := [Entry(Numbered(k % 65), k % WORD32)] + st.slots;
    assert next.slots == Trim(es, LRU_LIMIT, 0);
    forall i | 0 <= i < |next.slots|
      ensures next.slots[i].key == Numbered((k - i) % 65)
    {
      assert next.slots[i] == es[i];
    }
  }

  /** A larger pool: every miss takes a new slot, past the end of the pool in the end. */
  lemma {:induction false} LargePoolBreaks(st: State, k: nat)
    requires |st.pool| > LRU_LIMIT && Circled(st, k) && k <= |st.pool|
    ensures !RunRight(st, TestDisk(), Circle(k, |st.pool|))
    decreases |st.pool| - k
  {
    MissOnCircle(st, k);
    TestDiskHas(k % 65);
    if k < |st.pool| {
      var next := Request(st, TestDisk(), Numbered(k % 65)).state;
      NextOnCircle(st, k, Stored(st, Numbered(k % 65), [k % 65]).value);
      LargePoolBreaks(next, k + 1);
      assert Circle(k, |st.pool|)[1..] == Circle(k + 1, |st.pool|);
    }
  }

  lemma {:induction false} FillOnDisk(from: nat, last: nat)
    requires from <= last + 1 <= 256
    ensures AllOnDisk(TestDisk(), FillThenFirst(from, last))
    decreases last + 1 - from
  {
    TestDiskHas(0);
    if from < last + 1 {
      TestDiskHas(from);
      FillOnDisk(from + 1, last);
    }
  }

  lemma {:induction false} CircleOnDisk(from: nat, last: nat)
    ensures AllOnDisk(TestDisk(), Circle(from, last))
    decreases last - from
  {
    TestDiskHas(last % 65);
    TestDiskHas(from % 65);
    if from < last {
      CircleOnDisk(from + 1, last);
    }
  }

  /** For every disk and every request sequence the cache gives the bytes on disk, exactly when the pool has 64
      slots. */
  lemma CacheRightIff(pool: seq<Buffer>)
    ensures (forall d, names :: AllOnDisk(d, names) ==> RunRight(State([], pool, 0), d, names)) <==> |pool| == LRU_LIMIT
  {
    var st := State([], pool, 0);
    if |pool| == LRU_LIMIT {
      forall d, names | AllOnDisk(d, names)
        ensures RunRight(st, d, names)
      {
        AgreeingRun(st, d, names);
      }
    } else if |pool| == 0 {
      TestDiskHas(0);
      assert AllOnDisk(TestDisk(), [Numbered(0)]) && !RunRight(st, TestDisk(), [Numbered(0)]);
    } else if |pool| < LRU_LIMIT {
      FillOnDisk(0, |pool|);
      SmallPoolBreaks(st, 0);
    } else {
      CircleOnDisk(0, |pool|);
      LargePoolBreaks(st, 0);
    }
  }

  // ---------- the classes ----------

  class ReadCache {
    const readCache: Cache<Name, nat>
    const containerPool: array<Buffer>
    var currentIndex: nat

    ghost predicate Valid()
      reads this, readCache, containerPool
    {
      readCache.Valid() && readCache.maxSize == LRU_LIMIT && readCache.elasticity == 0
    }

    ghost function Value(): State
      requires Valid()
      reads this, readCache, containerPool
    {
      State(readCache.Entries(), containerPool[..], currentIndex)
    }

    ghost predicate AgreesWith(d: Disk)
      reads this, readCache, containerPool
    {
      Valid() && Agrees(Value(), d)
    }

    constructor (cacheSize: nat)
      ensures Valid() && fresh(readCache) && fresh(containerPool)
      ensures |Value().pool| == cacheSize && Value().slots == [] && Value().current == 0
    {
      readCache := new Cache(LRU_LIMIT, 0);
      containerPool := new Buffer[cacheSize];
      currentIndex := 0;
    }

    /** Not ok exactly where the source would read the back of an empty list or a slot outside the pool. */
    method InsertToCache(name: Name, data: Container) returns (ok: bool)
      requires Valid()
      modifies this, readCache, containerPool
      ensures Valid() && ok == Stored(old(Value()), name, data).Some?
      ensures Value() == if ok then Stored(old(Value()), name, data).value else old(Value())
    {
      ghost var st := Value();
      assert containerPool.Length == |st.pool|;
      ok := false;
      var size := readCache.Size();
      if size + 1 > containerPool.Length {
        var replaceIndex := readCache.PruneValue();
        if replaceIndex.Some? && replaceIndex.value < containerPool.Length {
          assert replaceIndex.value == st.slots[|st.slots| - 1].value;
          Place(replaceIndex.value, name, data);
          ok := true;
          assert Stored(st, name, data) == Some(Value());
        }
      } else if currentIndex < containerPool.Length {
        Place(currentIndex, name, data);
        currentIndex := currentIndex + 1;
        ok := true;
        assert Stored(st, name, data) == Some(Value());
      }
    }

    /** Copy the container into a slot and map its name to the slot. */
    method Place(slot: nat, name: Name, data: Container)
      requires Valid() && slot < containerPool.Length
      modifies readCache, containerPool
      ensures Valid()
      ensures Value() == State(Inserted(old(Value()).slots, name, slot % WORD32, LRU_LIMIT, 0),
                               old(Value()).pool[slot := Overwritten(old(Value()).pool[slot], data)],
                               old(Value()).current)
    {
      containerPool[slot] := Overwritten(containerPool[slot], data);
      assert readCache.Valid();
      readCache.Insert(name, slot % WORD32);
    }

    method ExistsInCache(name: Name) returns (found: bool)
      requires Valid()
      ensures found <==> Find(Value().slots, name) < |Value().slots|
    {
      found := readCache.Contains(name);
    }

    method ReadFromCache(name: Name) returns (data: Buffer)
      requires Valid()
      requires var st := Value(); Find(st.slots, name) < |st.slots| && AllBelow(st.slots, |st.pool|)
      modifies readCache
      ensures Valid() && Value() == old(Value()).(slots := Touched(old(Value()).slots, name))
      ensures var st := old(Value()); data == st.pool[st.slots[Find(st.slots, name)].value]
    {
      var index := readCache.Get(name);
      data := containerPool[index.value];
    }
  }


  /** Fill one container buffer per requested name, from the cache or from disk. It stops at the first name that is in
      neither container directory. */
  method GetReqContainers(cache: ReadCache, disk: Disk, ids: seq<Name>, containerArray: array<Buffer>)
    returns (ok: bool)
    requires cache.AgreesWith(disk)
    requires |ids| <= containerArray.Length && containerArray != cache.containerPool
    modifies cache, cache.readCache, cache.containerPool, containerArray
    ensures cache.AgreesWith(disk)
    ensures ok <==> AllOnDisk(disk, ids)
    ensures ok ==> forall i :: 0 <= i < |ids| ==> Holds(disk, ids[i], containerArray[i])
  {
    for i := 0 to |ids|
      invariant cache.AgreesWith(disk)
      invariant forall j :: 0 <= j < i ==> Holds(disk, ids[j], containerArray[j])
    {
      ok := ServeInto(cache, disk, ids[i], containerArray, i);
      if !ok {
        assert !AllOnDisk(disk, ids);
        return;
      }
    }
    ok := true;
  }

  /** One turn of the loop. */
  method ServeInto(cache: ReadCache, disk: Disk, name: Name, containerArray: array<Buffer>, i: nat)
    returns (found: bool)
    requires cache.AgreesWith(disk) && i < containerArray.Length && containerArray != cache.containerPool
    modifies cache, cache.readCache, cache.containerPool, containerArray
    ensures cache.AgreesWith(disk)
    ensures found <==> OnDisk(disk, name).Some?
    ensures found ==> Holds(disk, name, containerArray[i])
    ensures forall j :: 0 <= j < containerArray.Length && j != i ==> containerArray[j] == old(containerArray[j])
  {
    var buffer := containerArray[i];
    found, buffer := Serve(cache, disk, name, buffer);
    if found {
      containerArray[i] := buffer;
    }
  }

  method Serve(cache: ReadCache, disk: Disk, name: Name, buffer: Buffer) returns (found: bool, filled: Buffer)
    requires cache.AgreesWith(disk)
    modifies cache, cache.readCache, cache.containerPool
    ensures cache.AgreesWith(disk)
    ensures found <==> OnDisk(disk, name).Some?
    ensures found ==> Holds(disk, name, filled)
  {
    ghost var st := cache.Value();
    filled := buffer;
    var hit := cache.ExistsInCache(name);
    if hit {
      HitRight(st, disk, name);
      filled := cache.ReadFromCache(name);
      return true, filled;
    }
    var data := OnDisk(disk, name);
    if data.None? {
      return false, buffer;
    }
    StoreRight(st, disk, name, data.value);
    filled := Overwritten(buffer, data.value);
    found := cache.InsertToCache(name, data.value);
  }
}
