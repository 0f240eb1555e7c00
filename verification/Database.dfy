/** The in-memory fingerprint and super-feature indexes, and their files. */
module Database {
  import opened Common
  import opened Bits
  import opened Bytes

  const CHUNK_HASH_SIZE: nat := 32
  const INT_LIMIT: int := 0x8000_0000

  /** Strings whose length fits the int that is written before them. */
  type Str = s: seq<byte> | |s| < INT_LIMIT

  type FpIndex = map<Str, Str>
  type SfIndex = map<Str, seq<Str>>

  // ---------- framed strings ----------

  /** A length and that many bytes off the front of the file; None on a short or malformed file. */
  function ReadFrame(file: seq<byte>): (r: Option<(Str, seq<byte>)>)
    ensures r.Some? ==> |r.value.1| < |file|
  {
    if |file| < 4 then None
    else
      var size := FromLE(file[..4]);
      if size >= INT_LIMIT || |file| < 4 + size then None
      else
        var s: Str := file[4..4 + size];
        Some((s, file[4 + size..]))
  }

  lemma FrameReads(s: Str, rest: seq<byte>)
    ensures ReadFrame(Frame(s) + rest) == Some((s, rest))
  {
    Unframe(s, rest);
  }

  // ---------- the fingerprint file ----------

  /** An iteration order of the map. */
  ghost predicate IsOrder<V>(order: seq<Str>, m: map<Str, V>) {
    && (forall i :: 0 <= i < |order| ==> order[i] in m)
    && (forall k :: k in m ==> k in order)
    && (forall i, j :: 0 <= i < j < |order| ==> order[i] != order[j])
  }

  ghost predicate Listed<V>(order: seq<Str>, m: map<Str, V>) {
    forall i :: 0 <= i < |order| ==> order[i] in m
  }

  function FpFile(order: seq<Str>, m: FpIndex): seq<byte>
    requires Listed(order, m)
  {
    if order == [] then [] else (Frame(order[0]) + Frame(m[order[0]])) + FpFile(order[1..], m)
  }

  /** Records up to the end of the file or the first empty key; a key that is already there keeps its value. */
  function LoadFp(file: seq<byte>, m: FpIndex): Option<FpIndex>
    decreases |file|
  {
    if file == [] then Some(m)
    else
      match ReadFrame(file)
      case None => None
      case Some((key, rest)) =>
        if key == [] then Some(m)
        else
          match ReadFrame(rest)
          case None => None
          case Some((value, rest')) => LoadFp(rest', if key in m then m else m[key := value])
  }

  lemma FpRecordLoads(key: Str, value: Str, rest: seq<byte>, m: FpIndex)
    requires key != [] && key !in m
    ensures LoadFp((Frame(key) + Frame(value)) + rest, m) == LoadFp(rest, m[key := value])
  {
    Assoc(Frame(key), Frame(value), rest);
    FrameReads(key, Frame(value) + rest);
    FrameReads(value, rest);
  }

  ghost function Added<V>(order: seq<Str>, m: map<Str, V>, acc: map<Str, V>): map<Str, V>
    requires Listed(order, m)
  {
    if order == [] then acc else Added(order[1..], m, acc[order[0] := m[order[0]]])
  }

  ghost predicate Distinct(order: seq<Str>) {
    forall i, j :: 0 <= i < j < |order| ==> order[i] != order[j]
  }

  lemma {:induction false} FpFileLoads(order: seq<Str>, m: FpIndex, acc: FpIndex)
    requires Listed(order, m) && Distinct(order) && [] !in m
    requires forall i :: 0 <= i < |order| ==> order[i] !in acc
    ensures LoadFp(FpFile(order, m), acc) == Some(Added(order, m, acc))
    decreases |order|
  {
    if order != [] {
      var key := order[0];
      FpRecordLoads(key, m[key], FpFile(order[1..], m), acc);
      FpFileLoads(order[1..], m, acc[key := m[key]]);
    }
  }

  lemma {:induction false} AddedLookup<V>(order: seq<Str>, m: map<Str, V>, acc: map<Str, V>, k: Str)
    requires Listed(order, m)
    ensures k in Added(order, m, acc) <==> k in order || k in acc
    ensures k in order ==> Added(order, m, acc)[k] == m[k]
    ensures k !in order && k in acc ==> Added(order, m, acc)[k] == acc[k]
    decreases |order|
  {
    if order != [] {
      AddedLookup(order[1..], m, acc[order[0] := m[order[0]]], k);
      assert order == [order[0]] + order[1..];
    }
  }

  lemma AddedAll<V>(order: seq<Str>, m: map<Str, V>)
    requires IsOrder(order, m)
    ensures Added(order, m, map[]) == m
  {
    var all := Added(order, m, map[]);
    forall k: Str
      ensures k in all <==> k in m
      ensures k in m ==> k in all && all[k] == m[k]
    {
      AddedLookup(order, m, map[], k);
    }
  }

  lemma {:induction false} LoadFpNeverEmptyKey(file: seq<byte>, m: FpIndex)
    requires [] !in m
    ensures LoadFp(file, m).Some? ==> [] !in LoadFp(file, m).value
    decreases |file|
  {
    if file != [] && ReadFrame(file).Some? {
      var (key, rest) := ReadFrame(file).value;
      if key != [] && ReadFrame(rest).Some? {
        var (value, rest') := ReadFrame(rest).value;
        LoadFpNeverEmptyKey(rest', if key in m then m else m[key := value]);
      }
    }
  }

  /** Whatever the iteration order, loading what was saved gives the same index exactly when no key is empty. */
  lemma FpRoundTripIff(m: FpIndex, order: seq<Str>)
    requires IsOrder(order, m)
    ensures LoadFp(FpFile(order, m), map[]) == Some(m) <==> [] !in m
  {
    if [] !in m {
      FpFileLoads(order, m, map[]);
      AddedAll(order, m);
    } else {
      LoadFpNeverEmptyKey(FpFile(order, m), map[]);
    }
  }

  // ---------- the super-feature file ----------

  function SfRecord(version: nat, key: Str, value: Str): seq<byte> {
    LE(version, 4) + (Frame(key) + Frame(value))
  }

  /** One record per element of the vector, in order. */
  function SfVector(version: nat, key: Str, values: seq<Str>): seq<byte> {
    if values == [] then [] else SfRecord(version, key, values[0]) + SfVector(version, key, values[1..])
  }

  function SfMap(version: nat, order: seq<Str>, m: SfIndex): seq<byte>
    requires Listed(order, m)
  {
    if order == [] then [] else SfVector(version, order[0], m[order[0]]) + SfMap(version, order[1..], m)
  }

  function SfFile(orders: seq<seq<Str>>, ms: seq<SfIndex>): seq<byte>
    requires |orders| == |ms| == 3 && forall i :: 0 <= i < 3 ==> Listed(orders[i], ms[i])
  {
    SfMap(0, orders[0], ms[0]) + (SfMap(1, orders[1], ms[1]) + SfMap(2, orders[2], ms[2]))
  }

  /** map[key].push_back(value) */
  function Pushed(m: SfIndex, key: Str, value: Str): SfIndex {
    m[key := (if key in m then m[key] else []) + [value]]
  }

  function LoadSf(file: seq<byte>, ms: seq<SfIndex>): Option<seq<SfIndex>>
    requires |ms| == 3
    decreases |file|
  {
    if file == [] then Some(ms)
    else if |file| < 4 then None
    else
      var version := FromLE(file[..4]);
      match ReadFrame(file[4..])
      case None => None
      case Some((key, rest)) =>
        if key == [] then Some(ms)
        else
          match ReadFrame(rest)
          case None => None
          case Some((value, rest')) =>
            if version >= 3 then None else LoadSf(rest', ms[version := Pushed(ms[version], key, value)])
  }

  lemma SfRecordLoads(version: nat, key: Str, value: Str, rest: seq<byte>, ms: seq<SfIndex>)
    requires version < 3 == |ms| && key != []
    ensures LoadSf(SfRecord(version, key, value) + rest, ms) ==
      LoadSf(rest, ms[version := Pushed(ms[version], key, value)])
  {
    var file := SfRecord(version, key, value) + rest;
    Assoc(LE(version, 4), Frame(key) + Frame(value), rest);
    Assoc(Frame(key), Frame(value), rest);
    assert file[..4] == LE(version, 4) && file[4..] == Frame(key) + (Frame(value) + rest);
    Pow256Values();
    FromLEOfLE(version, 4);
    FrameReads(key, Frame(value) + rest);
    FrameReads(value, rest);
  }

  function PushAll(m: SfIndex, key: Str, values: seq<Str>): SfIndex
    decreases |values|
  {
    if values == [] then m else PushAll(Pushed(m, key, values[0]), key, values[1..])
  }

  lemma {:induction false} PushAllAppends(m: SfIndex, key: Str, values: seq<Str>)
    requires key in m
    ensures PushAll(m, key, values) == m[key := m[key] + values]
    decreases |values|
  {
    if values == [] {
      assert m[key] + values == m[key];
    } else {
      var m' := Pushed(m, key, values[0]);
      PushAllAppends(m', key, values[1..]);
      assert m'[key] + values[1..] == m[key] + values;
    }
  }

  lemma PushAllNew(m: SfIndex, key: Str, values: seq<Str>)
    requires key !in m && values != []
    ensures PushAll(m, key, values) == m[key := values]
  {
    var m' := Pushed(m, key, values[0]);
    PushAllAppends(m', key, values[1..]);
    assert m'[key] + values[1..] == values;
  }

  lemma Overwrite(ms: seq<SfIndex>, i: nat, a: SfIndex, b: SfIndex)
    requires i < |ms|
    ensures ms[i := a][i := b] == ms[i := b] && ms[i := ms[i]] == ms
  {
  }

  lemma {:induction false} SfVectorLoads(version: nat, key: Str, values: seq<Str>, rest: seq<byte>, ms: seq<SfIndex>)
    requires version < 3 == |ms| && key != []
    ensures LoadSf(SfVector(version, key, values) + rest, ms)
         == LoadSf(rest, ms[version := PushAll(ms[version], key, values)])
    decreases |values|
  {
    if values == [] {
      assert SfVector(version, key, values) + rest == rest;
      Overwrite(ms, version, ms[version], ms[version]);
    } else {
      var more := SfVector(version, key, values[1..]);
      Assoc(SfRecord(version, key, values[0]), more, rest);
      SfRecordLoads(version, key, values[0], more + rest, ms);
      var m' := Pushed(ms[version], key, values[0]);
      SfVectorLoads(version, key, values[1..], rest, ms[version := m']);
      Overwrite(ms, version, m', PushAll(m', key, values[1..]));
    }
  }

  ghost predicate NoneEmpty(m: SfIndex) {
    forall k :: k in m ==> k != [] && m[k] != []
  }

  lemma {:induction false} SfMapLoads(version: nat, order: seq<Str>, m: SfIndex, acc: SfIndex, rest: seq<byte>,
      ms: seq<SfIndex>)
    requires version < 3 == |ms| && ms[version] == acc
    requires Listed(order, m) && Distinct(order) && NoneEmpty(m)
    requires forall i :: 0 <= i < |order| ==> order[i] !in acc
    ensures LoadSf(SfMap(version, order, m) + rest, ms) == LoadSf(rest, ms[version := Added(order, m, acc)])
    decreases |order|
  {
    if order == [] {
      assert SfMap(version, order, m) + rest == rest;
      Overwrite(ms, version, acc, acc);
    } else {
      var key := order[0];
      var more := SfMap(version, order[1..], m);
      var acc' := acc[key := m[key]];
      Assoc(SfVector(version, key, m[key]), more, rest);
      SfVectorLoads(version, key, m[key], more + rest, ms);
      PushAllNew(acc, key, m[key]);
      SfMapLoads(version, order[1..], m, acc', rest, ms[version := acc']);
      Overwrite(ms, version, acc', Added(order, m, acc));
    }
  }

  lemma {:induction false} LoadSfNoneEmpty(file: seq<byte>, ms: seq<SfIndex>)
    requires |ms| == 3 && forall i :: 0 <= i < 3 ==> NoneEmpty(ms[i])
    ensures LoadSf(file, ms).Some? ==> |LoadSf(file, ms).value| == 3 && forall i :: 0 <= i < 3 ==>
      NoneEmpty(LoadSf(file, ms).value[i])
    decreases |file|
  {
    if |file| >= 4 && ReadFrame(file[4..]).Some? {
      var version := FromLE(file[..4]);
      var (key, rest) := ReadFrame(file[4..]).value;
      if key != [] && ReadFrame(rest).Some? && version < 3 {
        var (value, rest') := ReadFrame(rest).value;
        LoadSfNoneEmpty(rest', ms[version := Pushed(ms[version], key, value)]);
      }
    }
  }

  ghost predicate AreOrders(orders: seq<seq<Str>>, ms: seq<SfIndex>) {
    |orders| == |ms| == 3 && IsOrder(orders[0], ms[0]) && IsOrder(orders[1], ms[1]) && IsOrder(orders[2], ms[2])
  }

  function Blank(): seq<SfIndex> {
    [map[], map[], map[]]
  }

  lemma SfFileLoads(ms: seq<SfIndex>, orders: seq<seq<Str>>)
    requires AreOrders(orders, ms) && NoneEmpty(ms[0]) && NoneEmpty(ms[1]) && NoneEmpty(ms[2])
    ensures LoadSf(SfFile(orders, ms), Blank()) == Some(ms)
  {
    var f1, f2 := SfMap(1, orders[1], ms[1]), SfMap(2, orders[2], ms[2]);
    var s1, s2, s3 := Blank()[0 := ms[0]], Blank()[0 := ms[0]][1 := ms[1]], Blank()[0 := ms[0]][1 := ms[1]][2 := ms[2]];
    OneMapLoads(0, orders[0], ms[0], f1 + f2, Blank());
    OneMapLoads(1, orders[1], ms[1], f2, s1);
    OneMapLoads(2, orders[2], ms[2], [], s2);
    assert f2 + [] == f2;
    assert s3 == ms;
  }

  lemma OneMapLoads(version: nat, order: seq<Str>, m: SfIndex, rest: seq<byte>, ms: seq<SfIndex>)
    requires version < 3 == |ms| && ms[version] == map[] && IsOrder(order, m) && NoneEmpty(m)
    ensures LoadSf(SfMap(version, order, m) + rest, ms) == LoadSf(rest, ms[version := m])
  {
    SfMapLoads(version, order, m, map[], rest, ms);
    AddedAll(order, m);
  }

  /** Loading what was saved gives the same three maps, with each vector in order, exactly when no key and no vector
      is empty. */
  lemma SfRoundTripIff(ms: seq<SfIndex>, orders: seq<seq<Str>>)
    requires AreOrders(orders, ms)
    ensures LoadSf(SfFile(orders, ms), Blank()) == Some(ms) <==>
      NoneEmpty(ms[0]) && NoneEmpty(ms[1]) && NoneEmpty(ms[2])
  {
    if NoneEmpty(ms[0]) && NoneEmpty(ms[1]) && NoneEmpty(ms[2]) {
      SfFileLoads(ms, orders);
    } else {
      LoadSfNoneEmpty(SfFile(orders, ms), Blank());
    }
  }

  // ---------- the operations ----------

  /** What InsertSF does to one of the three maps. */
  function SfUpdated(m: SfIndex, key: Str, value: Str, flag: byte): SfIndex {
    if flag == 0 then Pushed(m, key, value)
    else if flag == 1 then Pushed(m - {key}, key, value)
    else if flag == 2 then m - {key}
    else m
  }

  lemma SfUpdatedNoneEmpty(m: SfIndex, key: Str, value: Str, flag: byte)
    requires NoneEmpty(m) && key != []
    ensures NoneEmpty(SfUpdated(m, key, value, flag))
  {
  }

  function SfKey(keys: seq<byte>, i: nat): (key: Str)
    requires i < 3 && |keys| == 3 * CHUNK_HASH_SIZE
    ensures |key| == CHUNK_HASH_SIZE
  {
    keys[i * CHUNK_HASH_SIZE..(i + 1) * CHUNK_HASH_SIZE]
  }

  /** The first of the three super-features that is indexed decides: the first fingerprint stored under it. */
  function FirstMatch(ms: seq<SfIndex>, keys: seq<byte>, i: nat): Option<Str>
    requires |ms| == 3 && i <= 3 && |keys| == 3 * CHUNK_HASH_SIZE
    requires forall j :: 0 <= j < 3 ==> NoneEmpty(ms[j])
    decreases 3 - i
  {
    if i == 3 then None
    else if SfKey(keys, i) in ms[i] then
      assert NoneEmpty(ms[i]);
      Some(ms[i][SfKey(keys, i)][0])
    else FirstMatch(ms, keys, i + 1)
  }

  // ---------- the super-feature index over time ----------

  /** A call of InsertSF: three super-features in a row, a fingerprint, and whether it is added (0), replaces what is
      there (1), or erases it (2). */
  datatype SfCall = SfCall(keys: seq<byte>, value: Str, flag: byte)

  predicate CallOk(c: SfCall) {
    |c.keys| == 96 && |c.value| == 32
  }

  predicate CallsOk(calls: seq<SfCall>) {
    forall j :: 0 <= j < |calls| ==> CallOk(calls[j])
  }

  /** The fingerprint first added under super-feature i, since it was last replaced or erased. */
  function FirstSince(ms: seq<SfIndex>, calls: seq<SfCall>, i: nat, feature: Str): Option<Str>
    requires |ms| == 3 && i < 3 && NoneEmpty(ms[i]) && CallsOk(calls)
  {
    if calls == [] then (if feature in ms[i] then Some(ms[i][feature][0]) else None)
    else
      var before := FirstSince(ms, calls[..|calls| - 1], i, feature);
      var c := calls[|calls| - 1];
      if c.keys[32 * i..32 * i + 32] != feature then before
      else if c.flag == 0 && before.None? then Some(c.value)
      else if c.flag == 1 then Some(c.value)
      else if c.flag == 2 then None
      else before
  }

  /** The first of the three super-features that is present decides. */
  function FirstOfThree(ms: seq<SfIndex>, calls: seq<SfCall>, keys: seq<byte>): Option<Str>
    requires |ms| == 3 && (forall i :: 0 <= i < 3 ==> NoneEmpty(ms[i])) && CallsOk(calls) && |keys| == 96
  {
    var r0 := FirstSince(ms, calls, 0, keys[..32]);
    var r1 := FirstSince(ms, calls, 1, keys[32..64]);
    if r0.Some? then r0 else if r1.Some? then r1 else FirstSince(ms, calls, 2, keys[64..])
  }

  /** What the calls do to map i. */
  function SfRun(m: SfIndex, calls: seq<SfCall>, i: nat): SfIndex
    requires i < 3 && CallsOk(calls)
  {
    if calls == [] then m
    else
      var c := calls[|calls| - 1];
      SfUpdated(SfRun(m, calls[..|calls| - 1], i), SfKey(c.keys, i), c.value, c.flag)
  }

  lemma {:induction false} FirstIsKept(ms: seq<SfIndex>, calls: seq<SfCall>, i: nat, feature: Str)
    requires |ms| == 3 && i < 3 && NoneEmpty(ms[i]) && CallsOk(calls)
    ensures var m := SfRun(ms[i], calls, i);
      && NoneEmpty(m) && (feature in m <==> FirstSince(ms, calls, i, feature).Some?)
      && (feature in m ==> FirstSince(ms, calls, i, feature) == Some(m[feature][0]))
    decreases |calls|
  {
    if calls != [] {
      var front, c := calls[..|calls| - 1], calls[|calls| - 1];
      FirstIsKept(ms, front, i, feature);
      SfUpdatedNoneEmpty(SfRun(ms[i], front, i), SfKey(c.keys, i), c.value, c.flag);
    }
  }

  /** After any calls of InsertSF a query gives the fingerprint first added, since the last replacement or erasure,
      under the first of the three super-features that is present, and nothing exactly when none is. */
  lemma QueryGivesFirst(ms: seq<SfIndex>, calls: seq<SfCall>, keys: seq<byte>)
    requires |ms| == 3 && (forall i :: 0 <= i < 3 ==> NoneEmpty(ms[i])) && CallsOk(calls) && |keys| == 96
    ensures var after := [SfRun(ms[0], calls, 0), SfRun(ms[1], calls, 1), SfRun(ms[2], calls, 2)];
      && (forall i :: 0 <= i < 3 ==> NoneEmpty(after[i]))
      && FirstMatch(after, keys, 0) == FirstOfThree(ms, calls, keys)
  {
    FirstIsKept(ms, calls, 0, keys[..32]);
    FirstIsKept(ms, calls, 1, keys[32..64]);
    FirstIsKept(ms, calls, 2, keys[64..]);
    assert SfKey(keys, 0) == keys[..32] && SfKey(keys, 1) == keys[32..64] && SfKey(keys, 2) == keys[64..];
    var after := [SfRun(ms[0], calls, 0), SfRun(ms[1], calls, 1), SfRun(ms[2], calls, 2)];
    assert FirstMatch(after, keys, 3) == None;
  }

  // ---------- the delta index over time ----------

  datatype DeltaOp = Record(base: Str, delta: Str) | Fetch(base: Str)

  /** What InsertDeltaIndex and QueryDeltaIndex do to the index. */
  function DeltaStep(m: SfIndex, op: DeltaOp): SfIndex {
    match op
    case Record(base, delta) => Pushed(m, base, delta)
    case Fetch(base) => m - {base}
  }

  function DeltaRun(ops: seq<DeltaOp>): SfIndex {
    if ops == [] then map[] else DeltaStep(DeltaRun(ops[..|ops| - 1]), ops[|ops| - 1])
  }

  /** The deltas recorded under a base since it was last fetched. */
  function Since(ops: seq<DeltaOp>, base: Str): seq<Str> {
    if ops == [] then []
    else
      match ops[|ops| - 1]
      case Record(b, delta) => Since(ops[..|ops| - 1], base) + if b == base then [delta] else []
      case Fetch(b) => if b == base then [] else Since(ops[..|ops| - 1], base)
  }

  /** After any operations a fetch hands over exactly the deltas recorded under the base since the last fetch, in
      order. */
  lemma {:induction false} FetchGivesSince(ops: seq<DeltaOp>, base: Str)
    ensures (if base in DeltaRun(ops) then DeltaRun(ops)[base] else []) == Since(ops, base)
    ensures base in DeltaRun(ops) <==> Since(ops, base) != []
    decreases |ops|
  {
    if ops != [] {
      FetchGivesSince(ops[..|ops| - 1], base);
    }
  }

  class InMemoryDatabase {
    var indexObj: FpIndex
    var sfObj: seq<SfIndex>
    var deltaIndex: SfIndex

    /** No key and no stored vector of the super-feature index is ever empty. */
    ghost predicate Valid()
      reads this
    {
      && |sfObj| == 3 && (forall i :: 0 <= i < 3 ==> NoneEmpty(sfObj[i]))
      && forall k :: k in deltaIndex ==> deltaIndex[k] != []
    }

    /** OpenDB on the two files; a missing file is an empty one. */
    constructor (fpFile: seq<byte>, sfFile: seq<byte>)
      requires LoadFp(fpFile, map[]).Some? && LoadSf(sfFile, Blank()).Some?
      ensures Valid() && indexObj == LoadFp(fpFile, map[]).value && sfObj == LoadSf(sfFile, Blank()).value
        && deltaIndex == map[]
    {
      indexObj, sfObj, deltaIndex := map[], Blank(), map[];
      new;
      ReadFpFile(fpFile);
      ReadSfFile(sfFile);
    }

    method ReadFpFile(file: seq<byte>)
      requires Valid() && LoadFp(file, indexObj).Some?
      modifies this`indexObj
      ensures indexObj == LoadFp(file, old(indexObj)).value
    {
      var rest := file;
      while rest != []
        invariant LoadFp(rest, indexObj) == LoadFp(file, old(indexObj))
        decreases |rest|
      {
        var key := ReadFrame(rest).value;
        if key.0 == [] {
          break;
        }
        var value := ReadFrame(key.1).value;
        if key.0 !in indexObj {
          indexObj := indexObj[key.0 := value.0];
        }
        rest := value.1;
      }
    }

    method ReadSfFile(file: seq<byte>)
      requires Valid() && LoadSf(file, sfObj).Some?
      modifies this`sfObj
      ensures Valid() && sfObj == LoadSf(file, old(sfObj)).value
    {
      var rest := file;
      LoadSfNoneEmpty(file, sfObj);
      while rest != []
        invariant |sfObj| == 3 && LoadSf(rest, sfObj) == LoadSf(file, old(sfObj))
        decreases |rest|
      {
        var version := FromLE(rest[..4]);
        var key := ReadFrame(rest[4..]).value;
        if key.0 == [] {
          break;
        }
        var value := ReadFrame(key.1).value;
        sfObj := sfObj[version := Pushed(sfObj[version], key.0, value.0)];
        rest := value.1;
      }
    }

    /** The first half of the destructor, in whatever order the hash map is iterated. */
    method SaveFp(order: seq<Str>) returns (file: seq<byte>)
      requires IsOrder(order, indexObj)
      ensures file == FpFile(order, indexObj)
    {
      file := [];
      for i := 0 to |order|
        invariant file + FpFile(order[i..], indexObj) == FpFile(order, indexObj)
      {
        var key, value := order[i], indexObj[order[i]];
        assert order[i..][1..] == order[i + 1..];
        Assoc(file, Frame(key) + Frame(value), FpFile(order[i + 1..], indexObj));
        file := file + (Frame(key) + Frame(value));
      }
      assert file + [] == file;
    }

    /** The second half: one of the three maps. */
    method SaveSf(version: nat, order: seq<Str>) returns (file: seq<byte>)
      requires Valid() && version < 3 && IsOrder(order, sfObj[version])
      ensures file == SfMap(version, order, sfObj[version])
    {
      file := [];
      ghost var m := sfObj[version];
      for i := 0 to |order|
        invariant file + SfMap(version, order[i..], m) == SfMap(version, order, m)
      {
        var key := order[i];
        assert order[i..][1..] == order[i + 1..];
        var records := SaveVector(version, key, sfObj[version][key]);
        Assoc(file, records, SfMap(version, order[i + 1..], m));
        file := file + records;
      }
      assert file + [] == file;
    }

    method Insert(key: Str, value: Str)
      requires Valid()
      modifies this`indexObj
      ensures Valid() && indexObj == old(indexObj)[key := value]
    {
      indexObj := indexObj[key := value];
    }

    method Query(key: Str) returns (r: Option<Str>)
      ensures r == if key in indexObj then Some(indexObj[key]) else None
    {
      r := if key in indexObj then Some(indexObj[key]) else None;
    }

    /** Three keys of one hash each; the value is one hash. */
    method InsertSF(keys: seq<byte>, value: Str, updateFlag: byte)
      requires Valid() && |keys| == 3 * CHUNK_HASH_SIZE && |value| == CHUNK_HASH_SIZE
      modifies this`sfObj
      ensures Valid()
      ensures forall i :: 0 <= i < 3 ==> sfObj[i] == SfUpdated(old(sfObj)[i], SfKey(keys, i), value, updateFlag)
    {
      for i := 0 to 3
        invariant |sfObj| == 3
        invariant forall j :: 0 <= j < 3 ==> NoneEmpty(sfObj[j])
        invariant forall j :: 0 <= j < 3 ==>
          sfObj[j] == if j < i then SfUpdated(old(sfObj)[j], SfKey(keys, j), value, updateFlag) else old(sfObj)[j]
      {
        SfUpdatedNoneEmpty(sfObj[i], SfKey(keys, i), value, updateFlag);
        sfObj := sfObj[i := SfUpdated(sfObj[i], SfKey(keys, i), value, updateFlag)];
      }
    }

    method QuerySF(keys: seq<byte>) returns (r: Option<Str>)
      requires Valid() && |keys| == 3 * CHUNK_HASH_SIZE
      ensures r == FirstMatch(sfObj, keys, 0)
    {
      for i := 0 to 3
        invariant FirstMatch(sfObj, keys, i) == FirstMatch(sfObj, keys, 0)
      {
        var key := SfKey(keys, i);
        if key in sfObj[i] {
          return Some(sfObj[i][key][0]);
        }
      }
      r := None;
    }

    method InsertDeltaIndex(baseFp: Str, deltaFp: Str)
      requires Valid()
      modifies this`deltaIndex
      ensures Valid() && deltaIndex == DeltaStep(old(deltaIndex), Record(baseFp, deltaFp))
    {
      deltaIndex := Pushed(deltaIndex, baseFp, deltaFp);
    }

    /** Hands over what is recorded under the base, and forgets it. */
    method QueryDeltaIndex(baseFp: Str) returns (r: Option<seq<Str>>)
      requires Valid()
      modifies this`deltaIndex
      ensures Valid() && deltaIndex == DeltaStep(old(deltaIndex), Fetch(baseFp))
      ensures r == if baseFp in old(deltaIndex) then Some(old(deltaIndex)[baseFp]) else None
    {
      if baseFp in deltaIndex {
        r := Some(deltaIndex[baseFp]);
        deltaIndex := deltaIndex - {baseFp};
      } else {
        r := None;
      }
    }
  }

  method SaveVector(version: nat, key: Str, values: seq<Str>) returns (file: seq<byte>)
    ensures file == SfVector(version, key, values)
  {
    file := [];
    for j := 0 to |values|
      invariant file + SfVector(version, key, values[j..]) == SfVector(version, key, values)
    {
      assert values[j..][1..] == values[j + 1..];
      Assoc(file, SfRecord(version, key, values[j]), SfVector(version, key, values[j + 1..]));
      file := file + SfRecord(version, key, values[j]);
    }
    assert file + [] == file;
  }

  /** Close the database and open it again: with no empty fingerprint key, both indexes are as before, so that every
      query is answered as before. */
  method Restart(db: InMemoryDatabase, order: seq<Str>, orders: seq<seq<Str>>) returns (reopened: InMemoryDatabase)
    requires db.Valid() && [] !in db.indexObj
    requires IsOrder(order, db.indexObj) && AreOrders(orders, db.sfObj)
    ensures fresh(reopened) && reopened.Valid()
    ensures reopened.indexObj == db.indexObj && reopened.sfObj == db.sfObj
  {
    var fpFile := db.SaveFp(order);
    var sf0 := db.SaveSf(0, orders[0]);
    var sf1 := db.SaveSf(1, orders[1]);
    var sf2 := db.SaveSf(2, orders[2]);
    FpRoundTripIff(db.indexObj, order);
    SfRoundTripIff(db.sfObj, orders);
    reopened := new InMemoryDatabase(fpFile, sf0 + (sf1 + sf2));
  }

  /** Any calls of InsertSF, then a query. */
  method InsertThenQuery(db: InMemoryDatabase, calls: seq<SfCall>, keys: seq<byte>) returns (r: Option<Str>)
    requires db.Valid() && CallsOk(calls) && |keys| == 96
    modifies db`sfObj
    ensures db.Valid() && r == FirstOfThree(old(db.sfObj), calls, keys)
  {
    ghost var ms := db.sfObj;
    for j := 0 to |calls|
      invariant db.Valid() && forall i :: 0 <= i < 3 ==> db.sfObj[i] == SfRun(ms[i], calls[..j], i)
    {
      db.InsertSF(calls[j].keys, calls[j].value, calls[j].flag);
      assert calls[..j + 1][..j] == calls[..j] && calls[..j + 1][j] == calls[j];
    }
    assert calls[..|calls|] == calls;
    QueryGivesFirst(ms, calls, keys);
    assert db.sfObj == [SfRun(ms[0], calls, 0), SfRun(ms[1], calls, 1), SfRun(ms[2], calls, 2)];
    r := db.QuerySF(keys);
  }
}
