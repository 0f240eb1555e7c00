/** The inductive invariant of the single-producer single-consumer queue, one lemma per kind of step. */
module SpscInvariant {
  import opened RingBlock
  import opened SpscQueue

  // ---------- the parts of the invariant ----------

  /** `ring` lists every block below n once. */
  ghost predicate Permutes(ring: seq<nat>, n: nat) {
    && |ring| == n
    && (forall i :: 0 <= i < |ring| ==> ring[i] < n)
    && (forall i, j :: 0 <= i < j < |ring| ==> ring[i] != ring[j])
  }

  /** The next pointers go around `ring`. */
  ghost predicate Linked<T>(blocks: seq<Block<T>>, ring: seq<nat>)
    requires Permutes(ring, |blocks|)
  {
    forall i, j {:trigger ring[i], ring[j]} ::
      0 <= i < |ring| && j == Succ(i, |ring|) ==> blocks[ring[i]].next == ring[j]
  }

  ghost predicate AllHold<T>(blocks: seq<Block<T>>, held: seq<seq<T>>) {
    |held| == |blocks| && forall id :: 0 <= id < |blocks| ==> Holds(blocks[id], held[id])
  }

  ghost predicate Full<T>(blocks: seq<Block<T>>, held: seq<seq<T>>, id: nat)
    requires id < |blocks| == |held|
  {
    |held[id]| + 1 == blocks[id].size
  }

  /** Blocks strictly between front and tail are full, the tail block of a multi-block run is not empty,
      and the blocks ahead of the tail are empty, but for one the producer is about to hop to. */
  ghost predicate Occupancy<T>(blocks: seq<Block<T>>, held: seq<seq<T>>, ring: seq<nat>, tailPos: nat, hopping: bool)
    requires Permutes(ring, |blocks|) && |held| == |blocks| && tailPos < |ring|
  {
    && (forall i :: 0 < i < tailPos ==> Full(blocks, held, ring[i]))
    && (tailPos > 0 ==> held[ring[tailPos]] != [])
    && (forall i :: tailPos < i < |ring| ==> held[ring[i]] == [] || (hopping && i == tailPos + 1))
  }

  ghost function Flat<T>(held: seq<seq<T>>, ids: seq<nat>): seq<T>
    requires forall i :: 0 <= i < |ids| ==> ids[i] < |held|
  {
    if ids == [] then [] else held[ids[0]] + Flat(held, ids[1..])
  }

  ghost predicate RingOk<T>(s: State<T>) {
    RingAt(s.blocks, s.held, s.ring, s.tailPos, s.frontBlock, s.tailBlock)
  }

  ghost predicate RingAt<T>(blocks: seq<Block<T>>, held: seq<seq<T>>, ring: seq<nat>, tailPos: nat, frontBlock: nat,
      tailBlock: nat) {
    && Permutes(ring, |blocks|) && |held| == |blocks| && tailPos < |ring|
    && ring[0] == frontBlock && ring[tailPos] == tailBlock
  }

  ghost function Contents<T>(s: State<T>): seq<T>
    requires RingOk(s)
  {
    Flat(s.held, s.ring[..s.tailPos + 1])
  }

  ghost predicate Core<T>(s: State<T>) {
    && RingOk(s) && Linked(s.blocks, s.ring) && AllHold(s.blocks, s.held)
    && Occupancy(s.blocks, s.held, s.ring, s.tailPos, s.p.PHop?)
    && s.enq == s.deq + Contents(s)
  }

  ghost predicate ProducerOk<T>(s: State<T>)
    requires RingOk(s)
  {
    ProducerAt(s.p, s.blocks, s.held, s.ring, s.tailPos, s.frontBlock, s.tailBlock)
  }

  ghost predicate ProducerAt<T>(p: Producer<T>, blocks: seq<Block<T>>, held: seq<seq<T>>, ring: seq<nat>,
      tailPos: nat, frontBlock: nat, tailBlock: nat)
    requires RingAt(blocks, held, ring, tailPos, frontBlock, tailBlock)
  {
    var b := blocks[tailBlock];
    var left := tailPos > 0 ==> Full(blocks, held, tailBlock);
    var ahead := tailPos + 1 < |ring|;
    match p
    case PIdle => true
    case PClosed => true
    case PCheckFront(x, mode, nextTail) => nextTail == Succ(b.tail, b.size)
    case PWrite(x, nextTail) => nextTail == Succ(b.tail, b.size) != b.localFront
    case PPublish(x, nextTail) =>
      nextTail == Succ(b.tail, b.size) != b.localFront && b.tail < |b.data| && b.data[b.tail] == x
    case PCheckNext(x, mode) => left
    case PLink(x) => left
    case PLoadNextFront(x) => left && ahead
    case PWriteNext(x, nb, slot) =>
      left && ahead && nb == ring[tailPos + 1] && slot == blocks[nb].tail == blocks[nb].localFront
    case PPublishNext(x, nb, slot) =>
      left && ahead && nb == ring[tailPos + 1] && slot == blocks[nb].tail == blocks[nb].localFront
      && slot < |blocks[nb].data| && blocks[nb].data[slot] == x
    case PHop(x, nb) => left && ahead && nb == ring[tailPos + 1] && held[nb] == [x]
  }

  /** How many elements the first n blocks of the ring hold. */
  ghost function Total<T>(held: seq<seq<T>>, ring: seq<nat>, n: nat): nat {
    if n == 0 || n > |ring| then 0 else Total(held, ring, n - 1) + |HeldBy(held, ring[n - 1])|
  }

  ghost predicate ConsumerOk<T>(s: State<T>)
    requires RingOk(s)
  {
    ConsumerAt(s.c, s.done, s.blocks, s.held, s.ring, s.tailPos, s.frontBlock, s.tailBlock)
  }

  ghost predicate ConsumerAt<T>(c: Consumer<T>, done: bool, blocks: seq<Block<T>>, held: seq<seq<T>>, ring: seq<nat>,
      tailPos: nat, frontBlock: nat, tailBlock: nat)
    requires RingAt(blocks, held, ring, tailPos, frontBlock, tailBlock)
  {
    var b := blocks[frontBlock];
    var drained := tailPos > 0 && held[frontBlock] == [];
    match c
    case CCheckTail(front) => front == b.front
    case CCheckTailBlock(fb) => fb == frontBlock
    case CReloadTail => tailPos > 0
    case CLoadNext => drained
    case CLoadNextTail(nb) => drained && nb == ring[1]
    case CAdvance(nb, front) =>
      drained && nb == ring[1] && front == blocks[nb].front != blocks[nb].localTail
    case CRead(front) => front == b.front != b.localTail
    case CStoreFront(front, v) =>
      front == b.front != b.localTail && held[frontBlock] != [] && v == held[frontBlock][0]
    case CSize(at, count, pos) =>
      done && pos < |ring| && at == ring[pos] && count == Total(held, ring, pos)
    case CSizeTail(at, count, pos, front) =>
      done && pos < |ring| && at == ring[pos] && count == Total(held, ring, pos)
      && front == blocks[at].front
    case CSizeNext(at, count, pos) =>
      done && pos < |ring| && at == ring[pos] && count == Total(held, ring, pos + 1)
    case _ => true
  }

  /** done_ is set exactly when the producer has closed; the drained flag means drained for good. */
  ghost predicate ShutdownOk<T>(s: State<T>) {
    && (s.done <==> s.p.PClosed?)
    && (s.jobDone ==> s.done && s.enq == s.deq)
    && (s.c.CExited? ==> s.jobDone)
  }

  ghost predicate Inv<T>(s: State<T>) {
    Core(s) && ProducerOk(s) && ConsumerOk(s) && ShutdownOk(s) && s.largest >= 2 && s.maxBlock >= 2
  }

  // ---------- lists of blocks ----------

  lemma {:induction false} FlatFrame<T>(held: seq<seq<T>>, held': seq<seq<T>>, ids: seq<nat>)
    requires forall i :: 0 <= i < |ids| ==> ids[i] < |held| && ids[i] < |held'|
    requires forall i :: 0 <= i < |ids| ==> held[ids[i]] == held'[ids[i]]
    ensures Flat(held, ids) == Flat(held', ids)
  {
    if ids != [] {
      FlatFrame(held, held', ids[1..]);
    }
  }

  lemma {:induction false} FlatSnoc<T>(held: seq<seq<T>>, ids: seq<nat>, last: nat)
    requires last < |held| && forall i :: 0 <= i < |ids| ==> ids[i] < |held|
    ensures Flat(held, ids + [last]) == Flat(held, ids) + held[last]
  {
    if ids == [] {
      assert ids + [last] == [last] && [last][1..] == [];
    } else {
      assert (ids + [last])[1..] == ids[1..] + [last];
      FlatSnoc(held, ids[1..], last);
    }
  }

  lemma {:induction false} FlatEmpty<T>(held: seq<seq<T>>, ids: seq<nat>)
    requires forall i :: 0 <= i < |ids| ==> ids[i] < |held| && held[ids[i]] == []
    ensures Flat(held, ids) == []
  {
    if ids != [] {
      FlatEmpty(held, ids[1..]);
    }
  }

  ghost function Below(n: nat): (r: set<nat>)
    ensures |r| == n && forall i :: i in r <==> 0 <= i < n
  {
    if n == 0 then {} else Below(n - 1) + {n - 1}
  }

  ghost function Elems(ring: seq<nat>): (r: set<nat>)
    ensures forall x :: x in r <==> x in ring
  {
    if ring == [] then {} else Elems(ring[1..]) + {ring[0]}
  }

  lemma {:induction false} DistinctCount(ring: seq<nat>)
    requires forall i, j :: 0 <= i < j < |ring| ==> ring[i] != ring[j]
    ensures |Elems(ring)| == |ring|
  {
    if ring != [] {
      DistinctCount(ring[1..]);
      assert ring[0] !in ring[1..];
    }
  }

  lemma {:induction false} SubsetSize(a: set<nat>, b: set<nat>)
    requires a <= b
    ensures |a| <= |b|
  {
    if a != {} {
      var x :| x in a;
      SubsetSize(a - {x}, b - {x});
    }
  }

  // A duplicate-free list of n numbers below n contains every number below n.
  lemma RingCovers(ring: seq<nat>, n: nat, id: nat)
    requires Permutes(ring, n) && id < n
    ensures id in ring
  {
    DistinctCount(ring);
    if id !in ring {
      SubsetSize(Elems(ring), Below(n) - {id});
      assert false;
    }
  }

  lemma NextInRange<T>(blocks: seq<Block<T>>, ring: seq<nat>, id: nat)
    requires Permutes(ring, |blocks|) && Linked(blocks, ring) && id < |blocks|
    ensures blocks[id].next < |blocks|
  {
    RingCovers(ring, |blocks|, id);
    var i :| 0 <= i < |ring| && ring[i] == id;
    assert blocks[ring[i]].next == ring[Succ(i, |ring|)];
  }

  lemma InvTyped<T>(s: State<T>)
    requires Inv(s)
    ensures Typed(s)
  {
    forall id | 0 <= id < |s.blocks|
      ensures Shaped(s.blocks[id]) && s.blocks[id].next < |s.blocks|
    {
      assert Holds(s.blocks[id], s.held[id]);
      NextInRange(s.blocks, s.ring, id);
    }
    ProducerTyped(s);
    ConsumerTyped(s);
  }

  lemma ProducerTyped<T>(s: State<T>)
    requires Core(s) && ProducerOk(s)
    ensures s.p.PHop? || s.p.PWriteNext? || s.p.PPublishNext? ==> s.p.nb < |s.blocks|
    ensures s.p.PWriteNext? || s.p.PPublishNext? ==> s.p.slot == s.blocks[s.p.nb].tail
  {
  }

  lemma ConsumerTyped<T>(s: State<T>)
    requires Core(s) && ConsumerOk(s)
    ensures s.c.CLoadNextTail? || s.c.CAdvance? ==> s.c.nb < |s.blocks|
    ensures s.c.CSize? || s.c.CSizeTail? || s.c.CSizeNext? ==> s.c.at < |s.blocks|
    ensures s.c.CSizeTail? ==> s.c.front < s.blocks[s.c.at].size
    ensures s.c.CCheckTail? || s.c.CRead? ==> s.c.front < s.blocks[s.frontBlock].size
    ensures s.c.CAdvance? ==> s.c.front < s.blocks[s.c.nb].size
  {
    assert s.c.CLoadNextTail? || s.c.CAdvance? ==> s.ring[1] < |s.blocks|;
    assert Holds(s.blocks[s.frontBlock], s.held[s.frontBlock]);
    if s.c.CAdvance? {
      assert Holds(s.blocks[s.ring[1]], s.held[s.ring[1]]);
    } else if s.c.CSizeTail? {
      assert Holds(s.blocks[s.c.at], s.held[s.c.at]);
    }
  }

  // ---------- one block changes ----------

  lemma PutHolds<T>(blocks: seq<Block<T>>, held: seq<seq<T>>, id: nat, b: Block<T>, items: seq<T>)
    requires AllHold(blocks, held) && id < |blocks| && Holds(b, items)
    ensures AllHold(blocks[id := b], held[id := items])
  {
  }

  lemma PutLinked<T>(blocks: seq<Block<T>>, ring: seq<nat>, id: nat, b: Block<T>)
    requires Permutes(ring, |blocks|) && Linked(blocks, ring) && id < |blocks| && b.next == blocks[id].next
    ensures Linked(blocks[id := b], ring)
  {
  }

  lemma PutOccupancy<T>(blocks: seq<Block<T>>, held: seq<seq<T>>, ring: seq<nat>, tailPos: nat, hopping: bool,
      id: nat, b: Block<T>)
    requires Permutes(ring, |blocks|) && |held| == |blocks| && tailPos < |ring| && id < |blocks|
    requires Occupancy(blocks, held, ring, tailPos, hopping) && b.size == blocks[id].size
    ensures Occupancy(blocks[id := b], held, ring, tailPos, hopping)
  {
  }

  /** Changing shadows or unused slots of one block disturbs none of the shared structure. */
  lemma QuietUpdate<T>(s: State<T>, s': State<T>, id: nat, b: Block<T>)
    requires Core(s) && id < |s.blocks|
    requires Holds(b, s.held[id]) && b.next == s.blocks[id].next && b.size == s.blocks[id].size
    requires s' == s.(blocks := s.blocks[id := b], p := s'.p, c := s'.c)
    requires s.p.PHop? == s'.p.PHop?
    ensures Core(s')
  {
    PutHolds(s.blocks, s.held, id, b, s.held[id]);
    assert s.held[id := s.held[id]] == s.held;
    PutLinked(s.blocks, s.ring, id, b);
    PutOccupancy(s.blocks, s.held, s.ring, s.tailPos, s.p.PHop?, id, b);
  }

  /** What the consumer relies on survives a change of what the producer owns in a block. */
  lemma ConsumerFrame<T>(c: Consumer<T>, blocks: seq<Block<T>>, held: seq<seq<T>>, ring: seq<nat>, tp: nat, fb: nat,
      tb: nat, id: nat, b: Block<T>, items: seq<T>)
    requires RingAt(blocks, held, ring, tp, fb, tb) && ConsumerAt(c, false, blocks, held, ring, tp, fb, tb)
      && id < |blocks|
    requires b.front == blocks[id].front && b.localTail == blocks[id].localTail
    requires id == fb ==> held[fb] <= items && (tp == 0 || items == held[fb])
    ensures ConsumerAt(c, false, blocks[id := b], held[id := items], ring, tp, fb, tb)
  {
  }

  lemma ConsumerQuiet<T>(s: State<T>, id: nat, b: Block<T>)
    requires RingOk(s) && ConsumerOk(s) && !s.done && id < |s.blocks|
    requires b.front == s.blocks[id].front && b.localTail == s.blocks[id].localTail
    ensures ConsumerAt(s.c, s.done, s.blocks[id := b], s.held, s.ring, s.tailPos, s.frontBlock, s.tailBlock)
  {
    ConsumerFrame(s.c, s.blocks, s.held, s.ring, s.tailPos, s.frontBlock, s.tailBlock, id, b, s.held[id]);
    assert s.held[id := s.held[id]] == s.held;
  }

  /** What the producer relies on survives a change of the consumer's shadow of a tail index. */
  lemma ProducerQuiet<T>(s: State<T>, id: nat, v: nat)
    requires RingOk(s) && ProducerOk(s) && id < |s.blocks|
    ensures ProducerAt(s.p, s.blocks[id := s.blocks[id].(localTail := v)], s.held, s.ring, s.tailPos, s.frontBlock,
      s.tailBlock)
  {
  }

  // ---------- producer steps ----------

  lemma StartStep<T>(s: State<T>, x: T, mode: Mode)
    requires Inv(s) && Typed(s) && s.p.PIdle?
    ensures Inv(StartEnqueue(s, x, mode))
  {
  }

  lemma CheckFrontStep<T>(s: State<T>)
    requires Inv(s) && Typed(s) && s.p.PCheckFront?
    ensures Inv(ProducerStep(s))
    ensures ProducerStep(s).p.PCheckNext? ==> Full(s.blocks, s.held, s.tailBlock)
  {
    var b, s' := Tail(s), ProducerStep(s);
    RefreshShadows(b, s.held[s.tailBlock]);
    RoomTest(b, s.held[s.tailBlock]);
    assert Core(s') by { QuietUpdate(s, s', s.tailBlock, b.(localFront := b.front)); }
    assert ConsumerOk(s') by { ConsumerQuiet(s, s.tailBlock, b.(localFront := b.front)); }
  }

  lemma WriteStep<T>(s: State<T>)
    requires Inv(s) && Typed(s) && s.p.PWrite?
    ensures Inv(ProducerStep(s))
  {
    var b, s' := WriteSlot(Tail(s), s.p.x), ProducerStep(s);
    WriteKeepsItems(Tail(s), s.held[s.tailBlock], s.p.x);
    assert Core(s') by { QuietUpdate(s, s', s.tailBlock, b); }
    assert ConsumerOk(s') by { ConsumerQuiet(s, s.tailBlock, b); }
  }

  lemma CheckNextStep<T>(s: State<T>)
    requires Inv(s) && Typed(s) && s.p.PCheckNext?
    ensures Inv(ProducerStep(s))
  {
    if s.tailPos + 1 == |s.ring| {
      assert Tail(s).next == s.ring[0];
    }
  }

  lemma NextOfTail<T>(s: State<T>)
    requires Core(s) && s.tailPos + 1 < |s.ring|
    ensures s.blocks[s.tailBlock].next == s.ring[s.tailPos + 1]
  {
  }

  lemma LoadNextFrontStep<T>(s: State<T>)
    requires Inv(s) && Typed(s) && s.p.PLoadNextFront?
    ensures s.blocks[Tail(s).next].front == s.blocks[Tail(s).next].tail
    ensures Inv(ProducerStep(s))
  {
    NextOfTail(s);
    var nb := Tail(s).next;
    var b := s.blocks[nb];
    EmptyTest(b, s.held[nb]);
    RefreshShadows(b, s.held[nb]);
    var s' := ProducerStep(s);
    assert Core(s') by { QuietUpdate(s, s', nb, b.(localFront := b.front)); }
    assert ConsumerOk(s') by { ConsumerQuiet(s, nb, b.(localFront := b.front)); }
    assert s.tailBlock != nb;
  }

  lemma WriteNextStep<T>(s: State<T>)
    requires Inv(s) && Typed(s) && s.p.PWriteNext?
    ensures Inv(ProducerStep(s))
  {
    var nb := s.p.nb;
    var b, s' := WriteSlot(s.blocks[nb], s.p.x), ProducerStep(s);
    WriteKeepsItems(s.blocks[nb], s.held[nb], s.p.x);
    assert Core(s') by { QuietUpdate(s, s', nb, b); }
    assert ConsumerOk(s') by { ConsumerQuiet(s, nb, b); }
  }

  /** Appending to the tail block appends to the queue. */
  lemma PushFlat<T>(held: seq<seq<T>>, ring: seq<nat>, tp: nat, n: nat, x: T)
    requires Permutes(ring, n) && |held| == n && tp < n
    ensures Flat(held[ring[tp] := held[ring[tp]] + [x]], ring[..tp + 1]) == Flat(held, ring[..tp + 1]) + [x]
  {
    var ids, t := ring[..tp], ring[tp];
    var held' := held[t := held[t] + [x]];
    assert ring[..tp + 1] == ids + [t];
    FlatSnoc(held, ids, t);
    FlatSnoc(held', ids, t);
    FlatFrame(held, held', ids);
  }

  lemma PushOccupancy<T>(blocks: seq<Block<T>>, held: seq<seq<T>>, ring: seq<nat>, tp: nat, b: Block<T>, x: T)
    requires Permutes(ring, |blocks|) && |held| == |blocks| && tp < |ring|
    requires Occupancy(blocks, held, ring, tp, false)
    ensures Occupancy(blocks[ring[tp] := b], held[ring[tp] := held[ring[tp]] + [x]], ring, tp, false)
  {
  }

  lemma PublishCore<T>(s: State<T>)
    requires Inv(s) && Typed(s) && s.p.PPublish?
    ensures Core(ProducerStep(s))
  {
    var s' := ProducerStep(s);
    var t := s.tailBlock;
    var b, items := s.blocks[t], s.held[t];
    var b' := b.(tail := s.p.nextTail);
    RoomTest(b, items);
    PushItem(b, items);
    assert AllHold(s'.blocks, s'.held) by { PutHolds(s.blocks, s.held, t, b', items + [s.p.x]); }
    assert Linked(s'.blocks, s.ring) by { PutLinked(s.blocks, s.ring, t, b'); }
    assert Contents(s') == Contents(s) + [s.p.x] by { PushFlat(s.held, s.ring, s.tailPos, |s.blocks|, s.p.x); }
    assert Occupancy(s'.blocks, s'.held, s.ring, s.tailPos, false) by {
      PushOccupancy(s.blocks, s.held, s.ring, s.tailPos, b', s.p.x);
    }
    AddBehind(s.deq, Contents(s), s.p.x);
  }

  lemma AddBehind<A>(a: seq<A>, b: seq<A>, x: A)
    ensures (a + b) + [x] == a + (b + [x])
  {
  }

  lemma PublishStep<T>(s: State<T>)
    requires Inv(s) && Typed(s) && s.p.PPublish?
    ensures Inv(ProducerStep(s))
  {
    var t, s' := s.tailBlock, ProducerStep(s);
    assert Core(s') by { PublishCore(s); }
    assert ConsumerOk(s') by {
      assert s.tailPos > 0 ==> s.ring[0] != s.ring[s.tailPos];
      ConsumerFrame(s.c, s.blocks, s.held, s.ring, s.tailPos, s.frontBlock, t, t, s'.blocks[t], s.held[t] + [s.p.x]);
    }
  }

  lemma PublishNextCore<T>(s: State<T>, s': State<T>, nb: nat, b: Block<T>, x: T)
    requires Core(s) && !s.p.PHop? && s'.p.PHop?
    requires s.tailPos + 1 < |s.ring| && nb == s.ring[s.tailPos + 1]
    requires Holds(b, [x]) && b.next == s.blocks[nb].next && b.size == s.blocks[nb].size
    requires s' == s.(blocks := s.blocks[nb := b], held := s.held[nb := [x]], p := s'.p)
    ensures Core(s')
  {
    assert AllHold(s'.blocks, s'.held) by { PutHolds(s.blocks, s.held, nb, b, [x]); }
    assert Linked(s'.blocks, s.ring) by { PutLinked(s.blocks, s.ring, nb, b); }
    assert Contents(s') == Contents(s) by { FlatFrame(s.held, s'.held, s.ring[..s.tailPos + 1]); }
    assert Occupancy(s'.blocks, s'.held, s.ring, s.tailPos, true) by {
      NextOccupancy(s.blocks, s.held, s.ring, s.tailPos, b, [x]);
    }
  }

  lemma NextOccupancy<T>(blocks: seq<Block<T>>, held: seq<seq<T>>, ring: seq<nat>, tp: nat, b: Block<T>, items: seq<T>)
    requires Permutes(ring, |blocks|) && |held| == |blocks| && tp + 1 < |ring|
      && Occupancy(blocks, held, ring, tp, false)
    requires b.size == blocks[ring[tp + 1]].size
    ensures Occupancy(blocks[ring[tp + 1] := b], held[ring[tp + 1] := items], ring, tp, true)
  {
  }

  lemma PublishNextStep<T>(s: State<T>)
    requires Inv(s) && Typed(s) && s.p.PPublishNext?
    ensures Inv(ProducerStep(s))
  {
    var nb := s.p.nb;
    var b := s.blocks[nb];
    assert s.held[nb] == [] && [] + [s.p.x] == [s.p.x];
    PushItem(b, s.held[nb]);
    var b', s' := b.(tail := Succ(s.p.slot, b.size)), ProducerStep(s);
    assert Core(s') by { PublishNextCore(s, s', nb, b', s.p.x); }
    assert s.tailBlock != nb && s.frontBlock != nb;
    assert ConsumerOk(s') by {
      ConsumerFrame(s.c, s.blocks, s.held, s.ring, s.tailPos, s.frontBlock, s.tailBlock, nb, b', [s.p.x]);
    }
  }

  lemma HopStep<T>(s: State<T>)
    requires Inv(s) && Typed(s) && s.p.PHop?
    ensures Inv(ProducerStep(s))
  {
    var s' := ProducerStep(s);
    assert s'.enq == s'.deq + Contents(s') by {
      HopFlat(s.held, s.ring, s.tailPos, |s.blocks|);
      AddBehind(s.deq, Contents(s), s.p.x);
    }
    assert Core(s') by { HopOccupancy(s.blocks, s.held, s.ring, s.tailPos, s.p.x); }
    assert ConsumerOk(s') by { HopConsumer(s.c, s.blocks, s.held, s.ring, s.tailPos, s.frontBlock); }
  }

  lemma HopOccupancy<T>(blocks: seq<Block<T>>, held: seq<seq<T>>, ring: seq<nat>, tp: nat, x: T)
    requires Permutes(ring, |blocks|) && |held| == |blocks| && tp + 1 < |ring|
      && Occupancy(blocks, held, ring, tp, true)
    requires held[ring[tp + 1]] == [x] && (tp > 0 ==> Full(blocks, held, ring[tp]))
    ensures Occupancy(blocks, held, ring, tp + 1, false)
  {
  }

  lemma HopConsumer<T>(c: Consumer<T>, blocks: seq<Block<T>>, held: seq<seq<T>>, ring: seq<nat>, tp: nat, fb: nat)
    requires tp + 1 < |ring| && RingAt(blocks, held, ring, tp, fb, ring[tp])
      && ConsumerAt(c, false, blocks, held, ring, tp, fb, ring[tp])
    ensures ConsumerAt(c, false, blocks, held, ring, tp + 1, fb, ring[tp + 1])
  {
  }

  lemma HopFlat<T>(held: seq<seq<T>>, ring: seq<nat>, tp: nat, n: nat)
    requires Permutes(ring, n) && |held| == n && tp + 1 < n
    ensures Flat(held, ring[..tp + 2]) == Flat(held, ring[..tp + 1]) + held[ring[tp + 1]]
  {
    assert ring[..tp + 2] == ring[..tp + 1] + [ring[tp + 1]];
    FlatSnoc(held, ring[..tp + 1], ring[tp + 1]);
  }

  /** Inserting block n after position tp of the ring. */
  lemma InsertPermutes(ring: seq<nat>, n: nat, tp: nat) returns (ring': seq<nat>)
    requires Permutes(ring, n) && tp < n
    ensures ring' == ring[..tp + 1] + [n] + ring[tp + 1..] && Permutes(ring', n + 1)
    ensures forall i :: 0 <= i <= tp ==> ring'[i] == ring[i]
    ensures ring'[tp + 1] == n
    ensures forall i :: tp + 1 < i <= n ==> ring'[i] == ring[i - 1]
  {
    ring' := ring[..tp + 1] + [n] + ring[tp + 1..];
  }

  lemma InsertLinked<T>(blocks: seq<Block<T>>, ring: seq<nat>, tp: nat, added: Block<T>, ring': seq<nat>)
    requires Permutes(ring, |blocks|) && Linked(blocks, ring) && tp < |ring|
    requires added.next == blocks[ring[tp]].next
    requires Permutes(ring', |blocks| + 1) && ring'[tp + 1] == |blocks|
    requires forall i :: 0 <= i <= tp ==> ring'[i] == ring[i]
    requires forall i :: tp + 1 < i <= |ring| ==> ring'[i] == ring[i - 1]
    ensures Linked(blocks[ring[tp] := blocks[ring[tp]].(next := |blocks|)] + [added], ring')
  {
    var n := |blocks|;
    var blocks' := blocks[ring[tp] := blocks[ring[tp]].(next := n)] + [added];
    forall i, j | 0 <= i < |ring'| && j == Succ(i, |ring'|)
      ensures blocks'[ring'[i]].next == ring'[j]
    {
      if i < tp {
        assert ring[i] != ring[tp] && blocks[ring[i]].next == ring[i + 1];
      } else if i == tp + 1 {
        assert blocks[ring[tp]].next == ring[Succ(tp, n)];
      } else if i > tp + 1 {
        assert ring[tp] != ring[i - 1] && blocks[ring[i - 1]].next == ring[Succ(i - 1, n)];
      }
    }
  }

  lemma AppendHolds<T>(blocks: seq<Block<T>>, held: seq<seq<T>>, b: Block<T>, items: seq<T>)
    requires AllHold(blocks, held) && Holds(b, items)
    ensures AllHold(blocks + [b], held + [items])
  {
  }

  lemma FirstItem<T>(size: nat, x: T, next: nat)
    requires size >= 2
    ensures Holds(MakeBlock(size, x, next).(tail := 1, localTail := 1), [x])
  {
  }

  lemma InsertOccupancy<T>(blocks: seq<Block<T>>, held: seq<seq<T>>, ring: seq<nat>, tp: nat,
                           blocks': seq<Block<T>>, held': seq<seq<T>>, ring': seq<nat>)
    requires Permutes(ring, |blocks|) && |held| == |blocks| && tp < |ring|
    requires Occupancy(blocks, held, ring, tp, false)
    requires |blocks'| == |held'| == |blocks| + 1 && Permutes(ring', |blocks'|)
    requires forall i :: 0 <= i <= tp ==> ring'[i] == ring[i]
    requires forall i :: tp + 1 < i <= |ring| ==> ring'[i] == ring[i - 1]
    requires forall id :: 0 <= id < |blocks| ==> held'[id] == held[id] && blocks'[id].size == blocks[id].size
    ensures Occupancy(blocks', held', ring', tp, true)
  {
  }

  lemma LinkCore<T>(s: State<T>, s': State<T>, b: Block<T>, added: Block<T>, x: T)
    requires Core(s) && !s.p.PHop? && s'.p.PHop?
    requires b == s.blocks[s.tailBlock].(next := |s.blocks|)
    requires Holds(added, [x]) && added.next == s.blocks[s.tailBlock].next
    requires s' == s.(blocks := s.blocks[s.tailBlock := b] + [added], held := s.held + [[x]],
                      ring := s.ring[..s.tailPos + 1] + [|s.blocks|] + s.ring[s.tailPos + 1..],
                      largest := s'.largest, p := s'.p)
    ensures Core(s')
  {
    var tp, t, n := s.tailPos, s.tailBlock, |s.blocks|;
    var ring' := InsertPermutes(s.ring, n, tp);
    assert s'.ring == ring' && s.ring[tp] == t;
    assert RingOk(s') by { LinkRingOk(s, s', ring'); }
    assert Linked(s'.blocks, ring') by { LinkRing(s.blocks, s.ring, tp, b, added, ring'); }
    assert AllHold(s'.blocks, s'.held) by { LinkHolds(s.blocks, s.held, t, b, added, x); }
    assert Occupancy(s'.blocks, s'.held, ring', tp, true) by {
      LinkOccupancy(s.blocks, s.held, s.ring, tp, b, added, x, ring');
    }
    assert Contents(s') == Contents(s) by { SamePrefix(s.held, s.ring, ring', tp, x); }
  }

  lemma LinkRingOk<T>(s: State<T>, s': State<T>, ring': seq<nat>)
    requires RingOk(s) && s'.ring == ring' && Permutes(ring', |s.blocks| + 1)
    requires |s'.blocks| == |s'.held| == |s.blocks| + 1
    requires s'.tailPos == s.tailPos && s'.frontBlock == s.frontBlock && s'.tailBlock == s.tailBlock
    requires forall i :: 0 <= i <= s.tailPos ==> ring'[i] == s.ring[i]
    ensures RingOk(s')
  {
  }

  lemma LinkRing<T>(blocks: seq<Block<T>>, ring: seq<nat>, tp: nat, b: Block<T>, added: Block<T>, ring': seq<nat>)
    requires Permutes(ring, |blocks|) && Linked(blocks, ring) && tp < |ring|
    requires b == blocks[ring[tp]].(next := |blocks|) && added.next == blocks[ring[tp]].next
    requires Permutes(ring', |blocks| + 1) && ring'[tp + 1] == |blocks|
    requires forall i :: 0 <= i <= tp ==> ring'[i] == ring[i]
    requires forall i :: tp + 1 < i <= |ring| ==> ring'[i] == ring[i - 1]
    ensures Linked(blocks[ring[tp] := b] + [added], ring')
  {
    InsertLinked(blocks, ring, tp, added, ring');
  }

  lemma LinkOccupancy<T>(blocks: seq<Block<T>>, held: seq<seq<T>>, ring: seq<nat>, tp: nat, b: Block<T>,
      added: Block<T>, x: T, ring': seq<nat>)
    requires Permutes(ring, |blocks|) && |held| == |blocks| && tp < |ring| && Occupancy(blocks, held, ring, tp, false)
    requires b == blocks[ring[tp]].(next := |blocks|) && Permutes(ring', |blocks| + 1)
    requires forall i :: 0 <= i <= tp ==> ring'[i] == ring[i]
    requires forall i :: tp + 1 < i <= |ring| ==> ring'[i] == ring[i - 1]
    ensures Occupancy(blocks[ring[tp] := b] + [added], held + [[x]], ring', tp, true)
  {
    InsertOccupancy(blocks, held, ring, tp, blocks[ring[tp] := b] + [added], held + [[x]], ring');
  }

  lemma SamePrefix<T>(held: seq<seq<T>>, ring: seq<nat>, ring': seq<nat>, tp: nat, x: T)
    requires Permutes(ring, |held|) && tp < |ring| < |ring'| && Permutes(ring', |held| + 1)
    requires forall i :: 0 <= i <= tp ==> ring'[i] == ring[i]
    ensures Flat(held + [[x]], ring'[..tp + 1]) == Flat(held, ring[..tp + 1])
  {
    FlatFrame(held, held + [[x]], ring[..tp + 1]);
    assert ring'[..tp + 1] == ring[..tp + 1];
  }

  lemma LinkHolds<T>(blocks: seq<Block<T>>, held: seq<seq<T>>, t: nat, b: Block<T>, added: Block<T>, x: T)
    requires AllHold(blocks, held) && t < |blocks| && b == blocks[t].(next := |blocks|) && Holds(added, [x])
    ensures AllHold(blocks[t := b] + [added], held + [[x]])
  {
    assert Holds(blocks[t], held[t]);
    PutHolds(blocks, held, t, b, held[t]);
    assert held[t := held[t]] == held;
    AppendHolds(blocks[t := b], held, added, [x]);
  }

  lemma LinkStepCore<T>(s: State<T>)
    requires Inv(s) && Typed(s) && s.p.PLink?
    ensures Core(ProducerStep(s))
  {
    var s' := ProducerStep(s);
    FirstItem(s'.largest, s.p.x, Tail(s).next);
    LinkCore(s, s', Tail(s).(next := |s.blocks|),
             MakeBlock(s'.largest, s.p.x, Tail(s).next).(tail := 1, localTail := 1), s.p.x);
  }

  lemma LinkStep<T>(s: State<T>)
    requires Inv(s) && Typed(s) && s.p.PLink?
    ensures Inv(ProducerStep(s))
  {
    var s' := ProducerStep(s);
    assert Core(s') by { LinkStepCore(s); }
    assert ConsumerOk(s') by {
      var ring' := InsertPermutes(s.ring, |s.blocks|, s.tailPos);
      LinkKeepsBlocks(s);
      LinkConsumer(s.c, s.blocks, s.held, s.ring, s.tailPos, s.frontBlock, s.tailBlock, s'.blocks, s'.held, ring');
    }
    assert ProducerOk(s') by { LinkProducer(s); }
  }

  lemma LinkKeepsBlocks<T>(s: State<T>)
    requires Typed(s) && s.p.PLink? && |s.held| == |s.blocks|
    ensures var s' := ProducerStep(s);
      && |s'.blocks| == |s'.held| == |s.blocks| + 1
      && forall i :: 0 <= i < |s.blocks| ==>
           s'.held[i] == s.held[i] && s'.blocks[i] == s.blocks[i].(next := s'.blocks[i].next)
  {
  }

  lemma LinkProducer<T>(s: State<T>)
    requires Inv(s) && Typed(s) && s.p.PLink? && RingOk(ProducerStep(s))
    ensures ProducerOk(ProducerStep(s))
  {
    LinkKeepsBlocks(s);
    var ring' := InsertPermutes(s.ring, |s.blocks|, s.tailPos);
  }

  lemma LinkConsumer<T>(c: Consumer<T>, blocks: seq<Block<T>>, held: seq<seq<T>>, ring: seq<nat>, tp: nat, fb: nat,
      tb: nat, blocks': seq<Block<T>>, held': seq<seq<T>>, ring': seq<nat>)
    requires RingAt(blocks, held, ring, tp, fb, tb) && ConsumerAt(c, false, blocks, held, ring, tp, fb, tb)
    requires RingAt(blocks', held', ring', tp, fb, tb) && |blocks| <= |blocks'|
    requires forall i :: 0 <= i <= tp ==> ring'[i] == ring[i]
    requires forall i :: 0 <= i < |blocks| ==>
      held'[i] == held[i] && blocks'[i].front == blocks[i].front && blocks'[i].localTail == blocks[i].localTail
    ensures ConsumerAt(c, false, blocks', held', ring', tp, fb, tb)
  {
  }

  lemma ProducerInv<T>(s: State<T>)
    requires Inv(s) && Typed(s) && !s.p.PIdle? && !s.p.PClosed?
    ensures Inv(ProducerStep(s))
  {
    match s.p
    case PCheckFront(_, _, _) => CheckFrontStep(s);
    case PWrite(_, _) => WriteStep(s);
    case PPublish(_, _) => PublishStep(s);
    case PCheckNext(_, _) => CheckNextStep(s);
    case PLoadNextFront(_) => LoadNextFrontStep(s);
    case PWriteNext(_, _, _) => WriteNextStep(s);
    case PPublishNext(_, _, _) => PublishNextStep(s);
    case PLink(_) => LinkStep(s);
    case PHop(_, _) => HopStep(s);
  }

  // ---------- consumer steps ----------

  lemma ConsumerReads<T>(s: State<T>)
    requires Inv(s) && Typed(s)
    requires s.c.CTop? || s.c.CPop? || s.c.CCheckTailBlock? || s.c.CEnd?
    ensures Inv(ConsumerStep(s))
  {
  }

  lemma ReadStep<T>(s: State<T>)
    requires Inv(s) && Typed(s) && s.c.CRead?
    ensures Inv(ConsumerStep(s))
  {
    PopItem(Front(s), s.held[s.frontBlock]);
  }

  lemma LoadNextStep<T>(s: State<T>)
    requires Inv(s) && Typed(s) && s.c.CLoadNext?
    ensures Inv(ConsumerStep(s))
  {
    assert Front(s).next == s.ring[Succ(0, |s.ring|)];
  }

  /** When the front block is empty and is also the tail block, the whole queue is empty. */
  lemma EmptyQueue<T>(s: State<T>)
    requires Core(s) && s.held[s.frontBlock] == [] && s.tailBlock == s.frontBlock
    ensures s.enq == s.deq
  {
    assert s.tailPos == 0;
    FlatEmpty(s.held, s.ring[..1]);
  }

  lemma CheckTailStep<T>(s: State<T>)
    requires Inv(s) && Typed(s) && s.c.CCheckTail?
    ensures Inv(ConsumerStep(s))
    ensures ConsumerStep(s).c.CCheckTailBlock? ==> s.held[s.frontBlock] == []
  {
    var b, s' := Front(s), ConsumerStep(s);
    RefreshShadows(b, s.held[s.frontBlock]);
    EmptyTest(b, s.held[s.frontBlock]);
    assert Core(s') by { QuietUpdate(s, s', s.frontBlock, b.(localTail := b.tail)); }
    assert ProducerOk(s') by { ProducerQuiet(s, s.frontBlock, b.tail); }
  }

  lemma ReloadTailStep<T>(s: State<T>)
    requires Inv(s) && Typed(s) && s.c.CReloadTail?
    ensures Inv(ConsumerStep(s))
  {
    var b, s' := Front(s), ConsumerStep(s);
    RefreshShadows(b, s.held[s.frontBlock]);
    EmptyTest(b, s.held[s.frontBlock]);
    assert Core(s') by { QuietUpdate(s, s', s.frontBlock, b.(localTail := b.tail)); }
    assert ProducerOk(s') by { ProducerQuiet(s, s.frontBlock, b.tail); }
  }

  lemma SecondNotEmpty<T>(s: State<T>)
    requires Core(s) && s.tailPos > 0
    ensures s.held[s.ring[1]] != []
  {
    if s.tailPos > 1 {
      assert Full(s.blocks, s.held, s.ring[1]);
      assert Holds(s.blocks[s.ring[1]], s.held[s.ring[1]]);
    }
  }

  lemma LoadNextTailStep<T>(s: State<T>)
    requires Inv(s) && Typed(s) && s.c.CLoadNextTail?
    ensures s.blocks[s.c.nb].front != s.blocks[s.c.nb].tail
    ensures Inv(ConsumerStep(s))
  {
    var nb := s.c.nb;
    var b := s.blocks[nb];
    NextHasElement(s);
    RefreshShadows(b, s.held[nb]);
    var s' := ConsumerStep(s);
    assert Core(s') by { QuietUpdate(s, s', nb, b.(localTail := b.tail)); }
    assert ProducerOk(s') by { ProducerQuiet(s, nb, b.tail); }
  }

  lemma NextHasElement<T>(s: State<T>)
    requires Core(s) && ConsumerOk(s) && s.c.CLoadNextTail?
    ensures s.c.nb < |s.blocks| && s.blocks[s.c.nb].front != s.blocks[s.c.nb].tail
  {
    SecondNotEmpty(s);
    EmptyTest(s.blocks[s.c.nb], s.held[s.c.nb]);
  }

  lemma RotatePermutes(ring: seq<nat>, n: nat) returns (ring': seq<nat>)
    requires Permutes(ring, n) && n > 0
    ensures ring' == ring[1..] + ring[..1] && Permutes(ring', n)
    ensures forall i :: 0 <= i < n - 1 ==> ring'[i] == ring[i + 1]
    ensures ring'[n - 1] == ring[0]
  {
    ring' := ring[1..] + ring[..1];
  }

  lemma RotateLinked<T>(blocks: seq<Block<T>>, ring: seq<nat>, ring': seq<nat>)
    requires Permutes(ring, |blocks|) && Linked(blocks, ring) && |ring| > 0
    requires Permutes(ring', |blocks|)
    requires forall i :: 0 <= i < |ring| - 1 ==> ring'[i] == ring[i + 1]
    requires ring'[|ring| - 1] == ring[0]
    ensures Linked(blocks, ring')
  {
    var n := |ring|;
    forall i, j | 0 <= i < n && j == Succ(i, n)
      ensures blocks[ring'[i]].next == ring'[j]
    {
      var k := Succ(i, n);
      assert ring'[i] == ring[k];
      assert blocks[ring[k]].next == ring[Succ(k, n)];
    }
  }

  lemma RotateOccupancy<T>(blocks: seq<Block<T>>, held: seq<seq<T>>, ring: seq<nat>, tp: nat, hopping: bool,
      ring': seq<nat>)
    requires Permutes(ring, |blocks|) && |held| == |blocks| && 0 < tp < |ring|
    requires Occupancy(blocks, held, ring, tp, hopping) && held[ring[0]] == []
    requires Permutes(ring', |blocks|)
    requires forall i :: 0 <= i < |ring| - 1 ==> ring'[i] == ring[i + 1]
    requires ring'[|ring| - 1] == ring[0]
    ensures Occupancy(blocks, held, ring', tp - 1, hopping)
    ensures ring'[..tp] == ring[..tp + 1][1..]
  {
    forall i | 0 < i < tp - 1
      ensures Full(blocks, held, ring'[i])
    {
      assert ring'[i] == ring[i + 1];
    }
    forall i | tp - 1 < i < |ring'|
      ensures held[ring'[i]] == [] || (hopping && i == tp)
    {
      if i < |ring| - 1 { assert ring'[i] == ring[i + 1]; }
    }
  }

  lemma AdvanceCore<T>(s: State<T>, s': State<T>)
    requires Core(s) && s.tailPos > 0 && s.held[s.frontBlock] == []
    requires s' == s.(frontBlock := s.ring[1], ring := s.ring[1..] + s.ring[..1], tailPos := s.tailPos - 1, c := s'.c)
    ensures Core(s')
  {
    var ring' := RotatePermutes(s.ring, |s.ring|);
    assert s'.ring == ring' && RingOk(s');
    assert Linked(s.blocks, ring') by { RotateLinked(s.blocks, s.ring, ring'); }
    assert Occupancy(s.blocks, s.held, ring', s'.tailPos, s.p.PHop?) && Contents(s') == Contents(s) by {
      RotateOccupancy(s.blocks, s.held, s.ring, s.tailPos, s.p.PHop?, ring');
      FlatSkips(s.held, s.ring[..s.tailPos + 1]);
    }
  }

  lemma FlatSkips<T>(held: seq<seq<T>>, ids: seq<nat>)
    requires ids != [] && (forall i :: 0 <= i < |ids| ==> ids[i] < |held|) && held[ids[0]] == []
    ensures Flat(held, ids) == Flat(held, ids[1..])
  {
    assert [] + Flat(held, ids[1..]) == Flat(held, ids[1..]);
  }

  lemma AdvanceStep<T>(s: State<T>)
    requires Inv(s) && Typed(s) && s.c.CAdvance?
    ensures Inv(ConsumerStep(s))
  {
    var s' := ConsumerStep(s);
    AdvanceCore(s, s');
    var ring' := RotatePermutes(s.ring, |s.ring|);
    assert s'.ring == ring';
  }

  /** Taking the first element of the front block takes the first element of the queue. */
  lemma PopFlat<T>(held: seq<seq<T>>, ring: seq<nat>, tp: nat, n: nat)
    requires Permutes(ring, n) && |held| == n && tp < n && held[ring[0]] != []
    ensures Flat(held, ring[..tp + 1]) ==
            [held[ring[0]][0]] + Flat(held[ring[0] := held[ring[0]][1..]], ring[..tp + 1])
  {
    var ids, first := ring[..tp + 1], held[ring[0]];
    var held' := held[ring[0] := first[1..]];
    FlatFrame(held, held', ids[1..]);
    FirstOf(first, Flat(held, ids[1..]));
  }

  lemma FirstOf<A>(a: seq<A>, b: seq<A>)
    requires a != []
    ensures a + b == [a[0]] + (a[1..] + b)
  {
  }

  lemma PopOccupancy<T>(blocks: seq<Block<T>>, held: seq<seq<T>>, ring: seq<nat>, tp: nat, hopping: bool,
      b: Block<T>, items: seq<T>)
    requires Permutes(ring, |blocks|) && |held| == |blocks| && tp < |ring|
    requires Occupancy(blocks, held, ring, tp, hopping)
    ensures Occupancy(blocks[ring[0] := b], held[ring[0] := items], ring, tp, hopping)
  {
  }

  lemma PopCore<T>(s: State<T>, s': State<T>, b: Block<T>)
    requires Core(s) && s.held[s.frontBlock] != []
    requires Holds(b, s.held[s.frontBlock][1..]) && b.next == s.blocks[s.frontBlock].next
    requires s' == s.(blocks := s.blocks[s.frontBlock := b], held := s.held[s.frontBlock := s.held[s.frontBlock][1..]],
                      deq := s.deq + [s.held[s.frontBlock][0]], c := s'.c)
    ensures Core(s')
  {
    var f := s.frontBlock;
    var x := s.held[f][0];
    PutHolds(s.blocks, s.held, f, b, s.held[f][1..]);
    PutLinked(s.blocks, s.ring, f, b);
    PopFlat(s.held, s.ring, s.tailPos, |s.blocks|);
    PopOccupancy(s.blocks, s.held, s.ring, s.tailPos, s.p.PHop?, b, s.held[f][1..]);
    MoveOver(s.deq, x, Contents(s'));
  }

  lemma MoveOver<A>(a: seq<A>, x: A, b: seq<A>)
    ensures a + ([x] + b) == (a + [x]) + b
  {
  }

  lemma StoreFrontCore<T>(s: State<T>)
    requires Inv(s) && Typed(s) && s.c.CStoreFront?
    ensures Core(ConsumerStep(s))
  {
    var b := Front(s);
    PopItem(b, s.held[s.frontBlock]);
    PopCore(s, ConsumerStep(s), b.(front := Succ(b.front, b.size)));
  }

  lemma StoreFrontStep<T>(s: State<T>)
    requires Inv(s) && Typed(s) && s.c.CStoreFront?
    ensures Inv(ConsumerStep(s))
  {
    StoreFrontCore(s);
    PopKeepsProducer(s, ConsumerStep(s));
  }

  lemma PopKeepsProducer<T>(s: State<T>, s': State<T>)
    requires RingOk(s) && ProducerOk(s) && RingOk(s')
    requires s'.p == s.p && s'.ring == s.ring && s'.tailPos == s.tailPos && s'.tailBlock == s.tailBlock
      && s'.frontBlock == s.frontBlock
    requires exists front :: s'.blocks == s.blocks[s.frontBlock := s.blocks[s.frontBlock].(front := front)]
    requires s'.held == s.held[s.frontBlock := s'.held[s.frontBlock]]
    ensures ProducerOk(s')
  {
    var f := s.ring[0];
    assert s.tailPos > 0 ==> s.ring[s.tailPos] != f;
    assert s.tailPos + 1 < |s.ring| ==> s.ring[s.tailPos + 1] != f;
  }

  lemma {:induction false} TotalIsFlat<T>(held: seq<seq<T>>, ring: seq<nat>, n: nat)
    requires n <= |ring| && forall i :: 0 <= i < |ring| ==> ring[i] < |held|
    ensures Total(held, ring, n) == |Flat(held, ring[..n])|
  {
    if n > 0 {
      TotalIsFlat(held, ring, n - 1);
      FlatSnoc(held, ring[..n - 1], ring[n - 1]);
      assert ring[..n - 1] + [ring[n - 1]] == ring[..n];
    }
  }

  lemma {:induction false} EmptyRest<T>(held: seq<seq<T>>, ring: seq<nat>, from: nat, n: nat)
    requires from <= n <= |ring| && forall i :: from <= i < n ==> HeldBy(held, ring[i]) == []
    ensures Total(held, ring, n) == Total(held, ring, from)
    decreases n
  {
    if from < n {
      EmptyRest(held, ring, from, n - 1);
    }
  }

  /** With the producer not in the middle of a hop, all blocks together hold what was put in and not taken out. */
  lemma TotalIsSize<T>(s: State<T>)
    requires Core(s) && !s.p.PHop?
    ensures Total(s.held, s.ring, |s.ring|) == |s.enq| - |s.deq|
  {
    forall i | s.tailPos + 1 <= i < |s.ring|
      ensures HeldBy(s.held, s.ring[i]) == []
    {
      assert s.held[s.ring[i]] == [];
    }
    EmptyRest(s.held, s.ring, s.tailPos + 1, |s.ring|);
    TotalIsFlat(s.held, s.ring, s.tailPos + 1);
  }

  /** size_approx, run after done_: the total is exact. */
  lemma SizeFrontStep<T>(s: State<T>)
    requires Inv(s) && Typed(s) && s.c.CSize?
    ensures Inv(ConsumerStep(s))
  {
  }

  lemma SizeTailStep<T>(s: State<T>)
    requires Inv(s) && Typed(s) && s.c.CSizeTail?
    ensures Inv(ConsumerStep(s))
  {
    assert Holds(s.blocks[s.c.at], s.held[s.c.at]);
  }

  lemma SizeNextStep<T>(s: State<T>)
    requires Inv(s) && Typed(s) && s.c.CSizeNext?
    ensures Inv(ConsumerStep(s))
  {
    var pos, n := s.c.pos, |s.ring|;
    assert s.blocks[s.c.at].next == s.ring[Succ(pos, n)];
    if pos + 1 < n {
      assert s.ring[0] != s.ring[pos + 1];
      SizeGoesOn(s);
    } else {
      SizeIsKnown(s);
    }
  }

  /** Nothing but the consumer's own position moves. */
  lemma Repositioned<T>(s: State<T>, c: Consumer<T>, jobDone: bool)
    requires Inv(s) && !c.CExited? && (jobDone ==> s.done && s.enq == s.deq)
    requires ConsumerAt(c, s.done, s.blocks, s.held, s.ring, s.tailPos, s.frontBlock, s.tailBlock)
    ensures Inv(s.(c := c, jobDone := jobDone))
  {
  }

  lemma SizeGoesOn<T>(s: State<T>)
    requires Inv(s) && Typed(s) && s.c.CSizeNext? && s.c.pos + 1 < |s.ring|
    requires s.blocks[s.c.at].next == s.ring[s.c.pos + 1] != s.frontBlock
    ensures Inv(ConsumerStep(s))
  {
    Repositioned(s, CSize(s.ring[s.c.pos + 1], s.c.count, s.c.pos + 1), s.jobDone);
  }

  lemma SizeIsKnown<T>(s: State<T>)
    requires Inv(s) && Typed(s) && s.c.CSizeNext? && s.c.pos + 1 == |s.ring| && s.blocks[s.c.at].next == s.frontBlock
    ensures Inv(ConsumerStep(s))
  {
    assert s.c.count == |s.enq| - |s.deq| by { TotalIsSize(s); }
    Repositioned(s, CPop, s.c.count == 0);
  }

  lemma ConsumerInv<T>(s: State<T>)
    requires Inv(s) && Typed(s) && !s.c.CExited?
    ensures Inv(ConsumerStep(s))
  {
    match s.c
    case CSize(_, _, _) => SizeFrontStep(s);
    case CSizeTail(_, _, _, _) => SizeTailStep(s);
    case CSizeNext(_, _, _) => SizeNextStep(s);
    case CCheckTail(_) => CheckTailStep(s);
    case CReloadTail => ReloadTailStep(s);
    case CLoadNext => LoadNextStep(s);
    case CRead(_) => ReadStep(s);
    case CLoadNextTail(_) => LoadNextTailStep(s);
    case CAdvance(_, _) => AdvanceStep(s);
    case CStoreFront(_, _) => StoreFrontStep(s);
    case _ => ConsumerReads(s);
  }
}
