/** The single-producer single-consumer queue of blocks, the message queue built on it, and the
    consumer loop that drains it, as one state machine. A step is one access to a variable the other
    thread can also access (sequentially consistent); reads of variables that only the running
    thread writes are folded into the step that follows them. */
module SpscQueue {
  import opened Bits
  import opened RingBlock

  datatype Mode = CanAlloc | CannotAlloc

  /** Where the producer stands in inner_enqueue: each case names the access about to be made. */
  datatype Producer<T> =
    | PIdle
    | PCheckFront(x: T, mode: Mode, nextTail: nat)   // load tailBlock_->front
    | PWrite(x: T, nextTail: nat)                    // construct the element in the tail slot
    | PPublish(x: T, nextTail: nat)                  // store tailBlock_->tail
    | PCheckNext(x: T, mode: Mode)                   // compare tailBlock_->next with frontBlock
    | PLoadNextFront(x: T)                           // load tailBlockNext->front
    | PWriteNext(x: T, nb: nat, slot: nat)           // construct the element in the next block
    | PPublishNext(x: T, nb: nat, slot: nat)         // store tailBlockNext->tail
    | PLink(x: T)                                    // make a block and store tailBlock_->next
    | PHop(x: T, nb: nat)                            // store tailBlock
    | PClosed                                        // done_ has been set

  /** Where the consumer stands in its loop, in size_approx and in try_dequeue. */
  datatype Consumer<T> =
    | CTop                                           // load done_
    | CSize(at: nat, count: nat, pos: nat)           // load the front of block `at` (the pos-th visited)
    | CSizeTail(at: nat, count: nat, pos: nat, front: nat)  // load its tail
    | CSizeNext(at: nat, count: nat, pos: nat)       // load its next
    | CPop                                           // enter try_dequeue
    | CCheckTail(front: nat)                         // load frontBlock_->tail
    | CCheckTailBlock(fb: nat)                       // load tailBlock
    | CReloadTail                                    // load frontBlock_->tail again
    | CLoadNext                                      // load frontBlock_->next
    | CLoadNextTail(nb: nat)                         // load nextBlock->tail
    | CAdvance(nb: nat, front: nat)                  // store frontBlock
    | CRead(front: nat)                              // move the element out
    | CStoreFront(front: nat, v: T)                  // store frontBlock_->front
    | CEnd(ok: bool)                                 // try_dequeue returned ok; test jobDoneFlag
    | CExited

  /** The last row is history, never read by a step: the blocks in link order starting at the front block,
      where the tail block stands among them, what each block holds, and all that was put in and taken out. */
  datatype State<T> = State(
    maxBlock: nat, blocks: seq<Block<T>>, frontBlock: nat, tailBlock: nat, largest: nat, done: bool,
    p: Producer<T>, c: Consumer<T>, jobDone: bool,
    ring: seq<nat>, tailPos: nat, held: seq<seq<T>>, enq: seq<T>, deq: seq<T>)

  /** Pointers point at blocks: enough to execute any step. */
  ghost predicate Typed<T>(s: State<T>) {
    && s.frontBlock < |s.blocks| && s.tailBlock < |s.blocks|
    && (forall i :: 0 <= i < |s.blocks| ==> Shaped(s.blocks[i]) && s.blocks[i].next < |s.blocks|)
    && (s.p.PHop? || s.p.PWriteNext? || s.p.PPublishNext? ==> s.p.nb < |s.blocks|)
    && (s.p.PWriteNext? || s.p.PPublishNext? ==> s.p.slot == s.blocks[s.p.nb].tail)
    && (s.c.CLoadNextTail? || s.c.CAdvance? ==> s.c.nb < |s.blocks|)
    && (s.c.CSize? || s.c.CSizeTail? || s.c.CSizeNext? ==> s.c.at < |s.blocks|)
    && (s.c.CSizeTail? ==> s.c.front < s.blocks[s.c.at].size)
    && (s.c.CCheckTail? || s.c.CRead? ==> s.c.front < s.blocks[s.frontBlock].size)
    && (s.c.CAdvance? ==> s.c.front < s.blocks[s.c.nb].size)
  }

  ghost function Front<T>(s: State<T>): Block<T>
    requires Typed(s)
  {
    s.blocks[s.frontBlock]
  }

  ghost function Tail<T>(s: State<T>): Block<T>
    requires Typed(s)
  {
    s.blocks[s.tailBlock]
  }

  ghost function Put<T>(s: State<T>, id: nat, b: Block<T>): State<T>
    requires id < |s.blocks|
  {
    s.(blocks := s.blocks[id := b])
  }

  ghost function SetHeld<T>(held: seq<seq<T>>, id: nat, items: seq<T>): seq<seq<T>> {
    if id < |held| then held[id := items] else held
  }

  ghost function HeldBy<T>(held: seq<seq<T>>, id: nat): seq<T> {
    if id < |held| then held[id] else []
  }

  // ---------- producer ----------

  ghost function StartEnqueue<T>(s: State<T>, x: T, mode: Mode): State<T>
    requires Typed(s)
  {
    var b := Tail(s);
    var nextTail := Succ(b.tail, b.size);
    s.(p := if nextTail != b.localFront then PWrite(x, nextTail) else PCheckFront(x, mode, nextTail))
  }

  ghost function Close<T>(s: State<T>): State<T> {
    s.(done := true, p := PClosed)
  }

  /** largestBlockSize >= MAX_BLOCK_SIZE ? largestBlockSize : largestBlockSize * 2 */
  function GrownSize(largest: nat, maxBlock: nat): nat {
    if largest >= maxBlock then largest else largest * 2
  }

  ghost function LinkBlock<T>(s: State<T>): State<T>
    requires Typed(s) && s.p.PLink?
  {
    var size := GrownSize(s.largest, s.maxBlock);
    var nb := |s.blocks|;
    var added := MakeBlock(size, s.p.x, Tail(s).next).(tail := 1, localTail := 1);
    var at := if s.tailPos < |s.ring| then s.tailPos + 1 else |s.ring|;
    s.(blocks := s.blocks[s.tailBlock := Tail(s).(next := nb)] + [added], largest := size,
       p := PHop(s.p.x, nb), held := s.held + [[s.p.x]], ring := s.ring[..at] + [nb] + s.ring[at..])
  }

  ghost function ProducerStep<T>(s: State<T>): State<T>
    requires Typed(s) && !s.p.PIdle? && !s.p.PClosed?
  {
    match s.p
    case PCheckFront(x, mode, nextTail) =>
      var b := Tail(s);
      Put(s, s.tailBlock, b.(localFront := b.front))
        .(p := if nextTail != b.front then PWrite(x, nextTail) else PCheckNext(x, mode))
    case PWrite(x, nextTail) =>
      Put(s, s.tailBlock, WriteSlot(Tail(s), x)).(p := PPublish(x, nextTail))
    case PPublish(x, nextTail) =>
      Put(s, s.tailBlock, Tail(s).(tail := nextTail))
        .(p := PIdle, enq := s.enq + [x], held := SetHeld(s.held, s.tailBlock, HeldBy(s.held, s.tailBlock) + [x]))
    case PCheckNext(x, mode) =>
      s.(p := if Tail(s).next != s.frontBlock then PLoadNextFront(x)
              else if mode == CanAlloc then PLink(x) else PIdle)
    case PLoadNextFront(x) =>
      var nb := Tail(s).next;
      Put(s, nb, s.blocks[nb].(localFront := s.blocks[nb].front)).(p := PWriteNext(x, nb, s.blocks[nb].tail))
    case PWriteNext(x, nb, slot) =>
      Put(s, nb, WriteSlot(s.blocks[nb], x)).(p := PPublishNext(x, nb, slot))
    case PPublishNext(x, nb, slot) =>
      Put(s, nb, s.blocks[nb].(tail := Succ(slot, s.blocks[nb].size)))
        .(p := PHop(x, nb), held := SetHeld(s.held, nb, HeldBy(s.held, nb) + [x]))
    case PLink(x) =>
      LinkBlock(s)
    case PHop(x, nb) =>
      s.(tailBlock := nb, p := PIdle, tailPos := s.tailPos + 1, enq := s.enq + [x])
  }

  // ---------- consumer ----------

  ghost function Rest<A>(q: seq<A>): seq<A> {
    if q == [] then [] else q[1..]
  }

  ghost function ConsumerStep<T>(s: State<T>): State<T>
    requires Typed(s) && !s.c.CExited?
  {
    match s.c
    case CTop =>
      s.(c := if s.done then CSize(s.frontBlock, 0, 0) else CPop)
    case CSize(at, count, pos) =>
      s.(c := CSizeTail(at, count, pos, s.blocks[at].front))
    case CSizeTail(at, count, pos, front) =>
      s.(c := CSizeNext(at, count + Dist(front, s.blocks[at].tail, s.blocks[at].size), pos))
    case CSizeNext(at, count, pos) =>
      if s.blocks[at].next == s.frontBlock then s.(c := CPop, jobDone := count == 0)
      else s.(c := CSize(s.blocks[at].next, count, pos + 1))
    case CPop =>
      var b := Front(s);
      s.(c := if b.front != b.localTail then CRead(b.front) else CCheckTail(b.front))
    case CCheckTail(front) =>
      var b := Front(s);
      Put(s, s.frontBlock, b.(localTail := b.tail))
        .(c := if front != b.tail then CRead(front) else CCheckTailBlock(s.frontBlock))
    case CCheckTailBlock(fb) =>
      s.(c := if fb != s.tailBlock then CReloadTail else CEnd(false))
    case CReloadTail =>
      var b := Front(s);
      Put(s, s.frontBlock, b.(localTail := b.tail))
        .(c := if b.front != b.tail then CRead(b.front) else CLoadNext)
    case CLoadNext =>
      s.(c := CLoadNextTail(Front(s).next))
    case CLoadNextTail(nb) =>
      var b := s.blocks[nb];
      Put(s, nb, b.(localTail := b.tail)).(c := CAdvance(nb, b.front))
    case CAdvance(nb, front) =>
      s.(frontBlock := nb, c := CRead(front),
         ring := Rest(s.ring) + s.ring[..|s.ring| - |Rest(s.ring)|],
         tailPos := if s.tailPos == 0 then 0 else s.tailPos - 1)
    case CRead(front) =>
      s.(c := CStoreFront(front, Front(s).data[front]))
    case CStoreFront(front, v) =>
      Put(s, s.frontBlock, Front(s).(front := Succ(front, Front(s).size)))
        .(c := CEnd(true), deq := s.deq + [v],
          held := SetHeld(s.held, s.frontBlock, Rest(HeldBy(s.held, s.frontBlock))))
    case CEnd(ok) =>
      s.(c := if s.jobDone then CExited else CTop)
  }

  ghost predicate Next<T(!new)>(s: State<T>, s': State<T>) {
    && Typed(s)
    && (|| (s.p.PIdle? && exists x: T, mode :: s' == StartEnqueue(s, x, mode))
        || (s.p.PIdle? && s' == Close(s))
        || (!s.p.PIdle? && !s.p.PClosed? && s' == ProducerStep(s))
        || (!s.c.CExited? && s' == ConsumerStep(s)))
  }

  /** The two asserts of the code about the block ahead: empty for the producer, non-empty for the consumer. */
  ghost predicate AssertsHold<T>(s: State<T>) {
    Typed(s) ==>
      && (s.p.PLoadNextFront? ==> s.blocks[Tail(s).next].front == s.blocks[Tail(s).next].tail)
      && (s.c.CLoadNextTail? ==> s.blocks[s.c.nb].front != s.blocks[s.c.nb].tail)
  }

  // ---------- construction ----------

  /** The least power of two that is at least n. */
  ghost predicate IsCeilPow2(n: nat, r: nat) {
    IsPow2(r) && n <= r && forall j: nat :: n <= Pow2(j) ==> r <= Pow2(j)
  }

  /** What ceilToPow2 makes of a word: 0 where no power of two in a word is large enough. */
  ghost predicate RoundsTo(n: nat, r: nat) {
    if 1 <= n <= HALF then IsCeilPow2(n, r) else r == 0
  }

  /** The sizes the queue works for. For size 0 a block of one slot is made, for those from 2^63 on one of no slots. */
  predicate Usable(size: nat) {
    1 <= size < HALF
  }

  /** The constructor's choice of block count and block size. */
  ghost predicate Layout(maxBlock: nat, size: nat, count: nat, blockSize: nat) {
    exists r: nat :: LayoutFrom(maxBlock, size, r, count, blockSize)
  }

  ghost predicate LayoutFrom(maxBlock: nat, size: nat, r: nat, count: nat, blockSize: nat) {
    && maxBlock >= 2 && size < WORD && RoundsTo(Word(size + 1), r)
    && if r > maxBlock * 2 then count == (size + maxBlock * 2 - 3) / (maxBlock - 1) && blockSize == maxBlock
       else count == 1 && blockSize == r
  }

  ghost predicate FreshRing<T>(blocks: seq<Block<T>>, blockSize: nat) {
    forall i :: 0 <= i < |blocks| ==>
      && blocks[i].size == blockSize && |blocks[i].data| == blockSize
      && blocks[i].front == blocks[i].tail == blocks[i].localFront == blocks[i].localTail == 0
      && blocks[i].next == Succ(i, |blocks|)
  }

  ghost predicate Init<T>(s: State<T>, maxBlock: nat, size: nat) {
    && s.maxBlock == maxBlock
    && Layout(maxBlock, size, |s.blocks|, s.largest)
    && FreshRing(s.blocks, s.largest)
    && s.frontBlock == s.tailBlock == 0 && !s.done && !s.jobDone && s.p == PIdle && s.c == CTop
    && s.ring == seq(|s.blocks|, i => i) && s.tailPos == 0
    && s.held == seq(|s.blocks|, i => []) && s.enq == s.deq == []
  }

  /** The constructor: one block, or a ring of maximal blocks linked in a loop. */
  method Construct<T>(maxBlock: nat, size: nat, junk: T) returns (s: State<T>)
    requires maxBlock >= 2 && size < WORD
    ensures Init(s, maxBlock, size)
  {
    var blockSize := CeilToPow2(Word(size + 1));
    ghost var r := blockSize;
    var blocks: seq<Block<T>>;
    if blockSize > maxBlock * 2 {
      var count := (size + maxBlock * 2 - 3) / (maxBlock - 1);
      blockSize := maxBlock;
      CountPositive(size, maxBlock);
      blocks := [];
      var i := 0;
      while i != count
        invariant 0 <= i <= count && |blocks| == i
        invariant FreshRing(blocks, blockSize)
      {
        var block := MakeBlock(blockSize, junk, 0);
        if i > 0 {
          blocks := blocks[i - 1 := blocks[i - 1].(next := i)];
        }
        blocks := blocks + [block];
        i := i + 1;
      }
    } else {
      blocks := [MakeBlock(blockSize, junk, 0)];
    }
    assert LayoutFrom(maxBlock, size, r, |blocks|, blockSize);
    s := State(maxBlock, blocks, 0, 0, blockSize, false, PIdle, CTop, false,
               seq(|blocks|, i => i), 0, seq(|blocks|, i => []), [], []);
  }

  lemma CountPositive(size: nat, maxBlock: nat)
    requires maxBlock >= 2
    ensures (size + maxBlock * 2 - 3) / (maxBlock - 1) >= 1
  {
    var d, x := maxBlock - 1, size + maxBlock * 2 - 3;
    assert x >= d;
    if x / d <= 0 {
      assert false;
    }
  }
}
