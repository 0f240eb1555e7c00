/** What the invariant gives for whole runs of the queue and of the loop that drains it. */
module SpscTheorems {
  import opened Bits
  import opened RingBlock
  import opened SpscQueue
  import opened SpscInvariant
  import opened Traces

  ghost function Starts<T>(maxBlock: nat, size: nat): State<T> -> bool {
    (s: State<T>) => Init(s, maxBlock, size)
  }

  ghost function Steps<T(!new)>(): (State<T>, State<T>) -> bool {
    (s: State<T>, s': State<T>) => Next(s, s')
  }

  /** Every interleaving of the two threads, from construction with capacity `size`. */
  ghost predicate Run<T(!new)>(run: seq<State<T>>, maxBlock: nat, size: nat) {
    Trace(run, Starts(maxBlock, size), Steps())
  }

  lemma CeilAtLeast(maxBlock: nat, size: nat, count: nat, blockSize: nat)
    requires Layout(maxBlock, size, count, blockSize)
    ensures maxBlock >= 2 && count >= 1 && (Usable(size) ==> blockSize >= 2)
  {
    var r: nat :| LayoutFrom(maxBlock, size, r, count, blockSize);
    CountPositive(size, maxBlock);
  }

  lemma InitInv<T>(s: State<T>, maxBlock: nat, size: nat)
    requires Init(s, maxBlock, size) && Usable(size)
    ensures Inv(s)
  {
    CeilAtLeast(maxBlock, size, |s.blocks|, s.largest);
    forall id | 0 <= id < |s.blocks|
      ensures Holds(s.blocks[id], s.held[id])
    {
    }
    FlatEmpty(s.held, s.ring[..1]);
  }

  lemma NextInv<T(!new)>(s: State<T>, s': State<T>)
    requires Inv(s) && Next(s, s')
    ensures Inv(s')
  {
    if s.p.PIdle? && exists x: T, mode :: s' == StartEnqueue(s, x, mode) {
      var x: T, mode :| s' == StartEnqueue(s, x, mode);
      StartStep(s, x, mode);
    } else if s.p.PIdle? && s' == Close(s) {
      CloseStep(s);
    } else if !s.p.PIdle? && !s.p.PClosed? && s' == ProducerStep(s) {
      ProducerInv(s);
    } else {
      ConsumerInv(s);
    }
  }

  lemma CloseStep<T>(s: State<T>)
    requires Inv(s) && s.p.PIdle?
    ensures Inv(Close(s))
  {
  }

  lemma RunInv<T(!new)>(run: seq<State<T>>, maxBlock: nat, size: nat, k: nat)
    requires Run(run, maxBlock, size) && Usable(size) && k < |run|
    ensures Inv(run[k])
  {
    forall s: State<T> | Starts<T>(maxBlock, size)(s) ensures Inv(s) { InitInv(s, maxBlock, size); }
    forall s: State<T>, s': State<T> | Inv(s) && Steps<T>()(s, s') ensures Inv(s') { NextInv(s, s'); }
    Always(run, Starts(maxBlock, size), Steps(), s => Inv(s), k);
  }

  /** First in, first out: at every instant of every run the elements taken out are, in order, a prefix of
      the elements put in, and the rest is exactly what the blocks hold: following the links from the front block to the
      tail block, each block's data from its front index to its tail index (Core). */
  lemma FifoOrder<T(!new)>(run: seq<State<T>>, maxBlock: nat, size: nat, k: nat)
    requires Run(run, maxBlock, size) && Usable(size) && k < |run|
    ensures run[k].deq <= run[k].enq
    ensures Core(run[k]) && run[k].enq[|run[k].deq|..] == Contents(run[k])
  {
    RunInv(run, maxBlock, size, k);
  }

  // ---------- a failed dequeue ----------

  // The tail block leaves the block the consumer is looking at at most once, and does not come back.
  lemma TailNeverReturns<T(!new)>(s: State<T>, s': State<T>)
    requires Inv(s) && Next(s, s') && s.c.CCheckTailBlock? && s'.c.CCheckTailBlock? && s'.tailBlock == s'.c.fb
    ensures s.tailBlock == s.c.fb == s'.c.fb
  {
    HopsAhead(s);
  }

  lemma HopsAhead<T>(s: State<T>)
    requires Inv(s)
    ensures s.p.PHop? ==> s.p.nb != s.frontBlock
  {
    if s.p.PHop? {
      assert s.ring[0] != s.ring[s.tailPos + 1];
    }
  }

  // One step back from a state where the consumer is about to report "empty".
  lemma EmptyReportBack<T(!new)>(s: State<T>, s': State<T>)
    requires Inv(s) && Inv(s') && Next(s, s') && s'.c.CCheckTailBlock? && s'.tailBlock == s'.c.fb
    ensures s'.enq == s'.deq || (s.c.CCheckTailBlock? && s.tailBlock == s.c.fb)
  {
    if s.c.CCheckTailBlock? {
      TailNeverReturns(s, s');
    } else {
      EnterCheckTailBlock(s, s');
    }
  }

  lemma EnterCheckTailBlock<T(!new)>(s: State<T>, s': State<T>)
    requires Inv(s) && Inv(s') && Next(s, s') && !s.c.CCheckTailBlock? && s'.c.CCheckTailBlock?
      && s'.tailBlock == s'.c.fb
    ensures s'.enq == s'.deq
  {
    OnlyAfterCheckTail(s, s');
    CheckTailStep(s);
    EmptyQueue(s');
  }

  // The producer's steps leave the consumer where it is, and the other way round.
  lemma ProducerKeepsConsumer<T>(s: State<T>)
    requires Typed(s) && !s.p.PIdle? && !s.p.PClosed?
    ensures ProducerStep(s).c == s.c
  {
  }

  lemma ConsumerKeepsProducer<T>(s: State<T>)
    requires Typed(s) && !s.c.CExited?
    ensures ConsumerStep(s).p == s.p
  {
  }

  lemma ConsumerMoves<T(!new)>(s: State<T>, s': State<T>)
    requires Next(s, s')
    ensures s'.c == s.c || (!s.c.CExited? && s' == ConsumerStep(s))
  {
    if !s.p.PIdle? && !s.p.PClosed? && s' == ProducerStep(s) {
      ProducerKeepsConsumer(s);
    }
  }

  lemma ProducerMoves<T(!new)>(s: State<T>, s': State<T>)
    requires Next(s, s') && !s.p.PIdle?
    ensures s'.p == s.p || (!s.p.PClosed? && s' == ProducerStep(s))
  {
    if !s.c.CExited? && s' == ConsumerStep(s) {
      ConsumerKeepsProducer(s);
    }
  }

  lemma EntersCheckTailBlock<T>(s: State<T>)
    requires Typed(s) && !s.c.CExited? && ConsumerStep(s).c.CCheckTailBlock?
    ensures s.c.CCheckTail? && ConsumerStep(s).held == s.held
  {
  }

  lemma OnlyAfterCheckTail<T(!new)>(s: State<T>, s': State<T>)
    requires Next(s, s') && !s.c.CCheckTailBlock? && s'.c.CCheckTailBlock?
    ensures s.c.CCheckTail? && s' == ConsumerStep(s) && s'.held == s.held
  {
    ConsumerMoves(s, s');
    EntersCheckTailBlock(s);
  }

  /** A try_dequeue that returns false, from whatever position, saw the queue empty at some instant inside the call. */
  lemma FailedDequeueSawEmpty<T(!new)>(run: seq<State<T>>, maxBlock: nat, size: nat, j: nat) returns (k: nat)
    requires Run(run, maxBlock, size) && Usable(size) && j + 1 < |run|
    requires run[j].c != run[j + 1].c == CEnd(false)
    ensures k <= j && run[k].enq == run[k].deq
    ensures forall i :: k <= i <= j ==> run[i].c.CCheckTailBlock?
  {
    var phase := (s: State<T>) => s.c.CCheckTailBlock? && s.tailBlock == s.c.fb;
    assert phase(run[j]) by {
      assert Steps<T>()(run[j], run[j + 1]);
      FailsAtTailBlock(run[j], run[j + 1]);
    }
    forall s: State<T> | Starts<T>(maxBlock, size)(s) ensures Inv(s) && !phase(s) { InitInv(s, maxBlock, size); }
    forall s: State<T>, s': State<T> | Inv(s) && Steps<T>()(s, s')
      ensures Inv(s') && (phase(s') ==> phase(s) || s'.enq == s'.deq)
    {
      NextInv(s, s');
      if phase(s') { EmptyReportBack(s, s'); }
    }
    k := LookBack(run, Starts(maxBlock, size), Steps(), s => Inv(s), phase, (s: State<T>) => s.enq == s.deq, j);
  }

  /** The only way to report "empty". */
  lemma FailsAtTailBlock<T(!new)>(s: State<T>, s': State<T>)
    requires Next(s, s') && s.c != s'.c == CEnd(false)
    ensures s.c.CCheckTailBlock? && s.tailBlock == s.c.fb
  {
    ConsumerMoves(s, s');
    OnlyTailBlockFails(s);
  }

  lemma OnlyTailBlockFails<T>(s: State<T>)
    requires Typed(s) && !s.c.CExited? && ConsumerStep(s).c == CEnd(false)
    ensures s.c.CCheckTailBlock? && s.tailBlock == s.c.fb
  {
  }

  // ---------- a failed enqueue ----------

  /** Every block has at least m slots, and m is enough for the promised size. */
  ghost predicate Roomy<T>(s: State<T>, size: nat, m: nat) {
    && m >= 1 && s.largest >= m
    && (forall id :: 0 <= id < |s.blocks| ==> s.blocks[id].size >= m)
    && (|s.blocks| == 1 ==> m > size)
    && (|s.blocks| > 1 ==> (m - 1) * (|s.blocks| - 1) >= size)
  }

  lemma EnoughBlocks(size: nat, maxBlock: nat, count: nat)
    requires maxBlock >= 2 && count == (size + maxBlock * 2 - 3) / (maxBlock - 1)
    ensures (maxBlock - 1) * (count - 1) >= size && (size >= 1 ==> count > 1)
  {
    var d, x := maxBlock - 1, size + maxBlock * 2 - 3;
    assert x == d * count + x % d;
    MulDist(d, count - 1, 1);
  }

  lemma LayoutHolds(maxBlock: nat, size: nat, count: nat, blockSize: nat)
    requires Layout(maxBlock, size, count, blockSize) && Usable(size)
    ensures blockSize >= 1 && (count == 1 ==> blockSize > size) && (count > 1 ==> (blockSize - 1) * (count - 1) >= size)
  {
    var r: nat :| LayoutFrom(maxBlock, size, r, count, blockSize);
    if r > maxBlock * 2 {
      EnoughBlocks(size, maxBlock, count);
    } else {
      assert Word(size + 1) == size + 1;
    }
  }

  lemma InitRoomy<T>(s: State<T>, maxBlock: nat, size: nat) returns (m: nat)
    requires Init(s, maxBlock, size) && Usable(size)
    ensures Roomy(s, size, m)
  {
    LayoutHolds(maxBlock, size, |s.blocks|, s.largest);
    m := s.largest;
  }

  ghost predicate SameSizes<T>(s: State<T>, s': State<T>) {
    && |s'.blocks| == |s.blocks| && s'.largest == s.largest
    && forall id :: 0 <= id < |s.blocks| ==> s'.blocks[id].size == s.blocks[id].size
  }

  lemma ProducerKeepsSizes<T>(s: State<T>)
    requires Typed(s) && !s.p.PIdle? && !s.p.PClosed? && !s.p.PLink?
    ensures SameSizes(s, ProducerStep(s))
  {
  }

  lemma ConsumerKeepsSizes<T>(s: State<T>)
    requires Typed(s) && !s.c.CExited?
    ensures SameSizes(s, ConsumerStep(s))
  {
  }

  // No step but linking a new block changes how many blocks there are, or how large.
  lemma SizesKept<T(!new)>(s: State<T>, s': State<T>)
    requires Next(s, s') && !(s.p.PLink? && s' == ProducerStep(s))
    ensures SameSizes(s, s')
  {
    if !s.p.PIdle? && !s.p.PClosed? && s' == ProducerStep(s) {
      ProducerKeepsSizes(s);
    } else if !s.c.CExited? && s' == ConsumerStep(s) {
      ConsumerKeepsSizes(s);
    }
  }

  lemma LinkGrows<T>(s: State<T>, m: nat)
    requires Typed(s) && s.p.PLink? && s.largest >= m
    requires forall id :: 0 <= id < |s.blocks| ==> s.blocks[id].size >= m
    ensures |ProducerStep(s).blocks| == |s.blocks| + 1 && ProducerStep(s).largest >= m
    ensures forall id :: 0 <= id <= |s.blocks| ==> ProducerStep(s).blocks[id].size >= m
  {
  }

  lemma NextRoomy<T(!new)>(s: State<T>, s': State<T>, size: nat, m: nat)
    requires Next(s, s') && Roomy(s, size, m)
    ensures Roomy(s', size, m)
  {
    if s.p.PLink? && s' == ProducerStep(s) {
      LinkGrows(s, m);
      MulLe(m - 1, 1, |s.blocks|);
      MulLe(m - 1, |s.blocks| - 1, |s.blocks|);
    } else {
      SizesKept(s, s');
    }
  }

  lemma RunRoomy<T(!new)>(run: seq<State<T>>, maxBlock: nat, size: nat, k: nat) returns (m: nat)
    requires Run(run, maxBlock, size) && Usable(size) && k < |run|
    ensures Roomy(run[k], size, m)
  {
    m := InitRoomy(run[0], maxBlock, size);
    var first := (s: State<T>) => s == run[0];
    assert Trace(run, first, Steps());
    var at := m;
    forall s: State<T>, s': State<T> | Roomy(s, size, at) && Steps<T>()(s, s') ensures Roomy(s', size, at) {
      NextRoomy(s, s', size, at);
    }
    Always(run, first, Steps(), s => Roomy(s, size, at), k);
  }

  lemma {:induction false} FullBlocksHold<T>(held: seq<seq<T>>, ids: seq<nat>, m: nat)
    requires m >= 1 && forall i :: 0 <= i < |ids| ==> ids[i] < |held| && |held[ids[i]]| >= m - 1
    ensures |Flat(held, ids)| >= (m - 1) * |ids|
  {
    if ids != [] {
      FullBlocksHold(held, ids[1..], m);
      MulDist(m - 1, |ids| - 1, 1);
    }
  }

  /** With the tail block right behind the front block, every block but the front one is full. */
  lemma RingFull<T>(s: State<T>, size: nat, m: nat)
    requires Inv(s) && Roomy(s, size, m) && s.p.PCheckNext? && s.tailPos + 1 == |s.ring| > 1
    ensures |s.enq| - |s.deq| >= size
  {
    var ids := s.ring[..s.tailPos + 1];
    forall i | 0 <= i < |ids[1..]|
      ensures ids[1..][i] < |s.held| && |s.held[ids[1..][i]]| >= m - 1
    {
      assert ids[1..][i] == s.ring[i + 1];
      assert Full(s.blocks, s.held, s.ring[i + 1]);
    }
    FullBlocksHold(s.held, ids[1..], m);
  }

  lemma SingleBlockFull<T>(s: State<T>, size: nat, m: nat)
    requires Inv(s) && Roomy(s, size, m) && |s.blocks| == 1 && Full(s.blocks, s.held, s.tailBlock)
    ensures |s.enq| - |s.deq| >= size
  {
    var ids := s.ring[..1];
    assert Flat(s.held, ids) == s.held[ids[0]] + [];
  }

  lemma EnterCheckNext<T(!new)>(s: State<T>, s': State<T>)
    requires Inv(s) && Inv(s') && Next(s, s') && !s.p.PCheckNext? && s'.p.PCheckNext?
    ensures Full(s'.blocks, s'.held, s'.tailBlock)
  {
    OnlyAfterCheckFront(s, s');
    CheckFrontStep(s);
  }

  lemma EntersCheckNext<T>(s: State<T>)
    requires Typed(s) && !s.p.PIdle? && !s.p.PClosed? && ProducerStep(s).p.PCheckNext?
    ensures s.p.PCheckFront?
  {
  }

  lemma IdleStaysClear<T(!new)>(s: State<T>, s': State<T>)
    requires Next(s, s') && s.p.PIdle?
    ensures !s'.p.PCheckNext?
  {
    if !s.c.CExited? && s' == ConsumerStep(s) {
      ConsumerKeepsProducer(s);
    }
  }

  lemma OnlyAfterCheckFront<T(!new)>(s: State<T>, s': State<T>)
    requires Next(s, s') && !s.p.PCheckNext? && s'.p.PCheckNext?
    ensures s.p.PCheckFront? && s' == ProducerStep(s)
  {
    assert !s.p.PIdle? by {
      if s.p.PIdle? { IdleStaysClear(s, s'); }
    }
    ProducerMoves(s, s');
    EntersCheckNext(s);
  }

  // The producer reaches the test of the next block only by finding its own block full.
  lemma CheckNextBack<T(!new)>(s: State<T>, s': State<T>, size: nat, m: nat)
    requires Inv(s) && Inv(s') && Next(s, s') && Roomy(s', size, m) && s'.p.PCheckNext? && |s'.blocks| == 1
    ensures |s'.enq| - |s'.deq| >= size || (s.p.PCheckNext? && |s.blocks| == 1)
  {
    if s.p.PCheckNext? {
      SizesKept(s, s');
    } else {
      EnterCheckNext(s, s');
      SingleBlockFull(s', size, m);
    }
  }

  lemma SingleFullSeen<T(!new)>(run: seq<State<T>>, maxBlock: nat, size: nat, j: nat) returns (k: nat)
    requires Run(run, maxBlock, size) && Usable(size) && j < |run|
    requires run[j].p.PCheckNext? && |run[j].blocks| == 1
    ensures k <= j && |run[k].enq| - |run[k].deq| >= size
    ensures forall i :: k <= i <= j ==> run[i].p.PCheckNext?
  {
    var m := InitRoomy(run[0], maxBlock, size);
    InitInv(run[0], maxBlock, size);
    var first := (s: State<T>) => s == run[0];
    var inv := (s: State<T>) => Inv(s) && Roomy(s, size, m);
    var phase := (s: State<T>) => s.p.PCheckNext? && |s.blocks| == 1;
    var seen := (s: State<T>) => |s.enq| - |s.deq| >= size;
    assert Trace(run, first, Steps());
    forall s: State<T>, s': State<T> | inv(s) && Steps<T>()(s, s')
      ensures inv(s') && (phase(s') ==> phase(s) || seen(s'))
    {
      NextInv(s, s');
      NextRoomy(s, s', size, m);
      if phase(s') { CheckNextBack(s, s', size, m); }
    }
    k := LookBack(run, first, Steps(), inv, phase, seen, j);
  }

  /** The failing branch: the block ahead of the tail block is the front block. */
  lemma FailsAtFrontBlock<T(!new)>(s: State<T>, s': State<T>)
    requires Inv(s) && Next(s, s') && s.p.PCheckNext? && s'.p.PIdle?
    ensures s.tailPos + 1 == |s.ring|
  {
    BehindTail(s);
  }

  lemma BehindTail<T>(s: State<T>)
    requires Inv(s)
    ensures s.tailPos + 1 < |s.ring| ==> s.blocks[s.tailBlock].next != s.frontBlock
  {
    if s.tailPos + 1 < |s.ring| {
      assert s.ring[0] != s.ring[s.tailPos + 1];
      NextOfTail(s);
    }
  }

  /** The only way to end a call without adding. */
  lemma EndsAtCheckNext<T(!new)>(s: State<T>, s': State<T>)
    requires Next(s, s') && !s.p.PIdle? && s'.p.PIdle? && s'.enq == s.enq
    ensures s.p.PCheckNext?
  {
    ProducerMoves(s, s');
    OnlyCheckNextFails(s);
  }

  lemma OnlyCheckNextFails<T>(s: State<T>)
    requires Typed(s) && !s.p.PIdle? && !s.p.PClosed? && ProducerStep(s).p.PIdle?
    ensures s.p.PCheckNext? || |ProducerStep(s).enq| == |s.enq| + 1
  {
  }

  /** An enqueue that ends, from whatever position, without adding saw at least `size` elements in the queue at some
      instant inside the call. */
  lemma FailedEnqueueSawFull<T(!new)>(run: seq<State<T>>, maxBlock: nat, size: nat, j: nat) returns (k: nat)
    requires Run(run, maxBlock, size) && Usable(size) && j + 1 < |run|
    requires !run[j].p.PIdle? && run[j + 1].p.PIdle? && run[j + 1].enq == run[j].enq
    ensures k <= j && |run[k].enq| - |run[k].deq| >= size
    ensures forall i :: k <= i <= j ==> run[i].p.PCheckNext?
  {
    assert run[j].p.PCheckNext? by {
      assert Steps<T>()(run[j], run[j + 1]);
      EndsAtCheckNext(run[j], run[j + 1]);
    }
    if |run[j].blocks| == 1 {
      k := SingleFullSeen(run, maxBlock, size, j);
    } else {
      var m := RunRoomy(run, maxBlock, size, j);
      RunInv(run, maxBlock, size, j);
      assert Steps<T>()(run[j], run[j + 1]);
      FailsAtFrontBlock(run[j], run[j + 1]);
      RingFull(run[j], size, m);
      k := j;
    }
  }

  // ---------- block sizes ----------

  ghost predicate PowerSizes<T>(s: State<T>) {
    IsPow2(s.largest) && forall id :: 0 <= id < |s.blocks| ==> IsPow2(s.blocks[id].size)
  }

  lemma LinkPowers<T>(s: State<T>)
    requires Typed(s) && s.p.PLink? && PowerSizes(s)
    ensures PowerSizes(ProducerStep(s))
  {
    var k: nat :| s.largest == Pow2(k);
    assert s.largest * 2 == Pow2(k + 1);
  }

  /** If MAX_BLOCK_SIZE is a power of two, as the constructor asserts, the size of every block ever linked is one, so
      that masking an index with size - 1 is stepping round the ring. */
  lemma SizesArePowers<T(!new)>(run: seq<State<T>>, maxBlock: nat, size: nat, k: nat)
    requires Run(run, maxBlock, size) && size < HALF && IsPow2(maxBlock) && k < |run|
    ensures PowerSizes(run[k])
  {
    forall s: State<T>, s': State<T> | PowerSizes(s) && Steps<T>()(s, s') ensures PowerSizes(s') {
      if s.p.PLink? && s' == ProducerStep(s) {
        LinkPowers(s);
      } else {
        SizesKept(s, s');
      }
    }
    Always(run, Starts(maxBlock, size), Steps(), s => PowerSizes(s), k);
  }

  /** The next block has size b doubled e times: once for each block linked beyond the first `count`, until the size
      reaches the maximum. */
  ghost predicate DoubledTimes<T>(s: State<T>, b: nat, count: nat, e: nat) {
    && s.largest == b * Pow2(e) && e <= |s.blocks| - count && (e < |s.blocks| - count ==> s.largest >= s.maxBlock)
    && (e > 0 ==> b * Pow2(e - 1) < s.maxBlock)
  }

  ghost predicate Doubled<T>(s: State<T>, b: nat, count: nat, maxBlock: nat) {
    s.maxBlock == maxBlock && count <= |s.blocks| && exists e: nat :: DoubledTimes(s, b, count, e)
  }

  lemma StepDoubles<T(!new)>(s: State<T>, s': State<T>, b: nat, count: nat, maxBlock: nat)
    requires Next(s, s') && Doubled(s, b, count, maxBlock)
    ensures Doubled(s', b, count, maxBlock)
  {
    var e: nat :| DoubledTimes(s, b, count, e);
    MaxBlockStays(s, s');
    if s.p.PLink? && s' == ProducerStep(s) {
      LinkGrows(s, 0);
      if s.largest >= maxBlock {
        assert DoubledTimes(s', b, count, e);
      } else {
        assert e == |s.blocks| - count;
        MulDist(b, Pow2(e), Pow2(e));
        assert DoubledTimes(s', b, count, e + 1);
      }
    } else {
      SizesKept(s, s');
      assert DoubledTimes(s', b, count, e);
    }
  }

  lemma MaxBlockStays<T(!new)>(s: State<T>, s': State<T>)
    requires Next(s, s')
    ensures s'.maxBlock == s.maxBlock
  {
  }

  /** Over every run the size of the next block is that of the first ones, doubled with each block linked since, until
      it reaches the maximum. */
  lemma BlocksDouble<T(!new)>(run: seq<State<T>>, maxBlock: nat, size: nat, k: nat)
    requires Run(run, maxBlock, size) && k < |run|
    ensures Doubled(run[k], run[0].largest, |run[0].blocks|, maxBlock)
  {
    var b, count := run[0].largest, |run[0].blocks|;
    var first := (s: State<T>) => s == run[0];
    assert Trace(run, first, Steps());
    assert Pow2(0) == 1;
    assert DoubledTimes(run[0], b, count, 0);
    forall s: State<T>, s': State<T> | Doubled(s, b, count, maxBlock) && Steps<T>()(s, s')
      ensures Doubled(s', b, count, maxBlock)
    {
      StepDoubles(s, s', b, count, maxBlock);
    }
    Always(run, first, Steps(), s => Doubled(s, b, count, maxBlock), k);
  }

  // ---------- shutdown ----------

  /** The draining loop leaves only when the producer has closed and every element pushed was handled, once, in
      order. */
  lemma ShutdownLosesNothing<T(!new)>(run: seq<State<T>>, maxBlock: nat, size: nat, k: nat)
    requires Run(run, maxBlock, size) && Usable(size) && k < |run| && run[k].c.CExited?
    ensures run[k].done && run[k].p.PClosed? && run[k].deq == run[k].enq
  {
    RunInv(run, maxBlock, size, k);
  }
}
