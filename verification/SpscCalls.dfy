/** The calls of the queue from beginning to end, over every interleaving with the other thread, and the end of the
    loop that drains it. */
module SpscCalls {
  import opened RingBlock
  import opened SpscQueue
  import opened SpscInvariant
  import opened SpscTheorems
  import opened Traces

  // ---------- an enqueue ----------

  /** The producer is inside a call with this argument, and nothing has been added yet. */
  ghost predicate During<T>(s: State<T>, x: T, mode: Mode, before: seq<T>) {
    && !s.p.PIdle? && !s.p.PClosed? && s.p.x == x && s.enq == before
    && (s.p.PCheckFront? || s.p.PCheckNext? ==> s.p.mode == mode)
  }

  ghost predicate Added<T>(s: State<T>, x: T, before: seq<T>) {
    s.p.PIdle? && s.enq == before + [x]
  }

  ghost predicate GaveUp<T>(s: State<T>, mode: Mode, before: seq<T>) {
    s.p.PIdle? && s.enq == before && mode == CannotAlloc
  }

  lemma CallBegins<T>(s: State<T>, x: T, mode: Mode)
    requires Typed(s)
    ensures During(StartEnqueue(s, x, mode), x, mode, s.enq)
  {
  }

  lemma CallGoesOn<T>(s: State<T>, x: T, mode: Mode, before: seq<T>)
    requires Typed(s) && During(s, x, mode, before)
    ensures var s' := ProducerStep(s);
      During(s', x, mode, before) || Added(s', x, before) || GaveUp(s', mode, before)
  {
  }

  lemma ConsumerKeepsEnq<T>(s: State<T>)
    requires Typed(s) && !s.c.CExited?
    ensures ConsumerStep(s).enq == s.enq
  {
  }

  lemma CallStep<T(!new)>(s: State<T>, s': State<T>, x: T, mode: Mode, before: seq<T>)
    requires Next(s, s') && During(s, x, mode, before)
    ensures During(s', x, mode, before) || Added(s', x, before) || GaveUp(s', mode, before)
  {
    if s' == ProducerStep(s) {
      CallGoesOn(s, x, mode, before);
    } else {
      ConsumerKeepsEnq(s);
      ConsumerKeepsProducer(s);
    }
  }

  lemma StepOfRun<T(!new)>(run: seq<State<T>>, maxBlock: nat, size: nat, n: nat)
    requires Run(run, maxBlock, size) && 0 < n < |run|
    ensures Next(run[n - 1], run[n])
  {
    assert Steps<T>()(run[n - 1], run[n]);
  }

  /** A call that began at step i and has not ended by step n. */
  lemma {:induction false} StillDuring<T(!new)>(run: seq<State<T>>, maxBlock: nat, size: nat, i: nat, n: nat, x: T,
      mode: Mode)
    requires Run(run, maxBlock, size) && i < n < |run| && Typed(run[i]) && run[i + 1] == StartEnqueue(run[i], x, mode)
    requires forall k :: i < k <= n ==> !run[k].p.PIdle?
    ensures During(run[n], x, mode, run[i].enq)
    decreases n
  {
    if n == i + 1 {
      CallBegins(run[i], x, mode);
    } else {
      StillDuring(run, maxBlock, size, i, n - 1, x, mode);
      StepOfRun(run, maxBlock, size, n);
      CallStep(run[n - 1], run[n], x, mode, run[i].enq);
    }
  }

  /** An enqueue, from its first step i to its last step j, adds exactly its argument; only a call that may not
      allocate can end without adding, and then the queue held at least `size` elements at an instant k of the call. */
  lemma EnqueueCall<T(!new)>(run: seq<State<T>>, maxBlock: nat, size: nat, i: nat, j: nat, x: T, mode: Mode)
      returns (k: nat)
    requires Run(run, maxBlock, size) && Usable(size) && i < j && j + 1 < |run|
    requires Typed(run[i]) && run[i + 1] == StartEnqueue(run[i], x, mode)
    requires (forall n :: i < n <= j ==> !run[n].p.PIdle?) && run[j + 1].p.PIdle?
    ensures run[j + 1].enq == run[i].enq + [x] || (mode == CannotAlloc && run[j + 1].enq == run[i].enq)
    ensures run[j + 1].enq == run[i].enq ==> i < k <= j && |run[k].enq| - |run[k].deq| >= size
  {
    StillDuring(run, maxBlock, size, i, j, x, mode);
    StepOfRun(run, maxBlock, size, j + 1);
    CallStep(run[j], run[j + 1], x, mode, run[i].enq);
    k := j;
    if run[j + 1].enq == run[i].enq {
      k := FailedEnqueueSawFull(run, maxBlock, size, j);
      assert !run[i + 1].p.PCheckNext?;
    }
  }

  // ---------- a dequeue ----------

  /** Inside try_dequeue. */
  predicate InPop<T>(c: Consumer<T>) {
    match c
    case CPop | CCheckTail(_) | CCheckTailBlock(_) | CReloadTail | CLoadNext | CLoadNextTail(_) | CAdvance(_, _)
       | CRead(_) | CStoreFront(_, _) => true
    case _ => false
  }

  lemma PopGoesOn<T>(s: State<T>)
    requires Typed(s) && InPop(s.c)
    ensures var s' := ConsumerStep(s);
      || (InPop(s'.c) && s'.deq == s.deq)
      || (s'.c == CEnd(true) && |s'.deq| == |s.deq| + 1 && s.deq <= s'.deq)
      || (s'.c == CEnd(false) && s'.deq == s.deq)
  {
  }

  lemma ProducerKeepsDeq<T>(s: State<T>)
    requires Typed(s) && !s.p.PIdle? && !s.p.PClosed?
    ensures ProducerStep(s).deq == s.deq
  {
  }

  lemma PopStep<T(!new)>(s: State<T>, s': State<T>)
    requires Next(s, s') && InPop(s.c)
    ensures || (InPop(s'.c) && s'.deq == s.deq)
            || (s'.c == CEnd(true) && |s'.deq| == |s.deq| + 1 && s.deq <= s'.deq)
            || (s'.c == CEnd(false) && s'.deq == s.deq)
  {
    if !s.c.CExited? && s' == ConsumerStep(s) {
      PopGoesOn(s);
    } else if !s.p.PIdle? && !s.p.PClosed? && s' == ProducerStep(s) {
      ProducerKeepsConsumer(s);
      ProducerKeepsDeq(s);
    }
  }

  lemma {:induction false} NothingTaken<T(!new)>(run: seq<State<T>>, maxBlock: nat, size: nat, i: nat, n: nat)
    requires Run(run, maxBlock, size) && i <= n < |run| && forall k :: i <= k <= n ==> InPop(run[k].c)
    ensures run[n].deq == run[i].deq
    decreases n
  {
    if i < n {
      NothingTaken(run, maxBlock, size, i, n - 1);
      StepOfRun(run, maxBlock, size, n);
      PopStep(run[n - 1], run[n]);
    }
  }

  lemma TakenIsOldest<T>(before: seq<T>, after: seq<T>, enq: seq<T>)
    requires |after| == |before| + 1 && before <= after <= enq
    ensures after == before + [enq[|before|]]
  {
  }

  /** A try_dequeue, from its first step i to its last step j, either takes the oldest element that is in the queue and
      returns true, or takes nothing, returns false, and the queue was empty at an instant k of the call. */
  lemma DequeueCall<T(!new)>(run: seq<State<T>>, maxBlock: nat, size: nat, i: nat, j: nat) returns (k: nat)
    requires Run(run, maxBlock, size) && Usable(size) && i <= j && j + 1 < |run| && run[i].c == CPop
    requires (forall n :: i <= n <= j ==> InPop(run[n].c)) && !InPop(run[j + 1].c)
    ensures run[j + 1].c.CEnd?
    ensures run[j + 1].c == CEnd(true) ==>
      |run[i].deq| < |run[j + 1].enq| && run[j + 1].deq == run[i].deq + [run[j + 1].enq[|run[i].deq|]]
    ensures run[j + 1].c == CEnd(false) ==> run[j + 1].deq == run[i].deq && i <= k <= j && run[k].enq == run[k].deq
  {
    var s, s' := run[j], run[j + 1];
    assert s.deq == run[i].deq by { NothingTaken(run, maxBlock, size, i, j); }
    assert s'.deq <= s'.enq by { FifoOrder(run, maxBlock, size, j + 1); }
    StepOfRun(run, maxBlock, size, j + 1);
    PopStep(s, s');
    k := j;
    if s'.c == CEnd(false) {
      k := FailedDequeueSawEmpty(run, maxBlock, size, j);
      assert !run[i].c.CCheckTailBlock?;
    } else {
      TakenIsOldest(s.deq, s'.deq, s'.enq);
    }
  }

  // ---------- neither call ever waits ----------

  function ProducerPlace<T>(p: Producer<T>): nat {
    match p
    case PIdle => 0
    case PClosed => 0
    case PHop(_, _) => 1
    case PPublish(_, _) => 1
    case PPublishNext(_, _, _) => 2
    case PWrite(_, _) => 2
    case PWriteNext(_, _, _) => 3
    case PLink(_) => 3
    case PLoadNextFront(_) => 4
    case PCheckNext(_, _) => 5
    case PCheckFront(_, _, _) => 6
  }

  function PopPlace<T>(c: Consumer<T>): nat {
    match c
    case CStoreFront(_, _) => 1
    case CRead(_) => 2
    case CAdvance(_, _) => 3
    case CLoadNextTail(_) => 4
    case CLoadNext => 5
    case CReloadTail => 6
    case CCheckTailBlock(_) => 7
    case CCheckTail(_) => 8
    case CPop => 9
    case _ => 0
  }

  /** However the other thread is scheduled, an enqueue ends after at most six steps of its own and a dequeue after at
      most nine. */
  lemma WaitFree<T>(s: State<T>)
    requires Typed(s)
    ensures !s.p.PIdle? && !s.p.PClosed? ==> ProducerPlace(ProducerStep(s).p) < ProducerPlace(s.p) <= 6
    ensures InPop(s.c) ==> PopPlace(ConsumerStep(s).c) < PopPlace(s.c) <= 9
  {
    if !s.p.PIdle? && !s.p.PClosed? { EnqueueAdvances(s); }
    if InPop(s.c) { DequeueAdvances(s); }
  }

  lemma EnqueueAdvances<T>(s: State<T>)
    requires Typed(s) && !s.p.PIdle? && !s.p.PClosed?
    ensures ProducerPlace(ProducerStep(s).p) < ProducerPlace(s.p)
  {
  }

  lemma DequeueAdvances<T>(s: State<T>)
    requires Typed(s) && InPop(s.c)
    ensures PopPlace(ConsumerStep(s).c) < PopPlace(s.c)
  {
  }

  // ---------- the draining loop ends ----------

  ghost function Left<T>(s: State<T>): int {
    |s.enq| - |s.deq|
  }

  /** How far the loop is from its next pop, or from its end. A dequeue that was under way when the producer closed may
      still report "empty", once. */
  ghost function LoopPlace<T>(s: State<T>): nat {
    var round := 3 * |s.ring|;
    match s.c
    case CExited => 0
    case CEnd(_) => if s.jobDone then 1 else round + 19
    case CTop => round + 18
    case CSize(_, _, pos) => if pos <= |s.ring| then 12 + 3 * (|s.ring| - pos) else 12
    case CSizeTail(_, _, pos, _) => if pos <= |s.ring| then 11 + 3 * (|s.ring| - pos) else 11
    case CSizeNext(_, _, pos) => if pos <= |s.ring| then 10 + 3 * (|s.ring| - pos) else 10
    case CCheckTailBlock(fb) => if !s.jobDone && (Left(s) == 0 || fb == s.tailBlock) then round + 20 else 8
    case _ => if !s.jobDone && Left(s) == 0 then round + 20 + PopPlace(s.c) else 1 + PopPlace(s.c)
  }

  ghost predicate Closer<T>(s: State<T>, s': State<T>) {
    0 <= Left(s') < Left(s) || (Left(s') == Left(s) && LoopPlace(s') < LoopPlace(s))
  }

  /** An element the consumer is about to take is there. */
  lemma SomethingLeft<T>(s: State<T>)
    requires Inv(s) && s.held[s.frontBlock] != []
    ensures Left(s) > 0
  {
    var ids := s.ring[..s.tailPos + 1];
    assert ids[0] == s.frontBlock;
    assert Flat(s.held, ids) == s.held[ids[0]] + Flat(s.held, ids[1..]);
  }

  lemma MoreBehind<T>(s: State<T>)
    requires Inv(s) && s.frontBlock != s.tailBlock
    ensures Left(s) > 0
  {
    var ids := s.ring[..s.tailPos];
    assert s.tailPos > 0;
    assert s.ring[..s.tailPos + 1] == ids + [s.tailBlock];
    FlatSnoc(s.held, ids, s.tailBlock);
  }

  lemma DrainCompares<T>(s: State<T>)
    requires Inv(s) && Typed(s) && s.c.CCheckTailBlock?
    ensures Closer(s, ConsumerStep(s))
  {
    if s.frontBlock != s.tailBlock {
      MoreBehind(s);
    }
  }

  lemma DrainPops<T>(s: State<T>)
    requires Typed(s) && InPop(s.c) && !s.c.CCheckTail? && !s.c.CCheckTailBlock? && !s.c.CStoreFront?
    ensures Closer(s, ConsumerStep(s))
  {
  }

  lemma DrainTakes<T>(s: State<T>)
    requires Inv(s) && Typed(s) && s.c.CStoreFront?
    ensures Closer(s, ConsumerStep(s))
  {
    SomethingLeft(s);
  }

  lemma DrainLooks<T>(s: State<T>)
    requires Inv(s) && Typed(s) && s.c.CCheckTail?
    ensures Closer(s, ConsumerStep(s))
  {
    assert ConsumerStep(s).c.CCheckTailBlock? ==> s.held[s.frontBlock] == [] by { CheckTailStep(s); }
    if s.held[s.frontBlock] == [] && s.tailBlock == s.frontBlock {
      EmptyQueue(s);
    }
    LooksOn(s);
  }

  lemma LooksOn<T>(s: State<T>)
    requires Typed(s) && s.c.CCheckTail?
    requires ConsumerStep(s).c.CCheckTailBlock? && s.tailBlock == s.frontBlock ==> Left(s) == 0
    ensures Closer(s, ConsumerStep(s))
  {
  }

  /** The next block is the first one again exactly at the end of the round. */
  lemma RoundEnds<T>(s: State<T>)
    requires Core(s) && s.c.CSizeNext? && s.c.pos < |s.ring| && s.c.at == s.ring[s.c.pos]
    ensures s.blocks[s.c.at].next == s.frontBlock <==> s.c.pos + 1 == |s.ring|
  {
    var pos, n := s.c.pos, |s.ring|;
    assert s.blocks[s.ring[pos]].next == s.ring[Succ(pos, n)];
    if pos + 1 < n {
      assert s.ring[0] != s.ring[pos + 1];
    }
  }

  lemma DrainSums<T>(s: State<T>)
    requires Inv(s) && Typed(s) && s.p.PClosed? && s.c.CSizeNext?
    ensures Closer(s, ConsumerStep(s))
  {
    RoundEnds(s);
    TotalIsSize(s);
    SumsUp(s);
  }

  lemma SumsUp<T>(s: State<T>)
    requires Typed(s) && s.c.CSizeNext? && s.c.pos < |s.ring|
    requires s.blocks[s.c.at].next == s.frontBlock <==> s.c.pos + 1 == |s.ring|
    requires s.c.pos + 1 == |s.ring| ==> s.c.count == Left(s)
    ensures Closer(s, ConsumerStep(s))
  {
  }

  lemma DrainLoops<T>(s: State<T>)
    requires Inv(s) && Typed(s) && s.p.PClosed? && !InPop(s.c) && !s.c.CExited? && !s.c.CSizeNext?
    ensures Closer(s, ConsumerStep(s))
  {
  }

  lemma DrainStep<T>(s: State<T>)
    requires Inv(s) && Typed(s) && s.p.PClosed? && !s.c.CExited?
    ensures Closer(s, ConsumerStep(s))
  {
    if s.c.CCheckTail? {
      DrainLooks(s);
    } else if s.c.CCheckTailBlock? {
      DrainCompares(s);
    } else if s.c.CStoreFront? {
      DrainTakes(s);
    } else if InPop(s.c) {
      DrainPops(s);
    } else if s.c.CSizeNext? {
      DrainSums(s);
    } else {
      DrainLoops(s);
    }
  }

  /** n more steps of the consumer. */
  ghost function After<T>(s: State<T>, n: nat): State<T>
    decreases n
  {
    if n == 0 || !Typed(s) || s.c.CExited? then s else After(ConsumerStep(s), n - 1)
  }

  lemma {:induction false} DrainEnds<T>(s: State<T>) returns (n: nat)
    requires Inv(s) && s.p.PClosed?
    ensures After(s, n).c.CExited? && After(s, n).deq == s.enq
    decreases Left(s), LoopPlace(s)
  {
    InvTyped(s);
    if s.c.CExited? {
      n := 0;
    } else {
      DrainStep(s);
      ConsumerInv(s);
      ConsumerKeepsProducer(s);
      ConsumerKeepsEnq(s);
      n := DrainEnds(ConsumerStep(s));
      n := n + 1;
    }
  }

  /** Once the producer has closed nothing but the consumer moves, and its loop ends after finitely many steps, with
      every element handled. */
  lemma ShutdownEnds<T(!new)>(run: seq<State<T>>, maxBlock: nat, size: nat, k: nat) returns (n: nat)
    requires Run(run, maxBlock, size) && Usable(size) && k < |run| && run[k].p.PClosed?
    ensures After(run[k], n).c.CExited? && After(run[k], n).deq == run[k].enq
    ensures forall s' :: Next(run[k], s') ==> !run[k].c.CExited? && s' == ConsumerStep(run[k])
  {
    RunInv(run, maxBlock, size, k);
    n := DrainEnds(run[k]);
  }
}
