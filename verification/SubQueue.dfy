/** One producer's subqueue as a whole: the dequeue counters and the block index in one machine. A consumer decides by
    the counters, takes an index from headIndex without any further test, looks its block up and takes the element. */
module SubQueue {
  import opened Bits
  import opened Traces
  import Counters = OptimisticDequeue
  import Blocks = BlockIndex
  import Proof = BlockIndexProof

  datatype State = State(counters: Counters.State, blocks: Blocks.State)

  ghost predicate Init(s: State) {
    Counters.Init(s.counters) && Blocks.Init(s.blocks) && |s.counters.threads| == |s.blocks.threads|
  }

  /** The producer publishes to both at once: the tail index is one word. */
  ghost predicate Produces(s: State, s': State) {
    && Blocks.ProducerNext(s.blocks, s'.blocks)
    && s'.counters == if s.blocks.producer.Publish? then Counters.Publish(s.counters) else s.counters
  }

  /** headIndex.fetch_add, with no guard. */
  ghost function Claimed(b: Blocks.State, t: nat): Blocks.State
    requires t < |b.threads|
  {
    Blocks.Goto(b, t, Blocks.LoadHeader(b.head)).(head := b.head + 1)
  }

  ghost predicate Consumes(s: State, s': State, t: nat)
    requires t < |s.blocks.threads| && t < |s.counters.threads|
  {
    if !s.blocks.threads[t].Away? then
      Blocks.ConsumerNext(s.blocks, s'.blocks, t) && s'.counters == s.counters
    else
      && s'.counters == Counters.Step(s.counters, t)
      && s'.blocks == if s.counters.threads[t].Claim? then Claimed(s.blocks, t) else s.blocks
  }

  ghost predicate ConsumesSome(s: State, s': State) {
    exists t: nat :: t < |s.blocks.threads| && t < |s.counters.threads| && Consumes(s, s', t)
  }

  ghost predicate Next(s: State, s': State) {
    Produces(s, s') || ConsumesSome(s, s')
  }

  // ---------- the two machines in step ----------

  ghost predicate InStep(s: State) {
    && s.counters.tail == |s.blocks.enq| && s.counters.head == s.blocks.head
    && |s.counters.threads| == |s.blocks.threads|
  }

  ghost predicate Inv(s: State) {
    Counters.Inv(s.counters) && Proof.Inv(s.blocks) && InStep(s)
  }

  /** The failed dequeues and the other threads number at most 2^63. */
  ghost predicate Modest(s: State) {
    s.counters.over + |s.counters.threads| <= HALF + 1
  }

  lemma ModestIsCalm(s: State)
    requires Modest(s)
    ensures Counters.Calm(s.counters)
  {
    Counters.FewThreads(s.counters);
  }

  lemma CountersFollow(s: State, s': State)
    requires Next(s, s') && Counters.Counted(s.counters)
    ensures s'.counters == s.counters || Counters.Next(s.counters, s'.counters)
    ensures Counters.Counted(s'.counters) && (Modest(s') ==> Modest(s))
  {
    if s'.counters != s.counters {
      if Produces(s, s') {
        assert Counters.Next(s.counters, s'.counters);
      } else {
        var t: nat :| t < |s.blocks.threads| && t < |s.counters.threads| && Consumes(s, s', t);
        assert s'.counters == Counters.Step(s.counters, t);
      }
      Counters.NextCounted(s.counters, s'.counters);
    }
  }

  lemma EnqueuedBy(b: Blocks.State, b': Blocks.State)
    requires Blocks.ProducerNext(b, b')
    ensures |b'.enq| == |b.enq| + (if b.producer.Publish? then 1 else 0) && b'.head == b.head && b'.threads == b.threads
  {
  }

  lemma ProduceKeeps(s: State, s': State)
    requires Inv(s) && Produces(s, s') && Modest(s)
    ensures Inv(s')
  {
    ModestIsCalm(s);
    EnqueuedBy(s.blocks, s'.blocks);
    Proof.ProducerKeeps(s.blocks, s'.blocks);
    if s'.counters != s.counters {
      Counters.NextInv(s.counters, s'.counters);
    }
  }

  lemma HeadMoves(c: Counters.State, t: nat)
    requires t < |c.threads|
    ensures var c' := Counters.Step(c, t);
      c'.tail == c.tail && |c'.threads| == |c.threads| && c'.head == c.head + (if c.threads[t].Claim? then 1 else 0)
  {
  }

  lemma LookupFrame(b: Blocks.State, b': Blocks.State, t: nat)
    requires t < |b.threads| && !b.threads[t].Away? && Blocks.ConsumerNext(b, b', t)
    ensures b'.enq == b.enq && b'.head == b.head && |b'.threads| == |b.threads|
  {
  }

  lemma ConsumeKeeps(s: State, s': State, t: nat)
    requires Inv(s) && Modest(s) && t < |s.blocks.threads| && t < |s.counters.threads| && Consumes(s, s', t)
    ensures Inv(s')
  {
    if !s.blocks.threads[t].Away? {
      LookupFrame(s.blocks, s'.blocks, t);
      Proof.ConsumerKeeps(s.blocks, s'.blocks, t);
    } else {
      ModestIsCalm(s);
      HeadMoves(s.counters, t);
      assert Counters.Next(s.counters, s'.counters);
      Counters.NextInv(s.counters, s'.counters);
      if s.counters.threads[t].Claim? {
        Counters.ClaimBelowTail(s.counters);
        assert Blocks.ConsumerNext(s.blocks, s'.blocks, t);
        Proof.ConsumerKeeps(s.blocks, s'.blocks, t);
      }
    }
  }

  ghost function Starts(): State -> bool { (s: State) => Init(s) }
  ghost function Steps(): (State, State) -> bool { (s: State, s': State) => Next(s, s') }

  lemma RunCounted(run: seq<State>, k: nat)
    requires Trace(run, Starts(), Steps()) && k < |run|
    ensures Counters.Counted(run[k].counters)
  {
    forall s: State, s': State | Counters.Counted(s.counters) && Steps()(s, s')
      ensures Counters.Counted(s'.counters)
    {
      CountersFollow(s, s');
    }
    Always(run, Starts(), Steps(), (s: State) => Counters.Counted(s.counters), k);
  }

  lemma {:induction false} RunInv(run: seq<State>, k: nat)
    requires Trace(run, Starts(), Steps()) && k < |run| && Modest(run[k])
    ensures Inv(run[k])
    decreases k
  {
    if k == 0 {
      Proof.InitInv(run[0].blocks);
    } else {
      var s, s' := run[k - 1], run[k];
      RunCounted(run, k - 1);
      assert Steps()(s, s');
      CountersFollow(s, s');
      RunInv(run, k - 1);
      if Produces(s, s') {
        ProduceKeeps(s, s');
      } else {
        var t: nat :| t < |s.blocks.threads| && t < |s.counters.threads| && Consumes(s, s', t);
        ConsumeKeeps(s, s', t);
      }
    }
  }

  /** From the counters to the element: in every interleaving of the producer and any number of consumers, each
      consumer that the counters let through takes an index that is published, gets the element enqueued under it, and
      no other consumer gets it again; with no dequeue under way every index taken has been delivered. */
  lemma EveryClaimDelivers(run: seq<State>, k: nat)
    requires Trace(run, Starts(), Steps()) && k < |run| && Modest(run[k])
    ensures Proof.DeliversOnce(run[k].blocks) && run[k].counters.tail == |run[k].blocks.enq|
    ensures forall t: nat :: t < |run[k].counters.threads| && run[k].counters.threads[t].Claim? ==>
      run[k].blocks.head < |run[k].blocks.enq|
  {
    RunInv(run, k);
    Proof.InvDelivers(run[k].blocks);
    Counters.ClaimBelowTail(run[k].counters);
  }

  /** Whichever index array a consumer of the whole machine loaded and however the indices have wrapped, it finds the
      block of the index that the counters gave it. */
  lemma ClaimFindsBlock(run: seq<State>, k: nat, t: nat)
    requires Trace(run, Starts(), Steps()) && k < |run| && Modest(run[k])
    requires t < |run[k].blocks.threads| && run[k].blocks.threads[t].Lookup?
    ensures Proof.FindsBlock(run[k].blocks, t)
  {
    RunInv(run, k);
    Proof.InvFinds(run[k].blocks, t);
  }

  /** No thread of the whole machine is ever stuck: every consumer can step, with its flag unset before it sets it,
      and so can the producer. */
  lemma NobodyStuck(run: seq<State>, k: nat, t: nat)
    requires Trace(run, Starts(), Steps()) && k < |run| && Modest(run[k])
    ensures exists s' :: Produces(run[k], s')
    ensures t < |run[k].blocks.threads| ==> t < |run[k].counters.threads| && exists s' :: Consumes(run[k], s', t)
    ensures t < |run[k].blocks.threads| && !run[k].blocks.threads[t].Away? ==> Proof.ConsumerGoesOn(run[k].blocks, t)
  {
    RunInv(run, k);
    ProducerGoesOn(run[k]);
    if t < |run[k].blocks.threads| {
      ConsumerGoesOn(run[k], t);
    }
  }

  lemma ProducerGoesOn(s: State)
    requires Inv(s)
    ensures exists s' :: Produces(s, s')
  {
    Proof.InvProduces(s.blocks);
    var b :| Blocks.ProducerNext(s.blocks, b);
    var c := if s.blocks.producer.Publish? then Counters.Publish(s.counters) else s.counters;
    assert Produces(s, State(c, b));
  }

  lemma ConsumerGoesOn(s: State, t: nat)
    requires Inv(s) && t < |s.blocks.threads|
    ensures t < |s.counters.threads| && exists s' :: Consumes(s, s', t)
    ensures !s.blocks.threads[t].Away? ==> Proof.ConsumerGoesOn(s.blocks, t)
  {
    if s.blocks.threads[t].Away? {
      var b := if s.counters.threads[t].Claim? then Claimed(s.blocks, t) else s.blocks;
      assert Consumes(s, State(Counters.Step(s.counters, t), b), t);
    } else {
      Proof.InvConsumes(s.blocks, t);
      var b :| Blocks.ConsumerNext(s.blocks, b, t);
      assert Consumes(s, State(s.counters, b), t);
    }
  }

  /** From every position in an enqueue, in every run of the whole machine, there is a way to its end that publishes the
      value, unless the index is full at its largest size. */
  lemma EnqueueCanSucceed(run: seq<State>, k: nat) returns (path: seq<Blocks.State>)
    requires Trace(run, Starts(), Steps()) && k < |run| && Modest(run[k])
    requires !run[k].blocks.producer.Idle? && !Proof.AtLimit(run[k].blocks)
    ensures Proof.IsEnqueue(path, run[k].blocks)
  {
    RunInv(run, k);
    path := Proof.EnqueueCanSucceed(run[k].blocks);
  }

  /** With the producer's oldest block drained, an enqueue that needs a block can do with that one. */
  lemma DrainedIsReused(run: seq<State>, k: nat) returns (path: seq<Blocks.State>)
    requires Trace(run, Starts(), Steps()) && k < |run| && Modest(run[k])
    requires var b := run[k].blocks;
      b.producer.Start? && |b.enq| % Blocks.BLOCK_SIZE == 0 && b.lo < |b.phys| && Proof.Drained(b, b.lo)
    ensures Proof.IsEnqueue(path, run[k].blocks) && |path| > 1 && path[1].mem == run[k].blocks.mem
  {
    RunInv(run, k);
    path := Proof.DrainedIsReused(run[k].blocks);
  }
}
