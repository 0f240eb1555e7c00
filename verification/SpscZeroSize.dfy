/** The queue is safe exactly when it was constructed for at least one element and fewer than 2^63. For size 0 the
    constructor makes a block of one slot, in which a stored element is invisible, and allocating enqueues can bring the
    producer back to that block. From 2^63 on the rounding wraps to 0 and it makes a block of no slots. */
module SpscZeroSize {
  import opened Bits
  import opened RingBlock
  import opened SpscQueue
  import opened SpscInvariant
  import opened SpscTheorems
  import opened Traces

  lemma InvAsserts<T>(s: State<T>)
    requires Inv(s)
    ensures AssertsHold(s)
  {
    InvTyped(s);
    if s.p.PLoadNextFront? { LoadNextFrontStep(s); }
    if s.c.CLoadNextTail? { LoadNextTailStep(s); }
  }

  lemma {:induction false} Extend<T(!new)>(run: seq<State<T>>, maxBlock: nat, s: State<T>) returns (run': seq<State<T>>)
    requires Run(run, maxBlock, 0) && Next(run[|run| - 1], s)
    ensures Run(run', maxBlock, 0) && run'[|run'| - 1] == s
  {
    run' := run + [s];
    forall i, j | 0 <= i && j == i + 1 < |run'|
      ensures Steps<T>()(run'[i], run'[j])
    {
      if j < |run| { assert Steps<T>()(run[i], run[j]); }
    }
  }

  lemma Produce<T(!new)>(run: seq<State<T>>, maxBlock: nat) returns (run': seq<State<T>>)
    requires Run(run, maxBlock, 0)
    requires var s := run[|run| - 1]; Typed(s) && !s.p.PIdle? && !s.p.PClosed?
    ensures Run(run', maxBlock, 0) && run'[|run'| - 1] == ProducerStep(run[|run| - 1])
  {
    run' := Extend(run, maxBlock, ProducerStep(run[|run| - 1]));
  }

  lemma Consume<T(!new)>(run: seq<State<T>>, maxBlock: nat) returns (run': seq<State<T>>)
    requires Run(run, maxBlock, 0)
    requires var s := run[|run| - 1]; Typed(s) && !s.c.CExited?
    ensures Run(run', maxBlock, 0) && run'[|run'| - 1] == ConsumerStep(run[|run| - 1])
  {
    run' := Extend(run, maxBlock, ConsumerStep(run[|run| - 1]));
  }

  ghost function Last<A>(q: seq<A>): A
    requires q != []
  {
    q[|q| - 1]
  }

  // The one-slot block (block 0) and the two-slot block made by the first enqueue (block 1).
  ghost function Slot1<T>(x: T, next: nat): Block<T> {
    Block(1, [x], 0, 0, 0, 0, next)
  }

  ghost function Slot2<T>(x: T, front: nat, localTail: nat): Block<T> {
    Block(2, [x, x], front, 1, 0, localTail, 0)
  }

  ghost function Start<T>(maxBlock: nat, x: T): State<T> {
    State(maxBlock, [Slot1(x, 0)], 0, 0, 1, false, PIdle, CTop, false, [0], 0, [[]], [], [])
  }

  // After the first enqueue: block 1 holds x and is the tail block.
  ghost function Grown<T>(maxBlock: nat, x: T): State<T> {
    State(maxBlock, [Slot1(x, 1), Slot2(x, 0, 1)], 0, 1, 2, false, PIdle, CTop, false, [0, 1], 1, [[], [x]], [x], [])
  }

  // The consumer has advanced to block 1 but not yet taken x.
  ghost function Advanced<T>(maxBlock: nat, x: T): State<T> {
    State(maxBlock, [Slot1(x, 1), Slot2(x, 0, 1)], 1, 1, 2, false, PIdle, CRead(0), false,
          [1, 0], 0, [[], [x]], [x], [])
  }

  // The second enqueue found block 1 full and went back to block 0.
  ghost function Hopped<T>(maxBlock: nat, x: T): State<T> {
    State(maxBlock, [Slot1(x, 1), Slot2(x, 0, 1)], 1, 0, 2, false, PIdle, CRead(0), false,
          [1, 0], 1, [[x], [x]], [x, x], [])
  }

  // x is taken; block 1 is empty and block 0, the tail block, looks empty.
  ghost function Taken<T>(maxBlock: nat, x: T): State<T> {
    Hopped(maxBlock, x).(blocks := [Slot1(x, 1), Slot2(x, 1, 1)], held := [[x], []], deq := [x])
  }

  lemma CeilOne()
    ensures IsCeilPow2(1, 1)
  {
    assert Pow2(0) == 1;
  }

  lemma Begin<T(!new)>(maxBlock: nat, x: T) returns (run: seq<State<T>>)
    requires maxBlock >= 2
    ensures Run(run, maxBlock, 0) && Last(run) == Start(maxBlock, x)
  {
    CeilOne();
    assert RoundsTo(Word(0 + 1), 1);
    assert LayoutFrom(maxBlock, 0, 1, 1, 1);
    run := [Start(maxBlock, x)];
    assert Start(maxBlock, x).ring == seq(1, i => i);
    assert Start(maxBlock, x).held == seq(1, i => []);
    assert Init(run[0], maxBlock, 0);
  }

  lemma EnqueueFull<T(!new)>(run: seq<State<T>>, maxBlock: nat, x: T) returns (run': seq<State<T>>)
    requires Run(run, maxBlock, 0) && Last(run) == Start(maxBlock, x)
    ensures Run(run', maxBlock, 0) && Last(run') == Start(maxBlock, x).(p := PLink(x))
  {
    run' := Extend(run, maxBlock, StartEnqueue(Start(maxBlock, x), x, CanAlloc));
    assert Last(run') == Start(maxBlock, x).(p := PCheckFront(x, CanAlloc, 0));
    run' := Produce(run', maxBlock);
    assert Last(run') == Start(maxBlock, x).(p := PCheckNext(x, CanAlloc));
    run' := Produce(run', maxBlock);
  }

  lemma EnqueueAllocates<T(!new)>(run: seq<State<T>>, maxBlock: nat, x: T) returns (run': seq<State<T>>)
    requires maxBlock >= 2 && Run(run, maxBlock, 0) && Last(run) == Start(maxBlock, x).(p := PLink(x))
    ensures Run(run', maxBlock, 0) && Last(run') == Grown(maxBlock, x)
  {
    run' := Produce(run, maxBlock);
    assert seq(2, i => x) == [x, x];
    assert Last(run') == Grown(maxBlock, x).(tailBlock := 0, tailPos := 0, p := PHop(x, 1), enq := []);
    run' := Produce(run', maxBlock);
  }

  lemma LookInFirstBlock<T(!new)>(run: seq<State<T>>, maxBlock: nat, x: T) returns (run': seq<State<T>>)
    requires Run(run, maxBlock, 0) && Last(run) == Grown(maxBlock, x)
    ensures Run(run', maxBlock, 0) && Last(run') == Grown(maxBlock, x).(c := CCheckTailBlock(0))
  {
    run' := Consume(run, maxBlock);
    assert Last(run') == Grown(maxBlock, x).(c := CPop);
    run' := Consume(run', maxBlock);
    assert Last(run') == Grown(maxBlock, x).(c := CCheckTail(0));
    run' := Consume(run', maxBlock);
  }

  lemma LookAgain<T(!new)>(run: seq<State<T>>, maxBlock: nat, x: T) returns (run': seq<State<T>>)
    requires Run(run, maxBlock, 0) && Last(run) == Grown(maxBlock, x).(c := CCheckTailBlock(0))
    ensures Run(run', maxBlock, 0) && Last(run') == Grown(maxBlock, x).(c := CLoadNextTail(1))
  {
    run' := Consume(run, maxBlock);
    assert Last(run') == Grown(maxBlock, x).(c := CReloadTail);
    run' := ReloadFirst(run', maxBlock, x);
    run' := Consume(run', maxBlock);
  }

  lemma ReloadFirst<T(!new)>(run: seq<State<T>>, maxBlock: nat, x: T) returns (run': seq<State<T>>)
    requires Run(run, maxBlock, 0) && Last(run) == Grown(maxBlock, x).(c := CReloadTail)
    ensures Run(run', maxBlock, 0) && Last(run') == Grown(maxBlock, x).(c := CLoadNext)
  {
    run' := Consume(run, maxBlock);
  }

  lemma AdvanceToSecond<T(!new)>(run: seq<State<T>>, maxBlock: nat, x: T) returns (run': seq<State<T>>)
    requires Run(run, maxBlock, 0) && Last(run) == Grown(maxBlock, x).(c := CLoadNextTail(1))
    ensures Run(run', maxBlock, 0) && Last(run') == Advanced(maxBlock, x)
  {
    run' := Consume(run, maxBlock);
    assert Last(run') == Grown(maxBlock, x).(c := CAdvance(1, 0));
    run' := Consume(run', maxBlock);
  }

  lemma SecondIsFull<T(!new)>(run: seq<State<T>>, maxBlock: nat, x: T) returns (run': seq<State<T>>)
    requires Run(run, maxBlock, 0) && Last(run) == Advanced(maxBlock, x)
    ensures Run(run', maxBlock, 0) && Last(run') == Advanced(maxBlock, x).(p := PLoadNextFront(x))
  {
    run' := Extend(run, maxBlock, StartEnqueue(Advanced(maxBlock, x), x, CanAlloc));
    assert Last(run') == Advanced(maxBlock, x).(p := PCheckFront(x, CanAlloc, 0));
    run' := Produce(run', maxBlock);
    assert Last(run') == Advanced(maxBlock, x).(p := PCheckNext(x, CanAlloc));
    run' := Produce(run', maxBlock);
  }

  lemma SameBlock<T>(maxBlock: nat, x: T)
    ensures WriteSlot(Slot1(x, 1), x) == Slot1(x, 1)
    ensures Advanced(maxBlock, x).blocks[0 := Slot1(x, 1)] == Advanced(maxBlock, x).blocks
    ensures SetHeld([[], [x]], 0, HeldBy([[], [x]], 0) + [x]) == [[x], [x]]
  {
    assert [x][0 := x] == [x];
    var none: seq<T> := [];
    assert none + [x] == [x];
  }

  lemma ReloadBlock0<T(!new)>(run: seq<State<T>>, maxBlock: nat, x: T) returns (run': seq<State<T>>)
    requires Run(run, maxBlock, 0) && Last(run) == Advanced(maxBlock, x).(p := PLoadNextFront(x))
    ensures Run(run', maxBlock, 0) && Last(run') == Advanced(maxBlock, x).(p := PWriteNext(x, 0, 0))
  {
    SameBlock(maxBlock, x);
    run' := Produce(run, maxBlock);
  }

  lemma WriteBack<T(!new)>(run: seq<State<T>>, maxBlock: nat, x: T) returns (run': seq<State<T>>)
    requires Run(run, maxBlock, 0) && Last(run) == Advanced(maxBlock, x).(p := PWriteNext(x, 0, 0))
    ensures Run(run', maxBlock, 0) && Last(run') == Advanced(maxBlock, x).(p := PPublishNext(x, 0, 0))
  {
    SameBlock(maxBlock, x);
    run' := Produce(run, maxBlock);
  }

  lemma PublishBack<T(!new)>(run: seq<State<T>>, maxBlock: nat, x: T) returns (run': seq<State<T>>)
    requires Run(run, maxBlock, 0) && Last(run) == Advanced(maxBlock, x).(p := PPublishNext(x, 0, 0))
    ensures Run(run', maxBlock, 0) && Last(run') == Advanced(maxBlock, x).(p := PHop(x, 0), held := [[x], [x]])
  {
    SameBlock(maxBlock, x);
    run' := Produce(run, maxBlock);
  }

  lemma HopBack<T(!new)>(run: seq<State<T>>, maxBlock: nat, x: T) returns (run': seq<State<T>>)
    requires Run(run, maxBlock, 0) && Last(run) == Advanced(maxBlock, x).(p := PHop(x, 0), held := [[x], [x]])
    ensures Run(run', maxBlock, 0) && Last(run') == Hopped(maxBlock, x)
  {
    run' := Produce(run, maxBlock);
  }

  lemma TakeFirst<T(!new)>(run: seq<State<T>>, maxBlock: nat, x: T) returns (run': seq<State<T>>)
    requires Run(run, maxBlock, 0) && Last(run) == Hopped(maxBlock, x)
    ensures Run(run', maxBlock, 0) && Last(run') == Taken(maxBlock, x).(c := CEnd(true))
  {
    run' := Consume(run, maxBlock);
    assert Last(run') == Hopped(maxBlock, x).(c := CStoreFront(0, x));
    run' := Consume(run', maxBlock);
  }

  lemma PopAgain<T(!new)>(run: seq<State<T>>, maxBlock: nat, x: T) returns (run': seq<State<T>>)
    requires Run(run, maxBlock, 0) && Last(run) == Taken(maxBlock, x).(c := CEnd(true))
    ensures Run(run', maxBlock, 0) && Last(run') == Taken(maxBlock, x).(c := CCheckTail(1))
  {
    run' := Consume(run, maxBlock);
    assert Last(run') == Taken(maxBlock, x).(c := CTop);
    run' := Consume(run', maxBlock);
    assert Last(run') == Taken(maxBlock, x).(c := CPop);
    run' := Consume(run', maxBlock);
  }

  lemma LookBehind<T(!new)>(run: seq<State<T>>, maxBlock: nat, x: T) returns (run': seq<State<T>>)
    requires Run(run, maxBlock, 0) && Last(run) == Taken(maxBlock, x).(c := CCheckTail(1))
    ensures Run(run', maxBlock, 0) && Last(run') == Taken(maxBlock, x).(c := CReloadTail)
  {
    run' := Consume(run, maxBlock);
    assert Last(run') == Taken(maxBlock, x).(c := CCheckTailBlock(1));
    run' := Consume(run', maxBlock);
  }

  lemma ReachAssert<T(!new)>(run: seq<State<T>>, maxBlock: nat, x: T) returns (run': seq<State<T>>)
    requires Run(run, maxBlock, 0) && Last(run) == Taken(maxBlock, x).(c := CReloadTail)
    ensures Run(run', maxBlock, 0) && Last(run') == Taken(maxBlock, x).(c := CLoadNextTail(0))
  {
    run' := Consume(run, maxBlock);
    assert Last(run') == Taken(maxBlock, x).(c := CLoadNext);
    run' := Consume(run', maxBlock);
  }

  lemma ToAdvanced<T(!new)>(maxBlock: nat, x: T) returns (run: seq<State<T>>)
    requires maxBlock >= 2
    ensures Run(run, maxBlock, 0) && Last(run) == Advanced(maxBlock, x)
  {
    run := Begin(maxBlock, x);
    run := EnqueueFull(run, maxBlock, x);
    run := EnqueueAllocates(run, maxBlock, x);
    run := LookInFirstBlock(run, maxBlock, x);
    run := LookAgain(run, maxBlock, x);
    run := AdvanceToSecond(run, maxBlock, x);
  }

  lemma ToHopped<T(!new)>(maxBlock: nat, x: T) returns (run: seq<State<T>>)
    requires maxBlock >= 2
    ensures Run(run, maxBlock, 0) && Last(run) == Hopped(maxBlock, x)
  {
    run := ToAdvanced(maxBlock, x);
    run := SecondIsFull(run, maxBlock, x);
    run := ReloadBlock0(run, maxBlock, x);
    run := WriteBack(run, maxBlock, x);
    run := PublishBack(run, maxBlock, x);
    run := HopBack(run, maxBlock, x);
  }

  /** A queue constructed for no elements reaches a state where the consumer's assert fails. */
  lemma ZeroSizeBreaks<T(!new)>(maxBlock: nat, x: T) returns (run: seq<State<T>>)
    requires maxBlock >= 2
    ensures Run(run, maxBlock, 0) && !AssertsHold(Last(run))
  {
    run := ToHopped(maxBlock, x);
    run := TakeFirst(run, maxBlock, x);
    run := PopAgain(run, maxBlock, x);
    run := LookBehind(run, maxBlock, x);
    run := ReachAssert(run, maxBlock, x);
    AssertFails(Last(run));
  }

  lemma AssertFails<T>(s: State<T>)
    requires Typed(s) && s.c.CLoadNextTail? && s.blocks[s.c.nb].front == s.blocks[s.c.nb].tail
    ensures !AssertsHold(s)
  {
  }

  /** In every reachable state indices lie inside their blocks and both asserts hold. */
  ghost predicate Safe(maxBlock: nat, size: nat) {
    forall run: seq<State<int>>, k :: Run(run, maxBlock, size) && 0 <= k < |run| ==>
        Typed(run[k]) && AssertsHold(run[k])
  }

  // The block of no slots that a size of 2^63 or more leaves the queue with.
  ghost function NoSlots(maxBlock: nat): State<int> {
    State(maxBlock, [Block(0, [], 0, 0, 0, 0, 0)], 0, 0, 0, false, PIdle, CTop, false, [0], 0, [[]], [], [])
  }

  /** A queue constructed for 2^63 elements or more starts with a block that has no slot for its indices. */
  lemma HugeSizeBreaks(maxBlock: nat, size: nat) returns (run: seq<State<int>>)
    requires maxBlock >= 2 && HALF <= size < WORD
    ensures Run(run, maxBlock, size) && !Typed(run[0])
  {
    assert RoundsTo(Word(size + 1), 0);
    assert LayoutFrom(maxBlock, size, 0, 1, 0);
    run := [NoSlots(maxBlock)];
    assert run[0].ring == seq(1, i => i);
    assert run[0].held == seq(1, i => []);
    assert Init(run[0], maxBlock, size);
    assert !Shaped(run[0].blocks[0]);
  }

  /** The queue is safe if and only if it was constructed for at least one element and fewer than 2^63. */
  lemma AssertsIffSize(maxBlock: nat, size: nat)
    requires maxBlock >= 2 && size < WORD
    ensures Safe(maxBlock, size) <==> 1 <= size < HALF
  {
    if Usable(size) {
      forall run: seq<State<int>>, k | Run(run, maxBlock, size) && 0 <= k < |run|
        ensures Typed(run[k]) && AssertsHold(run[k])
      {
        RunInv(run, maxBlock, size, k);
        InvTyped(run[k]);
        InvAsserts(run[k]);
      }
    } else if size == 0 {
      var run := ZeroSizeBreaks(maxBlock, 0);
      assert !AssertsHold(run[|run| - 1]);
    } else {
      var run := HugeSizeBreaks(maxBlock, size);
      assert !Typed(run[0]);
    }
  }
}
