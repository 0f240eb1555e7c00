/** What a dequeue that fails has seen: every element published was spoken for, by a dequeue that took it, was under
    way, or gave its ticket back meanwhile. A dequeue that no other one overlaps fails only on an empty queue. */
module DequeueCalls {
  import opened Bits
  import opened OptimisticDequeue
  import opened Traces

  // ---------- tickets drawn, by what became of them ----------

  function UnsettledSet(q: seq<Ticket>, n: nat): set<nat>
    requires n <= |q|
  {
    if n == 0 then {}
    else if Settled(q[n - 1]) then UnsettledSet(q, n - 1)
    else UnsettledSet(q, n - 1) + {n - 1}
  }

  lemma {:induction false} UnsettledMembers(q: seq<Ticket>, n: nat)
    requires n <= |q|
    ensures forall k :: k in UnsettledSet(q, n) ==> k < n && !Settled(q[k])
  {
    if n > 0 { UnsettledMembers(q, n - 1); }
  }

  lemma {:induction false} UnsettledCount(q: seq<Ticket>, n: nat)
    requires n <= |q|
    ensures |UnsettledSet(q, n)| + Takes(q, n) + Returns(q, n) == n
  {
    if n > 0 {
      UnsettledCount(q, n - 1);
      assert n - 1 !in UnsettledSet(q, n - 1) by { UnsettledMembers(q, n - 1); }
      AddOne(UnsettledSet(q, n - 1), n - 1);
    }
  }

  /** Every ticket drawn was taken, was returned, or is held by a dequeue under way. */
  lemma OptIsSplit(s: State)
    requires Counted(s)
    ensures s.head + s.over <= s.opt <= s.head + s.over + Busy(s)
  {
    UnsettledCount(s.tickets, s.opt);
    UnsettledMembers(s.tickets, s.opt);
    forall k | k in UnsettledSet(s.tickets, s.opt)
      ensures k in HeldSet(s.threads)
    {
      var t: nat :| t < |s.threads| && HasTicket(s.threads[t]) && s.threads[t].my == k;
      HeldMember(s.threads, t);
    }
    SubsetSize(UnsettledSet(s.tickets, s.opt), HeldSet(s.threads));
  }

  // ---------- the counters only grow ----------

  lemma NextGrows(s: State, s': State)
    requires Next(s, s')
    ensures s.tail <= s'.tail && s.head <= s'.head && s.over <= s'.over && |s'.threads| == |s.threads|
  {
  }

  lemma {:induction false} RunGrows(run: seq<State>, i: nat, n: nat)
    requires Trace(run, Starts(), Steps()) && i <= n < |run|
    ensures run[i].tail <= run[n].tail && run[i].head <= run[n].head && run[i].over <= run[n].over
    ensures |run[i].threads| == |run[n].threads|
    decreases n
  {
    if i < n {
      RunGrows(run, i, n - 1);
      assert Steps()(run[n - 1], run[n]);
      NextGrows(run[n - 1], run[n]);
    }
  }

  // ---------- one call ----------

  ghost predicate SawTail(run: seq<State>, i: nat, n: nat, tail: nat) {
    n < |run| && exists a :: i <= a <= n && run[a].tail == tail
  }

  ghost predicate SawOver(run: seq<State>, i: nat, n: nat, over: nat) {
    n < |run| && exists b :: i <= b <= n && run[b].over == over
  }

  /** Thread t holds no ticket in state c. */
  predicate Free(s: State, t: nat) {
    t < |s.threads| && !HasTicket(s.threads[t])
  }

  ghost predicate DrewAt(run: seq<State>, i: nat, n: nat, t: nat, over: nat, my: nat) {
    n < |run| && exists c :: i <= c <= n && run[c].opt == my && over <= run[c].over && Free(run[c], t)
  }

  /** The tail read at a, the optimistic count at c and the overcommit count at b left nothing to take. */
  ghost predicate NothingLeft(run: seq<State>, i: nat, n: nat, t: nat, a: nat, b: nat, c: nat) {
    && i <= a <= n < |run| && i <= b <= n && i <= c <= n
    && Free(run[c], t) && run[a].tail <= run[c].opt - run[b].over
  }

  ghost predicate SawNothing(run: seq<State>, i: nat, n: nat, t: nat) {
    exists a, b, c :: NothingLeft(run, i, n, t, a, b, c)
  }

  /** What thread t knows at state n of a call that began at state i. */
  ghost predicate Knows(run: seq<State>, i: nat, n: nat, t: nat)
    requires n < |run| && t < |run[n].threads|
  {
    match run[n].threads[t]
    case Idle => true
    case LoadOver(tail) => SawTail(run, i, n, tail)
    case Test(tail, over) => SawTail(run, i, n, tail) && SawOver(run, i, n, over)
    case Bump(over) => SawOver(run, i, n, over)
    case Recheck(over, my) => SawOver(run, i, n, over) && DrewAt(run, i, n, t, over, my)
    case Claim(_) => true
    case GiveBack(_) => SawNothing(run, i, n, t)
  }

  lemma KnowsStill(run: seq<State>, i: nat, n: nat, t: nat)
    requires i <= n && n + 1 < |run| && t < |run[n].threads| && t < |run[n + 1].threads| && Knows(run, i, n, t)
    requires run[n + 1].threads[t] == run[n].threads[t]
    ensures Knows(run, i, n + 1, t)
  {
    if run[n].threads[t].GiveBack? {
      var a, b, c :| NothingLeft(run, i, n, t, a, b, c);
      assert NothingLeft(run, i, n + 1, t, a, b, c);
    }
  }

  /** A comparison that says "not less" is right about counts less than half a word apart. */
  lemma NotLessIsSound(a: int, b: int)
    requires b - a < HALF && !CircularLess(Word(a), Word(b))
    ensures a >= b
  {
    if a < b {
      CircularLessIsLess(a, b);
    }
  }

  /** Fewer than 2^63 elements are published by the end of the call and not taken at its beginning. */
  ghost predicate Small(run: seq<State>, i: nat, j: nat)
    requires i <= j < |run|
  {
    run[j].tail - run[i].head < HALF
  }

  lemma TestFails(run: seq<State>, i: nat, n: nat, t: nat)
    requires Trace(run, Starts(), Steps()) && i <= n < |run| && t < |run[n].threads| && run[n].threads[t].Test?
    requires Knows(run, i, n, t) && Small(run, i, n) && Step(run[n], t).threads[t].Idle?
    ensures SawNothing(run, i, n, t)
  {
    var s := run[n];
    var tail, over := s.threads[t].tail, s.threads[t].over;
    var a :| i <= a <= n && run[a].tail == tail;
    var b :| i <= b <= n && run[b].over == over;
    RunGrows(run, i, n);
    RunGrows(run, a, n);
    RunGrows(run, b, n);
    RunCounted(run, n);
    OptIsSplit(s);
    NotLessIsSound(s.opt - over, tail);
    assert NothingLeft(run, i, n, t, a, b, n);
  }

  lemma RecheckFails(run: seq<State>, i: nat, n: nat, t: nat)
    requires Trace(run, Starts(), Steps()) && i <= n < |run| && t < |run[n].threads| && run[n].threads[t].Recheck?
    requires Knows(run, i, n, t) && Small(run, i, n) && Step(run[n], t).threads[t].GiveBack?
    ensures SawNothing(run, i, n, t)
  {
    var s := run[n];
    var over, my := s.threads[t].over, s.threads[t].my;
    var b :| i <= b <= n && run[b].over == over;
    var c :| i <= c <= n && run[c].opt == my && over <= run[c].over && Free(run[c], t);
    RunGrows(run, i, c);
    RunCounted(run, c);
    OptIsSplit(run[c]);
    NotLessIsSound(my - over, s.tail);
    assert NothingLeft(run, i, n, t, n, b, c);
  }

  lemma MovedKnows(run: seq<State>, i: nat, n: nat, t: nat)
    requires Trace(run, Starts(), Steps()) && i <= n && n + 1 < |run| && t < |run[n].threads|
    requires run[n + 1] == Step(run[n], t) && Knows(run, i, n, t) && Small(run, i, n)
    requires !run[n + 1].threads[t].Idle?
    ensures Knows(run, i, n + 1, t)
  {
    var s := run[n];
    match s.threads[t] {
      case Idle => assert run[n].tail == s.tail;
      case LoadOver(tail) => assert run[n].over == s.over;
      case Bump(over) =>
        RunCounted(run, n);
        assert PcOk(s, s.threads[t]);
        assert run[n].opt == s.opt && Free(run[n], t);
      case Recheck(over, my) =>
        if run[n + 1].threads[t].GiveBack? {
          RecheckFails(run, i, n, t);
          var a, b, c :| NothingLeft(run, i, n, t, a, b, c);
          assert NothingLeft(run, i, n + 1, t, a, b, c);
        }
      case _ =>
    }
  }

  lemma OneMoves(s: State, s': State, t: nat)
    requires Next(s, s') && t < |s.threads|
    ensures t < |s'.threads| && (s'.threads[t] == s.threads[t] || s' == Step(s, t))
  {
  }

  /** A call of thread t that began at state i and has not ended by state n. */
  lemma {:induction false} CallKnows(run: seq<State>, i: nat, n: nat, t: nat)
    requires Trace(run, Starts(), Steps()) && i <= n < |run| && t < |run[i].threads| == |run[n].threads|
    requires run[i].threads[t].Idle? && Small(run, i, n)
    requires forall k :: i < k <= n ==> t < |run[k].threads| && !run[k].threads[t].Idle?
    ensures Knows(run, i, n, t)
    decreases n
  {
    if i < n {
      RunGrows(run, i, n - 1);
      RunGrows(run, n - 1, n);
      CallKnows(run, i, n - 1, t);
      assert Steps()(run[n - 1], run[n]);
      OneMoves(run[n - 1], run[n], t);
      if run[n].threads[t] == run[n - 1].threads[t] {
        KnowsStill(run, i, n - 1, t);
      } else {
        MovedKnows(run, i, n - 1, t);
      }
    }
  }

  /** Where a call ends, and what it did. */
  lemma CallEnds(s: State, t: nat)
    requires t < |s.threads| && !s.threads[t].Idle? && Step(s, t).threads[t].Idle?
    ensures s.threads[t].Test? || s.threads[t].GiveBack? || Step(s, t).head == s.head + 1
  {
  }

  /** Thread t is in one call from state i on, which ends after state j. */
  ghost predicate IsCall(run: seq<State>, i: nat, j: nat, t: nat) {
    && i < j && j + 1 < |run| && (forall k :: i <= k <= j + 1 ==> t < |run[k].threads|)
    && run[i].threads[t].Idle? && (forall k :: i < k <= j ==> !run[k].threads[t].Idle?) && run[j + 1].threads[t].Idle?
  }

  /** A dequeue either takes an index, or fails; and then, with c an instant of the call, the elements published at an
      instant a of it do not outnumber those taken by c, the other dequeues under way at c and the tickets given back
      between an instant b of the call and c. */
  lemma FailedDequeueSpokenFor(run: seq<State>, i: nat, j: nat, t: nat) returns (a: nat, b: nat, c: nat)
    requires Trace(run, Starts(), Steps()) && IsCall(run, i, j, t) && Small(run, i, j)
    requires run[j + 1].head == run[j].head
    ensures i <= a <= j && i <= b <= j && i <= c <= j && Free(run[c], t)
    ensures run[a].tail <= run[c].head + Busy(run[c]) + run[c].over - run[b].over
  {
    RunGrows(run, i, j);
    CallKnows(run, i, j, t);
    assert Steps()(run[j], run[j + 1]);
    OneMoves(run[j], run[j + 1], t);
    CallEnds(run[j], t);
    if run[j].threads[t].Test? {
      TestFails(run, i, j, t);
    }
    a, b, c :| NothingLeft(run, i, j, t, a, b, c);
    RunCounted(run, c);
    OptIsSplit(run[c]);
  }

  // ---------- a dequeue alone ----------

  /** No other thread holds a ticket. */
  ghost predicate Alone(s: State, t: nat) {
    forall u: nat :: u < |s.threads| && u != t ==> !HasTicket(s.threads[u])
  }

  lemma {:induction false} NobodyHolds(threads: seq<Pc>)
    requires forall u :: 0 <= u < |threads| ==> !HasTicket(threads[u])
    ensures HeldSet(threads) == {}
  {
    if threads != [] {
      NobodyHolds(threads[1..]);
    }
  }

  lemma AloneStep(s: State, s': State, t: nat)
    requires Next(s, s') && Alone(s, t) && t < |s.threads| && !s'.threads[t].Idle?
    ensures s'.head == s.head && s'.over == s.over
  {
  }

  lemma {:induction false} AloneKeeps(run: seq<State>, i: nat, n: nat, t: nat)
    requires Trace(run, Starts(), Steps()) && i <= n < |run| && t < |run[i].threads|
    requires forall k :: i <= k <= n ==> Alone(run[k], t)
    requires forall k :: i < k <= n ==> t < |run[k].threads| && !run[k].threads[t].Idle?
    ensures run[n].head == run[i].head && run[n].over == run[i].over
    decreases n
  {
    if i < n {
      AloneKeeps(run, i, n - 1, t);
      assert Steps()(run[n - 1], run[n]);
      AloneStep(run[n - 1], run[n], t);
    }
  }

  /** A dequeue that no other one overlaps with a ticket in hand fails only if the queue was empty at an instant of
      it. */
  lemma LoneFailureSawEmpty(run: seq<State>, i: nat, j: nat, t: nat) returns (k: nat)
    requires Trace(run, Starts(), Steps()) && IsCall(run, i, j, t) && Small(run, i, j)
    requires run[j + 1].head == run[j].head && forall n :: i <= n <= j ==> Alone(run[n], t)
    ensures i <= k <= j && run[k].tail <= run[k].head
  {
    var a, b, c := FailedDequeueSpokenFor(run, i, j, t);
    k := a;
    AloneKeeps(run, i, a, t);
    AloneKeeps(run, i, b, t);
    AloneKeeps(run, i, c, t);
    NobodyHolds(run[c].threads);
  }

  // ---------- a dequeue that fails beside an element ----------

  lemma Then(run: seq<State>, s: State)
    requires Trace(run, Starts(), Steps()) && Next(Last(run), s)
    ensures Trace(run + [s], Starts(), Steps())
  {
    var run' := run + [s];
    forall i, j | 0 <= i && j == i + 1 < |run'|
      ensures Steps()(run'[i], run'[j])
    {
      if j < |run| { assert Steps()(run[i], run[j]); }
    }
  }

  /** Thread 1 has taken the first element, thread 0 has drawn a ticket too late and not yet given it back, and a second
      element has been published. */
  ghost predicate OneIsLeft(s: State) {
    && s.tail == 2 && s.head == 1 && s.opt == 2 && s.over == 0 && |s.threads| == 3
    && s.threads[0] == GiveBack(1) && s.threads[1] == s.threads[2] == Idle
  }

  lemma DrawsTooLate(run: seq<State>) returns (run': seq<State>)
    requires MildRun(run, 1) && Last(run).threads == [Bump(0), Idle, Idle] && |Last(run).tickets| == Last(run).opt
    requires var s := Last(run); s.tail == s.head == s.opt == 1 && s.over == 0
    ensures MildRun(run', 1) && OneIsLeft(Last(run'))
  {
    var s := Last(run);
    CircularLessIsLess(1, 1);
    run' := Go(run, 1, 0);
    assert Last(run').threads == [Recheck(0, 1), Idle, Idle];
    run' := Go(run', 1, 0);
    assert Last(run').threads == [GiveBack(1), Idle, Idle];
    run' := Append(run', 1, Publish(Last(run')));
  }

  lemma ToOneIsLeft() returns (run: seq<State>)
    ensures Trace(run, Starts(), Steps()) && OneIsLeft(Last(run))
  {
    var s := State(0, 0, 0, 0, [Idle, Idle, Idle], []);
    run := [s];
    run := Append(run, 1, Publish(s));
    run := Enter(run, 1, 0);
    assert Last(run).threads == [Bump(0), Idle, Idle];
    run := Enter(run, 1, 1);
    assert Last(run).threads == [Bump(0), Bump(0), Idle];
    run := WinAndTake(run, 1, 1);
    assert Last(run).threads == [Bump(0), Idle, Idle];
    run := DrawsTooLate(run);
  }

  /** With other dequeues under way a failure does not mean that the queue was empty: here an element that nobody takes
      is there at every instant of a call of thread 2 that fails. */
  lemma FailureBesideElement() returns (run: seq<State>, i: nat, j: nat)
    ensures Trace(run, Starts(), Steps()) && IsCall(run, i, j, 2) && Small(run, i, j)
    ensures run[j + 1].head == run[j].head
    ensures forall k :: i <= k <= j + 1 ==> run[k].tail == 2 && run[k].head == 1
  {
    var run0 := ToOneIsLeft();
    var s0 := Last(run0);
    var s1 := Step(s0, 2);
    var s2 := Step(s1, 2);
    CircularLessIsLess(2, 2);
    var s3 := Step(s2, 2);
    Then(run0, s1);
    Then(run0 + [s1], s2);
    Then(run0 + [s1] + [s2], s3);
    run, i, j := run0 + [s1] + [s2] + [s3], |run0| - 1, |run0| + 1;
    assert run[i] == s0 && run[i + 1] == s1 && run[j] == s2 && run[j + 1] == s3;
  }
}
