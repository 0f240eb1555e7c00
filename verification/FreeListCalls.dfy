/** What a try_get returns, over every run: a node that it took off the list, or null, and then the list was empty at
    some instant of the call. */
module FreeListCalls {
  import opened Common
  import opened FreeList
  import opened FreeListProof
  import opened Traces

  /** Inside try_get, or in adding a node on its way round the loop. */
  predicate InGet(pc: Pc) {
    match pc
    case GLoadHead => true
    case GLoadRefs(_) => true
    case GCasRefs(_, _) => true
    case GLoadNext(_) => true
    case GCasHead(_, _) => true
    case GDropBoth(_) => true
    case GDropOne(_, _) => true
    case KLoadHead(_, after) => after.Loop?
    case KSetNext(_, _, after) => after.Loop?
    case KSetRefs(_, _, after) => after.Loop?
    case KCasHead(_, _, after) => after.Loop?
    case KFailed(_, _, after) => after.Loop?
    case Idle => false
  }

  /** The thread has seen that the list is empty and will return null. */
  predicate SawNull(pc: Pc) {
    match pc
    case GDropOne(_, seen) => seen.None?
    case KLoadHead(_, after) => after == Loop(None)
    case KSetNext(_, _, after) => after == Loop(None)
    case KSetRefs(_, _, after) => after == Loop(None)
    case KCasHead(_, _, after) => after == Loop(None)
    case KFailed(_, _, after) => after == Loop(None)
    case _ => false
  }

  predicate SawNullAt(s: State, t: nat) {
    t < |s.threads| && SawNull(s.threads[t])
  }

  lemma NoHeadNoList(s: State)
    requires Inv(s)
    ensures s.head.None? <==> s.list == []
  {
  }

  /** How a thread comes to see it: its exchange of the head fails against null. */
  lemma EntersSawNull(s: State, t: nat)
    requires Typed(s) && t < |s.threads| && SawNull(Step(s, t).threads[t]) && !SawNull(s.threads[t])
    ensures s.threads[t].GCasHead? && s.head.None? && Step(s, t).head == s.head && Step(s, t).list == s.list
  {
  }

  /** How a try_get ends. */
  lemma EndsGet(s: State, t: nat)
    requires Typed(s) && t < |s.threads| && InGet(s.threads[t]) && Step(s, t).threads[t].Idle?
    ensures s.threads[t].GDropBoth? || (s.threads[t].GLoadHead? && s.head.None?) || SawNull(s.threads[t])
    ensures s.threads[t].GDropBoth? ==> Step(s, t).log == s.log + [Got(s.threads[t].h)]
  {
  }

  lemma StepThreads(s: State, u: nat)
    requires Typed(s) && u < |s.threads|
    ensures Step(s, u).threads == s.threads[u := Step(s, u).threads[u]]
  {
  }

  lemma OthersStay(s: State, s': State, u: nat, t: nat)
    requires Typed(s) && StepOf(s, s', u) && t < |s.threads|
    ensures |s'.threads| == |s.threads| && (t != u ==> s'.threads[t] == s.threads[t])
  {
    if !s.threads[u].Idle? {
      StepThreads(s, u);
    }
  }

  lemma SawNullBack(s: State, s': State, t: nat)
    requires Inv(s) && Inv(s') && Next(s, s') && SawNullAt(s', t)
    ensures SawNullAt(s, t) || s'.list == []
  {
    var u: nat :| StepOf(s, s', u);
    if u == t {
      if !SawNull(s.threads[t]) && !s.threads[t].Idle? {
        EntersSawNull(s, t);
        NoHeadNoList(s');
      }
    } else {
      OthersStay(s, s', u, u);
      OthersStay(s, s', u, t);
    }
  }

  /** A try_get of thread t that ends at step j hands out the node it took off the list, or the list was empty at an
      instant k of the call. */
  lemma GetOrEmpty(run: seq<State>, j: nat, t: nat) returns (k: nat)
    requires Trace(run, Starts(), Steps()) && j + 1 < |run| && t < |run[j].threads| && t < |run[j + 1].threads|
    requires InGet(run[j].threads[t]) && run[j + 1].threads[t].Idle?
    ensures k <= j
    ensures if run[j].threads[t].GDropBoth? then run[j + 1].log == run[j].log + [Got(run[j].threads[t].h)]
      else run[k].list == []
    ensures forall i :: k <= i <= j ==> t < |run[i].threads| && InGet(run[i].threads[t])
  {
    var s, s' := run[j], run[j + 1];
    k := j;
    RunInv(run, j);
    assert Steps()(s, s');
    var u: nat :| StepOf(s, s', u);
    OthersStay(s, s', u, t);
    EndsGet(s, t);
    NoHeadNoList(s);
    if SawNull(s.threads[t]) {
      k := NullSeen(run, j, t);
    }
  }

  lemma NullSeen(run: seq<State>, j: nat, t: nat) returns (k: nat)
    requires Trace(run, Starts(), Steps()) && j < |run| && SawNullAt(run[j], t)
    ensures k <= j && run[k].list == [] && forall i :: k <= i <= j ==> SawNullAt(run[i], t)
  {
    forall s | Starts()(s) ensures Inv(s) && !SawNullAt(s, t) { InitInv(s); }
    forall s, s' | Inv(s) && Steps()(s, s')
      ensures Inv(s') && (SawNullAt(s', t) ==> SawNullAt(s, t) || s'.list == [])
    {
      NextInv(s, s');
      if SawNullAt(s', t) { SawNullBack(s, s', t); }
    }
    k := LookBack(run, Starts(), Steps(), Inv, s => SawNullAt(s, t), (s: State) => s.list == [], j);
  }

  // ---------- a call that runs alone succeeds ----------

  /** n steps of thread t, or until it is idle. */
  ghost function Alone(s: State, t: nat, n: nat): State
    requires t < |s.threads|
    decreases n
  {
    if n == 0 || !Typed(s) || t >= |Step(s, t).threads| then s else Alone(Step(s, t), t, n - 1)
  }

  ghost predicate OthersIdle(s: State, t: nat) {
    t < |s.threads| && forall u: nat :: u < |s.threads| && u != t ==> s.threads[u].Idle?
  }

  lemma OneStep(s: State, t: nat, n: nat)
    requires Inv(s) && OthersIdle(s, t) && !s.threads[t].Idle? && n > 0
    ensures Inv(Step(s, t)) && OthersIdle(Step(s, t), t) && Alone(s, t, n) == Alone(Step(s, t), t, n - 1)
  {
    StepInv(s, t);
    StepThreads(s, t);
  }

  /** A node on the list, or with a caller, that no thread refers to. */
  lemma Unreferenced(s: State, t: nat, n: nat)
    requires Inv(s) && OthersIdle(s, t) && n < |s.nodes| && !Holding(s.threads[t], n)
    ensures s.status[n] == Listed ==> s.nodes[n].refs == 1
    ensures s.status[n] == Owned ==> s.nodes[n].refs == 0
  {
    assert Counted(s.nodes[n].refs, s.status[n], Getters(s.threads, n));
    assert Getters(s.threads, n) == {};
  }

  lemma TakesReference(s: State, t: nat)
    requires Inv(s) && OthersIdle(s, t) && s.threads[t] == GLoadHead && s.list != []
    ensures var s' := Alone(s, t, 3);
      && Alone(s, t, 6) == Alone(s', t, 3) && Inv(s') && OthersIdle(s', t) && s'.threads[t] == GLoadNext(s.list[0])
      && s'.list == s.list && s'.log == s.log
  {
    var h := s.list[0];
    Unreferenced(s, t, h);
    OneStep(s, t, 6);
    OneStep(s, t, 3);
    var s1 := Step(s, t);
    assert s1.threads[t] == GLoadRefs(h);
    OneStep(s1, t, 5);
    OneStep(s1, t, 2);
    var s2 := Step(s1, t);
    assert s2.threads[t] == GCasRefs(h, 1);
    OneStep(s2, t, 4);
    OneStep(s2, t, 1);
    assert Alone(Step(s2, t), t, 0) == Step(s2, t);
  }

  lemma Unlinks(s: State, t: nat, h: nat)
    requires Inv(s) && OthersIdle(s, t) && s.threads[t] == GLoadNext(h) && s.list != [] && s.list[0] == h
    ensures var s' := Alone(s, t, 3);
      Inv(s') && s'.threads[t].Idle? && s'.list == s.list[1..] && s'.log == s.log + [Got(h)]
  {
    OneStep(s, t, 3);
    var s1 := Step(s, t);
    assert s1.threads[t].GCasHead? && s1.head == Some(h);
    OneStep(s1, t, 2);
    var s2 := Step(s1, t);
    assert s2.threads[t] == GDropBoth(h);
    OneStep(s2, t, 1);
    assert Alone(Step(s2, t), t, 0) == Step(s2, t);
  }

  /** With no other thread under way a try_get takes the head of a list that is not empty, in six steps. */
  lemma LoneGetSucceeds(run: seq<State>, k: nat, t: nat)
    requires Trace(run, Starts(), Steps()) && k < |run| && OthersIdle(run[k], t)
    requires run[k].threads[t] == GLoadHead && run[k].list != []
    ensures var s, s' := run[k], Alone(run[k], t, 6);
      t < |s'.threads| && s'.threads[t].Idle? && s'.list == s.list[1..] && s'.log == s.log + [Got(s.list[0])]
  {
    RunInv(run, k);
    TakesReference(run[k], t);
    Unlinks(Alone(run[k], t, 3), t, run[k].list[0]);
  }

  lemma LoadsHead(s: State, t: nat, n: nat)
    requires Typed(s) && t < |s.threads| && s.threads[t] == KLoadHead(n, Return)
    ensures Step(s, t) == s.(threads := s.threads[t := KSetNext(n, s.head, Return)])
  {
  }

  lemma StoresNext(s: State, t: nat, n: nat)
    requires Typed(s) && t < |s.threads| && s.threads[t] == KSetNext(n, s.head, Return)
    ensures var s' := Step(s, t);
      s'.list == s.list && s'.head == s.head && s'.threads == s.threads[t := KSetRefs(n, s.head, Return)]
  {
  }

  lemma SetsNext(s: State, t: nat, n: nat)
    requires Inv(s) && OthersIdle(s, t) && s.threads[t] == KLoadHead(n, Return)
    ensures var s' := Alone(s, t, 2);
      && Alone(s, t, 4) == Alone(s', t, 2) && Inv(s') && OthersIdle(s', t)
          && s'.threads[t] == KSetRefs(n, s'.head, Return)
      && s'.list == s.list
  {
    var s1 := Step(s, t);
    OneStep(s, t, 4);
    OneStep(s, t, 2);
    LoadsHead(s, t, n);
    OneStep(s1, t, 3);
    OneStep(s1, t, 1);
    StoresNext(s1, t, n);
    assert Alone(Step(s1, t), t, 0) == Step(s1, t);
  }

  lemma Links(s: State, t: nat, n: nat)
    requires Inv(s) && OthersIdle(s, t) && s.threads[t] == KSetRefs(n, s.head, Return)
    ensures var s' := Alone(s, t, 2);
      t < |s'.threads| && s'.threads[t].Idle? && s'.list == [n] + s.list
  {
    OneStep(s, t, 2);
    var s1 := Step(s, t);
    assert s1.threads[t] == KCasHead(n, s1.head, Return) && s1.list == s.list;
    OneStep(s1, t, 1);
    assert Alone(Step(s1, t), t, 0) == Step(s1, t);
  }

  /** With no other thread under way an add puts its node at the head of the list, in five steps. */
  lemma LoneAddSucceeds(run: seq<State>, k: nat, t: nat, n: nat)
    requires Trace(run, Starts(), Steps()) && k < |run| && OthersIdle(run[k], t) && run[k].threads[t].Idle?
    requires Typed(run[k]) && n < |run[k].nodes| && run[k].status[n] == Owned
    ensures var s := Add(run[k], t, n);
      t < |s.threads| && var s' := Alone(s, t, 4);
      t < |s'.threads| && s'.threads[t].Idle? && s'.list == [n] + run[k].list
  {
    RunInv(run, k);
    var s := Add(run[k], t, n);
    Unreferenced(run[k], t, n);
    AddStep(run[k], t, n);
    SetsNext(s, t, n);
    Links(Alone(s, t, 2), t, n);
  }
}
