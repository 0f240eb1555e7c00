/** Safety of the free list over every run: reference counts are exact, a node is linked at most once, and it is
    handed out again only after it was given back. */
module FreeListProof {
  import opened Common
  import opened FreeList
  import opened Traces

  // ---------- counting references ----------

  /** The thread holds a counted reference to node n. */
  predicate Holding(pc: Pc, n: nat) {
    && (pc.GLoadNext? || pc.GCasHead? || pc.GDropBoth? || pc.GDropOne?)
    && pc.h == n
  }

  function Getters(threads: seq<Pc>, n: nat): set<nat> {
    set t: nat | t < |threads| && Holding(threads[t], n)
  }

  lemma GettersChange(threads: seq<Pc>, t: nat, pc: Pc, n: nat)
    requires t < |threads|
    ensures Holding(pc, n) ==> Getters(threads[t := pc], n) == Getters(threads, n) + {t}
    ensures !Holding(pc, n) ==> Getters(threads[t := pc], n) == Getters(threads, n) - {t}
    ensures t in Getters(threads, n) <==> Holding(threads[t], n)
  {
    if Holding(pc, n) {
      assert Getters(threads[t := pc], n) == Getters(threads, n) + {t};
    } else {
      assert Getters(threads[t := pc], n) == Getters(threads, n) - {t};
    }
  }

  lemma {:induction false} GettersBound(threads: seq<Pc>, n: nat)
    ensures |Getters(threads, n)| <= |threads|
  {
    if threads == [] {
      assert Getters(threads, n) == {};
    } else {
      var k := |threads| - 1;
      GettersBound(threads[..k], n);
      assert Getters(threads, n) <= Getters(threads[..k], n) + {k};
      assert Getters(threads[..k], n) == Getters(threads, n) - {k};
    }
  }

  /** What the reference word holds beside the in-flight getters: the list's or the adder's reference, or the mark. */
  function Base(st: Status): nat {
    match st
    case Owned => 0
    case Waiting => SHOULD_BE_ON_FREELIST
    case Claimed(_) => SHOULD_BE_ON_FREELIST
    case Linking(_) => 1
    case Listed => 1
    case Taken(_) => 1
  }

  // ---------- invariant ----------

  ghost predicate Counted(refs: nat, st: Status, getters: set<nat>) {
    && refs == Base(st) + |getters|
    && (st.Claimed? ==> getters == {})
    && (st.Waiting? ==> getters != {})
  }

  ghost predicate AllCounted(s: State)
    requires |s.status| == |s.nodes|
  {
    forall n: nat :: n < |s.nodes| ==> Counted(s.nodes[n].refs, s.status[n], Getters(s.threads, n))
  }

  /** What a thread in the middle of an operation knows. */
  ghost predicate PcOk(nodes: seq<Node>, status: seq<Status>, t: nat, pc: Pc)
    requires |status| == |nodes| && InRange(pc, |nodes|)
  {
    match pc
    case GCasRefs(h, refs) => Masked(refs) != 0
    case GCasHead(h, next) => next == nodes[h].next
    case GDropBoth(h) => status[h] == Taken(t)
    case KLoadHead(n, _) => status[n] == Claimed(t)
    case KSetNext(n, _, _) => status[n] == Claimed(t)
    case KSetRefs(n, head, _) => status[n] == Claimed(t) && nodes[n].next == head
    case KCasHead(n, head, _) => status[n] == Linking(t) && nodes[n].next == head
    case KFailed(n, _, _) => status[n] == Linking(t)
    case _ => true
  }

  ghost predicate AllPcOk(s: State)
    requires Typed(s)
  {
    forall t: nat :: t < |s.threads| ==> PcOk(s.nodes, s.status, t, s.threads[t])
  }

  /** A node in the middle of an operation is in the hands of a thread performing it. */
  ghost predicate Attended(st: Status, n: nat, threads: seq<Pc>) {
    match st
    case Claimed(t) => t < |threads| && (threads[t].KLoadHead? || threads[t].KSetNext? || threads[t].KSetRefs?)
        && threads[t].n == n
    case Linking(t) => t < |threads| && (threads[t].KCasHead? || threads[t].KFailed?) && threads[t].n == n
    case Taken(t) => t < |threads| && threads[t] == GDropBoth(n)
    case _ => true
  }

  ghost predicate AllAttended(s: State)
    requires |s.status| == |s.nodes|
  {
    forall n: nat :: n < |s.nodes| ==> Attended(s.status[n], n, s.threads)
  }

  function At(list: seq<nat>, i: nat): Option<nat> {
    if i < |list| then Some(list[i]) else None
  }

  /** From the head, the next pointers spell out `list`, which has no repetition and holds exactly the listed nodes. */
  ghost predicate Chain(nodes: seq<Node>, head: Option<nat>, list: seq<nat>, status: seq<Status>)
    requires |status| == |nodes|
  {
    && head == At(list, 0)
    && (forall i :: 0 <= i < |list| ==> list[i] < |nodes| && status[list[i]] == Listed)
    && (forall i, j :: 0 <= i < j < |list| ==> list[i] != list[j])
    && (forall i, j {:trigger list[i], At(list, j)} :: 0 <= i < |list| && j == i + 1 ==>
        nodes[list[i]].next == At(list, j))
    && (forall n: nat :: n < |nodes| && status[n] == Listed ==> n in list)
  }

  /** Between two hand-outs of a node there is a give-back, and a node not with a caller was given back last. */
  ghost predicate Alternates(log: seq<Event>, status: seq<Status>) {
    && (forall i, j :: 0 <= i < j < |log| && log[i].Got? && log[j] == log[i] ==> AddedBetween(log, i, j))
    && (forall i :: 0 <= i < |log| && log[i].Got? && log[i].n < |status| && status[log[i].n] != Owned ==>
        AddedBetween(log, i, |log|))
  }

  ghost predicate AddedBetween(log: seq<Event>, i: int, j: int)
    requires 0 <= i < |log| && j <= |log|
  {
    exists k :: i < k < j && log[k] == Added(log[i].n)
  }

  ghost predicate Inv(s: State) {
    && Typed(s) && |s.threads| + 1 < SHOULD_BE_ON_FREELIST
    && AllCounted(s) && AllPcOk(s) && AllAttended(s)
    && Chain(s.nodes, s.head, s.list, s.status)
    && Alternates(s.log, s.status)
  }

  lemma InitInv(s: State)
    requires Init(s)
    ensures Inv(s)
  {
    forall n: nat | n < |s.nodes|
      ensures Counted(s.nodes[n].refs, s.status[n], Getters(s.threads, n))
    {
      assert Getters(s.threads, n) == {};
    }
  }

  // ---------- one thread moves, at most one node changes ----------

  /** s' differs from s in thread t and in what is recorded about node n. */
  ghost predicate Local(s: State, s': State, t: nat, n: nat)
    requires Typed(s) && t < |s.threads|
  {
    && Typed(s') && |s'.nodes| == |s.nodes| && |s'.threads| == |s.threads| && n < |s.nodes|
    && s'.threads == s.threads[t := s'.threads[t]]
    && (forall m: nat :: m < |s.nodes| && m != n ==>
          s'.nodes[m] == s.nodes[m] && s'.status[m] == s.status[m] &&
          (Holding(s'.threads[t], m) <==> Holding(s.threads[t], m)))
  }

  lemma OthersCounted(s: State, s': State, t: nat, n: nat)
    requires Inv(s) && t < |s.threads| && Local(s, s', t, n)
    requires Counted(s'.nodes[n].refs, s'.status[n], Getters(s'.threads, n))
    ensures AllCounted(s')
  {
    forall m: nat | m < |s.nodes|
      ensures Counted(s'.nodes[m].refs, s'.status[m], Getters(s'.threads, m))
    {
      if m != n {
        GettersChange(s.threads, t, s'.threads[t], m);
        assert Getters(s'.threads, m) == Getters(s.threads, m);
        assert Counted(s.nodes[m].refs, s.status[m], Getters(s.threads, m));
      }
    }
  }

  // A thread other than t that relies on node n relies only on its status and its next pointer.
  lemma OthersPcOk(s: State, s': State, t: nat, n: nat)
    requires Inv(s) && t < |s.threads| && Local(s, s', t, n)
    requires PcOk(s'.nodes, s'.status, t, s'.threads[t])
    requires s'.nodes[n].next == s.nodes[n].next || Getters(s.threads, n) == {}
    requires s.status[n] != s'.status[n] || s.nodes[n].next != s'.nodes[n].next ==>
               s.status[n] in {Owned, Waiting, Listed, Claimed(t), Linking(t), Taken(t)}
    requires s.nodes[n].next != s'.nodes[n].next ==> s.status[n] == Claimed(t)
    ensures AllPcOk(s')
  {
    forall u: nat | u < |s'.threads|
      ensures PcOk(s'.nodes, s'.status, u, s'.threads[u])
    {
      if u != t {
        assert PcOk(s.nodes, s.status, u, s.threads[u]);
        assert u in Getters(s.threads, n) <==> Holding(s.threads[u], n);
      }
    }
  }

  lemma OthersAttended(s: State, s': State, t: nat, n: nat)
    requires Inv(s) && t < |s.threads| && Local(s, s', t, n)
    requires Attended(s'.status[n], n, s'.threads)
    requires forall m: nat :: m < |s.nodes| && m != n ==> s.status[m] !in {Claimed(t), Linking(t), Taken(t)}
    ensures AllAttended(s')
  {
    forall m: nat | m < |s'.nodes|
      ensures Attended(s'.status[m], m, s'.threads)
    {
      assert Attended(s.status[m], m, s.threads);
    }
  }

  // A thread working on no node, or on node n only, attends no other.
  lemma AttendsOne(s: State, t: nat, n: nat)
    requires Inv(s) && t < |s.threads|
    requires var pc := s.threads[t];
      pc.KLoadHead? || pc.KSetNext? || pc.KSetRefs? || pc.KCasHead? || pc.KFailed? ==> pc.n == n
    requires s.threads[t].GDropBoth? ==> s.threads[t].h == n
    ensures forall m: nat :: m < |s.nodes| && m != n ==> s.status[m] !in {Claimed(t), Linking(t), Taken(t)}
  {
    forall m: nat | m < |s.nodes| && m != n
      ensures s.status[m] !in {Claimed(t), Linking(t), Taken(t)}
    {
      assert Attended(s.status[m], m, s.threads);
    }
  }

  // ---------- steps that only move the thread ----------

  lemma QuietStep(s: State, t: nat, pc: Pc)
    requires Inv(s) && t < |s.threads| && InRange(pc, |s.nodes|)
    requires forall n: nat :: Holding(pc, n) <==> Holding(s.threads[t], n)
    requires PcOk(s.nodes, s.status, t, pc)
    requires forall n: nat :: n < |s.nodes| ==> Attended(s.status[n], n, s.threads[t := pc])
    ensures Inv(SetPc(s, t, pc))
  {
    var s' := SetPc(s, t, pc);
    forall n: nat | n < |s.nodes|
      ensures Counted(s'.nodes[n].refs, s'.status[n], Getters(s'.threads, n))
    {
      GettersChange(s.threads, t, pc, n);
      assert Getters(s'.threads, n) == Getters(s.threads, n);
      assert Counted(s.nodes[n].refs, s.status[n], Getters(s.threads, n));
    }
    forall u: nat | u < |s'.threads|
      ensures PcOk(s'.nodes, s'.status, u, s'.threads[u])
    {
      if u != t { assert PcOk(s.nodes, s.status, u, s.threads[u]); }
    }
  }

  // The thread is in none of the states that attend a node.
  lemma StillAttended(s: State, t: nat, pc: Pc)
    requires Inv(s) && t < |s.threads|
    requires var pre := s.threads[t];
      pre.Idle? || pre.GLoadHead? || pre.GLoadRefs? || pre.GCasRefs? || pre.GLoadNext? || pre.GCasHead?
    ensures forall n: nat :: n < |s.nodes| ==> Attended(s.status[n], n, s.threads[t := pc])
  {
    forall n: nat | n < |s.nodes|
      ensures Attended(s.status[n], n, s.threads[t := pc])
    {
      assert Attended(s.status[n], n, s.threads);
    }
  }

  lemma MoveStep(s: State, t: nat)
    requires Inv(s) && t < |s.threads|
    requires var pc := s.threads[t];
      || pc.GLoadHead? || pc.GLoadRefs? || pc.GLoadNext?
      || (pc.GCasRefs? && s.nodes[pc.h].refs != pc.refs)
      || (pc.GCasHead? && s.head != Some(pc.h))
    ensures Inv(Step(s, t))
  {
    var s' := Step(s, t);
    StillAttended(s, t, s'.threads[t]);
    QuietStep(s, t, s'.threads[t]);
  }

  lemma BeginStep(s: State, t: nat)
    requires Inv(s) && t < |s.threads| && s.threads[t].Idle?
    ensures Inv(BeginGet(s, t))
  {
    StillAttended(s, t, GLoadHead);
    QuietStep(s, t, GLoadHead);
  }

  // The adder moves on without changing the node: the node is still attended by it.
  lemma AdderMoves(s: State, t: nat)
    requires Inv(s) && t < |s.threads|
    requires var pc := s.threads[t]; pc.KLoadHead? || (pc.KCasHead? && s.head != pc.head)
    ensures Inv(Step(s, t))
  {
    var s' := Step(s, t);
    var pc := s'.threads[t];
    assert PcOk(s.nodes, s.status, t, s.threads[t]);
    forall n: nat | n < |s.nodes|
      ensures Attended(s.status[n], n, s.threads[t := pc])
    {
      assert Attended(s.status[n], n, s.threads);
    }
    QuietStep(s, t, pc);
  }

  // ---------- steps that change one node ----------

  lemma KeepLog(log: seq<Event>, status: seq<Status>, n: nat, st: Status)
    requires Alternates(log, status) && n < |status| && (status[n] != Owned || st == Owned)
    ensures Alternates(log, status[n := st])
  {
  }

  // Changing the count of a node, or the status of an unlisted node, does not disturb the chain.
  lemma KeepChain(nodes: seq<Node>, head: Option<nat>, list: seq<nat>, status: seq<Status>, n: nat, node: Node,
      st: Status)
    requires |status| == |nodes| && Chain(nodes, head, list, status) && n < |nodes|
    requires (status[n] == st && node.next == nodes[n].next) || (status[n] != Listed && st != Listed)
    ensures Chain(nodes[n := node], head, list, status[n := st])
  {
    var nodes', status' := nodes[n := node], status[n := st];
    forall i | 0 <= i < |list|
      ensures list[i] < |nodes'| && status'[list[i]] == Listed && nodes'[list[i]].next == At(list, i + 1)
    {
      assert nodes[list[i]].next == At(list, i + 1);
    }
  }

  lemma TakeReferenceCount(s: State, t: nat)
    requires Inv(s) && t < |s.threads| && s.threads[t].GCasRefs? && s.nodes[s.threads[t].h].refs == s.threads[t].refs
    ensures var s', n := Step(s, t), s.threads[t].h;
      Typed(s') && Counted(s'.nodes[n].refs, s'.status[n], Getters(s'.threads, n))
  {
    var s', n := Step(s, t), s.threads[t].h;
    assert PcOk(s.nodes, s.status, t, s.threads[t]);
    assert Counted(s.nodes[n].refs, s.status[n], Getters(s.threads, n));
    GettersChange(s.threads, t, s'.threads[t], n);
    GettersBound(s.threads, n);
  }

  lemma TakeReference(s: State, t: nat)
    requires Inv(s) && t < |s.threads| && s.threads[t].GCasRefs? && s.nodes[s.threads[t].h].refs == s.threads[t].refs
    ensures Inv(Step(s, t))
  {
    var s', n := Step(s, t), s.threads[t].h;
    TakeReferenceCount(s, t);
    assert s'.status == s.status[n := s.status[n]];
    OthersCounted(s, s', t, n);
    OthersPcOk(s, s', t, n);
    StillAttended(s, t, s'.threads[t]);
    KeepChain(s.nodes, s.head, s.list, s.status, n, s'.nodes[n], s.status[n]);
  }

  lemma UnlinkChain(nodes: seq<Node>, head: Option<nat>, list: seq<nat>, status: seq<Status>, n: nat, st: Status)
    requires |status| == |nodes| && Chain(nodes, head, list, status) && head == Some(n) && st != Listed
    ensures list != [] && list[0] == n && n < |nodes| && status[n] == Listed
    ensures Chain(nodes, nodes[n].next, list[1..], status[n := st])
  {
    assert nodes[list[0]].next == At(list, 1);
    var rest, status' := list[1..], status[n := st];
    forall i | 0 <= i < |rest|
      ensures rest[i] < |nodes| && status'[rest[i]] == Listed && nodes[rest[i]].next == At(rest, i + 1)
    {
      assert nodes[list[i + 1]].next == At(list, i + 2);
    }
  }

  lemma WinHead(s: State, t: nat)
    requires Inv(s) && t < |s.threads| && s.threads[t].GCasHead? && s.head == Some(s.threads[t].h)
    ensures Inv(Step(s, t))
  {
    var s', n := Step(s, t), s.threads[t].h;
    assert PcOk(s.nodes, s.status, t, s.threads[t]);
    UnlinkChain(s.nodes, s.head, s.list, s.status, n, Taken(t));
    SameGetters(s, t, n, s'.threads[t]);
    OthersCounted(s, s', t, n);
    OthersPcOk(s, s', t, n);
    AttendsOne(s, t, n);
    OthersAttended(s, s', t, n);
    KeepLog(s.log, s.status, n, Taken(t));
  }

  lemma GotLog(log: seq<Event>, status: seq<Status>, n: nat)
    requires Alternates(log, status) && n < |status| && status[n] != Owned
    ensures Alternates(log + [Got(n)], status[n := Owned])
  {
    var log' := log + [Got(n)];
    forall i, j | 0 <= i < j < |log'| && log'[i].Got? && log'[j] == log'[i]
      ensures AddedBetween(log', i, j)
    {
      if j < |log| {
        assert AddedBetween(log, i, j);
        var k :| i < k < j && log[k] == Added(log[i].n);
        assert log'[k] == Added(log'[i].n);
      } else {
        assert AddedBetween(log, i, |log|);
        var k :| i < k < |log| && log[k] == Added(log[i].n);
        assert log'[k] == Added(log'[i].n);
      }
    }
    forall i | 0 <= i < |log'| && log'[i].Got? && log'[i].n < |status| && status[n := Owned][log'[i].n] != Owned
      ensures AddedBetween(log', i, |log'|)
    {
      assert AddedBetween(log, i, |log|);
      var k :| i < k < |log| && log[k] == Added(log[i].n);
      assert log'[k] == Added(log'[i].n);
    }
  }

  lemma AddedLog(log: seq<Event>, status: seq<Status>, n: nat, st: Status)
    requires Alternates(log, status) && n < |status|
    ensures Alternates(log + [Added(n)], status[n := st])
  {
    var log' := log + [Added(n)];
    forall i, j | 0 <= i < j < |log'| && log'[i].Got? && log'[j] == log'[i]
      ensures AddedBetween(log', i, j)
    {
      assert AddedBetween(log, i, j);
      var k :| i < k < j && log[k] == Added(log[i].n);
      assert log'[k] == Added(log'[i].n);
    }
    forall i | 0 <= i < |log'| && log'[i].Got? && log'[i].n < |status| && status[n := st][log'[i].n] != Owned
      ensures AddedBetween(log', i, |log'|)
    {
      if log'[i].n == n {
        assert log'[|log|] == Added(log'[i].n);
      } else {
        assert AddedBetween(log, i, |log|);
        var k :| i < k < |log| && log[k] == Added(log[i].n);
        assert log'[k] == Added(log'[i].n);
      }
    }
  }

  lemma HandOut(s: State, t: nat)
    requires Inv(s) && t < |s.threads| && s.threads[t].GDropBoth?
    ensures Inv(Step(s, t))
    ensures s.nodes[s.threads[t].h].refs < SHOULD_BE_ON_FREELIST
  {
    var s', n := Step(s, t), s.threads[t].h;
    assert PcOk(s.nodes, s.status, t, s.threads[t]);
    assert Counted(s.nodes[n].refs, s.status[n], Getters(s.threads, n));
    GettersChange(s.threads, t, s'.threads[t], n);
    GettersBound(s.threads, n);
    OthersCounted(s, s', t, n);
    OthersPcOk(s, s', t, n);
    AttendsOne(s, t, n);
    OthersAttended(s, s', t, n);
    KeepChain(s.nodes, s.head, s.list, s.status, n, s'.nodes[n], Owned);
    GotLog(s.log, s.status, n);
  }

  lemma LoseRaceCount(s: State, t: nat)
    requires Inv(s) && t < |s.threads| && s.threads[t].GDropOne?
    ensures var s', n := Step(s, t), s.threads[t].h;
      Typed(s') && Counted(s'.nodes[n].refs, s'.status[n], Getters(s'.threads, n))
    ensures s.nodes[s.threads[t].h].refs == SHOULD_BE_ON_FREELIST + 1 ==> s.status[s.threads[t].h] == Waiting
  {
    var s', n := Step(s, t), s.threads[t].h;
    assert Counted(s.nodes[n].refs, s.status[n], Getters(s.threads, n));
    GettersChange(s.threads, t, s'.threads[t], n);
    GettersBound(s.threads, n);
    if Getters(s.threads, n) == {t} {
      assert Getters(s'.threads, n) == {};
    } else {
      LeavesSome(Getters(s.threads, n), t);
    }
  }

  lemma LoseRace(s: State, t: nat)
    requires Inv(s) && t < |s.threads| && s.threads[t].GDropOne?
    ensures Inv(Step(s, t))
  {
    var s', n := Step(s, t), s.threads[t].h;
    LoseRaceCount(s, t);
    OthersCounted(s, s', t, n);
    OthersPcOk(s, s', t, n);
    AttendsOne(s, t, n);
    assert Attended(s.status[n], n, s.threads);
    OthersAttended(s, s', t, n);
    assert s.status == s.status[n := s.status[n]];
    KeepChain(s.nodes, s.head, s.list, s.status, n, s'.nodes[n], s'.status[n]);
    KeepLog(s.log, s.status, n, s'.status[n]);
  }

  lemma LeavesSome(g: set<nat>, t: nat)
    requires t in g && g != {t}
    ensures g - {t} != {} && |g| > 1
  {
    assert g == (g - {t}) + {t};
    assert |g| == |g - {t}| + 1;
  }

  lemma SetNextStep(s: State, t: nat)
    requires Inv(s) && t < |s.threads| && s.threads[t].KSetNext?
    ensures Inv(Step(s, t))
  {
    var s', n := Step(s, t), s.threads[t].n;
    SameGetters(s, t, n, s'.threads[t]);
    OthersCounted(s, s', t, n);
    OthersPcOk(s, s', t, n);
    AttendsOne(s, t, n);
    OthersAttended(s, s', t, n);
    assert s.status == s.status[n := s.status[n]];
    KeepChain(s.nodes, s.head, s.list, s.status, n, s'.nodes[n], s.status[n]);
  }

  // A step that leaves the set of getters of node n alone.
  lemma SameGetters(s: State, t: nat, n: nat, pc: Pc)
    requires Inv(s) && t < |s.threads| && n < |s.nodes|
    requires Holding(pc, n) <==> Holding(s.threads[t], n)
    ensures Getters(s.threads[t := pc], n) == Getters(s.threads, n)
    ensures Counted(s.nodes[n].refs, s.status[n], Getters(s.threads, n)) && |Getters(s.threads, n)| <= |s.threads|
    ensures PcOk(s.nodes, s.status, t, s.threads[t])
  {
    GettersChange(s.threads, t, pc, n);
    GettersBound(s.threads, n);
  }

  lemma SetRefsStep(s: State, t: nat)
    requires Inv(s) && t < |s.threads| && s.threads[t].KSetRefs?
    ensures Inv(Step(s, t))
  {
    var s', n := Step(s, t), s.threads[t].n;
    SameGetters(s, t, n, s'.threads[t]);
    OthersCounted(s, s', t, n);
    OthersPcOk(s, s', t, n);
    AttendsOne(s, t, n);
    OthersAttended(s, s', t, n);
    KeepChain(s.nodes, s.head, s.list, s.status, n, s'.nodes[n], Linking(t));
    KeepLog(s.log, s.status, n, Linking(t));
  }

  lemma LinkChain(nodes: seq<Node>, head: Option<nat>, list: seq<nat>, status: seq<Status>, n: nat)
    requires |status| == |nodes| && Chain(nodes, head, list, status) && n < |nodes|
    requires status[n] != Listed && nodes[n].next == head
    ensures Chain(nodes, Some(n), [n] + list, status[n := Listed])
  {
    var list', status' := [n] + list, status[n := Listed];
    forall i | 0 <= i < |list'|
      ensures list'[i] < |nodes| && status'[list'[i]] == Listed && nodes[list'[i]].next == At(list', i + 1)
    {
      if i > 0 {
        assert nodes[list[i - 1]].next == At(list, i);
      }
    }
  }

  lemma LinkStep(s: State, t: nat)
    requires Inv(s) && t < |s.threads| && s.threads[t].KCasHead? && s.head == s.threads[t].head
    ensures Inv(Step(s, t))
  {
    var s', n := Step(s, t), s.threads[t].n;
    SameGetters(s, t, n, s'.threads[t]);
    OthersCounted(s, s', t, n);
    OthersPcOk(s, s', t, n);
    AttendsOne(s, t, n);
    OthersAttended(s, s', t, n);
    LinkChain(s.nodes, s.head, s.list, s.status, n);
    KeepLog(s.log, s.status, n, Listed);
  }

  lemma LinkFailedCount(s: State, t: nat)
    requires Inv(s) && t < |s.threads| && s.threads[t].KFailed?
    ensures var s', n := Step(s, t), s.threads[t].n;
      Typed(s') && Counted(s'.nodes[n].refs, s'.status[n], Getters(s'.threads, n))
  {
    var s', n := Step(s, t), s.threads[t].n;
    SameGetters(s, t, n, s'.threads[t]);
  }

  lemma LinkFailed(s: State, t: nat)
    requires Inv(s) && t < |s.threads| && s.threads[t].KFailed?
    ensures Inv(Step(s, t))
  {
    var s', n := Step(s, t), s.threads[t].n;
    LinkFailedCount(s, t);
    assert PcOk(s.nodes, s.status, t, s.threads[t]);
    OthersCounted(s, s', t, n);
    OthersPcOk(s, s', t, n);
    AttendsOne(s, t, n);
    OthersAttended(s, s', t, n);
    KeepChain(s.nodes, s.head, s.list, s.status, n, s'.nodes[n], s'.status[n]);
    KeepLog(s.log, s.status, n, s'.status[n]);
  }

  lemma AddCount(s: State, t: nat, n: nat)
    requires Inv(s) && t < |s.threads| && s.threads[t].Idle? && n < |s.nodes| && s.status[n] == Owned
    ensures var s' := Add(s, t, n); Typed(s') && Counted(s'.nodes[n].refs, s'.status[n], Getters(s'.threads, n))
  {
    var s' := Add(s, t, n);
    assert s'.threads == s.threads[t := s'.threads[t]];
    SameGetters(s, t, n, s'.threads[t]);
    GettersBound(s.threads, n);
  }

  lemma AddStep(s: State, t: nat, n: nat)
    requires Inv(s) && t < |s.threads| && s.threads[t].Idle? && n < |s.nodes| && s.status[n] == Owned
    ensures Inv(Add(s, t, n))
  {
    var s' := Add(s, t, n);
    assert s'.threads == s.threads[t := s'.threads[t]];
    AddCount(s, t, n);
    OthersCounted(s, s', t, n);
    OthersPcOk(s, s', t, n);
    AttendsOne(s, t, n);
    OthersAttended(s, s', t, n);
    KeepChain(s.nodes, s.head, s.list, s.status, n, s'.nodes[n], s'.status[n]);
    AddedLog(s.log, s.status, n, s'.status[n]);
  }

  lemma StepInv(s: State, t: nat)
    requires Inv(s) && t < |s.threads| && !s.threads[t].Idle?
    ensures Inv(Step(s, t))
  {
    match s.threads[t]
    case GCasRefs(h, refs) => if s.nodes[h].refs == refs { TakeReference(s, t); } else { MoveStep(s, t); }
    case GCasHead(h, _) => if s.head == Some(h) { WinHead(s, t); } else { MoveStep(s, t); }
    case GDropBoth(_) => HandOut(s, t);
    case GDropOne(_, _) => LoseRace(s, t);
    case KLoadHead(_, _) => AdderMoves(s, t);
    case KSetNext(_, _, _) => SetNextStep(s, t);
    case KSetRefs(_, _, _) => SetRefsStep(s, t);
    case KCasHead(_, head, _) => if s.head == head { LinkStep(s, t); } else { AdderMoves(s, t); }
    case KFailed(_, _, _) => LinkFailed(s, t);
    case _ => MoveStep(s, t);
  }

  lemma NextInv(s: State, s': State)
    requires Inv(s) && Next(s, s')
    ensures Inv(s')
  {
    var t: nat :| StepOf(s, s', t);
    if s.threads[t].Idle? && s' == BeginGet(s, t) {
      BeginStep(s, t);
    } else if s.threads[t].Idle? {
      var n: nat :| AddOf(s, s', t, n);
      AddStep(s, t, n);
    } else {
      StepInv(s, t);
    }
  }

  // ---------- whole runs ----------

  ghost function Starts(): State -> bool {
    (s: State) => Init(s)
  }

  ghost function Steps(): (State, State) -> bool {
    (s: State, s': State) => Next(s, s')
  }

  lemma RunInv(run: seq<State>, k: nat)
    requires Trace(run, Starts(), Steps()) && k < |run|
    ensures Inv(run[k])
  {
    forall s | Starts()(s) ensures Inv(s) { InitInv(s); }
    forall s, s' | Inv(s) && Steps()(s, s') ensures Inv(s') { NextInv(s, s'); }
    Always(run, Starts(), Steps(), s => Inv(s), k);
  }

  /** In every interleaving a node is handed out twice only if it was given back in between. */
  lemma NeverHandedOutTwice(run: seq<State>, k: nat, i: nat, j: nat, n: nat)
    requires Trace(run, Starts(), Steps()) && k < |run|
    requires i < j < |run[k].log| && run[k].log[i] == run[k].log[j] == Got(n)
    ensures exists m :: i < m < j && run[k].log[m] == Added(n)
  {
    RunInv(run, k);
    assert AddedBetween(run[k].log, i, j);
  }

  /** In every interleaving the masked reference count of a node is the number of getters in flight, plus one when the
      list, the thread linking it or the thread that just took it off holds a reference (Attended: there is such a
      thread); and the chain of next pointers from the head visits each listed node once and no other (Chain). */
  lemma CountsAreExact(run: seq<State>, k: nat, n: nat)
    requires Trace(run, Starts(), Steps()) && k < |run| && n < |run[k].nodes|
    ensures var s := run[k];
      && |s.status| == |s.nodes|
      && Masked(s.nodes[n].refs) ==
           (if s.status[n].Listed? || s.status[n].Linking? || s.status[n].Taken? then 1 else 0)
               + |Getters(s.threads, n)|
      && Attended(s.status[n], n, s.threads) && Chain(s.nodes, s.head, s.list, s.status)
      && (s.status[n].Listed? <==> n in s.list)
      && (forall i, j :: 0 <= i < j < |s.list| ==> s.list[i] != s.list[j])
      && AssertHolds(s)
  {
    RunInv(run, k);
    var s := run[k];
    assert Counted(s.nodes[n].refs, s.status[n], Getters(s.threads, n));
    GettersBound(s.threads, n);
    forall t | 0 <= t < |s.threads| && s.threads[t].GDropBoth?
      ensures s.nodes[s.threads[t].h].refs < SHOULD_BE_ON_FREELIST
    {
      HandOut(s, t);
    }
  }

  /** No node is lost: once all threads are idle, each node is with a caller and unreferenced, or on the list. */
  lemma QuiescentConservation(run: seq<State>, k: nat, n: nat)
    requires Trace(run, Starts(), Steps()) && k < |run| && n < |run[k].nodes|
    requires forall t :: 0 <= t < |run[k].threads| ==> run[k].threads[t].Idle?
    ensures |run[k].status| == |run[k].nodes|
    ensures Chain(run[k].nodes, run[k].head, run[k].list, run[k].status)
    ensures (run[k].status[n] == Owned && n !in run[k].list && run[k].nodes[n].refs == 0)
         || (n in run[k].list && run[k].nodes[n].refs == 1)
  {
    RunInv(run, k);
    var s := run[k];
    assert Counted(s.nodes[n].refs, s.status[n], Getters(s.threads, n));
    assert Getters(s.threads, n) == {};
    assert Attended(s.status[n], n, s.threads);
  }
}
