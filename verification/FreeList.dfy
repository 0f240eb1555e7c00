/** The reference-counted lock-free free list, for any number of threads. Every atomic operation is a step;
    a thread may call `add` only on a node it was given, which is the list's contract with its callers. */
module FreeList {
  import opened Common

  const SHOULD_BE_ON_FREELIST: int := 0x8000_0000
  const WORD: int := 0x1_0000_0000

  datatype Node = Node(refs: nat, next: Option<nat>)

  /** What a thread does after add_knowing_refcount_is_zero: return, or go round the try_get loop with this head. */
  datatype After = Return | Loop(head: Option<nat>)

  /** Each case names the atomic operation the thread is about to perform. */
  datatype Pc =
    | Idle
    | GLoadHead                                       // try_get: load freeListHead
    | GLoadRefs(h: nat)                               // load head->freeListRefs
    | GCasRefs(h: nat, refs: nat)                     // CAS head->freeListRefs from refs to refs + 1
    | GLoadNext(h: nat)                               // load head->freeListNext
    | GCasHead(h: nat, next: Option<nat>)             // CAS freeListHead from head to next
    | GDropBoth(h: nat)                               // got it: subtract our reference and the list's
    | GDropOne(h: nat, seen: Option<nat>)             // lost the race: subtract our reference
    | KLoadHead(n: nat, after: After)                 // add_knowing_refcount_is_zero: load freeListHead
    | KSetNext(n: nat, head: Option<nat>, after: After)
    | KSetRefs(n: nat, head: Option<nat>, after: After)
    | KCasHead(n: nat, head: Option<nat>, after: After)
    | KFailed(n: nat, head: Option<nat>, after: After)

  datatype Event = Got(n: nat) | Added(n: nat)

  /** History: who is responsible for a node. */
  datatype Status =
    | Owned                // with a caller
    | Waiting              // to be added by the last thread that drops its reference
    | Claimed(t: nat)      // thread t is adding it and nobody can reference it
    | Linking(t: nat)      // thread t has given it the list's reference and tries to link it
    | Listed
    | Taken(t: nat)        // unlinked by thread t, which has not returned it yet

  /** `status`, `list` (the chain from the head) and `log` are history. */
  datatype State = State(head: Option<nat>, nodes: seq<Node>, threads: seq<Pc>,
                         status: seq<Status>, list: seq<nat>, log: seq<Event>)

  predicate InRange(pc: Pc, n: nat) {
    match pc
    case Idle => true
    case GLoadHead => true
    case GLoadRefs(h) => h < n
    case GCasRefs(h, _) => h < n
    case GLoadNext(h) => h < n
    case GCasHead(h, next) => h < n && (next.Some? ==> next.value < n)
    case GDropBoth(h) => h < n
    case GDropOne(h, seen) => h < n && (seen.Some? ==> seen.value < n)
    case KLoadHead(m, after) => m < n && (after.Loop? && after.head.Some? ==> after.head.value < n)
    case KSetNext(m, h, after) =>
      && m < n && (h.Some? ==> h.value < n)
      && (after.Loop? && after.head.Some? ==> after.head.value < n)
    case KSetRefs(m, h, after) =>
      && m < n && (h.Some? ==> h.value < n)
      && (after.Loop? && after.head.Some? ==> after.head.value < n)
    case KCasHead(m, h, after) =>
      && m < n && (h.Some? ==> h.value < n)
      && (after.Loop? && after.head.Some? ==> after.head.value < n)
    case KFailed(m, h, after) =>
      && m < n && (h.Some? ==> h.value < n)
      && (after.Loop? && after.head.Some? ==> after.head.value < n)
  }

  predicate Typed(s: State) {
    && |s.status| == |s.nodes|
    && (s.head.Some? ==> s.head.value < |s.nodes|)
    && (forall n :: 0 <= n < |s.nodes| ==> s.nodes[n].refs < WORD)
    && (forall n :: 0 <= n < |s.nodes| && s.nodes[n].next.Some? ==> s.nodes[n].next.value < |s.nodes|)
    && (forall t :: 0 <= t < |s.threads| ==> InRange(s.threads[t], |s.nodes|))
  }

  // ---------- steps ----------

  function SetPc(s: State, t: nat, pc: Pc): State
    requires t < |s.threads|
  {
    s.(threads := s.threads[t := pc])
  }

  /** 32-bit wrap-around of a sum of a word and a number of at most that size. */
  function Wrap(x: int): int {
    if x >= WORD then x - WORD else if x < 0 then x + WORD else x
  }

  /** `refs & REFS_MASK` */
  function Masked(refs: nat): nat {
    if refs >= SHOULD_BE_ON_FREELIST then refs - SHOULD_BE_ON_FREELIST else refs
  }

  /** An atomic add to a node's 32-bit reference word. */
  function AddRefs(s: State, n: nat, k: int): State
    requires n < |s.nodes| && s.nodes[n].refs < WORD && -WORD <= k < WORD
  {
    s.(nodes := s.nodes[n := s.nodes[n].(refs := Wrap(s.nodes[n].refs + k))])
  }

  function SetStatus(s: State, n: nat, st: Status): State
    requires n < |s.status|
  {
    s.(status := s.status[n := st])
  }

  /** The top of try_get's loop with `head` in hand. */
  function LoopPc(head: Option<nat>): Pc {
    if head.None? then Idle else GLoadRefs(head.value)
  }

  function AfterPc(after: After): Pc {
    if after.Return? then Idle else LoopPc(after.head)
  }

  function BeginGet(s: State, t: nat): State
    requires t < |s.threads|
  {
    SetPc(s, t, GLoadHead)
  }

  function Add(s: State, t: nat, n: nat): State
    requires Typed(s) && t < |s.threads| && n < |s.nodes|
  {
    var s' := AddRefs(s, n, SHOULD_BE_ON_FREELIST).(log := s.log + [Added(n)]);
    if s.nodes[n].refs == 0 then SetPc(SetStatus(s', n, Claimed(t)), t, KLoadHead(n, Return))
    else SetStatus(s', n, Waiting)
  }

  function Step(s: State, t: nat): State
    requires Typed(s) && t < |s.threads|
  {
    match s.threads[t]
    case Idle => s
    case GLoadHead => SetPc(s, t, LoopPc(s.head))
    case GLoadRefs(h) =>
      var refs := s.nodes[h].refs;
      SetPc(s, t, if Masked(refs) == 0 then GLoadHead else GCasRefs(h, refs))
    case GCasRefs(h, refs) =>
      if s.nodes[h].refs == refs then SetPc(AddRefs(s, h, 1), t, GLoadNext(h))
      else SetPc(s, t, GLoadHead)
    case GLoadNext(h) => SetPc(s, t, GCasHead(h, s.nodes[h].next))
    case GCasHead(h, next) =>
      if s.head == Some(h) then
        SetPc(SetStatus(s, h, Taken(t)), t, GDropBoth(h)).(
          head := next, list := if s.list == [] then [] else s.list[1..])
      else SetPc(s, t, GDropOne(h, s.head))
    case GDropBoth(h) =>
      SetPc(SetStatus(AddRefs(s, h, -2), h, Owned), t, Idle).(log := s.log + [Got(h)])
    case GDropOne(h, seen) =>
      var s' := AddRefs(s, h, -1);
      if s.nodes[h].refs == SHOULD_BE_ON_FREELIST + 1 then
        SetPc(SetStatus(s', h, Claimed(t)), t, KLoadHead(h, Loop(seen)))
      else SetPc(s', t, LoopPc(seen))
    case KLoadHead(n, after) => SetPc(s, t, KSetNext(n, s.head, after))
    case KSetNext(n, head, after) =>
      SetPc(s.(nodes := s.nodes[n := s.nodes[n].(next := head)]), t, KSetRefs(n, head, after))
    case KSetRefs(n, head, after) =>
      SetPc(SetStatus(s.(nodes := s.nodes[n := s.nodes[n].(refs := 1)]), n, Linking(t)), t, KCasHead(n, head, after))
    case KCasHead(n, head, after) =>
      if s.head == head then
        SetPc(SetStatus(s, n, Listed), t, AfterPc(after)).(head := Some(n), list := [n] + s.list)
      else SetPc(s, t, KFailed(n, s.head, after))
    case KFailed(n, head, after) =>
      var s' := AddRefs(s, n, SHOULD_BE_ON_FREELIST - 1);
      if s.nodes[n].refs == 1 then SetPc(SetStatus(s', n, Claimed(t)), t, KSetNext(n, head, after))
      else SetPc(SetStatus(s', n, Waiting), t, AfterPc(after))
  }

  ghost predicate Next(s: State, s': State) {
    && Typed(s)
    && exists t: nat :: StepOf(s, s', t)
  }

  ghost predicate StepOf(s: State, s': State, t: nat)
    requires Typed(s)
  {
    && t < |s.threads|
    && (|| (s.threads[t].Idle? && s' == BeginGet(s, t))
        || (s.threads[t].Idle? && exists n: nat :: AddOf(s, s', t, n))
        || (!s.threads[t].Idle? && s' == Step(s, t)))
  }

  ghost predicate AddOf(s: State, s': State, t: nat, n: nat)
    requires Typed(s) && t < |s.threads|
  {
    n < |s.nodes| && s.status[n] == Owned && s' == Add(s, t, n)
  }

  /** All nodes start with their callers; fewer than 2^31 - 1 threads. */
  ghost predicate Init(s: State) {
    && s.head == None && s.list == [] && s.log == []
    && |s.status| == |s.nodes| && |s.threads| + 1 < SHOULD_BE_ON_FREELIST
    && (forall n :: 0 <= n < |s.nodes| ==> s.nodes[n] == Node(0, None) && s.status[n] == Owned)
    && (forall t :: 0 <= t < |s.threads| ==> s.threads[t] == Idle)
  }

  /** The assert in try_get: a node just unlinked has no pending add. */
  predicate AssertHolds(s: State) {
    Typed(s) ==> forall t :: 0 <= t < |s.threads| && s.threads[t].GDropBoth? ==>
      s.nodes[s.threads[t].h].refs < SHOULD_BE_ON_FREELIST
  }
}
