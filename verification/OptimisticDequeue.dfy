/** The optimistic dequeue of one producer's subqueue: any number of consumers first bump an optimistic counter,
    then decide from it whether an element is guaranteed to them, and give back what they overcommitted. The
    counters are machine words that wrap around; `opt`, `over`, `head` and `tail` are the unwrapped counts. */
module OptimisticDequeue {
  import opened Bits
  import opened Traces

  /** circular_less_than on 64-bit words. */
  predicate CircularLess(a: nat, b: nat) {
    Word(a - b) > HALF
  }

  /** The wrapping comparison orders two counts correctly while they are less than half the word apart. */
  lemma CircularLessIsLess(a: int, b: int)
    requires -HALF < a - b <= HALF
    ensures CircularLess(Word(a), Word(b)) <==> a < b
  {
    WrappedDifference(a, b);
  }

  /** One side of the window is enough for a positive answer to be right. */
  lemma CircularLessSound(a: int, b: int)
    requires a - b <= HALF && CircularLess(Word(a), Word(b))
    ensures a < b
  {
    if a >= b {
      WrappedDifference(a, b);
    }
  }

  /** Two counts less than a word apart compare correctly exactly within that window. */
  lemma WindowIsExact(a: int, b: int)
    requires -WORD < a - b < WORD
    ensures (CircularLess(Word(a), Word(b)) <==> a < b) <==> -HALF < a - b <= HALF
  {
    if -HALF < a - b <= HALF {
      CircularLessIsLess(a, b);
    } else {
      WrappedDifference(a, b);
    }
  }

  lemma WrappedDifference(a: int, b: int)
    requires -WORD < a - b < WORD
    ensures Word(Word(a) - Word(b)) == if a < b then a - b + WORD else a - b
  {
    var d, q := Word(a) - Word(b), a / WORD - b / WORD;
    assert a == WORD * (a / WORD) + Word(a) && b == WORD * (b / WORD) + Word(b);
    assert a - b == WORD * q + d;
    if a < b {
      DivModUnique(d, WORD, -q - 1, a - b + WORD);
    } else {
      DivModUnique(d, WORD, -q, a - b);
    }
  }

  datatype Pc =
    | Idle
    | LoadOver(tail: nat)                 // tailIndex loaded; load dequeueOvercommit
    | Test(tail: nat, over: nat)          // load dequeueOptimisticCount and compare
    | Bump(over: nat)                     // fetch_add dequeueOptimisticCount
    | Recheck(over: nat, my: nat)         // load tailIndex again and compare
    | Claim(my: nat)                      // fetch_add headIndex
    | GiveBack(my: nat)                   // fetch_add dequeueOvercommit

  /** History: what became of each ticket drawn from the optimistic counter. */
  datatype Ticket = Open | Won | Taken | Lost | Returned

  datatype State = State(tail: nat, head: nat, opt: nat, over: nat, threads: seq<Pc>, tickets: seq<Ticket>)

  function Move(s: State, t: nat, pc: Pc): State
    requires t < |s.threads|
  {
    s.(threads := s.threads[t := pc])
  }

  function Mark(s: State, k: nat, m: Ticket): State {
    if k < |s.tickets| then s.(tickets := s.tickets[k := m]) else s
  }

  function Publish(s: State): State {
    s.(tail := s.tail + 1)
  }

  function Step(s: State, t: nat): State
    requires t < |s.threads|
  {
    match s.threads[t]
    case Idle => Move(s, t, LoadOver(s.tail))
    case LoadOver(tail) => Move(s, t, Test(tail, s.over))
    case Test(tail, over) =>
      Move(s, t, if CircularLess(Word(s.opt - over), Word(tail)) then Bump(over) else Idle)
    case Bump(over) =>
      Move(s, t, Recheck(over, s.opt)).(opt := s.opt + 1, tickets := s.tickets + [Open])
    case Recheck(over, my) =>
      if CircularLess(Word(my - over), Word(s.tail)) then Mark(Move(s, t, Claim(my)), my, Won)
      else Mark(Move(s, t, GiveBack(my)), my, Lost)
    case Claim(my) => Mark(Move(s, t, Idle).(head := s.head + 1), my, Taken)
    case GiveBack(my) => Mark(Move(s, t, Idle).(over := s.over + 1), my, Returned)
  }

  ghost predicate Init(s: State) {
    s.tail == s.head == s.opt == s.over == 0 && s.tickets == [] &&
    forall t :: 0 <= t < |s.threads| ==> s.threads[t] == Idle
  }

  ghost predicate Next(s: State, s': State) {
    s' == Publish(s) || exists t: nat :: t < |s.threads| && s' == Step(s, t)
  }

  // ---------- counting tickets ----------

  predicate IsReturned(m: Ticket) { m == Returned }
  predicate IsWon(m: Ticket) { m == Won || m == Taken }

  /** How many of the first n tickets were returned (won). */
  function Returns(q: seq<Ticket>, n: nat): nat
    requires n <= |q|
  {
    if n == 0 then 0 else Returns(q, n - 1) + if IsReturned(q[n - 1]) then 1 else 0
  }

  function Wins(q: seq<Ticket>, n: nat): nat
    requires n <= |q|
  {
    if n == 0 then 0 else Wins(q, n - 1) + if IsWon(q[n - 1]) then 1 else 0
  }

  function Takes(q: seq<Ticket>, n: nat): nat
    requires n <= |q|
  {
    if n == 0 then 0 else Takes(q, n - 1) + if q[n - 1] == Taken then 1 else 0
  }

  lemma {:induction false} CountsExtend(q: seq<Ticket>, m: Ticket, n: nat)
    requires n <= |q|
    ensures Returns(q + [m], n) == Returns(q, n) && Wins(q + [m], n) == Wins(q, n) && Takes(q + [m], n) == Takes(q, n)
  {
    if n > 0 { CountsExtend(q, m, n - 1); }
  }

  lemma {:induction false} CountsUpdate(q: seq<Ticket>, k: nat, m: Ticket, n: nat)
    requires n <= |q| && k < |q| && !IsReturned(q[k]) && q[k] != Taken
    ensures Returns(q[k := m], n) == Returns(q, n) + if k < n && IsReturned(m) then 1 else 0
    ensures Takes(q[k := m], n) == Takes(q, n) + if k < n && m == Taken then 1 else 0
    decreases n
  {
    if n > 0 { CountsUpdate(q, k, m, n - 1); }
  }

  lemma {:induction false} CountsDisjoint(q: seq<Ticket>, n: nat)
    requires n <= |q|
    ensures Wins(q, n) + Returns(q, n) <= n && Takes(q, n) <= Wins(q, n)
  {
    if n > 0 { CountsDisjoint(q, n - 1); }
  }

  // An outstanding win is counted by Wins but not by Takes.
  lemma {:induction false} OutstandingWin(q: seq<Ticket>, n: nat, k: nat)
    requires n <= |q| && k < n && q[k] == Won
    ensures Takes(q, n) < Wins(q, n)
  {
    CountsDisjoint(q, n - 1);
    if k < n - 1 { OutstandingWin(q, n - 1, k); }
  }

  // ---------- invariant ----------

  ghost predicate PcOk(s: State, pc: Pc) {
    match pc
    case Test(_, over) => over <= s.over
    case Bump(over) => over <= s.over
    case Recheck(over, my) => my < |s.tickets| && s.tickets[my] == Open && over <= Returns(s.tickets, my)
    case Claim(my) => my < |s.tickets| && s.tickets[my] == Won
    case GiveBack(my) => my < |s.tickets| && s.tickets[my] == Lost
    case _ => true
  }

  predicate HasTicket(pc: Pc) {
    pc.Recheck? || pc.Claim? || pc.GiveBack?
  }

  /** The counters count tickets, and no two threads hold the same one. */
  ghost predicate Counted(s: State) {
    && |s.tickets| == s.opt
    && s.over == Returns(s.tickets, s.opt)
    && s.head == Takes(s.tickets, s.opt)
    && (forall t: nat :: t < |s.threads| ==> PcOk(s, s.threads[t]))
    && (forall t: nat, u: nat :: t < u < |s.threads| && HasTicket(s.threads[t]) && HasTicket(s.threads[u]) ==>
          s.threads[t].my != s.threads[u].my)
    && AllHeld(s)
  }

  /** Every ticket that won was drawn below the tail, discounting the tickets returned before it. */
  ghost predicate WinsOk(s: State) {
    forall k: nat :: k < |s.tickets| && IsWon(s.tickets[k]) ==> k - Returns(s.tickets, k) < s.tail
  }

  ghost predicate Inv(s: State) {
    Counted(s) && WinsOk(s)
  }

  predicate Settled(m: Ticket) { m == Taken || m == Returned }

  ghost predicate AllHeld(s: State) {
    forall k: nat :: k < |s.tickets| && !Settled(s.tickets[k]) ==> Held(s.threads, k)
  }

  /** Some thread holds ticket k. */
  ghost predicate Held(threads: seq<Pc>, k: nat) {
    exists t: nat :: t < |threads| && HasTicket(threads[t]) && threads[t].my == k
  }

  lemma StillHeld(threads: seq<Pc>, t: nat, pc: Pc, k: nat)
    requires t < |threads| && Held(threads, k)
    requires HasTicket(threads[t]) ==> (HasTicket(pc) && pc.my == threads[t].my) || threads[t].my != k
    ensures Held(threads[t := pc], k)
  {
    var u: nat :| u < |threads| && HasTicket(threads[u]) && threads[u].my == k;
    assert HasTicket(threads[t := pc][u]) && threads[t := pc][u].my == k;
  }

  /** The tickets won never outnumber the elements published. */
  lemma {:induction false} WinsBelowTail(q: seq<Ticket>, n: nat, tail: nat)
    requires n <= |q|
    requires forall k: nat :: k < n && IsWon(q[k]) ==> k - Returns(q, k) < tail
    ensures Wins(q, n) <= tail
  {
    if n > 0 {
      if IsWon(q[n - 1]) {
        CountsDisjoint(q, n - 1);
      } else {
        WinsBelowTail(q, n - 1, tail);
      }
    }
  }

  // ---------- how far a deciding consumer can be ahead ----------

  predicate Pending(m: Ticket) { m == Open || m == Lost }

  function PendingSet(q: seq<Ticket>, n: nat): set<nat>
    requires n <= |q|
  {
    if n == 0 then {}
    else if Pending(q[n - 1]) then PendingSet(q, n - 1) + {n - 1}
    else PendingSet(q, n - 1)
  }

  lemma {:induction false} PendingMembers(q: seq<Ticket>, n: nat)
    requires n <= |q|
    ensures forall k :: k in PendingSet(q, n) ==> k < n && Pending(q[k])
  {
    if n > 0 { PendingMembers(q, n - 1); }
  }

  lemma {:induction false} PendingCount(q: seq<Ticket>, n: nat)
    requires n <= |q|
    ensures |PendingSet(q, n)| + Wins(q, n) + Returns(q, n) == n
  {
    if n > 0 {
      PendingCount(q, n - 1);
      PendingMembers(q, n - 1);
      AddOne(PendingSet(q, n - 1), n - 1);
    }
  }

  lemma AddOne(a: set<nat>, x: nat)
    requires x !in a
    ensures |a + {x}| == |a| + 1
  {
  }

  function HeldSet(threads: seq<Pc>): set<nat> {
    if threads == [] then {}
    else HeldSet(threads[1..]) + if HasTicket(threads[0]) then {threads[0].my} else {}
  }

  /** The dequeues under way: tickets drawn and not yet settled. */
  function Busy(s: State): nat {
    |HeldSet(s.threads)|
  }

  /** The failed dequeues and the dequeues under way. */
  function LoadOf(s: State): nat {
    s.over + Busy(s)
  }

  /** The failed dequeues and the other dequeues under way number at most 2^63. */
  predicate Calm(s: State) {
    LoadOf(s) <= HALF + 1
  }

  lemma FewThreads(s: State)
    requires s.over + |s.threads| <= HALF + 1
    ensures Calm(s)
  {
    HeldCount(s.threads);
  }

  lemma {:induction false} HeldCount(threads: seq<Pc>)
    ensures |HeldSet(threads)| <= |threads|
  {
    if threads != [] { HeldCount(threads[1..]); }
  }

  lemma {:induction false} HeldMember(threads: seq<Pc>, t: nat)
    requires t < |threads| && HasTicket(threads[t])
    ensures threads[t].my in HeldSet(threads)
  {
    if t > 0 { HeldMember(threads[1..], t - 1); }
  }

  lemma SubsetSize(a: set<nat>, b: set<nat>)
    requires a <= b
    ensures |a| <= |b|
  {
    assert b == a + (b - a);
  }

  lemma PendingAreHeld(s: State, t: nat)
    requires Counted(s) && t < |s.threads| && HasTicket(s.threads[t]) && s.threads[t].my <= |s.tickets|
    ensures |PendingSet(s.tickets, s.threads[t].my)| < Busy(s)
  {
    var n := s.threads[t].my;
    var pending := PendingSet(s.tickets, n);
    PendingMembers(s.tickets, n);
    forall k | k in pending + {n}
      ensures k in HeldSet(s.threads)
    {
      if k == n {
        HeldMember(s.threads, t);
      } else {
        assert Held(s.threads, k);
        var u: nat :| u < |s.threads| && HasTicket(s.threads[u]) && s.threads[u].my == k;
        HeldMember(s.threads, u);
      }
    }
    SubsetSize(pending + {n}, HeldSet(s.threads));
    AddOne(pending, n);
  }

  /** The tickets before a deciding consumer's are wins, of which there are at most as many as elements, returned ones,
      and the pending tickets of other dequeues under way. */
  lemma NotFarAhead(s: State, t: nat)
    requires Inv(s) && t < |s.threads| && s.threads[t].Recheck?
    ensures s.threads[t].my - s.threads[t].over - s.tail < s.over + Busy(s)
  {
    var my := s.threads[t].my;
    assert PcOk(s, s.threads[t]);
    PendingCount(s.tickets, my);
    PendingAreHeld(s, t);
    WinsBelowTail(s.tickets, my, s.tail);
    ReturnsGrow(s.tickets, my, s.opt);
  }

  lemma {:induction false} ReturnsGrow(q: seq<Ticket>, n: nat, m: nat)
    requires n <= m <= |q|
    ensures Returns(q, n) <= Returns(q, m)
    decreases m
  {
    if n < m { ReturnsGrow(q, n, m - 1); }
  }

  // ---------- steps ----------

  // A ticket changes hands: every other thread keeps its own, and later prefixes count at least as many returns.
  lemma MarkCounted(s: State, s': State, t: nat, k: nat, m: Ticket)
    requires Counted(s) && t < |s.threads| && k < |s.tickets| && HasTicket(s.threads[t]) && s.threads[t].my == k
    requires !Settled(s.tickets[k])
    requires s'.tickets == s.tickets[k := m] && s'.opt == s.opt && s'.tail == s.tail
    requires |s'.threads| == |s.threads|
    requires s'.threads == s.threads[t := s'.threads[t]]
    requires if Settled(m) then !HasTicket(s'.threads[t]) else HasTicket(s'.threads[t]) && s'.threads[t].my == k
    requires PcOk(s', s'.threads[t])
    requires s'.over == Returns(s'.tickets, s'.opt) && s'.head == Takes(s'.tickets, s'.opt)
    ensures Counted(s')
  {
    CountsUpdate(s.tickets, k, m, s.opt);
    MarkPcs(s, s', t, k, m);
    forall j: nat | j < |s'.tickets| && !Settled(s'.tickets[j])
      ensures Held(s'.threads, j)
    {
      if j == k {
        assert HasTicket(s'.threads[t]) && s'.threads[t].my == j;
      } else {
        StillHeld(s.threads, t, s'.threads[t], j);
      }
    }
  }

  lemma MarkPcs(s: State, s': State, t: nat, k: nat, m: Ticket)
    requires Counted(s) && t < |s.threads| && k < |s.tickets| && HasTicket(s.threads[t]) && s.threads[t].my == k
    requires !Settled(s.tickets[k]) && s'.tickets == s.tickets[k := m] && s'.over >= s.over
    requires |s'.threads| == |s.threads| && s'.threads == s.threads[t := s'.threads[t]] && PcOk(s', s'.threads[t])
    ensures forall u: nat :: u < |s'.threads| ==> PcOk(s', s'.threads[u])
  {
    forall u: nat | u < |s'.threads|
      ensures PcOk(s', s'.threads[u])
    {
      if u != t {
        assert PcOk(s, s.threads[u]);
        if s.threads[u].Recheck? { CountsUpdate(s.tickets, k, m, s.threads[u].my); }
      }
    }
  }

  lemma MarkWins(s: State, k: nat, m: Ticket)
    requires WinsOk(s) && k < |s.tickets| && !Settled(s.tickets[k])
    requires m == Won ==> k - Returns(s.tickets, k) < s.tail
    requires m == Taken ==> s.tickets[k] == Won
    ensures WinsOk(s.(tickets := s.tickets[k := m]))
  {
    var q := s.tickets[k := m];
    forall j: nat | j < |q| && IsWon(q[j])
      ensures j - Returns(q, j) < s.tail
    {
      CountsUpdate(s.tickets, k, m, j);
    }
  }

  lemma BumpCounted(s: State, t: nat)
    requires Counted(s) && t < |s.threads| && s.threads[t].Bump?
    ensures Counted(Step(s, t))
  {
    var s' := Step(s, t);
    CountsExtend(s.tickets, Open, s.opt);
    forall u: nat | u < |s'.threads|
      ensures PcOk(s', s'.threads[u])
    {
      assert PcOk(s, s.threads[u]);
      if u != t && s.threads[u].Recheck? { CountsExtend(s.tickets, Open, s.threads[u].my); }
    }
    forall j: nat | j < |s'.tickets| && !Settled(s'.tickets[j])
      ensures Held(s'.threads, j)
    {
      if j == s.opt {
        assert HasTicket(s'.threads[t]) && s'.threads[t].my == j;
      } else {
        StillHeld(s.threads, t, s'.threads[t], j);
      }
    }
  }

  lemma BumpWins(s: State, t: nat)
    requires WinsOk(s) && t < |s.threads| && s.threads[t].Bump?
    ensures WinsOk(Step(s, t))
  {
    var s' := Step(s, t);
    forall j: nat | j < |s'.tickets| && IsWon(s'.tickets[j])
      ensures j - Returns(s'.tickets, j) < s'.tail
    {
      CountsExtend(s.tickets, Open, j);
    }
  }

  /** The ticket of a deciding or settling thread, and what becomes of it. */
  ghost function Verdict(s: State, t: nat): Ticket
    requires t < |s.threads|
  {
    match Step(s, t).threads[t]
    case Claim(_) => Won
    case GiveBack(_) => Lost
    case _ => if s.threads[t].Claim? then Taken else Returned
  }

  lemma TicketCounted(s: State, t: nat)
    requires Counted(s) && t < |s.threads| && HasTicket(s.threads[t])
    ensures Counted(Step(s, t)) && s.threads[t].my < |s.tickets| && !Settled(s.tickets[s.threads[t].my])
    ensures Step(s, t).tickets == s.tickets[s.threads[t].my := Verdict(s, t)]
    ensures Verdict(s, t) == Taken ==> s.tickets[s.threads[t].my] == Won
  {
    var my, m := s.threads[t].my, Verdict(s, t);
    assert PcOk(s, s.threads[t]);
    CountsUpdate(s.tickets, my, m, s.opt);
    MarkCounted(s, Step(s, t), t, my, m);
  }

  /** In a calm state a positive decision is right. */
  lemma DecisionSound(s: State, t: nat)
    requires Inv(s) && Calm(s) && t < |s.threads| && s.threads[t].Recheck? && Step(s, t).threads[t].Claim?
    ensures s.threads[t].my - Returns(s.tickets, s.threads[t].my) < s.tail
  {
    NotFarAhead(s, t);
    PositiveIsBelow(s, t);
    assert PcOk(s, s.threads[t]);
  }

  lemma PositiveIsBelow(s: State, t: nat)
    requires t < |s.threads| && s.threads[t].Recheck? && Step(s, t).threads[t].Claim?
    requires s.threads[t].my - s.threads[t].over - s.tail <= HALF
    ensures s.threads[t].my - s.threads[t].over < s.tail
  {
    CircularLessSound(s.threads[t].my - s.threads[t].over, s.tail);
  }

  lemma TicketWins(s: State, t: nat)
    requires Inv(s) && Calm(s) && t < |s.threads| && HasTicket(s.threads[t])
    ensures WinsOk(Step(s, t))
  {
    var my, m := s.threads[t].my, Verdict(s, t);
    TicketCounted(s, t);
    if m == Won {
      DecisionSound(s, t);
    }
    MarkWins(s, my, m);
  }

  lemma LoadCounted(s: State, t: nat)
    requires Counted(s) && t < |s.threads| && (s.threads[t].Idle? || s.threads[t].LoadOver? || s.threads[t].Test?)
    ensures Counted(Step(s, t))
  {
    var s' := Step(s, t);
    forall u: nat | u < |s'.threads| ensures PcOk(s', s'.threads[u]) { assert PcOk(s, s.threads[u]); }
    forall j: nat | j < |s'.tickets| && !Settled(s'.tickets[j]) ensures Held(s'.threads, j) {
      StillHeld(s.threads, t, s'.threads[t], j);
    }
  }

  lemma NextCounted(s: State, s': State)
    requires Counted(s) && Next(s, s')
    ensures Counted(s') && |s'.threads| == |s.threads| && s.over <= s'.over
  {
    if s' == Publish(s) {
      forall u: nat | u < |s'.threads| ensures PcOk(s', s'.threads[u]) { assert PcOk(s, s.threads[u]); }
    } else {
      var t: nat :| t < |s.threads| && s' == Step(s, t);
      if s.threads[t].Bump? {
        BumpCounted(s, t);
      } else if HasTicket(s.threads[t]) {
        TicketCounted(s, t);
      } else {
        LoadCounted(s, t);
      }
    }
  }

  lemma NextInv(s: State, s': State)
    requires Inv(s) && Next(s, s') && Calm(s)
    ensures Inv(s')
  {
    NextCounted(s, s');
    if s' != Publish(s) {
      var t: nat :| t < |s.threads| && s' == Step(s, t);
      if s.threads[t].Bump? {
        BumpWins(s, t);
      } else if HasTicket(s.threads[t]) {
        TicketWins(s, t);
      }
    }
  }

  ghost function Starts(): State -> bool { (s: State) => Init(s) }
  ghost function Steps(): (State, State) -> bool { (s: State, s': State) => Next(s, s') }

  lemma RunCounted(run: seq<State>, k: nat)
    requires Trace(run, Starts(), Steps()) && k < |run|
    ensures Counted(run[k])
  {
    forall s, s' | Counted(s) && Steps()(s, s') ensures Counted(s') { NextCounted(s, s'); }
    Always(run, Starts(), Steps(), s => Counted(s), k);
  }

  /** In the first k states of the run, failed dequeues and dequeues under way number at most c. */
  ghost predicate Within(run: seq<State>, k: nat, c: nat) {
    k <= |run| && forall i :: 0 <= i < k ==> LoadOf(run[i]) <= c
  }

  lemma {:induction false} RunInv(run: seq<State>, k: nat)
    requires Trace(run, Starts(), Steps()) && k < |run| && Within(run, k, HALF + 1)
    ensures Inv(run[k])
    decreases k
  {
    if k == 0 {
      InitInv(run[0]);
    } else {
      var s, s' := run[k - 1], run[k];
      RunInv(run, k - 1);
      assert Steps()(s, s');
      assert Calm(s) by { WithinAt(run, k, HALF + 1, k - 1); }
      StepInv(s, s');
    }
  }

  lemma StepInv(s: State, s': State)
    requires Steps()(s, s') && Inv(s) && Calm(s)
    ensures Inv(s')
  {
    NextInv(s, s');
  }

  lemma WithinAt(run: seq<State>, k: nat, c: nat, i: nat)
    requires Within(run, k, c) && i < k
    ensures LoadOf(run[i]) <= c
  {
  }

  lemma InitInv(s: State)
    requires Init(s)
    ensures Inv(s)
  {
  }

  /** Few threads and failed dequeues at the end mean few all along: threads stay and the overcommit counter only
      grows. */
  lemma {:induction false} CalmSoFar(run: seq<State>, k: nat, i: nat)
    requires Trace(run, Starts(), Steps()) && i <= k < |run| && run[k].over + |run[k].threads| <= HALF + 1
    ensures run[i].over + |run[i].threads| <= HALF + 1
    decreases k - i
  {
    if i < k {
      CalmSoFar(run, k, i + 1);
      RunCounted(run, i);
      assert Steps()(run[i], run[i + 1]);
      NextCounted(run[i], run[i + 1]);
    }
  }

  lemma ClaimBelowTail(s: State)
    requires Inv(s)
    ensures s.head <= s.tail
    ensures forall t: nat :: t < |s.threads| && s.threads[t].Claim? ==> s.head < s.tail
  {
    WinsBelowTail(s.tickets, s.opt, s.tail);
    CountsDisjoint(s.tickets, s.opt);
    forall t: nat | t < |s.threads| && s.threads[t].Claim?
      ensures s.head < s.tail
    {
      assert PcOk(s, s.threads[t]);
      OutstandingWin(s.tickets, s.opt, s.threads[t].my);
    }
  }

  /** In every interleaving of any number of consumers, a consumer that goes on to take an index from headIndex takes
      one that is already published; since headIndex only grows, all indices taken are distinct and below tailIndex.
      This holds as long as the failed dequeues and the other threads together number at most 2^63. */
  lemma NeverOverclaims(run: seq<State>, k: nat)
    requires Trace(run, Starts(), Steps()) && k < |run| && run[k].over + |run[k].threads| <= HALF + 1
    ensures run[k].head <= run[k].tail
    ensures forall t: nat :: t < |run[k].threads| && run[k].threads[t].Claim? ==> run[k].head < run[k].tail
  {
    forall i | 0 <= i < k
      ensures LoadOf(run[i]) <= HALF + 1
    {
      CalmSoFar(run, k, i);
      FewThreads(run[i]);
    }
    RunInv(run, k);
    ClaimBelowTail(run[k]);
  }

  lemma {:induction false} AllSettled(q: seq<Ticket>, n: nat)
    requires n <= |q| && forall k: nat :: k < n ==> Settled(q[k])
    ensures Takes(q, n) + Returns(q, n) == n
  {
    if n > 0 { AllSettled(q, n - 1); }
  }

  /** Conservation: with no consumer in the middle of a dequeue, every bump of the optimistic counter is accounted for
      by an index taken or a ticket given back, so "optimistic - overcommit" is exactly the head index again. */
  lemma OptimisticCountIsConserved(run: seq<State>, k: nat)
    requires Trace(run, Starts(), Steps()) && k < |run|
    requires forall t: nat :: t < |run[k].threads| ==> !HasTicket(run[k].threads[t])
    ensures run[k].opt - run[k].over == run[k].head
  {
    RunCounted(run, k);
    AllSettled(run[k].tickets, run[k].opt);
  }

  // ---------- the bound is exact ----------

  ghost function Last(run: seq<State>): State
    requires run != []
  {
    run[|run| - 1]
  }

  /** Three threads, never all of them under way, and at most n failed dequeues. */
  predicate Mild(s: State, n: nat) {
    |s.threads| == 3 && s.over <= n && (!HasTicket(s.threads[0]) || !HasTicket(s.threads[1]))
  }

  lemma MildIsBusyBelow(s: State, n: nat)
    requires Mild(s, n)
    ensures LoadOf(s) <= n + 2
  {
    var q := s.threads;
    var a, b := HeldSet(q[1..][1..]), HeldSet(q[1..]);
    assert |q[1..][1..][1..]| == 0;
    HeldCount(q[1..][1..]);
    HeldCount(q[1..]);
    if HasTicket(q[0]) {
      assert HeldSet(q) == b + {q[0].my} && b == a;
    }
  }

  /** A run made of mild states. */
  ghost predicate MildRun(run: seq<State>, n: nat) {
    Trace(run, Starts(), Steps()) && forall i :: 0 <= i < |run| ==> Mild(run[i], n)
  }

  lemma Append(run: seq<State>, n: nat, s: State) returns (run': seq<State>)
    requires MildRun(run, n) && Next(Last(run), s) && Mild(s, n)
    ensures MildRun(run', n) && Last(run') == s
  {
    run' := run + [s];
    forall i, j | 0 <= i && j == i + 1 < |run'|
      ensures Steps()(run'[i], run'[j])
    {
      if j < |run| { assert Steps()(run[i], run[j]); }
    }
  }

  lemma Go(run: seq<State>, n: nat, t: nat) returns (run': seq<State>)
    requires MildRun(run, n) && t < 3 && Mild(Step(Last(run), t), n)
    ensures MildRun(run', n) && Last(run') == Step(Last(run), t)
  {
    run' := Append(run, n, Step(Last(run), t));
  }

  // Thread t finds an element and is about to draw a ticket.
  lemma Enter(run: seq<State>, n: nat, t: nat) returns (run': seq<State>)
    requires MildRun(run, n) && t < 3 && Last(run).threads[t] == Idle
    requires var s := Last(run); s.opt - s.over == s.tail - 1
    ensures MildRun(run', n)
    ensures var s := Last(run); Last(run') == s.(threads := s.threads[t := Bump(s.over)])
  {
    var s := Last(run);
    CircularLessIsLess(s.opt - s.over, s.tail);
    run' := Go(run, n, t);
    run' := Go(run', n, t);
    run' := Go(run', n, t);
    assert Last(run').threads == s.threads[t := Bump(s.over)];
  }

  // Thread t draws the ticket that wins the last element, and takes it.
  lemma WinAndTake(run: seq<State>, n: nat, t: nat) returns (run': seq<State>)
    requires MildRun(run, n) && 0 < t < 3 && !HasTicket(Last(run).threads[0]) && |Last(run).tickets| == Last(run).opt
    requires var s := Last(run); s.threads[t] == Bump(s.over) && s.opt - s.over == s.tail - 1
    ensures MildRun(run', n) && |Last(run').tickets| == Last(run').opt
    ensures var s := Last(run);
      Last(run') == s.(head := s.head + 1, opt := s.opt + 1, threads := s.threads[t := Idle],
          tickets := Last(run').tickets)
  {
    var s := Last(run);
    CircularLessIsLess(s.opt - s.over, s.tail);
    run' := Go(run, n, t);
    run' := Go(run', n, t);
    run' := Go(run', n, t);
    assert Last(run').threads == s.threads[t := Idle];
  }

  // Thread t draws a ticket too late, and gives it back.
  lemma LoseAndReturn(run: seq<State>, n: nat, t: nat) returns (run': seq<State>)
    requires MildRun(run, n) && 0 < t < 3 && !HasTicket(Last(run).threads[0]) && |Last(run).tickets| == Last(run).opt
    requires var s := Last(run); s.threads[t] == Bump(s.over) && s.opt - s.over == s.tail && s.over < n
    ensures MildRun(run', n) && |Last(run').tickets| == Last(run').opt
    ensures var s := Last(run);
      Last(run') == s.(over := s.over + 1, opt := s.opt + 1, threads := s.threads[t := Idle],
          tickets := Last(run').tickets)
  {
    var s := Last(run);
    CircularLessIsLess(s.opt - s.over, s.tail);
    run' := Go(run, n, t);
    run' := Go(run', n, t);
    run' := Go(run', n, t);
    assert Last(run').threads == s.threads[t := Idle];
  }

  /** One element published and not taken, k tickets returned, thread 0 about to draw with a count of 0 it loaded long
      ago. */
  ghost predicate Stalled(s: State, k: nat) {
    && s.tail == k + 1 && s.head == k && s.opt == 2 * k && s.over == k && |s.tickets| == s.opt
    && s.threads == [Bump(0), Idle, Idle]
  }

  /** Each round threads 1 and 2 race for one element: one takes it, one gives its ticket back. */
  lemma {:induction false} Rounds(n: nat, k: nat) returns (run: seq<State>)
    requires k <= n
    ensures MildRun(run, n) && Stalled(Last(run), k)
    decreases k
  {
    if k == 0 {
      var s := State(0, 0, 0, 0, [Idle, Idle, Idle], []);
      run := [s];
      assert MildRun(run, n);
      run := Append(run, n, Publish(s));
      run := Enter(run, n, 0);
    } else {
      run := Rounds(n, k - 1);
      run := Enter(run, n, 1);
      run := Enter(run, n, 2);
      run := WinAndTake(run, n, 1);
      run := LoseAndReturn(run, n, 2);
      run := Append(run, n, Publish(Last(run)));
      assert Last(run).threads == [Bump(0), Idle, Idle];
    }
  }

  lemma StaleDecision(n: nat)
    requires HALF <= n < WORD - 1
    ensures CircularLess(Word(2 * n + 2), Word(n + 1))
  {
    WrappedDifference(2 * n + 2, n + 1);
  }

  /** With 2^63 failed dequeues and three threads, two of them under way at most, a consumer that held on to an old
      overcommit count can take an index that is not published. */
  lemma OverclaimsBeyond() returns (run: seq<State>)
    ensures MildRun(run, HALF) && Last(run).head > Last(run).tail
  {
    var n := HALF;
    run := Rounds(n, n);
    run := Enter(run, n, 1);
    run := Enter(run, n, 2);
    run := WinAndTake(run, n, 1);
    run := Go(run, n, 2);
    run := Go(run, n, 0);
    assert Last(run).threads[0] == Recheck(0, 2 * n + 2);
    StaleDecision(n);
    run := Go(run, n, 0);
    assert Last(run).threads[0] == Claim(2 * n + 2);
    run := Go(run, n, 0);
  }

  /** No run overclaims in which the failed dequeues and the dequeues under way never number more than c. */
  ghost predicate SafeUpTo(c: nat) {
    forall run: seq<State> :: Trace(run, Starts(), Steps()) && Within(run, |run|, c) ==>
        Last(run).head <= Last(run).tail
  }

  lemma CalmRunIsSafe(run: seq<State>, c: nat)
    requires Trace(run, Starts(), Steps()) && Within(run, |run|, c) && c <= HALF + 1
    ensures Last(run).head <= Last(run).tail
  {
    RunInv(run, |run| - 1);
    ClaimBelowTail(Last(run));
  }

  lemma MildRunIsWithin(run: seq<State>)
    requires MildRun(run, HALF)
    ensures Within(run, |run|, HALF + 2)
  {
    forall i | 0 <= i < |run|
      ensures LoadOf(run[i]) <= HALF + 2
    {
      MildIsBusyBelow(run[i], HALF);
    }
  }

  /** The dequeue never overclaims exactly as long as failed dequeues and dequeues under way number at most 2^63 + 1. */
  lemma SafeIffCalm(c: nat)
    ensures SafeUpTo(c) <==> c <= HALF + 1
  {
    if c <= HALF + 1 {
      forall run: seq<State> | Trace(run, Starts(), Steps()) && Within(run, |run|, c)
        ensures Last(run).head <= Last(run).tail
      {
        CalmRunIsSafe(run, c);
      }
    } else {
      var run := OverclaimsBeyond();
      MildRunIsWithin(run);
      assert Within(run, |run|, c);
    }
  }
}
