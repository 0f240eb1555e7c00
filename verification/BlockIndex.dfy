/** One producer's blocks and its circular block index, with any number of consumers looking claimed indices up in it.
    Block b, counted from the start, holds the elements with indices from b * BLOCK_SIZE on. `enq` holds every element
    published, so that the unwrapped tail index is its length. */
module BlockIndex {
  import opened Bits

  const BLOCK_SIZE: nat := 32
  /** Blocks in the range of an index: 2^64 / 32. */
  const MAX_BLOCKS: nat := 0x800_0000_0000_0000

  datatype Entry = Entry(base: nat, block: nat)

  /** size is 2 to the power `log`; `off` is the block that slot 0 was first used for, `hi` the number of blocks
      entered. */
  datatype Header = Header(log: nat, front: nat, entries: seq<Entry>, off: nat, hi: nat)

  function Size(h: Header): nat {
    Pow2(h.log)
  }

  datatype ProducerPc =
    | Idle
    | Start(v: int)
    | Alloc(v: int)
    | WriteBase(v: int)
    | WriteBlock(v: int)
    | StoreFront(v: int)
    | WriteElement(v: int)
    | Publish(v: int)

  datatype ConsumerPc =
    | Away
    | LoadHeader(i: nat)
    | LoadFront(i: nat, h: nat)
    | LoadBase(i: nat, h: nat, front: nat, m: nat)
    | Lookup(i: nat, h: nat, front: nat, base: nat, m: nat)
    | Take(i: nat, block: nat)
    | SetEmpty(i: nat, block: nat)

  /** `phys` names the memory block used for each block so far; those from lo on form the ring, the oldest first.
      `got` and `done` are history: the values taken, and the indices whose flag was set. */
  datatype State = State(
    enq: seq<int>, head: nat,
    phys: seq<nat>, lo: nat, mem: map<nat, seq<int>>, flags: map<nat, seq<bool>>,
    headers: seq<Header>, prFront: nat,
    got: map<nat, int>, done: set<nat>,
    producer: ProducerPc, threads: seq<ConsumerPc>)

  // ---------- the producer ----------

  function Current(s: State): Header
    requires s.headers != []
  {
    s.headers[|s.headers| - 1]
  }

  predicate AllTrue(flags: seq<bool>) {
    forall j :: 0 <= j < |flags| ==> flags[j]
  }

  /** The next block of the ring is empty. */
  predicate CanReuse(s: State) {
    s.lo < |s.phys| && s.phys[s.lo] in s.flags && AllTrue(s.flags[s.phys[s.lo]])
  }

  function Flags(value: bool): seq<bool> {
    seq(BLOCK_SIZE, _ => value)
  }

  /** The copy loop: the used slots in order, from the oldest on. */
  function Copied(entries: seq<Entry>, from: nat, count: nat): (r: seq<Entry>)
    requires entries != []
    ensures |r| == count
  {
    seq(count, j requires 0 <= j < count => entries[And(from + j, |entries| - 1)])
  }

  function NewIndex(h: Header, prFront: nat, lo: nat, used: nat): Header
    requires |h.entries| == Size(h) && used <= prFront + Size(h) && used <= Pow2(h.log + 1)
  {
    var kept := Copied(h.entries, And(prFront + Size(h) - used, Size(h) - 1), used);
    Header(h.log + 1, if used == 0 then 0 else used - 1, kept + seq(Pow2(h.log + 1) - used, _ => Entry(0, 0)), lo,
        lo + used)
  }

  /** The step relation of the producer. A call that fails goes back to Idle. */
  ghost predicate ProducerNext(s: State, s': State) {
    s.headers != [] &&
    match s.producer
    case Idle => exists v :: s' == s.(producer := Start(v))
    case Start(v) =>
      if |s.enq| % BLOCK_SIZE != 0 then s' == s.(producer := WriteElement(v))
      else
        || Reuses(s, s', v)
        || Grows(s, s', v)
        || (|s.phys| - s.lo != Size(Current(s)) && s' == s.(producer := Alloc(v)))
        || s' == s.(producer := Idle)
    case Alloc(v) => s' == s.(producer := Idle) || exists x: nat :: Allocates(s, s', v, x)
    case WriteBase(v) => WritesBase(s, s', v)
    case WriteBlock(v) => WritesBlock(s, s', v)
    case StoreFront(v) => StoresFront(s, s', v)
    case WriteElement(v) => WritesElement(s, s', v)
    case Publish(v) => s' == s.(enq := s.enq + [v], producer := Idle)
  }

  ghost predicate Reuses(s: State, s': State, v: int) {
    CanReuse(s) && s' == s.(phys := s.phys + [s.phys[s.lo]], lo := s.lo + 1,
                            flags := s.flags[s.phys[s.lo] := Flags(false)], producer := WriteBase(v))
  }

  /** A full index is replaced by one of twice the size, while that is within the range of the index type. */
  ghost predicate Grows(s: State, s': State, v: int) {
    && s.headers != [] && s.lo <= |s.phys| && |s.phys| - s.lo == Size(Current(s))
        && |Current(s).entries| == Size(Current(s))
    && Current(s).log + 1 <= 59
    && var used := |s.phys| - s.lo;
       s' == s.(headers := s.headers + [NewIndex(Current(s), s.prFront, s.lo, used)], prFront := used,
           producer := Alloc(v))
  }

  /** Any block of memory that is not in the ring. */
  ghost predicate Allocates(s: State, s': State, v: int, x: nat) {
    && s.lo <= |s.phys| && x !in s.phys[s.lo..]
    && exists junk: seq<int> :: |junk| == BLOCK_SIZE &&
         s' == s.(phys := s.phys + [x], mem := s.mem[x := junk], flags := s.flags[x := Flags(false)],
             producer := WriteBase(v))
  }

  ghost predicate WithEntry(s: State, s': State, e: Entry, next: ProducerPc)
    requires s.headers != []
  {
    var h := Current(s);
    s.prFront < |h.entries| &&
    s' == s.(headers := s.headers[|s.headers| - 1 := h.(entries := h.entries[s.prFront := e])], producer := next)
  }

  ghost predicate WritesBase(s: State, s': State, v: int)
    requires s.headers != []
  {
    s.prFront < |Current(s).entries| &&
    WithEntry(s, s', Current(s).entries[s.prFront].(base := Word(|s.enq|)), WriteBlock(v))
  }

  ghost predicate WritesBlock(s: State, s': State, v: int)
    requires s.headers != []
  {
    s.prFront < |Current(s).entries| && s.phys != [] &&
    WithEntry(s, s', Current(s).entries[s.prFront].(block := s.phys[|s.phys| - 1]), StoreFront(v))
  }

  ghost predicate StoresFront(s: State, s': State, v: int)
    requires s.headers != []
  {
    var h := Current(s);
    s' == s.(headers := s.headers[|s.headers| - 1 := h.(front := s.prFront, hi := h.hi + 1)],
             prFront := And(s.prFront + 1, Size(h) - 1), producer := WriteElement(v))
  }

  ghost predicate WritesElement(s: State, s': State, v: int) {
    s.phys != [] &&
    var x := s.phys[|s.phys| - 1];
    && x in s.mem && |s.mem[x]| == BLOCK_SIZE
    && s' == s.(mem := s.mem[x := s.mem[x][|s.enq| % BLOCK_SIZE := v]], producer := Publish(v))
  }

  // ---------- the consumers ----------

  /** The slot a consumer computes, on machine words: the difference of the bases is divided as an unsigned number. */
  function LookupSlot(index: nat, front: nat, headBase: nat, size: nat): nat
    requires size > 0
  {
    var blockBase := index - index % BLOCK_SIZE;
    var offset := Word(blockBase - headBase) / BLOCK_SIZE;
    And(Word(front + offset), size - 1)
  }

  function Goto(s: State, t: nat, pc: ConsumerPc): State
    requires t < |s.threads|
  {
    s.(threads := s.threads[t := pc])
  }

  /** A step of consumer t; a consumer takes an index from headIndex only below the published tail. */
  ghost predicate ConsumerNext(s: State, s': State, t: nat)
    requires t < |s.threads|
  {
    match s.threads[t]
    case Away => s.head < |s.enq| && s' == Goto(s, t, LoadHeader(s.head)).(head := s.head + 1)
    case LoadHeader(i) => s.headers != [] && s' == Goto(s, t, LoadFront(i, |s.headers| - 1))
    case LoadFront(i, h) =>
      && h < |s.headers| && s.headers[h].hi > 0
      && s' == Goto(s, t, LoadBase(i, h, s.headers[h].front, s.headers[h].hi - 1))
    case LoadBase(i, h, front, m) =>
      && h < |s.headers| && front < |s.headers[h].entries|
      && s' == Goto(s, t, Lookup(i, h, front, s.headers[h].entries[front].base, m))
    case Lookup(i, h, front, base, m) =>
      && h < |s.headers|
      && var slot := LookupSlot(Word(i), front, base, Size(s.headers[h]));
         slot < |s.headers[h].entries| && s' == Goto(s, t, Take(i, s.headers[h].entries[slot].block))
    case Take(i, block) =>
      && block in s.mem && |s.mem[block]| == BLOCK_SIZE
      && s' == Goto(s, t, SetEmpty(i, block)).(got := s.got[i := s.mem[block][Word(i) % BLOCK_SIZE]])
    case SetEmpty(i, block) =>
      && block in s.flags && |s.flags[block]| == BLOCK_SIZE
      && s' == Goto(s, t, Away).(flags := s.flags[block := s.flags[block][Word(i) % BLOCK_SIZE := true]],
          done := s.done + {i})
  }

  ghost predicate Next(s: State, s': State) {
    ProducerNext(s, s') || exists t: nat :: t < |s.threads| && ConsumerNext(s, s', t)
  }

  /** After construction: no block, and an empty index of at least 32 slots (more if the pool of blocks is larger). */
  ghost predicate Init(s: State) {
    && s.enq == [] && s.head == 0 && s.phys == [] && s.lo == 0
    && |s.headers| == 1 && 5 <= s.headers[0].log <= 59 && |s.headers[0].entries| == Size(s.headers[0])
    && s.headers[0].off == 0 && s.headers[0].hi == 0
    && s.prFront == 0 && s.got == map[] && s.done == {} && s.producer == Idle
    && forall t :: 0 <= t < |s.threads| ==> s.threads[t] == Away
  }
}
