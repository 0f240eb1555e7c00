/** The block a consumer looks up is the one that holds its index, so every claimed index yields its element, once. */
module BlockIndexProof {
  import opened Bits
  import opened Traces
  import opened BlockIndex

  // ---------- slots ----------

  /** The slot of block b: its distance from block `off`, round the index. */
  ghost function Slot(off: nat, size: nat, b: nat): (r: nat)
    requires size > 0 && off <= b
    ensures r < size
    decreases b
  {
    if b < off + size then b - off else Slot(off, size, b - size)
  }

  lemma {:induction false} SlotIsMod(off: nat, size: nat, b: nat)
    requires size > 0 && off <= b
    ensures Slot(off, size, b) == (b - off) % size
    decreases b
  {
    if b < off + size {
      DivModUnique(b - off, size, 0, b - off);
    } else {
      SlotIsMod(off, size, b - size);
      var q, r := (b - size - off) / size, (b - size - off) % size;
      MulDist(size, q, 1);
      DivModUnique(b - off, size, q + 1, r);
    }
  }

  lemma {:induction false} SlotsDiffer(off: nat, size: nat, a: nat, b: nat)
    requires size > 0 && off <= a < b < a + size
    ensures Slot(off, size, a) != Slot(off, size, b)
    decreases a
  {
    if a >= off + size {
      SlotsDiffer(off, size, a - size, b - size);
    } else if b >= off + size {
      assert Slot(off, size, b) == b - size - off;
    }
  }

  /** Masking a later slot number is going on round the index. */
  lemma MaskedSlot(off: nat, log: nat, b: nat, j: nat)
    requires off <= b
    ensures And(Slot(off, Pow2(log), b) + j, Pow2(log) - 1) == Slot(off, Pow2(log), b + j)
  {
    var size := Pow2(log);
    MaskIsMod(Slot(off, size, b) + j, log);
    SlotIsMod(off, size, b);
    SlotIsMod(off, size, b + j);
    ShiftMod(b - off, b + j - off, size, 0);
  }

  lemma SlotsOfRange(log: nat)
    requires log <= 59
    ensures MAX_BLOCKS == Pow2(log) * Pow2(59 - log) && Pow2(log) <= MAX_BLOCKS
  {
    Pow2Add(log, 59 - log);
    Pow2Monotone(log, 59);
    Pow2Values();
    Pow2Add(59, 5);
  }

  lemma WordOfIndex(i: nat)
    ensures Word(i) % BLOCK_SIZE == i % BLOCK_SIZE
    ensures Word(i) - Word(i) % BLOCK_SIZE == Word(BLOCK_SIZE * (i / BLOCK_SIZE))
  {
    var w, q, b, r := Word(i), i / WORD, i / BLOCK_SIZE, i % BLOCK_SIZE;
    assert i == WORD * q + w && i == BLOCK_SIZE * b + r && WORD == BLOCK_SIZE * MAX_BLOCKS;
    DivModUnique(w, BLOCK_SIZE, b - MAX_BLOCKS * q, r);
    DivModUnique(BLOCK_SIZE * b, WORD, q, w - r);
  }

  /** The wrapped difference of two block bases, divided as an unsigned number. */
  lemma UnsignedOffset(b: nat, m: nat)
    requires b <= m && m - b < MAX_BLOCKS
    ensures Word(Word(BLOCK_SIZE * b) - Word(BLOCK_SIZE * m)) / BLOCK_SIZE == Offset(b, m)
  {
    var x, y := BLOCK_SIZE * b, BLOCK_SIZE * m;
    var d := Word(x) - Word(y);
    assert x == WORD * (x / WORD) + Word(x) && y == WORD * (y / WORD) + Word(y);
    var q := y / WORD - x / WORD;
    assert d == x - y + WORD * q;
    if b == m {
      DivModUnique(d, WORD, 0, 0);
    } else {
      DivModUnique(d, WORD, q - 1, WORD - (y - x));
    }
  }

  /** The lookup is exact: from the slot and the base of a later block, the slot of block i / BLOCK_SIZE. The unsigned
      quotient is off by 2^64 / BLOCK_SIZE when the difference is negative, which the power-of-two mask removes. */
  lemma LookupExact(i: nat, m: nat, off: nat, log: nat)
    requires log <= 59 && off <= i / BLOCK_SIZE <= m && m - i / BLOCK_SIZE < Pow2(log)
    ensures LookupSlot(Word(i), Slot(off, Pow2(log), m), Word(BLOCK_SIZE * m), Pow2(log)) ==
      Slot(off, Pow2(log), i / BLOCK_SIZE)
  {
    var b, size := i / BLOCK_SIZE, Pow2(log);
    assert size <= MAX_BLOCKS by { SlotsOfRange(log); }
    var front, offset, base := Slot(off, size, m), Offset(b, m), Word(BLOCK_SIZE * m);
    assert Word(Word(i) - Word(i) % BLOCK_SIZE - base) / BLOCK_SIZE == offset by {
      WordOfIndex(i);
      UnsignedOffset(b, m);
    }
    assert Word(front + offset) == front + offset by { SmallWord(front + offset); }
    LookupIs(Word(i), front, base, size, offset);
    assert And(front + offset, size - 1) == Slot(off, size, b) by { OffsetSlot(b, m, off, log); }
  }

  ghost function Offset(b: nat, m: nat): nat
    requires b <= m && m - b < MAX_BLOCKS
  {
    if b == m then 0 else MAX_BLOCKS - (m - b)
  }

  lemma SmallWord(x: nat)
    requires x <= 2 * MAX_BLOCKS
    ensures Word(x) == x
  {
  }

  lemma OffsetMod(b: nat, m: nat, off: nat, size: nat, k: nat)
    requires size > 0 && off <= b < m && m - b < MAX_BLOCKS == size * k
    ensures (Slot(off, size, m) + Offset(b, m)) % size == Slot(off, size, b)
  {
    SlotIsMod(off, size, m);
    SlotIsMod(off, size, b);
    ShiftMod(m - off, b - off, size, k);
  }

  lemma OffsetSlot(b: nat, m: nat, off: nat, log: nat)
    requires log <= 59 && off <= b <= m && m - b < Pow2(log) <= MAX_BLOCKS
    ensures And(Slot(off, Pow2(log), m) + Offset(b, m), Pow2(log) - 1) == Slot(off, Pow2(log), b)
  {
    if b == m {
      MaskedSlot(off, log, m, 0);
    } else {
      var x := Slot(off, Pow2(log), m) + Offset(b, m);
      assert x % Pow2(log) == Slot(off, Pow2(log), b) by {
        SlotsOfRange(log);
        OffsetMod(b, m, off, Pow2(log), Pow2(59 - log));
      }
      assert And(x, Pow2(log) - 1) == x % Pow2(log) by { MaskIsMod(x, log); }
    }
  }

  lemma LookupIs(index: nat, front: nat, headBase: nat, size: nat, offset: nat)
    requires size > 0 && Word(index - index % BLOCK_SIZE - headBase) / BLOCK_SIZE == offset
      && Word(front + offset) == front + offset
    ensures LookupSlot(index, front, headBase, size) == And(front + offset, size - 1)
  {
  }

  lemma ShiftMod(x: int, y: int, d: int, k: int)
    requires d > 0
    ensures (x % d + (d * k - (x - y))) % d == y % d
  {
    var q, p := x / d, y / d;
    var f, r, dq, dp, dk := x % d, y % d, d * q, d * p, d * k;
    assert x == dq + f && y == dp + r;
    Combine(d, k, p, q);
    assert f + (dk - (x - y)) == d * (k + p - q) + r;
    DivModUnique(f + (dk - (x - y)), d, k + p - q, r);
  }

  lemma Combine(d: int, k: int, p: int, q: int)
    ensures d * (k + p - q) == d * k + d * p - d * q
  {
  }

  // ---------- the invariant ----------

  /** The blocks from lo on are in memory blocks of their own. */
  ghost predicate RingOk(phys: seq<nat>, lo: nat) {
    && lo <= |phys| && (phys != [] ==> lo < |phys|)
    && forall a, b :: lo <= a < b < |phys| ==> phys[a] != phys[b]
  }

  /** A block's flags say which of its elements are done; the others that are published are in memory. */
  ghost predicate BlockHolds(mem: seq<int>, flags: seq<bool>, b: nat, enq: seq<int>, done: set<nat>) {
    && |mem| == |flags| == BLOCK_SIZE
    && forall j :: 0 <= j < BLOCK_SIZE ==>
         && (flags[j] <==> BLOCK_SIZE * b + j in done)
         && (BLOCK_SIZE * b + j < |enq| && BLOCK_SIZE * b + j !in done ==> mem[j] == enq[BLOCK_SIZE * b + j])
  }

  ghost predicate BlocksOk(s: State) {
    AllHold(s.phys, s.lo, s.mem, s.flags, s.enq, s.done)
  }

  ghost predicate AllHold(phys: seq<nat>, lo: nat, mem: map<nat, seq<int>>, flags: map<nat, seq<bool>>,
      enq: seq<int>, done: set<nat>) {
    forall b :: lo <= b < |phys| ==>
      phys[b] in mem && phys[b] in flags && BlockHolds(mem[phys[b]], flags[phys[b]], b, enq, done)
  }

  ghost predicate EntriesOk(entries: seq<Entry>, size: nat, off: nat, hi: nat, phys: seq<nat>, lo: nat)
    requires size > 0 && |entries| == size && off <= lo && hi <= |phys|
  {
    forall b {:trigger phys[b]} :: lo <= b < hi ==> EntryIs(entries, Slot(off, size, b), b, phys[b])
  }

  ghost predicate EntryIs(entries: seq<Entry>, slot: int, b: nat, block: nat) {
    0 <= slot < |entries| && entries[slot] == Entry(Word(BLOCK_SIZE * b), block)
  }

  /** An index, current or replaced, has the entries of all blocks of the ring up to its front. */
  ghost predicate HeaderOk(h: Header, phys: seq<nat>, lo: nat) {
    && h.log <= 59 && |h.entries| == Size(h) && h.off <= lo && h.hi <= |phys| && h.hi <= lo + Size(h)
    && (h.hi > 0 ==> h.off < h.hi && h.front == Slot(h.off, Size(h), h.hi - 1))
    && EntriesOk(h.entries, Size(h), h.off, h.hi, phys, lo)
  }

  ghost predicate HeadersOk(hs: seq<Header>, phys: seq<nat>, lo: nat) {
    hs != [] && forall h :: 0 <= h < |hs| ==> HeaderOk(hs[h], phys, lo)
  }

  ghost predicate ProducerOk(s: State)
    requires HeadersOk(s.headers, s.phys, s.lo)
  {
    PcOk(s.producer, Current(s), s.prFront, s.phys, s.lo, s.enq) && ElementReady(s.producer, s.phys, s.mem, |s.enq|)
  }

  ghost predicate PcOk(pc: ProducerPc, h: Header, prFront: nat, phys: seq<nat>, lo: nat, enq: seq<int>) {
    var n := |phys|;
    && h.off <= h.hi && prFront == Slot(h.off, Size(h), h.hi)
    && match pc
       case Idle | Start(_) => h.hi == n
           && (if n == 0 then enq == [] else BLOCK_SIZE * (n - 1) < |enq| <= BLOCK_SIZE * n)
       case Alloc(_) => h.hi == n && |enq| == BLOCK_SIZE * n && n < lo + Size(h)
       case WriteBase(_) => NewBlock(h, prFront, phys, lo, enq)
       case WriteBlock(_) => NewBlock(h, prFront, phys, lo, enq) && h.entries[prFront].base == Word(|enq|)
       case StoreFront(_) => NewBlock(h, prFront, phys, lo, enq)
           && h.entries[prFront] == Entry(Word(|enq|), phys[n - 1])
       case WriteElement(_) => h.hi == n && n > 0 && BLOCK_SIZE * (n - 1) <= |enq| < BLOCK_SIZE * n
       case Publish(_) => h.hi == n && n > 0 && BLOCK_SIZE * (n - 1) <= |enq| < BLOCK_SIZE * n
  }

  ghost predicate ElementReady(pc: ProducerPc, phys: seq<nat>, mem: map<nat, seq<int>>, tail: nat) {
    pc.Publish? ==>
      && phys != [] && phys[|phys| - 1] in mem && |mem[phys[|phys| - 1]]| == BLOCK_SIZE
      && mem[phys[|phys| - 1]][tail % BLOCK_SIZE] == pc.v
  }

  /** The last block of the ring is not in the index yet, and has a free slot there. */
  ghost predicate NewBlock(h: Header, prFront: nat, phys: seq<nat>, lo: nat, enq: seq<int>) {
    var n := |phys|;
    n > 0 && h.hi == n - 1 && |enq| == BLOCK_SIZE * (n - 1) && n <= lo + Size(h) && prFront < |h.entries|
  }

  ghost predicate DoneOk(s: State) {
    Delivered(s.head, s.enq, s.got, s.done) && GivenBack(s.lo, s.done)
  }

  ghost predicate Delivered(head: nat, enq: seq<int>, got: map<nat, int>, done: set<nat>) {
    && head <= |enq|
    && (forall i :: i in done ==> i < head && i in got)
    && (forall i :: i in got ==> i < head && got[i] == enq[i])
  }

  ghost predicate GivenBack(lo: nat, done: set<nat>) {
    forall i: nat :: i < BLOCK_SIZE * lo ==> i in done
  }

  /** Where a consumer is, with block b = i / BLOCK_SIZE not yet given back. */
  ghost predicate ThreadOk(pc: ConsumerPc, hs: seq<Header>, phys: seq<nat>, got: map<nat, int>) {
    match pc
    case Away => true
    case LoadHeader(i) => i !in got
    case LoadFront(i, h) => i !in got && h < |hs| && i / BLOCK_SIZE < hs[h].hi
    case LoadBase(i, h, front, m) => i !in got && h < |hs| && FrontOk(hs[h], i, front, m)
    case Lookup(i, h, front, base, m) => i !in got && h < |hs| && FrontOk(hs[h], i, front, m)
        && base == Word(BLOCK_SIZE * m)
    case Take(i, block) => i !in got && i / BLOCK_SIZE < |phys| && block == phys[i / BLOCK_SIZE]
    case SetEmpty(i, block) => i in got && i / BLOCK_SIZE < |phys| && block == phys[i / BLOCK_SIZE]
  }

  ghost predicate FrontOk(h: Header, i: nat, front: nat, m: nat) {
    i / BLOCK_SIZE <= m < h.hi && h.off <= m && front == Slot(h.off, Size(h), m)
  }

  ghost predicate Active(threads: seq<ConsumerPc>, t: nat) {
    t < |threads| && !threads[t].Away?
  }

  ghost predicate ThreadsOk(s: State) {
    EachOk(s.threads, s.head, s.done, s.headers, s.phys, s.got) && NoneShared(s.threads)
  }

  ghost predicate EachOk(threads: seq<ConsumerPc>, head: nat, done: set<nat>, hs: seq<Header>, phys: seq<nat>,
      got: map<nat, int>) {
    forall t: nat :: Active(threads, t) ==>
      threads[t].i < head && threads[t].i !in done && ThreadOk(threads[t], hs, phys, got)
  }

  ghost predicate NoneShared(threads: seq<ConsumerPc>) {
    forall t: nat, u: nat :: t < u && Active(threads, t) && Active(threads, u) ==> threads[t].i != threads[u].i
  }

  /** Every claimed index is done or some consumer's. */
  ghost predicate Accounted(s: State) {
    AllOwned(s.threads, s.head, s.done)
  }

  ghost predicate AllOwned(threads: seq<ConsumerPc>, head: nat, done: set<nat>) {
    forall i: nat :: i < head && i !in done ==> Owned(threads, i)
  }

  ghost predicate Owned(threads: seq<ConsumerPc>, i: nat) {
    exists t: nat :: Active(threads, t) && threads[t].i == i
  }

  ghost predicate Inv(s: State) {
    && RingOk(s.phys, s.lo) && BlocksOk(s) && HeadersOk(s.headers, s.phys, s.lo) && ProducerOk(s)
    && DoneOk(s) && ThreadsOk(s) && Accounted(s)
  }

  // ---------- consumer steps ----------

  lemma PublishedBlocks(s: State)
    requires HeadersOk(s.headers, s.phys, s.lo) && ProducerOk(s)
    ensures |s.enq| <= BLOCK_SIZE * Current(s).hi
  {
  }

  /** An index that is not done lies in the ring. */
  lemma InRing(s: State, i: nat)
    requires DoneOk(s) && i < s.head && i !in s.done && HeadersOk(s.headers, s.phys, s.lo) && ProducerOk(s)
    ensures s.lo <= i / BLOCK_SIZE < Current(s).hi <= |s.phys|
  {
    PublishedBlocks(s);
    assert HeaderOk(Current(s), s.phys, s.lo);
    assert i >= BLOCK_SIZE * s.lo;
  }

  lemma StillOwned(threads: seq<ConsumerPc>, t: nat, pc: ConsumerPc, i: nat)
    requires t < |threads| && Owned(threads, i)
    requires Active(threads, t) && threads[t].i == i ==> !pc.Away? && pc.i == i
    ensures Owned(threads[t := pc], i)
  {
    var u: nat :| Active(threads, u) && threads[u].i == i;
    assert Active(threads[t := pc], u) && threads[t := pc][u].i == i;
  }

  /** A consumer moves on with its index. */
  lemma MovesOn(s: State, t: nat, pc: ConsumerPc)
    requires Inv(s) && Active(s.threads, t) && !pc.Away? && pc.i == s.threads[t].i
    requires ThreadOk(pc, s.headers, s.phys, s.got)
    ensures Inv(Goto(s, t, pc))
  {
    ThreadsMoveOn(s.threads, t, pc, s);
  }

  lemma ThreadsMoveOn(threads: seq<ConsumerPc>, t: nat, pc: ConsumerPc, s: State)
    requires threads == s.threads && ThreadsOk(s) && Accounted(s) && Active(threads, t) && !pc.Away?
      && pc.i == threads[t].i
    requires ThreadOk(pc, s.headers, s.phys, s.got)
    ensures ThreadsOk(Goto(s, t, pc)) && Accounted(Goto(s, t, pc))
  {
    var s' := Goto(s, t, pc);
    forall u: nat | Active(s'.threads, u)
      ensures s'.threads[u].i < s.head && s'.threads[u].i !in s.done
        && ThreadOk(s'.threads[u], s.headers, s.phys, s.got)
    {
      assert Active(threads, u);
    }
    forall u: nat, v: nat | u < v && Active(s'.threads, u) && Active(s'.threads, v)
      ensures s'.threads[u].i != s'.threads[v].i
    {
      assert Active(threads, u) && Active(threads, v);
    }
    forall i: nat | i < s.head && i !in s.done
      ensures Owned(s'.threads, i)
    {
      StillOwned(threads, t, pc, i);
    }
  }

  /** The entry of a block of the ring, in any index that has it. */
  lemma EntryOf(h: Header, phys: seq<nat>, lo: nat, b: nat)
    requires HeaderOk(h, phys, lo) && lo <= b < h.hi
    ensures EntryIs(h.entries, Slot(h.off, Size(h), b), b, phys[b])
  {
  }

  lemma LookupStep(s: State, t: nat)
    requires Inv(s) && Active(s.threads, t) && s.threads[t].Lookup?
    ensures var pc := s.threads[t]; var h := s.headers[pc.h];
      EntryIs(h.entries, LookupSlot(Word(pc.i), pc.front, pc.base, Size(h)), pc.i / BLOCK_SIZE,
          s.phys[pc.i / BLOCK_SIZE])
  {
    var pc := s.threads[t];
    var h, b := s.headers[pc.h], pc.i / BLOCK_SIZE;
    assert ThreadOk(pc, s.headers, s.phys, s.got);
    InRing(s, pc.i);
    assert HeaderOk(h, s.phys, s.lo);
    LookupExact(pc.i, pc.m, h.off, h.log);
    EntryOf(h, s.phys, s.lo, b);
  }

  lemma LoadHeaderStep(s: State, t: nat)
    requires Inv(s) && Active(s.threads, t) && s.threads[t].LoadHeader?
    ensures Inv(Goto(s, t, LoadFront(s.threads[t].i, |s.headers| - 1)))
  {
    var pc := s.threads[t];
    assert ThreadOk(pc, s.headers, s.phys, s.got);
    InRing(s, pc.i);
    MovesOn(s, t, LoadFront(pc.i, |s.headers| - 1));
  }

  lemma FrontNow(h: Header, phys: seq<nat>, lo: nat, i: nat)
    requires HeaderOk(h, phys, lo) && i / BLOCK_SIZE < h.hi
    ensures FrontOk(h, i, h.front, h.hi - 1)
  {
  }

  lemma LoadFrontStep(s: State, t: nat, h: Header)
    requires Inv(s) && Active(s.threads, t) && s.threads[t].LoadFront? && s.threads[t].h < |s.headers|
      && h == s.headers[s.threads[t].h]
    requires h.hi > 0
    ensures Inv(Goto(s, t, LoadBase(s.threads[t].i, s.threads[t].h, h.front, h.hi - 1)))
  {
    var pc := s.threads[t];
    assert ThreadOk(pc, s.headers, s.phys, s.got);
    assert HeaderOk(h, s.phys, s.lo);
    FrontNow(h, s.phys, s.lo, pc.i);
    MovesOn(s, t, LoadBase(pc.i, pc.h, h.front, h.hi - 1));
  }

  lemma LoadBaseStep(s: State, t: nat, h: Header)
    requires Inv(s) && Active(s.threads, t) && s.threads[t].LoadBase? && s.threads[t].h < |s.headers|
      && h == s.headers[s.threads[t].h]
    ensures var pc := s.threads[t];
      pc.front < |h.entries| && Inv(Goto(s, t, Lookup(pc.i, pc.h, pc.front, h.entries[pc.front].base, pc.m)))
  {
    var pc := s.threads[t];
    assert ThreadOk(pc, s.headers, s.phys, s.got);
    InRing(s, pc.i);
    EntryOf(h, s.phys, s.lo, pc.m);
    MovesOn(s, t, Lookup(pc.i, pc.h, pc.front, h.entries[pc.front].base, pc.m));
  }

  lemma LookupMoves(s: State, t: nat)
    requires Inv(s) && Active(s.threads, t) && s.threads[t].Lookup?
    ensures var b := s.threads[t].i / BLOCK_SIZE;
      b < |s.phys| && Inv(Goto(s, t, Take(s.threads[t].i, s.phys[b])))
  {
    var pc := s.threads[t];
    assert ThreadOk(pc, s.headers, s.phys, s.got);
    InRing(s, pc.i);
    MovesOn(s, t, Take(pc.i, s.phys[pc.i / BLOCK_SIZE]));
  }

  lemma ClaimStep(s: State, t: nat)
    requires Inv(s) && t < |s.threads| && s.threads[t].Away? && s.head < |s.enq|
    ensures Inv(Goto(s, t, LoadHeader(s.head)).(head := s.head + 1))
  {
    var s' := Goto(s, t, LoadHeader(s.head)).(head := s.head + 1);
    assert ThreadsOk(s') by {
      forall u: nat | Active(s'.threads, u)
        ensures s'.threads[u].i < s'.head && s'.threads[u].i !in s.done
          && ThreadOk(s'.threads[u], s.headers, s.phys, s.got)
        ensures u != t ==> s'.threads[u].i < s.head
      {
        assert u != t ==> Active(s.threads, u);
      }
      forall u: nat, v: nat | u < v && Active(s'.threads, u) && Active(s'.threads, v)
        ensures s'.threads[u].i != s'.threads[v].i
      {
        assert u != t ==> Active(s.threads, u);
        assert v != t ==> Active(s.threads, v);
      }
    }
    forall i: nat | i < s'.head && i !in s'.done
      ensures Owned(s'.threads, i)
    {
      if i == s.head {
        assert Active(s'.threads, t) && s'.threads[t].i == i;
      } else {
        StillOwned(s.threads, t, LoadHeader(s.head), i);
      }
    }
  }

  /** The element a consumer takes is the one enqueued under its index. */
  lemma TakesItsElement(s: State, t: nat)
    requires Inv(s) && Active(s.threads, t) && s.threads[t].Take?
    ensures var pc := s.threads[t];
      && pc.block in s.mem && |s.mem[pc.block]| == BLOCK_SIZE && pc.i < |s.enq|
      && s.mem[pc.block][Word(pc.i) % BLOCK_SIZE] == s.enq[pc.i]
  {
    var pc := s.threads[t];
    var b, j := pc.i / BLOCK_SIZE, pc.i % BLOCK_SIZE;
    assert ThreadOk(pc, s.headers, s.phys, s.got);
    InRing(s, pc.i);
    WordOfIndex(pc.i);
    assert BlockHolds(s.mem[s.phys[b]], s.flags[s.phys[b]], b, s.enq, s.done);
    assert pc.i == BLOCK_SIZE * b + j;
  }

  lemma TakeStep(s: State, t: nat)
    requires Inv(s) && Active(s.threads, t) && s.threads[t].Take?
    ensures var pc := s.threads[t];
      pc.i < |s.enq| && Inv(Goto(s, t, SetEmpty(pc.i, pc.block)).(got := s.got[pc.i := s.enq[pc.i]]))
  {
    var pc := s.threads[t];
    assert ThreadOk(pc, s.headers, s.phys, s.got);
    var next := SetEmpty(pc.i, pc.block);
    var s' := Goto(s, t, next).(got := s.got[pc.i := s.enq[pc.i]]);
    assert ThreadsOk(s') by {
      forall u: nat | Active(s'.threads, u)
        ensures s'.threads[u].i < s.head && s'.threads[u].i !in s.done
          && ThreadOk(s'.threads[u], s.headers, s.phys, s'.got)
      {
        assert Active(s.threads, u);
        assert u != t ==> s.threads[u].i != pc.i;
      }
      forall u: nat, v: nat | u < v && Active(s'.threads, u) && Active(s'.threads, v)
        ensures s'.threads[u].i != s'.threads[v].i
      {
        assert Active(s.threads, u) && Active(s.threads, v);
      }
    }
    forall i: nat | i < s.head && i !in s.done
      ensures Owned(s'.threads, i)
    {
      StillOwned(s.threads, t, next, i);
    }
  }

  lemma FlagSet(mem: seq<int>, flags: seq<bool>, b: nat, enq: seq<int>, done: set<nat>, i: nat)
    requires BlockHolds(mem, flags, b, enq, done) && i / BLOCK_SIZE == b
    ensures BlockHolds(mem, flags[i % BLOCK_SIZE := true], b, enq, done + {i})
  {
    assert i == BLOCK_SIZE * b + i % BLOCK_SIZE;
  }

  lemma OtherBlock(mem: seq<int>, flags: seq<bool>, b: nat, enq: seq<int>, done: set<nat>, i: nat)
    requires BlockHolds(mem, flags, b, enq, done) && i / BLOCK_SIZE != b
    ensures BlockHolds(mem, flags, b, enq, done + {i})
  {
    forall j | 0 <= j < BLOCK_SIZE
      ensures flags[j] <==> BLOCK_SIZE * b + j in done + {i}
    {
      assert BLOCK_SIZE * b + j != i;
    }
  }

  lemma SetEmptyStep(s: State, s': State, t: nat)
    requires Inv(s) && Active(s.threads, t) && s.threads[t].SetEmpty? && ConsumerNext(s, s', t)
    ensures Inv(s')
  {
    var pc := s.threads[t];
    var b := pc.i / BLOCK_SIZE;
    assert ThreadOk(pc, s.headers, s.phys, s.got);
    InRing(s, pc.i);
    WordOfIndex(pc.i);
    forall a | s.lo <= a < |s.phys|
      ensures s.phys[a] in s'.flags && BlockHolds(s.mem[s.phys[a]], s'.flags[s.phys[a]], a, s.enq, s'.done)
    {
      assert BlockHolds(s.mem[s.phys[a]], s.flags[s.phys[a]], a, s.enq, s.done);
      if a == b {
        FlagSet(s.mem[s.phys[a]], s.flags[s.phys[a]], a, s.enq, s.done, pc.i);
      } else {
        OtherBlock(s.mem[s.phys[a]], s.flags[s.phys[a]], a, s.enq, s.done, pc.i);
      }
    }
    SetEmptyThreads(s, s', t);
  }

  lemma SetEmptyThreads(s: State, s': State, t: nat)
    requires ThreadsOk(s) && Accounted(s) && Active(s.threads, t)
    requires s'.threads == s.threads[t := Away] && s'.done == s.done + {s.threads[t].i}
    requires s'.head == s.head && s'.headers == s.headers && s'.phys == s.phys && s'.got == s.got
    ensures ThreadsOk(s') && Accounted(s')
  {
    forall u: nat | Active(s'.threads, u)
      ensures s'.threads[u].i < s.head && s'.threads[u].i !in s'.done
        && ThreadOk(s'.threads[u], s.headers, s.phys, s.got)
    {
      assert Active(s.threads, u) && u != t && s.threads[u].i != s.threads[t].i;
    }
    forall u: nat, v: nat | u < v && Active(s'.threads, u) && Active(s'.threads, v)
      ensures s'.threads[u].i != s'.threads[v].i
    {
      assert Active(s.threads, u) && Active(s.threads, v);
    }
    forall i: nat | i < s.head && i !in s'.done
      ensures Owned(s'.threads, i)
    {
      StillOwned(s.threads, t, Away, i);
    }
  }

  lemma LoadsKeep(s: State, s': State, t: nat)
    requires Inv(s) && Active(s.threads, t) && ConsumerNext(s, s', t)
    requires s.threads[t].LoadHeader? || s.threads[t].LoadFront? || s.threads[t].LoadBase?
    ensures Inv(s')
  {
    match s.threads[t] {
      case LoadHeader(_) => LoadHeaderStep(s, t);
      case LoadFront(_, h) => LoadFrontStep(s, t, s.headers[h]);
      case LoadBase(_, h, _, _) => LoadBaseStep(s, t, s.headers[h]);
      case _ =>
    }
  }

  lemma LookupKeeps(s: State, s': State, t: nat)
    requires Inv(s) && Active(s.threads, t) && ConsumerNext(s, s', t) && s.threads[t].Lookup?
    ensures Inv(s')
  {
    LookupStep(s, t);
    LookupMoves(s, t);
  }

  lemma TakeKeeps(s: State, s': State, t: nat)
    requires Inv(s) && Active(s.threads, t) && ConsumerNext(s, s', t) && s.threads[t].Take?
    ensures Inv(s')
  {
    TakesItsElement(s, t);
    TakeStep(s, t);
  }

  lemma ConsumerKeeps(s: State, s': State, t: nat)
    requires Inv(s) && t < |s.threads| && ConsumerNext(s, s', t)
    ensures Inv(s')
  {
    if s.threads[t].Away? {
      ClaimStep(s, t);
    } else {
      assert Active(s.threads, t);
      ActiveKeeps(s, s', t);
    }
  }

  lemma ActiveKeeps(s: State, s': State, t: nat)
    requires Inv(s) && Active(s.threads, t) && ConsumerNext(s, s', t)
    ensures Inv(s')
  {
    if s.threads[t].Lookup? {
      LookupKeeps(s, s', t);
    } else if s.threads[t].Take? {
      TakeKeeps(s, s', t);
    } else if s.threads[t].SetEmpty? {
      SetEmptyStep(s, s', t);
    } else {
      LoadsKeep(s, s', t);
    }
  }

  // ---------- producer steps ----------

  ghost predicate HeadersGrow(hs: seq<Header>, hs': seq<Header>) {
    |hs| <= |hs'| && forall h :: 0 <= h < |hs| ==>
        hs'[h].log == hs[h].log && hs'[h].off == hs[h].off && hs[h].hi <= hs'[h].hi
  }

  ghost predicate PhysGrow(phys: seq<nat>, phys': seq<nat>) {
    |phys| <= |phys'| && forall b :: 0 <= b < |phys| ==> phys'[b] == phys[b]
  }

  lemma ThreadsKept(s: State, s': State)
    requires ThreadsOk(s) && Accounted(s)
    requires s'.threads == s.threads && s'.head == s.head && s'.done == s.done && s'.got == s.got
    requires HeadersGrow(s.headers, s'.headers) && PhysGrow(s.phys, s'.phys)
    ensures ThreadsOk(s') && Accounted(s')
  {
    forall t: nat | Active(s.threads, t)
      ensures ThreadOk(s.threads[t], s'.headers, s'.phys, s.got)
    {
      assert ThreadOk(s.threads[t], s.headers, s.phys, s.got);
    }
  }

  lemma HeaderKept(h: Header, phys: seq<nat>, lo: nat, phys': seq<nat>, lo': nat)
    requires HeaderOk(h, phys, lo) && PhysGrow(phys, phys') && lo <= lo'
    ensures HeaderOk(h, phys', lo')
  {
  }

  lemma HeadersKept(hs: seq<Header>, phys: seq<nat>, lo: nat, phys': seq<nat>, lo': nat)
    requires HeadersOk(hs, phys, lo) && PhysGrow(phys, phys') && lo <= lo'
    ensures HeadersOk(hs, phys', lo')
  {
    forall h | 0 <= h < |hs|
      ensures HeaderOk(hs[h], phys', lo')
    {
      HeaderKept(hs[h], phys, lo, phys', lo');
    }
  }

  lemma FrontInRange(s: State)
    requires HeadersOk(s.headers, s.phys, s.lo) && ProducerOk(s)
    ensures s.prFront < |Current(s).entries|
  {
    var h := Current(s);
    assert HeaderOk(h, s.phys, s.lo);
  }

  /** A block newly put in the ring: no index in it is published or done. */
  lemma NewBlockHolds(mem: seq<int>, b: nat, enq: seq<int>, done: set<nat>)
    requires |mem| == BLOCK_SIZE && |enq| <= BLOCK_SIZE * b && forall i :: i in done ==> i < |enq|
    ensures BlockHolds(mem, Flags(false), b, enq, done)
  {
    forall j | 0 <= j < BLOCK_SIZE
      ensures Flags(false)[j] <==> BLOCK_SIZE * b + j in done
    {
    }
  }

  lemma AllDone(mem: seq<int>, flags: seq<bool>, b: nat, enq: seq<int>, done: set<nat>, i: nat)
    requires BlockHolds(mem, flags, b, enq, done) && AllTrue(flags) && i / BLOCK_SIZE == b
    ensures i in done
  {
    assert flags[i % BLOCK_SIZE] && i == BLOCK_SIZE * b + i % BLOCK_SIZE;
  }

  lemma ReuseStep(s: State, s': State, v: int)
    requires Inv(s) && s.producer == Start(v) && |s.enq| % BLOCK_SIZE == 0 && Reuses(s, s', v)
    ensures Inv(s')
  {
    var x := s.phys[s.lo];
    assert BlockHolds(s.mem[x], s.flags[x], s.lo, s.enq, s.done);
    NewBlockHolds(s.mem[x], |s.phys|, s.enq, s.done);
    RotatedBlocks(s, s', v);
    HeadersKept(s.headers, s.phys, s.lo, s'.phys, s'.lo);
    ReuseProducer(s, s', v);
    ReuseDone(s, s', v);
    ThreadsKept(s, s');
  }

  lemma AtBoundary(tail: nat, n: nat)
    requires tail % BLOCK_SIZE == 0 && BLOCK_SIZE * n - BLOCK_SIZE < tail <= BLOCK_SIZE * n
    ensures tail == BLOCK_SIZE * n
  {
  }

  lemma BoundaryPc(pc: ProducerPc, h: Header, prFront: nat, phys: seq<nat>, lo: nat, enq: seq<int>)
    requires pc.Start? && PcOk(pc, h, prFront, phys, lo, enq) && |enq| % BLOCK_SIZE == 0
    ensures |enq| == BLOCK_SIZE * |phys| && h.hi == |phys|
  {
    if phys != [] {
      AtBoundary(|enq|, |phys|);
    }
  }

  lemma ReuseProducer(s: State, s': State, v: int)
    requires HeadersOk(s.headers, s.phys, s.lo) && ProducerOk(s) && HeadersOk(s'.headers, s'.phys, s'.lo)
    requires s.producer == Start(v) && |s.enq| % BLOCK_SIZE == 0 && Reuses(s, s', v)
    ensures ProducerOk(s')
  {
    FrontInRange(s);
    assert HeaderOk(Current(s), s.phys, s.lo);
    BoundaryPc(s.producer, Current(s), s.prFront, s.phys, s.lo, s.enq);
    assert NewBlock(Current(s'), s'.prFront, s'.phys, s'.lo, s'.enq);
  }

  lemma ReuseDone(s: State, s': State, v: int)
    requires DoneOk(s) && Reuses(s, s', v) && s.phys[s.lo] in s.mem
    requires BlockHolds(s.mem[s.phys[s.lo]], s.flags[s.phys[s.lo]], s.lo, s.enq, s.done)
    ensures DoneOk(s')
  {
    var x := s.phys[s.lo];
    forall i: nat | i < BLOCK_SIZE * s'.lo
      ensures i in s.done
    {
      if i >= BLOCK_SIZE * s.lo {
        AllDone(s.mem[x], s.flags[x], s.lo, s.enq, s.done, i);
      }
    }
  }

  lemma RotatedBlocks(s: State, s': State, v: int)
    requires RingOk(s.phys, s.lo) && BlocksOk(s) && Reuses(s, s', v)
    requires s.phys[s.lo] in s.mem && BlockHolds(s.mem[s.phys[s.lo]], Flags(false), |s.phys|, s.enq, s.done)
    ensures RingOk(s'.phys, s'.lo) && BlocksOk(s')
  {
    forall b | s'.lo <= b < |s'.phys|
      ensures s'.phys[b] in s'.mem && s'.phys[b] in s'.flags
      ensures BlockHolds(s'.mem[s'.phys[b]], s'.flags[s'.phys[b]], b, s'.enq, s'.done)
    {
      if b < |s.phys| {
        assert s.phys[b] != s.phys[s.lo];
      }
    }
  }

  lemma AllocStep(s: State, s': State, v: int, x: nat)
    requires Inv(s) && s.producer == Alloc(v) && Allocates(s, s', v, x)
    ensures Inv(s')
  {
    HeadersKept(s.headers, s.phys, s.lo, s'.phys, s'.lo);
    FrontInRange(s);
    NewBlockHolds(s'.mem[x], |s.phys|, s.enq, s.done);
    AddedBlock(s, s', v, x);
    ThreadsKept(s, s');
  }

  lemma AddedBlock(s: State, s': State, v: int, x: nat)
    requires RingOk(s.phys, s.lo) && BlocksOk(s) && Allocates(s, s', v, x)
    requires BlockHolds(s'.mem[x], Flags(false), |s.phys|, s.enq, s.done)
    ensures RingOk(s'.phys, s'.lo) && BlocksOk(s')
  {
    forall b | s.lo <= b < |s.phys|
      ensures s.phys[b] != x
    {
      assert s.phys[s.lo..][b - s.lo] == s.phys[b];
    }
  }

  lemma CopiedEntry(h: Header, prFront: nat, phys: seq<nat>, lo: nat, j: nat)
    requires HeaderOk(h, phys, lo) && h.hi == |phys| == lo + Size(h) && prFront == Slot(h.off, Size(h), h.hi)
      && j < Size(h)
    ensures EntryIs(NewIndexEntries(h, prFront), j, lo + j, phys[lo + j])
  {
    CopiedFrom(h.entries, h.off, h.log, lo, j);
    EntryOf(h, phys, lo, lo + j);
  }

  lemma CopiedFrom(entries: seq<Entry>, off: nat, log: nat, lo: nat, j: nat)
    requires off <= lo && |entries| == Pow2(log) && j < Pow2(log)
    ensures var size := Pow2(log);
      Copied(entries, And(Slot(off, size, lo + size), size - 1), size)[j] == entries[Slot(off, size, lo + j)]
  {
    var size := Pow2(log);
    CopiedSlot(off, log, lo, j);
    CopiedAt(entries, And(Slot(off, size, lo + size), size - 1), size, j, Slot(off, size, lo + j));
  }

  lemma CopiedAt(entries: seq<Entry>, from: nat, count: nat, j: nat, slot: nat)
    requires entries != [] && j < count && And(from + j, |entries| - 1) == slot
    ensures Copied(entries, from, count)[j] == entries[slot]
  {
  }

  lemma CopiedSlot(off: nat, log: nat, lo: nat, j: nat)
    requires off <= lo
    ensures var size := Pow2(log);
      And(And(Slot(off, size, lo + size), size - 1) + j, size - 1) == Slot(off, size, lo + j)
  {
    MaskedSlot(off, log, lo + Pow2(log), 0);
    MaskedSlot(off, log, lo + Pow2(log), j);
  }

  ghost function NewIndexEntries(h: Header, prFront: nat): seq<Entry>
    requires |h.entries| == Size(h)
  {
    Copied(h.entries, And(prFront, Size(h) - 1), Size(h))
  }

  lemma NewIndexOk(h: Header, prFront: nat, phys: seq<nat>, lo: nat)
    requires HeaderOk(h, phys, lo) && h.hi == |phys| == lo + Size(h) && prFront == Slot(h.off, Size(h), h.hi)
      && h.log + 1 <= 59
    ensures Size(h) <= Pow2(h.log + 1)
    ensures HeaderOk(NewIndex(h, prFront, lo, Size(h)), phys, lo)
    ensures Size(h) == Slot(lo, Pow2(h.log + 1), |phys|)
  {
    var size := Size(h);
    assert Pow2(h.log + 1) == 2 * size;
    SmallSlot(lo, 2 * size, size - 1);
    SmallSlot(lo, 2 * size, size);
    NewEntriesOk(h, prFront, phys, lo);
  }

  lemma SmallSlot(lo: nat, size: nat, j: nat)
    requires j < size
    ensures Slot(lo, size, lo + j) == j
  {
  }

  lemma NewEntriesOk(h: Header, prFront: nat, phys: seq<nat>, lo: nat)
    requires HeaderOk(h, phys, lo) && h.hi == |phys| == lo + Size(h) && prFront == Slot(h.off, Size(h), h.hi)
    ensures Size(h) <= Pow2(h.log + 1)
    ensures EntriesOk(NewIndex(h, prFront, lo, Size(h)).entries, Pow2(h.log + 1), lo, |phys|, phys, lo)
  {
    var size := Size(h);
    var h' := NewIndex(h, prFront, lo, size);
    assert Pow2(h.log + 1) == 2 * size;
    forall b | lo <= b < |phys|
      ensures EntryIs(h'.entries, Slot(lo, 2 * size, b), b, phys[b])
    {
      var j := b - lo;
      SmallSlot(lo, 2 * size, j);
      CopiedEntry(h, prFront, phys, lo, j);
      assert h'.entries[j] == NewIndexEntries(h, prFront)[j];
    }
  }

  lemma GrowStep(s: State, s': State, v: int)
    requires Inv(s) && s.producer == Start(v) && |s.enq| % BLOCK_SIZE == 0 && Grows(s, s', v)
    ensures Inv(s')
  {
    var h := Current(s);
    assert HeaderOk(h, s.phys, s.lo);
    BoundaryPc(s.producer, h, s.prFront, s.phys, s.lo, s.enq);
    NewIndexOk(h, s.prFront, s.phys, s.lo);
    ThreadsKept(s, s');
  }

  lemma OtherEntries(h: Header, phys: seq<nat>, lo: nat, slot: nat, e: Entry)
    requires HeaderOk(h, phys, lo) && h.off <= h.hi < lo + Size(h) && slot == Slot(h.off, Size(h), h.hi)
      && slot < |h.entries|
    ensures HeaderOk(h.(entries := h.entries[slot := e]), phys, lo)
  {
    forall b | lo <= b < h.hi
      ensures EntryIs(h.entries[slot := e], Slot(h.off, Size(h), b), b, phys[b])
    {
      EntryOf(h, phys, lo, b);
      SlotsDiffer(h.off, Size(h), b, h.hi);
    }
  }

  lemma EntryStep(s: State, s': State, e: Entry, next: ProducerPc)
    requires Inv(s) && NewBlock(Current(s), s.prFront, s.phys, s.lo, s.enq) && WithEntry(s, s', e, next)
    ensures RingOk(s'.phys, s'.lo) && BlocksOk(s') && HeadersOk(s'.headers, s'.phys, s'.lo) && DoneOk(s')
      && ThreadsOk(s') && Accounted(s')
    ensures Current(s') == Current(s).(entries := Current(s).entries[s.prFront := e])
  {
    var h := Current(s);
    assert HeaderOk(h, s.phys, s.lo);
    OtherEntries(h, s.phys, s.lo, s.prFront, e);
    ThreadsKept(s, s');
  }

  lemma FrontStep(s: State, s': State, v: int)
    requires Inv(s) && s.producer == StoreFront(v) && StoresFront(s, s', v)
    ensures Inv(s')
  {
    var h := Current(s);
    assert HeadersOk(s'.headers, s.phys, s.lo) by { FrontHeaders(s, s', v); }
    assert ProducerOk(s') by { FrontPc(v, h, s.prFront, s.phys, s.lo, s.enq); }
    assert ThreadsOk(s') && Accounted(s') by { ThreadsKept(s, s'); }
  }

  lemma FrontHeaders(s: State, s': State, v: int)
    requires HeadersOk(s.headers, s.phys, s.lo) && ProducerOk(s) && s.producer == StoreFront(v) && StoresFront(s, s', v)
    ensures HeadersOk(s'.headers, s.phys, s.lo)
  {
    var h := Current(s);
    assert HeaderOk(h, s.phys, s.lo);
    FrontMoves(h, s.phys, s.lo, s.prFront);
  }

  lemma FrontPc(v: int, h: Header, prFront: nat, phys: seq<nat>, lo: nat, enq: seq<int>)
    requires PcOk(StoreFront(v), h, prFront, phys, lo, enq)
    ensures PcOk(WriteElement(v), h.(front := prFront, hi := h.hi + 1), And(prFront + 1, Size(h) - 1), phys, lo, enq)
  {
    MaskedSlot(h.off, h.log, h.hi, 1);
  }

  lemma FrontMoves(h: Header, phys: seq<nat>, lo: nat, slot: nat)
    requires HeaderOk(h, phys, lo) && h.off <= h.hi < |phys| && h.hi < lo + Size(h)
    requires slot == Slot(h.off, Size(h), h.hi) && h.entries[slot] == Entry(Word(BLOCK_SIZE * h.hi), phys[h.hi])
    ensures HeaderOk(h.(front := slot, hi := h.hi + 1), phys, lo)
  {
  }

  lemma ElementWritten(mem: seq<int>, flags: seq<bool>, b: nat, enq: seq<int>, done: set<nat>, v: int)
    requires BlockHolds(mem, flags, b, enq, done) && BLOCK_SIZE * b <= |enq| < BLOCK_SIZE * (b + 1)
    ensures BlockHolds(mem[|enq| % BLOCK_SIZE := v], flags, b, enq, done)
  {
    assert |enq| == BLOCK_SIZE * b + |enq| % BLOCK_SIZE;
  }

  lemma WriteStep(s: State, s': State, v: int)
    requires Inv(s) && s.producer == WriteElement(v) && WritesElement(s, s', v)
    ensures Inv(s')
  {
    WrittenBlocks(s, s', v);
    ThreadsKept(s, s');
  }

  lemma WrittenBlocks(s: State, s': State, v: int)
    requires RingOk(s.phys, s.lo) && BlocksOk(s) && WritesElement(s, s', v)
    requires BLOCK_SIZE * (|s.phys| - 1) <= |s.enq| < BLOCK_SIZE * |s.phys|
    ensures BlocksOk(s')
  {
    var n := |s.phys|;
    var x := s.phys[n - 1];
    ElementWritten(s.mem[x], s.flags[x], n - 1, s.enq, s.done, v);
    forall b | s.lo <= b < n
      ensures s.phys[b] in s'.mem && BlockHolds(s'.mem[s.phys[b]], s.flags[s.phys[b]], b, s.enq, s.done)
    {
      assert b != n - 1 ==> s.phys[b] != x;
    }
  }

  lemma ElementPublished(mem: seq<int>, flags: seq<bool>, b: nat, enq: seq<int>, done: set<nat>, v: int)
    requires BlockHolds(mem, flags, b, enq, done)
    requires |enq| / BLOCK_SIZE == b ==> mem[|enq| % BLOCK_SIZE] == v
    ensures BlockHolds(mem, flags, b, enq + [v], done)
  {
    forall j | 0 <= j < BLOCK_SIZE && BLOCK_SIZE * b + j == |enq|
      ensures mem[j] == v
    {
    }
  }

  lemma PublishStep(s: State, s': State, v: int)
    requires Inv(s) && s.producer == Publish(v) && s' == s.(enq := s.enq + [v], producer := Idle)
    ensures Inv(s')
  {
    forall b | s.lo <= b < |s.phys|
      ensures BlockHolds(s.mem[s.phys[b]], s.flags[s.phys[b]], b, s'.enq, s.done)
    {
      ElementPublished(s.mem[s.phys[b]], s.flags[s.phys[b]], b, s.enq, s.done, v);
    }
    ThreadsKept(s, s');
  }

  lemma OnlyPc(s: State, pc: ProducerPc)
    requires Inv(s) && ProducerOk(s.(producer := pc))
    ensures Inv(s.(producer := pc))
  {
    ThreadsKept(s, s.(producer := pc));
  }

  lemma StartKeeps(s: State, s': State, v: int)
    requires Inv(s) && s.producer == Start(v) && ProducerNext(s, s')
    ensures Inv(s')
  {
    if |s.enq| % BLOCK_SIZE != 0 {
      InsideBlock(s, v);
      OnlyPc(s, WriteElement(v));
    } else if Reuses(s, s', v) {
      ReuseStep(s, s', v);
    } else if Grows(s, s', v) {
      GrowStep(s, s', v);
    } else if s' == s.(producer := Idle) {
      OnlyPc(s, Idle);
    } else {
      RoomInIndex(s, v);
      OnlyPc(s, Alloc(v));
    }
  }

  lemma InsideBlock(s: State, v: int)
    requires HeadersOk(s.headers, s.phys, s.lo) && ProducerOk(s) && s.producer == Start(v) && |s.enq| % BLOCK_SIZE != 0
    ensures ProducerOk(s.(producer := WriteElement(v)))
  {
    NotBoundary(|s.enq|, |s.phys|);
    assert s.phys == [] ==> |s.enq| == 0;
  }

  lemma NotBoundary(tail: nat, n: nat)
    requires tail % BLOCK_SIZE != 0
    ensures tail != BLOCK_SIZE * n
  {
    if tail == BLOCK_SIZE * n {
      DivModUnique(tail, BLOCK_SIZE, n, 0);
    }
  }

  lemma RoomInIndex(s: State, v: int)
    requires HeadersOk(s.headers, s.phys, s.lo) && ProducerOk(s) && s.producer == Start(v) && |s.enq| % BLOCK_SIZE == 0
    requires |s.phys| - s.lo != Size(Current(s))
    ensures ProducerOk(s.(producer := Alloc(v)))
  {
    assert HeaderOk(Current(s), s.phys, s.lo);
    BoundaryPc(s.producer, Current(s), s.prFront, s.phys, s.lo, s.enq);
  }

  lemma AllocKeeps(s: State, s': State, v: int)
    requires Inv(s) && s.producer == Alloc(v) && ProducerNext(s, s')
    ensures Inv(s')
  {
    if s' == s.(producer := Idle) {
      OnlyPc(s, Idle);
    } else {
      var x: nat :| Allocates(s, s', v, x);
      AllocStep(s, s', v, x);
    }
  }

  lemma WriteEntryKeeps(s: State, s': State)
    requires Inv(s) && ProducerNext(s, s') && (s.producer.WriteBase? || s.producer.WriteBlock?)
    ensures Inv(s')
  {
    var h := Current(s);
    if s.producer.WriteBase? {
      EntryStep(s, s', h.entries[s.prFront].(base := Word(|s.enq|)), WriteBlock(s.producer.v));
    } else {
      EntryStep(s, s', h.entries[s.prFront].(block := s.phys[|s.phys| - 1]), StoreFront(s.producer.v));
    }
  }

  lemma ProducerKeeps(s: State, s': State)
    requires Inv(s) && ProducerNext(s, s')
    ensures Inv(s')
  {
    match s.producer {
      case Idle =>
        var v :| s' == s.(producer := Start(v));
        OnlyPc(s, Start(v));
      case Start(v) => StartKeeps(s, s', v);
      case Alloc(v) => AllocKeeps(s, s', v);
      case WriteBase(_) => WriteEntryKeeps(s, s');
      case WriteBlock(_) => WriteEntryKeeps(s, s');
      case StoreFront(v) => FrontStep(s, s', v);
      case WriteElement(v) => WriteStep(s, s', v);
      case Publish(v) => PublishStep(s, s', v);
    }
  }

  lemma InitInv(s: State)
    requires Init(s)
    ensures Inv(s)
  {
  }

  lemma RunKeeps(run: seq<State>, k: nat)
    requires Trace(run, Init, Next) && k < |run|
    ensures Inv(run[k])
  {
    forall s | Init(s)
      ensures Inv(s)
    {
      InitInv(s);
    }
    forall s, s' | Inv(s) && Next(s, s')
      ensures Inv(s')
    {
      if ProducerNext(s, s') {
        ProducerKeeps(s, s');
      } else {
        var t: nat :| t < |s.threads| && ConsumerNext(s, s', t);
        ConsumerKeeps(s, s', t);
      }
    }
    Always(run, Init, Next, Inv, k);
  }

  // ---------- the theorems ----------

  /** The slot that consumer t computes holds the block whose base is its index rounded down to BLOCK_SIZE, in the
      memory block used for it. */
  ghost predicate FindsBlock(s: State, t: nat)
    requires t < |s.threads| && s.threads[t].Lookup?
  {
    var pc := s.threads[t];
    var b := pc.i / BLOCK_SIZE;
    && pc.h < |s.headers| && b < |s.phys|
    && var h := s.headers[pc.h];
       EntryIs(h.entries, LookupSlot(Word(pc.i), pc.front, pc.base, Size(h)), b, s.phys[b])
  }

  lemma InvFinds(s: State, t: nat)
    requires Inv(s) && t < |s.threads| && s.threads[t].Lookup?
    ensures FindsBlock(s, t)
  {
    assert Active(s.threads, t);
    assert ThreadOk(s.threads[t], s.headers, s.phys, s.got);
    InRing(s, s.threads[t].i);
    LookupStep(s, t);
  }

  /** In every run, whichever index array a consumer loaded and however the indices have wrapped, it finds its block. */
  lemma LookupFindsBlock(run: seq<State>, k: nat, t: nat)
    requires Trace(run, Init, Next) && k < |run| && t < |run[k].threads| && run[k].threads[t].Lookup?
    ensures FindsBlock(run[k], t)
  {
    RunKeeps(run, k);
    InvFinds(run[k], t);
  }

  /** Values taken are those enqueued under their index, no index is taken twice, and none that was claimed is
      forgotten. */
  ghost predicate DeliversOnce(s: State) {
    && s.head <= |s.enq| && (forall i :: i in s.got ==> i < s.head && s.got[i] == s.enq[i])
    && (forall t: nat :: t < |s.threads| && s.threads[t].Take? ==> s.threads[t].i !in s.got)
    && ((forall t: nat :: t < |s.threads| ==> s.threads[t].Away?) ==> forall i: nat :: i < s.head ==> i in s.got)
  }

  lemma InvDelivers(s: State)
    requires Inv(s)
    ensures DeliversOnce(s)
  {
    forall t: nat | t < |s.threads| && s.threads[t].Take?
      ensures s.threads[t].i !in s.got
    {
      assert Active(s.threads, t);
    }
    if forall t: nat :: t < |s.threads| ==> s.threads[t].Away? {
      forall i: nat | i < s.head
        ensures i in s.got
      {
        assert i !in s.done ==> Owned(s.threads, i);
      }
    }
  }

  /** Every value taken under a claimed index is the value enqueued under it; an index about to be taken has not been
      taken before; and with no consumer under way exactly the claimed indices have been taken. */
  lemma EachIndexDeliversOnce(run: seq<State>, k: nat)
    requires Trace(run, Init, Next) && k < |run|
    ensures DeliversOnce(run[k])
  {
    RunKeeps(run, k);
    InvDelivers(run[k]);
  }

  /** Consumer t can go on, and a flag that it is about to set is not set. */
  ghost predicate ConsumerGoesOn(s: State, t: nat)
    requires t < |s.threads|
  {
    var pc := s.threads[t];
    && (exists s' :: ConsumerNext(s, s', t))
    && (pc.SetEmpty? ==>
        pc.block in s.flags && |s.flags[pc.block]| == BLOCK_SIZE && !s.flags[pc.block][Word(pc.i) % BLOCK_SIZE])
  }

  /** The guards of the consumer's steps never fail: it can always go on, never reads outside an index or a block, and
      the flag it sets was not set before. */
  lemma ConsumerNeverStuck(run: seq<State>, k: nat, t: nat)
    requires Trace(run, Init, Next) && k < |run| && t < |run[k].threads| && !run[k].threads[t].Away?
    ensures ConsumerGoesOn(run[k], t)
  {
    RunKeeps(run, k);
    InvConsumes(run[k], t);
  }

  lemma InvConsumes(s: State, t: nat)
    requires Inv(s) && t < |s.threads| && !s.threads[t].Away?
    ensures ConsumerGoesOn(s, t)
  {
    var pc := s.threads[t];
    assert Active(s.threads, t);
    assert ThreadOk(pc, s.headers, s.phys, s.got);
    InRing(s, pc.i);
    match pc {
      case LoadHeader(i) => assert ConsumerNext(s, Goto(s, t, LoadFront(i, |s.headers| - 1)), t);
      case LoadFront(i, h) =>
          assert ConsumerNext(s, Goto(s, t, LoadBase(i, h, s.headers[h].front, s.headers[h].hi - 1)), t);
      case LoadBase(i, h, front, m) =>
        EntryOf(s.headers[h], s.phys, s.lo, m);
        assert ConsumerNext(s, Goto(s, t, Lookup(i, h, front, s.headers[h].entries[front].base, m)), t);
      case Lookup(i, h, front, base, m) =>
        LookupStep(s, t);
        assert ConsumerNext(s, Goto(s, t, Take(i, s.phys[i / BLOCK_SIZE])), t);
      case Take(i, block) =>
        TakesItsElement(s, t);
        assert ConsumerNext(s, Goto(s, t, SetEmpty(i, block)).(got := s.got[i := s.enq[i]]), t);
      case SetEmpty(i, block) =>
        EmptyEnabled(s, t);
      case Away =>
    }
  }

  lemma EmptyEnabled(s: State, t: nat)
    requires Inv(s) && Active(s.threads, t) && s.threads[t].SetEmpty?
    ensures var pc := s.threads[t];
      && pc.block in s.flags && |s.flags[pc.block]| == BLOCK_SIZE && !s.flags[pc.block][Word(pc.i) % BLOCK_SIZE]
      && exists s' :: ConsumerNext(s, s', t)
  {
    var pc := s.threads[t];
    var b := pc.i / BLOCK_SIZE;
    assert ThreadOk(pc, s.headers, s.phys, s.got);
    InRing(s, pc.i);
    WordOfIndex(pc.i);
    assert BlockHolds(s.mem[s.phys[b]], s.flags[s.phys[b]], b, s.enq, s.done);
    assert pc.i == BLOCK_SIZE * b + pc.i % BLOCK_SIZE;
    var f := s.flags[pc.block];
    var s' := Goto(s, t, Away).(flags := s.flags[pc.block := f[Word(pc.i) % BLOCK_SIZE := true]],
        done := s.done + {pc.i});
    assert ConsumerNext(s, s', t);
  }

  /** The producer, too, never steps outside an index or a block. */
  lemma ProducerNeverStuck(run: seq<State>, k: nat)
    requires Trace(run, Init, Next) && k < |run|
    ensures exists s' :: ProducerNext(run[k], s')
  {
    RunKeeps(run, k);
    InvProduces(run[k]);
  }

  lemma InvProduces(s: State)
    requires Inv(s)
    ensures exists s' :: ProducerNext(s, s')
  {
    var h, last := Current(s), |s.headers| - 1;
    match s.producer {
      case Idle => assert ProducerNext(s, s.(producer := Start(0)));
      case Start(v) => assert ProducerNext(s,
          s.(producer := if |s.enq| % BLOCK_SIZE != 0 then WriteElement(v) else Idle));
      case Alloc(v) => assert ProducerNext(s, s.(producer := Idle));
      case WriteBase(v) =>
        var e := h.entries[s.prFront].(base := Word(|s.enq|));
        assert ProducerNext(s,
            s.(headers := s.headers[last := h.(entries := h.entries[s.prFront := e])], producer := WriteBlock(v)));
      case WriteBlock(v) =>
        var e := h.entries[s.prFront].(block := s.phys[|s.phys| - 1]);
        assert ProducerNext(s,
            s.(headers := s.headers[last := h.(entries := h.entries[s.prFront := e])], producer := StoreFront(v)));
      case StoreFront(v) =>
        assert ProducerNext(s, s.(headers := s.headers[last := h.(front := s.prFront, hi := h.hi + 1)],
                                  prFront := And(s.prFront + 1, Size(h) - 1), producer := WriteElement(v)));
      case WriteElement(v) =>
        var x := s.phys[|s.phys| - 1];
        assert BlockHolds(s.mem[x], s.flags[x], |s.phys| - 1, s.enq, s.done);
        assert ProducerNext(s, s.(mem := s.mem[x := s.mem[x][|s.enq| % BLOCK_SIZE := v]], producer := Publish(v)));
      case Publish(v) => assert ProducerNext(s, s.(enq := s.enq + [v], producer := Idle));
    }
  }

  // ---------- an enqueue can succeed ----------

  function Place(p: ProducerPc): nat {
    match p
    case Idle => 0
    case Publish(_) => 1
    case WriteElement(_) => 2
    case StoreFront(_) => 3
    case WriteBlock(_) => 4
    case WriteBase(_) => 5
    case Alloc(_) => 6
    case Start(_) => 7
  }

  /** The index is full and at the size beyond which it does not grow. */
  predicate AtLimit(s: State) {
    s.headers != [] && s.producer.Start? && |s.phys| - s.lo == Size(Current(s)) && Current(s).log >= 59
  }

  /** A step of the producer towards the end of its call, or the last one, which publishes. */
  ghost predicate Advances(s: State, s': State) {
    && ProducerNext(s, s') && Place(s'.producer) < Place(s.producer)
    && if s.producer.Publish? then s'.enq == s.enq + [s.producer.v] && s'.producer.Idle?
       else s'.enq == s.enq && !s'.producer.Idle? && s'.producer.v == s.producer.v
  }

  lemma {:induction false} FreshBlock(used: seq<nat>) returns (x: nat)
    ensures forall y :: y in used ==> y < x
  {
    if used == [] {
      x := 0;
    } else {
      x := FreshBlock(used[1..]);
      assert used == [used[0]] + used[1..];
      x := if x > used[0] then x else used[0] + 1;
    }
  }

  lemma StartAdvances(s: State) returns (s': State)
    requires Inv(s) && s.producer.Start? && !AtLimit(s)
    ensures Advances(s, s')
  {
    var v, h := s.producer.v, Current(s);
    if |s.enq| % BLOCK_SIZE != 0 {
      s' := s.(producer := WriteElement(v));
    } else if |s.phys| - s.lo != Size(h) {
      s' := s.(producer := Alloc(v));
    } else {
      var used := |s.phys| - s.lo;
      s' := s.(headers := s.headers + [NewIndex(h, s.prFront, s.lo, used)], prFront := used, producer := Alloc(v));
      assert Grows(s, s', v);
    }
  }

  lemma AllocAdvances(s: State) returns (s': State)
    requires Inv(s) && s.producer.Alloc?
    ensures Advances(s, s')
  {
    var x := FreshBlock(s.phys[s.lo..]);
    var junk: seq<int> := seq(BLOCK_SIZE, _ => 0);
    assert |junk| == BLOCK_SIZE;
    s' := s.(phys := s.phys + [x], mem := s.mem[x := junk], flags := s.flags[x := Flags(false)],
             producer := WriteBase(s.producer.v));
    assert Allocates(s, s', s.producer.v, x);
  }

  lemma EntryAdvances(s: State) returns (s': State)
    requires Inv(s) && (s.producer.WriteBase? || s.producer.WriteBlock? || s.producer.StoreFront?)
    ensures Advances(s, s')
  {
    var v, h, last := s.producer.v, Current(s), |s.headers| - 1;
    if s.producer.WriteBase? {
      var e := h.entries[s.prFront].(base := Word(|s.enq|));
      s' := s.(headers := s.headers[last := h.(entries := h.entries[s.prFront := e])], producer := WriteBlock(v));
    } else if s.producer.WriteBlock? {
      var e := h.entries[s.prFront].(block := s.phys[|s.phys| - 1]);
      s' := s.(headers := s.headers[last := h.(entries := h.entries[s.prFront := e])], producer := StoreFront(v));
    } else {
      s' := s.(headers := s.headers[last := h.(front := s.prFront, hi := h.hi + 1)],
               prFront := And(s.prFront + 1, Size(h) - 1), producer := WriteElement(v));
    }
  }

  lemma ElementAdvances(s: State) returns (s': State)
    requires Inv(s) && (s.producer.WriteElement? || s.producer.Publish?)
    ensures Advances(s, s')
  {
    var v := s.producer.v;
    if s.producer.WriteElement? {
      var x := s.phys[|s.phys| - 1];
      assert BlockHolds(s.mem[x], s.flags[x], |s.phys| - 1, s.enq, s.done);
      s' := s.(mem := s.mem[x := s.mem[x][|s.enq| % BLOCK_SIZE := v]], producer := Publish(v));
    } else {
      s' := s.(enq := s.enq + [v], producer := Idle);
    }
  }

  /** The steps of one enqueue, from s to the state in which the value is published. */
  ghost predicate IsEnqueue(path: seq<State>, s: State) {
    && path != [] && path[0] == s && !s.producer.Idle?
    && (forall i, j {:trigger ProducerNext(path[i], path[j])} :: 0 <= i && j == i + 1 < |path| ==>
        ProducerNext(path[i], path[j]))
    && var end := path[|path| - 1]; end.producer.Idle? && end.enq == s.enq + [s.producer.v]
  }

  /** From every position in an enqueue there is a way to its end that publishes the value, unless the index is full at
      its largest size. */
  lemma {:induction false} EnqueueCanSucceed(s: State) returns (path: seq<State>)
    requires Inv(s) && !s.producer.Idle? && !AtLimit(s)
    ensures IsEnqueue(path, s)
    decreases Place(s.producer)
  {
    var s';
    match s.producer {
      case Start(_) => s' := StartAdvances(s);
      case Alloc(_) => s' := AllocAdvances(s);
      case WriteElement(_) => s' := ElementAdvances(s);
      case Publish(_) => s' := ElementAdvances(s);
      case _ => s' := EntryAdvances(s);
    }
    if s.producer.Publish? {
      path := [s, s'];
    } else {
      ProducerKeeps(s, s');
      var rest := EnqueueCanSucceed(s');
      path := [s] + rest;
      PathGrows(s, s', rest);
    }
  }

  lemma PathGrows(s: State, s': State, rest: seq<State>)
    requires Advances(s, s') && !s.producer.Publish? && !s.producer.Idle? && IsEnqueue(rest, s')
    ensures IsEnqueue([s] + rest, s)
  {
    var path := [s] + rest;
    forall i, j | 0 <= i && j == i + 1 < |path|
      ensures ProducerNext(path[i], path[j])
    {
      if i > 0 {
        assert ProducerNext(rest[i - 1], rest[j - 1]);
      }
    }
    assert path[|path| - 1] == rest[|rest| - 1];
  }

  /** Every element of block b has been dequeued. */
  ghost predicate Drained(s: State, b: nat) {
    forall i: nat :: BLOCK_SIZE * b <= i < BLOCK_SIZE * b + BLOCK_SIZE ==> i in s.done
  }

  /** An enqueue that needs a block, with the oldest one drained, can take that one and get to its end without any
      memory: the producer's blocks stay the same. */
  lemma DrainedIsReused(s: State) returns (path: seq<State>)
    requires Inv(s) && s.producer.Start? && |s.enq| % BLOCK_SIZE == 0 && s.lo < |s.phys| && Drained(s, s.lo)
    ensures IsEnqueue(path, s) && |path| > 1 && path[1].mem == s.mem
    ensures path[1].lo == s.lo + 1 && path[1].phys == s.phys + [s.phys[s.lo]]
  {
    assert BlockHolds(s.mem[s.phys[s.lo]], s.flags[s.phys[s.lo]], s.lo, s.enq, s.done);
    assert CanReuse(s);
    var v := s.producer.v;
    var s' := s.(phys := s.phys + [s.phys[s.lo]], lo := s.lo + 1,
                 flags := s.flags[s.phys[s.lo] := Flags(false)], producer := WriteBase(v));
    assert Reuses(s, s', v);
    ProducerKeeps(s, s');
    var rest := EnqueueCanSucceed(s');
    path := [s] + rest;
    PathGrows(s, s', rest);
  }
}
