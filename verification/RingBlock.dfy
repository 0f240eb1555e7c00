/** One circular block of the reader-writer queue: `front` and `tail` indices into `data`, one slot
    always unused, and the two shadow indices `localFront` (producer) and `localTail` (consumer). */
module RingBlock {
  import opened Bits

  datatype Block<T> = Block(size: nat, data: seq<T>, front: nat, tail: nat,
                            localFront: nat, localTail: nat, next: nat)

  /** Freshly made block: everything zero; the contents of the slots are whatever was in memory. */
  function MakeBlock<T>(size: nat, junk: T, next: nat): Block<T> {
    Block(size, seq(size, i => junk), 0, 0, 0, 0, next)
  }

  /** `(i + 1) & sizeMask`. */
  function Succ(i: nat, size: nat): nat {
    if i + 1 == size then 0 else i + 1
  }

  /** `(b - a) & sizeMask`: how far b is ahead of a around the ring. */
  function Dist(a: nat, b: nat, size: nat): (d: nat)
    requires a < size && b < size
    ensures d < size
  {
    if a <= b then b - a else b + size - a
  }

  function Slot(a: nat, k: nat, size: nat): nat {
    if a + k < size then a + k else a + k - size
  }

  /** What Succ abbreviates: the masked increment. */
  lemma MaskedSucc(k: nat, a: nat)
    requires a < Pow2(k)
    ensures And(a + 1, Pow2(k) - 1) == Succ(a, Pow2(k))
  {
    MaskIsMod(a + 1, k);
    if a + 1 == Pow2(k) {
      DivModUnique(a + 1, Pow2(k), 1, 0);
    } else {
      DivModUnique(a + 1, Pow2(k), 0, a + 1);
    }
  }

  /** What Dist abbreviates: the masked difference of two w-bit words, wrapping below zero. */
  lemma MaskedDist(w: nat, k: nat, a: nat, b: nat)
    requires k <= w && a < Pow2(k) && b < Pow2(k)
    ensures And((b - a) % Pow2(w), Pow2(k) - 1) == Dist(a, b, Pow2(k))
  {
    var word, n, c := Pow2(w), Pow2(k), Pow2(w - k);
    Pow2Add(k, w - k);
    Pow2Monotone(k, w);
    if a <= b {
      DivModUnique(b - a, word, 0, b - a);
      DivModUnique(b - a, n, 0, b - a);
    } else {
      DivModUnique(b - a, word, -1, b - a + word);
      MulDist(n, c - 1, 1);
      DivModUnique(b - a + word, n, c - 1, b + n - a);
    }
    MaskIsMod((b - a) % word, k);
  }

  /** Shape alone: what is needed to index into the block. */
  ghost predicate Shaped<T>(b: Block<T>) {
    b.size > 0 && |b.data| == b.size && b.front < b.size && b.tail < b.size
  }

  /** The front index lies on the arc from localFront to tail, and localTail on the arc from front to tail. */
  ghost predicate Wf<T>(b: Block<T>) {
    && Shaped(b) && b.size >= 2 && b.localFront < b.size && b.localTail < b.size
    && Dist(b.localFront, b.front, b.size) + Dist(b.front, b.tail, b.size) == Dist(b.localFront, b.tail, b.size)
    && Dist(b.front, b.localTail, b.size) + Dist(b.localTail, b.tail, b.size) == Dist(b.front, b.tail, b.size)
  }

  /** `items` are the elements the block holds, oldest first. */
  ghost predicate Holds<T>(b: Block<T>, items: seq<T>) {
    && Wf(b) && |items| == Dist(b.front, b.tail, b.size)
    && forall k :: 0 <= k < |items| ==> items[k] == b.data[Slot(b.front, k, b.size)]
  }

  // ---------- what the two threads do to a block ----------

  function WriteSlot<T>(b: Block<T>, x: T): Block<T>
    requires b.tail < |b.data|
  {
    b.(data := b.data[b.tail := x])
  }

  lemma WriteKeepsItems<T>(b: Block<T>, items: seq<T>, x: T)
    requires Holds(b, items)
    ensures Holds(WriteSlot(b, x), items)
  {
  }

  lemma PushItem<T>(b: Block<T>, items: seq<T>)
    requires Holds(b, items) && Dist(b.localFront, b.tail, b.size) < b.size - 1
    ensures Holds(b.(tail := Succ(b.tail, b.size)), items + [b.data[b.tail]])
  {
  }

  lemma PopItem<T>(b: Block<T>, items: seq<T>)
    requires Holds(b, items) && b.front != b.localTail
    ensures items != [] && items[0] == b.data[b.front]
    ensures Holds(b.(front := Succ(b.front, b.size)), items[1..])
  {
  }

  lemma RefreshShadows<T>(b: Block<T>, items: seq<T>)
    requires Holds(b, items)
    ensures Holds(b.(localFront := b.front), items)
    ensures Holds(b.(localTail := b.tail), items)
  {
  }

  /** The producer's two tests: a stale localFront can only make the block look fuller than it is. */
  lemma RoomTest<T>(b: Block<T>, items: seq<T>)
    requires Holds(b, items)
    ensures Succ(b.tail, b.size) != b.localFront <==> Dist(b.localFront, b.tail, b.size) < b.size - 1
    ensures Succ(b.tail, b.size) == b.front <==> |items| == b.size - 1
  {
  }

  lemma EmptyTest<T>(b: Block<T>, items: seq<T>)
    requires Holds(b, items)
    ensures b.front == b.tail <==> items == []
    ensures items == [] ==> b.localTail == b.tail
  {
  }
}
