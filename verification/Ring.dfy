/** RTOS_Queue_t at the level of bytes: a circular array of fixed-size slots. */
module Ring {
  import opened Words
  import opened KernelState

  const QUEUE_MAX_ITEM_SIZE: nat := 64
  const UINT32_MAX: nat := 0xFFFF_FFFF

  /** The sizes rtos_queue_init accepts. */
  predicate SizesAccepted(capacity: Word, itemSize: Word) {
    && capacity != 0 && itemSize != 0 && itemSize <= QUEUE_MAX_ITEM_SIZE
    && capacity <= UINT32_MAX / itemSize
  }

  /** The quotient test accepts a size exactly if the storage is addressable in 32 bits. */
  lemma SizesExact(capacity: Word, itemSize: Word)
    ensures SizesAccepted(capacity, itemSize) <==>
              0 < capacity && 0 < itemSize <= 64 && capacity * itemSize <= 0xFFFF_FFFF
  {
    if itemSize > 0 {
      var most := UINT32_MAX / itemSize;
      QuotientFits(UINT32_MAX, itemSize);
      if capacity <= most {
        Monotone(capacity, most, itemSize);
      } else {
        Monotone(most + 1, capacity, itemSize);
        assert (most + 1) * itemSize == most * itemSize + itemSize;
      }
    }
  }

  /** A slot below the capacity lies inside the storage, and the storage is addressable in 32 bits. */
  lemma SlotInBounds(i: nat, capacity: Word, itemSize: Word)
    requires SizesAccepted(capacity, itemSize) && i < capacity
    ensures 0 <= i * itemSize <= i * itemSize + itemSize <= capacity * itemSize <= UINT32_MAX
  {
    QuotientFits(UINT32_MAX, itemSize);
    Monotone(capacity, UINT32_MAX / itemSize, itemSize);
    SlotsDisjoint(i, i + 1, itemSize);
    Monotone(i + 1, capacity, itemSize);
  }

  lemma QuotientFits(a: nat, b: nat)
    requires b > 0
    ensures a / b * b <= a
  {
  }

  lemma Monotone(a: nat, b: nat, c: nat)
    requires a <= b
    ensures a * c <= b * c
  {
  }

  /** Different slots do not overlap. */
  lemma SlotsDisjoint(i: nat, j: nat, itemSize: nat)
    requires i < j
    ensures i * itemSize + itemSize <= j * itemSize
  {
    Monotone(i + 1, j, itemSize);
    assert (i + 1) * itemSize == i * itemSize + itemSize;
  }

  /** A storage of the right length, cut into its slots. */
  ghost predicate Sized(bytes: seq<Byte>, capacity: Word, itemSize: Word) {
    SizesAccepted(capacity, itemSize) && |bytes| == capacity * itemSize
  }

  ghost function SlotAt(bytes: seq<Byte>, capacity: Word, itemSize: Word, i: nat): (r: Item)
    requires Sized(bytes, capacity, itemSize) && i < capacity
    ensures |r| == itemSize
  {
    SlotInBounds(i, capacity, itemSize);
    bytes[i * itemSize..i * itemSize + itemSize]
  }

  ghost function Slots(bytes: seq<Byte>, capacity: Word, itemSize: Word): (r: seq<Item>)
    requires Sized(bytes, capacity, itemSize)
    ensures |r| == capacity && forall i :: 0 <= i < capacity ==> r[i] == SlotAt(bytes, capacity, itemSize, i)
  {
    seq(capacity, i requires 0 <= i < capacity => SlotAt(bytes, capacity, itemSize, i))
  }

  /** Overwriting the bytes of slot `at` replaces that slot and no other. */
  lemma WriteSlot(bytes: seq<Byte>, bytes': seq<Byte>, capacity: Word, itemSize: Word, at: nat, item: Item)
    requires Sized(bytes, capacity, itemSize) && at < capacity && |item| == itemSize
    requires at * itemSize + itemSize <= |bytes|
    requires bytes' == bytes[..at * itemSize] + item + bytes[at * itemSize + itemSize..]
    ensures Sized(bytes', capacity, itemSize)
    ensures Slots(bytes', capacity, itemSize) == Slots(bytes, capacity, itemSize)[at := item]
  {
    forall i | 0 <= i < capacity
      ensures SlotAt(bytes', capacity, itemSize, i) == (if i == at then item else SlotAt(bytes, capacity, itemSize, i))
    {
      SlotInBounds(i, capacity, itemSize);
      if i < at {
        SlotsDisjoint(i, at, itemSize);
      } else if i > at {
        SlotsDisjoint(at, i, itemSize);
      }
      OverwriteSlice(bytes, item, at * itemSize, i * itemSize);
    }
  }

  /** A slice next to an overwritten slice of the same size keeps its content. */
  lemma OverwriteSlice(bytes: seq<Byte>, item: Item, at: nat, i: nat)
    requires at + |item| <= |bytes| && i + |item| <= |bytes|
    requires i + |item| <= at || at + |item| <= i || i == at
    ensures (bytes[..at] + item + bytes[at + |item|..])[i..i + |item|]
         == if i == at then item else bytes[i..i + |item|]
  {
  }

  /** The index k places after head in a ring of n. */
  function RingIndex(head: nat, k: nat, n: nat): (r: nat)
    requires head < n && k <= n
    ensures r < n
  {
    if head + k < n then head + k else head + k - n
  }

  lemma RingIndexIsModulo(head: nat, k: nat, n: nat)
    requires head < n && k <= n
    ensures RingIndex(head, k, n) == (head + k) % n
  {
    if head + k >= n {
      ModuloStep(head + k - n, n);
    } else {
      SmallModulo(head + k, n);
    }
  }

  lemma SmallModulo(a: nat, n: nat)
    requires a < n
    ensures a % n == a
  {
  }

  lemma ModuloStep(a: nat, n: nat)
    requires a <= n && n > 0
    ensures (a + n) % n == if a == n then 0 else a
  {
    if a == n {
      assert a + n == 2 * n;
      ModuloOf(2, 0, n);
    } else {
      ModuloOf(1, a, n);
    }
  }

  lemma ModuloOf(q: nat, r: nat, n: nat)
    requires r < n
    ensures (q * n + r) % n == r
  {
    var a := q * n + r;
    var q', r' := a / n, a % n;
    assert a == q' * n + r' && r' < n;
    if q' < q {
      SlotsDisjoint(q', q, n);
      assert false;
    } else if q' > q {
      SlotsDisjoint(q, q', n);
      assert false;
    }
  }

  /** The `count` slots from `head` on, oldest first. */
  ghost function Occupied(slots: seq<Item>, head: nat, count: nat): (r: seq<Item>)
    requires head < |slots| && count <= |slots|
    ensures |r| == count && forall k :: 0 <= k < count ==> r[k] == slots[RingIndex(head, k, |slots|)]
  {
    seq(count, k requires 0 <= k < count => slots[RingIndex(head, k, |slots|)])
  }

  /** Filling the slot after the last occupied one appends. */
  lemma FillAppends(slots: seq<Item>, head: nat, count: nat, item: Item)
    requires head < |slots| && count < |slots|
    ensures Occupied(slots[RingIndex(head, count, |slots|) := item], head, count + 1)
         == Occupied(slots, head, count) + [item]
  {
  }

  /** Moving head on drops the oldest. */
  lemma AdvanceDrops(slots: seq<Item>, head: nat, count: nat)
    requires head < |slots| && 0 < count <= |slots|
    ensures Occupied(slots, RingIndex(head, 1, |slots|), count - 1) == Occupied(slots, head, count)[1..]
    ensures RingIndex(RingIndex(head, 1, |slots|), count - 1, |slots|) == RingIndex(head, count, |slots|)
  {
  }

  /** rtos_copy_bytes: the bytes land at the given offset and nothing else changes. */
  method CopyBytes(destination: array<Byte>, to: nat, source: seq<Byte>)
    requires to + |source| <= destination.Length
    modifies destination
    ensures destination[..] == old(destination[..to]) + source + old(destination[to + |source|..])
  {
    var index := 0;
    while index < |source|
      invariant 0 <= index <= |source|
      invariant destination[to..to + index] == source[..index]
      invariant destination[..to] == old(destination[..to])
      invariant destination[to + index..] == old(destination[to + index..])
    {
      destination[to + index] := source[index];
      index := index + 1;
    }
  }

  class Queue {
    ghost const id: nat
    var storage: array<Byte>
    var capacity: Word
    var itemSize: Word
    var head: Word
    var tail: Word
    var count: Word
    ghost var accepted: seq<Item>
    ghost var delivered: seq<Item>

    ghost predicate Valid()
      reads this
    {
      && SizesAccepted(capacity, itemSize)
      && storage.Length == capacity * itemSize
      && head < capacity && tail < capacity && count <= capacity
      && tail == RingIndex(head, count, capacity)
    }

    /** The queued items, oldest first. */
    ghost function Items(): (r: seq<Item>)
      requires Valid()
      reads this, storage
      ensures |r| == count
    {
      Occupied(Slots(storage[..], capacity, itemSize), head, count)
    }

    /** The queue as the kernel state sees it. */
    ghost function View(): Fifo
      requires Valid()
      reads this, storage
    {
      Fifo(capacity, itemSize, Items(), accepted, delivered)
    }

    constructor (ghost id: nat)
      ensures this.id == id
    {
      this.id := id;
      storage := new Byte[0];
      capacity, itemSize, head, tail, count := 0, 0, 0, 0, 0;
      accepted, delivered := [], [];
    }

    /** rtos_queue_init; `open` tells that the kernel is initialised and not yet running. */
    method Init(memory: array<Byte>, slots: Word, size: Word, open: bool) returns (rc: Status)
      requires SizesAccepted(slots, size) ==> memory.Length == slots * size
      modifies this
      ensures rc == (if !SizesAccepted(slots, size) then ErrInvalid else if !open then ErrState else Ok)
      ensures rc != Ok ==> unchanged(this)
      ensures rc == Ok ==> Valid() && storage == memory && View() == Fifo(slots, size, [], [], [])
    {
      if !SizesAccepted(slots, size) {
        return ErrInvalid;
      }
      if !open {
        return ErrState;
      }
      storage, capacity, itemSize := memory, slots, size;
      head, tail, count := 0, 0, 0;
      accepted, delivered := [], [];
      return Ok;
    }

    /** rtos_queue_push: appends, and touches no slot but the one at the old tail. */
    method Push(item: Item)
      requires Valid() && count < capacity && |item| == itemSize
      modifies this`tail, this`count, this`accepted, storage
      ensures Valid()
      ensures Slots(storage[..], capacity, itemSize) == old(Slots(storage[..], capacity, itemSize))[old(tail) := item]
      ensures View() == old(View()).(items := old(Items()) + [item], accepted := old(accepted) + [item])
    {
      SlotInBounds(tail, capacity, itemSize);
      ghost var bytes := storage[..];
      CopyBytes(storage, tail * itemSize, item);
      WriteSlot(bytes, storage[..], capacity, itemSize, tail, item);
      FillAppends(Slots(bytes, capacity, itemSize), head, count, item);
      RingIndexIsModulo(tail, 1, capacity);
      tail := (tail + 1) % capacity;
      count := count + 1;
      accepted := accepted + [item];
    }

    /** rtos_queue_pop: copies the oldest item out, and leaves the storage untouched. */
    method Pop(destination: array<Byte>)
      requires Valid() && count > 0 && destination.Length == itemSize && destination != storage
      modifies this`head, this`count, this`delivered, destination
      ensures Valid()
      ensures destination[..] == old(Items())[0]
      ensures View() == old(View()).(items := old(Items())[1..], delivered := old(delivered) + [old(Items())[0]])
      ensures storage[..] == old(storage[..])
    {
      SlotInBounds(head, capacity, itemSize);
      ghost var slots := Slots(storage[..], capacity, itemSize);
      ghost var item := Items()[0];
      assert item == SlotAt(storage[..], capacity, itemSize, head);
      CopyBytes(destination, 0, storage[head * itemSize..head * itemSize + itemSize]);
      AdvanceDrops(slots, head, count);
      RingIndexIsModulo(head, 1, capacity);
      head := (head + 1) % capacity;
      count := count - 1;
      delivered := delivered + [item];
    }
  }

  /** The tail is (head + count) mod capacity, and the occupied slots are distinct. */
  lemma TailFollowsHead(head: nat, count: nat, capacity: nat)
    requires head < capacity && count <= capacity
    ensures RingIndex(head, count, capacity) == (head + count) % capacity
    ensures forall j, k :: 0 <= j < k < count ==> RingIndex(head, j, capacity) != RingIndex(head, k, capacity)
  {
    RingIndexIsModulo(head, count, capacity);
  }
}
