/** The bulk ring buffer, the event queue and the audio input as one thread calls them, each call by
    itself; the interleaving of their atomic steps is the subject of SpscMachine. */
module RingBuffers {
  import opened Words
  import opened SpscMachine

  /** One block copy. */
  method CopyBlock<T>(target: array<T>, at: nat, source: array<T>, from: nat, len: nat)
    requires target != source && at + len <= target.Length && from + len <= source.Length
    modifies target
    ensures forall k :: 0 <= k < target.Length ==>
              target[k] == if at <= k < at + len then source[from + (k - at)] else old(target[k])
  {
    for i := 0 to len
      invariant forall k :: 0 <= k < target.Length ==>
                  target[k] == if at <= k < at + i then source[from + (k - at)] else old(target[k])
    {
      target[at + i] := source[from + i];
    }
  }

  /** The slot of the element `i` places after `position`. */
  function Place(cap: nat, position: nat, i: nat): (slot: nat)
    requires cap > 0
    ensures slot < cap
  {
    Home(position + i, cap)
  }

  lemma TransferLayout(cap: nat, position: nat, n: nat)
    requires GoodCapacity(cap) && 0 < n <= cap
    ensures var pos := position % WORD;
            var start, first := Start(cap, pos), FirstPart(cap, pos, n);
            && start < cap && 1 <= first <= n && start + first <= cap && n - first <= start
            && forall i: nat :: i < n ==> Place(cap, position, i) == if i < first then start + i else i - first
  {
    var pos := position % WORD;
    assert And(pos, cap - 1) == pos % cap;
    var start, first := Start(cap, pos), FirstPart(cap, pos, n);
    forall i: nat | i < n ensures Place(cap, position, i) == if i < first then start + i else i - first {
      SlotOfPosition(cap, position, n, i);
    }
    hide GoodCapacity, And;
  }

  /** The block copies of a transfer reach only its own places. */
  lemma TransferSlot(cap: nat, position: nat, n: nat, slot: nat) returns (i: nat)
    requires GoodCapacity(cap) && 0 < n <= cap
    requires var start, first := Start(cap, position % WORD), FirstPart(cap, position % WORD, n);
             start <= slot < start + first || slot < n - first
    ensures i < n && Place(cap, position, i) == slot
  {
    TransferLayout(cap, position, n);
    hide GoodCapacity, Start, FirstPart, Place;
    var start, first := Start(cap, position % WORD), FirstPart(cap, position % WORD, n);
    i := if start <= slot < start + first then slot - start else slot + first;
    assert Place(cap, position, i) == slot;
  }

  /** The block copies of a transfer stay clear of the positions still buffered before it. */
  lemma OutsideTransfer(cap: nat, position: nat, n: nat, from: nat, i: nat)
    requires GoodCapacity(cap) && 0 < n <= cap && from + i < position && position + n <= from + cap
    ensures var start, first := Start(cap, position % WORD), FirstPart(cap, position % WORD, n);
            !(start <= Place(cap, from, i) < start + first) && !(Place(cap, from, i) < n - first)
  {
    hide GoodCapacity, Start, FirstPart, Home;
    var start, first := Start(cap, position % WORD), FirstPart(cap, position % WORD, n);
    var slot := Place(cap, from, i);
    if start <= slot < start + first || slot < n - first {
      var j := TransferSlot(cap, position, n, slot);
      HomesDistinct(from + i, position + j, cap);
    }
  }

  /** What the two block copies of a push leave in the storage. */
  ghost predicate CopiedIn<T>(before: seq<T>, after: seq<T>, data: seq<T>, start: nat, first: int, n: nat) {
    && |after| == |before| && 0 <= first <= n <= |data|
    && forall k :: 0 <= k < |after| ==>
         after[k] == if 0 <= k < n - first then data[first + k]
                     else if start <= k < start + first then data[k - start] else before[k]
  }

  lemma CopiedInPlace<T>(cap: nat, written: nat, consumed: nat, n: nat, before: seq<T>, after: seq<T>, data: seq<T>)
    requires GoodCapacity(cap) && 0 < n && consumed <= written && written + n <= consumed + cap && |before| == cap
    requires CopiedIn(before, after, data, Start(cap, written % WORD), FirstPart(cap, written % WORD, n), n)
    ensures forall i: nat :: i < n ==> after[Place(cap, written, i)] == data[i]
    ensures forall i: nat :: i < written - consumed ==>
              after[Place(cap, consumed, i)] == before[Place(cap, consumed, i)]
  {
    TransferLayout(cap, written, n);
    hide GoodCapacity, Start, FirstPart, Place;
    forall i: nat | i < written - consumed
      ensures after[Place(cap, consumed, i)] == before[Place(cap, consumed, i)]
    {
      OutsideTransfer(cap, written, n, consumed, i);
    }
  }

  /** The slot at the head holds none of the buffered elements. */
  lemma {:induction false} NextSlotFree(cap: nat, written: nat, consumed: nat)
    requires GoodCapacity(cap) && consumed <= written < consumed + cap
    ensures Place(cap, written, 0) == And(written % WORD, cap - 1)
    ensures forall i: nat :: i < written - consumed ==> Place(cap, consumed, i) != Place(cap, written, 0)
  {
    TransferLayout(cap, written, 1);
    hide GoodCapacity, And;
    forall i: nat | i < written - consumed ensures Place(cap, consumed, i) != Place(cap, written, 0) {
      HomesDistinct(consumed + i, written, cap);
    }
  }

  /** The slot at the tail holds the oldest element. */
  lemma {:induction false} OldestSlot(cap: nat, consumed: nat)
    requires GoodCapacity(cap)
    ensures Place(cap, consumed, 0) == And(consumed % WORD, cap - 1)
  {
    TransferLayout(cap, consumed, 1);
  }

  lemma SmallSum(a: nat, b: nat)
    requires a + b < WORD
    ensures Add(a, b) == a + b
  {}

  /** Counting from a later position reaches the same slots. */
  lemma PlacesMeet(cap: nat, from: nat, to: nat)
    requires 0 < cap && from <= to
    ensures forall i: nat :: Place(cap, to, i) == Place(cap, from, to - from + i)
  {
    forall i: nat ensures Place(cap, to, i) == Place(cap, from, to - from + i) {
      assert to + i == from + (to - from + i);
    }
  }

  class RingBuffer<T(0)> {
    const storage: array<T>
    const capacity: nat
    var head: nat
    var tail: nat
    /** The positions as they would be without wrapping. */
    ghost var written: nat
    ghost var consumed: nat

    ghost predicate Valid()
      reads this
    {
      && storage.Length == capacity && GoodCapacity(capacity) && 0 < capacity < WORD
      && head == written % WORD && tail == consumed % WORD
      && consumed <= written <= consumed + capacity
    }

    /** The buffered elements, oldest first. */
    ghost function Contents(): (r: seq<T>)
      requires Valid()
      reads this, storage
      ensures |r| == written - consumed
    {
      seq(written - consumed, k requires 0 <= k < written - consumed && Valid() reads this, storage
                              => storage[Place(capacity, consumed, k)])
    }

    /** The capacity must be a power of two. */
    constructor (capacityPowerOfTwo: nat)
      requires IsPowerOfTwo(capacityPowerOfTwo) && capacityPowerOfTwo < WORD
      ensures Valid() && capacity == capacityPowerOfTwo && Contents() == [] && fresh(storage)
    {
      PowersAreGood(capacityPowerOfTwo);
      capacity := capacityPowerOfTwo;
      storage := new T[capacityPowerOfTwo];
      head, tail, written, consumed := 0, 0, 0, 0;
    }

    method Available() returns (n: nat)
      requires Valid()
      ensures n == |Contents()|
    {
      WrappedDistance(written, consumed);
      n := Sub(head, tail);
    }

    /** Appends the first `n` elements of `data`, or nothing when they do not fit. */
    method Push(data: array<T>, n: nat) returns (ok: bool)
      requires Valid() && data != storage
      // the sum the fullness test takes does not wrap, and what fits is there to be copied
      requires |Contents()| + n < WORD && (|Contents()| + n <= capacity ==> n <= data.Length)
      modifies `head, `written, storage
      ensures Valid()
      ensures ok <==> |old(Contents())| + n <= capacity
      ensures Contents() == if ok then old(Contents()) + data[..n] else old(Contents())
    {
      hide GoodCapacity, Home, Add, Sub;
      WrappedDistance(written, consumed);
      if n == 0 { return true; }
      assert Add(written - consumed, n) == written - consumed + n by { SmallSum(written - consumed, n); }
      if Add(Sub(head, tail), n) > capacity { return false; }
      CopyIn(data, n);
      PlacesMeet(capacity, consumed, written);
      WrappedSum(written, n);
      head := Add(head, n);
      written := written + n;
      ok := true;
    }

    /** Up to the end of the storage, then from its start. */
    method CopyIn(data: array<T>, n: nat)
      requires Valid() && data != storage && 0 < n <= data.Length && written + n <= consumed + capacity
      modifies storage
      ensures forall i: nat :: i < n ==> storage[Place(capacity, written, i)] == data[i]
      ensures forall i: nat :: i < written - consumed ==>
                storage[Place(capacity, consumed, i)] == old(storage[Place(capacity, consumed, i)])
    {
      TransferLayout(capacity, written, n);
      hide GoodCapacity, Start, FirstPart, Place;
      var start, first := Start(capacity, head), FirstPart(capacity, head, n);
      CopyBlock(storage, start, data, 0, first);
      if first < n {
        CopyBlock(storage, 0, data, first, n - first);
      }
      CopiedInPlace(capacity, written, consumed, n, old(storage[..]), storage[..], data[..]);
    }

    /** Takes the oldest `n` elements, or nothing when there are fewer. */
    method Pop(out: array<T>, n: nat) returns (ok: bool)
      requires Valid() && out != storage && n <= out.Length
      modifies `tail, `consumed, out
      ensures Valid()
      ensures ok <==> n <= |old(Contents())|
      ensures Contents() == if ok then old(Contents())[n..] else old(Contents())
      ensures ok ==> out[..n] == old(Contents())[..n]
      ensures forall i :: (if ok then n else 0) <= i < out.Length ==> out[i] == old(out[i])
    {
      hide GoodCapacity, Home, Add, Sub;
      WrappedDistance(written, consumed);
      if n == 0 { return true; }
      if Sub(head, tail) < n { return false; }
      CopyOut(out, n);
      PlacesMeet(capacity, consumed, consumed + n);
      WrappedSum(consumed, n);
      tail := Add(tail, n);
      consumed := consumed + n;
      ok := true;
    }

    method CopyOut(out: array<T>, n: nat)
      requires Valid() && out != storage && 0 < n <= out.Length && consumed + n <= written
      modifies out
      ensures forall i: nat :: i < n ==> out[i] == storage[Place(capacity, consumed, i)]
      ensures forall i :: n <= i < out.Length ==> out[i] == old(out[i])
    {
      hide GoodCapacity, Start, FirstPart, Place;
      TransferLayout(capacity, consumed, n);
      var start, first := Start(capacity, tail), FirstPart(capacity, tail, n);
      CopyBlock(out, 0, storage, start, first);
      if first < n {
        CopyBlock(out, first, storage, 0, n - first);
      }
    }

    /** Empties the buffer; only while nobody else uses it. */
    method Reset()
      requires Valid()
      modifies `head, `tail, `written, `consumed
      ensures Valid() && Contents() == []
    {
      head, tail, written, consumed := 0, 0, 0, 0;
    }
  }

  /** Null is the exception a capacity that is no power of two raises. */
  method NewRingBuffer<T(0)>(capacity: nat) returns (ring: RingBuffer?<T>)
    requires capacity < WORD
    ensures ring == null <==> forall k :: capacity != Pow2(k)
    ensures ring != null ==> fresh(ring) && fresh(ring.storage) && ring.Valid()
    ensures ring != null ==> ring.capacity == capacity && ring.Contents() == []
  {
    PowerOfTwoTest(capacity);
    if !IsPowerOfTwo(capacity) { return null; }
    ring := new RingBuffer<T>(capacity);
  }

  /** Null is the exception a capacity that is no power of two raises. */
  method NewNoteEventQueue<E(0)>(capacity: nat) returns (queue: NoteEventQueue?<E>)
    requires capacity < WORD
    ensures queue == null <==> forall k :: capacity != Pow2(k)
    ensures queue != null ==> fresh(queue) && fresh(queue.slots) && queue.Valid()
    ensures queue != null ==> queue.capacity == capacity && queue.Contents() == []
  {
    PowerOfTwoTest(capacity);
    if !IsPowerOfTwo(capacity) { return null; }
    queue := new NoteEventQueue<E>(capacity);
  }

  class NoteEventQueue<E(0)> {
    const slots: array<E>
    const capacity: nat
    const mask: nat
    var head: nat
    var tail: nat
    ghost var written: nat
    ghost var consumed: nat

    ghost predicate Valid()
      reads this
    {
      && slots.Length == capacity && GoodCapacity(capacity) && 0 < capacity < WORD && mask == capacity - 1
      && head == written % WORD && tail == consumed % WORD
      && consumed <= written <= consumed + capacity
    }

    ghost function Contents(): (r: seq<E>)
      requires Valid()
      reads this, slots
      ensures |r| == written - consumed
    {
      seq(written - consumed, k requires 0 <= k < written - consumed && Valid() reads this, slots
                              => slots[Place(capacity, consumed, k)])
    }

    constructor (capacityPowerOfTwo: nat)
      requires IsPowerOfTwo(capacityPowerOfTwo) && capacityPowerOfTwo < WORD
      ensures Valid() && capacity == capacityPowerOfTwo && Contents() == [] && fresh(slots)
    {
      PowersAreGood(capacityPowerOfTwo);
      capacity, mask := capacityPowerOfTwo, capacityPowerOfTwo - 1;
      slots := new E[capacityPowerOfTwo];
      head, tail, written, consumed := 0, 0, 0, 0;
    }

    method Push(event: E) returns (ok: bool)
      requires Valid()
      modifies `head, `written, slots
      ensures Valid()
      ensures ok <==> |old(Contents())| < capacity
      ensures Contents() == if ok then old(Contents()) + [event] else old(Contents())
    {
      hide GoodCapacity, Place, Add, Sub, And;
      WrappedDistance(written, consumed);
      if Sub(head, tail) >= capacity { return false; }
      NextSlotFree(capacity, written, consumed);
      PlacesMeet(capacity, consumed, written);
      WrappedSum(written, 1);
      slots[And(head, mask)] := event;
      head := Add(head, 1);
      written := written + 1;
      ok := true;
    }

    /** `last` is what the caller's variable held; it is left alone when there is nothing to pop. */
    method Pop(last: E) returns (ok: bool, out: E)
      requires Valid()
      modifies `tail, `consumed
      ensures Valid()
      ensures ok <==> old(Contents()) != []
      ensures ok ==> [out] + Contents() == old(Contents())
      ensures !ok ==> out == last && Contents() == old(Contents())
    {
      hide GoodCapacity, Place, Add, And;
      WrappedDistance(written, consumed);
      out := last;
      if head == tail { return false, out; }
      OldestSlot(capacity, consumed);
      PlacesMeet(capacity, consumed, consumed + 1);
      WrappedSum(consumed, 1);
      assert Place(capacity, consumed, 0) == And(tail, mask);
      out := slots[And(tail, mask)];
      tail := Add(tail, 1);
      consumed := consumed + 1;
      ok := true;
    }

    method Available() returns (n: nat)
      requires Valid()
      ensures n == |Contents()|
    {
      WrappedDistance(written, consumed);
      n := Sub(head, tail);
    }
  }

  /** A signed count widened to a position. */
  function Widened(n: int): (r: nat)
    requires -0x8000_0000 <= n < 0x8000_0000
    ensures r < WORD
  {
    if n < 0 then WORD + n else n
  }

  lemma Widens(counter: nat, n: int)
    requires -0x8000_0000 <= n < 0x8000_0000
    ensures Add(counter, Widened(n)) == (counter + n) % WORD
  {}

  /** The audio input: the callback pushes frames or counts them as dropped, the reader takes what
      there is. */
  class OboeInput {
    const ring: RingBuffer<real>
    var droppedFrames: nat

    constructor (ring: RingBuffer<real>)
      ensures this.ring == ring && droppedFrames == 0
    {
      this.ring, droppedFrames := ring, 0;
    }

    /** `numFrames` is a signed 32-bit count that is widened to a position; a negative one looks larger
        than any ring, and is taken off the counter, as long as the ring holds fewer frames than it. */
    method OnAudioReady(frames: array<real>, numFrames: int)
      requires ring.Valid() && frames != ring.storage
      requires -0x8000_0000 <= numFrames < 0x8000_0000 && numFrames <= frames.Length
      requires numFrames < 0 ==> |ring.Contents()| + numFrames < 0
      modifies `droppedFrames, ring`head, ring`written, ring.storage
      ensures ring.Valid()
      ensures 0 <= numFrames && |old(ring.Contents())| + numFrames <= ring.capacity ==>
                ring.Contents() == old(ring.Contents()) + frames[..numFrames] && droppedFrames == old(droppedFrames)
      ensures numFrames < 0 || |old(ring.Contents())| + numFrames > ring.capacity ==>
                ring.Contents() == old(ring.Contents()) && droppedFrames == (old(droppedFrames) + numFrames) % WORD
    {
      hide GoodCapacity, Add, Sub;
      HalfWord(ring.capacity);
      var n := Widened(numFrames);
      Widens(droppedFrames, numFrames);
      var ok := ring.Push(frames, n);
      if !ok { droppedFrames := Add(droppedFrames, n); }
    }

    /** The pop of what was seen available does not fail. */
    method Read(out: array?<real>, maxFrames: nat) returns (count: nat)
      requires ring.Valid() && out != ring.storage && (out != null ==> maxFrames <= out.Length)
      modifies ring`tail, ring`consumed, out
      ensures ring.Valid()
      ensures count == if out == null || maxFrames <= |old(ring.Contents())|
                       then (if out == null then 0 else maxFrames) else |old(ring.Contents())|
      ensures ring.Contents() == old(ring.Contents())[count..]
      ensures out != null ==> out[..count] == old(ring.Contents())[..count]
    {
      if out == null || maxFrames == 0 { return 0; }
      var available := ring.Available();
      if available == 0 { return 0; }
      var toRead := if maxFrames < available then maxFrames else available;
      var ok := ring.Pop(out, toRead);
      count := toRead;
    }
  }
}
