/** The lock-free single-producer/single-consumer ring, one atomic action at a time: every load and
    store of a position and every single element copied is a step of its own, and the two threads
    interleave freely. `pushed` and `popped` record what has been published and consumed so far. */
module SpscMachine {
  import opened Words

  /** Where the producer stands in `push(data)`. `seen` is the tail it loaded, unwrapped. */
  datatype Producer<T> =
    | PIdle
    | PLoadedTail(data: seq<T>, tail: nat, seen: nat)
    | PCopying(data: seq<T>, head: nat, done: set<nat>)

  /** Where the consumer stands in `pop(n)` or in `read(max)`. A read pops what `available()` showed;
      `sure` marks such a pop. `seen` is the head it loaded, unwrapped. */
  datatype Consumer<T> =
    | CIdle
    | CCounting(max: nat, head: nat, seen: nat)
    | CPopping(n: nat, sure: bool)
    | CLoadedHead(n: nat, sure: bool, head: nat, seen: nat)
    | CCopying(n: nat, tail: nat, out: map<nat, T>)

  datatype Ring<T> = Ring(
    cap: nat,
    slots: seq<T>,
    head: nat,
    tail: nat,
    producer: Producer<T>,
    consumer: Consumer<T>,
    pushed: seq<T>,
    popped: seq<T>,
    offered: nat,
    dropped: nat,
    failedReads: nat)

  /** Where a transfer starts, and how much of it fits before the end of the storage. */
  function Start(cap: nat, pos: nat): nat
    requires cap > 0
  {
    And(pos, cap - 1)
  }

  function FirstPart(cap: nat, pos: nat, n: nat): int
    requires cap > 0
  {
    if n <= cap - Start(cap, pos) then n else cap - Start(cap, pos)
  }

  /** The slot of element `i` of a transfer of `n` that starts at position `pos`: the part up to the
      end of the storage comes first, the rest wraps to its beginning. */
  function Slot(cap: nat, pos: nat, n: nat, i: nat): nat
    requires cap > 0
  {
    var first := FirstPart(cap, pos, n);
    if i < first then Start(cap, pos) + i else i - first
  }

  datatype Step<T> =
    | PushLoadTail(data: seq<T>)
    | PushLoadHead
    | PushCopy(i: nat)
    | PushPublish
    | ReadLoadHead(max: nat)
    | ReadLoadTail
    | PopStart(n: nat)
    | PopLoadHead
    | PopLoadTail
    | PopCopy(i: nat)
    | PopPublish

  predicate Enabled<T(==)>(s: Ring<T>, step: Step<T>)
    requires s.cap > 0
  {
    match step
    // `head - tail + n` must not overflow: exactly then the fullness test means what it says
    case PushLoadTail(data) => s.producer.PIdle? && data != [] && Sub(s.head, s.tail) + |data| < WORD
    case PushLoadHead => s.producer.PLoadedTail?
    case PushCopy(i) => s.producer.PCopying? && i < |s.producer.data| && i !in s.producer.done
                        && Slot(s.cap, s.producer.head, |s.producer.data|, i) < |s.slots|
    case PushPublish => s.producer.PCopying? && forall i :: 0 <= i < |s.producer.data| ==> i in s.producer.done
    case ReadLoadHead(max) => s.consumer.CIdle? && max > 0
    case ReadLoadTail => s.consumer.CCounting?
    case PopStart(n) => s.consumer.CIdle? && n > 0
    case PopLoadHead => s.consumer.CPopping?
    case PopLoadTail => s.consumer.CLoadedHead?
    case PopCopy(i) => s.consumer.CCopying? && i < s.consumer.n && i !in s.consumer.out
                       && Slot(s.cap, s.consumer.tail, s.consumer.n, i) < |s.slots|
    case PopPublish => s.consumer.CCopying? && forall i :: 0 <= i < s.consumer.n ==> i in s.consumer.out
  }

  /** The values copied out, in order. */
  function Copied<T>(out: map<nat, T>, n: nat): (r: seq<T>)
    requires forall i :: 0 <= i < n ==> i in out
    ensures |r| == n
  {
    seq(n, i requires 0 <= i < n => out[i])
  }

  function Next<T(==)>(s: Ring<T>, step: Step<T>): Ring<T>
    requires s.cap > 0 && Enabled(s, step)
  {
    match step
    case PushLoadTail(data) =>
      s.(producer := PLoadedTail(data, s.tail, |s.popped|), offered := s.offered + |data|)
    case PushLoadHead =>
      var data := s.producer.data;
      if Add(Sub(s.head, s.producer.tail), |data|) > s.cap
      then s.(producer := PIdle, dropped := s.dropped + |data|)
      else s.(producer := PCopying(data, s.head, {}))
    case PushCopy(i) =>
      var slot := Slot(s.cap, s.producer.head, |s.producer.data|, i);
      s.(slots := s.slots[slot := s.producer.data[i]],
         producer := s.producer.(done := s.producer.done + {i}))
    case PushPublish =>
      s.(head := Add(s.producer.head, |s.producer.data|), pushed := s.pushed + s.producer.data, producer := PIdle)
    case ReadLoadHead(max) =>
      s.(consumer := CCounting(max, s.head, |s.pushed|))
    case ReadLoadTail =>
      var available := Sub(s.consumer.head, s.tail);
      if available == 0 then s.(consumer := CIdle)
      else s.(consumer := CPopping(if s.consumer.max < available then s.consumer.max else available, true))
    case PopStart(n) =>
      s.(consumer := CPopping(n, false))
    case PopLoadHead =>
      s.(consumer := CLoadedHead(s.consumer.n, s.consumer.sure, s.head, |s.pushed|))
    case PopLoadTail =>
      if Sub(s.consumer.head, s.tail) < s.consumer.n
      then s.(consumer := CIdle, failedReads := s.failedReads + if s.consumer.sure then 1 else 0)
      else s.(consumer := CCopying(s.consumer.n, s.tail, map[]))
    case PopCopy(i) =>
      var slot := Slot(s.cap, s.consumer.tail, s.consumer.n, i);
      s.(consumer := s.consumer.(out := s.consumer.out[i := s.slots[slot]]))
    case PopPublish =>
      s.(tail := Add(s.consumer.tail, s.consumer.n), popped := s.popped + Copied(s.consumer.out, s.consumer.n),
         consumer := CIdle)
  }

  function Initial<T>(cap: nat, slots: seq<T>): Ring<T> {
    Ring(cap, slots, 0, 0, PIdle, CIdle, [], [], 0, 0, 0)
  }

  // ----- What every interleaving keeps --------------------------------------------------------

  /** The slot that position `k` lives in. */
  function Home(k: nat, cap: nat): (slot: nat)
    requires cap > 0
    ensures slot < cap
  {
    k % cap
  }

  /** Positions less than a capacity apart live in different slots. */
  lemma HomesDistinct(a: nat, b: nat, cap: nat)
    requires 0 < cap && (a < b < a + cap || b < a < b + cap)
    ensures Home(a, cap) != Home(b, cap)
  {
    if a < b { SlotsDistinct(a, b, cap); } else { SlotsDistinct(b, a, cap); }
  }

  /** Positions are the published and consumed counts, wrapped; the slots hold what is published and
      not yet consumed; what was consumed is what was published. */
  ghost predicate Shared<T(!new)>(s: Ring<T>) {
    && GoodCapacity(s.cap) && 0 < s.cap < WORD && |s.slots| == s.cap
    && s.head == |s.pushed| % WORD && s.tail == |s.popped| % WORD
    && |s.popped| <= |s.pushed| <= |s.popped| + s.cap
    && (forall k {:trigger s.pushed[k]} :: |s.popped| <= k < |s.pushed| ==> s.slots[Home(k, s.cap)] == s.pushed[k])
    && s.popped == s.pushed[..|s.popped|]
  }

  ghost predicate ProducerOk<T(!new)>(s: Ring<T>)
    requires Shared(s)
  {
    match s.producer
    case PIdle => true
    case PLoadedTail(data, tail, seen) =>
      && data != [] && |s.pushed| - seen + |data| < WORD
      && tail == seen % WORD && seen <= |s.popped| && |s.pushed| <= seen + s.cap
    case PCopying(data, head, done) =>
      && data != [] && head == s.head && |s.pushed| + |data| <= |s.popped| + s.cap
      && (forall i :: i in done ==> i < |data|)
      && (forall i {:trigger data[i]} :: i in done ==> s.slots[Home(|s.pushed| + i, s.cap)] == data[i])
  }

  ghost predicate ConsumerOk<T(!new)>(s: Ring<T>)
    requires Shared(s)
  {
    match s.consumer
    case CIdle => true
    case CCounting(max, head, seen) => max > 0 && head == seen % WORD && |s.popped| <= seen <= |s.pushed|
    case CPopping(n, sure) => n > 0 && (sure ==> |s.popped| + n <= |s.pushed|)
    case CLoadedHead(n, sure, head, seen) =>
      && n > 0 && head == seen % WORD && |s.popped| <= seen <= |s.pushed|
      && (sure ==> |s.popped| + n <= seen)
    case CCopying(n, tail, out) =>
      && n > 0 && tail == s.tail && |s.popped| + n <= |s.pushed|
      && (forall i :: i in out ==> i < n)
      && (forall i {:trigger out[i]} :: i in out ==> out[i] == s.pushed[|s.popped| + i])
  }

  /** Frames handed to a push that has not finished. */
  function InFlight<T>(s: Ring<T>): nat {
    match s.producer
    case PIdle => 0
    case PLoadedTail(data, _, _) => |data|
    case PCopying(data, _, _) => |data|
  }

  ghost predicate Inv<T(!new)>(s: Ring<T>) {
    && s.cap > 0
    && Shared(s) && ProducerOk(s) && ConsumerOk(s)
    && s.offered == |s.pushed| + s.dropped + InFlight(s)
    && s.failedReads == 0
  }

  lemma InitialInv<T(!new)>(cap: nat, slots: seq<T>)
    requires IsPowerOfTwo(cap) && cap < WORD && |slots| == cap
    ensures Inv(Initial(cap, slots))
  {
    PowersAreGood(cap);
  }

  /** The two-part copy reaches the slot of the unwrapped position. */
  lemma SlotOfPosition(cap: nat, position: nat, n: nat, i: nat)
    requires GoodCapacity(cap) && i < n <= cap
    ensures Slot(cap, position % WORD, n, i) == Home(position + i, cap)
  {
    WrapThenMask(position, cap);
    RemainderSteps(position, i, cap);
    assert And(position % WORD, cap - 1) == (position % WORD) % cap;
    hide GoodCapacity, And;
  }

  lemma WrappedSum(position: nat, n: nat)
    ensures Add(position % WORD, n) == (position + n) % WORD
  {}

  /** The fullness test sees the true fill, stale by what was consumed since the tail was loaded. */
  lemma FillSeen<T(!new)>(s: Ring<T>)
    requires Inv(s) && s.producer.PLoadedTail?
    ensures Sub(s.head, s.producer.tail) == |s.pushed| - s.producer.seen
    ensures Add(Sub(s.head, s.producer.tail), |s.producer.data|) == |s.pushed| - s.producer.seen + |s.producer.data|
  {
    hide GoodCapacity, And, Home, Slot;
    WrappedDistance(|s.pushed|, s.producer.seen);
  }

  /** An element is written beside everything the consumer may still read. */
  lemma WriteKeepsUnread<T(!new)>(s: Ring<T>, i: nat, slots: seq<T>)
    requires Inv(s) && s.producer.PCopying? && i < |s.producer.data|
    requires slots == s.slots[Home(|s.pushed| + i, s.cap) := s.producer.data[i]]
    ensures forall k :: |s.popped| <= k < |s.pushed| ==> slots[Home(k, s.cap)] == s.pushed[k]
  {
    hide Home, GoodCapacity;
    forall k | |s.popped| <= k < |s.pushed| ensures slots[Home(k, s.cap)] == s.pushed[k] {
      HomesDistinct(k, |s.pushed| + i, s.cap);
    }
  }

  /** An element is written beside the elements of the same transfer. */
  lemma WriteKeepsWritten<T(!new)>(s: Ring<T>, i: nat, slots: seq<T>)
    requires Inv(s) && s.producer.PCopying? && i < |s.producer.data|
    requires slots == s.slots[Home(|s.pushed| + i, s.cap) := s.producer.data[i]]
    ensures forall j :: j in s.producer.done + {i} ==> slots[Home(|s.pushed| + j, s.cap)] == s.producer.data[j]
  {
    hide Home, GoodCapacity;
    var data, H := s.producer.data, |s.pushed|;
    forall j | j in s.producer.done + {i} ensures slots[Home(H + j, s.cap)] == data[j] {
      if j != i { HomesDistinct(H + j, H + i, s.cap); }
    }
  }

  lemma PushCopyKeeps<T(!new)>(s: Ring<T>, i: nat)
    requires Inv(s) && Enabled(s, PushCopy(i))
    ensures Inv(Next(s, PushCopy(i)))
  {
    hide GoodCapacity, Slot, Add, Sub, Home;
    SlotOfPosition(s.cap, |s.pushed|, |s.producer.data|, i);
    var slots := s.slots[Home(|s.pushed| + i, s.cap) := s.producer.data[i]];
    WriteKeepsUnread(s, i, slots);
    WriteKeepsWritten(s, i, slots);
  }

  /** A transfer copied completely is what the slots hold beyond the published elements. */
  lemma TransferHeld<T(!new)>(s: Ring<T>, pushed: seq<T>)
    requires Inv(s) && s.producer.PCopying? && pushed == s.pushed + s.producer.data
    requires forall i :: 0 <= i < |s.producer.data| ==> i in s.producer.done
    ensures forall k :: |s.popped| <= k < |pushed| ==> s.slots[Home(k, s.cap)] == pushed[k]
  {
    hide GoodCapacity, Home;
    forall k | |s.popped| <= k < |pushed| ensures s.slots[Home(k, s.cap)] == pushed[k] {
      if k >= |s.pushed| {
        var i: nat := k - |s.pushed|;
        assert i in s.producer.done && s.producer.data[i] == pushed[k];
      } else {
        assert pushed[k] == s.pushed[k];
      }
    }
  }

  lemma PushPublishKeeps<T(!new)>(s: Ring<T>)
    requires Inv(s) && Enabled(s, PushPublish)
    ensures Inv(Next(s, PushPublish))
  {
    hide GoodCapacity, Home, Add;
    var data := s.producer.data;
    var pushed := s.pushed + data;
    WrappedSum(|s.pushed|, |data|);
    TransferHeld(s, pushed);
    assert pushed[..|s.popped|] == s.pushed[..|s.popped|];
    var next := Next(s, PushPublish);
    assert Shared(next);
    hide Shared;
  }

  /** An element is read from the slot it was published in. */
  lemma ReadsPublished<T(!new)>(s: Ring<T>, i: nat)
    requires Inv(s) && s.consumer.CCopying? && i < s.consumer.n
    ensures Slot(s.cap, s.consumer.tail, s.consumer.n, i) < |s.slots|
    ensures s.slots[Slot(s.cap, s.consumer.tail, s.consumer.n, i)] == s.pushed[|s.popped| + i]
  {
    hide GoodCapacity, Slot, Home;
    SlotOfPosition(s.cap, |s.popped|, s.consumer.n, i);
    var k := |s.popped| + i;
    assert s.slots[Home(k, s.cap)] == s.pushed[k];
  }

  lemma SharedSame<T(!new)>(s: Ring<T>, s': Ring<T>)
    requires Shared(s) && s'.cap == s.cap && s'.slots == s.slots && s'.head == s.head && s'.tail == s.tail
    requires s'.pushed == s.pushed && s'.popped == s.popped
    ensures Shared(s')
  {}

  lemma CopiedOk<T(!new)>(s: Ring<T>, t: Ring<T>, i: nat)
    requires Shared(s) && Shared(t) && ConsumerOk(s) && s.consumer.CCopying? && i < s.consumer.n
    requires t == s.(consumer := s.consumer.(out := s.consumer.out[i := s.pushed[|s.popped| + i]]))
    ensures ConsumerOk(t)
  {
    hide Shared;
  }

  lemma ProducerSame<T(!new)>(s: Ring<T>, t: Ring<T>)
    requires Shared(s) && Shared(t) && ProducerOk(s) && t == s.(consumer := t.consumer)
    ensures ProducerOk(t) && InFlight(t) == InFlight(s)
  {
    hide Shared, Home;
  }

  lemma PopCopyKeeps<T(!new)>(s: Ring<T>, i: nat)
    requires Inv(s) && Enabled(s, PopCopy(i))
    ensures Inv(Next(s, PopCopy(i)))
  {
    hide Shared, Slot, Home, ProducerOk, ConsumerOk, InFlight;
    var t := Next(s, PopCopy(i));
    ReadsPublished(s, i);
    SharedSame(s, t);
    ProducerSame(s, t);
    CopiedOk(s, t, i);
  }

  lemma PopPublishKeeps<T(!new)>(s: Ring<T>)
    requires Inv(s) && Enabled(s, PopPublish)
    ensures Inv(Next(s, PopPublish))
  {
    hide GoodCapacity, Home, Add;
    var n, P := s.consumer.n, |s.popped|;
    WrappedSum(P, n);
    var copied := Copied(s.consumer.out, n);
    assert copied == s.pushed[P..P + n];
    assert s.popped + copied == s.pushed[..P + n];
    var next := Next(s, PopPublish);
    forall k | |next.popped| <= k < |s.pushed| ensures next.slots[Home(k, s.cap)] == s.pushed[k] {
      assert |s.popped| <= k;
    }
  }

  lemma PushLoadKeeps<T(!new)>(s: Ring<T>, step: Step<T>)
    requires Inv(s) && Enabled(s, step) && (step.PushLoadTail? || step.PushLoadHead?)
    ensures Inv(Next(s, step))
  {
    hide GoodCapacity, Add, Sub, Home;
    if step.PushLoadHead? { FillSeen(s); } else { WrappedDistance(|s.pushed|, |s.popped|); }
  }

  lemma ReadLoadKeeps<T(!new)>(s: Ring<T>, step: Step<T>)
    requires Inv(s) && Enabled(s, step) && (step.ReadLoadHead? || step.ReadLoadTail?)
    ensures Inv(Next(s, step))
  {
    hide GoodCapacity, Add, Sub, Home;
    if step.ReadLoadTail? { WrappedDistance(s.consumer.seen, |s.popped|); }
  }

  lemma PopLoadKeeps<T(!new)>(s: Ring<T>, step: Step<T>)
    requires Inv(s) && Enabled(s, step) && (step.PopStart? || step.PopLoadHead? || step.PopLoadTail?)
    ensures Inv(Next(s, step))
  {
    hide GoodCapacity, Add, Sub, Home;
    if step.PopLoadTail? { WrappedDistance(s.consumer.seen, |s.popped|); }
  }

  /** Every step of either thread keeps the invariant. */
  lemma StepKeeps<T(!new)>(s: Ring<T>, step: Step<T>)
    requires Inv(s) && Enabled(s, step)
    ensures Inv(Next(s, step))
  {
    match step
    case PushCopy(i) => PushCopyKeeps(s, i);
    case PushPublish => PushPublishKeeps(s);
    case PopCopy(i) => PopCopyKeeps(s, i);
    case PopPublish => PopPublishKeeps(s);
    case PushLoadTail(_) => PushLoadKeeps(s, step);
    case PushLoadHead => PushLoadKeeps(s, step);
    case ReadLoadHead(_) => ReadLoadKeeps(s, step);
    case ReadLoadTail => ReadLoadKeeps(s, step);
    case PopStart(_) => PopLoadKeeps(s, step);
    case PopLoadHead => PopLoadKeeps(s, step);
    case PopLoadTail => PopLoadKeeps(s, step);
  }

  /** Every copy either thread makes stays inside the storage. */
  lemma CopiesInBounds<T(!new)>(s: Ring<T>)
    requires Inv(s)
    ensures s.producer.PCopying? ==> forall i: nat :: i < |s.producer.data| ==>
              Slot(s.cap, s.producer.head, |s.producer.data|, i) < |s.slots|
    ensures s.consumer.CCopying? ==> forall i: nat :: i < s.consumer.n ==>
              Slot(s.cap, s.consumer.tail, s.consumer.n, i) < |s.slots|
  {
    hide GoodCapacity, Slot, Home;
    if s.producer.PCopying? {
      forall i: nat | i < |s.producer.data|
        ensures Slot(s.cap, s.producer.head, |s.producer.data|, i) < |s.slots|
      {
        SlotOfPosition(s.cap, |s.pushed|, |s.producer.data|, i);
      }
    }
    if s.consumer.CCopying? {
      forall i: nat | i < s.consumer.n
        ensures Slot(s.cap, s.consumer.tail, s.consumer.n, i) < |s.slots|
      {
        SlotOfPosition(s.cap, |s.popped|, s.consumer.n, i);
      }
    }
  }

  /** The steps of the producer; the others are the consumer's. */
  predicate OfProducer<T>(step: Step<T>) {
    step.PushLoadTail? || step.PushLoadHead? || step.PushCopy? || step.PushPublish?
  }

  /** Steps that begin a transfer. */
  predicate Begins<T>(step: Step<T>) { step.PushLoadTail? || step.ReadLoadHead? || step.PopStart? }

  function Below(n: nat): (r: set<nat>)
    ensures |r| == n && forall i: nat :: i in r <==> i < n
  {
    if n == 0 then {} else Below(n - 1) + {n - 1}
  }

  /** How many steps of its own the producer needs at most until it is done, and the consumer. */
  function ProducerLeft<T>(p: Producer<T>): nat {
    match p
    case PIdle => 0
    case PLoadedTail(data, _, _) => |data| + 2
    case PCopying(data, _, done) => |Below(|data|) - done| + 1
  }

  function ConsumerLeft<T>(c: Consumer<T>, cap: nat): nat {
    match c
    case CIdle => 0
    case CCounting(_, _, _) => cap + 4
    case CPopping(_, _) => cap + 3
    case CLoadedHead(_, _, _, _) => cap + 2
    case CCopying(n, _, out) => |Below(n) - out.Keys| + 1
  }

  /** Main result: neither thread ever waits for the other. In every state of every run a thread that is
      in the middle of a transfer has a step of its own to take. */
  lemma NeverBlocks<T(!new)>(s: Ring<T>)
    requires Inv(s)
    ensures !s.producer.PIdle? ==> exists step: Step<T> :: OfProducer(step) && Enabled(s, step)
    ensures !s.consumer.CIdle? ==> exists step: Step<T> :: !OfProducer(step) && Enabled(s, step)
  {
    CopiesInBounds(s);
    hide Inv, Slot;
    match s.producer {
      case PIdle =>
      case PLoadedTail(_, _, _) => assert Enabled(s, PushLoadHead);
      case PCopying(data, _, done) =>
        if i: nat :| i < |data| && i !in done {
          assert Enabled(s, PushCopy(i));
        } else {
          assert Enabled(s, PushPublish);
        }
    }
    match s.consumer {
      case CIdle =>
      case CCounting(_, _, _) => assert Enabled(s, ReadLoadTail);
      case CPopping(_, _) => assert Enabled(s, PopLoadHead);
      case CLoadedHead(_, _, _, _) => assert Enabled(s, PopLoadTail);
      case CCopying(n, _, out) =>
        if i: nat :| i < n && i !in out {
          assert Enabled(s, PopCopy(i));
        } else {
          assert Enabled(s, PopPublish);
        }
    }
  }

  lemma OneLess(all: set<nat>, done: set<nat>, i: nat)
    requires i in all && i !in done
    ensures |all - (done + {i})| < |all - done|
  {
    assert all - (done + {i}) == (all - done) - {i};
  }

  lemma PushStepCounts<T(!new)>(s: Ring<T>, step: Step<T>)
    requires s.cap > 0 && Enabled(s, step) && OfProducer(step) && !Begins(step)
    ensures ProducerLeft(Next(s, step).producer) < ProducerLeft(s.producer)
    ensures Next(s, step).consumer == s.consumer
  {
    hide Slot, Add, Sub, Below;
    match step
    case PushLoadHead => assert Below(|s.producer.data|) - {} == Below(|s.producer.data|);
    case PushCopy(i) => OneLess(Below(|s.producer.data|), s.producer.done, i);
    case PushPublish =>
  }

  lemma PopLoadCounts<T(!new)>(s: Ring<T>)
    requires Inv(s) && Enabled(s, PopLoadTail)
    ensures ConsumerLeft(Next(s, PopLoadTail).consumer, s.cap) < ConsumerLeft(s.consumer, s.cap)
  {
    StepKeeps(s, PopLoadTail);
    var next := Next(s, PopLoadTail);
    if next.consumer.CCopying? {
      assert next.consumer.n <= s.cap;
      assert Below(next.consumer.n) - next.consumer.out.Keys == Below(next.consumer.n);
    }
    hide Inv, Sub, Below;
  }

  lemma PopStepCounts<T(!new)>(s: Ring<T>, step: Step<T>)
    requires s.cap > 0 && Enabled(s, step) && !OfProducer(step) && !Begins(step) && !step.PopLoadTail?
    ensures ConsumerLeft(Next(s, step).consumer, s.cap) < ConsumerLeft(s.consumer, s.cap)
  {
    hide Slot, Add, Sub, Below, Copied;
    match step
    case ReadLoadTail =>
    case PopLoadHead =>
    case PopCopy(i) => PopCopyCounts(s, i);
    case PopPublish =>
  }

  lemma OneMoreCopied<T>(n: nat, tail: nat, out: map<nat, T>, i: nat, value: T, cap: nat)
    requires i < n && i !in out
    ensures ConsumerLeft(CCopying(n, tail, out[i := value]), cap) < ConsumerLeft(CCopying(n, tail, out), cap)
  {
    OneLess(Below(n), out.Keys, i);
    hide Below;
    assert out[i := value].Keys == out.Keys + {i};
  }

  lemma PopCopyCounts<T(!new)>(s: Ring<T>, i: nat)
    requires s.cap > 0 && Enabled(s, PopCopy(i))
    ensures ConsumerLeft(Next(s, PopCopy(i)).consumer, s.cap) < ConsumerLeft(s.consumer, s.cap)
  {
    hide Slot, ConsumerLeft, Add, Sub, Copied;
    var c := s.consumer;
    OneMoreCopied(c.n, c.tail, c.out, i, s.slots[Slot(s.cap, c.tail, c.n, i)], s.cap);
  }

  /** Main result: each such step brings its thread closer to the end of the transfer, and no step of
      the other thread sets it back: within |data| + 2 steps a push is over, and within the capacity
      and four a pop or a read. */
  lemma EveryStepCounts<T(!new)>(s: Ring<T>, step: Step<T>)
    requires Inv(s) && Enabled(s, step)
    ensures var next := Next(s, step);
            if OfProducer(step) then
              && next.consumer == s.consumer
              && (!Begins(step) ==> ProducerLeft(next.producer) < ProducerLeft(s.producer))
            else
              && next.producer == s.producer
              && (!Begins(step) ==> ConsumerLeft(next.consumer, s.cap) < ConsumerLeft(s.consumer, s.cap))
  {
    assert s.cap > 0;
    hide Inv, Slot, Add, Sub, ProducerLeft, ConsumerLeft;
    if OfProducer(step) {
      if !Begins(step) { PushStepCounts(s, step); }
    } else if step.PopLoadTail? {
      PopLoadCounts(s);
    } else if !Begins(step) {
      PopStepCounts(s, step);
    }
  }

  // ----- Runs ---------------------------------------------------------------------------------

  /** `states` is a run: every state follows from the one before by a step of one of the threads. */
  ghost predicate IsRun<T(!new)>(states: seq<Ring<T>>, steps: seq<Step<T>>) {
    && |states| == |steps| + 1
    && (forall i :: 0 <= i < |states| ==> states[i].cap > 0)
    && (forall i :: 0 <= i < |steps| ==> Enabled(states[i], steps[i]) && states[i + 1] == Next(states[i], steps[i]))
  }

  lemma {:induction false} RunKeeps<T(!new)>(states: seq<Ring<T>>, steps: seq<Step<T>>, i: nat)
    requires IsRun(states, steps) && Inv(states[0]) && i < |states|
    ensures Inv(states[i])
    decreases i
  {
    hide Inv, Enabled, Next;
    if i > 0 {
      RunKeeps(states, steps, i - 1);
      StepKeeps(states[i - 1], steps[i - 1]);
    }
  }

  lemma HistoryGrows<T(!new)>(s: Ring<T>, step: Step<T>)
    requires s.cap > 0 && Enabled(s, step)
    ensures s.pushed <= Next(s, step).pushed && s.popped <= Next(s, step).popped && Next(s, step).cap == s.cap
  {}

  lemma {:induction false} RunHistory<T(!new)>(states: seq<Ring<T>>, steps: seq<Step<T>>, i: nat, j: nat)
    requires IsRun(states, steps) && i <= j < |states|
    ensures states[i].pushed <= states[j].pushed && states[i].popped <= states[j].popped
    ensures states[i].cap == states[j].cap
    decreases j
  {
    hide Enabled, Next;
    if i < j {
      RunHistory(states, steps, i, j - 1);
      HistoryGrows(states[j - 1], steps[j - 1]);
    }
  }

  /** Main result, first in first out: under every interleaving, at every moment, what was popped so
      far is what was pushed first, and it stays so - nothing is lost, doubled or reordered. Every
      frame offered was popped, is buffered, was dropped, or is on its way in; and a read of what
      was seen available has never failed. */
  lemma FirstInFirstOut<T(!new)>(cap: nat, slots: seq<T>, states: seq<Ring<T>>, steps: seq<Step<T>>, i: nat, j: nat)
    requires IsPowerOfTwo(cap) && cap < WORD && |slots| == cap
    requires IsRun(states, steps) && states[0] == Initial(cap, slots) && i <= j < |states|
    ensures states[i].popped <= states[i].pushed <= states[j].pushed
    ensures |states[i].pushed| - |states[i].popped| <= states[i].cap
    ensures states[i].offered == |states[i].popped| + (|states[i].pushed| - |states[i].popped|)
                                 + states[i].dropped + InFlight(states[i])
    ensures states[i].failedReads == 0
  {
    InitialInv(cap, slots);
    RunKeeps(states, steps, i);
    RunHistory(states, steps, i, j);
    hide GoodCapacity;
  }

  /** What `available()` returns to a thread that loads the head in one state and the tail in a later one. */
  function Observed<T>(first: Ring<T>, second: Ring<T>): nat { Sub(first.head, second.tail) }

  /** Main result, the observed count: it is the number of elements pushed before the first load and not
      popped before the second if and only if the consumer has not passed the loaded head in between;
      then it lies in [0, cap]. Otherwise it wraps, and exceeds the capacity unless nearly 2^64 elements
      went by. */
  lemma ObservedCount<T(!new)>(
    cap: nat, slots: seq<T>, states: seq<Ring<T>>, steps: seq<Step<T>>, i: nat, j: nat)
    requires IsPowerOfTwo(cap) && cap < WORD && |slots| == cap
    requires IsRun(states, steps) && states[0] == Initial(cap, slots) && i <= j < |states|
    ensures var count, seen, popped := Observed(states[i], states[j]), |states[i].pushed|, |states[j].popped|;
            && (count == seen - popped <==> popped <= seen)
            && (popped <= seen ==> 0 <= count <= cap)
            && (seen < popped < seen + WORD - cap ==> count > cap)
  {
    InitialInv(cap, slots);
    RunKeeps(states, steps, i);
    RunKeeps(states, steps, j);
    RunHistory(states, steps, 0, i);
    RunHistory(states, steps, i, j);
    SharedCounts(states[i]);
    SharedCounts(states[j]);
    hide Inv, IsRun, Sub;
    ObservedWords(|states[i].pushed|, |states[j].popped|, cap);
  }

  lemma SharedCounts<T(!new)>(s: Ring<T>)
    requires Inv(s)
    ensures s.head == |s.pushed| % WORD && s.tail == |s.popped| % WORD
    ensures |s.popped| <= |s.pushed| <= |s.popped| + s.cap && 0 < s.cap < WORD
  {
    hide GoodCapacity, Home;
  }

  lemma ObservedWords(seen: nat, popped: nat, cap: nat)
    requires seen <= popped + cap && cap < WORD
    ensures var count := Sub(seen % WORD, popped % WORD);
            && (popped <= seen ==> count == seen - popped)
            && (seen < popped < seen + WORD ==> count == WORD - (popped - seen))
  {
    if popped <= seen {
      WrappedDistance(seen, popped);
    } else if popped < seen + WORD {
      WrappedDistance(popped, seen);
    }
  }

  /** The consumer's own count, taken between two of its pops, never exceeds what is buffered; the
      producer's own count, taken between two of its pushes, is what is buffered. */
  lemma OwnCounts<T(!new)>(
    cap: nat, slots: seq<T>, states: seq<Ring<T>>, steps: seq<Step<T>>, i: nat, j: nat)
    requires IsPowerOfTwo(cap) && cap < WORD && |slots| == cap
    requires IsRun(states, steps) && states[0] == Initial(cap, slots) && i <= j < |states|
    ensures states[j].popped == states[i].popped ==>
              Observed(states[i], states[j]) <= |states[j].pushed| - |states[j].popped|
    ensures states[j].pushed == states[i].pushed ==>
              Observed(states[i], states[j]) == |states[j].pushed| - |states[j].popped|
  {
    ObservedCount(cap, slots, states, steps, i, j);
    InitialInv(cap, slots);
    RunKeeps(states, steps, i);
    RunKeeps(states, steps, j);
    RunHistory(states, steps, i, j);
    SharedCounts(states[i]);
    SharedCounts(states[j]);
    hide Inv, IsRun, Sub, Observed;
  }

  /** Main result, no overlap: while both threads copy, no slot being written is one being read. */
  lemma NoSlotShared<T(!new)>(s: Ring<T>, i: nat, j: nat)
    requires Inv(s) && s.producer.PCopying? && s.consumer.CCopying?
    requires i < |s.producer.data| && j < s.consumer.n
    ensures Slot(s.cap, s.producer.head, |s.producer.data|, i) != Slot(s.cap, s.consumer.tail, s.consumer.n, j)
  {
    hide GoodCapacity, Home, Slot;
    SlotOfPosition(s.cap, |s.pushed|, |s.producer.data|, i);
    SlotOfPosition(s.cap, |s.popped|, s.consumer.n, j);
    HomesDistinct(|s.popped| + j, |s.pushed| + i, s.cap);
  }

  /** Main result: a push is refused exactly when its elements do not fit beside what was buffered
      when it loaded the tail, so never when the ring had room all along. */
  lemma PushRefusal<T(!new)>(s: Ring<T>)
    requires Inv(s) && s.producer.PLoadedTail?
    ensures Next(s, PushLoadHead).producer.PIdle? <==>
              |s.pushed| - s.producer.seen + |s.producer.data| > s.cap
    ensures |s.pushed| - |s.popped| + |s.producer.data| > s.cap ==> Next(s, PushLoadHead).producer.PIdle?
  {
    hide GoodCapacity;
    FillSeen(s);
  }

  /** Main result: a pop is refused exactly when fewer elements than asked for were buffered when it
      loaded the head. */
  lemma PopRefusal<T(!new)>(s: Ring<T>)
    requires Inv(s) && s.consumer.CLoadedHead?
    ensures Next(s, PopLoadTail).consumer.CIdle? <==> s.consumer.seen - |s.popped| < s.consumer.n
  {
    hide GoodCapacity, Home, Sub;
    WrappedDistance(s.consumer.seen, |s.popped|);
  }

  /** A read that saw nothing is over; another goes on to pop what it saw, or what it was asked for if
      that is less. */
  lemma ReadAsks<T(!new)>(s: Ring<T>)
    requires Inv(s) && s.consumer.CCounting?
    ensures var next, buffered := Next(s, ReadLoadTail), s.consumer.seen - |s.popped|;
            if buffered == 0 then next.consumer.CIdle?
            else next.consumer.CPopping? && next.consumer.sure
                 && next.consumer.n == if s.consumer.max < buffered then s.consumer.max else buffered
  {
    hide GoodCapacity, Home, Sub;
    WrappedDistance(s.consumer.seen, |s.popped|);
  }

  /** The fullness test as the bulk buffer writes it is right if and only if the sum does not wrap: a
      sum that wraps always lets the oversized transfer through. */
  lemma FullnessTestExact(used: nat, n: nat, cap: nat)
    requires used <= cap < WORD && n < WORD
    ensures (Add(used, n) > cap <==> used + n > cap) <==> used + n < WORD
  {}

  /** For one element the bulk tests are the event queue's own - full when `head - tail >= capacity`,
      empty when `head == tail` - so a run of the queue is a run of this machine whose transfers have
      length one. */
  lemma SingleElementTest(head: nat, tail: nat, cap: nat)
    requires head < WORD && tail < WORD && Sub(head, tail) <= cap && IsPowerOfTwo(cap) && cap < WORD
    ensures Sub(head, tail) + 1 < WORD
    ensures Add(Sub(head, tail), 1) > cap <==> Sub(head, tail) >= cap
    ensures Sub(head, tail) < 1 <==> head == tail
  {
    hide GoodCapacity, IsPowerOfTwo;
    PowersAreGood(cap);
    HalfWord(cap);
  }

  /** A concrete transfer that wraps the sum. */
  lemma FullnessTestWraps()
    ensures Add(1, WORD - 1) <= 1024 && 1 + (WORD - 1) > 1024
  {}
}
