/** Whole calls of the ring under every interleaving: what a push, a pop and a read have done when they
    return, whatever the other thread did meanwhile. */
module SpscCalls {
  import opened Words
  import opened SpscMachine

  /** What a step does to the two histories and the producer's books. */
  lemma StepEffect<T(!new)>(s: Ring<T>, step: Step<T>)
    requires Inv(s) && Enabled(s, step)
    ensures var next := Next(s, step);
            && next.pushed == s.pushed + (if step.PushPublish? then s.producer.data else [])
            && next.popped == s.popped +
                 (if step.PopPublish? then s.pushed[|s.popped|..|s.popped| + s.consumer.n] else [])
            && next.offered == s.offered + (if step.PushLoadTail? then |step.data| else 0)
            && next.dropped == s.dropped +
                 (if step.PushLoadHead? && next.producer.PIdle? then |s.producer.data| else 0)
  {
    hide GoodCapacity, Home, Slot, Add, Sub;
    if step.PopPublish? {
      assert Copied(s.consumer.out, s.consumer.n) == s.pushed[|s.popped|..|s.popped| + s.consumer.n];
    }
  }

  lemma {:induction false} Settled<T(!new)>(cap: nat, slots: seq<T>, states: seq<Ring<T>>, steps: seq<Step<T>>, k: nat)
    requires FromStart(cap, slots, states, steps) && k < |states|
    ensures Inv(states[k]) && states[k].cap == cap > 0
    ensures |states| == |steps| + 1
    ensures k < |steps| ==> Enabled(states[k], steps[k]) && states[k + 1] == Next(states[k], steps[k])
  {
    hide Inv, Enabled, Next;
    InitialInv(cap, slots);
    RunKeeps(states, steps, k);
    RunHistory(states, steps, 0, k);
  }

  ghost predicate FromStart<T(!new)>(cap: nat, slots: seq<T>, states: seq<Ring<T>>, steps: seq<Step<T>>) {
    && IsPowerOfTwo(cap) && cap < WORD && |slots| == cap
    && IsRun(states, steps) && states[0] == Initial(cap, slots)
  }

  /** An idle thread may begin any call, but for a push so long that the fullness test would wrap. */
  lemma CallsMayBegin<T(!new)>(s: Ring<T>, data: seq<T>, n: nat)
    requires Inv(s)
    ensures Enabled(s, PushLoadTail(data)) <==>
              s.producer.PIdle? && data != [] && |s.pushed| - |s.popped| + |data| < WORD
    ensures Enabled(s, PopStart(n)) <==> s.consumer.CIdle? && n > 0
    ensures Enabled(s, ReadLoadHead(n)) <==> s.consumer.CIdle? && n > 0
  {
    hide GoodCapacity, Home, Slot;
    WrappedDistance(|s.pushed|, |s.popped|);
  }

  // ----- Push ---------------------------------------------------------------------------------

  /** The producer is inside one call from step `a` on and back out of it at state `b`. */
  ghost predicate ProducerCall<T>(states: seq<Ring<T>>, a: nat, b: nat) {
    && a < b < |states| && states[b].producer.PIdle?
    && forall k {:trigger states[k]} :: a < k < b ==> !states[k].producer.PIdle?
  }

  /** A push of `data` is under way that began in state `s0`. */
  ghost predicate InPush<T(!new)>(s0: Ring<T>, s: Ring<T>, data: seq<T>) {
    && s.pushed == s0.pushed && s.dropped == s0.dropped && s.offered == s0.offered + |data|
    && match s.producer
       case PIdle => false
       case PLoadedTail(d, _, seen) => d == data && seen == |s0.popped|
       case PCopying(d, _, _) => d == data && |s0.pushed| - |s0.popped| + |data| <= s0.cap
  }

  /** It has returned: everything is in, or nothing is and all of it is counted as dropped. */
  ghost predicate PushDone<T(!new)>(s0: Ring<T>, s: Ring<T>, data: seq<T>) {
    if |s0.pushed| - |s0.popped| + |data| <= s0.cap
    then s.pushed == s0.pushed + data && s.dropped == s0.dropped
    else s.pushed == s0.pushed && s.dropped == s0.dropped + |data|
  }

  lemma PushGoesOn<T(!new)>(s0: Ring<T>, s: Ring<T>, step: Step<T>, data: seq<T>)
    requires Inv(s) && Enabled(s, step) && s0.cap == s.cap && InPush(s0, s, data)
    ensures var next := Next(s, step);
            if next.producer.PIdle? then PushDone(s0, next, data) else InPush(s0, next, data)
  {
    StepEffect(s, step);
    EveryStepCounts(s, step);
    if step.PushLoadHead? { PushRefusal(s); }
    hide Inv, Slot, Add, Sub, ProducerLeft, ConsumerLeft;
  }

  lemma PushBegins<T(!new)>(s: Ring<T>, step: Step<T>)
    requires Inv(s) && step.PushLoadTail? && Enabled(s, step)
    ensures InPush(s, Next(s, step), step.data)
  {
    hide Inv;
  }

  lemma {:induction false} PushUnderWay<T(!new)>(
    cap: nat, slots: seq<T>, states: seq<Ring<T>>, steps: seq<Step<T>>, a: nat, b: nat, k: nat)
    requires FromStart(cap, slots, states, steps) && ProducerCall(states, a, b) && steps[a].PushLoadTail?
    requires a < k < b
    ensures InPush(states[a], states[k], steps[a].data)
    decreases k
  {
    hide Inv, Enabled, Next, InPush, PushDone, FromStart;
    Settled(cap, slots, states, steps, a);
    Settled(cap, slots, states, steps, k - 1);
    if k - 1 == a {
      PushBegins(states[a], steps[a]);
    } else {
      PushUnderWay(cap, slots, states, steps, a, b, k - 1);
      PushGoesOn(states[a], states[k - 1], steps[k - 1], steps[a].data);
      assert !states[k].producer.PIdle?;
    }
  }

  /** Main result: under every interleaving a push publishes all of its data, or none of it and counts
      it as dropped; it publishes exactly when the data fits beside what was buffered when it began. */
  lemma {:induction false} PushCall<T(!new)>(
    cap: nat, slots: seq<T>, states: seq<Ring<T>>, steps: seq<Step<T>>, a: nat, b: nat)
    requires FromStart(cap, slots, states, steps) && ProducerCall(states, a, b) && steps[a].PushLoadTail?
    ensures var before, after, data := states[a], states[b], steps[a].data;
            if |before.pushed| - |before.popped| + |data| <= cap
            then after.pushed == before.pushed + data && after.dropped == before.dropped
            else after.pushed == before.pushed && after.dropped == before.dropped + |data|
  {
    hide Inv, Enabled, Next, InPush, FromStart;
    Settled(cap, slots, states, steps, a);
    Settled(cap, slots, states, steps, b - 1);
    if b - 1 == a {
      PushBegins(states[a], steps[a]);
      NotIdleInPush(states[a], states[b], steps[a].data);
    } else {
      PushUnderWay(cap, slots, states, steps, a, b, b - 1);
      PushGoesOn(states[a], states[b - 1], steps[b - 1], steps[a].data);
    }
  }

  lemma NotIdleInPush<T(!new)>(s0: Ring<T>, s: Ring<T>, data: seq<T>)
    requires InPush(s0, s, data)
    ensures !s.producer.PIdle?
  {}

  // ----- Pop and read ----------------------------------------------------------------------------

  /** The consumer is inside one call from step `a` on and back out of it at state `b`. */
  ghost predicate ConsumerCall<T>(states: seq<Ring<T>>, a: nat, b: nat) {
    && a < b < |states| && states[b].consumer.CIdle?
    && forall k {:trigger states[k]} :: a < k < b ==> !states[k].consumer.CIdle?
  }

  /** A pop of `n` is under way that began in state `s0`; once it has loaded the head it knows of `seen`
      elements pushed. */
  ghost predicate InPop<T(!new)>(s0: Ring<T>, s: Ring<T>, n: nat, seen: nat) {
    && s.popped == s0.popped
    && match s.consumer
       case CIdle => false
       case CCounting(_, _, _) => false
       case CPopping(m, _) => m == n
       case CLoadedHead(m, _, _, loaded) => m == n && loaded == seen
       case CCopying(m, _, _) => m == n && |s0.popped| + n <= seen
  }

  /** It has returned: the oldest `n` elements are out, or nothing is. */
  ghost predicate PopDone<T(!new)>(s0: Ring<T>, s: Ring<T>, n: nat, seen: nat) {
    if |s0.popped| + n <= seen
    then |s0.popped| + n <= |s.pushed| && s.popped == s0.popped + s.pushed[|s0.popped|..|s0.popped| + n]
    else s.popped == s0.popped
  }

  lemma PopGoesOn<T(!new)>(s0: Ring<T>, s: Ring<T>, step: Step<T>, n: nat, seen: nat)
    requires Inv(s) && Enabled(s, step) && InPop(s0, s, n, seen)
    requires step.PopLoadHead? ==> seen == |s.pushed|
    ensures var next := Next(s, step);
            if next.consumer.CIdle? then PopDone(s0, next, n, seen) else InPop(s0, next, n, seen)
  {
    StepEffect(s, step);
    if OfProducer(step) {
      EveryStepCounts(s, step);
    } else if step.PopLoadTail? {
      PopRefusal(s);
    } else if step.PopPublish? {
      assert |s.popped| + n <= |s.pushed|;
    }
    hide Inv, Slot, Add, Sub, ProducerLeft, ConsumerLeft, Copied;
  }

  lemma PopBegins<T(!new)>(s: Ring<T>, step: Step<T>, seen: nat)
    requires Inv(s) && step.PopStart? && Enabled(s, step)
    ensures Next(s, step).consumer.CPopping? && InPop(s, Next(s, step), step.n, seen)
  {
    hide Inv;
  }

  lemma CountIrrelevant<T(!new)>(s0: Ring<T>, s: Ring<T>, n: nat, seen: nat, seen': nat)
    requires s.consumer.CPopping? && InPop(s0, s, n, seen)
    ensures InPop(s0, s, n, seen')
  {}

  lemma AfterLoading<T>(s: Ring<T>, step: Step<T>)
    requires s.cap > 0 && Enabled(s, step) && Next(s, step).consumer.CPopping? && !s.consumer.CIdle?
    ensures s.consumer.CPopping? || s.consumer.CCounting?
    ensures !step.PopLoadHead?
  {
    hide Slot, Sub, Add, Copied;
  }

  /** A pop under way at state `k` began in state `s0`; `h` is the step that loaded the head. */
  lemma {:induction false} PopUnderWay<T(!new)>(
    cap: nat, slots: seq<T>, states: seq<Ring<T>>, steps: seq<Step<T>>, a: nat, b: nat, k: nat) returns (h: nat)
    requires FromStart(cap, slots, states, steps) && ConsumerCall(states, a, b) && steps[a].PopStart?
    requires a < k < b
    ensures a <= h < k && InPop(states[a], states[k], steps[a].n, |states[h].pushed|)
    ensures states[k].consumer.CPopping? || (h > a && steps[h].PopLoadHead?)
    decreases k
  {
    hide Inv, Enabled, Next, InPop, PopDone, FromStart;
    Settled(cap, slots, states, steps, a);
    Settled(cap, slots, states, steps, k - 1);
    var n := steps[a].n;
    if k - 1 == a {
      h := a;
      PopBegins(states[a], steps[a], |states[h].pushed|);
    } else {
      h := PopUnderWay(cap, slots, states, steps, a, b, k - 1);
      var s, step := states[k - 1], steps[k - 1];
      assert !states[k - 1].consumer.CIdle? && !states[k].consumer.CIdle?;
      if step.PopLoadHead? {
        HeadLoadedOnce(s);
        CountIrrelevant(states[a], s, n, |states[h].pushed|, |s.pushed|);
        h := k - 1;
      }
      PopGoesOn(states[a], s, step, n, |states[h].pushed|);
      if states[k].consumer.CPopping? { AfterLoading(s, step); } else { StillLoaded(s, step); }
    }
  }

  lemma HeadLoadedOnce<T>(s: Ring<T>)
    requires s.cap > 0 && Enabled<T>(s, PopLoadHead)
    ensures s.consumer.CPopping?
  {}

  /** A pop leaves its first state only by loading the head. */
  lemma StillLoaded<T>(s: Ring<T>, step: Step<T>)
    requires s.cap > 0 && Enabled(s, step) && !Next(s, step).consumer.CPopping?
    ensures s.consumer.CPopping? ==> step.PopLoadHead?
  {
    hide Slot, Sub, Add, Copied;
  }

  /** Main result: under every interleaving a pop hands over the oldest `n` elements or nothing, and it
      hands them over exactly when they had been pushed by the time it loaded the head - so whenever
      they were buffered when it began, and never when they are not when it returns. */
  lemma {:induction false} PopCall<T(!new)>(
    cap: nat, slots: seq<T>, states: seq<Ring<T>>, steps: seq<Step<T>>, a: nat, b: nat) returns (h: nat)
    requires FromStart(cap, slots, states, steps) && ConsumerCall(states, a, b) && steps[a].PopStart?
    ensures a < h < b && steps[h].PopLoadHead?
    ensures var before, after, n := states[a], states[b], steps[a].n;
            && (if |before.popped| + n <= |states[h].pushed|
                then |before.popped| + n <= |after.pushed|
                     && after.popped == before.popped + after.pushed[|before.popped|..|before.popped| + n]
                else after.popped == before.popped)
            && (n <= |before.pushed| - |before.popped| ==> |after.popped| == |before.popped| + n)
            && (|after.pushed| - |before.popped| < n ==> after.popped == before.popped)
  {
    hide Inv, Enabled, Next, InPop, FromStart;
    Settled(cap, slots, states, steps, a);
    Settled(cap, slots, states, steps, b - 1);
    var n := steps[a].n;
    if b - 1 == a {
      PopBegins(states[a], steps[a], 0);
      assert false;
    } else {
      h := PopUnderWay(cap, slots, states, steps, a, b, b - 1);
      LastOfPop(states[b - 1], steps[b - 1]);
      PopGoesOn(states[a], states[b - 1], steps[b - 1], n, |states[h].pushed|);
      Grows(cap, slots, states, steps, a, h);
      Grows(cap, slots, states, steps, h, b);
    }
  }

  lemma LastOfPop<T>(s: Ring<T>, step: Step<T>)
    requires s.cap > 0 && Enabled(s, step) && Next(s, step).consumer.CIdle? && !s.consumer.CIdle?
    ensures !s.consumer.CPopping? && !step.PopLoadHead?
  {
    hide Slot, Sub, Add, Copied;
  }

  lemma {:induction false} Grows<T(!new)>(
    cap: nat, slots: seq<T>, states: seq<Ring<T>>, steps: seq<Step<T>>, i: nat, j: nat)
    requires FromStart(cap, slots, states, steps) && i <= j < |states|
    ensures states[i].pushed <= states[j].pushed
  {
    RunHistory(states, steps, i, j);
  }

  /** A read of at most `max` elements is under way that began in state `s0`. */
  ghost predicate InRead<T(!new)>(s0: Ring<T>, s: Ring<T>, max: nat) {
    var buffered := |s0.pushed| - |s0.popped|;
    var n := if max < buffered then max else buffered;
    && s.popped == s0.popped
    && match s.consumer
       case CIdle => false
       case CCounting(m, _, loaded) => m == max && loaded == |s0.pushed|
       case CPopping(m, sure) => m == n && sure
       case CLoadedHead(m, sure, _, loaded) => m == n && sure && |s0.popped| + n <= loaded
       case CCopying(m, _, _) => m == n
  }

  ghost predicate ReadDone<T(!new)>(s0: Ring<T>, s: Ring<T>, max: nat)
    requires |s0.popped| <= |s0.pushed|
  {
    var buffered := |s0.pushed| - |s0.popped|;
    s.popped == s0.popped + s0.pushed[|s0.popped|..|s0.popped| + if max < buffered then max else buffered]
  }

  lemma ReadGoesOn<T(!new)>(s0: Ring<T>, s: Ring<T>, step: Step<T>, max: nat)
    requires |s0.popped| <= |s0.pushed| && s0.pushed <= s.pushed
    requires Inv(s) && Enabled(s, step) && InRead(s0, s, max)
    ensures var next := Next(s, step);
            if next.consumer.CIdle? then ReadDone(s0, next, max) else InRead(s0, next, max)
  {
    StepEffect(s, step);
    if OfProducer(step) {
      EveryStepCounts(s, step);
    } else if step.ReadLoadTail? {
      ReadAsks(s);
    } else if step.PopLoadTail? {
      PopRefusal(s);
      assert s.consumer.sure ==> |s.popped| + s.consumer.n <= s.consumer.seen;
    } else if step.PopPublish? {
      assert s.pushed[..|s0.pushed|] == s0.pushed;
    }
    hide Inv, Slot, Add, Sub, ProducerLeft, ConsumerLeft, Copied;
  }

  lemma ReadBegins<T(!new)>(s: Ring<T>, step: Step<T>)
    requires Inv(s) && step.ReadLoadHead? && Enabled(s, step)
    ensures InRead(s, Next(s, step), step.max) && |s.popped| <= |s.pushed|
  {
    hide GoodCapacity, Home;
  }

  lemma {:induction false} ReadUnderWay<T(!new)>(
    cap: nat, slots: seq<T>, states: seq<Ring<T>>, steps: seq<Step<T>>, a: nat, b: nat, k: nat)
    requires FromStart(cap, slots, states, steps) && ConsumerCall(states, a, b) && steps[a].ReadLoadHead?
    requires a < k < b
    ensures InRead(states[a], states[k], steps[a].max)
    decreases k
  {
    hide Inv, Enabled, Next, InRead, ReadDone, FromStart;
    Settled(cap, slots, states, steps, a);
    Settled(cap, slots, states, steps, k - 1);
    ReadBegins(states[a], steps[a]);
    if k - 1 > a {
      ReadUnderWay(cap, slots, states, steps, a, b, k - 1);
      Grows(cap, slots, states, steps, a, k - 1);
      ReadGoesOn(states[a], states[k - 1], steps[k - 1], steps[a].max);
      assert !states[k].consumer.CIdle?;
    }
  }

  /** Main result: under every interleaving a read hands over the oldest elements that were buffered when
      it began, as many as it was asked for or all there were. */
  lemma {:induction false} ReadCall<T(!new)>(
    cap: nat, slots: seq<T>, states: seq<Ring<T>>, steps: seq<Step<T>>, a: nat, b: nat)
    requires FromStart(cap, slots, states, steps) && ConsumerCall(states, a, b) && steps[a].ReadLoadHead?
    ensures var before, after, max := states[a], states[b], steps[a].max;
            && |before.popped| <= |before.pushed|
            && var buffered := |before.pushed| - |before.popped|;
               var n := if max < buffered then max else buffered;
               after.popped == before.popped + before.pushed[|before.popped|..|before.popped| + n]
  {
    hide Inv, Enabled, Next, FromStart, InRead;
    Settled(cap, slots, states, steps, a);
    Settled(cap, slots, states, steps, b - 1);
    ReadBegins(states[a], steps[a]);
    if b - 1 == a {
      NotIdleInRead(states[a], states[b], steps[a].max);
    } else {
      ReadUnderWay(cap, slots, states, steps, a, b, b - 1);
      Grows(cap, slots, states, steps, a, b - 1);
      ReadGoesOn(states[a], states[b - 1], steps[b - 1], steps[a].max);
    }
  }

  lemma NotIdleInRead<T(!new)>(s0: Ring<T>, s: Ring<T>, max: nat)
    requires InRead(s0, s, max)
    ensures !s.consumer.CIdle?
  {}
}
