/** `ArrayUnblockingQueue`: a ring of `bufferSize` slots, a producer
    sequence `put` (the last slot reserved) and a consumer sequence `get` (the
    last slot consumed), both starting at -1. The model is sequential: one
    producer or consumer step at a time, with what other threads do between
    steps given as inputs. */
module Queues {
  import opened Common
  import opened Bits

  // ---------------------------------------------------------------------
  // Sequences

  /** `ProducerSequence`: a counter with compare-and-set. */
  class ProducerSequence {
    var value: int

    constructor (initialValue: int)
      ensures value == initialValue
    {
      value := initialValue;
    }

    method Set(newValue: int)
      modifies this
      ensures value == newValue
    {
      value := newValue;
    }

    /** `compareAndSet`: the value becomes `newValue` exactly when it was
        `expected`, and the answer says whether it did. */
    method CompareAndSet(expected: int, newValue: int) returns (ok: bool)
      modifies this
      ensures ok <==> old(value) == expected
      ensures value == (if ok then newValue else old(value))
    {
      ok := value == expected;
      if ok {
        value := newValue;
      }
    }

    /** `addAndGet`: the retry loop ends once its compare-and-set wins, which
        without a competing thread is the first time. */
    method AddAndGet(increment: int) returns (r: int)
      modifies this
      ensures value == old(value) + increment && r == value
    {
      var done := false;
      var current, newValue := value, value + increment;
      while !done
        invariant !done ==> value == old(value)
        invariant done ==> value == old(value) + increment && newValue == value
        decreases if done then 0 else 1
      {
        current := value;
        newValue := current + increment;
        done := CompareAndSet(current, newValue);
      }
      return newValue;
    }

    /** `incrementAndGet`. */
    method IncrementAndGet() returns (r: int)
      modifies this
      ensures value == old(value) + 1 && r == value
    {
      r := AddAndGet(1);
    }
  }

  /** `ConsumerSequence`: a plain counter. */
  class ConsumerSequence {
    var value: int

    constructor (initialValue: int)
      ensures value == initialValue
    {
      value := initialValue;
    }

    method Set(newValue: int)
      modifies this
      ensures value == newValue
    {
      value := newValue;
    }
  }

  // ---------------------------------------------------------------------
  // Processor

  /** A call made to the queue's `Processor`. */
  datatype ProcessorCall<T> = Process(data: Option<T>) | OnTimeout(current: int) | OnThrowable(data: Option<T>)

  /** A processor that records the calls made to it; `throws(v)` says
      whether `process(v)` throws. */
  class ProcessorRecorder<T> {
    var calls: seq<ProcessorCall<T>>
    const throws: Option<T> -> bool

    constructor (throws: Option<T> -> bool)
      ensures calls == [] && this.throws == throws
    {
      calls := [];
      this.throws := throws;
    }

    method Record(call: ProcessorCall<T>)
      modifies this
      ensures calls == old(calls) + [call]
    {
      calls := calls + [call];
    }
  }

  // ---------------------------------------------------------------------
  // Wait strategies

  /** `BlockingWaitor`, `TimeoutWaitor` and `SleepingWaitor`. */
  datatype WaitorKind = Blocking | Timeout(nanos: int) | Sleeping(retries: int)

  /** What a `wait` call ends with, as the consumer sees it. */
  datatype WaitResult = Available(available: int) | TimedOut | Interrupted

  /** One round of `SleepingWaitor`'s back-off. */
  datatype WaitAction = Spin | Yield | Park

  /** `applyWaitMethod`: spin while the counter is above 100, then yield while
      it is positive, then park; the counter goes down by one while positive. */
  function ApplyWaitMethod(counter: int): (r: (WaitAction, int))
    ensures r.1 <= counter && (counter >= 0 ==> r.1 >= 0)
    ensures r.0 == Spin <==> counter > 100
    ensures r.0 == Park <==> counter <= 0
    ensures r.0 == Park <==> r.1 == counter
  {
    if counter > 100 then (Spin, counter - 1)
    else if counter > 0 then (Yield, counter - 1)
    else (Park, counter)
  }

  /** The counter after `n` rounds from `retries`. */
  function CounterAfter(retries: int, n: nat): int
  {
    if n == 0 then retries else ApplyWaitMethod(CounterAfter(retries, n - 1)).1
  }

  /** The actions of the first `n` rounds from `retries`. */
  function BackOff(retries: int, n: nat): seq<WaitAction>
  {
    if n == 0 then [] else BackOff(retries, n - 1) + [ApplyWaitMethod(CounterAfter(retries, n - 1)).0]
  }

  /** Round `k` of the back-off acts on the counter left by the rounds before it. */
  lemma {:induction false} BackOffRounds(retries: int, n: nat)
    ensures |BackOff(retries, n)| == n
    ensures forall k :: 0 <= k < n ==> BackOff(retries, n)[k] == ApplyWaitMethod(CounterAfter(retries, k)).0
  {
    if n > 0 {
      BackOffRounds(retries, n - 1);
    }
  }

  /** From a non-negative `retries` the counter counts down to 0 and stays
      there: it never increases and never goes below 0. */
  lemma {:induction false} CounterCountsDown(retries: int, n: nat)
    requires retries >= 0
    ensures CounterAfter(retries, n) == Max(retries - n, 0)
  {
    if n > 0 {
      CounterCountsDown(retries, n - 1);
    }
  }

  class Waitor {
    const kind: WaitorKind
    var needSignal: bool
    /** How many times `signalAll` was called. */
    var notified: nat

    constructor (kind: WaitorKind)
      ensures this.kind == kind && !needSignal && notified == 0
    {
      this.kind := kind;
      needSignal := false;
      notified := 0;
    }

    /** `signal`: wakes the consumer only when it asked for it, and clears
        the request; `SleepingWaitor` does nothing. */
    method Signal()
      modifies this
      ensures kind.Sleeping? ==> unchanged(this)
      ensures !kind.Sleeping? ==>
        !needSignal && notified == old(notified) + (if old(needSignal) then 1 else 0)
    {
      if !kind.Sleeping? {
        var was := needSignal;
        needSignal := false;
        if was {
          notified := notified + 1;
        }
      }
    }

    /** `wait` of `BlockingWaitor` and `TimeoutWaitor`, where `first`,
        `second` and `third` are the values the producer sequence has at its
        three reads, `interrupted` is the consumer's interrupt flag at the
        last check, and `remaining` is what `awaitNanos` answers. Answers the
        last value read; a value already at `next` returns without locking. */
    method ConditionWait(next: int, first: int, second: int, third: int, interrupted: bool, remaining: int)
      returns (r: WaitResult, parked: bool)
      requires !kind.Sleeping?
      modifies this
      ensures first >= next ==> r == Available(first) && !parked && needSignal == old(needSignal)
      ensures first < next && second >= next ==> r == Available(second) && !parked && needSignal == old(needSignal)
      ensures first < next && second < next ==> needSignal && parked == (third < next && !interrupted)
      ensures parked && kind.Timeout? && remaining <= 0 ==> r == TimedOut
      ensures first < next && second < next && !(parked && kind.Timeout? && remaining <= 0) ==> r == Available(third)
      ensures notified == old(notified)
    {
      var available := first;
      parked := false;
      if available < next {
        available := second;
        if available < next {
          needSignal := true;
          available := third;
          if available < next && !interrupted {
            parked := true;
            if kind.Timeout? && remaining <= 0 {
              return TimedOut, parked;
            }
          }
        }
      }
      return Available(available), parked;
    }

    /** `wait` of `SleepingWaitor`, where `observed[k]` and `interrupts[k]` are
        the producer sequence and the interrupt flag at the `k`-th check.
        Answers the value read at the first check that ends the wait (`None`
        when none of the given checks does) and the back-off rounds taken. */
    method SleepingWait(next: int, observed: seq<int>, interrupts: seq<bool>)
      returns (r: Option<int>, counter: int, actions: seq<WaitAction>)
      requires kind.Sleeping? && |observed| == |interrupts|
      ensures |actions| <= |observed|
      ensures forall k :: 0 <= k < |actions| ==> observed[k] < next && !interrupts[k]
      ensures r.Some? ==> |actions| < |observed| && r.value == observed[|actions|] &&
                          (observed[|actions|] >= next || interrupts[|actions|])
      ensures r.None? ==> |actions| == |observed|
      ensures counter == CounterAfter(kind.retries, |actions|)
      ensures forall k :: 0 <= k < |actions| ==> actions[k] == ApplyWaitMethod(CounterAfter(kind.retries, k)).0
    {
      var retries := kind.retries;
      counter := retries;
      actions := [];
      var i := 0;
      while i < |observed| && observed[i] < next && !interrupts[i]
        invariant 0 <= i <= |observed|
        invariant forall k :: 0 <= k < i ==> observed[k] < next && !interrupts[k]
        invariant counter == CounterAfter(retries, i) && actions == BackOff(retries, i)
      {
        var step := ApplyWaitMethod(counter);
        actions := actions + [step.0];
        counter := step.1;
        i := i + 1;
      }
      BackOffRounds(retries, i);
      if i < |observed| {
        r := Some(observed[i]);
      } else {
        r := None;
      }
    }
  }

  // ---------------------------------------------------------------------
  // The consumer's and the drain's walks over the slots

  /** `elementAt(s)` over the slot contents `slots`, with `indexMask`. */
  function SlotOf<T>(slots: seq<Option<T>>, mask: nat, s: int): Option<T>
    requires |slots| == mask + 1
  {
    slots[LongAnd(s, mask)]
  }

  /** One pass of the consumer over `next..available`: the calls made, the
      next sequence, and whether the pass completed (no `process` threw). */
  datatype Pass<T> = Pass(calls: seq<ProcessorCall<T>>, next: int, completed: bool)

  function ConsumeSpec<T>(slots: seq<Option<T>>, mask: nat, throws: Option<T> -> bool, next: int, available: int): Pass<T>
    requires |slots| == mask + 1
    decreases available - next
  {
    if next > available then Pass([], next, true)
    else
      var v := SlotOf(slots, mask, next);
      if throws(v) then Pass([Process(v), OnThrowable(v)], next + 1, false)
      else
        var rest := ConsumeSpec(slots, mask, throws, next + 1, available);
        Pass([Process(v)] + rest.calls, rest.next, rest.completed)
  }

  /** A pass hands the slots from `next` on to `process` in increasing order.
      If none throws it ends at `available + 1` (or stays at `next` when
      nothing is available) with one call per slot; if one throws, the pass
      reports that element to `onThrowable` and resumes after exactly it. */
  lemma ConsumeSpecFacts<T>(slots: seq<Option<T>>, mask: nat, throws: Option<T> -> bool, next: int, available: int)
    requires |slots| == mask + 1
    ensures var p := ConsumeSpec(slots, mask, throws, next, available);
      (p.completed <==> forall s :: next <= s <= available ==> !throws(SlotOf(slots, mask, s))) &&
      (p.completed ==>
         p.next == Max(next, available + 1) && |p.calls| == p.next - next &&
         forall j :: 0 <= j < |p.calls| ==> p.calls[j] == Process(SlotOf(slots, mask, next + j))) &&
      (!p.completed ==>
         next < p.next <= available + 1 && |p.calls| == p.next - next + 1 &&
         throws(SlotOf(slots, mask, p.next - 1)) &&
         (forall s :: next <= s < p.next - 1 ==> !throws(SlotOf(slots, mask, s))) &&
         (forall j :: 0 <= j < |p.calls| - 1 ==> p.calls[j] == Process(SlotOf(slots, mask, next + j))) &&
         p.calls[|p.calls| - 1] == OnThrowable(SlotOf(slots, mask, p.next - 1)))
  {
    ConsumeCompletes(slots, mask, throws, next, available);
    ConsumeCompletedCalls(slots, mask, throws, next, available);
    ConsumeThrownStops(slots, mask, throws, next, available);
    ConsumeThrownCalls(slots, mask, throws, next, available);
  }

  /** A pass completes exactly when no slot in `next..available` throws. */
  lemma {:induction false} ConsumeCompletes<T>(slots: seq<Option<T>>, mask: nat, throws: Option<T> -> bool, next: int, available: int)
    requires |slots| == mask + 1
    ensures ConsumeSpec(slots, mask, throws, next, available).completed <==>
      forall s :: next <= s <= available ==> !throws(SlotOf(slots, mask, s))
    decreases available - next
  {
    if next <= available && !throws(SlotOf(slots, mask, next)) {
      ConsumeCompletes(slots, mask, throws, next + 1, available);
      if ConsumeSpec(slots, mask, throws, next + 1, available).completed {
        forall s | next <= s <= available ensures !throws(SlotOf(slots, mask, s)) {
          if s > next {
            assert next + 1 <= s <= available;
          }
        }
      }
    }
  }

  /** The calls of a completed pass: `process` for each slot from `next` to
      `available`, in order. */
  lemma {:induction false} ConsumeCompletedCalls<T>(slots: seq<Option<T>>, mask: nat, throws: Option<T> -> bool, next: int, available: int)
    requires |slots| == mask + 1
    ensures var p := ConsumeSpec(slots, mask, throws, next, available);
      p.completed ==>
        p.next == Max(next, available + 1) && |p.calls| == p.next - next &&
        forall j :: 0 <= j < |p.calls| ==> p.calls[j] == Process(SlotOf(slots, mask, next + j))
    decreases available - next
  {
    if next <= available && !throws(SlotOf(slots, mask, next)) {
      var v := SlotOf(slots, mask, next);
      var rest := ConsumeSpec(slots, mask, throws, next + 1, available);
      ConsumeCompletedCalls(slots, mask, throws, next + 1, available);
      var calls := [Process(v)] + rest.calls;
      assert ConsumeSpec(slots, mask, throws, next, available) == Pass(calls, rest.next, rest.completed);
      assert forall j :: 1 <= j < |calls| ==> calls[j] == rest.calls[j - 1];
    }
  }

  /** A pass that does not complete stops right after the first throwing
      slot at or after `next`. */
  lemma {:induction false} ConsumeThrownStops<T>(slots: seq<Option<T>>, mask: nat, throws: Option<T> -> bool, next: int, available: int)
    requires |slots| == mask + 1
    ensures var p := ConsumeSpec(slots, mask, throws, next, available);
      !p.completed ==>
        next < p.next <= available + 1 && |p.calls| == p.next - next + 1 &&
        throws(SlotOf(slots, mask, p.next - 1)) &&
        forall s :: next <= s < p.next - 1 ==> !throws(SlotOf(slots, mask, s))
    decreases available - next
  {
    if next <= available && !throws(SlotOf(slots, mask, next)) {
      var rest := ConsumeSpec(slots, mask, throws, next + 1, available);
      ConsumeThrownStops(slots, mask, throws, next + 1, available);
      if !rest.completed {
        forall s | next <= s < rest.next - 1 ensures !throws(SlotOf(slots, mask, s)) {
          if s > next {
            assert next + 1 <= s < rest.next - 1;
          }
        }
      }
    }
  }

  /** The calls of a pass that stops at a throwing slot: `process` for each
      slot from `next` up to and including it, then `onThrowable` for it. */
  lemma {:induction false} ConsumeThrownCalls<T>(slots: seq<Option<T>>, mask: nat, throws: Option<T> -> bool, next: int, available: int)
    requires |slots| == mask + 1
    ensures var p := ConsumeSpec(slots, mask, throws, next, available);
      !p.completed ==>
        |p.calls| == p.next - next + 1 &&
        (forall j :: 0 <= j < |p.calls| - 1 ==> p.calls[j] == Process(SlotOf(slots, mask, next + j))) &&
        p.calls[|p.calls| - 1] == OnThrowable(SlotOf(slots, mask, p.next - 1))
    decreases available - next
  {
    if next <= available && !throws(SlotOf(slots, mask, next)) {
      var v := SlotOf(slots, mask, next);
      var rest := ConsumeSpec(slots, mask, throws, next + 1, available);
      ConsumeThrownCalls(slots, mask, throws, next + 1, available);
      if !rest.completed {
        var calls := [Process(v)] + rest.calls;
        assert ConsumeSpec(slots, mask, throws, next, available) == Pass(calls, rest.next, rest.completed);
        assert forall j :: 1 <= j < |calls| ==> calls[j] == rest.calls[j - 1];
        assert calls[|calls| - 1] == rest.calls[|rest.calls| - 1];
      }
    }
  }

  /** The drain's walk over `i..hi - 1`: the calls made, the slots afterwards,
      how many elements were processed, and whether the time ran out.
      `late(c)` says whether the clock check after the `c`-th processed
      element finds the deadline passed. */
  datatype Drain<T> = Drain(calls: seq<ProcessorCall<T>>, slots: seq<Option<T>>, count: nat, timedOut: bool)

  function DrainSpec<T>(slots: seq<Option<T>>, mask: nat, throws: Option<T> -> bool, late: nat -> bool,
                        i: int, hi: int, count: nat): (d: Drain<T>)
    requires |slots| == mask + 1
    ensures |d.slots| == |slots|
    decreases hi - i
  {
    if i >= hi then Drain([], slots, count, false)
    else
      var s := DrainSlot(slots, mask, throws, late, i, count);
      if s.timedOut then s
      else
        var rest := DrainSpec(s.slots, mask, throws, late, i + 1, hi, s.count);
        Drain(s.calls + rest.calls, rest.slots, rest.count, rest.timedOut)
  }

  /** The drain at one sequence `i`: an empty slot is skipped; a full one is
      processed (and its failure reported), cleared and counted, and the drain
      stops there if the time is then up. */
  function DrainSlot<T>(slots: seq<Option<T>>, mask: nat, throws: Option<T> -> bool, late: nat -> bool,
                        i: int, count: nat): (d: Drain<T>)
    requires |slots| == mask + 1
    ensures |d.slots| == |slots|
  {
    var v := SlotOf(slots, mask, i);
    if v.None? then Drain([], slots, count, false)
    else
      var calls := if throws(v) then [Process(v), OnThrowable(v)] else [Process(v)];
      Drain(calls, slots[LongAnd(i, mask) := None], count + 1, late(count + 1))
  }

  /** A drain that does not run out of time leaves every slot it visited
      empty, and never hands an empty slot to the processor. */
  lemma {:induction false} DrainClears<T>(slots: seq<Option<T>>, mask: nat, throws: Option<T> -> bool, late: nat -> bool,
                                          i: int, hi: int, count: nat)
    requires |slots| == mask + 1
    ensures var d := DrainSpec(slots, mask, throws, late, i, hi, count);
      ((!d.timedOut ==> forall s :: i <= s < hi ==> SlotOf(d.slots, mask, s).None?) &&
       (forall j :: 0 <= j < |d.calls| ==> d.calls[j].Process? || d.calls[j].OnThrowable?) &&
       (forall j :: 0 <= j < |d.calls| ==> d.calls[j].data.Some?) &&
       count <= d.count)
    decreases hi - i
  {
    if i < hi {
      var step := DrainSlot(slots, mask, throws, late, i, count);
      if !step.timedOut {
        var rest := DrainSpec(step.slots, mask, throws, late, i + 1, hi, step.count);
        DrainClears(step.slots, mask, throws, late, i + 1, hi, step.count);
        StaysEmpty(step.slots, mask, throws, late, i + 1, hi, step.count, LongAnd(i, mask));
        if !rest.timedOut {
          assert forall s :: i <= s < hi ==> SlotOf(rest.slots, mask, s).None? by {
            assert SlotOf(rest.slots, mask, i).None?;
          }
        }
      }
    }
  }

  /** A drain never fills a slot. */
  lemma {:induction false} StaysEmpty<T>(slots: seq<Option<T>>, mask: nat, throws: Option<T> -> bool, late: nat -> bool,
                                         i: int, hi: int, count: nat, k: nat)
    requires |slots| == mask + 1 && k < |slots| && slots[k].None?
    ensures DrainSpec(slots, mask, throws, late, i, hi, count).slots[k].None?
    decreases hi - i
  {
    if i < hi {
      var v := SlotOf(slots, mask, i);
      if v.None? {
        StaysEmpty(slots, mask, throws, late, i + 1, hi, count, k);
      } else if !late(count + 1) {
        StaysEmpty(slots[LongAnd(i, mask) := None], mask, throws, late, i + 1, hi, count + 1, k);
      }
    }
  }

  /** Every element the drain takes out of a slot is handed to `process`. */
  lemma {:induction false} DrainProcessesCleared<T>(slots: seq<Option<T>>, mask: nat, throws: Option<T> -> bool, late: nat -> bool,
                                                    i: int, hi: int, count: nat, k: nat)
    requires |slots| == mask + 1 && k < |slots| && slots[k].Some?
    ensures var d := DrainSpec(slots, mask, throws, late, i, hi, count);
      d.slots[k].None? ==> Process(slots[k]) in d.calls
    decreases hi - i
  {
    if i < hi {
      var v := SlotOf(slots, mask, i);
      if v.None? {
        DrainProcessesCleared(slots, mask, throws, late, i + 1, hi, count, k);
      } else if LongAnd(i, mask) != k && !late(count + 1) {
        DrainProcessesCleared(slots[LongAnd(i, mask) := None], mask, throws, late, i + 1, hi, count + 1, k);
      }
    }
  }

  /** The drain's range, on a ring of four slots: `A` (1) was published at
      sequence 0 and consumed (`get` is 0), then `B` (2) was published at
      sequence 1 (`put` is 1); the consumer leaves consumed slots as they are.
      Walking `get..put - 1` hands `A` to `process` a second time and never
      reaches `B`; walking `get + 1..put` hands over exactly `B`. */
  lemma DrainRangeExample()
    ensures DrainSpec([Some(1), Some(2), None, None], 3, (v: Option<int>) => false, (c: nat) => false, 0, 1, 0).calls
            == [Process(Some(1))]
    ensures DrainSpec([Some(1), Some(2), None, None], 3, (v: Option<int>) => false, (c: nat) => false, 1, 2, 0).calls
            == [Process(Some(2))]
  {
    Pow2Values();
    assert LongAnd(0, 3) == 0;
    assert LongAnd(1, 3) == 1 by {
      assert 1 % TwoTo64 == 1;
      assert BitAnd(1, 3) == 2 * BitAnd(0, 1) + 1;
    }
  }

  // ---------------------------------------------------------------------
  // The queue

  /** Why `start` refuses to start. */
  datatype StartError = SizeNotPowerOfTwo | NoProcessor | NoWaitor

  /** What happens in `stop` before the drain: the shutdown of the consumer
      thread, the grace sleep and the deadline check. */
  datatype Prelude = Proceed | ShutdownTimedOut | ShutdownInterrupted | SleepInterrupted | DeadlinePassed

  /** How `stop` ends: normally, interrupted, with a `TimeoutException`, or,
      on a queue never started, with the `NullPointerException` of shutting
      down a consumer thread that does not exist. */
  datatype StopResult = Stopped | StopInterrupted | StopTimedOut | StopNotStarted

  class ArrayUnblockingQueue<T> {
    const bufferSize: int
    const indexMask: int
    const elements: array<Option<T>>
    const put: ProducerSequence
    const get: ConsumerSequence
    const processor: ProcessorRecorder?<T>
    const waitor: Waitor?
    var started: bool

    /** The consumer never overtakes the producers, and the producers never
        run more than `bufferSize` ahead of the consumer. */
    ghost predicate Valid()
      reads this, put, get
    {
      0 <= bufferSize <= IntMax && elements.Length == bufferSize && indexMask == bufferSize - 1 &&
      -1 <= get.value <= put.value <= get.value + bufferSize
    }

    /** The constructor, for a Java `int` size; the slot array is allocated
        here, so a negative size is refused at once. */
    constructor (bufferSize: int, processor: ProcessorRecorder?<T>, waitor: Waitor?)
      requires 0 <= bufferSize <= IntMax
      ensures Valid() && !started && fresh(elements) && fresh(put) && fresh(get)
      ensures this.bufferSize == bufferSize && this.processor == processor && this.waitor == waitor
      ensures put.value == -1 && get.value == -1
      ensures forall k :: 0 <= k < bufferSize ==> elements[k].None?
    {
      this.bufferSize := bufferSize;
      this.indexMask := bufferSize - 1;
      this.processor := processor;
      this.waitor := waitor;
      elements := new Option<T>[bufferSize](_ => None);
      put := new ProducerSequence(-1);
      get := new ConsumerSequence(-1);
      started := false;
    }

    /** `elementAt`: the slot of sequence `s`; for a power-of-two size it is
        `s mod bufferSize`, so -1 is the last slot. */
    function SlotIndex(s: int): (i: int)
      requires Valid() && bufferSize > 0
      reads this, put, get
      ensures 0 <= i < bufferSize
      ensures PowerOfTwo(bufferSize) ==> i == s % bufferSize
      ensures PowerOfTwo(bufferSize) && s == -1 ==> i == bufferSize - 1
    {
      SlotOfPowerOfTwo(s, bufferSize);
      LongAnd(s, indexMask)
    }

    /** The buffer is full: the next reservation would get more than
        `bufferSize` ahead of the consumer. */
    predicate Full()
      reads this, put, get
    {
      put.value + 1 - bufferSize > get.value
    }

    /** `start`: refuses a size without exactly one bit set, a missing
        processor and a missing wait strategy, in that order. */
    method Start() returns (r: Result<(), StartError>)
      requires Valid()
      modifies this
      ensures Valid()
      ensures BitCount32(bufferSize) != 1 ==> r == Failure(SizeNotPowerOfTwo)
      ensures BitCount32(bufferSize) == 1 && processor == null ==> r == Failure(NoProcessor)
      ensures BitCount32(bufferSize) == 1 && processor != null && waitor == null ==> r == Failure(NoWaitor)
      ensures r.Success? <==> PowerOfTwo(bufferSize) && processor != null && waitor != null
      ensures started == (old(started) || r.Success?)
    {
      BitCountOne(bufferSize);
      if BitCount32(bufferSize) != 1 {
        return Failure(SizeNotPowerOfTwo);
      }
      if processor == null {
        return Failure(NoProcessor);
      }
      if waitor == null {
        return Failure(NoWaitor);
      }
      started := true;
      return Success(());
    }

    /** Reserves the next sequence: the retry loop of `tryPut` (and of `put`
        once there is room) ends once its compare-and-set wins. */
    method Reserve() returns (next: int)
      requires Valid() && !Full()
      modifies put
      ensures Valid()
      ensures next == old(put.value) + 1 && put.value == next
    {
      var done := false;
      next := put.value + 1;
      while !done
        invariant !done ==> put.value == old(put.value)
        invariant done ==> put.value == old(put.value) + 1 && next == put.value
        decreases if done then 0 else 1
      {
        var current := put.value;
        next := current + 1;
        done := put.CompareAndSet(current, next);
      }
    }

    /** Stores `data` in the slot of `next` and signals the consumer. */
    method Publish(next: int, data: T)
      requires Valid() && bufferSize > 0 && waitor != null
      modifies elements, waitor
      ensures elements[..] == old(elements[..])[SlotIndex(next) := Some(data)]
      ensures waitor.kind.Sleeping? ==> unchanged(waitor)
      ensures !waitor.kind.Sleeping? ==>
        !waitor.needSignal && waitor.notified == old(waitor.notified) + (if old(waitor.needSignal) then 1 else 0)
    {
      elements[SlotIndex(next)] := Some(data);
      waitor.Signal();
    }

    /** `tryPut`: a missing element is accepted without taking a slot; a full
        buffer refuses the element and changes nothing; otherwise `put`
        advances by one and the element is stored in the slot of the new
        `put`. */
    method TryPut(data: Option<T>) returns (ok: bool)
      requires Valid() && waitor != null
      modifies put, elements, waitor
      ensures Valid()
      ensures data.None? ==> ok && put.value == old(put.value) && elements[..] == old(elements[..])
      ensures data.Some? && old(Full()) ==> !ok && put.value == old(put.value) && elements[..] == old(elements[..])
      ensures data.Some? && !old(Full()) ==>
        ok && bufferSize > 0 && put.value == old(put.value) + 1 &&
        elements[..] == old(elements[..])[SlotIndex(put.value) := data]
      ensures data.Some? && !old(Full()) && waitor.kind.Sleeping? ==> unchanged(waitor)
      ensures data.Some? && !old(Full()) && !waitor.kind.Sleeping? ==>
        !waitor.needSignal && waitor.notified == old(waitor.notified) + (if old(waitor.needSignal) then 1 else 0)
      ensures data.None? || old(Full()) ==> unchanged(waitor)
      ensures get.value == old(get.value)
    {
      if data.None? {
        return true;
      }
      if Full() {
        return false;
      }
      var next := Reserve();
      Publish(next, data.value);
      return true;
    }

    /** One pass of `put`'s retry loop: a missing element returns at once; a
        full buffer parks the producer, which would try again (`waiting`);
        otherwise the element is stored as `tryPut` stores it. */
    method Put(data: Option<T>) returns (waiting: bool)
      requires Valid() && waitor != null
      modifies put, elements, waitor
      ensures Valid()
      ensures data.None? ==> !waiting && put.value == old(put.value) && elements[..] == old(elements[..])
      ensures data.Some? && old(Full()) ==> waiting && put.value == old(put.value) && elements[..] == old(elements[..])
      ensures data.Some? && !old(Full()) ==>
        !waiting && bufferSize > 0 && put.value == old(put.value) + 1 &&
        elements[..] == old(elements[..])[SlotIndex(put.value) := data]
      ensures data.Some? && !old(Full()) && waitor.kind.Sleeping? ==> unchanged(waitor)
      ensures data.Some? && !old(Full()) && !waitor.kind.Sleeping? ==>
        !waitor.needSignal && waitor.notified == old(waitor.notified) + (if old(waitor.needSignal) then 1 else 0)
      ensures data.None? || old(Full()) ==> unchanged(waitor)
      ensures get.value == old(get.value)
    {
      if data.None? {
        return false;
      }
      if Full() {
        return true;
      }
      var next := Reserve();
      Publish(next, data.value);
      return false;
    }

    /** One iteration of the consumer thread's loop, from sequence `next`,
        given what the wait strategy answered: the available slots are handed
        to `process` in order and `get` moves to the last of them; a throwing
        `process` goes to `onThrowable`, the element is skipped and `get`
        stays; a timeout goes to `onTimeout(next - 1)`. */
    method ConsumeOnce(next: int, w: WaitResult) returns (next': int)
      requires Valid() && bufferSize > 0 && processor != null
      requires get.value < next
      requires w.Available? ==> get.value <= w.available <= put.value
      modifies get, processor
      ensures Valid() && get.value < next'
      ensures w.Available? ==>
        var p := ConsumeSpec(elements[..], indexMask, processor.throws, next, w.available);
        processor.calls == old(processor.calls) + p.calls && next' == p.next &&
        get.value == (if p.completed then w.available else old(get.value))
      ensures w.TimedOut? ==>
        processor.calls == old(processor.calls) + [OnTimeout(next - 1)] && next' == next && get.value == old(get.value)
      ensures w.Interrupted? ==>
        processor.calls == old(processor.calls) && next' == next && get.value == old(get.value)
    {
      match w {
        case TimedOut =>
          processor.Record(OnTimeout(next - 1));
          return next;
        case Interrupted =>
          return next;
        case Available(available) =>
          ghost var slots, calls0 := elements[..], processor.calls;
          ghost var p0 := ConsumeSpec(slots, indexMask, processor.throws, next, available);
          var n := next;
          while n <= available
            invariant next <= n && get.value == old(get.value)
            invariant n <= available + 1 || n == next
            invariant var p := ConsumeSpec(slots, indexMask, processor.throws, n, available);
              processor.calls + p.calls == calls0 + p0.calls && p.next == p0.next && p.completed == p0.completed
            decreases available - n
          {
            ghost var calls := processor.calls;
            ghost var rest := ConsumeSpec(slots, indexMask, processor.throws, n + 1, available);
            var value := elements[SlotIndex(n)];
            assert value == SlotOf(slots, indexMask, n);
            processor.Record(Process(value));
            if processor.throws(value) {
              processor.Record(OnThrowable(value));
              return n + 1;
            }
            AppendAssoc(calls, [Process(value)], rest.calls);
            n := n + 1;
          }
          get.Set(available);
          return n;
      }
    }

    /** The drain of `stop(timeout)` as written: after the consumer thread is
        shut down it walks `i` from `get` up to `put - 1`, processes every
        element found (a throw goes to `onThrowable`), empties each such
        slot, and gives up when the deadline passes. A queue never started
        has no consumer thread, so nothing is drained. In every case both
        sequences end at -1. */
    method Stop(prelude: Prelude, late: nat -> bool) returns (r: StopResult)
      requires Valid() && bufferSize > 0 && processor != null
      modifies put, get, elements, processor
      ensures Valid() && put.value == -1 && get.value == -1
      ensures !started ==> r == StopNotStarted
      ensures !started || prelude != Proceed || old(put.value) == old(get.value) ==>
        processor.calls == old(processor.calls) && elements[..] == old(elements[..])
      ensures started && prelude == Proceed ==>
        var d := DrainSpec(old(elements[..]), indexMask, processor.throws, late, old(get.value), old(put.value), 0);
        processor.calls == old(processor.calls) + d.calls && elements[..] == d.slots &&
        r == (if d.timedOut then StopTimedOut else Stopped)
      ensures started && (prelude == ShutdownInterrupted || prelude == SleepInterrupted) ==> r == StopInterrupted
      ensures started && (prelude == ShutdownTimedOut || prelude == DeadlinePassed) ==> r == StopTimedOut
    {
      var from, hi := get.value, put.value;
      if !started {
        r := StopNotStarted;
      } else {
        match prelude {
          case Proceed =>
            r := Walk(from, hi, late);
          case ShutdownTimedOut =>
            r := StopTimedOut;
          case ShutdownInterrupted =>
            r := StopInterrupted;
          case SleepInterrupted =>
            r := StopInterrupted;
          case DeadlinePassed =>
            r := StopTimedOut;
        }
      }
      put.Set(-1);
      get.Set(-1);
    }

    /** The drain of `stop` with the range it evidently means: the elements
        published but not consumed are those of `get + 1` up to `put`. */
    method StopCorrected(prelude: Prelude, late: nat -> bool) returns (r: StopResult)
      requires Valid() && bufferSize > 0 && processor != null
      modifies put, get, elements, processor
      ensures Valid() && put.value == -1 && get.value == -1
      ensures !started ==> r == StopNotStarted
      ensures !started || prelude != Proceed || old(put.value) == old(get.value) ==>
        processor.calls == old(processor.calls) && elements[..] == old(elements[..])
      ensures started && prelude == Proceed ==>
        var d := DrainSpec(old(elements[..]), indexMask, processor.throws, late, old(get.value) + 1, old(put.value) + 1, 0);
        processor.calls == old(processor.calls) + d.calls && elements[..] == d.slots &&
        r == (if d.timedOut then StopTimedOut else Stopped)
      ensures started && (prelude == ShutdownInterrupted || prelude == SleepInterrupted) ==> r == StopInterrupted
      ensures started && (prelude == ShutdownTimedOut || prelude == DeadlinePassed) ==> r == StopTimedOut
    {
      var from, hi := get.value + 1, put.value + 1;
      if !started {
        r := StopNotStarted;
      } else {
        match prelude {
          case Proceed =>
            r := Walk(from, hi, late);
          case ShutdownTimedOut =>
            r := StopTimedOut;
          case ShutdownInterrupted =>
            r := StopInterrupted;
          case SleepInterrupted =>
            r := StopInterrupted;
          case DeadlinePassed =>
            r := StopTimedOut;
        }
      }
      put.Set(-1);
      get.Set(-1);
    }

    /** The drain loop over `from..hi - 1`; nothing when the range is empty. */
    method Walk(from: int, hi: int, late: nat -> bool) returns (r: StopResult)
      requires Valid() && bufferSize > 0 && processor != null
      modifies elements, processor
      ensures var d := DrainSpec(old(elements[..]), indexMask, processor.throws, late, from, hi, 0);
        processor.calls == old(processor.calls) + d.calls && elements[..] == d.slots &&
        r == (if d.timedOut then StopTimedOut else Stopped)
    {
      ghost var slots0, calls0 := elements[..], processor.calls;
      ghost var d0 := DrainSpec(slots0, indexMask, processor.throws, late, from, hi, 0);
      if from == hi {
        return Stopped;
      }
      ghost var throws := processor.throws;
      ghost var slots := slots0;
      var i := from;
      var count: nat := 0;
      while i < hi
        invariant elements.Length == indexMask + 1 && elements[..] == slots
        invariant var d := DrainSpec(slots, indexMask, throws, late, i, hi, count);
          processor.calls + d.calls == calls0 + d0.calls && d.slots == d0.slots && d.timedOut == d0.timedOut
        decreases hi - i
      {
        ghost var calls := processor.calls;
        ghost var s := DrainSlot(slots, indexMask, throws, late, i, count);
        ghost var rest := DrainSpec(s.slots, indexMask, throws, late, i + 1, hi, s.count);
        var timedOut;
        count, timedOut := DrainAt(i, count, late);
        if timedOut {
          return StopTimedOut;
        }
        AppendAssoc(calls, s.calls, rest.calls);
        slots := s.slots;
        i := i + 1;
      }
      return Stopped;
    }

    /** The drain at sequence `i`: process the element found there, if any
        (a throw goes to `onThrowable`), empty the slot, count it, and check
        the clock. */
    method DrainAt(i: int, count: nat, late: nat -> bool) returns (count': nat, timedOut: bool)
      requires Valid() && bufferSize > 0 && processor != null
      modifies elements, processor
      ensures var s := DrainSlot(old(elements[..]), indexMask, processor.throws, late, i, count);
        elements[..] == s.slots && processor.calls == old(processor.calls) + s.calls &&
        count' == s.count && timedOut == s.timedOut
    {
      count', timedOut := count, false;
      var index := SlotIndex(i);
      var value := elements[index];
      if value.Some? {
        processor.Record(Process(value));
        if processor.throws(value) {
          processor.Record(OnThrowable(value));
        }
        elements[index] := None;
        count' := count + 1;
        timedOut := late(count');
      }
    }
  }

  /** For a power-of-two size that is a Java `int`, `s & (size - 1)` is
      `s mod size`, and -1 maps to the last slot. */
  lemma SlotOfPowerOfTwo(s: int, n: int)
    requires 0 < n <= IntMax
    ensures PowerOfTwo(n) ==> LongAnd(s, n - 1) == s % n
    ensures PowerOfTwo(n) && s == -1 ==> LongAnd(s, n - 1) == n - 1
  {
    if PowerOfTwo(n) {
      var k := PowerOfTwoLog(n);
      if k > 64 {
        Pow2Values();
        Pow2Add(64, k - 64);
        assert false;
      }
      SlotIsRemainder(s, k);
    }
  }
}
