/** `BatchForwarder`: gathers single events into a list and hands the whole
    list to a processor once it is forced to, once the list is longer than
    the batch size, or once the batch deadline has passed. */
module Batches {
  import opened Common

  /** The forwarder's state between calls: the buffered events and the deadline. */
  datatype Batch<E> = Batch(events: seq<E>, batchEndTime: int)

  /** One `add` call: the event, `force`, and the two clock readings it may
      make, the first by the forward test, the second by the reset. */
  datatype AddCall<E> = AddCall(event: E, force: bool, checkTime: int, resetTime: int)

  /** The forward test, made after the event has been appended. */
  predicate Forwards<E>(b: Batch<E>, batchSize: int, call: AddCall<E>)
  {
    call.force || |b.events| + 1 > batchSize || call.checkTime > b.batchEndTime
  }

  /** One `add`: the new state and the batches handed to the processor
      (none or one). The new deadline is a Java `long` sum, which wraps. */
  function Step<E>(b: Batch<E>, batchSize: int, duration: int, call: AddCall<E>): (Batch<E>, seq<seq<E>>)
  {
    var events := b.events + [call.event];
    if Forwards(b, batchSize, call) then (Batch([], Wrap64(call.resetTime + duration)), [events])
    else (Batch(events, b.batchEndTime), [])
  }

  /** A run of `add` calls from state `b`: the final state and every batch
      forwarded, in order. */
  function Run<E>(b: Batch<E>, batchSize: int, duration: int, calls: seq<AddCall<E>>): (Batch<E>, seq<seq<E>>)
  {
    if |calls| == 0 then (b, [])
    else
      var before := Run(b, batchSize, duration, calls[..|calls| - 1]);
      var after := Step(before.0, batchSize, duration, calls[|calls| - 1]);
      (after.0, before.1 + after.1)
  }

  /** The events of a run of calls, in order. */
  function EventsOf<E>(calls: seq<AddCall<E>>): seq<E>
  {
    if |calls| == 0 then [] else EventsOf(calls[..|calls| - 1]) + [calls[|calls| - 1].event]
  }

  /** One `add` keeps the list within the batch size and loses no event: the
      events forwarded, then those still buffered, are the events buffered
      before followed by the new one. It forwards exactly when the forward test
      holds; a forward empties the list and moves the deadline to the reset
      time plus the duration (in `long` arithmetic), anything else keeps the
      deadline. */
  lemma StepFacts<E>(b: Batch<E>, batchSize: int, duration: int, call: AddCall<E>)
    requires |b.events| <= batchSize
    ensures var r := Step(b, batchSize, duration, call);
      |r.0.events| <= batchSize &&
      Flatten(r.1) + r.0.events == b.events + [call.event] &&
      (|r.1| == 1 <==> Forwards(b, batchSize, call)) &&
      (|r.1| == 1 ==> r.0.events == [] && r.0.batchEndTime == Wrap64(call.resetTime + duration)) &&
      (|r.1| == 0 ==> r.0.batchEndTime == b.batchEndTime)
  {
    var r := Step(b, batchSize, duration, call);
    if Forwards(b, batchSize, call) {
      assert r.1[..0] == [];
    }
  }

  /** Over any run of calls the list never holds more than `batchSize`
      events, and every event added is forwarded or still buffered, in the
      order it was added: nothing is lost, duplicated or reordered. */
  lemma {:induction false} RunConserves<E>(b: Batch<E>, batchSize: int, duration: int, calls: seq<AddCall<E>>)
    requires |b.events| <= batchSize
    ensures var r := Run(b, batchSize, duration, calls);
      |r.0.events| <= batchSize && Flatten(r.1) + r.0.events == b.events + EventsOf(calls)
  {
    if |calls| > 0 {
      var init := calls[..|calls| - 1];
      var last := calls[|calls| - 1];
      RunConserves(b, batchSize, duration, init);
      var before := Run(b, batchSize, duration, init);
      var after := Step(before.0, batchSize, duration, last);
      StepFacts(before.0, batchSize, duration, last);
      FlattenAppend(before.1, after.1);
      assert Run(b, batchSize, duration, calls) == (after.0, before.1 + after.1);
      assert EventsOf(calls) == EventsOf(init) + [last.event];
      assert Flatten(after.1) + after.0.events == before.0.events + [last.event];
      assert Flatten(before.1) + before.0.events == b.events + EventsOf(init);
      var f, g := Flatten(before.1), Flatten(after.1);
      AppendAssoc(f, g, after.0.events);
      AppendAssoc(f, before.0.events, [last.event]);
    }
  }

  /** Every batch forwarded in a run holds at least one event and at most one
      more than the batch size. */
  lemma {:induction false} RunBatchSizes<E>(b: Batch<E>, batchSize: int, duration: int, calls: seq<AddCall<E>>)
    requires |b.events| <= batchSize
    ensures var r := Run(b, batchSize, duration, calls);
      forall k :: 0 <= k < |r.1| ==> 1 <= |r.1[k]| <= batchSize + 1
  {
    if |calls| > 0 {
      var init := calls[..|calls| - 1];
      RunBatchSizes(b, batchSize, duration, init);
      RunConserves(b, batchSize, duration, init);
    }
  }

  /** A duration so long that the reset time plus it passes `Long.MAX_VALUE`
      (say `Long.MAX_VALUE` itself, meant as "no time limit") wraps the new
      deadline below zero, so the next `add` at any non-negative time
      forwards, and a deadline that never passes is not reachable this way. */
  lemma WrappedDeadlineForwards<E>(b: Batch<E>, batchSize: int, duration: int, call: AddCall<E>, next: AddCall<E>)
    requires IsInt64(duration) && 0 <= call.resetTime <= LongMax && duration > LongMax - call.resetTime
    requires Forwards(b, batchSize, call) && next.checkTime >= 0
    ensures var r := Step(b, batchSize, duration, call);
      r.0.batchEndTime < 0 && Forwards(r.0, batchSize, next)
  {
  }

  /** `BatchForwarder`; `forwarded` is what the processor has received. */
  class BatchForwarder<E> {
    const batchSize: int
    const duration: int
    var events: seq<E>
    var batchEndTime: int
    var forwarded: seq<seq<E>>

    ghost predicate Valid()
      reads this
    {
      |events| <= batchSize
    }

    /** The constructor: an empty list with room for `batchSize` events (a
        negative capacity is refused), and a deadline `duration` after `now`,
        summed as Java `long`s. */
    constructor (batchSize: int, duration: int, now: int)
      requires 0 <= batchSize
      ensures Valid()
      ensures this.batchSize == batchSize && this.duration == duration
      ensures events == [] && forwarded == [] && batchEndTime == Wrap64(now + duration)
    {
      this.batchSize := batchSize;
      this.duration := duration;
      events := [];
      forwarded := [];
      batchEndTime := Wrap64(now + duration);
    }

    /** `add(event, force)`: append, then forward and reset if forced or if
        the forward test holds. */
    method Add(event: E, force: bool, checkTime: int, resetTime: int)
      requires Valid()
      modifies this
      ensures Valid()
      ensures var r := Step(Batch(old(events), old(batchEndTime)), batchSize, duration,
                            AddCall(event, force, checkTime, resetTime));
              Batch(events, batchEndTime) == r.0 && forwarded == old(forwarded) + r.1
    {
      events := events + [event];
      if force || Forward(checkTime) {
        forwarded := forwarded + [events];
        Reset(resetTime);
      }
    }

    /** `add(event)`: never forced. */
    method AddUnforced(event: E, checkTime: int, resetTime: int)
      requires Valid()
      modifies this
      ensures Valid()
      ensures var r := Step(Batch(old(events), old(batchEndTime)), batchSize, duration,
                            AddCall(event, false, checkTime, resetTime));
              Batch(events, batchEndTime) == r.0 && forwarded == old(forwarded) + r.1
    {
      Add(event, false, checkTime, resetTime);
    }

    /** `forward`: more events than the batch size, or the deadline passed. */
    predicate Forward(now: int)
      reads this
    {
      |events| > batchSize || now > batchEndTime
    }

    /** `reset`: an empty list and a new deadline, summed as Java `long`s. */
    method Reset(now: int)
      modifies this
      ensures events == [] && batchEndTime == Wrap64(now + duration) && forwarded == old(forwarded)
    {
      events := [];
      batchEndTime := Wrap64(now + duration);
    }
  }
}
