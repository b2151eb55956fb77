/** The loggers: writing an event's bytes through a file handler, rolling
    first, filtering, and handing events to an asynchronous flusher. Every
    collaborator is a recorder of the calls made to it. */
module Loggers {
  import opened Common

  /** `LoggerEvent`: its time stamp and its bytes. */
  datatype LoggerEvent = LoggerEvent(timeMillis: int, bytes: seq<byte>)

  // ---------------------------------------------------------------------
  // DefaultLogger and RollingLogger

  /** A call made to a (rolling) file handler. */
  datatype HandlerCall = Write(data: seq<byte>) | Flush | Close | Initialize | CheckRollover(event: LoggerEvent)

  /** A file handler that records the calls made to it. */
  class FileHandlerRecorder {
    var calls: seq<HandlerCall>

    constructor ()
      ensures calls == []
    {
      calls := [];
    }

    method Record(call: HandlerCall)
      modifies this
      ensures calls == old(calls) + [call]
    {
      calls := calls + [call];
    }
  }

  /** The calls `DefaultLogger.write(event, endOfBatch)` makes on its handler. */
  function WriteCalls(event: LoggerEvent, endOfBatch: bool, immediateFlush: bool): seq<HandlerCall>
  {
    if |event.bytes| > 0 then [Write(event.bytes)] + (if immediateFlush || endOfBatch then [Flush] else [])
    else []
  }

  /** An event without bytes reaches the handler not at all; any other event is
      written exactly once, with its own bytes, and is flushed (after the
      write) exactly when the logger flushes immediately or the batch ends. */
  lemma WriteCallsFacts(event: LoggerEvent, endOfBatch: bool, immediateFlush: bool)
    ensures |event.bytes| == 0 <==> WriteCalls(event, endOfBatch, immediateFlush) == []
    ensures |event.bytes| > 0 ==>
      WriteCalls(event, endOfBatch, immediateFlush)[0] == Write(event.bytes) &&
      (forall k :: 1 <= k < |WriteCalls(event, endOfBatch, immediateFlush)| ==>
         WriteCalls(event, endOfBatch, immediateFlush)[k] == Flush) &&
      (Flush in WriteCalls(event, endOfBatch, immediateFlush) <==> immediateFlush || endOfBatch)
  {
  }

  /** `DefaultLogger`. */
  class DefaultLogger {
    const immediateFlush: bool
    const handler: FileHandlerRecorder

    constructor (immediateFlush: bool, handler: FileHandlerRecorder)
      ensures this.immediateFlush == immediateFlush && this.handler == handler
    {
      this.immediateFlush := immediateFlush;
      this.handler := handler;
    }

    /** `write(event, endOfBatch)`. */
    method WriteBatch(event: LoggerEvent, endOfBatch: bool)
      modifies handler
      ensures handler.calls == old(handler.calls) + WriteCalls(event, endOfBatch, immediateFlush)
    {
      var bytes := event.bytes;
      if |bytes| > 0 {
        handler.Record(HandlerCall.Write(bytes));
        if immediateFlush || endOfBatch {
          handler.Record(Flush);
        }
      }
    }

    /** `write(event)`: the same as the end of a batch. */
    method Write(event: LoggerEvent)
      modifies handler
      ensures handler.calls == old(handler.calls) + WriteCalls(event, true, immediateFlush)
    {
      WriteBatch(event, true);
    }

    /** `close`: closes the handler. */
    method Close()
      modifies handler
      ensures handler.calls == old(handler.calls) + [HandlerCall.Close]
    {
      handler.Record(HandlerCall.Close);
    }
  }

  /** `RollingLogger`: a `DefaultLogger` over a rolling handler that is
      initialized on construction and checked for rollover before each write. */
  class RollingLogger {
    const immediateFlush: bool
    const handler: FileHandlerRecorder

    constructor (immediateFlush: bool, handler: FileHandlerRecorder)
      modifies handler
      ensures this.immediateFlush == immediateFlush && this.handler == handler
      ensures handler.calls == old(handler.calls) + [Initialize]
    {
      this.immediateFlush := immediateFlush;
      this.handler := handler;
      new;
      handler.Record(Initialize);
    }

    /** `write(event, endOfBatch)`: rollover check first, even for an event
        without bytes, then the `DefaultLogger` write. */
    method WriteBatch(event: LoggerEvent, endOfBatch: bool)
      modifies handler
      ensures handler.calls == old(handler.calls) + [CheckRollover(event)] + WriteCalls(event, endOfBatch, immediateFlush)
    {
      handler.Record(CheckRollover(event));
      var bytes := event.bytes;
      if |bytes| > 0 {
        handler.Record(HandlerCall.Write(bytes));
        if immediateFlush || endOfBatch {
          handler.Record(Flush);
        }
      }
    }

    /** `write(event)`, inherited: the end of a batch. */
    method Write(event: LoggerEvent)
      modifies handler
      ensures handler.calls == old(handler.calls) + [CheckRollover(event)] + WriteCalls(event, true, immediateFlush)
    {
      WriteBatch(event, true);
    }
  }

  // ---------------------------------------------------------------------
  // FilterableLogger

  /** A call made to a wrapped `Logger`. */
  datatype LoggerCall = Wrote(event: LoggerEvent) | WroteBatch(event: LoggerEvent, endOfBatch: bool) | Closed

  class LoggerRecorder {
    var calls: seq<LoggerCall>

    constructor ()
      ensures calls == []
    {
      calls := [];
    }

    method Record(call: LoggerCall)
      modifies this
      ensures calls == old(calls) + [call]
    {
      calls := calls + [call];
    }
  }

  /** A `Filter`: whether it lets the event through. */
  type Filter = LoggerEvent -> bool

  predicate AllAccept(filters: seq<Filter>, event: LoggerEvent)
  {
    forall k :: 0 <= k < |filters| ==> filters[k](event)
  }

  /** `isWrite`: the filters are asked in order and the first rejection ends
      the search. Answers the verdict and how many filters were asked. */
  method IsWrite(filters: seq<Filter>, event: LoggerEvent) returns (ok: bool, asked: nat)
    ensures ok <==> AllAccept(filters, event)
    ensures ok ==> asked == |filters|
    ensures !ok ==> 1 <= asked <= |filters| && !filters[asked - 1](event) &&
                    forall k :: 0 <= k < asked - 1 ==> filters[k](event)
  {
    var i := 0;
    while i < |filters|
      invariant 0 <= i <= |filters|
      invariant forall k :: 0 <= k < i ==> filters[k](event)
    {
      if !filters[i](event) {
        return false, i + 1;
      }
      i := i + 1;
    }
    return true, i;
  }

  /** `FilterableLogger`. */
  class FilterableLogger {
    const logger: LoggerRecorder
    const filters: seq<Filter>

    constructor (logger: LoggerRecorder, filters: seq<Filter>)
      ensures this.logger == logger && this.filters == filters
    {
      this.logger := logger;
      this.filters := filters;
    }

    /** `write(event)`: forwarded exactly when every filter accepts it. */
    method Write(event: LoggerEvent)
      modifies logger
      ensures AllAccept(filters, event) ==> logger.calls == old(logger.calls) + [Wrote(event)]
      ensures !AllAccept(filters, event) ==> logger.calls == old(logger.calls)
    {
      var ok, _ := IsWrite(filters, event);
      if ok {
        logger.Record(Wrote(event));
      }
    }

    /** `write(event, endOfBatch)`: the same gate, `endOfBatch` passed on. */
    method WriteBatch(event: LoggerEvent, endOfBatch: bool)
      modifies logger
      ensures AllAccept(filters, event) ==> logger.calls == old(logger.calls) + [WroteBatch(event, endOfBatch)]
      ensures !AllAccept(filters, event) ==> logger.calls == old(logger.calls)
    {
      var ok, _ := IsWrite(filters, event);
      if ok {
        logger.Record(WroteBatch(event, endOfBatch));
      }
    }

    /** `close`: always passed on. */
    method Close()
      modifies logger
      ensures logger.calls == old(logger.calls) + [Closed]
    {
      logger.Record(Closed);
    }
  }

  // ---------------------------------------------------------------------
  // AsyncLogger

  /** A call made by the asynchronous logger: to its flusher or to the logger it wraps. */
  datatype FlusherCall = TryAdd(event: LoggerEvent) | Add(event: LoggerEvent) | Shutdown
  datatype AsyncCall = ToFlusher(flusherCall: FlusherCall) | ToLogger(loggerCall: LoggerCall)

  class AsyncRecorder {
    var calls: seq<AsyncCall>

    constructor ()
      ensures calls == []
    {
      calls := [];
    }

    method Record(call: AsyncCall)
      modifies this
      ensures calls == old(calls) + [call]
    {
      calls := calls + [call];
    }
  }

  /** What `DefaultAddAction.add` does with one event. */
  datatype AddDecision = Blocking | Tried | TriedThenBlocking | Discarded

  /** One step of the add policy: the decision and the new failure counter,
      given the counter and whether `tryAdd` would accept the event now.
      The counter is a Java `int` (`AtomicInteger`), so its increment wraps. */
  function AddStep(syncSize: int, syncPerm: int, accepted: bool): (AddDecision, int)
    requires IsInt32(syncPerm)
  {
    if syncSize < 0 then (Blocking, syncPerm)
    else if syncSize == 0 then (if accepted then Tried else Discarded, syncPerm)
    else if accepted then (Tried, 0)
    else
      var next := Wrap32(syncPerm + 1);
      (if next <= syncSize then TriedThenBlocking else Discarded, next)
  }

  /** The failure counter after `k` `tryAdd` failures in a row, starting at 0. */
  function CounterAfterFailures(syncSize: int, k: nat): (r: int)
    ensures IsInt32(r)
  {
    if k == 0 then 0 else AddStep(syncSize, CounterAfterFailures(syncSize, k - 1), false).1
  }

  /** With a positive `syncSize`, after a success the next `syncSize` failures
      in a row each wait for room, and every further failure is discarded (as
      long as the counter has not wrapped around). */
  lemma {:induction false} FailuresThenDiscard(syncSize: int, k: nat)
    requires 0 < syncSize && k < IntMax
    ensures CounterAfterFailures(syncSize, k) == k
    ensures AddStep(syncSize, CounterAfterFailures(syncSize, k), false).0 ==
            (if k + 1 <= syncSize then TriedThenBlocking else Discarded)
  {
    if k > 0 {
      FailuresThenDiscard(syncSize, k - 1);
    }
  }

  /** `DefaultAddAction`. */
  class DefaultAddAction {
    const syncSize: int
    var syncPerm: int

    constructor (syncSize: int)
      ensures this.syncSize == syncSize && syncPerm == 0
    {
      this.syncSize := syncSize;
      syncPerm := 0;
    }

    /** `add(flusher, event, handler)`, where `accepted` is what the flusher's
        `tryAdd` answers this time; a discarded event is answered `Discarded`. */
    method AddEvent(flusher: AsyncRecorder, event: LoggerEvent, accepted: bool) returns (decision: AddDecision)
      requires IsInt32(syncPerm)
      modifies this, flusher
      ensures IsInt32(syncPerm)
      ensures (decision, syncPerm) == AddStep(syncSize, old(syncPerm), accepted)
      ensures decision == Blocking ==> flusher.calls == old(flusher.calls) + [ToFlusher(Add(event))]
      ensures decision == Tried || decision == Discarded ==> flusher.calls == old(flusher.calls) + [ToFlusher(TryAdd(event))]
      ensures decision == TriedThenBlocking ==>
        flusher.calls == old(flusher.calls) + [ToFlusher(TryAdd(event)), ToFlusher(Add(event))]
    {
      if syncSize < 0 {
        flusher.Record(ToFlusher(Add(event)));
        return Blocking;
      }
      if syncSize == 0 {
        flusher.Record(ToFlusher(TryAdd(event)));
        if !accepted {
          return Discarded;
        }
        return Tried;
      }
      flusher.Record(ToFlusher(TryAdd(event)));
      if accepted {
        syncPerm := 0;
        decision := Tried;
      } else {
        syncPerm := Wrap32(syncPerm + 1);
        if syncPerm <= syncSize {
          flusher.Record(ToFlusher(Add(event)));
          decision := TriedThenBlocking;
        } else {
          decision := Discarded;
        }
      }
    }
  }

  /** `AsyncLogger`: its flusher and its wrapped logger record into `out`. */
  class AsyncLogger {
    const out: AsyncRecorder
    const addAction: DefaultAddAction

    constructor (out: AsyncRecorder, addAction: DefaultAddAction)
      ensures this.out == out && this.addAction == addAction
    {
      this.out := out;
      this.addAction := addAction;
    }

    /** `write(event)`: through the add policy. */
    method Write(event: LoggerEvent, accepted: bool) returns (decision: AddDecision)
      requires IsInt32(addAction.syncPerm)
      modifies addAction, out
      ensures IsInt32(addAction.syncPerm)
      ensures (decision, addAction.syncPerm) == AddStep(addAction.syncSize, old(addAction.syncPerm), accepted)
      ensures decision == Blocking ==> out.calls == old(out.calls) + [ToFlusher(Add(event))]
      ensures decision == Tried || decision == Discarded ==> out.calls == old(out.calls) + [ToFlusher(TryAdd(event))]
      ensures decision == TriedThenBlocking ==>
        out.calls == old(out.calls) + [ToFlusher(TryAdd(event)), ToFlusher(Add(event))]
    {
      decision := addAction.AddEvent(out, event, accepted);
    }

    /** `write(event, endOfBatch)`: the end of a batch is written to the
        wrapped logger at once; anything else goes through the add policy. */
    method WriteBatch(event: LoggerEvent, endOfBatch: bool, accepted: bool)
      requires IsInt32(addAction.syncPerm)
      modifies addAction, out
      ensures IsInt32(addAction.syncPerm)
      ensures endOfBatch ==> out.calls == old(out.calls) + [ToLogger(WroteBatch(event, true))] &&
                             addAction.syncPerm == old(addAction.syncPerm)
      ensures !endOfBatch ==> addAction.syncPerm == AddStep(addAction.syncSize, old(addAction.syncPerm), accepted).1
      ensures !endOfBatch ==>
        var decision := AddStep(addAction.syncSize, old(addAction.syncPerm), accepted).0;
        (decision == Blocking ==> out.calls == old(out.calls) + [ToFlusher(Add(event))]) &&
        (decision == Tried || decision == Discarded ==> out.calls == old(out.calls) + [ToFlusher(TryAdd(event))]) &&
        (decision == TriedThenBlocking ==>
           out.calls == old(out.calls) + [ToFlusher(TryAdd(event)), ToFlusher(Add(event))])
    {
      if endOfBatch {
        out.Record(ToLogger(WroteBatch(event, true)));
      } else {
        var _ := Write(event, accepted);
      }
    }

    /** `close`: the flusher is shut down before the wrapped logger is closed. */
    method Close()
      modifies out
      ensures out.calls == old(out.calls) + [ToFlusher(Shutdown), ToLogger(Closed)]
    {
      out.Record(ToFlusher(Shutdown));
      out.Record(ToLogger(Closed));
    }
  }
}
