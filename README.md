# asynclogger core in Dafny

This project models the core of the asynclogger library: an asynchronous file logger for Java. It has these parts:

- **Ring-buffer queue.** `ArrayUnblockingQueue` takes events from producers and hands them to one consumer thread. The parts modelled are:
  - the producer and consumer sequences;
  - the power-of-two slot mask;
  - `tryPut` and `put`;
  - the consumer loop;
  - the three wait strategies;
  - the drain done by `stop(timeout)`.
- **Batch forwarder.** `BatchForwarder` groups events into lists.
- **File handler.** `DefaultFileHandler` gathers bytes in a fixed buffer and flushes them to a channel.
- **Rolling-file naming.** `FilePattern` and its formatters. The extension helpers of `Files` are modelled with them.
- **Rollover planning.** `DefaultRollover` plans the backup renames and the purges. The actions it plans (`AbstractAction` and `CompositeAction`) and the triggers that decide when to roll (size, time, composite) are modelled too.
- **Loggers.** Four loggers route an event to a handler:
  - `DefaultLogger`;
  - `RollingLogger`;
  - `FilterableLogger`;
  - `AsyncLogger` with its `DefaultAddAction` back-pressure policy.

The model is sequential. Whatever another thread, the clock, the calendar or the file system would do between two steps is an input:

- `late`, `channelFails` and `throws` are predicates given as parameters;
- the wait strategy's observations are sequences given as parameters;
- `render` and `nextTimes` are functions given as parameters.

A collaborator whose calls matter is a small recorder class. It appends every call it receives to a sequence, so contracts can state exactly which calls were made, in which order and with which arguments.

Files, one module each:

| file | module | what it models |
|---|---|---|
| common.dfy | `Common` | `Option`/`Result`, Java `int` wrap-around, Java `%`, byte type, `Flatten` |
| bits.dfy | `Bits` | `Integer.bitCount`, `long &`, powers of two |
| queue.dfy | `Queues` | `ArrayUnblockingQueue`, its sequences, wait strategies and processor |
| batch_forwarder.dfy | `Batches` | `BatchForwarder` |
| file_handler.dfy | `FileHandlers` | `DefaultFileHandler` |
| files.dfy | `Files` | `Files` extension helpers |
| formatters.dfy | `Formatters` | `DateFormatter` (with `Frequency`), `IndexFormatter`, `DefaultFormatter` |
| file_pattern.dfy | `FilePatterns` | `FilePattern` and `FormatterFactory` |
| rollover.dfy | `Rollovers` | `DefaultRollover` |
| actions.dfy | `Actions` | `AbstractAction`, `CompositeAction` |
| triggers.dfy | `Triggers` | `SizeBasedTrigger`, `TimeBasedTrigger`, `CompositeTrigger` |
| loggers.dfy | `Loggers` | `DefaultLogger`, `RollingLogger`, `FilterableLogger`, `AsyncLogger`, `DefaultAddAction` |

## Model

| member | source | states |
|---|---|---|
| Common.Wrap32 | src/main/java/org/danielli/logging/support/AsyncLogger.java:118 | The result is a Java `int`, congruent to the input modulo 2^32, and equal to the input when no overflow happens. |
| Common.Wrap64 | src/main/java/org/danielli/common/batch/BatchForwarder.java:33 | The result is a Java `long`, congruent to the input modulo 2^64, equal to the input when no overflow happens, and negative when a sum of two non-negative `long`s passes `Long.MAX_VALUE`. |
| Common.JavaRem | src/main/java/org/danielli/logging/roll/pattern/format/DateFormatter.java:137 | Java's `%` truncates: the remainder takes the dividend's sign, its magnitude is below the divisor's, and it agrees with the mathematical remainder when both operands are positive. |
| Common.FlattenAppend | src/main/java/org/danielli/common/batch/BatchForwarder.java:40-46 | Concatenating the lists forwarded by two runs gives the concatenation of their events. |
| Bits.PopCountOne | src/main/java/org/danielli/common/concurrent/async/ArrayUnblockingQueue.java:44 | A positive number has exactly one bit set iff it is a power of two. |
| Bits.PowerOfTwoIsPow2 | src/main/java/org/danielli/common/concurrent/async/ArrayUnblockingQueue.java:44 | Every `2^k` passes the power-of-two test. |
| Bits.PowerOfTwoLog | src/main/java/org/danielli/common/concurrent/async/ArrayUnblockingQueue.java:44 | Every power of two is `2^k` for some `k`. |
| Bits.PowerOfTwoBetween | src/main/java/org/danielli/common/concurrent/async/ArrayUnblockingQueue.java:44 | `2^k` is the only power of two in `[2^k, 2^(k+1))`. |
| Bits.BitCountOne | src/main/java/org/danielli/common/concurrent/async/ArrayUnblockingQueue.java:44 | For a Java `int`, `Integer.bitCount(x) == 1` iff `x` is a positive power of two or `Integer.MIN_VALUE`. |
| Bits.BitCountOneNegative | src/main/java/org/danielli/common/concurrent/async/ArrayUnblockingQueue.java:44 | A negative `int` has a single one bit only when it is `Integer.MIN_VALUE`. |
| Bits.LowBits | src/main/java/org/danielli/common/concurrent/async/ArrayUnblockingQueue.java:327-329 | ANDing with `2^k - 1` keeps the remainder modulo `2^k`. |
| Bits.LowBitsStep | src/main/java/org/danielli/common/concurrent/async/ArrayUnblockingQueue.java:327-329 | Helper of `Bits.SlotIsRemainder`, which models the cited line. The induction step of `LowBits`: one more mask bit extends the remainder from modulo `m` to modulo `2m`. |
| Bits.BitAndOdd | src/main/java/org/danielli/common/concurrent/async/ArrayUnblockingQueue.java:328 | Helper of `Bits.SlotIsRemainder`, which models the cited line. An odd mask keeps the lowest bit and masks the rest with the halved mask. |
| Bits.SplitRemainder | src/main/java/org/danielli/common/concurrent/async/ArrayUnblockingQueue.java:328 | Helper of `Bits.SlotIsRemainder`, which models the cited line. The remainder modulo `2m` is assembled from the remainder of `a/2` modulo `m` and the last bit. |
| Bits.RemainderUnique | src/main/java/org/danielli/common/concurrent/async/ArrayUnblockingQueue.java:328 | Helper of `Bits.SlotIsRemainder`, which models the cited line. The remainder is the unique `r` in `[0, n)` with `a == n*q + r`. |
| Bits.ModPow2Twice | src/main/java/org/danielli/common/concurrent/async/ArrayUnblockingQueue.java:328 | Helper of `Bits.SlotIsRemainder`, which models the cited line. Reducing a `long` to 64 bits first does not change its remainder modulo a smaller power of two. |
| Bits.ModOfMultiple | src/main/java/org/danielli/common/concurrent/async/ArrayUnblockingQueue.java:328 | Helper of `Bits.SlotIsRemainder`, which models the cited line. A remainder modulo a multiple of `n`, taken again modulo `n`, is the remainder modulo `n`. |
| Bits.SlotIsRemainder | src/main/java/org/danielli/common/concurrent/async/ArrayUnblockingQueue.java:327-329 | With `2^k` slots, sequence `s` lands in slot `s mod 2^k`, and the initial sequence -1 lands in the last slot. |
| Bits.Pow2Add | src/main/java/org/danielli/common/concurrent/async/ArrayUnblockingQueue.java:44 | `2^(a+b) == 2^a * 2^b`. |
| Bits.Pow2Values | src/main/java/org/danielli/common/concurrent/async/ArrayUnblockingQueue.java:44 | `2^31`, `2^32` and `2^64` have their expected values, which tie the `int` and `long` widths to the power-of-two model. |
| Queues.SlotOfPowerOfTwo | src/main/java/org/danielli/common/concurrent/async/ArrayUnblockingQueue.java:327-329 | For a power-of-two size that is a Java `int`, `s & (size - 1)` is `s mod size`, and -1 maps to the last slot. |
| Queues.ProducerSequence.constructor | src/main/java/org/danielli/common/concurrent/async/ArrayUnblockingQueue.java:414-416 | The sequence starts at the given value. |
| Queues.ProducerSequence.Set | src/main/java/org/danielli/common/concurrent/async/ArrayUnblockingQueue.java:422-424 | The value becomes the new value. |
| Queues.ProducerSequence.CompareAndSet | src/main/java/org/danielli/common/concurrent/async/ArrayUnblockingQueue.java:430-432 | It succeeds iff the value was the expected one; the value then becomes the new one and is otherwise unchanged. |
| Queues.ProducerSequence.AddAndGet | src/main/java/org/danielli/common/concurrent/async/ArrayUnblockingQueue.java:438-449 | The retry loop ends with the value increased by the increment and returns the new value. |
| Queues.ProducerSequence.IncrementAndGet | src/main/java/org/danielli/common/concurrent/async/ArrayUnblockingQueue.java:434-436 | The value goes up by one and the new value is returned. |
| Queues.ConsumerSequence.constructor | src/main/java/org/danielli/common/concurrent/async/ArrayUnblockingQueue.java:454-456 | The sequence starts at the given value. |
| Queues.ConsumerSequence.Set | src/main/java/org/danielli/common/concurrent/async/ArrayUnblockingQueue.java:462-464 | The value becomes the new value. |
| Queues.ApplyWaitMethod | src/main/java/org/danielli/common/concurrent/async/ArrayUnblockingQueue.java:300-310 | The back-off spins iff the counter is above 100 and parks iff it is at most 0. The counter never rises, stays non-negative, and stays put exactly when the back-off parks. |
| Queues.BackOffRounds | src/main/java/org/danielli/common/concurrent/async/ArrayUnblockingQueue.java:291-310 | Round `k` of the back-off acts on the counter left by the `k` rounds before it. |
| Queues.CounterCountsDown | src/main/java/org/danielli/common/concurrent/async/ArrayUnblockingQueue.java:300-310 | From a non-negative retry count, after `n` rounds the counter is `max(retries - n, 0)`. |
| Queues.Waitor.constructor | src/main/java/org/danielli/common/concurrent/async/ArrayUnblockingQueue.java:195 | A new wait strategy has no pending signal request. |
| Queues.Waitor.Signal | src/main/java/org/danielli/common/concurrent/async/ArrayUnblockingQueue.java:198-207 | The blocking and timeout strategies wake the consumer only if it asked, and clear the request. The sleeping strategy does nothing. |
| Queues.Waitor.ConditionWait | src/main/java/org/danielli/common/concurrent/async/ArrayUnblockingQueue.java:210-275 | Blocking and timeout waits return a value already at `next` without locking. Otherwise they set the signal request, park only if the third read is still short and no interrupt is pending, time out only when parked with no time left, and else answer the last value read. |
| Queues.Waitor.SleepingWait | src/main/java/org/danielli/common/concurrent/async/ArrayUnblockingQueue.java:291-310 | The sleeping wait backs off once per check that finds nothing and no interrupt, and ends at the first check that finds a value or an interrupt. Each round's action is the back-off of the counter so far. |
| Queues.ConsumeSpecFacts | src/main/java/org/danielli/common/concurrent/async/ArrayUnblockingQueue.java:351-373 | One consumer pass hands the slots `next..available` to `process` in order. It completes iff none throws, then ending at `available + 1`. Otherwise it stops after the first throwing slot, reporting it to `onThrowable`, and resumes right after it. |
| Queues.ConsumeCompletes | src/main/java/org/danielli/common/concurrent/async/ArrayUnblockingQueue.java:358-363 | A pass completes exactly when no slot in `next..available` throws. |
| Queues.ConsumeCompletedCalls | src/main/java/org/danielli/common/concurrent/async/ArrayUnblockingQueue.java:358-363 | A completed pass makes one `process` call per slot from `next` to `available`, in order. |
| Queues.ConsumeThrownStops | src/main/java/org/danielli/common/concurrent/async/ArrayUnblockingQueue.java:358-371 | A pass that does not complete stops right after the first throwing slot. |
| Queues.ConsumeThrownCalls | src/main/java/org/danielli/common/concurrent/async/ArrayUnblockingQueue.java:358-371 | A pass that stops at a throwing slot calls `process` for each slot up to and including it, then `onThrowable` for it. |
| Queues.DrainClears | src/main/java/org/danielli/common/concurrent/async/ArrayUnblockingQueue.java:143-157 | A drain that does not time out leaves every visited slot empty. It never hands an empty slot to the processor. |
| Queues.StaysEmpty | src/main/java/org/danielli/common/concurrent/async/ArrayUnblockingQueue.java:143-157 | A drain never fills a slot. |
| Queues.DrainProcessesCleared | src/main/java/org/danielli/common/concurrent/async/ArrayUnblockingQueue.java:143-157 | Every element the drain removes from a slot is handed to `process`. |
| Queues.DrainRangeExample | src/main/java/org/danielli/common/concurrent/async/ArrayUnblockingQueue.java:138-157 | On a concrete ring, walking `get..put-1` re-processes the consumed element and misses the published one; walking `get+1..put` processes exactly the published one. |
| Queues.ArrayUnblockingQueue.constructor | src/main/java/org/danielli/common/concurrent/async/ArrayUnblockingQueue.java:21-40 | Both sequences start at -1, every slot is empty, and the mask is `bufferSize - 1`. |
| Queues.ArrayUnblockingQueue.SlotIndex | src/main/java/org/danielli/common/concurrent/async/ArrayUnblockingQueue.java:327-329 | `elementAt` always picks a slot of the array. For a power-of-two size it is `s mod bufferSize`, so -1 is the last slot. |
| Queues.ArrayUnblockingQueue.Start | src/main/java/org/danielli/common/concurrent/async/ArrayUnblockingQueue.java:43-56 | `start` refuses a size whose bit count is not 1, then a missing processor, then a missing wait strategy, in that order. It succeeds iff the size is a power of two and both are present. |
| Queues.ArrayUnblockingQueue.Reserve | src/main/java/org/danielli/common/concurrent/async/ArrayUnblockingQueue.java:86-95 | The compare-and-set loop reserves exactly the next sequence. |
| Queues.ArrayUnblockingQueue.Publish | src/main/java/org/danielli/common/concurrent/async/ArrayUnblockingQueue.java:96-97 | The element goes into the slot of its sequence, and no other slot changes. Then the consumer is signalled: a blocking or timeout strategy is notified once if it asked, and its request is cleared; a sleeping strategy is untouched. |
| Queues.ArrayUnblockingQueue.TryPut | src/main/java/org/danielli/common/concurrent/async/ArrayUnblockingQueue.java:81-99 | `null` is accepted without taking a slot. A full buffer refuses the element and changes nothing. Otherwise `put` advances by one and only its slot changes, and the consumer is signalled as `Publish` states. A `null` or refused element leaves the wait strategy untouched. The consumer sequence is never touched. |
| Queues.ArrayUnblockingQueue.Put | src/main/java/org/danielli/common/concurrent/async/ArrayUnblockingQueue.java:59-78 | One pass of `put`'s loop: as `tryPut`, including the signal to the consumer after a store, except that a full buffer makes the producer wait instead of refusing. |
| Queues.ArrayUnblockingQueue.ConsumeOnce | src/main/java/org/danielli/common/concurrent/async/ArrayUnblockingQueue.java:351-373 | One consumer iteration makes exactly the calls of the consumer pass. `get` moves to `available` only when the pass completes. A timeout reports `onTimeout(next - 1)`; an interrupt changes nothing. |
| Queues.ArrayUnblockingQueue.Stop | src/main/java/org/danielli/common/concurrent/async/ArrayUnblockingQueue.java:108-162 | `stop(timeout)` as written drains `get..put-1`, with the drain's calls, slots and timeout. Both sequences end at -1 on every path. Interrupts and early timeouts are reported without draining. On a queue never started, the shutdown of the missing consumer thread fails (`StopNotStarted`, Java's `NullPointerException`) and nothing is drained. |
| Queues.ArrayUnblockingQueue.StopCorrected | src/main/java/org/danielli/common/concurrent/async/ArrayUnblockingQueue.java:108-162 | The same contract as `Stop`, including the never-started case, draining the range of published but unconsumed elements, `get+1..put`. |
| Queues.ArrayUnblockingQueue.Walk | src/main/java/org/danielli/common/concurrent/async/ArrayUnblockingQueue.java:143-157 | The drain loop makes exactly the calls and slot changes of the drain specification over the range, and reports its timeout. |
| Queues.ArrayUnblockingQueue.DrainAt | src/main/java/org/danielli/common/concurrent/async/ArrayUnblockingQueue.java:144-155 | One drain step processes and clears a full slot, counts it and checks the clock. An empty slot is skipped. |
| Batches.StepFacts | src/main/java/org/danielli/common/batch/BatchForwarder.java:40-59 | One `add` keeps the list within the batch size and loses no event. It forwards exactly when forced, over size or past the deadline. A forward empties the list and moves the deadline to the reset time plus the duration, summed as Java `long`s; anything else keeps it. |
| Batches.WrappedDeadlineForwards | src/main/java/org/danielli/common/batch/BatchForwarder.java:52-59 | When the reset time plus the duration passes `Long.MAX_VALUE`, the new deadline wraps below zero, and the next `add` at any non-negative time forwards. |
| Batches.RunConserves | src/main/java/org/danielli/common/batch/BatchForwarder.java:36-59 | Over any run of adds the list never exceeds the batch size. The forwarded events followed by the buffered ones are all events added, in order. |
| Batches.RunBatchSizes | src/main/java/org/danielli/common/batch/BatchForwarder.java:40-59 | Every forwarded batch holds between 1 and `batchSize + 1` events. |
| Batches.BatchForwarder.constructor | src/main/java/org/danielli/common/batch/BatchForwarder.java:26-34 | The list starts empty, and the deadline is the clock plus `duration`, summed as Java `long`s, so it wraps for a duration near `Long.MAX_VALUE`. |
| Batches.BatchForwarder.Add | src/main/java/org/danielli/common/batch/BatchForwarder.java:40-55 | `add(event, force)` changes the state and the forwarded lists exactly as one step of the batch specification, and keeps the size bound. |
| Batches.BatchForwarder.AddUnforced | src/main/java/org/danielli/common/batch/BatchForwarder.java:36-38 | `add(event)` is the unforced step. |
| Batches.BatchForwarder.Reset | src/main/java/org/danielli/common/batch/BatchForwarder.java:52-55 | `reset` empties the list and sets the new deadline to the clock plus `duration`, summed as Java `long`s. |
| FileHandlers.AppendTruncates | src/main/java/org/danielli/logging/handler/support/DefaultFileHandler.java:43-49 | As written, the file is empty until the first write, then holds as many zero bytes as the counted length followed by the delivered bytes; for an appended file with a non-zero byte this always differs from the old contents followed by the delivered bytes. |
| FileHandlers.AppendTruncatesExample | src/main/java/org/danielli/logging/handler/support/DefaultFileHandler.java:43-49 | An existing file `[7]` opened for appending, then written `[9]`: as written it holds `[0, 9]`, where `[7, 9]` was intended. |
| FileHandlers.KeptMatchesInitialSize | src/main/java/org/danielli/logging/handler/support/DefaultFileHandler.java:39-49 | With the stream opened in append mode, the contents kept are exactly as long as the length the handler counts from, and are the file itself when appending. |
| FileHandlers.FillConserves | src/main/java/org/danielli/logging/handler/support/DefaultFileHandler.java:83-95 | The copying loop loses, duplicates and reorders no byte: the flushed buffers, followed by what is left in the buffer, are the old buffer followed by the data. |
| FileHandlers.FillStepConserves | src/main/java/org/danielli/logging/handler/support/DefaultFileHandler.java:86-93 | One pass of the copying loop conserves bytes in the same way. |
| FileHandlers.FillFits | src/main/java/org/danielli/logging/handler/support/DefaultFileHandler.java:83-95 | Data that fits in the free space is appended, and nothing is flushed. |
| FileHandlers.FillOverflows | src/main/java/org/danielli/logging/handler/support/DefaultFileHandler.java:83-95 | Data that does not fit flushes the old buffer first, then only full buffers, and leaves the tail of the data buffered. |
| FileHandlers.DeliveredFacts | src/main/java/org/danielli/logging/handler/support/DefaultFileHandler.java:97-106 | At most every flush fails, and a closed channel keeps nothing. Without a failure the channel keeps every flushed byte, in order. |
| FileHandlers.DeliveredAppend | src/main/java/org/danielli/logging/handler/support/DefaultFileHandler.java:97-106 | Delivering two runs of flushes one after the other is delivering their concatenation. |
| FileHandlers.ChunkMeaning | src/main/java/org/danielli/logging/handler/support/DefaultFileHandler.java:86-93 | One pass of the loop on the handler's state copies the bytes of one fill step and delivers the buffers it flushes. |
| FileHandlers.CopyUnfold | src/main/java/org/danielli/logging/handler/support/DefaultFileHandler.java:86-94 | The do-while loop's equation: one pass, then the rest, which also holds when there is nothing to copy. |
| FileHandlers.AfterFlushesAppend | src/main/java/org/danielli/logging/handler/support/DefaultFileHandler.java:97-106 | Flushing two runs of buffers is flushing their concatenation. |
| FileHandlers.CopyKeepsValid | src/main/java/org/danielli/logging/handler/support/DefaultFileHandler.java:83-106 | Flushing keeps the handler's accounting: bytes handed to the channel followed by buffered bytes are all bytes written. Without a failure, the file is its original contents followed by everything handed to the channel. |
| FileHandlers.CopyMeaning | src/main/java/org/danielli/logging/handler/support/DefaultFileHandler.java:83-95 | The whole copying loop flushes exactly the buffers `Fill` flushes, one channel write each, and leaves the buffer as `Fill` does. |
| FileHandlers.DefaultFileHandler.constructor | src/main/java/org/danielli/logging/handler/support/DefaultFileHandler.java:32-66 | The counted length is the existing file's when appending, else 0. The creation time is the file's modification time when it is kept, else the clock's. The buffer is empty. The file is opened as intended, in append mode, so an appended file keeps its contents (see Findings). |
| FileHandlers.DefaultFileHandler.Flush | src/main/java/org/danielli/logging/handler/support/DefaultFileHandler.java:97-106 | The buffered bytes are one channel write and the buffer is emptied either way. A failure (or a closed channel) is reported and leaves the file as it was; otherwise the bytes are appended to the file. |
| FileHandlers.DefaultFileHandler.PutChunk | src/main/java/org/danielli/logging/handler/support/DefaultFileHandler.java:87-93 | One pass of the loop, as its specification states. |
| FileHandlers.DefaultFileHandler.CopyChunks | src/main/java/org/danielli/logging/handler/support/DefaultFileHandler.java:85-94 | The whole do-while loop, as its specification states. |
| FileHandlers.DefaultFileHandler.WriteRange | src/main/java/org/danielli/logging/handler/support/DefaultFileHandler.java:83-95 | The length grows by `length` at once. The bytes are copied as `Fill` describes, each flushed buffer being one channel write whose outcome `Delivered` gives. The accounting invariant is kept. |
| FileHandlers.DefaultFileHandler.Write | src/main/java/org/danielli/logging/handler/support/DefaultFileHandler.java:78-81 | `write(data)` is `write(data, 0, data.length)`: the length grows by its size, and the buffer, flushes and file are as `Fill` and `Delivered` give for the whole array. |
| FileHandlers.DefaultFileHandler.Close | src/main/java/org/danielli/logging/handler/support/DefaultFileHandler.java:68-76 | `close` flushes the buffer, then closes the channel. The final flush is one more channel write and leaves the length alone. If the channel was already closed or the write fails, the file is unchanged and one failure is reported. Otherwise the buffered bytes reach the file and nothing is reported. |
| FileHandlers.DefaultFileHandler.Length | src/main/java/org/danielli/logging/handler/support/DefaultFileHandler.java:113-116 | `length` is the initial length plus every byte written, flushed or not. |
| Files.LastIndexOf | src/main/java/org/danielli/common/io/Files.java:116 | `lastIndexOf` answers the last position of the character, or -1 when there is none. |
| Files.IndexOfLastSeparator | src/main/java/org/danielli/common/io/Files.java:121-128 | The last `/` or `\` in the name, or -1. |
| Files.IndexOfExtension | src/main/java/org/danielli/common/io/Files.java:112-119 | The last dot of the name, provided no separator follows it, or -1. |
| Files.RemoveExtension | src/main/java/org/danielli/common/io/Files.java:88-98 | The result is a prefix of the name. It is the whole name iff there is no extension, and otherwise stops at the extension's dot. |
| Files.GetExtension | src/main/java/org/danielli/common/io/Files.java:100-110 | The result is a suffix of the name: empty without an extension, otherwise everything after the dot. It contains no dot and no separator. |
| Files.ExtensionRoundTrip | src/main/java/org/danielli/common/io/Files.java:88-110 | The base name, a dot and the extension give the name back. |
| Files.JoinSplitsBack | src/main/java/org/danielli/common/io/Files.java:88-119 | A base, a dot and a clean extension split back into that base and that extension. |
| Files.IsExtension | src/main/java/org/danielli/common/io/Files.java:72-86 | `isExtension` is false for a null name. With no extensions listed, it holds iff the name has no extension; otherwise iff the name's extension equals a listed one. |
| Formatters.FrequenciesRank | src/main/java/org/danielli/logging/roll/pattern/format/DateFormatter.java:44-128 | The enum order of the frequencies, each at its own rank. |
| Formatters.FirstMatch | src/main/java/org/danielli/logging/roll/pattern/format/DateFormatter.java:141-148 | The first frequency whose letter the pattern contains, or none. |
| Formatters.FrequencyOf | src/main/java/org/danielli/logging/roll/pattern/format/DateFormatter.java:141-164 | `Frequency.of` answers the earliest frequency in enum order whose letter the pattern contains. It fails iff no letter is contained. |
| Formatters.FrequencyExamples | src/main/java/org/danielli/logging/roll/pattern/format/DateFormatter.java:46-90 | "yyyy-MM-dd" is daily, because minute and hourly come first and do not match; "mm" is minute. |
| Formatters.FrequencyMonthExamples | src/main/java/org/danielli/logging/roll/pattern/format/DateFormatter.java:106-147 | "MM" is monthly, and "ss" is refused. |
| Formatters.Interval | src/main/java/org/danielli/logging/roll/pattern/format/DateFormatter.java:136-139 | Without modulation the step is the increment. With modulation a zero increment fails (division by zero), and for positive operands the step reaches the next multiple of the increment. |
| Formatters.NextMultiple | src/main/java/org/danielli/logging/roll/pattern/format/DateFormatter.java:137 | `value + (inc - value % inc)` is the next multiple of `inc` above `value`, a step of 1 to `inc`. |
| Formatters.ModulatedIntervalIsLeast | src/main/java/org/danielli/logging/roll/pattern/format/DateFormatter.java:136-139 | The modulated step reaches no further than any multiple of the increment above the value. |
| Formatters.Digits | src/main/java/org/danielli/logging/roll/pattern/format/IndexFormatter.java:15 | The decimal digits of a number are at least one character, all digits. |
| Formatters.DigitsRoundTrip | src/main/java/org/danielli/logging/roll/pattern/format/IndexFormatter.java:15 | Reading back the digits written gives the number. |
| Formatters.DecimalRoundTrip | src/main/java/org/danielli/logging/roll/pattern/format/IndexFormatter.java:15 | Reading back the decimal form of any integer, sign included, gives the integer. |
| Formatters.FirstInteger | src/main/java/org/danielli/logging/roll/pattern/format/IndexFormatter.java:13-18 | The first `Integer` argument, or none when there is none. |
| Formatters.FirstDate | src/main/java/org/danielli/logging/roll/pattern/format/DateFormatter.java:36-41 | The first `Date` argument, or none when there is none. |
| Formatters.FirstIntegerAt | src/main/java/org/danielli/logging/roll/pattern/format/IndexFormatter.java:13-18 | An `Integer` argument with none before it is the one used. |
| Formatters.FirstDateAt | src/main/java/org/danielli/logging/roll/pattern/format/DateFormatter.java:36-41 | A `Date` argument with none before it is the one used. |
| Formatters.DefaultFormat | src/main/java/org/danielli/logging/roll/pattern/format/DefaultFormatter.java:17-20 | The source is kept, followed by the literal text. |
| Formatters.IndexFormat | src/main/java/org/danielli/logging/roll/pattern/format/IndexFormatter.java:11-19 | The loop appends the decimal form of the first integer argument, or nothing when there is none. |
| Formatters.DateFormat | src/main/java/org/danielli/logging/roll/pattern/format/DateFormatter.java:34-42 | The loop appends the rendering of the first date argument, or nothing when there is none. |
| Formatters.Format | src/main/java/org/danielli/logging/roll/pattern/format/DateFormatter.java:34-42 | Every formatter appends its own text to the source. |
| FilePatterns.SplitAll | src/main/java/org/danielli/logging/roll/pattern/FilePattern.java:43 | The pieces between dots, none of which contains a dot. |
| FilePatterns.JoinAppend | src/main/java/org/danielli/logging/roll/pattern/FilePattern.java:62-68 | Appending one more part puts a dot before it unless it is the first. |
| FilePatterns.JoinSplitAll | src/main/java/org/danielli/logging/roll/pattern/FilePattern.java:43 | Joining the pieces with dots restores the string. |
| FilePatterns.JoinHasNoDotWhenSingle | src/main/java/org/danielli/logging/roll/pattern/FilePattern.java:43 | A joined string ends with its last piece, and has no dot iff there is one piece. |
| FilePatterns.SplitAllJoin | src/main/java/org/danielli/logging/roll/pattern/FilePattern.java:43 | Splitting the join of dot-free pieces gives the pieces back. |
| FilePatterns.SplitAllAppend | src/main/java/org/danielli/logging/roll/pattern/FilePattern.java:43 | A dot-free piece after the last dot is split off as the last piece. |
| FilePatterns.DropTrailingEmpty | src/main/java/org/danielli/logging/roll/pattern/FilePattern.java:43 | The longest prefix that does not end with an empty piece. Only empty pieces are dropped. |
| FilePatterns.JavaSplit | src/main/java/org/danielli/logging/roll/pattern/FilePattern.java:43 | `split("\\.")` gives a string without a dot as its own single piece; otherwise the pieces with trailing empty ones removed. |
| FilePatterns.LineEnd | src/main/java/org/danielli/logging/roll/pattern/FilePattern.java:94 | The first line terminator at or after a position, where the regex `.` stops. |
| FilePatterns.GroupAtFacts | src/main/java/org/danielli/logging/roll/pattern/FilePattern.java:94-101 | Starting at a "%d{", the greedy group runs up to the last `}` before the line ends. With no such `}`, the match fails there. |
| FilePatterns.FindDateGroup | src/main/java/org/danielli/logging/roll/pattern/FilePattern.java:99-101 | `find` answers the group of the first position where the date regex matches, or nothing when it matches nowhere. |
| FilePatterns.ValueOf | src/main/java/org/danielli/logging/roll/pattern/FilePattern.java:98-107 | A segment where the date regex is found is a date formatter, failing iff its pattern has no frequency. Otherwise exactly "%index" is the index formatter, and anything else is a literal. |
| FilePatterns.ValueOfAll | src/main/java/org/danielli/logging/roll/pattern/FilePattern.java:45-52 | One formatter per segment, in order; the parse fails iff some segment fails. |
| FilePatterns.LastDateIndex | src/main/java/org/danielli/logging/roll/pattern/FilePattern.java:46-52 | The position of the last date segment, or -1. |
| FilePatterns.LastFrequency | src/main/java/org/danielli/logging/roll/pattern/FilePattern.java:46-54 | The loop leaves the frequency of the last date segment, and none iff there is no date segment. |
| FilePatterns.GunZipListed | src/main/java/org/danielli/logging/roll/pattern/FilePattern.java:26 | The gzip extension list holds exactly "gz" and "GZ". |
| FilePatterns.Parse | src/main/java/org/danielli/logging/roll/pattern/FilePattern.java:40-57 | The constructor's formatters are those of the split segments, and it fails iff a segment fails. Its frequency is the last date segment's. Its gzip flag holds iff the extension is "gz" or "GZ". |
| FilePatterns.Texts | src/main/java/org/danielli/logging/roll/pattern/FilePattern.java:62-68 | One piece of text per formatter, each the formatter's own text. |
| FilePatterns.FilePattern.constructor | src/main/java/org/danielli/logging/roll/pattern/FilePattern.java:37-57 | The parsed formatters, frequency and gzip flag are kept, and both file times start at 0. The frequency is the last date segment's, as every `Parse` result has it, so the class invariant holds from construction. |
| FilePatterns.FilePattern.Format | src/main/java/org/danielli/logging/roll/pattern/FilePattern.java:60-69 | `format` appends every segment's text, with a dot between consecutive segments. It uses the previous file time once one is set, else the clock. |
| FilePatterns.FilePattern.GetNextTime | src/main/java/org/danielli/logging/roll/pattern/FilePattern.java:72-77 | The previous file time takes the old next one. The calendar gives the new next file time and the returned rollover time. |
| FilePatterns.FilePattern.UpdateTime | src/main/java/org/danielli/logging/roll/pattern/FilePattern.java:83-85 | The previous file time catches up with the next one. |
| FilePatterns.FilePattern.ContainDate | src/main/java/org/danielli/logging/roll/pattern/FilePattern.java:79-81 | `containDate` holds iff some segment is a date segment. |
| FilePatterns.IndexPatternExample | src/main/java/org/danielli/logging/roll/pattern/FilePattern.java:40-69 | "test.%index.log.gz" parses into literal, index, literal and literal segments, is a gzip pattern, and names backup 3 "test.3.log.gz". |
| FilePatterns.ExampleSplit | src/main/java/org/danielli/logging/roll/pattern/FilePattern.java:43 | "test.%index.log.gz" splits into its four segments. |
| FilePatterns.ExampleSegments | src/main/java/org/danielli/logging/roll/pattern/FilePattern.java:98-107 | The four segments of the example become literal, index, literal and literal formatters. |
| FilePatterns.ExampleName | src/main/java/org/danielli/logging/roll/pattern/FilePattern.java:60-69 | The example's segments name backup 3 "test.3.log.gz". |
| FilePatterns.ExampleGunZip | src/main/java/org/danielli/logging/roll/pattern/FilePattern.java:55 | The example's extension is "gz". |
| Rollovers.ReplayMoves | src/main/java/org/danielli/logging/roll/DefaultRollover.java:174-184 | The reverse loop executes the collected renames from the last one collected, stopping at the first failure. |
| Rollovers.PurgeDescending | src/main/java/org/danielli/logging/roll/DefaultRollover.java:121-187 | `purgeDescending` answers `low`, or -1 when a delete or rename fails, with the disk its specification gives. |
| Rollovers.PurgeAscending | src/main/java/org/danielli/logging/roll/DefaultRollover.java:42-119 | `purgeAscending` behaves as its specification gives, with the answered index and the disk. |
| Rollovers.Rollover | src/main/java/org/danielli/logging/roll/DefaultRollover.java:190-214 | `rollover` behaves as its specification gives, with the description and the disk. |
| Rollovers.MovesUpLast | src/main/java/org/danielli/logging/roll/DefaultRollover.java:128-168 | The moves of backups `i..m-1` end with the move of `m-1` onto `m`. |
| Rollovers.ShiftUpKeeps | src/main/java/org/danielli/logging/roll/DefaultRollover.java:174-184 | Shifting the backups leaves every other file alone. |
| Rollovers.ShiftUpMoves | src/main/java/org/danielli/logging/roll/DefaultRollover.java:174-184 | Shifting moves the file of index `k` to index `k+1`. |
| Rollovers.ShiftUpFrees | src/main/java/org/danielli/logging/roll/DefaultRollover.java:174-184 | Shifting frees the lowest index. |
| Rollovers.ReplayShift | src/main/java/org/danielli/logging/roll/DefaultRollover.java:174-184 | Replaying the collected moves of existing, unlocked, non-empty backups succeeds and shifts them all one index up. |
| Rollovers.ScanDownPlan | src/main/java/org/danielli/logging/roll/DefaultRollover.java:128-172 | Without gzip, the collecting loop plans exactly the moves of the backups below the first missing index, and deletes the file at the top index if there is one. |
| Rollovers.DescendingShift | src/main/java/org/danielli/logging/roll/DefaultRollover.java:121-187 | Without gzip, a descending purge over existing backups answers `low`, frees `low`, moves every backup one index up, and leaves every other file alone. |
| Rollovers.ScanDownGzPlain | src/main/java/org/danielli/logging/roll/DefaultRollover.java:128-172 | With a ".gz" pattern, when no compressed backup has its uncompressed base beside it, the collecting loop plans exactly what it plans without gzip. |
| Rollovers.DescendingShiftGz | src/main/java/org/danielli/logging/roll/DefaultRollover.java:121-187 | With a ".gz" pattern and no uncompressed base beside the backups, the descending purge equals the one without gzip, so `DescendingShift` describes its answer and its disk. |
| Rollovers.ScanUpKeepsTop | src/main/java/org/danielli/logging/roll/DefaultRollover.java:50-105 | Once the file at `high` was seen, the index answered stays `high`. |
| Rollovers.ScanUpBelow | src/main/java/org/danielli/logging/roll/DefaultRollover.java:50-105 | Below a missing `high`, the index answered is one past the highest existing lower backup. |
| Rollovers.ScanUpHighSkipped | src/main/java/org/danielli/logging/roll/DefaultRollover.java:50-105 | When there is nothing to rename at `high`, the loop answers the raw top index. |
| Rollovers.ScanUpHighRenamed | src/main/java/org/danielli/logging/roll/DefaultRollover.java:50-105 | When a file at `high` is renamed or deleted, the loop answers the raw top index. |
| Rollovers.AscendingTop | src/main/java/org/danielli/logging/roll/DefaultRollover.java:42-119 | An ascending purge, with or without gzip, either fails with -1 or answers `high` when its file exists, else one past the highest existing backup, else `low`. Its effect on the disk is stated only by `PurgeAscending`'s equality with its specification function. |
| Rollovers.RolloverPlan | src/main/java/org/danielli/logging/roll/DefaultRollover.java:190-214 | `rollover` plans nothing iff `maxIndex` is negative or the purge fails. Otherwise it renames the live file to the purged index's name. With gzip the ".gz" is dropped from the target and a compression to the ".gz" name follows. |
| Actions.AbstractAction.constructor | src/main/java/org/danielli/logging/roll/action/AbstractAction.java:16-22 | A new action is neither complete nor interrupted. |
| Actions.AbstractAction.Run | src/main/java/org/danielli/logging/roll/action/AbstractAction.java:27-38 | `run` executes the action only if it was not interrupted. It then marks it complete and interrupted and reports a thrown error to the handler. |
| Actions.AbstractAction.Close | src/main/java/org/danielli/logging/roll/action/AbstractAction.java:40-43 | `close` interrupts the action and changes nothing else. |
| Actions.RunTwice | src/main/java/org/danielli/logging/roll/action/AbstractAction.java:27-38 | Running an action twice executes it at most once. |
| Actions.CloseThenRun | src/main/java/org/danielli/logging/roll/action/AbstractAction.java:27-43 | An action closed before running never executes. |
| Actions.FirstThrow | src/main/java/org/danielli/logging/roll/action/CompositeAction.java:36-65 | The first action that throws, or none iff no action throws. |
| Actions.StopOnError | src/main/java/org/danielli/logging/roll/action/CompositeAction.java:36-65 | With `stopOnError` the actions run in order until one fails or throws. The result is success iff every action succeeded; a failure or throw comes from the last action run. |
| Actions.Execute | src/main/java/org/danielli/logging/roll/action/CompositeAction.java:36-65 | The loop of `execute` has the outcome its specification gives. |
| Actions.CollectAllFacts | src/main/java/org/danielli/logging/roll/action/CompositeAction.java:36-65 | Without `stopOnError` every action runs. The composite throws iff some action throws, and then the first exception. Otherwise it succeeds iff all actions succeed. |
| Actions.RunComposite | src/main/java/org/danielli/logging/roll/action/CompositeAction.java:26-33 | `run` reports an error exactly when `execute` throws. |
| Triggers.SizeBasedTrigger.constructor | src/main/java/org/danielli/logging/roll/trigger/SizeBasedTrigger.java:19-22 | It keeps the maximum size and has no handler yet. |
| Triggers.SizeBasedTrigger.Initialize | src/main/java/org/danielli/logging/roll/trigger/SizeBasedTrigger.java:24-28 | It remembers the handler and its pattern. |
| Triggers.SizeBasedTrigger.IsTriggeringEvent | src/main/java/org/danielli/logging/roll/trigger/SizeBasedTrigger.java:30-36 | It fires iff the file is longer than the maximum. Firing updates the pattern's times; not firing changes nothing. |
| Triggers.TimeBasedTrigger.constructor | src/main/java/org/danielli/logging/roll/trigger/TimeBasedTrigger.java:22-26 | It keeps the interval and the modulation, with no handler yet. |
| Triggers.TimeBasedTrigger.Initialize | src/main/java/org/danielli/logging/roll/trigger/TimeBasedTrigger.java:28-37 | Two calendar steps from the file's creation time: the next rollover is the second answer, and both file times become its next file time. |
| Triggers.TimeBasedTrigger.IsTriggeringEvent | src/main/java/org/danielli/logging/roll/trigger/TimeBasedTrigger.java:39-49 | It never fires on an empty file; otherwise it fires iff the event is past the next rollover. Firing advances the rollover and the pattern's times; not firing changes nothing. |
| Triggers.Ask | src/main/java/org/danielli/logging/roll/trigger/CompositeTrigger.java:29-36 | Asking one component answers that component's decision, and a component that does not fire changes nothing. |
| Triggers.CompositeTrigger.constructor | src/main/java/org/danielli/logging/roll/trigger/CompositeTrigger.java:17-20 | It keeps the components in order. |
| Triggers.CompositeTrigger.Initialize | src/main/java/org/danielli/logging/roll/trigger/CompositeTrigger.java:22-27 | Every component is initialized with the same handler. |
| Triggers.CompositeTrigger.IsTriggeringEvent | src/main/java/org/danielli/logging/roll/trigger/CompositeTrigger.java:29-36 | It fires iff some component fires. The first that fires ends the round: components after it are not asked and keep their state. |
| Loggers.WriteCallsFacts | src/main/java/org/danielli/logging/support/DefaultLogger.java:28-37 | An empty event reaches the handler not at all. Any other event is written once with its own bytes, and flushed after iff the logger flushes immediately or the batch ends. |
| Loggers.DefaultLogger.constructor | src/main/java/org/danielli/logging/support/DefaultLogger.java:18-22 | It keeps the flush policy and the handler. |
| Loggers.DefaultLogger.WriteBatch | src/main/java/org/danielli/logging/support/DefaultLogger.java:28-37 | `write(event, endOfBatch)` makes exactly the write and flush calls above. |
| Loggers.DefaultLogger.Write | src/main/java/org/danielli/logging/support/DefaultLogger.java:23-26 | `write(event)` is the end of a batch. |
| Loggers.DefaultLogger.Close | src/main/java/org/danielli/logging/support/DefaultLogger.java:39-42 | `close` closes the handler. |
| Loggers.RollingLogger.constructor | src/main/java/org/danielli/logging/support/RollingLogger.java:14-17 | Creating the logger initializes the rolling handler. |
| Loggers.RollingLogger.WriteBatch | src/main/java/org/danielli/logging/support/RollingLogger.java:19-23 | The rollover check comes first, even for an empty event, then the default write. |
| Loggers.RollingLogger.Write | src/main/java/org/danielli/logging/support/RollingLogger.java:19-23 | `write(event)` is the rollover check and the write at the end of a batch. |
| Loggers.IsWrite | src/main/java/org/danielli/logging/support/FilterableLogger.java:29-36 | An event passes iff every filter accepts it. The filters are asked in order, and the first rejection ends the round. |
| Loggers.FilterableLogger.constructor | src/main/java/org/danielli/logging/support/FilterableLogger.java:17-21 | It keeps the wrapped logger and the filters. |
| Loggers.FilterableLogger.Write | src/main/java/org/danielli/logging/support/FilterableLogger.java:22-27 | An event reaches the wrapped logger iff every filter accepts it. |
| Loggers.FilterableLogger.WriteBatch | src/main/java/org/danielli/logging/support/FilterableLogger.java:38-43 | The same gate, with `endOfBatch` passed on. |
| Loggers.FilterableLogger.Close | src/main/java/org/danielli/logging/support/FilterableLogger.java:45-48 | `close` is always passed on. |
| Loggers.CounterAfterFailures | src/main/java/org/danielli/logging/support/AsyncLogger.java:116-122 | The failure counter is always a Java `int`. |
| Loggers.FailuresThenDiscard | src/main/java/org/danielli/logging/support/AsyncLogger.java:104-123 | With a positive `syncSize`, after a success the next `syncSize` failures in a row each wait for room. Every further failure is discarded. |
| Loggers.DefaultAddAction.constructor | src/main/java/org/danielli/logging/support/AsyncLogger.java:97-102 | The failure counter starts at 0. |
| Loggers.DefaultAddAction.AddEvent | src/main/java/org/danielli/logging/support/AsyncLogger.java:104-123 | A negative `syncSize` always blocks; zero tries once and discards on failure. A positive one resets the counter on success, and on failure blocks while the incremented counter is within `syncSize`, else discards. The flusher calls made are stated for each case. |
| Loggers.AsyncLogger.constructor | src/main/java/org/danielli/logging/support/AsyncLogger.java:25-35 | It keeps its output and its add policy. |
| Loggers.AsyncLogger.Write | src/main/java/org/danielli/logging/support/AsyncLogger.java:37-40 | `write(event)` goes through the add policy: the counter and decision are the policy's, and the flusher receives exactly `add(event)`, `tryAdd(event)`, or `tryAdd(event)` then `add(event)`, as the decision says. |
| Loggers.AsyncLogger.WriteBatch | src/main/java/org/danielli/logging/support/AsyncLogger.java:42-53 | The end of a batch is written straight to the wrapped logger and the counter is untouched. Anything else goes through the add policy, with exactly the flusher calls its decision names. |
| Loggers.AsyncLogger.Close | src/main/java/org/danielli/logging/support/AsyncLogger.java:55-59 | The flusher is shut down before the wrapped logger is closed. |

## Left out

- **Threads, locks, volatile reads and compare-and-set contention.** The model is sequential. What other threads do between two steps is given as input: the values read, interrupts, and the outcome of a `process` call.
- **Queues.ArrayUnblockingQueue.Put: the producer's waiting.** Only one pass of the blocking loop is modelled. A full buffer answers "waiting" instead of parking and retrying.
- **Queues: 64-bit overflow of the producer and consumer sequences.** The sequences are unbounded integers. Slot selection does model the 64-bit two's complement `&`.
- **Queues.ProcessorRecorder: the processor's behaviour.** Whether `process` throws is a fixed predicate of the element.
- **Queues.Waitor.ConditionWait: timing and the exceptions of `await`.** Elapsed time is the input `remaining`, and `interrupted` is the interrupt check made before parking. An `InterruptedException` thrown by `await` itself is not modelled.
- **Formatters and FilePatterns: the calendar and date rendering.**
  - `Calendar`, `SimpleDateFormat` and each frequency's `doGetNextTime` are not modelled.
  - They are the parameters `render` (a date pattern and time to text) and `nextTimes` (a frequency and time to the next rollover and file time).
  - `Interval` covers only the `increment` helper's arithmetic.
- **Clocks.** `Clock`, `CachedClock` and `SystemClock` are replaced by time values passed in.
- **Files: null inputs.** A null filename is modelled only in `isExtension`, where the code answers false. `removeExtension` and `getExtension` return null for a null name, and Dafny strings cannot be null.
- **Files: `compressFile` and `copyFile`.** These are byte-stream I/O.
- **Rollovers: the file operations.** `FileRenameAction` and `GunZipCompressAction` are modelled only as planned moves on a map from names to lengths. Directory creation and the copy fallback of a failed rename are left out.
- **Exceptions.** The ones modelled are result values (`Result`, `Outcome`, `StopResult`). Messages and stack traces are not. The three lines below list exceptions that are not modelled.
- Queues.ArrayUnblockingQueue.TryPut: a missing wait strategy is excluded by the precondition. The Java stores the element and then throws `NullPointerException` at `waitor.signal()`, which leaves a published slot that nobody is signalled about.
- Queues.ArrayUnblockingQueue.Put: the same `NullPointerException` after the store, for a missing wait strategy, is excluded in the same way.
- Batches.BatchForwarder.Add: a processor that throws is not modelled. The Java then skips `reset()`, so the list can grow past `batchSize`. The library's own batch listener catches every `Exception`.
- **Flushers, builders and the rolling file handler.** `InvokeFlusher`, `ParallelFlusher`, `DefaultRollingFileHandler` and `LoggerBuilder` are not part of this model. They appear only through the calls the modelled loggers make on them.
- **Loggers: `ExceptionHandler.handleEvent("discard", ...)`.** It is represented by the `Discarded` decision.
- **Loggers.AsyncLogger: `syncWrite`.** It is inlined as a recorded `write(event, true)` call.
- **Batches.BatchForwarder: sharing the forwarded list.** The Java list handed to the processor is shared with the forwarder until the reset; the model copies it.
- **FileHandlers.DefaultFileHandler.WriteRange: zero-size buffers.** It requires a positive buffer size whenever there is something to write. The Java loop would never end on a zero-size buffer.
- FileHandlers.DefaultFileHandler.constructor: the class opens the file in append mode, as intended, not as written. What the code as written leaves in the file is stated separately by `AsWrittenFile` and `AppendTruncates` (see Findings).
- Queues.ArrayUnblockingQueue.constructor: a negative `bufferSize` is excluded by its precondition. The Java throws `NegativeArraySizeException` when it allocates the slot array.
- Batches.BatchForwarder.constructor: a negative `batchSize` is excluded by its precondition. The Java throws `IllegalArgumentException` from the list allocation with that capacity.
- FileHandlers.DefaultFileHandler.constructor: a negative `bufferSize` is excluded by its `nat` type. The Java throws `IllegalArgumentException` from `ByteBuffer.allocate`.
- **FileHandlers: direct memory and exceptions.** Direct versus heap buffers are not distinguished. Channel exceptions are the `channelFails` predicate; failures when closing the channel are not modelled.
- **`IOs` helpers.** Not part of this model.

## Findings

| source | as written | input that shows it | evidently intended | confidence | as-written member | corrected member |
|---|---|---|---|---|---|---|
| src/main/java/org/danielli/common/concurrent/async/ArrayUnblockingQueue.java:143 | `stop(timeout)` drains sequences `get` up to `put - 1`. `get` is the last slot already consumed, and `put` is the last one published. | A ring of 4 slots. Element 1 was published at sequence 0 and consumed (`get` = 0); element 2 was published at sequence 1 (`put` = 1). The drain hands element 1 to `process` a second time and never processes element 2. | Drain `get + 1` up to `put`: the published elements not yet consumed. | not executed | Queues.ArrayUnblockingQueue.Stop, Queues.DrainRangeExample | Queues.ArrayUnblockingQueue.StopCorrected |
| src/main/java/org/danielli/logging/handler/support/DefaultFileHandler.java:48 | With `isAppend`, the channel comes from `new FileOutputStream(fileName)` without the append flag, which truncates the existing file. The handler still counts the old length and positions the channel after it. | An existing file `[7]` opened with `isAppend` = true, then written `[9]`. The handler counts 1 byte, the old byte is lost, and the file holds `[0, 9]`, not `[7, 9]`. | Open the stream in append mode, so the kept contents match the counted length. | not executed | FileHandlers.AppendTruncates, FileHandlers.AppendTruncatesExample | FileHandlers.KeptMatchesInitialSize |
