# Relay stage of the Service Bus transaction performance test

This project models the relay stage of a chained, transactional message
pipeline built on Azure Service Bus. Each stage receives messages from a
source queue under peek-lock. A stage with a destination completes the inbound
message and sends a copy of its body to the next queue inside one transaction
scope. The last stage only completes. After a message is settled, the stage
records its latency in a window of the latest 200 samples and increments a
throughput counter. A reporting loop reads the counter (read-and-reset) and
the maximum and average latency of the window.

The repository holds this stage twice, almost line for line:
`Consumer` (src/Service-Bus-Transactions/Consumer.cs), the class the pipeline
instantiates, and `Receiver` (src/Service-Bus-Transactions/Receiver.cs). One
Dafny class, `Relay.Consumer`, models both. Their lines correspond as follows:
construction 20-26 / 22-28, `Start` 28-57 / 30-58 (only `Consumer` keeps the
source queue name in a field), the message handler 59-103 / 60-100, the
counter read 105-108 / 106-109, the maximum 110-124 / 115-129 and the average
125-136 / 134-145. The table below cites one of the two files per row.

Files:

- `wrappers.dfy`: `Option`, for the nullable sender and client fields.
- `metrics.dfy` (module `Metrics`): the latency window as a sequence of
  integer ticks, the recording step (enqueue, then dequeue when over 200),
  and the maximum and average read-outs, with the lemmas about them. `Latest`
  is the reference definition of the window: the last 200 samples ever
  recorded.
- `broker.dfy` (module `Broker`): an abstract broker seen from one hop. It
  holds the multiset of messages leased to the stage at its source and the
  destination queue as a sequence. `Replies` says how the broker answers the
  complete, send and commit operations; a `false` answer is the exception the
  SDK would throw at that step: one of the two awaits, or the scope's
  disposal for the commit. `Settle` is the settlement step. With a
  sender, completion and send are enlisted in a `Scope` that is applied only
  on commit. Without a sender, the stage only completes.
- `relay.dfy` (module `Relay`): the class `Consumer` with the stage's fields.
  `ProcessMessage` is the message handler; it updates the window and the
  counter in place. A ghost `history` of every recorded sample and a ghost
  `reported` count tie the fields to their meaning in `Valid()`.

The broker is a value passed into and returned from `ProcessMessage`; the
stopwatch reading is a parameter (`elapsed`).

`Start` does not check the source name itself, and transactions cannot be switched off at
run time: `EnableTransactions` is a constant `true` (Consumer.cs:14,
Receiver.cs:16). `Start` looks up the broker client registered in the client
factory under the source's name (Program.cs:16-24). Queue names are Dafny
strings, which cannot be null: `string.IsNullOrEmpty` also makes a null
destination terminal, and the model covers the empty one.

## Model

| member | source | states |
|---|---|---|
| `Metrics.Record` | src/Service-Bus-Transactions/Consumer.cs:95-100 | Recording a latency appends the sample at the end. Below 200 samples it only appends. At 200 or more it drops exactly the oldest sample. A window of at most 200 stays at most 200. |
| `Metrics.RecordKeepsLatest` | src/Service-Bus-Transactions/Receiver.cs:92-97 | Recording into the window of a history gives the window of the history extended by the sample: the queue holds exactly the latest 200 samples. |
| `Metrics.RecordAllKeepsLatest` | src/Service-Bus-Transactions/Receiver.cs:94-96 | After any run of successful messages, the window is the latest 200 samples of the whole run (FIFO eviction). |
| `Metrics.EvictsOldestAfterOverflow` | src/Service-Bus-Transactions/Receiver.cs:95-96 | From an empty window, 201 sequential recordings leave every sample but the first, in order. |
| `Metrics.RecordAllBounded` | src/Service-Bus-Transactions/Consumer.cs:97-99 | However many samples are recorded, the window never holds more than 200. |
| `Metrics.MaxOf` | src/Service-Bus-Transactions/Receiver.cs:115-129 | The maximum is 0 for an empty window. Otherwise it is one of the samples and no sample exceeds it. |
| `Metrics.RoundHalfEven` | src/Service-Bus-Transactions/Consumer.cs:135 | Converting the mean to whole ticks gives the nearest integer, within half a tick of the exact quotient, and the even one on a tie. |
| `Metrics.Average` | src/Service-Bus-Transactions/Receiver.cs:134-145 | The average is 0 for an empty window. Otherwise it is within half a tick of the exact mean and lies between the smallest and the largest sample. |
| `Metrics.MeanWithinRange` | src/Service-Bus-Transactions/Consumer.cs:133-135 | A whole number within half a tick of the mean of a non-empty window lies between its smallest and largest sample. |
| `Broker.Settle` | src/Service-Bus-Transactions/Consumer.cs:70-93 | The outbound message is built by `Forward`: it carries the inbound body and no other property (the partition keys are not copied). A message settles exactly when completion succeeds and, with a sender, the send and the commit do too. A failure names the step that threw, and the hop is left as it was: the message is still among `leased` when the handler exits. On success the message leaves the lease. With a sender, a copy carrying the inbound body text is appended to the destination. Without a sender, the destination is never touched. |
| `Broker.ForwardingConservesMessages` | src/Service-Bus-Transactions/Receiver.cs:76-86 | With a sender, whatever the broker answers, leased plus forwarded messages are as many after the attempt as before. So are the copies of the handled message: none is lost or duplicated across the hop. |
| `Broker.TerminalRemovesOneCopy` | src/Service-Bus-Transactions/Receiver.cs:87-90 | Without a sender, a settled message removes exactly one leased message, a failed one removes none, and the destination is unchanged. |
| `Relay.Consumer.constructor` | src/Service-Bus-Transactions/Consumer.cs:16-26 | A new stage has no client or sender, an empty window and a zero counter. |
| `Relay.Consumer.Start` | src/Service-Bus-Transactions/Consumer.cs:28-35 | The client is looked up under the source's name and the processor is bound to the source. A sender exists exactly when the destination is non-empty, so the stage is terminal exactly when the destination is empty. Metrics are untouched. |
| `Relay.Consumer.ProcessMessage` | src/Service-Bus-Transactions/Consumer.cs:59-103 | The broker effect is that of `Settle` for the stage's sender presence. A settled message adds exactly one sample (FIFO, window at most 200) and exactly +1 to the counter. A failed one leaves window and counter unchanged. The window stays the latest 200 samples and the counter stays the unreported settled messages. |
| `Relay.Consumer.GetMessagesProcessed` | src/Service-Bus-Transactions/Consumer.cs:105-108 | Returns the number of messages settled since the previous read and resets the counter to 0. The window is unchanged. |
| `Relay.Consumer.GetMaxMessageTime` | src/Service-Bus-Transactions/Consumer.cs:110-124 | 0 on an empty window, otherwise a sample that no sample exceeds. It is a read-only function of the window. |
| `Relay.Consumer.GetAverageMessageTime` | src/Service-Bus-Transactions/Consumer.cs:125-136 | 0 on an empty window. Otherwise it is the mean rounded to within half a tick, and it lies between the smallest and largest sample. It is a read-only function of the window. |
| `Relay.ReadCounterTwice` | src/Service-Bus-Transactions/Receiver.cs:102-109 | Two reads of the counter in immediate succession return the count, then 0. |
| `Relay.SettleThenRead` | src/Service-Bus-Transactions/Receiver.cs:76-109 | After a reset, a message whose complete, send or commit fails reads as 0 on the counter and leaves the broker unchanged. A settled one reads as 1. |

## Left out

- Concurrency: `lock (this)`, `Interlocked.Increment` and `Interlocked.Exchange`, and the unlocked `Count == 0` pre-check before the lock. Every operation is one sequential, atomic method.
- Broker and transaction internals: processor options (`MaxConcurrentCalls` 20, `PrefetchCount` 50), lock renewal, the processor's abandonment of a message the handler left unsettled, redelivery, dead-lettering, and `TransactionScope`. A scope is "apply every enlisted effect on commit, none otherwise"; broker failures are the `Replies` parameter.
- The non-transactional path (`EnableTransactions` false): it is a compile-time constant `true` in both files, so that branch never runs.
- Creating the sender and the processor and starting processing in `Start`: these talk to the broker. The model keeps the queue names the client, processor and sender are bound to.
- `Relay.Consumer.Start`: the client factory lookup `CreateClient(source)` throws for a name that was never registered (only "1", "2", "3" and the unnamed default are, Program.cs:16-26); that failure is not modelled, and `Start` always succeeds.
- `Processor_ProcessErrorAsync` and the trace logging of the body: logging only.
- Timing: `Stopwatch` readings are the `elapsed` parameter, in integer ticks.
- `Relay.Consumer.ProcessMessage`: the counter is an unbounded `nat`; the 64-bit wrap-around of `Interlocked.Increment` after 2^63 - 1 messages is not modelled.
- `Metrics.Average`: the mean is rounded exactly from the rational quotient. The `double` arithmetic of `Average` is not modelled; its rounding error can change the result for means above about 2^44 ticks.
- `Broker.Settle`: payloads are text. The handler decodes the inbound body as UTF-8 and re-encodes it for the outbound message (Consumer.cs:61,70), so a payload that is not valid UTF-8 is forwarded with replacement characters, not byte for byte; that lossy round trip is not modelled.
- The unused `Random` field of both classes.
- src/Service-Bus-Transactions/ReceivingWorker.cs (queue provisioning, the fixed 1 → 2 → 3 chain, the one-second reporting loop), src/Service-Bus-Transactions/SendingWorker.cs (load generator) and src/Service-Bus-Transactions/Program.cs (host bootstrap): hosting and network I/O, not part of this model.
