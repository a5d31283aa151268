# Channel lifecycle of the RabbitMQ consumer plugin, in Dafny

This project models the core of the Jenkins RabbitMQ consumer plugin. It has two parts.

- **`AbstractRMQChannel`**: the per-queue channel lifecycle state machine.
  - It holds a state (`DISCONNECTED`, `CONNECTED`, `CLOSE_PENDING`), an optional broker channel and a set of `RMQChannelListener`s.
  - The operations are `open`, `close`, `shutdownCompleted`, `isOpen` and listener add/remove.
  - The channel tells its listeners about `OPEN` and `CLOSE_COMPLETED` through `notifyRMQChannelListeners`.
- **`RabbitMQConsumer.getQueues`**: the status snapshot. It gives one `QueueState{name, appId, consumed}` per configured consume item.

Each operation is a pure step, `Rmq -> Step`.
- A `Step` holds the channel afterwards, the notifications made during the step (in order), and the exception that leaves the operation, if any.
- What the broker client returns is passed in as a parameter:
  - `createChannel` can return a channel, return null, or throw an IOException.
  - `Channel.close()` can succeed, throw an IOException whose cause is or is not a `ShutdownSignalException`, or throw something the handler does not catch.
  - The shutdown signal can be null, application-initiated, or not application-initiated.
- Each notification records what a listener sees of the channel while it is called back. The listener is handed `this`, so it sees the state and the channel handle at that moment. This makes the order of the notifications and the field assignments observable:
  - `OPEN` goes out while the state is still `DISCONNECTED`, and the new handle is already stored.
  - `CLOSE_COMPLETED` goes out after the state is `DISCONNECTED` but before the handle is cleared.
- The caller thread and the broker thread race in the real system. Here each operation is an atomic step, and an interleaving of the two threads is a sequence of steps (`Traces.Run`).
- A run takes a `Build`: `AsWritten` uses `shutdownCompleted` as the code has it, and `Corrected` uses the repaired callback from "## Findings". Every trace property is stated for both builds. Where the builds differ, it says what each one does.

Files:
- `wrappers.dfy`: `Option`.
- `rmq_types.dfy`: `RMQState`, `RMQChannelEvent`, the collaborator outcomes and exceptions.
- `listener_set.dfy`: the copy-on-write listener set and the fan-out.
- `rmq_channel.dfy`: the state machine.
- `traces.dfy`: operation sequences and the properties that hold across them.
- `consumer.dfy`: `getQueues`.

Three points where the plugin's documented design and its code differ. The model follows the code:
- **Listener order.** The design leaves the order in which listeners are called unspecified. The code's `CopyOnWriteArraySet` iterates in insertion order, so the listener set is a duplicate-free sequence in insertion order.
- **Shutdown after a failed close.** The design says a shutdown callback that arrives after a close has already failed changes nothing, since the handle is already null. The code does otherwise (`Traces.FailedCloseThenShutdown`):
  - With a null or application-initiated signal, the callback emits a second `CLOSE_COMPLETED`.
  - With a broker-initiated signal, the callback throws on the null channel and emits nothing (see "## Findings").
- **Handle invariant.** The design says the handle is non-null exactly when the channel is `CONNECTED` or `CLOSE_PENDING`. The code allows `CONNECTED` with a null handle (`Traces.OpenWithoutHandleReachable`). The invariant actually kept is `RmqChannel.Valid`: `DISCONNECTED` implies no handle, and `CLOSE_PENDING` implies a handle.

## Model

| member | source | states |
|---|---|---|
| RmqChannel.IsOpen | src/main/java/org/jenkinsci/plugins/rabbitmqconsumer/channels/AbstractRMQChannel.java:46-48 | true exactly when the state is CONNECTED; the handle plays no part |
| RmqChannel.Open | src/main/java/org/jenkinsci/plugins/rabbitmqconsumer/channels/AbstractRMQChannel.java:58-69 | from DISCONNECTED with a channel: CONNECTED, the channel is stored, and one OPEN is seen while still DISCONNECTED. With null: CONNECTED, no handle, no event. If createChannel throws: nothing changes and the IOException propagates. In any other state: a no-op. Keeps `Valid` |
| RmqChannel.Close | src/main/java/org/jenkinsci/plugins/rabbitmqconsumer/channels/AbstractRMQChannel.java:85-104 | a no-op unless CONNECTED with a channel. Success: CLOSE_PENDING, handle kept, no event. IOException with a non-shutdown cause: DISCONNECTED, handle cleared, exactly one CLOSE_COMPLETED (seen before the handle is cleared), rethrown. IOException with a shutdown-signal cause, or an uncaught exception: CLOSE_PENDING, handle kept, no event, rethrown. CLOSE_COMPLETED is emitted if and only if the non-shutdown IOException path is taken. Keeps `Valid` |
| RmqChannel.ShutdownCompleted | src/main/java/org/jenkinsci/plugins/rabbitmqconsumer/channels/AbstractRMQChannel.java:166-173 | from any state and for any signal: DISCONNECTED, no handle, exactly one CLOSE_COMPLETED (seen with the old handle), nothing thrown, listeners unchanged |
| RmqChannel.ShutdownCompletedAsWritten | src/main/java/org/jenkinsci/plugins/rabbitmqconsumer/channels/AbstractRMQChannel.java:166-173 | throws, and changes and emits nothing, exactly when the signal is non-null, not application-initiated, and there is no channel. Otherwise it behaves as `ShutdownCompleted` |
| RmqChannel.AddListener | src/main/java/org/jenkinsci/plugins/rabbitmqconsumer/channels/AbstractRMQChannel.java:111-113 | only the listener set changes; afterwards the set is the old one plus the listener; adding a present listener changes nothing |
| RmqChannel.RemoveListener | src/main/java/org/jenkinsci/plugins/rabbitmqconsumer/channels/AbstractRMQChannel.java:120-122 | only the listener set changes; afterwards the set is the old one minus the listener; removing an absent listener changes nothing |
| ListenerSet.Insert | src/main/java/org/jenkinsci/plugins/rabbitmqconsumer/channels/AbstractRMQChannel.java:111-113 | copy-on-write set add: the membership is the old membership plus the listener, duplicates are never created, a present listener leaves the set unchanged, a new one is appended after the others |
| ListenerSet.Delete | src/main/java/org/jenkinsci/plugins/rabbitmqconsumer/channels/AbstractRMQChannel.java:120-122 | copy-on-write set remove: the membership is the old membership minus the listener, an absent listener leaves the set unchanged, a present one shrinks the set by exactly one |
| ListenerSet.DeleteKeepsOrder | src/main/java/org/jenkinsci/plugins/rabbitmqconsumer/channels/AbstractRMQChannel.java:120-122 | removing a registered listener cuts it out at its own position; the listeners before and after it keep their order |
| ListenerSet.Notify | src/main/java/org/jenkinsci/plugins/rabbitmqconsumer/channels/AbstractRMQChannel.java:137-145 | one call per listener, in iteration order, each with the callback matching the event |
| ListenerSet.NotifyExactlyOnce | src/main/java/org/jenkinsci/plugins/rabbitmqconsumer/channels/AbstractRMQChannel.java:137-145 | a notification reaches each registered listener exactly once with the matching callback; it reaches no other listener and makes no other callback |
| ListenerSet.NotifyAllPerListener | src/main/java/org/jenkinsci/plugins/rabbitmqconsumer/channels/AbstractRMQChannel.java:137-159 | over several notifications, each registered listener gets as many calls of a callback as there were notifications of its event; unregistered listeners get none |
| Traces.RunPreservesValid | src/main/java/org/jenkinsci/plugins/rabbitmqconsumer/channels/AbstractRMQChannel.java:58-173 | for both builds, every sequence of open/close/shutdown/add/remove keeps `Valid`: DISCONNECTED means no handle, CLOSE_PENDING means a handle, and listeners are distinct |
| Traces.ReachableHandleInvariant | src/main/java/org/jenkinsci/plugins/rabbitmqconsumer/channels/AbstractRMQChannel.java:28-30 | for both builds, in every channel reachable from a fresh one, DISCONNECTED implies no handle, CLOSE_PENDING implies a handle, and no listener is registered twice |
| Traces.OpenWithoutHandleReachable | src/main/java/org/jenkinsci/plugins/rabbitmqconsumer/channels/AbstractRMQChannel.java:58-65 | the edge case is reachable in both builds: a fresh channel can be open (CONNECTED) with no handle |
| Traces.OpensBoundedByCloses | src/main/java/org/jenkinsci/plugins/rabbitmqconsumer/channels/AbstractRMQChannel.java:58-173 | for both builds and any run, OPENs never exceed CLOSE_COMPLETEDs by more than one pending open; from a fresh channel, OPEN is emitted at most once more than CLOSE_COMPLETED |
| Traces.OpenTwice | src/main/java/org/jenkinsci/plugins/rabbitmqconsumer/channels/AbstractRMQChannel.java:58-68 | in both builds, a second open right after a successful one changes nothing, emits no second OPEN and throws nothing |
| Traces.CleanCloseCompletesOnce | src/main/java/org/jenkinsci/plugins/rabbitmqconsumer/channels/AbstractRMQChannel.java:85-173 | in both builds, a successful close followed by the shutdown callback gives exactly one CLOSE_COMPLETED in total. Each registered listener gets onCloseCompleted exactly once. The channel ends DISCONNECTED with no handle and nothing is thrown |
| Traces.ShutdownSignalCloseCompletesOnce | src/main/java/org/jenkinsci/plugins/rabbitmqconsumer/channels/AbstractRMQChannel.java:85-173 | in both builds, a close that fails with a shutdown-signal cause, followed by the shutdown callback, gives exactly one CLOSE_COMPLETED and the one rethrown IOException |
| Traces.FailedCloseThenShutdown | src/main/java/org/jenkinsci/plugins/rabbitmqconsumer/channels/AbstractRMQChannel.java:85-173 | a close that fails with a non-shutdown cause, followed by the shutdown callback, ends DISCONNECTED with no handle. As written with a broker-initiated signal: one CLOSE_COMPLETED in total, plus the rethrown IOException and the callback's NullPointerException. Otherwise: two CLOSE_COMPLETED and only the rethrown IOException |
| Traces.LateListenerGetsNextNotice | src/main/java/org/jenkinsci/plugins/rabbitmqconsumer/channels/AbstractRMQChannel.java:111-145 | in both builds: from DISCONNECTED, an open emits OPEN, a new listener is added, and a failing close emits CLOSE_COMPLETED. The new listener gets no onOpen and exactly one onCloseCompleted |
| Traces.ShutdownAfterFailedCloseThrows | src/main/java/org/jenkinsci/plugins/rabbitmqconsumer/channels/AbstractRMQChannel.java:166-172 | the sequence open, then close failing with a non-shutdown cause, leaves a fresh channel DISCONNECTED with no handle. A broker-initiated shutdown callback then throws and notifies nobody in the code as written. The corrected callback finalizes and notifies once |
| Consumer.GetQueues | src/main/java/org/jenkinsci/plugins/rabbitmqconsumer/RabbitMQConsumer.java:74-83 | one entry per configured item, in configuration order. Each entry has the item's queue name and appId unchanged, and `consumed` equal to the directory status of that queue name |

## Left out

- Concurrency is not modelled. The real system has a copy-on-write set, unsynchronised fields and a caller thread racing the broker thread. Here each operation is atomic, and interleavings are sequences of operations.
- Listener callbacks are recorded as calls. A callback that re-enters the channel, or adds or removes listeners during a fan-out, is not modelled. The fan-out works on the listener sequence as it was when the notification started.
- A listener callback that throws is not modelled; every callback is taken to return normally. `notifyRMQChannelListeners` catches nothing, so in the code such an exception leaves the operation part-way, in one of these states:
  - In `shutdownCompleted`: DISCONNECTED with the channel still set.
  - In `open`: DISCONNECTED with the new channel set.
  - In `close`'s handler: the callback's exception replaces the IOException, and the channel is left set.
  - So `RmqChannel.Valid` is proved to hold only when callbacks return normally.
- Registering the channel as the handle's shutdown listener (`addShutdownListener`) is not modelled. A shutdown step may come between any two operations. A callback that arrives during an operation is not covered:
  - Inside `open`, between registering the listener (line 62) and setting CONNECTED (line 65). The code would then emit CLOSE_COMPLETED, then an OPEN seen as DISCONNECTED with no channel, and end CONNECTED with no channel.
  - Inside `channel.close()` (line 90).
- `Channel.close()` throwing a `TimeoutException` is not modelled separately. Any exception the IOException handler does not catch is one outcome, `CloseThrowsUnchecked`. Unchecked exceptions from `createChannel` are not modelled.
- `isOpenRMQChannel` and `getChannelNumber` are foreign calls into the broker client and are not modelled. `isOpenRMQChannel` would also throw on a null channel.
- `getChannel` is a plain field read. The model exposes the field as `Rmq.handle`.
- Logging (`LOGGER.warning`, `MessageFormat`) is not modelled. The shutdown signal only decides whether the as-written callback dereferences the channel.
- The plugin getters `isEnabled`, `isConnected`, `getServiceUri`, `getUserName` and `getApi` are not modelled. They pass through to the global configuration and to Jenkins/Stapler wiring.
- `RMQManager.getChannelStatus` is not part of this model. Its answer is the parameter `status: string -> bool` of `Consumer.GetQueues`, so its treatment of unknown queue names is not stated.
- Immutability of the configuration and of `QueueState` is not stated as a contract. Dafny values are immutable, so `GetQueues` cannot modify its input, and every call returns a new sequence.
- Broker connection setup and message consumption are not modelled.

## Findings

| source | as written | input that shows it | evidently intended | confidence | as-written member | corrected member |
|---|---|---|---|---|---|---|
| src/main/java/org/jenkinsci/plugins/rabbitmqconsumer/channels/AbstractRMQChannel.java:167-172 | for a non-null signal that is not application-initiated, the warning reads `channel.getChannelNumber()` before the state is updated, so a null channel throws NullPointerException, the channel is not finalized and no CLOSE_COMPLETED is sent | `open` with a channel, then `close` failing with an IOException whose cause is not a ShutdownSignalException (which clears the channel), then `shutdownCompleted` with a broker-initiated signal | log the warning without needing the channel, then finalize: DISCONNECTED, no handle, one CLOSE_COMPLETED | medium, not executed | RmqChannel.ShutdownCompletedAsWritten, Traces.ShutdownAfterFailedCloseThrows | RmqChannel.ShutdownCompleted |
