# Handler rotation in DotNetHttpClientFactory, modelled in Dafny

DotNetHttpClientFactory hands out `HttpClient`s whose `HttpClientHandler` is
replaced periodically, so that long-running processes pick up DNS changes.
Each factory keeps a `ConcurrentQueue` of handlers. Construction seeds it with
one handler. Every timer tick enqueues a freshly built handler, dequeues the
oldest one and disposes it after a two-minute grace delay. `GetClient` peeks
at the head of the queue and wraps it in a client that does not own the
handler. There are two copies of this logic: the instance factory
`HttpClientFactory`, with optional client and handler configuration
callbacks, and the process-wide `HttpClientFactoryStatic`, which has no
callbacks.

The model has four modules:

- `Rotation` (rotation.dfy) holds the state machine as pure functions on a
  `State`: the handler queue, the retired handlers whose grace delay is
  running (`pending`), the disposed handlers, the next handler id, and how
  many times the handler callback ran on each handler. It defines each step
  (`Build`, `Register`, `Seed`, `Tick`, `Release`, `GetClient`,
  `StaticGetClient`), the invariant `Inv`, and runs over sequences of ticks
  and grace expiries (`Run`). The lemmas about these are stated here.
- `HandlerQueues` (handler_queue.dfy) holds `HandlerQueue`, the FIFO queue
  with `Enqueue`, `TryDequeue` and `TryPeek`. It stands for the .NET
  `ConcurrentQueue` and is used sequentially.
- `Factory` (http_client_factory.dfy) holds the class `HttpClientFactory`.
  Its methods follow the C# method by method and are proved against the
  `Rotation` functions (`Snapshot()` is the abstract state).
- `StaticFactory` (http_client_factory_static.dfy) holds the class
  `HttpClientFactoryStatic`. The static state of the C# class becomes one
  object; its constructor plays the static initialiser.

Every timer tick, every grace expiry and every `GetClient` call is one atomic
step. Handlers are opaque ids, numbered in creation order. A client is the id
of its handler, its `disposeHandler` flag and the number of times the client
callback ran on it. A callback is modelled by whether it was supplied
(non-null). For the handler callback, the model also takes whether it raises
on a given call, as a parameter of the tick.

Three facts about the C# code shape the model:

- The retired handler leaves the queue at once: a tick's `Enqueue`
  (HttpClientFactory.cs:79) is followed directly by its `TryDequeue`
  (line 81), and only the pending `Task.Delay` (line 84) keeps the retired
  handler alive. The queue holds two handlers only between those two calls,
  and exactly one at every point between steps (`Rotation.Inv`).
- A peek between a tick's `Enqueue` and its `TryDequeue` returns the old
  handler (`Rotation.EnqueueBeforeDequeue`); after the tick the head is the
  new handler (`Rotation.TickRotates`).
- `InitializeJob` subscribes `TimerOnElapsed` to the already-running timer
  (HttpClientFactory.cs:15, 63 and 74) before `RegisterHandler` builds the
  seed handler (line 64). If the handler callback raises there, the
  constructor raises, but the object stays subscribed with an empty queue.
  Each later tick of that object builds a handler, runs the callback on it,
  and retires that same handler at once (`Rotation.EmptyQueueTickRetiresOwnHandler`).

## Model

| member | source | states |
|---|---|---|
| `Rotation.SeedIsValid` | DotNetHttpClientFactory/HttpClientFactory.cs:61-70 | construction leaves exactly one freshly built handler (id 0) in the queue, with nothing pending or disposed; the handler callback ran on it once if one was supplied and never otherwise; the invariant holds |
| `Rotation.TickNeverMissesHandler` | DotNetHttpClientFactory/HttpClientFactory.cs:79-82 | in every state, the "Handler not found in queue" error is unreachable, because the enqueue just before the dequeue makes the queue non-empty |
| `Rotation.TickBuildFailureKeepsState` | DotNetHttpClientFactory/HttpClientFactory.cs:107-116 | if the handler callback raises, the tick ends before the enqueue: the whole state is unchanged and `GetClient` serves the same handler as before |
| `Rotation.EnqueueBeforeDequeue` | DotNetHttpClientFactory/HttpClientFactory.cs:79-81 | from a queue `[h]`, the tick passes through `[h, new]`, a peek in that window still gets `h`, and the tick ends with that queue minus its head |
| `Rotation.TickRotates` | DotNetHttpClientFactory/HttpClientFactory.cs:77-87 | from a valid state, a successful tick retires the previous head, leaves exactly `[new]` queued, appends the retired handler to the pending releases and disposes nothing; old and new handlers differ, and the next client is bound to the new handler |
| `Rotation.TickPreservesInv` | DotNetHttpClientFactory/HttpClientFactory.cs:77-87 | every tick outcome, successful or failed, preserves the invariant: one queued handler, which is the newest; every older handler is pending or disposed, not both; callbacks applied exactly once |
| `Rotation.ReleaseDisposesOnlyRetired` | DotNetHttpClientFactory/HttpClientFactory.cs:84-86 | a grace expiry disposes exactly the oldest pending handler; that handler was not disposed before, leaves the pending list, and is not the current handler; the queue is untouched; with no pending delay nothing is disposed |
| `Rotation.ReleasePreservesInv` | DotNetHttpClientFactory/HttpClientFactory.cs:84-86 | a grace expiry preserves the invariant |
| `Rotation.EmptyQueueTickRetiresOwnHandler` | DotNetHttpClientFactory/HttpClientFactory.cs:61-87 | on a factory left with an empty queue by a raising seed callback, each successful tick builds a handler and runs the callback on it, then dequeues and retires that same handler, so the queue stays empty |
| `Rotation.RotationChangesServedHandler` | DotNetHttpClientFactory/HttpClientFactory.cs:79-101 | after a successful tick from a valid state, `GetClient` serves a different handler than before; the handler served before is now pending its grace delay, not disposed |
| `Rotation.VariantsAgree` | DotNetHttpClientFactory/HttpClientFactoryStatic.cs:57-62 | from the same state both variants serve the same handler: the static request succeeds exactly when the instance request's peek succeeds, both clients are non-owning, and only the instance client is configured |
| `Rotation.ValidStateServesCurrent` | DotNetHttpClientFactory/HttpClientFactory.cs:95-102 | in a valid state the peek always finds a handler: the instance request fails exactly when a supplied client callback raises, and otherwise serves the newest, undisposed handler; the static request always succeeds |
| `Rotation.RunPreservesInv` | DotNetHttpClientFactory/HttpClientFactory.cs:77-87 | the invariant survives any sequence of ticks (successful or failing) and grace expiries |
| `Rotation.NoGap` | DotNetHttpClientFactory/HttpClientFactory.cs:93-102 | after construction and any sequence of ticks and grace expiries, the queue holds exactly one handler; `GetClient` fails only when the client callback raises, and otherwise succeeds with a handler that is not disposed |
| `Rotation.InvAccounted` | DotNetHttpClientFactory/HttpClientFactory.cs:77-87 | in every valid state, pending plus disposed handlers plus the current one equals the number of handlers built: each built handler is in exactly one of the three |
| `Rotation.HandlersConfiguredOnce` | DotNetHttpClientFactory/HttpClientFactory.cs:107-116 | every handler a factory ever built, seed and tick handler alike, had the handler callback applied exactly once when supplied and never otherwise |
| `Rotation.OnlyRetiredDisposed` | DotNetHttpClientFactory/HttpClientFactory.cs:81-86 | across any run, a disposed handler is a handler that was built, is not in the queue and is no longer pending: only retired handlers are disposed, and each only once its grace delay is over |
| `Rotation.RunAccounting` | DotNetHttpClientFactory/HttpClientFactory.cs:77-87 | over any run from any valid state: each successful tick builds exactly one handler; each grace expiry disposes at most one; every handler built is exactly one of current, pending or disposed (the counts add up) |
| `Rotation.HandlersBuiltPerTick` | DotNetHttpClientFactory/HttpClientFactory.cs:79-86 | from construction: handlers built = 1 + successful ticks; disposed handlers <= grace expiries; pending plus disposed handlers = successful ticks, so every tick retires exactly one handler |
| `Factory.HttpClientFactory.constructor` | DotNetHttpClientFactory/HttpClientFactory.cs:53-70 | with a non-raising seed build the state is the seed state and valid; if the handler callback raises, the object left subscribed to its timer has the empty state; its queue is its own fresh object, and the name and both callbacks are recorded |
| `Factory.HttpClientFactory.RegisterHandler` | DotNetHttpClientFactory/HttpClientFactory.cs:67-70 | the new state is the old state with one freshly built handler enqueued at the tail; if the handler callback raises, nothing is enqueued and the state is unchanged |
| `Factory.HttpClientFactory.GetHandler` | DotNetHttpClientFactory/HttpClientFactory.cs:107-116 | yields a handler exactly when no supplied callback raises; the handler has the next id and its callback count is 1 if a callback was supplied, else 0; a raising callback changes nothing |
| `Factory.HttpClientFactory.TimerOnElapsed` | DotNetHttpClientFactory/HttpClientFactory.cs:77-87 | the new state and outcome are `Rotation.Tick` of the old state; the missing-handler error is never returned; the invariant is preserved; from a valid state a successful tick retires the old head and leaves exactly the new handler queued |
| `Factory.HttpClientFactory.GraceElapsed` | DotNetHttpClientFactory/HttpClientFactory.cs:84-86 | the new state is `Rotation.Release` of the old state; the invariant is preserved; a released handler was not disposed before and is not the current handler |
| `Factory.HttpClientFactory.GetClient` | DotNetHttpClientFactory/HttpClientFactory.cs:93-105 | peeks without changing any state; fails exactly when the queue is empty or a supplied client callback raises; otherwise returns a non-owning client for the head, with the callback applied once; on a valid factory it fails only through the callback, and the handler is the newest and undisposed |
| `Factory.TickOneOfTwo` | DotNetHttpClientFactory/HttpClientFactory.cs:14 | two factories with their own queues rotate independently: a tick of one leaves the other's whole state as it was |
| `StaticFactory.HttpClientFactoryStatic.constructor` | DotNetHttpClientFactory/HttpClientFactoryStatic.cs:20-34 | static initialisation leaves the seed state with one unconfigured handler, and the invariant holds |
| `StaticFactory.HttpClientFactoryStatic.RegisterHandler` | DotNetHttpClientFactory/HttpClientFactoryStatic.cs:31-34 | the new state is the old state with one plain handler enqueued |
| `StaticFactory.HttpClientFactoryStatic.NewHandler` | DotNetHttpClientFactory/HttpClientFactoryStatic.cs:33 | a plain handler cannot fail to build, gets the next id, and has no callback applied (count 0) |
| `StaticFactory.HttpClientFactoryStatic.TimerOnElapsed` | DotNetHttpClientFactory/HttpClientFactoryStatic.cs:41-51 | the new state and outcome are `Rotation.Tick` with no callback; the dequeue-failure error is never returned; from a valid state the old head is retired and exactly the new handler is queued |
| `StaticFactory.HttpClientFactoryStatic.GraceElapsed` | DotNetHttpClientFactory/HttpClientFactoryStatic.cs:48-50 | the new state is `Rotation.Release` of the old state; the invariant is preserved; a released handler was not disposed before and is not the current handler |
| `StaticFactory.HttpClientFactoryStatic.GetClient` | DotNetHttpClientFactory/HttpClientFactoryStatic.cs:57-62 | peeks without changing any state and returns an unconfigured, non-owning client bound to the head; fails (null handler) exactly when the queue is empty, which a valid factory's never is |

## Left out

- The `System.Timers.Timer` (2-minute interval, `AutoReset`) and its subscription in `SetupCleanUpJob` are not modelled. A tick is an explicit call of `TimerOnElapsed`.
- The `Task.Delay` grace wait and its duration are not modelled. Each wait is an entry in `pending`, ended by a separate `GraceElapsed` step. The waits have equal lengths and start in retirement order, so they end oldest first.
- Concurrency is not modelled: `async void` execution, overlapping ticks, `GetClient` running during a tick, and the thread safety of `ConcurrentQueue`. Every step is atomic. The transient queue between a tick's enqueue and its dequeue is exposed only through `Rotation.Enqueue`.
- The fate of an exception raised in `TimerOnElapsed` is not modelled. Such an exception escapes an `async void` method, which in .NET may end the process. The model records only that the tick stopped (`BuildFailed`) and that the state is unchanged.
- A handler built by a callback that then raises is never enqueued and never disposed. The model forgets it, so it gets no id.
- `Factory.HttpClientFactory.constructor`: a Dafny constructor cannot raise, so when the seed callback raises it returns the object the C# constructor leaves behind. The C# caller never receives that object, but its running timer keeps it alive. The model states this object's state and its later ticks; it does not model the timer's reference to it.
- The three C# constructors are one Dafny constructor that takes the name, whether each callback was supplied, and whether the handler callback raises on the seed handler.
- The fate of an exception raised by the client callback in `GetClient` is left to the caller; the model returns `Failure(ClientActionFailed)`, and the client that was built is not returned.
- `FactoryName` is stored but has no logic; selecting a factory by name belongs to the callers.
- `HttpClient` and `HttpClientHandler` internals (DNS, connection pooling, sending requests) are not modelled. Handlers are ids, and clients are records of their handler. The only `HttpClient` behaviour modelled is that its constructor rejects a null handler, which is what the static `GetClient` meets on an empty queue.
- The bodies of the user callbacks are not modelled; only the number of times each callback runs is counted.
- The static class's `_handlerAction` and `_clientAction` are never invoked and are not fields of the model. `StaticFactory.HttpClientFactoryStatic.NewHandler` and the static `GetClient` state that no callback runs.
- Teardown is not modelled, because neither class has any. The static variant's one-instance lifetime is not enforced; the model has one object per static initialisation.
- `IHttpClientFactory` (an interface signature) and the console demo `Program.cs` are not part of this model.
