# SledgeMC event bus — a Dafny model

This project models the publish/subscribe core of the SledgeMC mod loader: the `EventBus`
that keeps, per event class, a priority-sorted list of subscriber handlers and dispatches
events to them, together with the value types it relies on (`Priority`, `Event` /
`CancellableEvent`) and the `Environment` enum with its `matches` predicate.

Layout, one module per source component:

- `priority.dfy` — module `Priorities`: the six priorities and their ranks.
- `environment.dfy` — module `Environments`: the three environments and `Matches`.
- `event.dfy` — module `Events`: class `Event` with a fixed `name`, a variant flag
  `cancellable` (false for a plain `Event`, true for a `CancellableEvent`) and the mutable
  `cancelled` flag; `SetCancelled` and `Cancel` return `IllegalState(...)` where Java throws
  `IllegalStateException`. A Java class is a `JavaClass` value (qualified name, simple name,
  abstract or not, and whether `Event` is assignable from it).
- `registry.dfy` — module `Registry`: the listener map as values. `SortByRank` is
  `List.sort` by rank (a stable insertion sort), `AddHandlers` is the loop of `register`
  over the declared methods, `Without` / `RemoveSubscriber` are `removeIf` over every list,
  `TotalCount` is the sum of the list lengths.
- `dispatch.dfy` — module `Dispatching`: `Dispatch` is the walk `post` makes over one
  list, defined one entry at a time, recording the flag, the positions run and the
  positions whose handler threw.
- `bus.dfy` — module `Bus`: class `EventBus` with `listeners: map<JavaClass, seq<Entry>>`
  and `registeredObjects: set<SubscriberId>`, whose methods update them in place and are
  proved against the functions above. `Valid()` holds between calls: every list is sorted
  by rank, every entry is listed under its handler's parameter class, and every entry
  belongs to a registered subscriber.

Reflection is replaced by explicit inputs: `Register` receives the subscriber's identity
and the sequence of its declared methods (`DeclaredMethod`: parameter types, the
`@Subscribe` annotation if present, and a body). A handler body is a sequence of
`Action`s — `SetCancelled(b)`, `Cancel`, `Throw` — run against the event's own
`SetCancelled` / `Cancel`; the first exception ends the body. `Post` returns the event
together with the positions of the entries it ran and of those whose exception it logged.

Two behaviours of the code are followed as written:

- Registration is not all-or-nothing. The subscriber joins the registered set before its
  methods are validated (`EventBus.java:31`), and handlers added before an invalid one stay
  (`EventBus.java:33-51`); re-registering the subscriber afterwards is a no-op.
- Validation only asks whether `Event` is assignable from the parameter type
  (`EventBus.java:39`), so a handler declared on `Event` itself or on an abstract event class
  is accepted; it never runs, because lookup uses the event's exact runtime class
  (`EventBus.java:65`).

The getters `getName`, `isCancellable`, `isCancelled` and the bus's `getName` are plain
field reads (`GetName`, `IsCancellable`, `IsCancelled`, `EventBus.GetName`).

## Model

| member | source | states |
|---|---|---|
| `Priorities.Priority.GetValue` | src/main/java/sledgemc/dev/event/Priority.java:7-22 | every rank lies in 0..5; rank 0 is LOWEST and only LOWEST, rank 5 is MONITOR and only MONITOR |
| `Priorities.FromValue` | src/main/java/sledgemc/dev/event/Priority.java:7-12 | every rank 0..5 is the rank of some priority |
| `Priorities.ValueInjective` | src/main/java/sledgemc/dev/event/Priority.java:7-12 | ranks are pairwise distinct, so ordering by rank is a total order on priorities |
| `Priorities.FromValueGetValue` | src/main/java/sledgemc/dev/event/Priority.java:14-22 | a priority is recovered from its rank |
| `Priorities.LowestFirstMonitorLast` | src/main/java/sledgemc/dev/event/Priority.java:3-12 | LOWEST has the least rank and MONITOR the greatest, so lower priorities run first |
| `Priorities.DeclaredOrder` | src/main/java/sledgemc/dev/event/Priority.java:7-12 | LOWEST < LOW < NORMAL < HIGH < HIGHEST < MONITOR by rank |
| `Environments.DualMatchesAll` | src/main/java/sledgemc/dev/api/Environment.java:11-13 | DUAL_MODE matches every environment |
| `Environments.MatchesReflexive` | src/main/java/sledgemc/dev/api/Environment.java:11-13 | every environment matches itself |
| `Environments.ClientServerExclusive` | src/main/java/sledgemc/dev/api/Environment.java:11-13 | CLIENT_MODE and SERVER_MODE do not match each other |
| `Environments.MatchesNotSymmetric` | src/main/java/sledgemc/dev/api/Environment.java:11-13 | DUAL_MODE matches CLIENT_MODE and SERVER_MODE but neither matches DUAL_MODE |
| `Environments.SingleEnvironmentMatchesOnlyItself` | src/main/java/sledgemc/dev/api/Environment.java:11-13 | a non-dual environment matches exactly itself |
| `Events.Event.Plain` | src/main/java/sledgemc/dev/event/Event.java:8-17 | a plain event keeps the name it is given, is not cancellable and starts not cancelled |
| `Events.Event.PlainDefault` | src/main/java/sledgemc/dev/event/Event.java:8-13 | without a name, the event is named after its class's simple name |
| `Events.Event.Cancellable` | src/main/java/sledgemc/dev/event/CancellableEvent.java:12-19 | a cancellable event keeps the given name, reports cancellable and starts not cancelled |
| `Events.Event.CancellableDefault` | src/main/java/sledgemc/dev/event/CancellableEvent.java:8-19 | the no-name constructor delegates to Event(), so the name is the class's simple name |
| `Events.Event.SetCancelled` | src/main/java/sledgemc/dev/event/Event.java:31-36 | on a cancellable event the flag becomes the value; otherwise IllegalStateException and the flag is unchanged |
| `Events.Event.Cancel` | src/main/java/sledgemc/dev/event/Event.java:38-40 | cancel is setCancelled(true), exception case included |
| `Events.CancelThenReset` | src/main/java/sledgemc/dev/event/CancellableEvent.java:16-19 | on a cancellable event cancel never throws, and setCancelled(false) afterwards resets the flag |
| `Events.CancelPlainEvent` | src/main/java/sledgemc/dev/event/Event.java:23-40 | cancel on a fresh plain event throws and the event stays not cancelled, with its name |
| `Registry.SortByRankSorted` | src/main/java/sledgemc/dev/event/EventBus.java:91-96 | sorting yields non-decreasing priority rank |
| `Registry.SortByRankPermutes` | src/main/java/sledgemc/dev/event/EventBus.java:91-96 | sorting is a permutation of the list |
| `Registry.SortByRankStable` | src/main/java/sledgemc/dev/event/EventBus.java:91-96 | entries of equal rank keep their relative order (List.sort is stable) |
| `Registry.SortByRankOfSorted` | src/main/java/sledgemc/dev/event/EventBus.java:91-96 | sorting a sorted list leaves it unchanged |
| `Registry.AppendThenSort` | src/main/java/sledgemc/dev/event/EventBus.java:50-51 | appending to a sorted list and sorting it is the same as inserting the entry by rank, after every entry of rank at most its own |
| `Registry.Accepted` | src/main/java/sledgemc/dev/event/EventBus.java:33-41 | every handler register keeps is annotated and valid |
| `Registry.FirstInvalid` | src/main/java/sledgemc/dev/event/EventBus.java:33-41 | a reported method is an annotated member of the list with a parameter count other than 1 or a non-event parameter, and none is reported exactly when every annotated method is valid |
| `Registry.FirstInvalidIndex` | src/main/java/sledgemc/dev/event/EventBus.java:33-41 | every annotated method before the returned index is valid, and the method at that index, unless it is the end of the list, is annotated and invalid |
| `Registry.ValidationStopsAtFirstInvalid` | src/main/java/sledgemc/dev/event/EventBus.java:33-51 | with n the index of the first annotated invalid method (or the length), register reports exactly the method at n, and keeps exactly the annotated methods before n, in declaration order |
| `Registry.AddHandlersOutcome` | src/main/java/sledgemc/dev/event/EventBus.java:33-41 | register raises IllegalArgumentException exactly when an annotated method is invalid, naming the first one |
| `Registry.AddHandlersSorted` | src/main/java/sledgemc/dev/event/EventBus.java:50-51 | after register every per-class list is sorted by rank |
| `Registry.AddHandlersStable` | src/main/java/sledgemc/dev/event/EventBus.java:33-51 | per class and rank, the new list is the old list followed by the new handlers in declaration order |
| `Registry.AddListenerStable` | src/main/java/sledgemc/dev/event/EventBus.java:50-51 | one add-and-sort appends the entry after the entries of equal rank of its class and touches no other class |
| `Registry.AddHandlersWellFormed` | src/main/java/sledgemc/dev/event/EventBus.java:38-50 | every added entry is valid, listed under its parameter class and owned by a registered subscriber |
| `Registry.AddHandlersCount` | src/main/java/sledgemc/dev/event/EventBus.java:33-51 | a fresh register raises the listener count by the number of accepted handlers, invalid-handler case included |
| `Registry.TotalCountUpdate` | src/main/java/sledgemc/dev/event/EventBus.java:87-89 | replacing one list changes the count by the difference of lengths |
| `Registry.SumLengthsPick` | src/main/java/sledgemc/dev/event/EventBus.java:87-89 | the sum over the lists does not depend on the order the map yields them |
| `Registry.AbstractHandlerNeverLookedUp` | src/main/java/sledgemc/dev/event/EventBus.java:64-67 | no entry on an abstract parameter class is in the list an event's concrete runtime class selects |
| `Registry.WithoutMembers` | src/main/java/sledgemc/dev/event/EventBus.java:59-61 | removeIf keeps exactly the entries of other subscribers |
| `Registry.WithoutKeepsOthers` | src/main/java/sledgemc/dev/event/EventBus.java:59-61 | for any set of subscribers without the removed one, their entries are untouched and keep their relative order, also across subscribers; none of the removed subscriber's remain |
| `Registry.WithoutSorted` | src/main/java/sledgemc/dev/event/EventBus.java:59-61 | removal keeps a list sorted |
| `Registry.WithoutAbsent` | src/main/java/sledgemc/dev/event/EventBus.java:59-61 | a list without the subscriber's entries is unchanged |
| `Registry.RemoveSubscriberWellFormed` | src/main/java/sledgemc/dev/event/EventBus.java:55-62 | after unregister no list holds an entry of that subscriber, and lists stay sorted and keyed |
| `Dispatching.RunBody` | src/main/java/sledgemc/dev/event/EventBus.java:73-78 | The handler throws exactly when its body contains a Throw or is non-empty on a non-cancellable event, and a non-cancellable event's flag is left unchanged. |
| `Dispatching.DispatchInOrder` | src/main/java/sledgemc/dev/event/EventBus.java:69-79 | entries run at most once each, in list order; every logged failure is an entry that ran |
| `Dispatching.DispatchSkipRule` | src/main/java/sledgemc/dev/event/EventBus.java:69-71 | an entry runs iff the event is not cancelled at that moment or the entry set receiveCancelled |
| `Dispatching.FailureDoesNotStopDispatch` | src/main/java/sledgemc/dev/event/EventBus.java:73-78 | after a handler throws, every later eligible entry still runs |
| `Dispatching.ReceiveCancelledAlwaysRuns` | src/main/java/sledgemc/dev/event/EventBus.java:69-71 | an entry with receiveCancelled always runs |
| `Dispatching.NonCancellableReachesAll` | src/main/java/sledgemc/dev/event/EventBus.java:69-79 | a plain event reaches every entry in order and stays not cancelled |
| `Dispatching.RunsInPriorityOrder` | src/main/java/sledgemc/dev/event/EventBus.java:69-79 | on a sorted list, entries run in non-decreasing priority rank |
| `Dispatching.InvokedAreListed` | src/main/java/sledgemc/dev/event/EventBus.java:64-69 | every entry run was declared for exactly the event's class and belongs to a registered subscriber |
| `Dispatching.CancellationScenario` | src/main/java/sledgemc/dev/event/EventBus.java:69-78 | a first handler that cancels, a second without receiveCancelled and a third with it: the second is skipped, the third runs and sees the event cancelled |
| `Dispatching.ThrowingHandlerScenario` | src/main/java/sledgemc/dev/event/EventBus.java:73-78 | a throwing first handler is logged and the second still runs |
| `Bus.Invoke` | src/main/java/sledgemc/dev/event/EventBus.java:73-78 | invoking a handler leaves the flag and the thrown status RunBody gives |
| `Bus.EventBus.constructor` | src/main/java/sledgemc/dev/event/EventBus.java:21-25 | a new bus has its name, no listeners and no registered subscribers |
| `Bus.EventBus.Default` | src/main/java/sledgemc/dev/event/EventBus.java:17-19 | the no-argument bus is named "default" |
| `Bus.EventBus.Register` | src/main/java/sledgemc/dev/event/EventBus.java:27-53 | a known subscriber changes nothing; otherwise it joins the set, the map becomes AddHandlers of the old map, the count grows by the accepted handlers and the outcome names the first invalid handler |
| `Bus.EventBus.AddHandler` | src/main/java/sledgemc/dev/event/EventBus.java:44-51 | one valid handler becomes an entry appended to its class's list, which is then re-sorted |
| `Bus.EventBus.Append` | src/main/java/sledgemc/dev/event/EventBus.java:50 | computeIfAbsent then add: the list of the class, or a new empty one, gains the entry at the end |
| `Bus.EventBus.SortListeners` | src/main/java/sledgemc/dev/event/EventBus.java:91-96 | the list of the class, if any, is replaced by its stable sort by rank |
| `Bus.EventBus.Unregister` | src/main/java/sledgemc/dev/event/EventBus.java:55-62 | an unknown subscriber changes nothing; otherwise it leaves the set and every list loses exactly its entries |
| `Bus.EventBus.RemoveFromAllLists` | src/main/java/sledgemc/dev/event/EventBus.java:59-61 | removeIf runs on every list of the map, keeping every key |
| `Bus.EventBus.Post` | src/main/java/sledgemc/dev/event/EventBus.java:64-81 | returns the same event; with no list for its exact class nothing runs and the flag is unchanged; otherwise the flag, the entries run and the logged failures are those of Dispatch |
| `Bus.EventBus.GetListenerCount` | src/main/java/sledgemc/dev/event/EventBus.java:87-89 | the count is the sum of the lengths of all lists |

## Left out

- Reflection (`getDeclaredMethods`, `getAnnotation`, `setAccessible`, `Method.invoke`): the declared methods, their annotations and the effect of their bodies are inputs; their order is the order `getDeclaredMethods` would give, which Java leaves unspecified.
- The `Subscribe` annotation's declaration is not part of this model, so its defaults are unknown; every annotation carries an explicit priority and receiveCancelled.
- Handler bodies only set or clear the event's flag and throw; a handler that posts, registers or unregisters on the same bus during dispatch is not modelled.
- Concurrency (`ConcurrentHashMap`, `CopyOnWriteArrayList`, the concurrent key set): the model is single-threaded; the snapshot a concurrent `post` iterates over is not modelled.
- Logging (`System.err.println`, `printStackTrace`): a logged failure is recorded as its position in `Post`'s `logged` output.
- `Class.getSimpleName()` is a field of `JavaClass`; the simple name is not derived from the qualified name.
- Class loaders: a `JavaClass` is told apart by its qualified name, so two classes of one name loaded by different loaders, which Java keeps apart as map keys, are one key here.
- Subscriber identity is an opaque number: `registeredObjects` uses `equals`/`hashCode` and removal uses `==`, and the model treats the two as the same relation.
- `isCancellable` overrides in user subclasses other than the two variants `Event` and `CancellableEvent` are not modelled.
- Null subscribers, null events and failures inside reflection itself (security or access errors) are not modelled.
- `Bus.EventBus.GetName`, `Events.Event.GetName`, `Events.Event.IsCancellable`, `Events.Event.IsCancelled`: plain field reads with no contract of their own.
- src/main/java/sledgemc/dev/api/SledgeAPI.java (the global singleton of paths, environment and mod table), src/main/java/sledgemc/dev/api/OnlyIn.java (an annotation declaration) and src/main/java/sledgemc/dev/api/SledgeInit.java (an entrypoint interface) are not part of this model: they hold the loader's global state and its entry points, outside the event bus.
