# Domain.Design.Foundations in Dafny: identity kernel and domain-event observers

This project models the core of the Domain.Design.Foundations library and
proves properties of that model. Two parts are modelled:

- **The identity kernel.**
  - `Value` defines structural equality: an instance is identified by its
    runtime type and its ordered component values.
  - `Entity<T>` is a Value identified by its Id.
  - `Enumeration<T>` is a Value identified by Id and Name. Its instances can
    be looked up among the instances a type registers.
- **The domain-event pipeline.**
  - An entity keeps a list of observers. It publishes events and errors to
    them in list order.
  - Subscribing returns a `DomainSubscription` handle. Disposing the handle
    unsubscribes.
  - A `DomainEventObserverManager` starts one observer per `StartListening`
    call:
    - an Immediate observer runs the manager's `ExecuteEvent` delegate at once;
    - a Deferred observer queues events and runs them when the manager is
      disposed.

Files:

| file | module | contents |
|---|---|---|
| `Domain.dfy` | `Domain` | Events, errors, and the `Option`, `Result` and `Outcome` wrappers. |
| `Sequences.dfy` | `Sequences` | List operations the collections use: `List.Remove`, `Where`, duplicate-freedom. |
| `Values.dfy` | `Values` | `Value.Equals`, both as written and as intended. Also `GetHashCode` and the `==`/`!=` operators. |
| `Enumerations.dfy` | `Enumerations` | The Enumeration constructor, `GetAll`, `FromId`, `FromName` and `Parse`. |
| `Observation.dfy` | `Observation` | The classes `Entity`, `DomainSubscription` and `DomainEventObserver`, plus the processing delegate `EventHook`. |
| `ObserverManager.dfy` | `ObserverManagement` | The class `DomainEventObserverManager`. |
| `Scenarios.dfy` | `Scenarios` | Whole-system runs mirroring `DomainEventTests` and the request middleware. Each is a method whose `ensures` states the outcome the test asserts. |

Modelling choices:

- **Exceptions are values.**
  - A throwing call returns `Fail(error)`, and `Outcome`/`Result` carry it to the caller.
  - A delegate that throws on an event is an `EventHook` whose `rejects` set contains that event. It fails with `DeliveryFailure(e)`.
  - `EventHook.executed` records every event the delegate accepted, in order.
- **Observer subclasses are a `kind` field.** The three observer classes become one `DomainEventObserver` class. Its `kind` field (`Plain`, `ImmediateObserver`, `DeferredObserver`) selects whose override runs.
- **`IsDisposed` and `ProcessDomainEvent` are reconstructed.** The subclasses call these base-class members and a two-argument base constructor, but the base class shown in `Events/DomainEventObserver.cs` does not declare them. They are modelled as:
  - the two-argument constructor subscribes the observer and keeps the handle;
  - `IsDisposed` is the handle's flag;
  - `ProcessDomainEvent` runs the delegate.
- **Runtime types are type tags.** `GetType()` is a `TypeTag`, and a component value is an `Atom` (integer, text, boolean or Guid) or null.
- **Object identity uses references.** Reference identity (`ReferenceEquals`) is the `ref: object` field of a value's view.

Where the documentation and the code disagree, the model follows the code:

- **Immediate `OnError`.** The doc comment of `DomainEventImmediateObserver.OnError` says it unsubscribes. The code only rethrows, and `Observation.DomainEventObserver.OnError` keeps the subscription.
- **`Value.Equals`.** The documentation describes equality as equal runtime type and equal component values. The code accepts one extra trailing component on the left; see "## Findings".

## Model

| member | source | states |
|---|---|---|
| Values.Equals | Domain.Design.Foundations/Core/Value.cs:27-56 | The enumerator loop with its early exits returns exactly the as-written decision `EqualsAsWritten`: reference equality, then a Value check, then a runtime-type check, then a component-wise comparison. |
| Values.AsWrittenAgreesOnEqualLengths | Domain.Design.Foundations/Core/Value.cs:41-55 | When both values have equally many components, the as-written equality coincides with intended equality (same type, equal component sequences). |
| Values.LengthCheckMissesOneExtra | Domain.Design.Foundations/Core/Value.cs:41-55 | As written, `[x]` is Equals-true against `[]` of the same type, but not the other way round, and intended equality rejects it. Equals is not symmetric. |
| Values.ValueEqualsIsEquivalence | Domain.Design.Foundations/Core/Value.cs:27-56 | The intended equality is reflexive, symmetric and transitive. |
| Values.AggregateIsXorFold | Domain.Design.Foundations/Core/Value.cs:69-72 | `Aggregate` with the xor combiner, started from any accumulator, is that accumulator xor-ed with the xor of all component hashes. |
| Values.HashCode | Domain.Design.Foundations/Core/Value.cs:69-72 | GetHashCode fails with InvalidOperation exactly when there are no components (seedless `Aggregate`). Otherwise it is the xor of the component hashes, with null counting as 0. |
| Values.EqualValuesHashAlike | Domain.Design.Foundations/Core/Value.cs:69-72 | Values equal under the intended equality have equal hash codes, including the failing case. |
| Values.AsWrittenBreaksHashContract | Domain.Design.Foundations/Core/Value.cs:41-72 | As written, `[1, 2]` equals `[1]` while their hash codes differ for some component hash. |
| Values.OperatorsAreNullSafe | Domain.Design.Foundations/Core/Value.cs:80-92 | `==` holds for two nulls and never for one null, and `!=` is its negation. With a non-null left side, `==` is that side's Equals. |
| Enumerations.Create | Domain.Design.Foundations/Core/Abstract/Enumeration.cs:31-35 | Construction succeeds iff Id and Name are both non-null. A null Id fails first, with a DomainException naming the type; a null Name fails next. On success both are kept. |
| Enumerations.EnumerationEquality | Domain.Design.Foundations/Core/Abstract/Enumeration.cs:135-139 | Two Enumerations are Equals-true iff runtime type, Id and Name agree. On them the as-written Equals agrees with the intended one. |
| Enumerations.FlattenMembership | Domain.Design.Foundations/Core/Abstract/Enumeration.cs:61-62 | An instance is in the flattened collections iff it is in one of them. |
| Enumerations.GetAllListsSinglesFirst | Domain.Design.Foundations/Core/Abstract/Enumeration.cs:49-65 | GetAll lists the singly declared instances first, in order. An instance is listed iff it is a single or a member of a declared collection. |
| Enumerations.Parse | Domain.Design.Foundations/Core/Abstract/Enumeration.cs:117-123 | Succeeds iff exactly one registered instance matches, and returns a registered instance that satisfies the predicate. No match and several matches both fail with InvalidOperation. |
| Enumerations.FromIdFindsRegistered | Domain.Design.Foundations/Core/Abstract/Enumeration.cs:75-76 | With unique Ids, FromId finds every registered instance by its own Id. |
| Enumerations.FromIdFailsWithoutSingleMatch | Domain.Design.Foundations/Core/Abstract/Enumeration.cs:75-76 | FromId fails with "No matching enumeration" when no instance has the Id. It fails when two or more instances have the Id, and for a null Id. |
| Enumerations.FromNameFindsToString | Domain.Design.Foundations/Core/Abstract/Enumeration.cs:86-87 | With names unique after lower-casing, FromName of an instance's ToString returns that instance. So does any name that lower-cases to the same text. |
| Observation.EventHook.Execute | Domain.Design.Foundations.Extensions.DependencyInjection/Events/DomainEventObserverManager.cs:54 | The delegate either throws on the event, recording nothing, or records it at the end of what it has run. |
| Observation.DomainSubscription.Dispose | Domain.Design.Foundations/Events/DomainSubscription.cs:15-19 | Disposal runs the unsubscribe action, which removes exactly the handle's observer from its entity's list and keeps the others in order. It then marks the handle disposed. |
| Observation.Entity.Create | Domain.Design.Foundations/Core/Abstract/Entity.cs:44-47 | A null Id throws a DomainException naming the type. Otherwise the new entity keeps the Id and has no observers. |
| Observation.Entity.Subscribe | Domain.Design.Foundations/Core/Abstract/Entity.cs:28-38 | The observer is appended only if absent, so the list stays duplicate-free. A fresh, undisposed handle on this entity and observer is returned either way. |
| Observation.Entity.Unsubscribe | Domain.Design.Foundations/Core/Abstract/Entity.cs:93-99 | `List.Remove` when present, nothing otherwise. The result is the old list without the observer, others in order, still duplicate-free. |
| Observation.UnsubscribeUndoesSubscribe | Domain.Design.Foundations/Core/Abstract/Entity.cs:28-38 | Unsubscribing after Subscribe leaves the list as unsubscribing alone would. For an observer new to the list it restores the list exactly. |
| Observation.Entity.PublishDomainEvent | Domain.Design.Foundations/Core/Abstract/Entity.cs:55-56 | OnNext runs on the observers in list order up to the first one that throws, whose failure is returned. Each reached observer that queues gains the event once. Each delegate runs it once per reached Immediate observer using it; nothing else changes. |
| Observation.Entity.Notify | Domain.Design.Foundations/Core/Abstract/Entity.cs:56 | One ForEach step: OnNext on the i-th observer either throws (an Immediate observer whose delegate rejects the event) or extends the delivered prefix by one. |
| Observation.Entity.PublishDomainException | Domain.Design.Foundations/Core/Abstract/Entity.cs:64-65 | With no observers, nothing happens. Otherwise only the first observer's OnError runs, because the OnError of every DomainEventObserver class throws, and the error is returned. An Immediate first observer keeps its queue and subscription; any other clears its queue and leaves the list. Later observers are untouched. |
| Observation.EntityEquality | Domain.Design.Foundations/Core/Abstract/Entity.cs:76-79 | Entities are Equals-true iff runtime type and Id agree, whatever else differs. Entities with equal Ids hash alike. |
| Observation.DomainEventObserver.constructor | Domain.Design.Foundations.Extensions.DependencyInjection/Events/DomainEventObserver.cs:11-14 | A new observer subscribes itself: it is appended to the entity's list and keeps a fresh, undisposed handle on that entity. Its queue starts empty. |
| Observation.DomainEventObserver.ProcessDomainEvent | Domain.Design.Foundations.Extensions.DependencyInjection/Events/DomainEventImmediateObserver.cs:51 | Processing an event runs the delegate: it throws on a rejected event and otherwise records it. |
| Observation.DomainEventObserver.OnNext | Domain.Design.Foundations.Extensions.DependencyInjection/Events/DomainEventDeferredObserver.cs:66 | An Immediate observer processes the event at once (`DomainEventImmediateObserver.cs` line 51) and leaves its queue alone. A Deferred or base observer enqueues it and runs nothing. What a subscribed Deferred observer's DomainEvents shows (`DomainEventDeferredObserver.cs` lines 30-31) grows by the event. |
| Observation.DomainEventObserver.Dispose | Domain.Design.Foundations.Extensions.DependencyInjection/Events/DomainEventObserver.cs:40 | The handle becomes disposed and the observer leaves its entity's list. Afterwards DomainEvents shows nothing for a Deferred observer (`DomainEventDeferredObserver.cs` lines 30-31) and the whole queue for a base observer (`DomainEventObserver.cs` lines 16-17). |
| Observation.DomainEventObserver.OnCompleted | Domain.Design.Foundations.Extensions.DependencyInjection/Events/DomainEventDeferredObserver.cs:36-44 | A Deferred observer runs the delegate on its queued events in order, up to the first rejected one, whose failure is returned. Other kinds run nothing. Only a completion that did not throw disposes and unsubscribes. |
| Observation.DomainEventObserver.OnError | Domain.Design.Foundations.Extensions.DependencyInjection/Events/DomainEventDeferredObserver.cs:54-59 | Always rethrows the error. Deferred and base observers first clear their queue and unsubscribe. An Immediate observer (`DomainEventImmediateObserver.cs` lines 41-44) keeps both. Afterwards DomainEvents shows nothing for a Deferred or base observer, and is unchanged for an Immediate one. |
| ObserverManagement.KindOf | Domain.Design.Foundations.Extensions.DependencyInjection/Events/DomainEventObserverManager.cs:22-30 | Each behaviour selects its own observer class, never the base one. Immediate selects the Immediate observer, and only it does. |
| ObserverManagement.DomainEventObserverManager.constructor | Domain.Design.Foundations.Extensions.DependencyInjection/Events/DomainEventObserverManager.cs:60 | A new manager has no observers and keeps its ExecuteEvent delegate. |
| ObserverManagement.DomainEventObserverManager.StartListening | Domain.Design.Foundations.Extensions.DependencyInjection/Events/DomainEventObserverManager.cs:20-33 | One fresh observer of the requested behaviour is appended, after the earlier ones unchanged. It runs ExecuteEvent, starts with an empty queue, and is subscribed to the entity with an undisposed handle. The manager's invariant is kept. |
| ObserverManagement.DomainEventObserverManager.IsDisposed | Domain.Design.Foundations.Extensions.DependencyInjection/Events/DomainEventObserverManager.cs:47 | True iff every observer's handle is disposed; vacuously true with no observers. |
| ObserverManagement.DomainEventObserverManager.Dispose | Domain.Design.Foundations.Extensions.DependencyInjection/Events/DomainEventObserverManager.cs:38-41 | OnCompleted runs on the observers in registration order until one throws, and that failure is returned. ExecuteEvent has then run the drained queues of the called observers, in order. Exactly the observers before the stopping one are disposed, and each entity's list loses exactly those of its observers. |
| ObserverManagement.Verdict | Domain.Design.Foundations.Extensions.DependencyInjection/Events/DomainEventObserverManager.cs:40 | Dispose succeeds iff no observer's completion throws. |
| ObserverManagement.Halt | Domain.Design.Foundations.Extensions.DependencyInjection/Events/DomainEventObserverManager.cs:40 | The stopping point is the first observer whose completion throws, and no earlier one throws. |
| ObserverManagement.Drain | Domain.Design.Foundations.Extensions.DependencyInjection/Events/DomainEventDeferredObserver.cs:38-41 | Completion runs a prefix of the queue through the delegate: all of it when nothing is rejected, and nothing for a non-Deferred observer. |
| ObserverManagement.SettleFailsOnFirstRejected | Domain.Design.Foundations.Extensions.DependencyInjection/Events/DomainEventDeferredObserver.cs:36-44 | Completing an observer fails iff it is Deferred and its delegate rejects some queued event. The failure names the first queued event the delegate rejects; every earlier one is accepted. |
| Scenarios.DeferredRunsEveryEventOnDispose | Tests.Foundations/Core/DomainEventTests.cs:43-53 | Three events published to a Deferred observer reach ExecuteEvent, all three in order, when the manager is disposed. |
| Scenarios.ImmediateRunsEveryEventAtOnce | Tests.Foundations/Core/DomainEventTests.cs:56-66 | Three events published to an Immediate observer have all run before disposal, and disposal adds none. |
| Scenarios.SoleDisposal | Domain.Design.Foundations.Extensions.DependencyInjection/Events/DomainEventObserverManager.cs:38-41 | For a manager with one observer, Dispose stops before it exactly when that observer stalls, returns that observer's completion outcome, runs what it drains, and removes it from its entity only when it completed. |
| Scenarios.DeferredRunsEventsInOrder | Domain.Design.Foundations.Extensions.DependencyInjection/Events/DomainEventDeferredObserver.cs:36-44 | Any sequence of events published to a Deferred observer is held in order while subscribed, nothing runs before disposal, and disposing the manager then runs exactly that sequence without failure. |
| Scenarios.ImmediateRunsEventsInOrder | Domain.Design.Foundations.Extensions.DependencyInjection/Events/DomainEventImmediateObserver.cs:51 | Any sequence of events published to an Immediate observer has run, exactly and in order, when the last publication returns; disposal runs nothing more and succeeds. |
| Scenarios.NothingReachesADisposedManager | Tests.Foundations/Core/DomainEventTests.cs:69-82 | After disposal the manager reports disposed, and a later event runs nothing. |
| Scenarios.ErrorDropsDeferredEvents | Tests.Foundations/Core/DomainEventTests.cs:85-101 | An error after an event makes the Deferred observer drop its queue and leave. The error reaches the caller, nothing ever runs, and the manager reports disposed. |
| Scenarios.ErrorKeepsImmediateDeliveries | Tests.Foundations/Core/DomainEventTests.cs:104-119 | An error after an event leaves the one event the Immediate observer already ran. The error reaches the caller, and disposal later unsubscribes. |
| Scenarios.DeferredObserverRecallsEvents | Tests.Foundations/Core/DomainEventTests.cs:122-143 | A Deferred observer shows the three events it holds while subscribed, and none once disposed. |
| Scenarios.MiddlewareDisposesAfterPipeline | Domain.Design.Foundations.Extensions.DependencyInjection/Middleware/DomainMiddleware.cs:33-40 | The manager is disposed, and the deferred event runs, only when the rest of the pipeline returns normally. A throwing pipeline propagates and skips disposal. |

## Left out

- Asynchrony: `StartListening` returns `Task.CompletedTask`, and `ExecuteEvent` returns a `Task` that is neither awaited nor observed. The model makes both synchronous. A faulted task therefore surfaces as a failure at the call, whereas the source would drop it.
- GetAll's reflection: it scans the type's static fields. The model passes it the two lists reflection would find: the single instances and the instance collections.
- `ToLowerInvariant`: it is culture-dependent and is a parameter `lower` of `FromName`.
- The exception type in the Parse failure message: it is the `TypeTag` name.
- `Guid.NewGuid()` in the parameterless `Entity` constructor. Fresh identifiers are not modelled; `Entity.Create` takes the Id.
- Subclass virtual dispatch: it is a closed `kind` field. User-defined subclasses of the observers are not modelled.
- `IDomainEventManager`, the dependency-injection registration (`DomainExtensions`) and the MediatR manager: these are glue around the manager. `IDomainEventManager` is not part of this model.
- The older `Foundations/` and `Infrastructure/` trees: they are superseded copies of the library.
- The `Testing/` tree: it is an email-testing subsystem (mail clients that talk to external services over the network), outside this core.
- ObserverManagement.DomainEventObserverManager.StartListening: an `ObserverBehavior` value outside the two named ones adds no observer in the source. The two-valued datatype cannot express such a value.
- Observation.Entity.PublishDomainException: only the three DomainEventObserver classes are modelled as observers, and only observers wired to this entity by their own constructor. `Subscribe` accepts any `IObserver<DomainEvent>`: a foreign observer whose OnError returns normally would let `ForEach` go on to the next observer, and one that also unsubscribes would make `ForEach` throw `InvalidOperationException`. An observer subscribed by hand may hold a handle on another entity. None of these cases is modelled.
- `List.ForEach`'s version check: a callback that changes the list being iterated makes `ForEach` throw `InvalidOperationException`, and PublishDomainException's first OnError does change it.
  - Observation.Entity.PublishDomainException: the model states only what matters for the outcome. The first observer's OnError, for each DomainEventObserver class, throws before ForEach would check the list again, so no later observer is visited either way.
- Observation.Entity.PublishDomainEvent: reentrancy is not modelled. The delegate cannot publish, subscribe or dispose while it runs, because `EventHook` only records.
- Observation.DomainEventObserver.DomainEvents: the source returns a copy of the queue each time. The model returns the sequence value, which is the same contents.
- ObserverManagement.DomainEventObserverManager.Dispose: Dispose requires the manager's invariant. In particular, each entity's observer list must be duplicate-free, which every list built by `Subscribe` is.

## Findings

| source | as written | input that shows it | evidently intended | confidence | as-written member | corrected member |
|---|---|---|---|---|---|---|
| Domain.Design.Foundations/Core/Value.cs:41-55 | The loop condition `thisValues.MoveNext() && otherValues.MoveNext()` advances `thisValues` before it finds `otherValues` exhausted. The end check then calls `MoveNext` on `thisValues` again. So a left side with exactly one more component than the right compares equal. | Two values of one type, with components `[x]` and `[]`. `a.Equals(b)` is true and `b.Equals(a)` is false. For `[1, 2]` and `[1]`, equal values hash differently. | Equal type and equal component sequences, length included. This gives an equivalence relation consistent with `GetHashCode`. | not executed | Values.LengthCheckMissesOneExtra | Values.ValueEqualsIsEquivalence |

- **As written.** `Values.EqualsAsWritten` and the method `Values.Equals` model the code as written.
  - `Values.LengthCheckMissesOneExtra` exhibits the asymmetry.
  - `Values.AsWrittenBreaksHashContract` exhibits the broken hash contract.
- **Corrected.** `Values.ValueEquals` is the corrected definition.
  - `Values.ValueEqualsIsEquivalence` proves it is an equivalence.
  - `Values.EqualValuesHashAlike` proves equal values hash alike.
  - `Observation.EntityEquality` and `Enumerations.EnumerationEquality` show that entities and enumerations always have equally many components, so the two definitions coincide on them.
