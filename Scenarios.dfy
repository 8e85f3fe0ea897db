/** Runs of the whole subsystem: an entity, a manager whose ExecuteEvent
    records what it runs, and the observers the manager starts on the entity
    (Tests.Foundations/Core/DomainEventTests.cs). */
module Scenarios {
  import opened Domain
  import opened Values
  import opened Sequences
  import opened Observation
  import opened ObserverManagement

  /** The TestEvent the test entity publishes. */
  const Test := DomainEvent("TestEvent")

  /** PublishDomainEvent on an entity with a single observer is that
      observer's OnNext. */
  method PublishToSole(entity: Entity, e: DomainEvent) returns (r: Outcome)
    requires entity.Valid() && |entity.observers| == 1
    modifies {entity.observers[0]}`queue, {entity.observers[0].hook}`executed
    ensures r == (if ThrowsOnNext(entity.observers[0], e) then Fail(DeliveryFailure(e)) else Pass)
    ensures entity.observers[0].queue == old(entity.observers[0].queue) + Arrived(entity.observers[0], e, true)
    ensures entity.observers[0].hook.executed
            == old(entity.observers[0].hook.executed)
               + (if entity.observers[0].kind == ImmediateObserver && e !in entity.observers[0].hook.rejects then [e] else [])
  {
    var o := entity.observers[0];
    assert HooksOf(entity.observers) == {o.hook};
    r := entity.PublishDomainEvent(e);
    assert Queues(entity.observers)[0] == o.queue && Records(entity.observers)[0] == o.hook.executed;
    assert ImmediateCount(entity.observers, Reach(entity.observers, e), o.hook)
           == if o.kind == ImmediateObserver && e !in o.hook.rejects then 1 else 0;
  }

  /** PublishDomainEvent on an entity without observers delivers nothing
      and changes nothing. */
  method PublishToNone(entity: Entity, e: DomainEvent) returns (r: Outcome)
    requires entity.Valid() && entity.observers == []
    ensures r == Pass
  {
    assert (set o | o in entity.observers) == {} && HooksOf(entity.observers) == {};
    r := entity.PublishDomainEvent(e);
  }

  /** Dispose on a manager with a single observer is that observer's
      OnCompleted. */
  method DisposeSole(manager: DomainEventObserverManager) returns (r: Outcome)
    requires manager.Valid() && |manager.observers| == 1
    modifies manager.executeEvent`executed, {manager.observers[0].subscription}`isDisposed,
             {manager.observers[0].subscription.source}`observers
    ensures manager.Valid()
    ensures r == Settle(manager.observers[0], manager.observers[0].queue)
    ensures manager.executeEvent.executed
            == old(manager.executeEvent.executed) + Drain(manager.observers[0], manager.observers[0].queue)
    ensures manager.observers[0].subscription.isDisposed == (r.Pass? || old(manager.observers[0].subscription.isDisposed))
    ensures manager.observers[0].subscription.source.observers
            == if r.Pass? then Omit(old(manager.observers[0].subscription.source.observers), {manager.observers[0]})
               else old(manager.observers[0].subscription.source.observers)
  {
    var o := manager.observers[0];
    ghost var obs, qs, hs := manager.observers, Queues(manager.observers), Handles(manager.observers);
    ghost var list := o.subscription.source.observers;
    assert HandlesOf(obs) == {o.subscription} && SourcesOf(obs) == {o.subscription.source};
    r := manager.Dispose();
    SoleDisposal(obs, qs, hs, o.subscription.source);
    OmitAbsent(list, {});
  }

  /** Where Dispose stops, what it runs and returns, and what it removes
      from the entity, for a manager with a single observer. */
  lemma SoleDisposal(obs: seq<DomainEventObserver>, qs: seq<seq<DomainEvent>>, hs: seq<DomainSubscription>, s: Entity)
    requires |obs| == 1 && |qs| == 1 && |hs| == 1 && hs[0].source == s
    ensures Halt(obs, qs) == if Stalls(obs[0], qs[0]) then 0 else 1
    ensures Verdict(obs, qs) == Settle(obs[0], qs[0])
    ensures Completion(obs, qs, Called(obs, qs)) == Drain(obs[0], qs[0])
    ensures Gone(obs, hs, Halt(obs, qs), s) == if Stalls(obs[0], qs[0]) then {} else {obs[0]}
  {
    assert Completion(obs, qs, 1) == Completion(obs, qs, 0) + Drain(obs[0], qs[0]);
    if !Stalls(obs[0], qs[0]) {
      assert obs[0] in Gone(obs, hs, 1, s);
    }
  }

  /** A fresh TestEntity, a fresh manager whose ExecuteEvent accepts every
      event, and the one observer StartListening put between them. */
  method Listening(behavior: ObserverBehavior)
      returns (entity: Entity, hook: EventHook, manager: DomainEventObserverManager, o: DomainEventObserver)
    ensures fresh(entity) && fresh(hook) && fresh(manager) && fresh(o) && fresh(o.subscription)
    ensures manager.Valid() && manager.executeEvent == hook && manager.observers == [o]
    ensures entity.Valid() && entity.Wired() && entity.observers == [o]
    ensures hook.executed == [] && hook.rejects == {}
    ensures o.kind == KindOf(behavior) && o.hook == hook && o.queue == [] && o.Valid()
    ensures o.subscription.source == entity && !o.subscription.isDisposed
  {
    entity := new Entity(Int(1), TypeTag("TestEntity"));
    hook := new EventHook({});
    manager := new DomainEventObserverManager(hook);
    manager.StartListening(entity, behavior);
    o := manager.observers[0];
  }

  /** PublishDomainException on an entity with a single observer is that
      observer's OnError. */
  method RaiseToSole(entity: Entity, err: Error) returns (r: Outcome)
    requires entity.Valid() && entity.Wired() && |entity.observers| == 1
    modifies entity`observers, {entity.observers[0]}`queue, {entity.observers[0].subscription}`isDisposed
    ensures r == Fail(err) && entity.Valid()
    ensures old(entity.observers[0]).kind == ImmediateObserver ==>
              entity.observers == old(entity.observers) && old(entity.observers[0]).queue == old(entity.observers[0].queue)
              && old(entity.observers[0]).subscription.isDisposed == old(entity.observers[0].subscription.isDisposed)
    ensures old(entity.observers[0]).kind != ImmediateObserver ==>
              entity.observers == [] && old(entity.observers[0]).queue == []
              && old(entity.observers[0]).subscription.isDisposed
  {
    ghost var o := entity.observers[0];
    assert (set p | p in entity.observers) == {o} && (set p | p in entity.observers :: p.subscription) == {o.subscription};
    r := entity.PublishDomainException(err);
  }

  /** Three events published to a Deferred observer reach ExecuteEvent, in
      order, when the manager is disposed. */
  method DeferredRunsEveryEventOnDispose() returns (executed: seq<DomainEvent>, r: Outcome)
    ensures executed == [Test, Test, Test] && r == Pass
  {
    var entity, hook, manager, o := Listening(Deferred);
    var r1 := PublishToSole(entity, Test);
    var r2 := PublishToSole(entity, Test);
    var r3 := PublishToSole(entity, Test);
    r := DisposeSole(manager);
    executed := hook.executed;
  }

  /** Three events published to an Immediate observer reach ExecuteEvent at
      once; disposing the manager runs nothing more. */
  method ImmediateRunsEveryEventAtOnce() returns (published: seq<DomainEvent>, executed: seq<DomainEvent>, r: Outcome)
    ensures published == [Test, Test, Test] && executed == [Test, Test, Test] && r == Pass
  {
    var entity, hook, manager, o := Listening(Immediate);
    var r1 := PublishToSole(entity, Test);
    var r2 := PublishToSole(entity, Test);
    var r3 := PublishToSole(entity, Test);
    published := hook.executed;
    r := DisposeSole(manager);
    executed := hook.executed;
  }

  /** Any sequence of events published to a Deferred observer is held, in
      order, and nothing runs until the manager is disposed; disposal then
      runs all of them in that order. */
  method DeferredRunsEventsInOrder(events: seq<DomainEvent>)
      returns (held: seq<DomainEvent>, before: seq<DomainEvent>, executed: seq<DomainEvent>, r: Outcome)
    ensures held == events && before == [] && executed == events && r == Pass
  {
    var entity, hook, manager, o := Listening(Deferred);
    var i := 0;
    while i < |events|
      modifies {o}`queue, {hook}`executed
      invariant i <= |events|
      invariant o.queue == events[..i] && hook.executed == []
    {
      var ri := PublishToSole(entity, events[i]);
      assert events[..i + 1] == events[..i] + [events[i]];
      i := i + 1;
    }
    assert events[..i] == events;
    held := o.DomainEvents();
    before := hook.executed;
    r := DisposeSole(manager);
    executed := hook.executed;
  }

  /** Any sequence of events published to an Immediate observer has run, in
      order, by the time the last publication returns; disposal runs
      nothing more. */
  method ImmediateRunsEventsInOrder(events: seq<DomainEvent>)
      returns (published: seq<DomainEvent>, executed: seq<DomainEvent>, r: Outcome)
    ensures published == events && executed == events && r == Pass
  {
    var entity, hook, manager, o := Listening(Immediate);
    var i := 0;
    while i < |events|
      modifies {o}`queue, {hook}`executed
      invariant i <= |events|
      invariant o.queue == [] && hook.executed == events[..i]
    {
      var ri := PublishToSole(entity, events[i]);
      assert events[..i + 1] == events[..i] + [events[i]];
      i := i + 1;
    }
    assert events[..i] == events;
    published := hook.executed;
    r := DisposeSole(manager);
    executed := hook.executed;
  }

  /** After the manager is disposed, its observers are disposed and later
      events reach nothing. */
  method NothingReachesADisposedManager() returns (executed: seq<DomainEvent>, later: seq<DomainEvent>, disposed: bool)
    ensures executed == [Test] && later == [Test] && disposed
  {
    var entity, hook, manager, o := Listening(Deferred);
    var r1 := PublishToSole(entity, Test);
    var r := DisposeSole(manager);
    executed := hook.executed;
    var r2 := PublishToNone(entity, Test);
    later := hook.executed;
    disposed := manager.IsDisposed();
  }

  /** An error published before disposal makes the Deferred observer drop
      its queue and leave: ExecuteEvent never runs. */
  method ErrorDropsDeferredEvents(err: Error) returns (thrown: Outcome, executed: seq<DomainEvent>, later: seq<DomainEvent>, disposed: bool)
    ensures thrown == Fail(err) && executed == [] && later == [] && disposed
  {
    var entity, hook, manager, o := Listening(Deferred);
    var r1 := PublishToSole(entity, Test);
    thrown := RaiseToSole(entity, err);
    var r := DisposeSole(manager);
    executed := hook.executed;
    var r2 := PublishToNone(entity, Test);
    later := hook.executed;
    disposed := manager.IsDisposed();
  }

  /** An error published before disposal leaves what an Immediate observer
      already ran; disposal then unsubscribes it. */
  method ErrorKeepsImmediateDeliveries(err: Error) returns (thrown: Outcome, executed: seq<DomainEvent>, later: seq<DomainEvent>, disposed: bool)
    ensures thrown == Fail(err) && executed == [Test] && later == [Test] && disposed
  {
    var entity, hook, manager, o := Listening(Immediate);
    var r1 := PublishToSole(entity, Test);
    thrown := RaiseToSole(entity, err);
    var r := DisposeSole(manager);
    executed := hook.executed;
    var r2 := PublishToNone(entity, Test);
    later := hook.executed;
    disposed := manager.IsDisposed();
  }

  /** A Deferred observer shows the events it holds while subscribed, and
      nothing once disposed. */
  method DeferredObserverRecallsEvents() returns (held: seq<DomainEvent>, afterwards: seq<DomainEvent>, disposed: bool)
    ensures held == [Test, Test, Test] && afterwards == [] && disposed
  {
    var entity := new Entity(Int(1), TypeTag("TestEntity"));
    var hook := new EventHook({});
    var o := new DomainEventObserver(entity, hook, DeferredObserver);
    var r1 := PublishToSole(entity, Test);
    var r2 := PublishToSole(entity, Test);
    var r3 := PublishToSole(entity, Test);
    held := o.DomainEvents();
    o.Dispose();
    disposed := o.IsDisposed();
    afterwards := o.DomainEvents();
  }

  /** The request middleware disposes the manager, and so runs the deferred
      events, only when the rest of the pipeline returns normally; a throwing
      pipeline skips disposal. */
  method MiddlewareDisposesAfterPipeline(pipeline: Outcome) returns (r: Outcome, executed: seq<DomainEvent>, disposed: bool)
    ensures pipeline.Fail? ==> r == pipeline && executed == [] && !disposed
    ensures pipeline.Pass? ==> r == Pass && executed == [Test] && disposed
  {
    var entity, hook, manager, o := Listening(Deferred);
    var r1 := PublishToSole(entity, Test);
    if pipeline.Fail? {
      r := pipeline;
    } else {
      r := DisposeSole(manager);
    }
    executed := hook.executed;
    disposed := manager.IsDisposed();
  }
}
