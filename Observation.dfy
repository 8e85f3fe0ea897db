/** Entities as event sources, the subscription handles they hand out, and the
    observers that react to what they publish (Core/Abstract/Entity.cs,
    Events/DomainSubscription.cs and the observers of the dependency-injection
    package). The classes refer to one another, so they share one module. */
module Observation {
  import opened Domain
  import opened Values
  import opened Sequences

  /** Whose overrides an observer runs: the base DomainEventObserver's own,
      DomainEventImmediateObserver's or DomainEventDeferredObserver's. */
  datatype ObserverKind = Plain | ImmediateObserver | DeferredObserver

  /** A processing delegate, such as a manager's ExecuteEvent: it records every
      event it accepts and throws on the events in rejects. */
  class EventHook {
    var executed: seq<DomainEvent>
    const rejects: set<DomainEvent>

    constructor (rejects: set<DomainEvent>)
      ensures executed == [] && this.rejects == rejects
    {
      executed := [];
      this.rejects := rejects;
    }

    method Execute(e: DomainEvent) returns (r: Outcome)
      modifies this`executed
      ensures r == (if e in rejects then Fail(DeliveryFailure(e)) else Pass)
      ensures executed == (if e in rejects then old(executed) else old(executed) + [e])
    {
      if e in rejects {
        r := Fail(DeliveryFailure(e));
      } else {
        executed := executed + [e];
        r := Pass;
      }
    }
  }

  /** The handle Subscribe returns. Its disposal action is always
      () => source.Unsubscribe(observer), so the handle keeps those two. */
  class DomainSubscription {
    const source: Entity
    const observer: DomainEventObserver
    var isDisposed: bool

    constructor (source: Entity, observer: DomainEventObserver)
      ensures this.source == source && this.observer == observer && !isDisposed
    {
      this.source := source;
      this.observer := observer;
      isDisposed := false;
    }

    /** Runs the disposal action, then marks the handle disposed. There is no
        guard: every call runs the action again. */
    method Dispose()
      requires source.Valid()
      modifies this`isDisposed, source`observers
      ensures source.Valid()
      ensures source.observers == Omit(old(source.observers), {observer})
      ensures isDisposed
    {
      source.Unsubscribe(observer);
      isDisposed := true;
    }
  }

  /** An identity-bearing object that publishes events to its observers. */
  class Entity {
    const id: Atom
    const runtimeType: TypeTag
    var observers: seq<DomainEventObserver>

    /** The observer list never holds the same observer twice. */
    ghost predicate Valid()
      reads this`observers
    {
      Distinct(observers)
    }

    /** Every listed observer is set up and holds its handle on this entity. */
    ghost predicate Wired()
      reads this`observers, (set o | o in observers)`subscription
    {
      WiredTo(observers, this)
    }

    constructor (id: Atom, runtimeType: TypeTag)
      ensures this.id == id && this.runtimeType == runtimeType
      ensures observers == [] && Valid()
    {
      this.id := id;
      this.runtimeType := runtimeType;
      observers := [];
    }

    /** Entity(T id): a null id throws a DomainException naming the type. */
    static method Create(id: Component, runtimeType: TypeTag) returns (r: Result<Entity>)
      ensures r.Failure? <==> id.Null?
      ensures id.Null? ==> r == Failure(DomainException("Id is required for entity " + runtimeType.name))
      ensures r.Success? ==> fresh(r.value) && r.value.id == id.atom && r.value.runtimeType == runtimeType
      ensures r.Success? ==> r.value.observers == [] && r.value.Valid()
    {
      if id.Null? {
        return Failure(DomainException("Id is required for entity " + runtimeType.name));
      }
      var e := new Entity(id.atom, runtimeType);
      r := Success(e);
    }

    /** GetComponentValues: only the Id, which construction made non-null. */
    function ComponentValues(): seq<Component>
    {
      [Present(id)]
    }

    function AsValue(): ValueView
    {
      ValueView(this, runtimeType, ComponentValues())
    }

    /** Subscribe: the observer is appended only if absent; a new handle is
        returned either way. */
    method Subscribe(o: DomainEventObserver) returns (s: DomainSubscription)
      requires Valid()
      modifies this`observers
      ensures Valid()
      ensures observers == if o in old(observers) then old(observers) else old(observers) + [o]
      ensures fresh(s) && s.source == this && s.observer == o && !s.isDisposed
    {
      if o !in observers {
        DistinctSnoc(observers, o);
        observers := observers + [o];
      }
      s := new DomainSubscription(this, o);
    }

    /** Unsubscribe: List.Remove when present, nothing otherwise. The others
        keep their order. */
    method Unsubscribe(o: DomainEventObserver)
      requires Valid()
      modifies this`observers
      ensures Valid()
      ensures observers == Omit(old(observers), {o})
    {
      if o in observers {
        RemoveFirstOfDistinct(observers, o);
        observers := RemoveFirst(observers, o);
      } else {
        OmitAbsent(observers, {o});
      }
    }

    /** PublishDomainEvent: OnNext on every observer in list order. A throw
        ends the broadcast and reaches the caller. */
    method PublishDomainEvent(e: DomainEvent) returns (r: Outcome)
      requires Valid()
      modifies (set o | o in observers)`queue, HooksOf(observers)`executed
      ensures r == (if Reach(observers, e) < |observers| then Fail(DeliveryFailure(e)) else Pass)
      ensures Broadcast(observers, e, old(Queues(observers)), old(Records(observers)), Reach(observers, e))
    {
      ghost var queues, records := Queues(observers), Records(observers);
      BroadcastStarts(observers, e);
      var i := 0;
      r := Pass;
      while i < |observers|
        invariant i <= Reach(observers, e) && r.Pass?
        invariant Broadcast(observers, e, queues, records, i)
        decreases |observers| - i
      {
        ReachAt(observers, e, i);
        r := Notify(e, i, queues, records);
        if r.Fail? {
          break;
        }
        i := i + 1;
      }
    }

    /** The callback PublishDomainEvent hands to ForEach, applied to the i-th
        observer: OnNext, which moves the broadcast one observer further
        unless it throws. */
    method Notify(e: DomainEvent, i: nat, ghost queues: seq<seq<DomainEvent>>, ghost records: seq<seq<DomainEvent>>)
        returns (r: Outcome)
      requires Valid() && i < |observers| && Broadcast(observers, e, queues, records, i)
      modifies {observers[i]}`queue, {observers[i].hook}`executed
      ensures r == (if ThrowsOnNext(observers[i], e) then Fail(DeliveryFailure(e)) else Pass)
      ensures Broadcast(observers, e, queues, records, if r.Pass? then i + 1 else i)
    {
      var o := observers[i];
      ghost var queuesBefore, recordsBefore := Queues(observers), Records(observers);
      r := o.OnNext(e);
      QueuesStep(observers, e, queues, queuesBefore, Queues(observers), i, r.Pass?);
      RecordsStep(observers, e, records, recordsBefore, Records(observers), i, r.Pass?);
    }

    /** PublishDomainException: OnError on the observers in list order until
        one throws. Every observer's OnError throws, so only the first one
        hears of the error. */
    method PublishDomainException(err: Error) returns (r: Outcome)
      requires Valid() && Wired()
      modifies this`observers, (set o | o in observers)`queue, (set o | o in observers :: o.subscription)`isDisposed
      ensures Valid() && Wired()
      ensures old(observers) == [] ==> r == Pass && observers == []
      ensures old(observers) != [] ==> r == Fail(err)
      ensures old(observers) != [] && old(observers[0]).kind == ImmediateObserver ==>
                observers == old(observers) && old(observers[0]).queue == old(observers[0].queue)
                && old(observers[0]).subscription.isDisposed == old(observers[0].subscription.isDisposed)
      ensures old(observers) != [] && old(observers[0]).kind != ImmediateObserver ==>
                observers == old(observers)[1..] && old(observers[0]).queue == []
                && old(observers[0]).subscription.isDisposed
      ensures forall j :: 1 <= j < |old(observers)| ==>
                old(observers[j]).queue == old(observers[j].queue)
                && old(observers[j]).subscription.isDisposed == old(observers[j].subscription.isDisposed)
    {
      ghost var before := observers;
      r := Pass;
      var i := 0;
      while i < |observers| && r.Pass?
        invariant i == 0 || i == 1
        invariant i == 0 ==> r.Pass? && observers == before
        invariant i == 0 ==> forall o :: o in before ==> o.queue == old(o.queue)
        invariant i == 0 ==> forall o :: o in before ==> o.subscription.isDisposed == old(o.subscription.isDisposed)
        invariant i == 1 ==> before != [] && r == Fail(err) && Valid() && Wired()
        invariant i == 1 && before[0].kind == ImmediateObserver ==>
                    observers == before && before[0].queue == old(before[0].queue)
                    && before[0].subscription.isDisposed == old(before[0].subscription.isDisposed)
        invariant i == 1 && before[0].kind != ImmediateObserver ==>
                    observers == before[1..] && before[0].queue == [] && before[0].subscription.isDisposed
        invariant i == 1 ==> forall j :: 1 <= j < |before| ==>
                    before[j].queue == old(before[j].queue)
                    && before[j].subscription.isDisposed == old(before[j].subscription.isDisposed)
      {
        var first := observers[0];
        RemoveFirstOfDistinct(observers, first);
        r := first.OnError(err);
        forall j | 1 <= j < |before|
          ensures before[j].subscription != first.subscription
        {
          assert before[j] != first;
        }
        i := i + 1;
      }
    }
  }

  /** Equality of entities is equality of runtime type and Id, whatever else
      differs, and equal entities hash alike. */
  lemma EntityEquality(x: Entity, y: Entity, hash: Atom -> bv32)
    ensures EqualsAsWritten(x.AsValue(), AValue(y.AsValue())) <==> x.runtimeType == y.runtimeType && x.id == y.id
    ensures EqualsAsWritten(x.AsValue(), AValue(y.AsValue())) == ValueEquals(x.AsValue(), AValue(y.AsValue()))
    ensures x.id == y.id ==> HashCode(x.ComponentValues(), hash) == HashCode(y.ComponentValues(), hash)
  {
    AsWrittenAgreesOnEqualLengths(x.AsValue(), AValue(y.AsValue()));
    assert [Present(x.id)] == [Present(y.id)] ==> x.id == y.id;
  }

  /** Disposing the handle Subscribe returned undoes the subscription: the
      list Subscribe leaves, without the observer, is the list before it
      without the observer, and exactly the list before when the observer
      was new to it. */
  lemma UnsubscribeUndoesSubscribe(list: seq<DomainEventObserver>, o: DomainEventObserver)
    ensures Omit(if o in list then list else list + [o], {o}) == Omit(list, {o})
    ensures o !in list ==> Omit(list + [o], {o}) == list
  {
    if o !in list {
      OmitSnoc(list, o);
      OmitAbsent(list, {o});
    }
  }

  /** A subscriber: reconstructed base DomainEventObserver with the overrides of
      its two subclasses, chosen by kind. */
  class DomainEventObserver {
    const kind: ObserverKind
    /** The processing delegate. */
    const hook: EventHook
    /** The event queue: the base class's own, or the Deferred observer's
        DomainEventQueue, which hides it. The Immediate observer never fills it. */
    var queue: seq<DomainEvent>
    /** The handle kept from subscribing; set once, by the constructor. */
    var subscription: DomainSubscription?

    ghost predicate Valid()
      reads this`subscription
    {
      subscription != null && subscription.observer == this
    }

    /** The two-argument base constructor: subscribes the new observer and
        keeps the handle. */
    constructor (observable: Entity, hook: EventHook, kind: ObserverKind)
      requires observable.Valid()
      modifies observable`observers
      ensures Valid() && this.kind == kind && this.hook == hook && queue == []
      ensures fresh(subscription) && subscription.source == observable && !subscription.isDisposed
      ensures observable.Valid() && observable.observers == old(observable.observers) + [this]
    {
      this.kind := kind;
      this.hook := hook;
      queue := [];
      subscription := null;
      new;
      subscription := observable.Subscribe(this);
    }

    /** IsDisposed: the handle's IsDisposed. */
    function IsDisposed(): bool
      reads this, subscription
      requires subscription != null
    {
      subscription.isDisposed
    }

    /** DomainEvents: the base class shows the queue only once disposed; the
        Deferred observer shows its pending queue only while subscribed. What
        the operations below do to it is stated on them. */
    function DomainEvents(): seq<DomainEvent>
      reads this, subscription
      requires Valid()
    {
      if kind == DeferredObserver then (if subscription.isDisposed then [] else queue)
      else if subscription.isDisposed then queue else []
    }

    /** ProcessDomainEvent: runs the delegate. */
    method ProcessDomainEvent(e: DomainEvent) returns (r: Outcome)
      modifies hook`executed
      ensures r == (if e in hook.rejects then Fail(DeliveryFailure(e)) else Pass)
      ensures hook.executed == (if e in hook.rejects then old(hook.executed) else old(hook.executed) + [e])
    {
      r := hook.Execute(e);
    }

    /** OnNext: the Immediate observer processes the event at once; the base
        and the Deferred observer enqueue it. */
    method OnNext(e: DomainEvent) returns (r: Outcome)
      modifies this`queue, hook`executed
      ensures kind == ImmediateObserver ==>
                queue == old(queue) && r == (if e in hook.rejects then Fail(DeliveryFailure(e)) else Pass)
                && hook.executed == (if e in hook.rejects then old(hook.executed) else old(hook.executed) + [e])
      ensures kind != ImmediateObserver ==>
                queue == old(queue) + [e] && r == Pass && hook.executed == old(hook.executed)
      ensures Valid() && kind == DeferredObserver && !IsDisposed() ==> DomainEvents() == old(DomainEvents()) + [e]
    {
      if kind == ImmediateObserver {
        r := ProcessDomainEvent(e);
      } else {
        queue := queue + [e];
        r := Pass;
      }
    }

    /** Dispose: disposes the handle, which unsubscribes this observer. */
    method Dispose()
      requires Valid() && subscription.source.Valid()
      modifies subscription`isDisposed, subscription.source`observers
      ensures subscription.isDisposed
      ensures subscription.source.Valid()
      ensures subscription.source.observers == Omit(old(subscription.source.observers), {this})
      ensures kind == DeferredObserver ==> DomainEvents() == []
      ensures kind != DeferredObserver ==> DomainEvents() == queue
    {
      subscription.Dispose();
    }

    /** OnCompleted: the Deferred observer first runs the delegate on each
        queued event in order, without dequeuing; every kind then disposes. A
        throwing delegate ends the call before disposal. */
    method OnCompleted() returns (r: Outcome)
      requires Valid() && subscription.source.Valid()
      modifies hook`executed, subscription`isDisposed, subscription.source`observers
      ensures subscription.source.Valid()
      ensures kind == DeferredObserver ==>
                hook.executed == old(hook.executed) + queue[..Processed(queue, hook.rejects)]
                && r == (if Processed(queue, hook.rejects) < |queue|
                         then Fail(DeliveryFailure(queue[Processed(queue, hook.rejects)])) else Pass)
      ensures kind != DeferredObserver ==> hook.executed == old(hook.executed) && r == Pass
      ensures r.Pass? ==> (subscription.isDisposed
                && subscription.source.observers == Omit(old(subscription.source.observers), {this}))
      ensures r.Fail? ==> (subscription.isDisposed == old(subscription.isDisposed)
                && subscription.source.observers == old(subscription.source.observers))
    {
      r := Pass;
      if kind == DeferredObserver {
        var i := 0;
        ghost var done := 0;
        while i < |queue| && r.Pass?
          modifies hook`executed
          invariant 0 <= i <= |queue|
          invariant done == (if r.Pass? then i else i - 1)
          invariant done <= Processed(queue, hook.rejects)
          invariant r.Fail? ==> done == Processed(queue, hook.rejects) < |queue|
                                && r == Fail(DeliveryFailure(queue[done]))
          invariant hook.executed == old(hook.executed) + queue[..done]
        {
          r := ProcessDomainEvent(queue[i]);
          assert queue[..i + 1] == queue[..i] + [queue[i]];
          if r.Pass? {
            done := done + 1;
          }
          i := i + 1;
        }
      }
      if r.Pass? {
        Dispose();
      }
    }

    /** OnError: the Immediate observer only rethrows; the base and the
        Deferred observer first clear the queue and dispose. */
    method OnError(err: Error) returns (r: Outcome)
      requires Valid() && subscription.source.Valid()
      modifies this`queue, subscription`isDisposed, subscription.source`observers
      ensures Valid() && subscription.source.Valid()
      ensures r == Fail(err)
      ensures kind == ImmediateObserver ==>
                queue == old(queue) && subscription.isDisposed == old(subscription.isDisposed)
                && subscription.source.observers == old(subscription.source.observers)
      ensures kind != ImmediateObserver ==>
                queue == [] && subscription.isDisposed
                && subscription.source.observers == Omit(old(subscription.source.observers), {this})
      ensures kind != ImmediateObserver ==> DomainEvents() == []
      ensures kind == ImmediateObserver ==> DomainEvents() == old(DomainEvents())
    {
      if kind != ImmediateObserver {
        queue := [];
        Dispose();
      }
      r := Fail(err);
    }
  }

  /** The hooks of a list of observers. */
  function HooksOf(obs: seq<DomainEventObserver>): set<EventHook>
  {
    set o | o in obs :: o.hook
  }

  /** OnNext throws on e: an Immediate observer whose delegate rejects e. */
  predicate ThrowsOnNext(o: DomainEventObserver, e: DomainEvent)
  {
    o.kind == ImmediateObserver && e in o.hook.rejects
  }

  /** How far a broadcast of e gets: the first observer that throws, or |obs|. */
  function Reach(obs: seq<DomainEventObserver>, e: DomainEvent): (k: nat)
    ensures k <= |obs|
    ensures forall j :: 0 <= j < k ==> !ThrowsOnNext(obs[j], e)
    ensures k < |obs| ==> ThrowsOnNext(obs[k], e)
  {
    if obs == [] || ThrowsOnNext(obs[0], e) then 0 else 1 + Reach(obs[1..], e)
  }

  /** A broadcast that got to observer i without a throw stops there
      exactly when that observer throws. */
  lemma ReachAt(obs: seq<DomainEventObserver>, e: DomainEvent, i: nat)
    requires i <= Reach(obs, e) && i < |obs|
    ensures ThrowsOnNext(obs[i], e) <==> i == Reach(obs, e)
  {
  }

  /** The queues of the observers, in list order. */
  ghost function Queues(obs: seq<DomainEventObserver>): (r: seq<seq<DomainEvent>>)
    reads set o | o in obs
    ensures |r| == |obs|
  {
    seq(|obs|, j requires 0 <= j < |obs| reads obs => obs[j].queue)
  }

  /** What the delegate of each observer has run so far, in list order. */
  ghost function Records(obs: seq<DomainEventObserver>): (r: seq<seq<DomainEvent>>)
    reads HooksOf(obs)
    ensures |r| == |obs|
  {
    seq(|obs|, j requires 0 <= j < |obs| reads HooksOf(obs) => obs[j].hook.executed)
  }

  /** Before any delivery, a broadcast stands at its start. */
  lemma BroadcastStarts(obs: seq<DomainEventObserver>, e: DomainEvent)
    ensures Broadcast(obs, e, Queues(obs), Records(obs), 0)
  {
  }

  /** Every observer is set up and holds its handle on source. */
  ghost predicate WiredTo(obs: seq<DomainEventObserver>, source: Entity)
    reads (set o | o in obs)`subscription
  {
    forall j :: 0 <= j < |obs| ==> obs[j].Valid() && obs[j].subscription.source == source
  }

  /** A broadcast of e has been delivered to the first n observers, measured
      from the queues and the delegate records it started from. */
  ghost predicate Broadcast(obs: seq<DomainEventObserver>, e: DomainEvent, queues: seq<seq<DomainEvent>>,
                            records: seq<seq<DomainEvent>>, n: nat)
    reads (set o | o in obs), HooksOf(obs)
  {
    n <= |obs| && QueuedUpTo(obs, e, queues, Queues(obs), n) && RanUpTo(obs, e, records, Records(obs), n)
  }

  /** From the queues start to the queues now, each enqueuing observer among
      the first n has received e once and no other observer anything. */
  predicate QueuedUpTo(obs: seq<DomainEventObserver>, e: DomainEvent, start: seq<seq<DomainEvent>>,
                       now: seq<seq<DomainEvent>>, n: nat)
  {
    |start| == |obs| && |now| == |obs|
    && forall j :: 0 <= j < |obs| ==> now[j] == start[j] + Arrived(obs[j], e, j < n)
  }

  /** From the delegate records start to the records now, each delegate has
      run e once for every Immediate observer among the first n that uses it,
      and nothing else. */
  predicate RanUpTo(obs: seq<DomainEventObserver>, e: DomainEvent, start: seq<seq<DomainEvent>>,
                    now: seq<seq<DomainEvent>>, n: nat)
    requires n <= |obs|
  {
    |start| == |obs| && |now| == |obs|
    && forall j :: 0 <= j < |obs| ==> now[j] == start[j] + Repeat(e, ImmediateCount(obs, n, obs[j].hook))
  }

  /** One OnNext on obs[i] moves the queues one observer further when it
      passed: only obs[i]'s queue changed, by what it enqueues. */
  lemma QueuesStep(obs: seq<DomainEventObserver>, e: DomainEvent, start: seq<seq<DomainEvent>>,
                   before: seq<seq<DomainEvent>>, after: seq<seq<DomainEvent>>, i: nat, passed: bool)
    requires i < |obs| && Distinct(obs) && QueuedUpTo(obs, e, start, before, i) && |after| == |obs|
    requires forall j :: 0 <= j < |obs| && obs[j] != obs[i] ==> after[j] == before[j]
    requires after[i] == before[i] + Arrived(obs[i], e, true)
    requires !passed ==> obs[i].kind == ImmediateObserver
    ensures QueuedUpTo(obs, e, start, after, if passed then i + 1 else i)
  {
    forall j | 0 <= j < |obs| && j != i
      ensures obs[j] != obs[i]
    {
      DistinctAt(obs, j, i);
    }
  }

  /** One OnNext on obs[i] moves the delegate records one observer further
      when it passed: only obs[i]'s delegate may have run, and it ran e exactly
      when obs[i] is Immediate. */
  lemma RecordsStep(obs: seq<DomainEventObserver>, e: DomainEvent, start: seq<seq<DomainEvent>>,
                    before: seq<seq<DomainEvent>>, after: seq<seq<DomainEvent>>, i: nat, passed: bool)
    requires i < |obs| && RanUpTo(obs, e, start, before, i) && |after| == |obs|
    requires forall j :: 0 <= j < |obs| && obs[j].hook != obs[i].hook ==> after[j] == before[j]
    requires forall j :: 0 <= j < |obs| && obs[j].hook == obs[i].hook ==>
               after[j] == before[j] + (if passed && obs[i].kind == ImmediateObserver then [e] else [])
    ensures RanUpTo(obs, e, start, after, if passed then i + 1 else i)
  {
    var reached := if passed then i + 1 else i;
    forall j | 0 <= j < |obs|
      ensures after[j] == start[j] + Repeat(e, ImmediateCount(obs, reached, obs[j].hook))
    {
      var h := obs[j].hook;
      var n := ImmediateCount(obs, i, h);
      var runs := passed && obs[i].kind == ImmediateObserver && obs[i].hook == h;
      if passed {
        assert ImmediateCount(obs, i + 1, h)
               == n + (if obs[i].kind == ImmediateObserver && obs[i].hook == h then 1 else 0);
      }
      if runs {
        RepeatOneMore(start[j], e, n);
      } else if h == obs[i].hook {
        assert after[j] == before[j] + [];
      }
    }
  }

  /** How many of the first n observers are Immediate ones that run hook h. */
  function ImmediateCount(obs: seq<DomainEventObserver>, n: nat, h: EventHook): nat
    requires n <= |obs|
  {
    if n == 0 then 0
    else ImmediateCount(obs, n - 1, h) + (if obs[n - 1].kind == ImmediateObserver && obs[n - 1].hook == h then 1 else 0)
  }

  /** What a broadcast of e adds to o's queue: e itself when the broadcast
      reached o and o enqueues. */
  function Arrived(o: DomainEventObserver, e: DomainEvent, reached: bool): (r: seq<DomainEvent>)
    ensures r == [] || r == [e]
  {
    if reached && o.kind != ImmediateObserver then [e] else []
  }

  /** How many queued events the delegate accepts before the first it rejects. */
  function Processed(queue: seq<DomainEvent>, rejects: set<DomainEvent>): (k: nat)
    ensures k <= |queue|
    ensures forall j :: 0 <= j < k ==> queue[j] !in rejects
    ensures k < |queue| ==> queue[k] in rejects
  {
    if queue == [] || queue[0] in rejects then 0 else 1 + Processed(queue[1..], rejects)
  }
}
