/** DomainEventObserverManager: creates one observer per StartListening call,
    all wired to the manager's ExecuteEvent, and completes them on Dispose. */
module ObserverManagement {
  import opened Domain
  import opened Sequences
  import opened Observation

  /** EObserverBehavior, which the manager's switch names ObserverBehavior. */
  datatype ObserverBehavior = Immediate | Deferred

  /** The observer class StartListening instantiates for a behaviour. */
  function KindOf(behavior: ObserverBehavior): (k: ObserverKind)
    ensures k != Plain
    ensures behavior.Immediate? <==> k == ImmediateObserver
  {
    match behavior
    case Immediate => ImmediateObserver
    case Deferred => DeferredObserver
  }

  class DomainEventObserverManager {
    /** ExecuteEvent, the processing strategy a concrete manager supplies. */
    const executeEvent: EventHook
    /** The registered observers, in registration order. */
    var observers: seq<DomainEventObserver>

    /** Every registered observer is distinct, set up, of one of the two
        behaviours, and runs ExecuteEvent; the entities they listen to keep
        duplicate-free observer lists. */
    ghost predicate Valid()
      reads this`observers, (set o | o in observers)`subscription, SourcesOf(observers)`observers
    {
      Registered() && SourcesValid()
    }

    /** The observer list itself: distinct observers, each set up, of one of
        the two behaviours, and running ExecuteEvent. */
    ghost predicate Registered()
      reads this`observers, (set o | o in observers)`subscription
    {
      Distinct(observers)
      && forall j :: 0 <= j < |observers| ==>
           observers[j].Valid() && observers[j].hook == executeEvent && observers[j].kind != Plain
    }

    /** The entities the observers listen to keep duplicate-free lists. */
    ghost predicate SourcesValid()
      reads this`observers, (set o | o in observers)`subscription, SourcesOf(observers)`observers
    {
      forall s :: s in SourcesOf(observers) ==> s.Valid()
    }

    constructor (executeEvent: EventHook)
      ensures this.executeEvent == executeEvent && observers == [] && Valid()
    {
      this.executeEvent := executeEvent;
      observers := [];
    }

    /** StartListening: one new observer of the requested behaviour, which
        subscribes itself to the entity, is appended to the list. */
    method StartListening(observable: Entity, behavior: ObserverBehavior)
      requires Valid() && observable.Valid()
      modifies this`observers, observable`observers
      ensures Valid()
      ensures |observers| == |old(observers)| + 1 && observers[..|old(observers)|] == old(observers)
      ensures fresh(observers[|old(observers)|])
      ensures observers[|old(observers)|].kind == KindOf(behavior)
      ensures observers[|old(observers)|].hook == executeEvent && observers[|old(observers)|].queue == []
      ensures observers[|old(observers)|].subscription.source == observable
      ensures !observers[|old(observers)|].subscription.isDisposed
      ensures observable.observers == old(observable.observers) + [observers[|old(observers)|]]
    {
      var o := new DomainEventObserver(observable, executeEvent, KindOf(behavior));
      DistinctSnoc(observers, o);
      observers := observers + [o];
      assert SourcesOf(observers) == SourcesOf(old(observers)) + {observable};
    }

    /** IsDisposed: every observer's handle is disposed; true when there are
        no observers. */
    function IsDisposed(): (r: bool)
      requires forall j :: 0 <= j < |observers| ==> observers[j].subscription != null
      reads this`observers, (set o | o in observers)`subscription, HandlesOf(observers)`isDisposed
      ensures r <==> forall j :: 0 <= j < |observers| ==> observers[j].subscription.isDisposed
      ensures observers == [] ==> r
    {
      AllDisposed(observers)
    }

    /** Dispose: OnCompleted on every observer in registration order. A throw
        ends the loop before the remaining observers and reaches the caller. */
    method Dispose() returns (r: Outcome)
      requires Valid()
      modifies executeEvent`executed, HandlesOf(observers)`isDisposed, SourcesOf(observers)`observers
      ensures Valid()
      ensures r == Verdict(observers, old(Queues(observers)))
      ensures executeEvent.executed
              == old(executeEvent.executed)
                 + Completion(observers, old(Queues(observers)), Called(observers, old(Queues(observers))))
      ensures forall j :: 0 <= j < |observers| ==>
                observers[j].subscription.isDisposed
                == (j < Halt(observers, old(Queues(observers))) || old(observers[j].subscription.isDisposed))
      ensures forall s :: s in old(SourcesOf(observers)) ==>
                s.observers
                == Omit(old(s.observers), Gone(observers, old(Handles(observers)), Halt(observers, old(Queues(observers))), s))
    {
      ghost var obs, qs, hs, executed0, disposed0, lists0 := Snapshot();
      r := CompleteAll(obs, qs, hs, executed0, disposed0, lists0);
    }

    /** The state Dispose starts from, as values: the observers, their queues
        and handles, the delegate record, the handle states and the lists of
        the entities the observers listen to. Nothing is released yet. */
    lemma Snapshot() returns (obs: seq<DomainEventObserver>, qs: seq<seq<DomainEvent>>, hs: seq<DomainSubscription>,
                              executed0: seq<DomainEvent>, disposed0: seq<bool>,
                              lists0: map<Entity, seq<DomainEventObserver>>)
      requires Valid()
      ensures obs == observers && qs == Queues(observers) && hs == Handles(observers)
      ensures executed0 == executeEvent.executed && lists0.Keys == SourcesOf(observers)
      ensures forall s :: s in lists0 ==> s.observers == lists0[s]
      ensures Handled(obs, hs, lists0) && Progress(0, 0, obs, qs, hs, executed0, disposed0, lists0)
      ensures forall j :: 0 <= j < |obs| ==>
                qs[j] == obs[j].queue && hs[j] == obs[j].subscription && disposed0[j] == hs[j].isDisposed
    {
      obs, qs, hs := observers, Queues(observers), Handles(observers);
      executed0, disposed0 := executeEvent.executed, Disposals(hs);
      lists0 := map s | s in SourcesOf(observers) :: s.observers;
      forall j | 0 <= j < |obs|
        ensures hs[j].observer == obs[j] && hs[j].source in lists0
      {
        assert obs[j].Valid();
      }
      forall s | s in lists0
        ensures s.observers == Omit(lists0[s], Gone(obs, hs, 0, s))
      {
        assert Gone(obs, hs, 0, s) == {};
        OmitAbsent(s.observers, {});
      }
    }

    /** The ForEach of Dispose: completes the observers in order from the
        first, and stops at the first completion that throws. */
    method CompleteAll(ghost obs: seq<DomainEventObserver>, ghost qs: seq<seq<DomainEvent>>,
                       ghost hs: seq<DomainSubscription>, ghost executed0: seq<DomainEvent>, ghost disposed0: seq<bool>,
                       ghost lists0: map<Entity, seq<DomainEventObserver>>)
        returns (r: Outcome)
      requires Valid() && observers == obs && Handled(obs, hs, lists0)
      requires |qs| == |obs| && forall j :: 0 <= j < |obs| ==> qs[j] == obs[j].queue && hs[j] == obs[j].subscription
      requires Progress(0, 0, obs, qs, hs, executed0, disposed0, lists0)
      modifies executeEvent`executed, (set h | h in hs)`isDisposed, lists0.Keys`observers
      ensures Valid() && r == Verdict(obs, qs)
      ensures Progress(Halt(obs, qs), Called(obs, qs), obs, qs, hs, executed0, disposed0, lists0)
    {
      var i := 0;
      r := Pass;
      while i < |observers|
        invariant i <= Halt(obs, qs) && r.Pass?
        invariant Valid() && Progress(i, i, obs, qs, hs, executed0, disposed0, lists0)
        decreases |obs| - i
      {
        r := Complete(i, obs, qs, hs, executed0, disposed0, lists0);
        if r.Fail? {
          break;
        }
        assert !Stalls(obs[i], qs[i]) && i < Halt(obs, qs);
        i := i + 1;
      }
      Stopped(obs, qs, i, r.Pass?);
    }

    /** Dispose's loop state after completing the first ran observers of obs
        and releasing the first n of them, against the queues qs, handles hs,
        delegate record executed0, handle states disposed0 and entity lists
        lists0 it started from: the delegate has run the first ran
        completions, exactly the first n handles are newly disposed, and each
        entity has lost exactly its released observers. */
    ghost predicate Progress(n: nat, ran: nat, obs: seq<DomainEventObserver>, qs: seq<seq<DomainEvent>>,
                             hs: seq<DomainSubscription>, executed0: seq<DomainEvent>, disposed0: seq<bool>,
                             lists0: map<Entity, seq<DomainEventObserver>>)
      reads executeEvent`executed, (set h | h in hs)`isDisposed, lists0.Keys`observers
    {
      && n <= ran <= |obs| == |qs| == |hs| == |disposed0|
      && executeEvent.executed == executed0 + Completion(obs, qs, ran)
      && (forall j :: 0 <= j < |hs| ==> hs[j].isDisposed == (j < n || disposed0[j]))
      && (forall s :: s in lists0 ==> s.observers == Omit(lists0[s], Gone(obs, hs, n, s)))
    }

    /** One step of Dispose's loop: completes the i-th observer and carries
        the loop state over to the next index, or keeps it at i when the
        completion throws. */
    method Complete(i: nat, ghost obs: seq<DomainEventObserver>, ghost qs: seq<seq<DomainEvent>>,
                    ghost hs: seq<DomainSubscription>, ghost executed0: seq<DomainEvent>, ghost disposed0: seq<bool>,
                    ghost lists0: map<Entity, seq<DomainEventObserver>>)
        returns (r: Outcome)
      requires Valid() && observers == obs && i < |obs| && Handled(obs, hs, lists0)
      requires Progress(i, i, obs, qs, hs, executed0, disposed0, lists0)
      requires qs[i] == obs[i].queue && hs[i] == obs[i].subscription
      modifies {executeEvent}`executed, {obs[i].subscription}`isDisposed, {obs[i].subscription.source}`observers
      ensures r == Settle(obs[i], qs[i])
      ensures Valid() && Progress(if r.Pass? then i + 1 else i, i + 1, obs, qs, hs, executed0, disposed0, lists0)
    {
      var o := observers[i];
      ghost var src, before := hs[i].source, executeEvent.executed;
      r := Finish(i);
      ghost var n := if r.Pass? then i + 1 else i;
      CompletionStep(obs, qs, i, executed0, before, executeEvent.executed);
      forall j | 0 <= j < |hs|
        ensures hs[j].isDisposed == (j < n || disposed0[j])
      {
        if j != i {
          DistinctAt(obs, j, i);
        }
      }
      forall s | s in lists0
        ensures s.observers == Omit(lists0[s], Gone(obs, hs, n, s))
      {
        if r.Pass? {
          ReleaseStep(lists0[s], old(s.observers), s.observers, obs, hs, i, s);
        }
      }
      assert Progress(n, i + 1, obs, qs, hs, executed0, disposed0, lists0);
    }

    /** The callback Dispose hands to ForEach, applied to the i-th observer:
        OnCompleted, which disposes its handle and leaves its entity's list
        unless the delegate throws. */
    method Finish(i: nat) returns (r: Outcome)
      requires Valid() && i < |observers|
      modifies {executeEvent}`executed, {observers[i].subscription}`isDisposed,
               {observers[i].subscription.source}`observers
      ensures r == Settle(observers[i], observers[i].queue)
      ensures Valid()
      ensures executeEvent.executed == old(executeEvent.executed) + Drain(observers[i], observers[i].queue)
      ensures observers[i].subscription.isDisposed == (r.Pass? || old(observers[i].subscription.isDisposed))
      ensures observers[i].subscription.source.observers
              == if r.Pass? then Omit(old(observers[i].subscription.source.observers), {observers[i]})
                 else old(observers[i].subscription.source.observers)
    {
      var o := observers[i];
      ghost var srcs := SourcesOf(observers);
      r := o.OnCompleted();
      assert Registered();
      assert SourcesOf(observers) == srcs;
      forall s | s in srcs
        ensures s.Valid()
      {
        if s != o.subscription.source {
          assert s.observers == old(s.observers) && old(s.Valid());
        }
      }
    }
  }

  /** The handles of a list of observers. */
  function HandlesOf(obs: seq<DomainEventObserver>): set<DomainSubscription>
    reads (set o | o in obs)`subscription
  {
    set o | o in obs && o.subscription != null :: o.subscription
  }

  /** The entities a list of observers listens to. */
  function SourcesOf(obs: seq<DomainEventObserver>): set<Entity>
    reads (set o | o in obs)`subscription
  {
    set o | o in obs && o.subscription != null :: o.subscription.source
  }

  /** Enumerable.All over the observers' IsDisposed. */
  function AllDisposed(obs: seq<DomainEventObserver>): (r: bool)
    requires forall j :: 0 <= j < |obs| ==> obs[j].subscription != null
    reads (set o | o in obs)`subscription, HandlesOf(obs)`isDisposed
    ensures r <==> forall j :: 0 <= j < |obs| ==> obs[j].subscription.isDisposed
  {
    obs == [] || (obs[0].subscription.isDisposed && AllDisposed(obs[1..]))
  }

  /** Whether each handle is disposed, in list order. */
  ghost function Disposals(hs: seq<DomainSubscription>): (r: seq<bool>)
    reads set h | h in hs
    ensures |r| == |hs|
    ensures forall j :: 0 <= j < |hs| ==> r[j] == hs[j].isDisposed
  {
    if hs == [] then [] else [hs[0].isDisposed] + Disposals(hs[1..])
  }

  /** The handles of the observers, in list order. */
  ghost function Handles(obs: seq<DomainEventObserver>): (r: seq<DomainSubscription>)
    requires forall j :: 0 <= j < |obs| ==> obs[j].subscription != null
    reads set o | o in obs
    ensures |r| == |obs|
    ensures forall j :: 0 <= j < |obs| ==> r[j] == obs[j].subscription
  {
    if obs == [] then [] else [obs[0].subscription] + Handles(obs[1..])
  }

  /** The handles hs belong one to one to the distinct observers obs, and
      their entities are the keys of lists0. */
  ghost predicate Handled(obs: seq<DomainEventObserver>, hs: seq<DomainSubscription>,
                          lists0: map<Entity, seq<DomainEventObserver>>)
  {
    && |hs| == |obs| && Distinct(obs)
    && forall j :: 0 <= j < |obs| ==> hs[j].observer == obs[j] && hs[j].source in lists0
  }

  /** The observers among the first n whose handle (in hs) is on s. */
  function Gone(obs: seq<DomainEventObserver>, hs: seq<DomainSubscription>, n: nat, s: Entity): set<DomainEventObserver>
    requires n <= |obs| == |hs|
  {
    set j | 0 <= j < n && hs[j].source == s :: obs[j]
  }

  /** One entity's list: removing x on top of the observers gone so far
      leaves the original list without both. */
  lemma ListStep<T>(list0: seq<T>, before: seq<T>, after: seq<T>, gone: set<T>, x: T, hit: bool)
    requires before == Omit(list0, gone)
    requires after == if hit then Omit(before, {x}) else before
    ensures after == Omit(list0, if hit then gone + {x} else gone)
  {
    if hit {
      OmitTwice(list0, gone, {x});
    }
  }

  /** Completing obs[i] appends what it drains to the delegate record. */
  lemma CompletionStep(obs: seq<DomainEventObserver>, qs: seq<seq<DomainEvent>>, i: nat,
                       executed0: seq<DomainEvent>, before: seq<DomainEvent>, after: seq<DomainEvent>)
    requires i < |obs| == |qs|
    requires before == executed0 + Completion(obs, qs, i)
    requires after == before + Drain(obs[i], qs[i])
    ensures after == executed0 + Completion(obs, qs, i + 1)
  {
  }

  /** Releasing obs[i] removes it from the list of its own entity s, and
      leaves every other entity's list as it was. */
  lemma ReleaseStep(list0: seq<DomainEventObserver>, before: seq<DomainEventObserver>, after: seq<DomainEventObserver>,
                    obs: seq<DomainEventObserver>, hs: seq<DomainSubscription>, i: nat, s: Entity)
    requires i < |obs| == |hs|
    requires before == Omit(list0, Gone(obs, hs, i, s))
    requires after == if hs[i].source == s then Omit(before, {obs[i]}) else before
    ensures after == Omit(list0, Gone(obs, hs, i + 1, s))
  {
    GoneStep(obs, hs, i, s);
    ListStep(list0, before, after, Gone(obs, hs, i, s), obs[i], hs[i].source == s);
  }

  /** Releasing obs[i] adds it to what is gone from its own entity only. */
  lemma GoneStep(obs: seq<DomainEventObserver>, hs: seq<DomainSubscription>, i: nat, s: Entity)
    requires i < |obs| == |hs|
    ensures Gone(obs, hs, i + 1, s)
            == if hs[i].source == s then Gone(obs, hs, i, s) + {obs[i]} else Gone(obs, hs, i, s)
  {
    var extra := if hs[i].source == s then {obs[i]} else {};
    forall x | x in Gone(obs, hs, i + 1, s)
      ensures x in Gone(obs, hs, i, s) + extra
    {
      var j :| 0 <= j < i + 1 && hs[j].source == s && obs[j] == x;
      if j < i {
        assert x in Gone(obs, hs, i, s);
      }
    }
    forall x | x in Gone(obs, hs, i, s) + extra
      ensures x in Gone(obs, hs, i + 1, s)
    {
      if x in Gone(obs, hs, i, s) {
        var j :| 0 <= j < i && hs[j].source == s && obs[j] == x;
        assert obs[j] in Gone(obs, hs, i + 1, s);
      } else {
        assert obs[i] in Gone(obs, hs, i + 1, s);
      }
    }
  }

  /** Completing o, whose queue is queue, throws: a Deferred observer whose
      delegate rejects one of the queued events. */
  predicate Stalls(o: DomainEventObserver, queue: seq<DomainEvent>)
  {
    o.kind == DeferredObserver && Processed(queue, o.hook.rejects) < |queue|
  }

  /** What completing o runs through its delegate: a Deferred observer's
      queue up to the first event the delegate rejects; nothing otherwise. */
  function Drain(o: DomainEventObserver, queue: seq<DomainEvent>): (r: seq<DomainEvent>)
    ensures o.kind != DeferredObserver ==> r == []
    ensures o.kind == DeferredObserver && !Stalls(o, queue) ==> r == queue
    ensures r <= queue
  {
    if o.kind == DeferredObserver then queue[..Processed(queue, o.hook.rejects)] else []
  }

  /** A loop over obs that got to i without a throw, and either ran out of
      observers or met one that throws, stopped where Dispose stops. */
  lemma Stopped(obs: seq<DomainEventObserver>, qs: seq<seq<DomainEvent>>, i: nat, pass: bool)
    requires |qs| == |obs| && i <= Halt(obs, qs)
    requires if pass then i == |obs| else i < |obs| && Stalls(obs[i], qs[i])
    ensures i == Halt(obs, qs) && Called(obs, qs) == if pass then i else i + 1
  {
  }

  /** Where Dispose stops: the first observer whose completion throws, or
      |obs| when none does. */
  function Halt(obs: seq<DomainEventObserver>, qs: seq<seq<DomainEvent>>): (k: nat)
    requires |qs| == |obs|
    ensures k <= |obs|
    ensures forall j :: 0 <= j < k ==> !Stalls(obs[j], qs[j])
    ensures k < |obs| ==> Stalls(obs[k], qs[k])
  {
    if obs == [] || Stalls(obs[0], qs[0]) then 0 else 1 + Halt(obs[1..], qs[1..])
  }

  /** How many observers Dispose calls OnCompleted on: all up to and
      including the one that throws. */
  function Called(obs: seq<DomainEventObserver>, qs: seq<seq<DomainEvent>>): (n: nat)
    requires |qs| == |obs|
    ensures n <= |obs|
  {
    var h := Halt(obs, qs);
    if h < |obs| then h + 1 else |obs|
  }

  /** What completing the first n observers, in order, runs through the
      delegates. */
  function Completion(obs: seq<DomainEventObserver>, qs: seq<seq<DomainEvent>>, n: nat): seq<DomainEvent>
    requires |qs| == |obs| && n <= |obs|
  {
    if n == 0 then [] else Completion(obs, qs, n - 1) + Drain(obs[n - 1], qs[n - 1])
  }

  /** What Dispose returns: the rejection that stopped it, or success. */
  function Verdict(obs: seq<DomainEventObserver>, qs: seq<seq<DomainEvent>>): (r: Outcome)
    requires |qs| == |obs|
    ensures r.Pass? <==> Halt(obs, qs) == |obs|
  {
    var h := Halt(obs, qs);
    if h < |obs| then Settle(obs[h], qs[h]) else Pass
  }

  /** What completing o, whose queue is queue, returns: the first queued
      event its delegate rejects, when it stalls; success otherwise. */
  function Settle(o: DomainEventObserver, queue: seq<DomainEvent>): (r: Outcome)
    ensures r.Fail? <==> Stalls(o, queue)
    ensures r.Fail? ==> r.error == DeliveryFailure(queue[Processed(queue, o.hook.rejects)])
  {
    if Stalls(o, queue) then Fail(DeliveryFailure(queue[Processed(queue, o.hook.rejects)])) else Pass
  }

  /** Completing an observer fails exactly when it is Deferred and its
      delegate rejects one of the queued events, and the failure names the
      first queued event the delegate rejects. */
  lemma SettleFailsOnFirstRejected(o: DomainEventObserver, queue: seq<DomainEvent>)
    ensures Settle(o, queue).Fail?
            <==> o.kind == DeferredObserver && exists j :: 0 <= j < |queue| && queue[j] in o.hook.rejects
    ensures Settle(o, queue).Fail? ==>
              exists k :: 0 <= k < |queue| && queue[k] in o.hook.rejects
                && (forall j :: 0 <= j < k ==> queue[j] !in o.hook.rejects)
                && Settle(o, queue).error == DeliveryFailure(queue[k])
  {
    var k := Processed(queue, o.hook.rejects);
    if o.kind == DeferredObserver && exists j :: 0 <= j < |queue| && queue[j] in o.hook.rejects {
      var j :| 0 <= j < |queue| && queue[j] in o.hook.rejects;
      assert k <= j;
    }
  }
}
