/**
 * The event bus: a registry of subscriber handlers keyed by event class, and a dispatcher
 * that walks the list of an event's exact runtime class.
 */
module Bus {
  import opened Events
  import opened Registry
  import opened Dispatching

  /**
   * Invokes a handler on the event: the body's steps run in order against the event's own
   * setCancelled and cancel; the first exception ends the body and is reported as `threw`.
   */
  method Invoke(handler: DeclaredMethod, event: Event) returns (threw: bool)
    modifies event
    ensures (event.cancelled, threw) == RunBody(handler.body, event.name, event.cancellable, old(event.cancelled))
  {
    var body := handler.body;
    var i := 0;
    threw := false;
    while i < |body| && !threw
      invariant 0 <= i <= |body|
      decreases |body| - i
      invariant !threw ==>
        RunBody(body[i..], event.name, event.cancellable, event.cancelled)
          == RunBody(body, event.name, event.cancellable, old(event.cancelled))
      invariant threw ==> (event.cancelled, true) == RunBody(body, event.name, event.cancellable, old(event.cancelled))
    {
      assert body[i..] == [body[i]] + body[i + 1..];
      var outcome: Outcome;
      match body[i] {
        case Throw =>
          threw := true;
        case SetCancelled(v) =>
          outcome := event.SetCancelled(v);
          threw := outcome.IllegalState?;
        case Cancel =>
          outcome := event.Cancel();
          threw := outcome.IllegalState?;
      }
      i := i + 1;
    }
  }

  class EventBus {
    const name: string
    var listeners: Listeners
    var registeredObjects: set<SubscriberId>

    /**
     * Every list is sorted by priority rank, every entry sits under its handler's parameter
     * class, and every entry belongs to a registered subscriber.
     */
    ghost predicate Valid()
      reads this
    {
      AllSorted(listeners) && WellKeyed(listeners) && OwnedBy(listeners, registeredObjects)
    }

    /** EventBus(String name): an empty bus. */
    constructor (name: string)
      ensures Valid() && this.name == name
      ensures listeners == map[] && registeredObjects == {}
    {
      this.name := name;
      listeners := map[];
      registeredObjects := {};
    }

    /** EventBus(): an empty bus named "default". */
    constructor Default()
      ensures Valid() && name == "default"
      ensures listeners == map[] && registeredObjects == {}
    {
      name := "default";
      listeners := map[];
      registeredObjects := {};
    }

    function GetName(): string
    {
      name
    }

    /**
     * Registers every annotated handler of `listener`, whose class declares `methods`.
     * A subscriber seen before is ignored. Otherwise it joins the registered set first, then
     * each annotated method is validated and added in declaration order; the first invalid
     * one raises IllegalArgumentException and leaves the handlers added before it in place.
     */
    method Register(listener: SubscriberId, methods: seq<DeclaredMethod>) returns (outcome: RegisterOutcome)
      requires Valid()
      modifies this
      ensures Valid()
      ensures listener in old(registeredObjects) ==>
        listeners == old(listeners) && registeredObjects == old(registeredObjects) && outcome == Registered
      ensures listener !in old(registeredObjects) ==>
        registeredObjects == old(registeredObjects) + {listener} &&
        (listeners, outcome) == AddHandlers(old(listeners), listener, methods)
      ensures listener !in old(registeredObjects) ==>
        TotalCount(listeners) == TotalCount(old(listeners)) + |Accepted(methods)| &&
        outcome == (if FirstInvalid(methods).Some? then InvalidHandler(FirstInvalid(methods).value) else Registered)
    {
      if listener in registeredObjects {
        return Registered;
      }
      AddHandlersCount(listeners, listener, methods);
      AddHandlersOutcome(listeners, listener, methods);
      registeredObjects := registeredObjects + {listener};
      var i := 0;
      while i < |methods|
        invariant 0 <= i <= |methods|
        invariant Valid()
        invariant registeredObjects == old(registeredObjects) + {listener}
        invariant AddHandlers(listeners, listener, methods[i..]) == AddHandlers(old(listeners), listener, methods)
      {
        var m := methods[i];
        assert methods[i..][0] == m && methods[i..][1..] == methods[i + 1..];
        if m.subscribe.None? {
          i := i + 1;
          continue;
        }
        if |m.params| != 1 || !m.params[0].extendsEvent {
          return InvalidHandler(m);
        }
        assert AddHandlers(listeners, listener, methods[i..])
            == AddHandlers(AddListener(listeners, m.params[0], ToEntry(listener, m)), listener, methods[i + 1..]);
        AddHandler(listener, m);
        i := i + 1;
      }
      outcome := Registered;
    }

    /**
     * The body of register's loop for a valid annotated method: build the entry, add it to the
     * list of its parameter class and re-sort that list.
     */
    method AddHandler(listener: SubscriberId, m: DeclaredMethod)
      requires Valid() && listener in registeredObjects
      requires m.subscribe.Some? && IsValidHandler(m)
      modifies this
      ensures Valid()
      ensures registeredObjects == old(registeredObjects)
      ensures listeners == AddListener(old(listeners), m.params[0], ToEntry(listener, m))
    {
      var eventClass := m.params[0];
      var reg := RegisteredListener(listener, m, m.subscribe.value.priority, m.subscribe.value.receiveCancelled);
      ghost var before := listeners;
      Append(eventClass, reg);
      SortListeners(eventClass);
      assert listeners == AddListener(before, eventClass, reg);
      AddListenerValid(before, registeredObjects, listener, m);
    }

    /** computeIfAbsent(eventClass, new list).add(reg). */
    method Append(eventClass: JavaClass, reg: Entry)
      modifies this
      ensures registeredObjects == old(registeredObjects)
      ensures listeners == old(listeners)[eventClass := Get(old(listeners), eventClass) + [reg]]
    {
      var list := if eventClass in listeners then listeners[eventClass] else [];
      listeners := listeners[eventClass := list + [reg]];
    }

    /** Sorts the list of `eventClass` by priority rank, if there is one. */
    method SortListeners(eventClass: JavaClass)
      modifies this
      ensures registeredObjects == old(registeredObjects)
      ensures eventClass in old(listeners) ==>
        listeners == old(listeners)[eventClass := SortByRank(old(listeners)[eventClass])]
      ensures eventClass !in old(listeners) ==> listeners == old(listeners)
    {
      if eventClass in listeners {
        listeners := listeners[eventClass := SortByRank(listeners[eventClass])];
      }
    }

    /**
     * Forgets `listener`: nothing happens unless it is registered; otherwise it leaves the
     * registered set and every one of its entries leaves every list.
     */
    method Unregister(listener: SubscriberId)
      requires Valid()
      modifies this
      ensures Valid()
      ensures listener !in old(registeredObjects) ==>
        listeners == old(listeners) && registeredObjects == old(registeredObjects)
      ensures listener in old(registeredObjects) ==>
        registeredObjects == old(registeredObjects) - {listener} &&
        listeners == RemoveSubscriber(old(listeners), listener)
    {
      if listener !in registeredObjects {
        return;
      }
      RemoveSubscriberWellFormed(listeners, registeredObjects, listener);
      registeredObjects := registeredObjects - {listener};
      RemoveFromAllLists(listener);
    }

    /** The loop of unregister: removeIf on every list, in whatever order the map yields them. */
    method RemoveFromAllLists(listener: SubscriberId)
      modifies this
      ensures registeredObjects == old(registeredObjects)
      ensures listeners == RemoveSubscriber(old(listeners), listener)
    {
      var todo := listeners.Keys;
      while todo != {}
        invariant todo <= listeners.Keys && listeners.Keys == old(listeners).Keys
        invariant registeredObjects == old(registeredObjects)
        invariant forall c :: c in listeners && c !in todo ==> listeners[c] == Without(old(listeners)[c], listener)
        invariant forall c :: c in todo ==> listeners[c] == old(listeners)[c]
        decreases todo
      {
        var c :| c in todo;
        listeners := listeners[c := Without(listeners[c], listener)];
        todo := todo - {c};
      }
    }

    /**
     * Delivers `event` to the entries of its exact runtime class, in list order. An entry is
     * skipped when the event is cancelled at that moment and the entry did not ask for
     * cancelled events; a handler's exception is logged and the walk goes on. Returns the
     * same event, the positions of the entries run and the positions of those that threw.
     */
    method Post(event: Event) returns (result: Event, invoked: seq<nat>, logged: seq<nat>)
      requires Valid()
      modifies event
      ensures result == event
      ensures event.runtimeClass !in listeners ==>
        invoked == [] && logged == [] && event.cancelled == old(event.cancelled)
      ensures event.runtimeClass in listeners ==>
        DispatchState(event.cancelled, invoked, logged)
          == Dispatch(listeners[event.runtimeClass], event.name, event.cancellable, old(event.cancelled))
      ensures forall k :: k in invoked ==>
        event.runtimeClass in listeners && k < |listeners[event.runtimeClass]| &&
        listeners[event.runtimeClass][k].handler.params == [event.runtimeClass] &&
        listeners[event.runtimeClass][k].instance in registeredObjects
    {
      if event.runtimeClass !in listeners {
        return event, [], [];
      }
      var handlers := listeners[event.runtimeClass];
      invoked, logged := [], [];
      for i := 0 to |handlers|
        invariant DispatchState(event.cancelled, invoked, logged)
               == Dispatch(handlers[..i], event.name, event.cancellable, old(event.cancelled))
      {
        assert handlers[..i + 1][..i] == handlers[..i];
        var l := handlers[i];
        if event.IsCancelled() && !l.receiveCancelled {
          continue;
        }
        var threw := Invoke(l.handler, event);
        invoked := invoked + [i];
        if threw {
          logged := logged + [i];
        }
      }
      assert handlers[..|handlers|] == handlers;
      InvokedAreListed(listeners, registeredObjects, event.runtimeClass, event.name, event.cancellable, old(event.cancelled));
      result := event;
    }

    /** The number of entries over all lists. */
    method GetListenerCount() returns (count: nat)
      ensures count == TotalCount(listeners)
    {
      var todo := listeners.Keys;
      count := 0;
      while todo != {}
        invariant todo <= listeners.Keys
        invariant count + SumLengths(listeners, todo) == TotalCount(listeners)
        decreases todo
      {
        var c :| c in todo;
        SumLengthsPick(listeners, todo, c);
        count := count + |listeners[c]|;
        todo := todo - {c};
      }
    }
  }
}
