/** Events and their cancellation state. */
module Events {

  /**
   * A Java class, told apart by its qualified name (class loaders are not modelled, so two
   * classes of one name are the same class here). `extendsEvent` says whether Event is
   * assignable from it; `simpleName` is what the class reports as its simple name.
   */
  datatype JavaClass = JavaClass(qualifiedName: string, simpleName: string, isAbstract: bool, extendsEvent: bool)

  /** The runtime class of an event object: Java can only instantiate concrete event classes. */
  predicate IsEventClass(c: JavaClass)
  {
    c.extendsEvent && !c.isAbstract
  }

  /** What a call to setCancelled or cancel reports: normal return or IllegalStateException. */
  datatype Outcome = Done | IllegalState(message: string)

  /** The message of the IllegalStateException raised for a non-cancellable event. */
  function NotCancellableMessage(name: string): string
  {
    "Event " + name + " is not cancellable!"
  }

  /**
   * The rule of setCancelled on the cancellation flag: the new flag and the outcome, given
   * whether the event is cancellable, its current flag and the requested value.
   */
  function SetCancelledRule(name: string, cancellable: bool, cancelled: bool, value: bool): (r: (bool, Outcome))
    ensures r.1 == Done <==> cancellable
    ensures cancellable ==> r.0 == value
    ensures !cancellable ==> r.0 == cancelled && r.1 == IllegalState(NotCancellableMessage(name))
  {
    if !cancellable then (cancelled, IllegalState(NotCancellableMessage(name)))
    else (value, Done)
  }

  /**
   * An event object. `cancellable` is fixed by the variant the concrete class extends:
   * false for a plain Event, true for a CancellableEvent.
   */
  class Event {
    const runtimeClass: JavaClass
    const name: string
    const cancellable: bool
    var cancelled: bool

    /** Event(String name): a plain event with an explicit name. */
    constructor Plain(cls: JavaClass, name: string)
      requires IsEventClass(cls)
      ensures runtimeClass == cls && this.name == name
      ensures !cancellable && !cancelled
    {
      runtimeClass := cls;
      this.name := name;
      cancellable := false;
      cancelled := false;
    }

    /** Event(): a plain event named after the simple name of its class. */
    constructor PlainDefault(cls: JavaClass)
      requires IsEventClass(cls)
      ensures runtimeClass == cls && name == cls.simpleName
      ensures !cancellable && !cancelled
    {
      runtimeClass := cls;
      name := cls.simpleName;
      cancellable := false;
      cancelled := false;
    }

    /** CancellableEvent(String name): delegates the name to Event unchanged. */
    constructor Cancellable(cls: JavaClass, name: string)
      requires IsEventClass(cls)
      ensures runtimeClass == cls && this.name == name
      ensures cancellable && !cancelled
    {
      runtimeClass := cls;
      this.name := name;
      cancellable := true;
      cancelled := false;
    }

    /** CancellableEvent(): delegates to Event(), so the name is the class's simple name. */
    constructor CancellableDefault(cls: JavaClass)
      requires IsEventClass(cls)
      ensures runtimeClass == cls && name == cls.simpleName
      ensures cancellable && !cancelled
    {
      runtimeClass := cls;
      name := cls.simpleName;
      cancellable := true;
      cancelled := false;
    }

    function GetName(): string
    {
      name
    }

    function IsCancellable(): bool
    {
      cancellable
    }

    function IsCancelled(): bool
      reads this
    {
      cancelled
    }

    /** Sets the flag on a cancellable event; on any other it raises IllegalStateException. */
    method SetCancelled(value: bool) returns (outcome: Outcome)
      modifies this
      ensures outcome == Done <==> cancellable
      ensures cancellable ==> cancelled == value
      ensures !cancellable ==> cancelled == old(cancelled) && outcome == IllegalState(NotCancellableMessage(name))
      ensures (cancelled, outcome) == SetCancelledRule(name, cancellable, old(cancelled), value)
    {
      if !IsCancellable() {
        return IllegalState(NotCancellableMessage(name));
      }
      cancelled := value;
      outcome := Done;
    }

    /** cancel() is setCancelled(true), exception included. */
    method Cancel() returns (outcome: Outcome)
      modifies this
      ensures (cancelled, outcome) == SetCancelledRule(name, cancellable, old(cancelled), true)
      ensures outcome == Done <==> cancellable
      ensures cancellable ==> cancelled
      ensures !cancellable ==> cancelled == old(cancelled)
    {
      outcome := SetCancelled(true);
    }
  }

  /** A cancellable event can always be cancelled, and setCancelled(false) resets it afterwards. */
  method CancelThenReset(e: Event) returns (first: Outcome, second: Outcome)
    requires e.IsCancellable()
    modifies e
    ensures first == Done && second == Done
    ensures !e.IsCancelled()
  {
    first := e.Cancel();
    assert e.IsCancelled();
    second := e.SetCancelled(false);
  }

  /** A freshly built plain event rejects cancel() and stays not cancelled. */
  method CancelPlainEvent(cls: JavaClass, name: string) returns (e: Event, outcome: Outcome)
    requires IsEventClass(cls)
    ensures outcome == IllegalState(NotCancellableMessage(name))
    ensures !e.IsCancellable() && !e.IsCancelled() && e.GetName() == name
  {
    e := new Event.Plain(cls, name);
    outcome := e.Cancel();
  }

}
