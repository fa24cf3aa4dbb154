/**
 * The walk post makes over the listener list of an event's class, as values: which entries
 * run, in which order, what the cancellation flag is at each step, and which handlers fail.
 */
module Dispatching {
  import opened Events
  import opened Registry

  /**
   * Running one handler body on the event: the flag afterwards and whether the handler threw.
   * A setCancelled or cancel on a non-cancellable event throws IllegalStateException, which
   * ends the body like any other exception.
   */
  function RunBody(body: seq<Action>, name: string, cancellable: bool, cancelled: bool): (r: (bool, bool))
    ensures !cancellable ==> r.0 == cancelled
    ensures r.1 <==> (Throw in body || (!cancellable && body != []))
  {
    if body == [] then (cancelled, false)
    else
      match body[0]
      case Throw => (cancelled, true)
      case SetCancelled(v) =>
        var (c, o) := SetCancelledRule(name, cancellable, cancelled, v);
        if o.IllegalState? then (c, true)
        else
          var r := RunBody(body[1..], name, cancellable, c);
          assert body == [body[0]] + body[1..];
          r
      case Cancel =>
        var (c, o) := SetCancelledRule(name, cancellable, cancelled, true);
        if o.IllegalState? then (c, true)
        else
          var r := RunBody(body[1..], name, cancellable, c);
          assert body == [body[0]] + body[1..];
          r
  }

  /** The state of one post after a prefix of the list: the flag, the positions run, the positions that threw. */
  datatype DispatchState = DispatchState(cancelled: bool, invoked: seq<nat>, failed: seq<nat>)

  /** An entry runs unless the event is cancelled and the entry did not ask for cancelled events. */
  predicate Eligible(e: Entry, cancelled: bool)
  {
    !cancelled || e.receiveCancelled
  }

  /**
   * post's loop over `handlers` for an event with the given name and variant whose flag is
   * `cancelled0` on entry. Defined on the prefix, one entry at a time, in list order.
   */
  function Dispatch(handlers: seq<Entry>, name: string, cancellable: bool, cancelled0: bool): DispatchState
    decreases |handlers|
  {
    if handlers == [] then DispatchState(cancelled0, [], [])
    else
      var k := |handlers| - 1;
      var before := Dispatch(handlers[..k], name, cancellable, cancelled0);
      if !Eligible(handlers[k], before.cancelled) then before
      else
        var (c, threw) := RunBody(handlers[k].handler.body, name, cancellable, before.cancelled);
        DispatchState(c, before.invoked + [k], if threw then before.failed + [k] else before.failed)
  }

  /** The flag as the entry at position `k` sees it. */
  function CancelledBefore(handlers: seq<Entry>, name: string, cancellable: bool, cancelled0: bool, k: nat): bool
    requires k <= |handlers|
  {
    Dispatch(handlers[..k], name, cancellable, cancelled0).cancelled
  }

  predicate StrictlyIncreasing(s: seq<nat>)
  {
    forall i, j :: 0 <= i < j < |s| ==> s[i] < s[j]
  }

  /**
   * Entries run at most once each and in list order; every failure is one of the entries run.
   */
  lemma {:induction false} DispatchInOrder(handlers: seq<Entry>, name: string, cancellable: bool, cancelled0: bool)
    ensures var d := Dispatch(handlers, name, cancellable, cancelled0);
      StrictlyIncreasing(d.invoked) &&
      (forall i :: 0 <= i < |d.invoked| ==> d.invoked[i] < |handlers|) &&
      (forall k :: k in d.failed ==> k in d.invoked)
    decreases |handlers|
  {
    if handlers != [] {
      DispatchInOrder(handlers[..|handlers| - 1], name, cancellable, cancelled0);
    }
  }

  lemma PrefixOfPrefix(handlers: seq<Entry>, n: nat, k: nat)
    requires k <= n <= |handlers|
    ensures handlers[..n][..k] == handlers[..k]
  {
  }

  /**
   * The skip rule: the entry at position k runs exactly when the event is not cancelled at
   * that moment or the entry set receiveCancelled. A cancellation by an earlier handler
   * therefore holds for every later entry.
   */
  lemma {:induction false} DispatchSkipRule(handlers: seq<Entry>, name: string, cancellable: bool, cancelled0: bool, k: nat)
    requires k < |handlers|
    ensures k in Dispatch(handlers, name, cancellable, cancelled0).invoked
        <==> Eligible(handlers[k], CancelledBefore(handlers, name, cancellable, cancelled0, k))
    decreases |handlers|
  {
    var n := |handlers| - 1;
    var before := Dispatch(handlers[..n], name, cancellable, cancelled0);
    DispatchInOrder(handlers[..n], name, cancellable, cancelled0);
    if k < n {
      DispatchSkipRule(handlers[..n], name, cancellable, cancelled0, k);
      PrefixOfPrefix(handlers, n, k);
      assert k != n;
    } else {
      assert n !in before.invoked;
      assert handlers[..n] == handlers[..k];
    }
  }

  /**
   * Fault isolation: an entry that threw does not keep any later eligible entry from running.
   */
  lemma FailureDoesNotStopDispatch(handlers: seq<Entry>, name: string, cancellable: bool, cancelled0: bool, j: nat, k: nat)
    requires j < k < |handlers|
    requires j in Dispatch(handlers, name, cancellable, cancelled0).failed
    requires Eligible(handlers[k], CancelledBefore(handlers, name, cancellable, cancelled0, k))
    ensures k in Dispatch(handlers, name, cancellable, cancelled0).invoked
  {
    DispatchSkipRule(handlers, name, cancellable, cancelled0, k);
  }

  /** An entry that set receiveCancelled always runs. */
  lemma ReceiveCancelledAlwaysRuns(handlers: seq<Entry>, name: string, cancellable: bool, cancelled0: bool, k: nat)
    requires k < |handlers| && handlers[k].receiveCancelled
    ensures k in Dispatch(handlers, name, cancellable, cancelled0).invoked
  {
    DispatchSkipRule(handlers, name, cancellable, cancelled0, k);
  }

  /** The positions 0, 1, ..., n - 1. */
  function Positions(n: nat): (r: seq<nat>)
    ensures |r| == n && forall i :: 0 <= i < n ==> r[i] == i
  {
    if n == 0 then [] else Positions(n - 1) + [n - 1]
  }

  /**
   * A plain (non-cancellable) event that is not cancelled reaches every entry, in order, and
   * stays not cancelled: handlers that try to cancel it only fail.
   */
  lemma {:induction false} NonCancellableReachesAll(handlers: seq<Entry>, name: string)
    ensures Dispatch(handlers, name, false, false).invoked == Positions(|handlers|)
    ensures !Dispatch(handlers, name, false, false).cancelled
    decreases |handlers|
  {
    if handlers != [] {
      NonCancellableReachesAll(handlers[..|handlers| - 1], name);
    }
  }

  /**
   * Every entry post runs is one of the list of the event's class: a handler declared for
   * exactly that class, owned by a registered subscriber.
   */
  lemma InvokedAreListed(m: Listeners, owners: set<SubscriberId>, cls: JavaClass, name: string, cancellable: bool, cancelled0: bool)
    requires WellKeyed(m) && OwnedBy(m, owners) && cls in m
    ensures forall k :: k in Dispatch(m[cls], name, cancellable, cancelled0).invoked ==>
      k < |m[cls]| && m[cls][k].handler.params == [cls] && m[cls][k].instance in owners
  {
    DispatchInOrder(m[cls], name, cancellable, cancelled0);
    forall k | k in Dispatch(m[cls], name, cancellable, cancelled0).invoked
      ensures k < |m[cls]| && m[cls][k].handler.params == [cls] && m[cls][k].instance in owners
    {
      assert m[cls][k] in m[cls];
      assert ListedUnder(m[cls][k], cls);
    }
  }

  /** On a list sorted by priority, entries run in non-decreasing priority rank. */
  lemma RunsInPriorityOrder(handlers: seq<Entry>, name: string, cancellable: bool, cancelled0: bool)
    requires Sorted(handlers)
    ensures var d := Dispatch(handlers, name, cancellable, cancelled0);
      (forall i :: 0 <= i < |d.invoked| ==> d.invoked[i] < |handlers|) &&
      forall i, j :: 0 <= i < j < |d.invoked| ==> Rank(handlers[d.invoked[i]]) <= Rank(handlers[d.invoked[j]])
  {
    DispatchInOrder(handlers, name, cancellable, cancelled0);
  }

  /**
   * The first handler cancels; the second, which did not ask for cancelled events, is
   * skipped; the third, which did, still runs and sees the event cancelled.
   */
  lemma CancellationScenario(normal: Entry, high: Entry, monitor: Entry, name: string)
    requires normal.handler.body == [Cancel]
    requires !high.receiveCancelled && monitor.receiveCancelled
    ensures Dispatch([normal, high, monitor], name, true, false).invoked == [0, 2]
    ensures CancelledBefore([normal, high, monitor], name, true, false, 2)
  {
    var hs := [normal, high, monitor];
    assert hs[..0] == [];
    assert hs[..1][..0] == [];
    assert hs[..2][..1] == hs[..1] == [normal];
    assert hs[..3][..2] == hs[..2] == [normal, high];
    assert hs[..3] == hs;
    assert RunBody([Cancel], name, true, false) == (true, false) by {
      assert [Cancel][1..] == [];
    }
    assert Dispatch(hs[..1], name, true, false) == DispatchState(true, [0], []);
    assert Dispatch(hs[..2], name, true, false) == DispatchState(true, [0], []);
  }

  /** A throwing handler is logged, and the next handler still runs. */
  lemma ThrowingHandlerScenario(first: Entry, second: Entry, name: string, cancellable: bool)
    requires first.handler.body == [Throw]
    ensures Dispatch([first, second], name, cancellable, false).invoked == [0, 1]
    ensures 0 in Dispatch([first, second], name, cancellable, false).failed
  {
    var hs := [first, second];
    assert hs[..1][..0] == [];
    assert hs[..2][..1] == hs[..1] == [first];
    assert hs[..2] == hs;
    assert Dispatch(hs[..1], name, cancellable, false) == DispatchState(false, [0], [0]);
  }
}
