/**
 * The listener registry of the event bus as values: entries, the per-class lists kept
 * sorted by priority rank, handler discovery and validation, and removal of a subscriber.
 */
module Registry {
  import opened Priorities
  import opened Events

  datatype Option<T> = None | Some(value: T)

  /** The identity of a subscriber object (equality and reference identity coincide). */
  type SubscriberId = nat

  /** One step a handler body takes on the event it receives. */
  datatype Action = SetCancelled(value: bool) | Cancel | Throw

  /** The values of a @Subscribe annotation. */
  datatype Subscribe = Subscribe(priority: Priority, receiveCancelled: bool)

  /**
   * A method declared by a subscriber's class: its parameter types, its @Subscribe annotation
   * if it has one, and the abstract effect of its body.
   */
  datatype DeclaredMethod = DeclaredMethod(name: string, params: seq<JavaClass>, subscribe: Option<Subscribe>, body: seq<Action>)

  /** A registry entry: which object, which method, at which priority, and whether it wants cancelled events. */
  datatype Entry = RegisteredListener(instance: SubscriberId, handler: DeclaredMethod, priority: Priority, receiveCancelled: bool)

  /** The listener map: event class to its entries. */
  type Listeners = map<JavaClass, seq<Entry>>

  /** What register reports: normal return or IllegalArgumentException naming the method. */
  datatype RegisterOutcome = Registered | InvalidHandler(handler: DeclaredMethod)

  // ---------------------------------------------------------------- ordering

  function Rank(e: Entry): int
  {
    e.priority.GetValue()
  }

  predicate Sorted(s: seq<Entry>)
  {
    forall i, j :: 0 <= i < j < |s| ==> Rank(s[i]) <= Rank(s[j])
  }

  /** The entries of `s` whose rank is `k`, in their order in `s`. */
  function WithRank(s: seq<Entry>, k: int): seq<Entry>
  {
    if s == [] then []
    else (if Rank(s[0]) == k then [s[0]] else []) + WithRank(s[1..], k)
  }

  /** Inserts `e` after every entry of rank at most its own. */
  function InsertByRank(s: seq<Entry>, e: Entry): (r: seq<Entry>)
    ensures |r| == |s| + 1
  {
    if s == [] then [e]
    else if Rank(e) < Rank(s[0]) then [e] + s
    else [s[0]] + InsertByRank(s[1..], e)
  }

  /** List.sort by priority rank: a stable insertion sort. */
  function SortByRank(s: seq<Entry>): (r: seq<Entry>)
    ensures |r| == |s|
  {
    if s == [] then [] else InsertByRank(SortByRank(s[..|s| - 1]), s[|s| - 1])
  }

  lemma {:induction false} WithRankAppend(a: seq<Entry>, b: seq<Entry>, k: int)
    ensures WithRank(a + b, k) == WithRank(a, k) + WithRank(b, k)
  {
    if a != [] {
      assert (a + b)[1..] == a[1..] + b;
      WithRankAppend(a[1..], b, k);
    } else {
      assert a + b == b;
    }
  }

  lemma {:induction false} WithRankAbsent(s: seq<Entry>, k: int)
    requires forall i :: 0 <= i < |s| ==> Rank(s[i]) != k
    ensures WithRank(s, k) == []
  {
    if s != [] {
      WithRankAbsent(s[1..], k);
    }
  }

  lemma {:induction false} InsertByRankPermutes(s: seq<Entry>, e: Entry)
    ensures multiset(InsertByRank(s, e)) == multiset(s) + multiset{e}
  {
    if s != [] && Rank(e) >= Rank(s[0]) {
      InsertByRankPermutes(s[1..], e);
      assert s == [s[0]] + s[1..];
    }
  }

  lemma {:induction false} InsertByRankSorted(s: seq<Entry>, e: Entry)
    requires Sorted(s)
    ensures Sorted(InsertByRank(s, e))
  {
    if s != [] && Rank(e) >= Rank(s[0]) {
      InsertByRankSorted(s[1..], e);
      InsertByRankPermutes(s[1..], e);
      var t := InsertByRank(s[1..], e);
      forall j | 0 <= j < |t|
        ensures Rank(s[0]) <= Rank(t[j])
      {
        assert t[j] in multiset(t);
        assert t[j] in s[1..] || t[j] == e;
      }
    }
  }

  /** Insertion keeps, rank by rank, the old entries first and `e` after them. */
  lemma {:induction false} InsertByRankStable(s: seq<Entry>, e: Entry, k: int)
    requires Sorted(s)
    ensures WithRank(InsertByRank(s, e), k) == WithRank(s, k) + WithRank([e], k)
  {
    if s == [] {
      assert InsertByRank(s, e) == [e];
    } else if Rank(e) < Rank(s[0]) {
      InsertFirstStable(s, e, k);
    } else {
      assert Sorted(s[1..]);
      InsertByRankStable(s[1..], e, k);
      InsertLaterStable(s, e, k);
    }
  }

  /** Insertion in front of a sorted list whose first entry outranks `e`. */
  lemma InsertFirstStable(s: seq<Entry>, e: Entry, k: int)
    requires Sorted(s) && s != [] && Rank(e) < Rank(s[0])
    ensures WithRank(InsertByRank(s, e), k) == WithRank(s, k) + WithRank([e], k)
  {
    assert InsertByRank(s, e) == [e] + s;
    WithRankAppend([e], s, k);
    if k == Rank(e) {
      WithRankAbsent(s, k);
    } else {
      assert WithRank([e], k) == [] + WithRank([e][1..], k);
      assert [e][1..] == [];
    }
  }

  /** Insertion past the first entry, given the result for the rest of the list. */
  lemma InsertLaterStable(s: seq<Entry>, e: Entry, k: int)
    requires s != [] && Rank(e) >= Rank(s[0])
    requires WithRank(InsertByRank(s[1..], e), k) == WithRank(s[1..], k) + WithRank([e], k)
    ensures WithRank(InsertByRank(s, e), k) == WithRank(s, k) + WithRank([e], k)
  {
    var t := InsertByRank(s[1..], e);
    var u := InsertByRank(s, e);
    var x := if Rank(s[0]) == k then [s[0]] else [];
    assert u == [s[0]] + t;
    assert u[0] == s[0] && u[1..] == t;
    assert WithRank(u, k) == x + WithRank(t, k);
    assert (x + WithRank(s[1..], k)) + WithRank([e], k) == x + (WithRank(s[1..], k) + WithRank([e], k));
  }

  /** The sort returns a list sorted by non-decreasing rank. */
  lemma {:induction false} SortByRankSorted(s: seq<Entry>)
    ensures Sorted(SortByRank(s))
  {
    if s != [] {
      SortByRankSorted(s[..|s| - 1]);
      InsertByRankSorted(SortByRank(s[..|s| - 1]), s[|s| - 1]);
    }
  }

  /** The sort is a permutation of its input. */
  lemma {:induction false} SortByRankPermutes(s: seq<Entry>)
    ensures multiset(SortByRank(s)) == multiset(s)
  {
    if s != [] {
      SortByRankPermutes(s[..|s| - 1]);
      InsertByRankPermutes(SortByRank(s[..|s| - 1]), s[|s| - 1]);
      assert s == s[..|s| - 1] + [s[|s| - 1]];
    }
  }

  /** The sort is stable: entries of equal rank keep their relative order. */
  lemma {:induction false} SortByRankStable(s: seq<Entry>, k: int)
    ensures WithRank(SortByRank(s), k) == WithRank(s, k)
  {
    if s != [] {
      var p, x := s[..|s| - 1], s[|s| - 1];
      SortByRankStable(p, k);
      SortByRankSorted(p);
      InsertByRankStable(SortByRank(p), x, k);
      WithRankAppend(p, [x], k);
      assert s == p + [x];
    }
  }

  /** Sorting a list that is already sorted leaves it as it is. */
  lemma {:induction false} SortByRankOfSorted(s: seq<Entry>)
    requires Sorted(s)
    ensures SortByRank(s) == s
  {
    if s != [] {
      var p, x := s[..|s| - 1], s[|s| - 1];
      SortByRankOfSorted(p);
      InsertAtEnd(p, x);
      assert s == p + [x];
    }
  }

  lemma {:induction false} InsertAtEnd(s: seq<Entry>, e: Entry)
    requires forall i :: 0 <= i < |s| ==> Rank(s[i]) <= Rank(e)
    ensures InsertByRank(s, e) == s + [e]
  {
    if s != [] {
      InsertAtEnd(s[1..], e);
      assert s == [s[0]] + s[1..];
    }
  }

  /** Appending to a sorted list and sorting is insertion after every entry of rank at most its own. */
  lemma AppendThenSort(s: seq<Entry>, e: Entry)
    requires Sorted(s)
    ensures SortByRank(s + [e]) == InsertByRank(s, e)
  {
    assert (s + [e])[..|s|] == s;
    SortByRankOfSorted(s);
  }

  // ---------------------------------------------------------------- registration

  /** The list for `c`, or the empty list when the map has none yet. */
  function Get(m: Listeners, c: JavaClass): seq<Entry>
  {
    if c in m then m[c] else []
  }

  /** One parameter, of a type Event is assignable from. */
  predicate IsValidHandler(h: DeclaredMethod)
  {
    |h.params| == 1 && h.params[0].extendsEvent
  }

  function ToEntry(listener: SubscriberId, h: DeclaredMethod): (e: Entry)
    requires h.subscribe.Some?
    ensures e.instance == listener && e.handler == h
    ensures e.priority == h.subscribe.value.priority && e.receiveCancelled == h.subscribe.value.receiveCancelled
  {
    RegisteredListener(listener, h, h.subscribe.value.priority, h.subscribe.value.receiveCancelled)
  }

  /** computeIfAbsent(c).add(e) followed by sortListeners(c). */
  function AddListener(m: Listeners, c: JavaClass, e: Entry): Listeners
  {
    m[c := SortByRank(Get(m, c) + [e])]
  }

  /**
   * The loop of register over the declared methods: skip unannotated methods, stop with
   * IllegalArgumentException at the first invalid handler, add every other one.
   */
  function AddHandlers(m: Listeners, listener: SubscriberId, methods: seq<DeclaredMethod>): (Listeners, RegisterOutcome)
    decreases |methods|
  {
    if methods == [] then (m, Registered)
    else
      var h := methods[0];
      if h.subscribe.None? then AddHandlers(m, listener, methods[1..])
      else if !IsValidHandler(h) then (m, InvalidHandler(h))
      else AddHandlers(AddListener(m, h.params[0], ToEntry(listener, h)), listener, methods[1..])
  }

  /** Discovery alone: the annotated handlers register keeps, up to the first invalid one. */
  function Accepted(methods: seq<DeclaredMethod>): (r: seq<DeclaredMethod>)
    ensures forall i :: 0 <= i < |r| ==> r[i].subscribe.Some? && IsValidHandler(r[i])
  {
    if methods == [] then []
    else
      var h := methods[0];
      if h.subscribe.None? then Accepted(methods[1..])
      else if !IsValidHandler(h) then []
      else [h] + Accepted(methods[1..])
  }

  /** Discovery alone: the first annotated method that fails validation, if any. */
  function FirstInvalid(methods: seq<DeclaredMethod>): (r: Option<DeclaredMethod>)
    ensures r.Some? ==> r.value in methods && r.value.subscribe.Some? && !IsValidHandler(r.value)
    ensures r.None? <==> forall i :: 0 <= i < |methods| && methods[i].subscribe.Some? ==> IsValidHandler(methods[i])
  {
    if methods == [] then None
    else
      var h := methods[0];
      if h.subscribe.None? then FirstInvalid(methods[1..])
      else if !IsValidHandler(h) then Some(h)
      else FirstInvalid(methods[1..])
  }

  /** The annotated methods of `methods`, in declaration order. */
  function Annotated(methods: seq<DeclaredMethod>): seq<DeclaredMethod>
  {
    if methods == [] then []
    else (if methods[0].subscribe.Some? then [methods[0]] else []) + Annotated(methods[1..])
  }

  /** Where validation stops: the first annotated invalid method, or the end of the list. */
  function FirstInvalidIndex(methods: seq<DeclaredMethod>): (n: nat)
    ensures n <= |methods|
    ensures forall j :: 0 <= j < n && methods[j].subscribe.Some? ==> IsValidHandler(methods[j])
    ensures n < |methods| ==> methods[n].subscribe.Some? && !IsValidHandler(methods[n])
  {
    if methods == [] then 0
    else if methods[0].subscribe.Some? && !IsValidHandler(methods[0]) then 0
    else 1 + FirstInvalidIndex(methods[1..])
  }

  /**
   * Validation stops at the first annotated method that fails it, at index `n` (or runs to
   * the end, `n == |methods|`): that method is the one reported, and the handlers kept are
   * exactly the annotated methods before it.
   */
  lemma {:induction false} ValidationStopsAtFirstInvalid(methods: seq<DeclaredMethod>, n: nat)
    requires n <= |methods|
    requires forall j :: 0 <= j < n && methods[j].subscribe.Some? ==> IsValidHandler(methods[j])
    requires n < |methods| ==> methods[n].subscribe.Some? && !IsValidHandler(methods[n])
    ensures FirstInvalid(methods) == (if n < |methods| then Some(methods[n]) else None)
    ensures Accepted(methods) == Annotated(methods[..n])
  {
    if methods != [] && n > 0 {
      var h := methods[0];
      assert h.subscribe.Some? ==> IsValidHandler(h);
      ValidationStopsAtFirstInvalid(methods[1..], n - 1);
      assert methods[..n] == [h] + methods[1..][..n - 1];
      assert ([h] + methods[1..][..n - 1])[1..] == methods[1..][..n - 1];
    } else if methods != [] {
      assert methods[..n] == [];
    }
  }

  /** The entries `listener` gets for class `c` from `handlers`, in declaration order. */
  function EntriesFor(listener: SubscriberId, handlers: seq<DeclaredMethod>, c: JavaClass): seq<Entry>
    requires forall i :: 0 <= i < |handlers| ==> handlers[i].subscribe.Some? && IsValidHandler(handlers[i])
  {
    if handlers == [] then []
    else
      var h := handlers[0];
      assert IsValidHandler(h);
      (if h.params[0] == c then [ToEntry(listener, h)] else []) + EntriesFor(listener, handlers[1..], c)
  }

  /** register reports IllegalArgumentException exactly for the first invalid annotated method. */
  lemma {:induction false} AddHandlersOutcome(m: Listeners, listener: SubscriberId, methods: seq<DeclaredMethod>)
    ensures AddHandlers(m, listener, methods).1 ==
      (if FirstInvalid(methods).Some? then InvalidHandler(FirstInvalid(methods).value) else Registered)
    decreases |methods|
  {
    if methods != [] {
      var h := methods[0];
      if h.subscribe.None? {
        AddHandlersOutcome(m, listener, methods[1..]);
      } else if IsValidHandler(h) {
        AddHandlersOutcome(AddListener(m, h.params[0], ToEntry(listener, h)), listener, methods[1..]);
      }
    }
  }

  predicate AllSorted(m: Listeners)
  {
    forall c :: c in m ==> Sorted(m[c])
  }

  /** Every list of the map stays sorted by rank. */
  lemma {:induction false} AddHandlersSorted(m: Listeners, listener: SubscriberId, methods: seq<DeclaredMethod>)
    requires AllSorted(m)
    ensures AllSorted(AddHandlers(m, listener, methods).0)
    decreases |methods|
  {
    if methods != [] {
      var h := methods[0];
      if h.subscribe.None? {
        AddHandlersSorted(m, listener, methods[1..]);
      } else if IsValidHandler(h) {
        var m' := AddListener(m, h.params[0], ToEntry(listener, h));
        SortByRankSorted(Get(m, h.params[0]) + [ToEntry(listener, h)]);
        AddHandlersSorted(m', listener, methods[1..]);
      }
    }
  }

  /** One add-and-sort step, seen per class and per rank. */
  lemma AddListenerStable(m: Listeners, d: JavaClass, e: Entry, c: JavaClass, k: int)
    ensures WithRank(Get(AddListener(m, d, e), c), k)
         == WithRank(Get(m, c), k) + (if d == c then WithRank([e], k) else [])
  {
    if d == c {
      SortByRankStable(Get(m, c) + [e], k);
      WithRankAppend(Get(m, c), [e], k);
    } else {
      assert Get(m, c) + [] == Get(m, c);
      assert WithRank(Get(m, c), k) + [] == WithRank(Get(m, c), k);
    }
  }

  /**
   * Per class and per rank, the list after register is the old list followed by the new
   * handlers in declaration order: sorting keeps insertion order among equal ranks.
   */
  lemma {:induction false} AddHandlersStable(m: Listeners, listener: SubscriberId, methods: seq<DeclaredMethod>, c: JavaClass, k: int)
    ensures WithRank(Get(AddHandlers(m, listener, methods).0, c), k)
         == WithRank(Get(m, c), k) + WithRank(EntriesFor(listener, Accepted(methods), c), k)
    decreases |methods|, 1
  {
    if methods == [] || (methods[0].subscribe.Some? && !IsValidHandler(methods[0])) {
      assert Accepted(methods) == [];
      assert WithRank(Get(m, c), k) + [] == WithRank(Get(m, c), k);
    } else if methods[0].subscribe.None? {
      AddHandlersStable(m, listener, methods[1..], c, k);
    } else {
      AddHandlersStableValid(m, listener, methods, c, k);
    }
  }

  /** The step of AddHandlersStable for a valid annotated first method. */
  lemma {:induction false} AddHandlersStableValid(m: Listeners, listener: SubscriberId, methods: seq<DeclaredMethod>, c: JavaClass, k: int)
    requires methods != [] && methods[0].subscribe.Some? && IsValidHandler(methods[0])
    ensures WithRank(Get(AddHandlers(m, listener, methods).0, c), k)
         == WithRank(Get(m, c), k) + WithRank(EntriesFor(listener, Accepted(methods), c), k)
    decreases |methods|, 0
  {
    var h := methods[0];
    var m' := AddListener(m, h.params[0], ToEntry(listener, h));
    AddListenerStable(m, h.params[0], ToEntry(listener, h), c, k);
    AddHandlersStable(m', listener, methods[1..], c, k);
    StableAfterFirst(WithRank(Get(AddHandlers(m', listener, methods[1..]).0, c), k), WithRank(Get(m', c), k),
                     WithRank(Get(m, c), k), listener, methods, c, k);
  }

  /**
   * The rest of the step: `after` is the list of `c` at rank `k` once every handler has
   * been added, `mid` the same list once the first one has.
   */
  lemma StableAfterFirst(after: seq<Entry>, mid: seq<Entry>, before: seq<Entry>, listener: SubscriberId, methods: seq<DeclaredMethod>, c: JavaClass, k: int)
    requires methods != [] && methods[0].subscribe.Some? && IsValidHandler(methods[0])
    requires after == mid + WithRank(EntriesFor(listener, Accepted(methods[1..]), c), k)
    requires mid == before + (if methods[0].params[0] == c then WithRank([ToEntry(listener, methods[0])], k) else [])
    ensures after == before + WithRank(EntriesFor(listener, Accepted(methods), c), k)
  {
    var x := if methods[0].params[0] == c then WithRank([ToEntry(listener, methods[0])], k) else [];
    var t := WithRank(EntriesFor(listener, Accepted(methods[1..]), c), k);
    AcceptedFirstAtRank(listener, methods, c, k);
    assert (before + x) + t == before + (x + t);
  }

  /** A valid annotated first method contributes its own entry ahead of the rest. */
  lemma AcceptedFirstAtRank(listener: SubscriberId, methods: seq<DeclaredMethod>, c: JavaClass, k: int)
    requires methods != [] && methods[0].subscribe.Some? && IsValidHandler(methods[0])
    ensures WithRank(EntriesFor(listener, Accepted(methods), c), k)
         == (if methods[0].params[0] == c then WithRank([ToEntry(listener, methods[0])], k) else [])
          + WithRank(EntriesFor(listener, Accepted(methods[1..]), c), k)
  {
    var h := methods[0];
    var e := ToEntry(listener, h);
    var tail := Accepted(methods[1..]);
    assert Accepted(methods) == [h] + tail;
    EntriesForCons(listener, h, tail, c);
    WithRankAppend(if h.params[0] == c then [e] else [], EntriesFor(listener, tail, c), k);
  }

  lemma EntriesForCons(listener: SubscriberId, h: DeclaredMethod, tail: seq<DeclaredMethod>, c: JavaClass)
    requires h.subscribe.Some? && IsValidHandler(h)
    requires forall i :: 0 <= i < |tail| ==> tail[i].subscribe.Some? && IsValidHandler(tail[i])
    ensures EntriesFor(listener, [h] + tail, c)
         == (if h.params[0] == c then [ToEntry(listener, h)] else []) + EntriesFor(listener, tail, c)
  {
    assert ([h] + tail)[1..] == tail;
  }

  /** The entry `e` is listed under `c`: a valid handler of class `c` with its annotation's values. */
  predicate ListedUnder(e: Entry, c: JavaClass)
  {
    e.handler.subscribe.Some? && IsValidHandler(e.handler) && e.handler.params[0] == c && e == ToEntry(e.instance, e.handler)
  }

  /** Every entry sits in the list of its handler's parameter class and mirrors its annotation. */
  predicate WellKeyed(m: Listeners)
  {
    forall c, e :: c in m && e in m[c] ==> ListedUnder(e, c)
  }

  /** Every entry belongs to a subscriber in `owners`. */
  predicate OwnedBy(m: Listeners, owners: set<SubscriberId>)
  {
    forall c, e :: c in m && e in m[c] ==> e.instance in owners
  }

  lemma AddListenerWellFormed(m: Listeners, owners: set<SubscriberId>, listener: SubscriberId, h: DeclaredMethod)
    requires WellKeyed(m) && OwnedBy(m, owners) && listener in owners
    requires h.subscribe.Some? && IsValidHandler(h)
    ensures WellKeyed(AddListener(m, h.params[0], ToEntry(listener, h)))
    ensures OwnedBy(AddListener(m, h.params[0], ToEntry(listener, h)), owners)
  {
    var c0, e0 := h.params[0], ToEntry(listener, h);
    var s := Get(m, c0) + [e0];
    var m' := AddListener(m, c0, e0);
    SortByRankPermutes(s);
    forall c, e | c in m' && e in m'[c]
      ensures ListedUnder(e, c) && e.instance in owners
    {
      if c == c0 {
        assert e in multiset(SortByRank(s));
        assert e in s;
        if e != e0 {
          assert e in m[c];
        }
      } else {
        assert m'[c] == m[c];
      }
    }
  }

  /** One add-and-sort step keeps the map sorted, keyed and owned. */
  lemma AddListenerValid(m: Listeners, owners: set<SubscriberId>, listener: SubscriberId, h: DeclaredMethod)
    requires AllSorted(m) && WellKeyed(m) && OwnedBy(m, owners) && listener in owners
    requires h.subscribe.Some? && IsValidHandler(h)
    ensures var m' := AddListener(m, h.params[0], ToEntry(listener, h));
      AllSorted(m') && WellKeyed(m') && OwnedBy(m', owners)
  {
    AddListenerWellFormed(m, owners, listener, h);
    SortByRankSorted(Get(m, h.params[0]) + [ToEntry(listener, h)]);
  }

  /** Handlers register adds are valid, keyed by their parameter class and owned by the subscriber. */
  lemma {:induction false} AddHandlersWellFormed(m: Listeners, owners: set<SubscriberId>, listener: SubscriberId, methods: seq<DeclaredMethod>)
    requires WellKeyed(m) && OwnedBy(m, owners) && listener in owners
    ensures WellKeyed(AddHandlers(m, listener, methods).0)
    ensures OwnedBy(AddHandlers(m, listener, methods).0, owners)
    decreases |methods|
  {
    if methods != [] {
      var h := methods[0];
      if h.subscribe.None? {
        AddHandlersWellFormed(m, owners, listener, methods[1..]);
      } else if IsValidHandler(h) {
        AddListenerWellFormed(m, owners, listener, h);
        AddHandlersWellFormed(AddListener(m, h.params[0], ToEntry(listener, h)), owners, listener, methods[1..]);
      }
    }
  }

  /**
   * A handler declared on an abstract event class (Event itself, say) passes validation,
   * yet no event can reach it: lookup is by the event's concrete runtime class.
   */
  lemma AbstractHandlerNeverLookedUp(m: Listeners, cls: JavaClass)
    requires WellKeyed(m) && IsEventClass(cls)
    ensures forall e :: e in Get(m, cls) ==> !e.handler.params[0].isAbstract
  {
  }

  // ---------------------------------------------------------------- listener count

  ghost function SumLengths(m: Listeners, keys: set<JavaClass>): nat
    requires keys <= m.Keys
  {
    if keys == {} then 0
    else
      var c :| c in keys;
      |m[c]| + SumLengths(m, keys - {c})
  }

  /** The number of entries over all lists. */
  ghost function TotalCount(m: Listeners): nat
  {
    SumLengths(m, m.Keys)
  }

  /** The sum does not depend on which key is taken first. */
  lemma {:induction false} SumLengthsPick(m: Listeners, keys: set<JavaClass>, c: JavaClass)
    requires keys <= m.Keys && c in keys
    ensures SumLengths(m, keys) == |m[c]| + SumLengths(m, keys - {c})
    decreases |keys|
  {
    var d :| d in keys && SumLengths(m, keys) == |m[d]| + SumLengths(m, keys - {d});
    if d != c {
      SumLengthsPick(m, keys - {d}, c);
      SumLengthsPick(m, keys - {c}, d);
      assert keys - {d} - {c} == keys - {c} - {d};
    }
  }

  lemma {:induction false} SumLengthsFrame(m: Listeners, m': Listeners, keys: set<JavaClass>)
    requires keys <= m.Keys && keys <= m'.Keys
    requires forall c :: c in keys ==> |m[c]| == |m'[c]|
    ensures SumLengths(m, keys) == SumLengths(m', keys)
    decreases |keys|
  {
    if keys != {} {
      var c :| c in keys;
      SumLengthsPick(m, keys, c);
      SumLengthsPick(m', keys, c);
      SumLengthsFrame(m, m', keys - {c});
    }
  }

  /** Replacing one list changes the count by the difference of the lengths. */
  lemma TotalCountUpdate(m: Listeners, c: JavaClass, s: seq<Entry>)
    ensures TotalCount(m[c := s]) + |Get(m, c)| == TotalCount(m) + |s|
  {
    var m' := m[c := s];
    var rest := m.Keys - {c};
    assert m'.Keys - {c} == rest;
    SumLengthsPick(m', m'.Keys, c);
    SumLengthsFrame(m, m', rest);
    assert TotalCount(m') == |s| + SumLengths(m, rest);
    if c in m {
      SumLengthsPick(m, m.Keys, c);
    } else {
      assert rest == m.Keys;
    }
  }

  /** A fresh register raises the listener count by the number of accepted handlers. */
  lemma {:induction false} AddHandlersCount(m: Listeners, listener: SubscriberId, methods: seq<DeclaredMethod>)
    ensures TotalCount(AddHandlers(m, listener, methods).0) == TotalCount(m) + |Accepted(methods)|
    decreases |methods|
  {
    if methods != [] {
      var h := methods[0];
      if h.subscribe.None? {
        AddHandlersCount(m, listener, methods[1..]);
      } else if IsValidHandler(h) {
        var c := h.params[0];
        TotalCountUpdate(m, c, SortByRank(Get(m, c) + [ToEntry(listener, h)]));
        AddHandlersCount(AddListener(m, c, ToEntry(listener, h)), listener, methods[1..]);
      }
    }
  }

  // ---------------------------------------------------------------- unregistration

  /** removeIf(l -> l.instance == listener) on one list. */
  function Without(s: seq<Entry>, listener: SubscriberId): (r: seq<Entry>)
    ensures |r| <= |s|
  {
    if s == [] then []
    else (if s[0].instance == listener then [] else [s[0]]) + Without(s[1..], listener)
  }

  /** The entries of a set of subscribers, in list order. */
  function EntriesOf(s: seq<Entry>, owners: set<SubscriberId>): seq<Entry>
  {
    if s == [] then []
    else (if s[0].instance in owners then [s[0]] else []) + EntriesOf(s[1..], owners)
  }

  /** unregister's loop over every list of the map; keys stay, even when a list empties. */
  function RemoveSubscriber(m: Listeners, listener: SubscriberId): (r: Listeners)
    ensures r.Keys == m.Keys
  {
    map c | c in m :: Without(m[c], listener)
  }

  /** Exactly the entries of other subscribers survive. */
  lemma {:induction false} WithoutMembers(s: seq<Entry>, listener: SubscriberId)
    ensures forall e :: e in Without(s, listener) <==> e in s && e.instance != listener
  {
    if s != [] {
      WithoutMembers(s[1..], listener);
      assert s == [s[0]] + s[1..];
    }
  }

  /**
   * The entries of any subscribers other than the removed one are untouched, and keep their
   * relative order, also between entries of different subscribers.
   */
  lemma {:induction false} WithoutKeepsOthers(s: seq<Entry>, listener: SubscriberId, others: set<SubscriberId>)
    ensures listener !in others ==> EntriesOf(Without(s, listener), others) == EntriesOf(s, others)
    ensures EntriesOf(Without(s, listener), {listener}) == []
  {
    if s != [] {
      WithoutKeepsOthers(s[1..], listener, others);
      var w := Without(s[1..], listener);
      if s[0].instance == listener {
        assert Without(s, listener) == w;
      } else {
        assert Without(s, listener) == [s[0]] + w;
        assert ([s[0]] + w)[1..] == w;
      }
    }
  }

  /** Removal keeps a list sorted. */
  lemma {:induction false} WithoutSorted(s: seq<Entry>, listener: SubscriberId)
    requires Sorted(s)
    ensures Sorted(Without(s, listener))
  {
    if s != [] {
      WithoutSorted(s[1..], listener);
      WithoutMembers(s[1..], listener);
      var w := Without(s[1..], listener);
      if s[0].instance != listener {
        forall j | 0 <= j < |w|
          ensures Rank(s[0]) <= Rank(w[j])
        {
          assert w[j] in s[1..];
        }
      }
    }
  }

  /** A list without entries of the subscriber is left as it is. */
  lemma {:induction false} WithoutAbsent(s: seq<Entry>, listener: SubscriberId)
    requires forall i :: 0 <= i < |s| ==> s[i].instance != listener
    ensures Without(s, listener) == s
  {
    if s != [] {
      WithoutAbsent(s[1..], listener);
      assert s == [s[0]] + s[1..];
    }
  }

  /** After removal the map keeps its invariants and no entry of the subscriber is left. */
  lemma RemoveSubscriberWellFormed(m: Listeners, owners: set<SubscriberId>, listener: SubscriberId)
    requires AllSorted(m) && WellKeyed(m) && OwnedBy(m, owners)
    ensures AllSorted(RemoveSubscriber(m, listener))
    ensures WellKeyed(RemoveSubscriber(m, listener))
    ensures OwnedBy(RemoveSubscriber(m, listener), owners - {listener})
  {
    var r := RemoveSubscriber(m, listener);
    forall c | c in m
      ensures Sorted(r[c])
      ensures forall e :: e in r[c] <==> e in m[c] && e.instance != listener
    {
      WithoutSorted(m[c], listener);
      WithoutMembers(m[c], listener);
    }
  }
}
