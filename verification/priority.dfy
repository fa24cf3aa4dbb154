/** Listener priorities of the event bus. Lower priorities are called first. */
module Priorities {

  datatype Priority = LOWEST | LOW | NORMAL | HIGH | HIGHEST | MONITOR {

    /** The rank fixed for each constant; the bus sorts its listener lists by it. */
    function GetValue(): (r: int)
      ensures 0 <= r <= 5
      ensures r == 0 <==> this == LOWEST
      ensures r == 5 <==> this == MONITOR
    {
      match this
      case LOWEST => 0
      case LOW => 1
      case NORMAL => 2
      case HIGH => 3
      case HIGHEST => 4
      case MONITOR => 5
    }
  }

  /** The priority whose rank is `v`, if any: the partner of GetValue. */
  function FromValue(v: int): (r: Priority)
    requires 0 <= v <= 5
    ensures r.GetValue() == v
  {
    if v == 0 then LOWEST
    else if v == 1 then LOW
    else if v == 2 then NORMAL
    else if v == 3 then HIGH
    else if v == 4 then HIGHEST
    else MONITOR
  }

  /** Ranks are pairwise distinct: comparing by GetValue is a total order on the six priorities. */
  lemma ValueInjective(p: Priority, q: Priority)
    ensures p.GetValue() == q.GetValue() ==> p == q
  {
  }

  /** FromValue inverts GetValue. */
  lemma FromValueGetValue(p: Priority)
    ensures FromValue(p.GetValue()) == p
  {
  }

  /** LOWEST runs first and MONITOR runs last. */
  lemma LowestFirstMonitorLast(p: Priority)
    ensures LOWEST.GetValue() <= p.GetValue() <= MONITOR.GetValue()
    ensures LOWEST.GetValue() < p.GetValue() || p == LOWEST
    ensures p.GetValue() < MONITOR.GetValue() || p == MONITOR
  {
  }

  /** The declared order of the constants is the order of their ranks. */
  lemma DeclaredOrder()
    ensures LOWEST.GetValue() < LOW.GetValue() < NORMAL.GetValue()
    ensures NORMAL.GetValue() < HIGH.GetValue() < HIGHEST.GetValue() < MONITOR.GetValue()
  {
  }
}
