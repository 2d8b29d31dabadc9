// Execution contexts and the comparisons the ceiling protocol rests on. Lower
// numbers are higher priorities.
module Contexts {

  type Priority = p: nat | p < 256

  const THREAD_LEVEL: Priority := 255

  datatype Context = Thread | Isr(p: Priority) | Any
  {
    function Level(): Priority {
      match this
      case Thread => THREAD_LEVEL
      case Isr(p) => p
      case Any => 0
    }

    predicate CanAccess(ceiling: Priority) { Isr? ==> p >= ceiling }

    predicate NeedsCriticalSection(ceiling: Priority) { Isr? ==> p > ceiling }
  }

  // The only context let in without a mask is the interrupt whose priority is
  // the ceiling.
  lemma UnmaskedOnlyAtTheCeiling(c: Context, ceiling: Priority)
    ensures c.CanAccess(ceiling) && !c.NeedsCriticalSection(ceiling) <==> c == Isr(ceiling)
  {}
}
