/**
 * The variant process record of all_pcb.h, the one main.cpp builds. Its fields,
 * counters and frame stack are those of pcb.h (modelled once in ProcessRecord);
 * it differs in the constructor's default state and in the sign of `operator<`.
 */
module ProcessRecordVariant {
  import PR = ProcessRecord

  /** The constructor with the state argument left at its default, which here is BLOCKED. */
  function New(proNum: int, a: PR.Params): (r: (PR.Pcb, int))
    ensures r.0.state == PR.Blocked
    ensures r.0.usedRunTime == 0 && r.0.programCounter == 0
    ensures r.0.usedTimeSlice == 0 && r.0.remainingTimeSlice == 0
    ensures r.1 == proNum + 1 && r.0.numOfpro == proNum
  {
    PR.Construct(proNum, a, PR.Blocked)
  }

  /** `operator<` of all_pcb.h: the negation of pcb.h's priority comparison. */
  predicate Before(a: PR.Pcb, b: PR.Pcb)
  {
    !(a.priority < b.priority)
  }

  /** The inverted comparator holds exactly when the first priority is at least the second. */
  lemma BeforeMeansAtLeast(a: PR.Pcb, b: PR.Pcb)
    ensures Before(a, b) <==> a.priority >= b.priority
    ensures Before(a, b) <==> !PR.Before(a, b)
  {
  }

  /**
   * The inverted comparator is reflexive, so it is not a strict weak order, and
   * any two records are related in at least one direction.
   */
  lemma BeforeIsReflexiveAndTotal()
    ensures forall a :: Before(a, a)
    ensures forall a, b :: Before(a, b) || Before(b, a)
  {
  }

  /** Building the five records one after another numbers them 0, 1, 2, ... in BLOCKED state. */
  lemma ConstructedInOrder(args: seq<PR.Params>)
    ensures var (ps, next) := PR.ConstructAll(PR.InitialProNum, args, PR.Blocked);
      next == |args| &&
      forall i :: 0 <= i < |args| ==> ps[i].numOfpro == i && ps[i].state == PR.Blocked
  {
  }
}
