/**
 * The `CPU` class of cpu.h as a state machine over an immutable state: the
 * simulated clock, the process table (`processes`), the ready, waiting and
 * terminated FIFO queues, and the program store it fetches from.
 *
 * A `PCB*` held by the source is modelled as an index into `processes`; the
 * queues hold such indices. Console narration, the mutex and the real-time
 * pauses have no effect on this state and are not modelled.
 */
module Scheduler {
  import opened Common
  import opened ProcessRecord
  import ProgramStore
  import Text

  /** The scheduler state. `currentProcess` is only set inside a dispatch, so it is not part of it. */
  datatype Cpu = Cpu(
    time: int,
    timeSlice: int,
    code: seq<string>,
    processes: seq<Pcb>,
    ready: seq<nat>,
    waiting: seq<nat>,
    terminated: seq<nat>)

  /** `CPU(timeSlice)`: the clock starts at zero and every queue is empty. */
  function NewCpu(timeSlice: int, code: seq<string>): (c: Cpu)
    ensures c.time == 0 && c.timeSlice == timeSlice && c.code == code
    ensures c.processes == [] && c.ready == [] && c.waiting == [] && c.terminated == []
  {
    Cpu(0, timeSlice, code, [], [], [], [])
  }

  /** Every queue entry names a record of the process table (the source's pointers are never dangling). */
  predicate Indexed(c: Cpu)
  {
    && AllBelow(c.ready, |c.processes|)
    && AllBelow(c.waiting, |c.processes|)
    && AllBelow(c.terminated, |c.processes|)
  }

  /** The membership reading of `Indexed`: every value in a queue is below the table size. */
  lemma IndexedMembers(c: Cpu)
    requires Indexed(c)
    ensures forall x :: x in c.ready ==> x < |c.processes|
    ensures forall x :: x in c.waiting ==> x < |c.processes|
    ensures forall x :: x in c.terminated ==> x < |c.processes|
  {
    AllBelowMembers(c.ready, |c.processes|);
    AllBelowMembers(c.waiting, |c.processes|);
    AllBelowMembers(c.terminated, |c.processes|);
  }

  /**
   * `addProcess`: the record joins the table; it is READY and queued for
   * dispatch when it has already arrived, otherwise BLOCKED in the waiting queue.
   */
  function AddProcess(c: Cpu, p: Pcb): (r: Cpu)
    ensures |r.processes| == |c.processes| + 1
    ensures r.processes == c.processes + [r.processes[|c.processes|]]
    ensures r.processes[|c.processes|] == p.(state := r.processes[|c.processes|].state)
    ensures p.arrivalTime <= c.time ==>
      r.processes[|c.processes|].state == Ready &&
      r.ready == c.ready + [|c.processes|] && r.waiting == c.waiting
    ensures p.arrivalTime > c.time ==>
      r.processes[|c.processes|].state == Blocked &&
      r.waiting == c.waiting + [|c.processes|] && r.ready == c.ready
    ensures r.time == c.time && r.terminated == c.terminated
    ensures r.timeSlice == c.timeSlice && r.code == c.code
    ensures Indexed(c) ==> Indexed(r)
  {
    var idx := |c.processes|;
    AllBelowMembers(c.ready, idx);
    AllBelowMembers(c.waiting, idx);
    AllBelowMembers(c.terminated, idx);
    AllBelowMembers(c.ready + [idx], idx + 1);
    AllBelowMembers(c.waiting + [idx], idx + 1);
    AllBelowMembers(c.ready, idx + 1);
    AllBelowMembers(c.waiting, idx + 1);
    AllBelowMembers(c.terminated, idx + 1);
    if p.arrivalTime <= c.time then
      c.(processes := c.processes + [p.(state := Ready)], ready := c.ready + [idx])
    else
      c.(processes := c.processes + [p.(state := Blocked)], waiting := c.waiting + [idx])
  }

  /** `areAllProcessesTerminated`. */
  predicate AllTerminated(ps: seq<Pcb>)
  {
    forall i :: 0 <= i < |ps| ==> ps[i].state == Terminated
  }

  // ---------------------------------------------------------------------------
  // Admission of newly arrived records (checkAndAddNewArrivedProcesses)
  // ---------------------------------------------------------------------------

  /**
   * The admission test: BLOCKED, arrived by now, and never run (no used time,
   * program counter at zero) - the source's way of telling "not yet arrived"
   * from other blocking.
   */
  predicate Admissible(p: Pcb, time: int)
  {
    p.state == Blocked && p.arrivalTime <= time && p.usedRunTime == 0 && p.programCounter == 0
  }

  /** The indices from `i` on of records that pass the admission test, in table order. */
  function ArrivalsFrom(ps: seq<Pcb>, time: int, i: nat): seq<nat>
    requires i <= |ps|
    decreases |ps| - i
  {
    if i == |ps| then []
    else if Admissible(ps[i], time) then [i] + ArrivalsFrom(ps, time, i + 1)
    else ArrivalsFrom(ps, time, i + 1)
  }

  /** The records the admission scan picks up, in the order it pushes them onto the ready queue. */
  function Arrivals(ps: seq<Pcb>, time: int): seq<nat>
  {
    ArrivalsFrom(ps, time, 0)
  }

  lemma {:induction false} ArrivalsFromFacts(ps: seq<Pcb>, time: int, i: nat)
    requires i <= |ps|
    ensures var r := ArrivalsFrom(ps, time, i);
      && (forall k :: 0 <= k < |r| ==> i <= r[k] < |ps| && Admissible(ps[r[k]], time))
      && (forall j :: i <= j < |ps| ==> (j in r <==> Admissible(ps[j], time)))
      && Increasing(r)
    decreases |ps| - i
  {
    if i < |ps| {
      ArrivalsFromFacts(ps, time, i + 1);
    }
  }

  /**
   * The admission scan picks up exactly the records that pass the test, each
   * once, in table order.
   */
  lemma ArrivalsFacts(ps: seq<Pcb>, time: int)
    ensures var r := Arrivals(ps, time);
      && (forall k :: 0 <= k < |r| ==> r[k] < |ps| && Admissible(ps[r[k]], time))
      && (forall j :: 0 <= j < |ps| ==> (j in r <==> Admissible(ps[j], time)))
      && Increasing(r) && NoDup(r)
  {
    ArrivalsFromFacts(ps, time, 0);
    IncreasingNoDup(Arrivals(ps, time));
  }

  /** One pass of the temporary-queue rebuild: drops every occurrence of `x`, keeping the rest in order. */
  function RemoveProcess(q: seq<nat>, x: nat): (r: seq<nat>)
    ensures forall y :: y in r <==> y in q && y != x
    ensures |r| <= |q|
    ensures x !in q ==> r == q
    decreases |q|
  {
    if q == [] then []
    else if q[0] != x then [q[0]] + RemoveProcess(q[1..], x)
    else RemoveProcess(q[1..], x)
  }

  /** The rebuild keeps exactly the entries other than `x`, in order. */
  lemma {:induction false} RemoveProcessIsWithout(q: seq<nat>, x: nat)
    ensures RemoveProcess(q, x) == Without(q, [x])
    decreases |q|
  {
    if q != [] {
      RemoveProcessIsWithout(q[1..], x);
    }
  }

  /** The source removes each admitted record from the waiting queue in turn. */
  function RemoveArrived(q: seq<nat>, xs: seq<nat>): (r: seq<nat>)
    ensures forall y :: y in r <==> y in q && y !in xs
    ensures |r| <= |q|
    decreases |xs|
  {
    if xs == [] then q
    else RemoveArrived(RemoveProcess(q, xs[0]), xs[1..])
  }

  /** Removing the admitted records one by one is removing them all at once. */
  lemma {:induction false} RemoveArrivedIsWithout(q: seq<nat>, xs: seq<nat>)
    ensures RemoveArrived(q, xs) == Without(q, xs)
    decreases |xs|
  {
    if xs == [] {
      WithoutNothing(q);
    } else {
      var q' := RemoveProcess(q, xs[0]);
      RemoveProcessIsWithout(q, xs[0]);
      RemoveArrivedIsWithout(q', xs[1..]);
      WithoutTwice(q, [xs[0]], xs[1..]);
      assert [xs[0]] + xs[1..] == xs;
    }
  }

  /** The admission scan's effect on the table: admitted records become READY. */
  function MarkArrived(ps: seq<Pcb>, time: int): (r: seq<Pcb>)
    ensures |r| == |ps|
    ensures forall i :: 0 <= i < |ps| ==> r[i] == ps[i].(state := r[i].state)
    ensures forall i :: 0 <= i < |ps| ==> (r[i].state == Ready <==> ps[i].state == Ready || Admissible(ps[i], time))
  {
    seq(|ps|, i requires 0 <= i < |ps| =>
      if Admissible(ps[i], time) then ps[i].(state := Ready) else ps[i])
  }

  /**
   * `checkAndAddNewArrivedProcesses`: every record passing the admission test
   * becomes READY and is appended to the ready queue in table order, and is
   * removed from the waiting queue (see AdmitQueues).
   */
  function Admit(c: Cpu): (r: Cpu)
    ensures |r.processes| == |c.processes|
    ensures r.time == c.time && r.timeSlice == c.timeSlice && r.code == c.code
    ensures r.terminated == c.terminated
    ensures Indexed(c) ==> Indexed(r)
  {
    var newly := Arrivals(c.processes, c.time);
    var waiting' := RemoveArrived(c.waiting, newly);
    ArrivalsFacts(c.processes, c.time);
    RemoveArrivedIsWithout(c.waiting, newly);
    AllBelowMembers(c.ready, |c.processes|);
    AllBelowMembers(c.ready + newly, |c.processes|);
    AllBelowMembers(c.waiting, |c.processes|);
    AllBelowMembers(waiting', |c.processes|);
    c.(processes := MarkArrived(c.processes, c.time),
       ready := c.ready + newly,
       waiting := waiting')
  }

  /**
   * What admission does to the queues and the table: the ready queue gains the
   * arrivals at its tail, the waiting queue keeps exactly the entries that did
   * not arrive, in order, and every arrived record is READY.
   */
  lemma AdmitQueues(c: Cpu)
    ensures Admit(c).ready == c.ready + Arrivals(c.processes, c.time)
    ensures Admit(c).waiting == Without(c.waiting, Arrivals(c.processes, c.time))
    ensures forall i :: 0 <= i < |c.processes| ==>
      Admit(c).processes[i] == (if Admissible(c.processes[i], c.time) then c.processes[i].(state := Ready) else c.processes[i])
  {
    RemoveArrivedIsWithout(c.waiting, Arrivals(c.processes, c.time));
  }

  // ---------------------------------------------------------------------------
  // Instruction fetch (executeInstruction, getCurrentReadVariable)
  // ---------------------------------------------------------------------------

  /** What one call of `executeInstruction` reports; `line` is `None` for a read outside the buffer. */
  datatype Event =
    | Executed(pid: int, time: int, line: Option<string>)
    | AwaitingTerminal(pid: int, time: int)
    | Anomaly

  datatype Fetch = Fetch(pcb: Pcb, time: int, event: Event)

  /** The program counter stays within one step past the program end. */
  predicate PcBounded(p: Pcb)
  {
    0 <= p.programCounter <= Max(0, p.codeLength + 1)
  }

  /**
   * `executeInstruction`: while run time remains, one tick passes and, if the
   * program counter is inside the program, the line at codeStartIndex + pc is
   * fetched and the counter advances by two (the source increments it twice).
   * With no run time left nothing changes ("a question!!!").
   */
  function ExecuteInstruction(code: seq<string>, time: int, p: Pcb): (r: Fetch)
    ensures r.time == time + 1 <==> p.usedRunTime < p.totalRunTime
    ensures p.usedRunTime >= p.totalRunTime ==> r == Fetch(p, time, Anomaly)
    ensures r.pcb == p.(programCounter := r.pcb.programCounter)
    ensures p.usedRunTime < p.totalRunTime && p.programCounter < p.codeLength ==>
      r.pcb.programCounter == p.programCounter + 2 &&
      r.event == Executed(p.pid, time, ProgramStore.Read(code, p.codeStartIndex + p.programCounter))
    ensures !(p.programCounter < p.codeLength) ==> r.pcb == p
    ensures PcBounded(p) ==> PcBounded(r.pcb)
  {
    if p.usedRunTime < p.totalRunTime then
      if p.programCounter < p.codeLength then
        var line := ProgramStore.Read(code, p.codeStartIndex + p.programCounter);
        Fetch(p.(programCounter := p.programCounter + 2), time + 1, Executed(p.pid, time, line))
      else
        Fetch(p, time + 1, AwaitingTerminal(p.pid, time))
    else
      Fetch(p, time, Anomaly)
  }

  /**
   * `getCurrentReadVariable`: the second token of the current instruction with
   * a trailing comma stripped, or "" past the program end; `None` when the
   * instruction lies outside the buffer.
   */
  function CurrentReadVariable(code: seq<string>, p: Pcb): (r: Option<string>)
    ensures p.programCounter >= p.codeLength ==> r == Some("")
    ensures r.None? <==>
      p.programCounter < p.codeLength && !(0 <= p.codeStartIndex + p.programCounter < |code|)
    ensures r.Some? && p.programCounter < p.codeLength ==>
      r.value == Text.StripComma(Text.SecondToken(code[p.codeStartIndex + p.programCounter]))
  {
    if p.programCounter >= p.codeLength then Some("")
    else
      match ProgramStore.Read(code, p.codeStartIndex + p.programCounter)
      case None => None
      case Some(line) => Some(Text.StripComma(Text.SecondToken(line)))
  }

  // ---------------------------------------------------------------------------
  // Round-robin dispatch (RoundRobin_Schedule)
  // ---------------------------------------------------------------------------

  /**
   * One pass of the dispatch loop's body for record `cur`: fetch, count one
   * tick of run time if the record is still RUNNING, then admit arrivals.
   */
  function SliceTick(c: Cpu, cur: nat): (r: Cpu)
    requires cur < |c.processes|
    ensures |r.processes| == |c.processes|
    ensures r.timeSlice == c.timeSlice && r.code == c.code
    ensures Indexed(c) ==> Indexed(r)
  {
    var f := ExecuteInstruction(c.code, c.time, c.processes[cur]);
    var p := if f.pcb.state == Running then UpdateUsedRunTime(f.pcb, 1) else f.pcb;
    Admit(c.(time := f.time, processes := c.processes[cur := p]))
  }

  /** The dispatch loop leaves early once its record is BLOCKED or TERMINATED. */
  predicate Stopped(p: Pcb)
  {
    p.state == Blocked || p.state == Terminated
  }

  /** The dispatch loop with `n` passes still to go. */
  function RunSlice(c: Cpu, cur: nat, n: int): (r: Cpu)
    requires cur < |c.processes|
    ensures |r.processes| == |c.processes|
    ensures r.timeSlice == c.timeSlice && r.code == c.code
    ensures Indexed(c) ==> Indexed(r)
    decreases n, 0
  {
    if n <= 0 then c else AfterTick(SliceTick(c, cur), cur, n - 1)
  }

  /** The loop's test after a pass: leave if the record stopped, else go on with `n` passes to go. */
  function AfterTick(c: Cpu, cur: nat, n: int): (r: Cpu)
    requires cur < |c.processes|
    ensures |r.processes| == |c.processes|
    ensures r.timeSlice == c.timeSlice && r.code == c.code
    ensures Indexed(c) ==> Indexed(r)
    decreases n, 1
  {
    if Stopped(c.processes[cur]) then c else RunSlice(c, cur, n)
  }

  /** `std::min(timeSlice, totalRunTime - usedRunTime)`: the ticks one dispatch grants. */
  function ExecuteTime(timeSlice: int, p: Pcb): int
  {
    Min(timeSlice, p.totalRunTime - p.usedRunTime)
  }

  /** Takes the head of the ready queue out of every queue and marks it RUNNING. */
  function PopHead(c: Cpu): (r: Cpu)
    requires Indexed(c) && |c.ready| > 0
    ensures |r.processes| == |c.processes| && r.time == c.time
    ensures r.timeSlice == c.timeSlice && r.code == c.code
    ensures Indexed(r)
  {
    var cur := c.ready[0];
    c.(ready := c.ready[1..], processes := c.processes[cur := c.processes[cur].(state := Running)])
  }

  /**
   * After the slice: retire the record to the terminated queue when its run
   * time is used up, leave it out when BLOCKED, else requeue it READY at the tail.
   */
  function Settle(c: Cpu, cur: nat): (r: Cpu)
    requires Indexed(c) && cur < |c.processes|
    ensures |r.processes| == |c.processes| && r.time == c.time
    ensures r.timeSlice == c.timeSlice && r.code == c.code
    ensures Indexed(r)
  {
    var q := c.processes[cur];
    AllBelowMembers(c.ready, |c.processes|);
    AllBelowMembers(c.ready + [cur], |c.processes|);
    AllBelowMembers(c.terminated, |c.processes|);
    AllBelowMembers(c.terminated + [cur], |c.processes|);
    if q.usedRunTime >= q.totalRunTime then
      c.(processes := c.processes[cur := q.(state := Terminated)], terminated := c.terminated + [cur])
    else if q.state == Blocked then c
    else c.(processes := c.processes[cur := q.(state := Ready)], ready := c.ready + [cur])
  }

  /**
   * `RoundRobin_Schedule`: pop the head of the ready queue, run it for
   * min(timeSlice, remaining run time) passes of the dispatch loop, then settle it.
   */
  function RoundRobin(c: Cpu): (r: Cpu)
    requires Indexed(c)
    ensures |r.processes| == |c.processes|
    ensures r.timeSlice == c.timeSlice && r.code == c.code
    ensures Indexed(r)
  {
    if |c.ready| == 0 then c
    else
      var cur := c.ready[0];
      var c2 := RunSlice(PopHead(c), cur, ExecuteTime(c.timeSlice, c.processes[cur]));
      Settle(c2, cur)
  }

  // ---------------------------------------------------------------------------
  // The outer loop (manageTimeAndSchedule)
  // ---------------------------------------------------------------------------

  /** Selector values of `manageTimeAndSchedule`. */
  const RoundRobinSelector := 0
  const FcfsSelector := 1
  const PrioritySelector := 2

  /** Where one turn of the outer loop leaves the scheduler. */
  datatype Outcome =
    | Finished(cpu: Cpu)       // every record TERMINATED: the loop breaks
    | InvalidSelector(cpu: Cpu) // unknown selector: the loop returns
    | Continue(cpu: Cpu)       // go round again

  /**
   * One turn of the outer loop: the exit test, admission, the idle tick when
   * nothing is ready, else one dispatch by the selected policy. The FCFS and
   * highest-priority-first policies are empty in the source.
   */
  function Step(c: Cpu, selector: int): (r: Outcome)
    requires Indexed(c)
    ensures Indexed(r.cpu)
    ensures r.cpu.timeSlice == c.timeSlice && |r.cpu.processes| == |c.processes|
    ensures r.Finished? <==> AllTerminated(c.processes)
    ensures r.Finished? ==> r.cpu == c
  {
    if AllTerminated(c.processes) then Finished(c)
    else
      var c1 := Admit(c);
      if |c1.ready| == 0 then Continue(c1.(time := c1.time + 1))
      else if selector == RoundRobinSelector then Continue(RoundRobin(c1))
      else if selector == FcfsSelector || selector == PrioritySelector then Continue(c1)
      else InvalidSelector(c1)
  }

  /**
   * `manageTimeAndSchedule`, run for at most `fuel` turns; a `Continue` result
   * means the fuel ran out before the loop left.
   */
  function Schedule(c: Cpu, selector: int, fuel: nat): (r: Outcome)
    requires Indexed(c)
    ensures Indexed(r.cpu)
    ensures r.Finished? ==> AllTerminated(r.cpu.processes)
    decreases fuel, 0
  {
    if fuel == 0 then Continue(c) else Resume(Step(c, selector), selector, fuel - 1)
  }

  /** What follows one turn: the loop goes round again unless the turn left it. */
  function Resume(o: Outcome, selector: int, fuel: nat): (r: Outcome)
    requires Indexed(o.cpu)
    requires o.Finished? ==> AllTerminated(o.cpu.processes)
    ensures Indexed(r.cpu)
    ensures r.Finished? ==> AllTerminated(r.cpu.processes)
    decreases fuel, 1
  {
    match o
    case Continue(c') => Schedule(c', selector, fuel)
    case _ => o
  }

  // ---------------------------------------------------------------------------
  // Status report (displayQueues)
  // ---------------------------------------------------------------------------

  /** The pids of the records a queue names, front to back. */
  function Pids(ps: seq<Pcb>, q: seq<nat>): (r: seq<int>)
    requires forall k :: 0 <= k < |q| ==> q[k] < |ps|
    ensures |r| == |q|
    ensures forall k :: 0 <= k < |q| ==> r[k] == ps[q[k]].pid
  {
    seq(|q|, k requires 0 <= k < |q| => ps[q[k]].pid)
  }

  /** `displayQueues`: a snapshot of the ready and terminated queues as pid lists (the waiting queue is not shown). */
  function DisplayQueues(c: Cpu): (r: (seq<int>, seq<int>))
    requires Indexed(c)
    ensures |r.0| == |c.ready| && |r.1| == |c.terminated|
    ensures forall k :: 0 <= k < |c.ready| ==>
      c.ready[k] < |c.processes| && r.0[k] == c.processes[c.ready[k]].pid
    ensures forall k :: 0 <= k < |c.terminated| ==>
      c.terminated[k] < |c.processes| && r.1[k] == c.processes[c.terminated[k]].pid
  {
    AllBelowIndexWise(c.ready, |c.processes|);
    AllBelowIndexWise(c.terminated, |c.processes|);
    (Pids(c.processes, c.ready), Pids(c.processes, c.terminated))
  }
}
