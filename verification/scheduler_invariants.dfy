/**
 * What the scheduler of cpu.h keeps true: every record sits in exactly the
 * queue its state names (or is the one being run), counters stay in range, and
 * the queues keep their order. Round robin with a positive time slice always
 * brings the outer loop to its exit.
 */
module SchedulerInvariants {
  import opened Common
  import opened ProcessRecord
  import opened Scheduler

  /** Per-record bounds: run time within the total, program counter at most one past the end, BLOCKED records untouched. */
  ghost predicate RecordOk(p: Pcb)
  {
    && 0 <= p.usedRunTime <= Max(0, p.totalRunTime)
    && PcBounded(p)
    && (p.state == Blocked ==> p.usedRunTime == 0 && p.programCounter == 0)
  }

  /** Record i sits in the queue its state names, and only the running record (if any) is RUNNING. */
  ghost predicate Placed(c: Cpu, i: nat, running: Option<nat>)
    requires i < |c.processes|
  {
    var s := c.processes[i].state;
    && (i in c.ready <==> s == Ready)
    && (i in c.waiting <==> s == Blocked)
    && (i in c.terminated <==> s == Terminated)
    && (s == Running <==> running == Some(i))
  }

  /** The scheduler invariant, with `running` the record a dispatch currently holds outside every queue. */
  ghost predicate Inv(c: Cpu, running: Option<nat>)
  {
    && Indexed(c)
    && NoDup(c.ready) && NoDup(c.waiting) && NoDup(c.terminated)
    && (running.Some? ==> running.value < |c.processes|)
    && (forall i :: 0 <= i < |c.processes| ==> Placed(c, i, running))
    && (forall i :: 0 <= i < |c.processes| ==> RecordOk(c.processes[i]))
  }

  /** The invariant between dispatches, when no record is running. */
  ghost predicate Valid(c: Cpu)
  {
    Inv(c, None)
  }

  /** The only change a record sees while another one runs: BLOCKED may become READY. */
  ghost predicate Promoted(p: Pcb, p': Pcb)
  {
    p' == p || (p.state == Blocked && p' == p.(state := Ready))
  }

  /** The entries of `q` whose record in `ps` is still BLOCKED, in queue order. */
  function StillBlocked(q: seq<nat>, ps: seq<Pcb>): (r: seq<nat>)
    ensures forall x :: x in r ==> x in q
  {
    if q == [] then []
    else (if q[0] < |ps| && ps[q[0]].state == Blocked then [q[0]] else []) + StillBlocked(q[1..], ps)
  }

  // ---------------------------------------------------------------------------
  // Queue helpers
  // ---------------------------------------------------------------------------

  lemma {:induction false} StillBlockedCongruent(q: seq<nat>, ps1: seq<Pcb>, ps2: seq<Pcb>)
    requires forall x :: x in q ==>
      x < |ps1| && x < |ps2| && (ps1[x].state == Blocked <==> ps2[x].state == Blocked)
    ensures StillBlocked(q, ps1) == StillBlocked(q, ps2)
    decreases |q|
  {
    if q != [] {
      assert q[0] in q;
      assert forall x :: x in q[1..] ==> x in q;
      StillBlockedCongruent(q[1..], ps1, ps2);
    }
  }

  /** Filtering by a later table subsumes filtering by an earlier one when nobody becomes BLOCKED again. */
  lemma {:induction false} StillBlockedTwice(q: seq<nat>, ps1: seq<Pcb>, ps2: seq<Pcb>)
    requires forall x :: x in q ==>
      x < |ps1| && x < |ps2| && (ps2[x].state == Blocked ==> ps1[x].state == Blocked)
    ensures StillBlocked(StillBlocked(q, ps1), ps2) == StillBlocked(q, ps2)
    decreases |q|
  {
    if q != [] {
      assert q[0] in q;
      assert forall x :: x in q[1..] ==> x in q;
      StillBlockedTwice(q[1..], ps1, ps2);
      var t := StillBlocked(q[1..], ps1);
      if ps1[q[0]].state == Blocked {
        assert StillBlocked(q, ps1) == [q[0]] + t;
        assert ([q[0]] + t)[1..] == t;
      } else {
        assert StillBlocked(q, ps1) == t;
      }
    }
  }

  /** A queue all of whose records are BLOCKED is its own filter. */
  lemma {:induction false} StillBlockedAll(q: seq<nat>, ps: seq<Pcb>)
    requires forall x :: x in q ==> x < |ps| && ps[x].state == Blocked
    ensures StillBlocked(q, ps) == q
    decreases |q|
  {
    if q != [] {
      assert q[0] in q;
      assert forall x :: x in q[1..] ==> x in q;
      StillBlockedAll(q[1..], ps);
      assert [q[0]] + q[1..] == q;
    }
  }

  /** Removing the records that left BLOCKED is keeping those still BLOCKED. */
  lemma {:induction false} WithoutIsStillBlocked(q: seq<nat>, xs: seq<nat>, ps: seq<Pcb>)
    requires forall x :: x in q ==> x < |ps| && (x in xs <==> ps[x].state != Blocked)
    ensures Without(q, xs) == StillBlocked(q, ps)
    decreases |q|
  {
    if q != [] {
      assert q[0] in q;
      assert forall x :: x in q[1..] ==> x in q;
      WithoutIsStillBlocked(q[1..], xs, ps);
    }
  }

  lemma DropHead(q: seq<nat>, x: nat)
    requires NoDup(q) && |q| > 0
    ensures NoDup(q[1..])
    ensures q[0] !in q[1..]
    ensures x != q[0] ==> (x in q[1..] <==> x in q)
  {
    if x in q && x != q[0] {
      var k :| 0 <= k < |q| && q[k] == x;
      assert q[1..][k - 1] == x;
    }
  }

  // ---------------------------------------------------------------------------
  // Setup and admission
  // ---------------------------------------------------------------------------

  /** A fresh scheduler satisfies the invariant. */
  lemma NewCpuValid(timeSlice: int, code: seq<string>)
    ensures Valid(NewCpu(timeSlice, code))
  {
  }

  /** Adding a never-run record keeps the invariant; it lands in exactly one queue. */
  lemma AddProcessKeepsValid(c: Cpu, p: Pcb)
    requires Valid(c)
    requires p.usedRunTime == 0 && p.programCounter == 0
    ensures Valid(AddProcess(c, p))
  {
    var r := AddProcess(c, p);
    var n := |c.processes|;
    IndexedMembers(c);
    assert n !in c.ready && n !in c.waiting && n !in c.terminated;
    NoDupAppendOne<nat>(c.ready, n);
    NoDupAppendOne<nat>(c.waiting, n);
    forall i | 0 <= i < |r.processes| ensures Placed(r, i, None) && RecordOk(r.processes[i]) {
      if i < n {
        assert Placed(c, i, None) && RecordOk(c.processes[i]);
        assert r.processes[i] == c.processes[i];
      }
    }
  }

  /** Every record is in exactly one of the three queues between dispatches. */
  lemma ExactlyOneQueue(c: Cpu, i: nat)
    requires Valid(c) && i < |c.processes|
    ensures i in c.ready || i in c.waiting || i in c.terminated
    ensures !(i in c.ready && i in c.waiting) && !(i in c.ready && i in c.terminated)
    ensures !(i in c.waiting && i in c.terminated)
  {
    assert Placed(c, i, None);
  }

  /**
   * Admission keeps the invariant, leaves the running record alone, changes
   * other records only from BLOCKED to READY, and the waiting queue keeps
   * exactly its still-BLOCKED entries in order.
   */
  lemma AdmitKeepsInv(c: Cpu, running: Option<nat>)
    requires Inv(c, running)
    ensures Inv(Admit(c), running)
    ensures running.Some? ==> Admit(c).processes[running.value] == c.processes[running.value]
    ensures Admit(c).waiting == StillBlocked(c.waiting, Admit(c).processes)
    ensures forall i :: 0 <= i < |c.processes| ==> Promoted(c.processes[i], Admit(c).processes[i])
  {
    var r := Admit(c);
    var ps := c.processes;
    var newly := Arrivals(ps, c.time);
    AdmitQueues(c);
    assert NoDup(r.ready) by {
      ArrivalsFacts(ps, c.time);
      IndexedMembers(c);
      forall x | x in c.ready ensures x !in newly {
        assert Placed(c, x, running);
      }
      NoDupAppend<nat>(c.ready, newly);
    }
    AdmitKeepsRecords(c, running);
    assert r.waiting == StillBlocked(c.waiting, r.processes) by {
      ArrivalsFacts(ps, c.time);
      IndexedMembers(c);
      forall x | x in c.waiting ensures x < |r.processes| && (x in newly <==> r.processes[x].state != Blocked) {
        assert Placed(c, x, running);
      }
      WithoutIsStillBlocked(c.waiting, newly, r.processes);
    }
  }

  /** Admission places every record in the queue its new state names and keeps the per-record bounds. */
  lemma AdmitKeepsRecords(c: Cpu, running: Option<nat>)
    requires Inv(c, running)
    ensures forall i :: 0 <= i < |c.processes| ==>
      Placed(Admit(c), i, running) && RecordOk(Admit(c).processes[i]) &&
      Promoted(c.processes[i], Admit(c).processes[i])
    ensures running.Some? ==> Admit(c).processes[running.value] == c.processes[running.value]
  {
    var r := Admit(c);
    var ps := c.processes;
    AdmitQueues(c);
    ArrivalsFacts(ps, c.time);
    forall i | 0 <= i < |ps|
      ensures Placed(r, i, running) && RecordOk(r.processes[i]) && Promoted(ps[i], r.processes[i])
    {
      assert Placed(c, i, running) && RecordOk(ps[i]);
    }
    if running.Some? {
      assert Placed(c, running.value, running);
    }
  }

  /** A second admission at the same time finds nobody new: admission is idempotent. */
  lemma AdmitIdempotent(c: Cpu)
    ensures Admit(Admit(c)) == Admit(c)
  {
    var c1 := Admit(c);
    NothingLeftToAdmit(c);
    AdmitNothingArrived(c1);
  }

  /** After an admission no record passes the admission test any more. */
  lemma NothingLeftToAdmit(c: Cpu)
    ensures Arrivals(Admit(c).processes, c.time) == []
  {
    var ps' := Admit(c).processes;
    AdmitQueues(c);
    forall j | 0 <= j < |ps'| ensures !Admissible(ps'[j], c.time) {
    }
    NoArrivals(ps', c.time);
  }

  lemma NoArrivals(ps: seq<Pcb>, time: int)
    requires forall j :: 0 <= j < |ps| ==> !Admissible(ps[j], time)
    ensures Arrivals(ps, time) == []
  {
    NoArrivalsFrom(ps, time, 0);
  }

  lemma {:induction false} NoArrivalsFrom(ps: seq<Pcb>, time: int, i: nat)
    requires i <= |ps|
    requires forall j :: i <= j < |ps| ==> !Admissible(ps[j], time)
    ensures ArrivalsFrom(ps, time, i) == []
    decreases |ps| - i
  {
    if i < |ps| {
      NoArrivalsFrom(ps, time, i + 1);
    }
  }

  /** When nobody has arrived, admission changes nothing. */
  lemma AdmitNothingArrived(c: Cpu)
    requires Arrivals(c.processes, c.time) == []
    ensures Admit(c) == c
  {
    var r := Admit(c);
    AdmitQueues(c);
    ArrivalsFacts(c.processes, c.time);
    WithoutNothing(c.waiting);
    assert r.ready == c.ready + [] == c.ready;
    assert r.processes == c.processes by {
      forall i | 0 <= i < |c.processes| ensures r.processes[i] == c.processes[i] {
        assert i !in Arrivals(c.processes, c.time);
      }
    }
  }

  /** Admission leaves the set of terminated records as it is. */
  lemma AdmitKeepsAllTerminated(c: Cpu)
    ensures AllTerminated(Admit(c).processes) <==> AllTerminated(c.processes)
  {
    var r := Admit(c);
    AdmitQueues(c);
    if AllTerminated(c.processes) {
      forall i | 0 <= i < |r.processes| ensures r.processes[i].state == Terminated {
      }
    }
    if AllTerminated(r.processes) {
      forall i | 0 <= i < |c.processes| ensures c.processes[i].state == Terminated {
        assert r.processes[i].state == Terminated;
      }
    }
  }

  // ---------------------------------------------------------------------------
  // Dispatch
  // ---------------------------------------------------------------------------

  /**
   * How a dispatch loop of `e` passes for record `cur` leaves the scheduler:
   * the clock and the record's run time both advance by e, nothing else of the
   * record changes but its program counter, the ready queue only grows at the
   * tail, the waiting queue keeps exactly its still-BLOCKED entries, and every
   * other record is at most admitted.
   */
  ghost predicate Advanced(c: Cpu, r: Cpu, cur: nat, e: nat)
  {
    && cur < |c.processes|
    && |r.processes| == |c.processes|
    && var p := c.processes[cur];
    && r.time == c.time + e
    && r.processes[cur] == p.(usedRunTime := p.usedRunTime + e, programCounter := r.processes[cur].programCounter)
    && r.terminated == c.terminated
    && c.ready <= r.ready
    && r.waiting == StillBlocked(c.waiting, r.processes)
    && (forall i :: 0 <= i < |c.processes| && i != cur ==> Promoted(c.processes[i], r.processes[i]))
  }

  /** Zero passes leave everything in place. */
  lemma AdvancedNone(c: Cpu, cur: nat)
    requires Inv(c, Some(cur))
    ensures Advanced(c, c, cur, 0)
  {
    IndexedMembers(c);
    forall x | x in c.waiting ensures x < |c.processes| && c.processes[x].state == Blocked {
      assert Placed(c, x, Some(cur));
    }
    StillBlockedAll(c.waiting, c.processes);
  }

  /** Two stretches of the dispatch loop compose. */
  lemma AdvancedCompose(c: Cpu, m: Cpu, r: Cpu, cur: nat, e1: nat, e2: nat)
    requires Inv(c, Some(cur)) && cur < |m.processes|
    requires Advanced(c, m, cur, e1) && Advanced(m, r, cur, e2)
    ensures Advanced(c, r, cur, e1 + e2)
  {
    IndexedMembers(c);
    forall x | x in c.waiting ensures x < |m.processes| && x < |r.processes| &&
      (r.processes[x].state == Blocked ==> m.processes[x].state == Blocked)
    {
      assert Placed(c, x, Some(cur));
      assert Promoted(m.processes[x], r.processes[x]);
    }
    StillBlockedTwice(c.waiting, m.processes, r.processes);
    assert c.ready == r.ready[..|c.ready|] by {
      assert m.ready == r.ready[..|m.ready|];
      assert c.ready == m.ready[..|c.ready|];
    }
    forall i | 0 <= i < |c.processes| && i != cur ensures Promoted(c.processes[i], r.processes[i]) {
      assert Promoted(c.processes[i], m.processes[i]) && Promoted(m.processes[i], r.processes[i]);
    }
  }

  /** One pass of the dispatch loop for a record with run time left: one tick, one unit of run time. */
  lemma SliceTickFacts(c: Cpu, cur: nat)
    requires Inv(c, Some(cur))
    requires c.processes[cur].usedRunTime < c.processes[cur].totalRunTime
    ensures Inv(SliceTick(c, cur), Some(cur))
    ensures Advanced(c, SliceTick(c, cur), cur, 1)
    ensures SliceTick(c, cur).processes[cur].state == Running
  {
    var p := c.processes[cur];
    assert Placed(c, cur, Some(cur)) && RecordOk(p);
    var f := ExecuteInstruction(c.code, c.time, p);
    var p1 := UpdateUsedRunTime(f.pcb, 1);
    var c0 := c.(time := f.time, processes := c.processes[cur := p1]);
    assert Inv(c0, Some(cur)) by {
      forall i | 0 <= i < |c0.processes| ensures Placed(c0, i, Some(cur)) && RecordOk(c0.processes[i]) {
        assert Placed(c, i, Some(cur)) && RecordOk(c.processes[i]);
      }
    }
    AdmitKeepsInv(c0, Some(cur));
    var r := Admit(c0);
    assert r == SliceTick(c, cur);
    forall i | 0 <= i < |c.processes| && i != cur ensures Promoted(c.processes[i], r.processes[i]) {
      assert Promoted(c0.processes[i], r.processes[i]);
    }
  }

  /**
   * The dispatch loop of a record holding enough remaining run time for `n`
   * passes runs all n: it never stops early, and every fetch takes the branch
   * that advances the clock (so the "a question!!!" branch is never reached).
   */
  lemma {:induction false} RunSliceFacts(c: Cpu, cur: nat, n: int)
    requires Inv(c, Some(cur))
    requires n <= 0 || c.processes[cur].usedRunTime + n <= c.processes[cur].totalRunTime
    ensures Inv(RunSlice(c, cur, n), Some(cur))
    ensures Advanced(c, RunSlice(c, cur, n), cur, Max(0, n))
    decreases n
  {
    if n <= 0 {
      RunSliceNone(c, cur, n);
    } else {
      var c1 := RunSliceStep(c, cur, n);
      var r := RunSlice(c1, cur, n - 1);
      RunSliceFacts(c1, cur, n - 1);
      AdvancedCompose(c, c1, r, cur, 1, Max(0, n - 1));
    }
  }

  /** A dispatch loop with no passes left changes nothing. */
  lemma RunSliceNone(c: Cpu, cur: nat, n: int)
    requires Inv(c, Some(cur)) && n <= 0
    ensures Inv(RunSlice(c, cur, n), Some(cur))
    ensures Advanced(c, RunSlice(c, cur, n), cur, Max(0, n))
  {
    assert RunSlice(c, cur, n) == c;
    AdvancedNone(c, cur);
  }

  /** The first pass of a dispatch loop with passes and run time left, and what remains after it. */
  lemma RunSliceStep(c: Cpu, cur: nat, n: int) returns (c1: Cpu)
    requires Inv(c, Some(cur))
    requires 0 < n && c.processes[cur].usedRunTime + n <= c.processes[cur].totalRunTime
    ensures Inv(c1, Some(cur)) && Advanced(c, c1, cur, 1)
    ensures RunSlice(c, cur, n) == RunSlice(c1, cur, n - 1)
    ensures n - 1 <= 0 || c1.processes[cur].usedRunTime + (n - 1) <= c1.processes[cur].totalRunTime
  {
    c1 := SliceTick(c, cur);
    SliceTickFacts(c, cur);
  }

  /** Popping the ready head hands it to the dispatch as the running record. */
  lemma PopHeadFacts(c: Cpu)
    requires Valid(c) && |c.ready| > 0
    ensures Inv(PopHead(c), Some(c.ready[0]))
    ensures PopHead(c).processes[c.ready[0]] == c.processes[c.ready[0]].(state := Running)
    ensures PopHead(c).ready == c.ready[1..]
    ensures PopHead(c).waiting == c.waiting && PopHead(c).terminated == c.terminated
  {
    var h := c.ready[0];
    var c1 := PopHead(c);
    assert Placed(c, h, None);
    DropHead(c.ready, h);
    forall i | 0 <= i < |c1.processes| ensures Placed(c1, i, Some(h)) && RecordOk(c1.processes[i]) {
      assert Placed(c, i, None) && RecordOk(c.processes[i]);
      DropHead(c.ready, i);
    }
  }

  /** Settling the running record puts it back into exactly one queue. */
  lemma SettleFacts(c: Cpu, cur: nat)
    requires Inv(c, Some(cur))
    ensures var r := Settle(c, cur); var q := c.processes[cur];
      && Valid(r)
      && r.processes[cur] == q.(state := r.processes[cur].state)
      && (q.usedRunTime >= q.totalRunTime ==>
            r.processes[cur].state == Terminated && r.terminated == c.terminated + [cur] && r.ready == c.ready)
      && (q.usedRunTime < q.totalRunTime ==>
            r.processes[cur].state == Ready && r.terminated == c.terminated && r.ready == c.ready + [cur])
      && r.waiting == c.waiting
      && (forall i :: 0 <= i < |c.processes| && i != cur ==> r.processes[i] == c.processes[i])
  {
    var q := c.processes[cur];
    var r := Settle(c, cur);
    assert Placed(c, cur, Some(cur));
    if q.usedRunTime >= q.totalRunTime {
      NoDupAppendOne<nat>(c.terminated, cur);
    } else {
      NoDupAppendOne<nat>(c.ready, cur);
    }
    forall i | 0 <= i < |r.processes| ensures Placed(r, i, None) && RecordOk(r.processes[i]) {
      assert Placed(c, i, Some(cur)) && RecordOk(c.processes[i]);
    }
  }

  /** The ticks a dispatch of record p actually runs. */
  function Granted(timeSlice: int, p: Pcb): nat
  {
    Max(0, ExecuteTime(timeSlice, p))
  }

  /**
   * One round-robin dispatch of the ready head h: clock and h's run time both
   * advance by min(timeSlice, remaining); h ends TERMINATED and at the tail of
   * the terminated queue exactly when its run time is used up, and otherwise
   * READY at the tail of the ready queue; the rest of the ready queue keeps its
   * order at the front, the waiting queue loses exactly the records admitted
   * meanwhile, and the invariant is kept.
   */
  lemma RoundRobinFacts(c: Cpu)
    requires Valid(c) && |c.ready| > 0
    ensures var r := RoundRobin(c); var h := c.ready[0]; var p := c.processes[h];
      var e := Granted(c.timeSlice, p);
      && Valid(r)
      && r.time == c.time + e
      && r.processes[h].usedRunTime == p.usedRunTime + e
      && r.processes[h] == p.(usedRunTime := r.processes[h].usedRunTime,
                              programCounter := r.processes[h].programCounter,
                              state := r.processes[h].state)
      && (r.processes[h].state == Terminated <==> p.usedRunTime + e >= p.totalRunTime)
      && (r.processes[h].state == Terminated ==>
            r.terminated == c.terminated + [h] && c.ready[1..] <= r.ready)
      && (r.processes[h].state != Terminated ==>
            r.processes[h].state == Ready && r.terminated == c.terminated &&
            c.ready[1..] <= r.ready && r.ready[|r.ready| - 1] == h)
      && r.waiting == StillBlocked(c.waiting, r.processes)
      && (forall i :: 0 <= i < |c.processes| && i != h ==> Promoted(c.processes[i], r.processes[i]))
  {
    var h := c.ready[0];
    var p := c.processes[h];
    assert Placed(c, h, None) && RecordOk(p);
    PopHeadFacts(c);
    var c1 := PopHead(c);
    var et := ExecuteTime(c.timeSlice, p);
    RunSliceFacts(c1, h, et);
    var c2 := RunSlice(c1, h, et);
    SettleFacts(c2, h);
    var r := Settle(c2, h);
    assert r == RoundRobin(c);
    IndexedMembers(c);
    forall x | x in c.waiting ensures x < |c2.processes| && x < |r.processes| &&
      (c2.processes[x].state == Blocked <==> r.processes[x].state == Blocked)
    {
      assert Placed(c, x, None);
    }
    StillBlockedCongruent(c.waiting, c2.processes, r.processes);
    forall i | 0 <= i < |c.processes| && i != h ensures Promoted(c.processes[i], r.processes[i]) {
      assert c1.processes[i] == c.processes[i];
    }
  }

  /**
   * A dispatch keeps 0 <= usedRunTime <= totalRunTime for its record, and the
   * record ends TERMINATED exactly when the two are equal.
   */
  lemma DispatchKeepsRunTimeBound(c: Cpu)
    requires Valid(c) && |c.ready| > 0
    requires 0 <= c.processes[c.ready[0]].totalRunTime
    ensures var p' := RoundRobin(c).processes[c.ready[0]];
      && 0 <= p'.usedRunTime <= p'.totalRunTime
      && (p'.state == Terminated <==> p'.usedRunTime == p'.totalRunTime)
  {
    RoundRobinFacts(c);
    assert RecordOk(RoundRobin(c).processes[c.ready[0]]);
  }

  /** A record with no run time left is retired by its dispatch without a tick passing. */
  lemma NoWorkTerminatesAtOnce(c: Cpu)
    requires Valid(c) && |c.ready| > 0
    requires c.processes[c.ready[0]].totalRunTime <= c.processes[c.ready[0]].usedRunTime
    ensures RoundRobin(c).time == c.time
    ensures RoundRobin(c).processes[c.ready[0]].state == Terminated
    ensures RoundRobin(c).terminated == c.terminated + [c.ready[0]]
  {
    RoundRobinFacts(c);
  }

  // ---------------------------------------------------------------------------
  // The outer loop
  // ---------------------------------------------------------------------------

  /**
   * With a time slice of zero or less a dispatch grants no tick: a record with
   * run time left only moves from the head to the tail of the ready queue, and
   * the clock stands still.
   */
  lemma ZeroSliceRotates(c: Cpu)
    requires Valid(c) && |c.ready| > 0 && c.timeSlice <= 0
    requires c.processes[c.ready[0]].usedRunTime < c.processes[c.ready[0]].totalRunTime
    ensures RoundRobin(c) == c.(ready := c.ready[1..] + [c.ready[0]])
  {
    var h := c.ready[0];
    IndexedMembers(c);
    assert Placed(c, h, None);
    var c1 := PopHead(c);
    assert RunSlice(c1, h, ExecuteTime(c.timeSlice, c.processes[h])) == c1;
    assert c1.processes[h := c.processes[h]] == c.processes;
  }

  /** With nothing ready after admission, a turn only advances the clock by one tick. */
  lemma IdleTick(c: Cpu, selector: int)
    requires Indexed(c) && !AllTerminated(c.processes)
    requires Admit(c).ready == []
    ensures Step(c, selector) == Continue(c.(time := c.time + 1))
  {
    AdmitQueues(c);
    assert c.ready + Arrivals(c.processes, c.time) == [];
    AdmitNothingArrived(c);
  }

  /**
   * The FCFS and highest-priority-first selectors only admit: once something
   * is ready, every later turn leaves the state as it is and the loop never exits.
   */
  lemma {:induction false} StubPoliciesSpin(c: Cpu, selector: int, fuel: nat)
    requires Indexed(c) && !AllTerminated(c.processes)
    requires selector == FcfsSelector || selector == PrioritySelector
    requires Admit(c).ready != []
    requires fuel >= 1
    ensures Schedule(c, selector, fuel) == Continue(Admit(c))
    decreases fuel
  {
    var c1 := Admit(c);
    AdmitKeepsAllTerminated(c);
    assert Step(c, selector) == Continue(c1);
    if fuel > 1 {
      AdmitIdempotent(c);
      StubPoliciesSpin(c1, selector, fuel - 1);
    }
  }

  /** An unknown selector makes the loop return as soon as something is ready to dispatch. */
  lemma UnknownSelectorReturns(c: Cpu, selector: int, fuel: nat)
    requires Indexed(c) && !AllTerminated(c.processes)
    requires selector !in {RoundRobinSelector, FcfsSelector, PrioritySelector}
    requires Admit(c).ready != []
    requires fuel >= 1
    ensures Schedule(c, selector, fuel) == InvalidSelector(Admit(c))
  {
  }

  /** One turn of the outer loop keeps the invariant. */
  lemma StepKeepsValid(c: Cpu, selector: int)
    requires Valid(c)
    ensures Valid(Step(c, selector).cpu)
  {
    if !AllTerminated(c.processes) {
      AdmitKeepsValid(c);
      var c1 := Admit(c);
      if |c1.ready| == 0 {
        IdleKeepsValid(c1);
      } else if selector == RoundRobinSelector {
        RoundRobinKeepsValid(c1);
      }
    }
  }

  lemma AdmitKeepsValid(c: Cpu)
    requires Valid(c)
    ensures Valid(Admit(c))
  {
    AdmitKeepsInv(c, None);
  }

  /** An idle tick only moves the clock. */
  lemma IdleKeepsValid(c: Cpu)
    requires Valid(c)
    ensures Valid(c.(time := c.time + 1))
  {
    var c2 := c.(time := c.time + 1);
    forall i | 0 <= i < |c2.processes| ensures Placed(c2, i, None) && RecordOk(c2.processes[i]) {
      assert Placed(c, i, None) && RecordOk(c.processes[i]);
    }
  }

  lemma RoundRobinKeepsValid(c: Cpu)
    requires Valid(c) && |c.ready| > 0
    ensures Valid(RoundRobin(c))
  {
    RoundRobinFacts(c);
  }

  // ---------------------------------------------------------------------------
  // Termination of round robin
  // ---------------------------------------------------------------------------

  /** Work a record still stands for: nothing once TERMINATED, else one retirement plus its remaining ticks. */
  function Pending(p: Pcb): nat
  {
    if p.state == Terminated then 0 else 1 + Max(0, p.totalRunTime - p.usedRunTime)
  }

  function WorkLeft(ps: seq<Pcb>): nat
  {
    if ps == [] then 0 else Pending(ps[0]) + WorkLeft(ps[1..])
  }

  /** The latest arrival time in the table (0 for an empty table). */
  function LatestArrival(ps: seq<Pcb>): (r: int)
    ensures forall i :: 0 <= i < |ps| ==> ps[i].arrivalTime <= r
  {
    if ps == [] then 0 else Max(ps[0].arrivalTime, LatestArrival(ps[1..]))
  }

  /** The loop's variant: remaining work plus the idle ticks still to come. */
  function Measure(c: Cpu): nat
  {
    WorkLeft(c.processes) + Max(0, LatestArrival(c.processes) - c.time)
  }

  lemma {:induction false} WorkLeftMonotone(ps: seq<Pcb>, ps': seq<Pcb>, h: int)
    requires |ps'| == |ps|
    requires forall i :: 0 <= i < |ps| ==> Pending(ps'[i]) <= Pending(ps[i])
    requires 0 <= h < |ps| ==> Pending(ps'[h]) < Pending(ps[h])
    ensures WorkLeft(ps') <= WorkLeft(ps)
    ensures 0 <= h < |ps| ==> WorkLeft(ps') < WorkLeft(ps)
    decreases |ps|
  {
    if ps != [] {
      WorkLeftMonotone(ps[1..], ps'[1..], h - 1);
    }
  }

  lemma {:induction false} LatestArrivalSame(ps: seq<Pcb>, ps': seq<Pcb>)
    requires |ps'| == |ps|
    requires forall i :: 0 <= i < |ps| ==> ps'[i].arrivalTime == ps[i].arrivalTime
    ensures LatestArrival(ps') == LatestArrival(ps)
    decreases |ps|
  {
    if ps != [] {
      LatestArrivalSame(ps[1..], ps'[1..]);
    }
  }

  /** Admission moves records between non-terminated states only, so the variant does not change. */
  lemma AdmitKeepsMeasure(c: Cpu)
    ensures Measure(Admit(c)) == Measure(c)
  {
    var r := Admit(c);
    AdmitQueues(c);
    WorkLeftMonotone(c.processes, r.processes, -1);
    WorkLeftMonotone(r.processes, c.processes, -1);
    LatestArrivalSame(c.processes, r.processes);
  }

  /** With round robin and a positive slice, every turn that does not exit lowers the variant. */
  lemma StepDecreasesMeasure(c: Cpu)
    requires Valid(c) && c.timeSlice >= 1 && !AllTerminated(c.processes)
    ensures Step(c, RoundRobinSelector).Continue?
    ensures Measure(Step(c, RoundRobinSelector).cpu) < Measure(c)
  {
    AdmitKeepsInv(c, None);
    AdmitKeepsMeasure(c);
    AdmitKeepsAllTerminated(c);
    if |Admit(c).ready| == 0 {
      IdleTickDecreases(c);
    } else {
      DispatchDecreases(Admit(c));
    }
  }

  /**
   * An idle tick happens only while some record has not arrived yet, so it
   * brings the clock one step closer to the latest arrival.
   */
  lemma IdleTickDecreases(c: Cpu)
    requires Valid(Admit(c)) && !AllTerminated(Admit(c).processes) && Admit(c).ready == []
    ensures Measure(Admit(c).(time := c.time + 1)) < Measure(Admit(c))
  {
    var c1 := Admit(c);
    var ps := c1.processes;
    var i :| 0 <= i < |ps| && ps[i].state != Terminated;
    assert Placed(c1, i, None) && RecordOk(ps[i]);
    NothingLeftToAdmit(c);
    ArrivalsFacts(ps, c.time);
    assert c.time < ps[i].arrivalTime <= LatestArrival(ps);
  }

  /** A dispatch with a positive slice consumes a tick of its record's run time or retires it. */
  lemma DispatchDecreases(c: Cpu)
    requires Valid(c) && c.timeSlice >= 1 && |c.ready| > 0
    ensures Measure(RoundRobin(c)) < Measure(c)
  {
    var r := RoundRobin(c);
    DispatchLowersPending(c);
    WorkLeftMonotone(c.processes, r.processes, c.ready[0]);
    LatestArrivalSame(c.processes, r.processes);
  }

  /** Record by record: no work appears, the dispatched record loses some, and arrival times stay. */
  lemma DispatchLowersPending(c: Cpu)
    requires Valid(c) && c.timeSlice >= 1 && |c.ready| > 0
    ensures var r := RoundRobin(c); var ps := c.processes;
      && |r.processes| == |ps| && c.ready[0] < |ps| && r.time >= c.time
      && (forall i :: 0 <= i < |ps| ==> Pending(r.processes[i]) <= Pending(ps[i]))
      && Pending(r.processes[c.ready[0]]) < Pending(ps[c.ready[0]])
      && (forall i :: 0 <= i < |ps| ==> r.processes[i].arrivalTime == ps[i].arrivalTime)
  {
    RoundRobinFacts(c);
    var r := RoundRobin(c);
    var ps := c.processes;
    var h := c.ready[0];
    assert Placed(c, h, None) && RecordOk(ps[h]);
    forall i | 0 <= i < |ps| ensures Pending(r.processes[i]) <= Pending(ps[i]) {
    }
  }

  /**
   * Termination: with selector 0 and timeSlice >= 1, the outer loop reaches
   * its exit within Measure + 1 turns, with every record TERMINATED.
   */
  lemma {:induction false} RoundRobinTerminates(c: Cpu, fuel: nat)
    requires Valid(c) && c.timeSlice >= 1
    requires fuel > Measure(c)
    ensures Schedule(c, RoundRobinSelector, fuel).Finished?
    decreases fuel, 1
  {
    if !AllTerminated(c.processes) {
      TerminatesAfterTurn(c, fuel);
    }
  }

  /** The turn from an unfinished state goes round again, and the rest of the loop fits the remaining fuel. */
  lemma {:induction false} TerminatesAfterTurn(c: Cpu, fuel: nat)
    requires Valid(c) && c.timeSlice >= 1 && !AllTerminated(c.processes)
    requires fuel > Measure(c)
    ensures Resume(Step(c, RoundRobinSelector), RoundRobinSelector, fuel - 1).Finished?
    decreases fuel, 0
  {
    var c' := RoundRobinTurn(c);
    RoundRobinTerminates(c', fuel - 1);
  }

  /** A round-robin turn from a state that is not finished goes round again, valid and with a lower variant. */
  lemma RoundRobinTurn(c: Cpu) returns (c': Cpu)
    requires Valid(c) && c.timeSlice >= 1 && !AllTerminated(c.processes)
    ensures Step(c, RoundRobinSelector) == Continue(c')
    ensures Valid(c') && c'.timeSlice >= 1 && Measure(c') < Measure(c)
  {
    StepDecreasesMeasure(c);
    StepKeepsValid(c, RoundRobinSelector);
    c' := Step(c, RoundRobinSelector).cpu;
  }

  /** Every run of the outer loop, under any selector and for any number of turns, keeps the invariant. */
  lemma {:induction false} ScheduleKeepsValid(c: Cpu, selector: int, fuel: nat)
    requires Valid(c)
    ensures Valid(Schedule(c, selector, fuel).cpu)
    decreases fuel, 0
  {
    if fuel > 0 {
      StepKeepsValid(c, selector);
      ResumeKeepsValid(Step(c, selector), selector, fuel - 1);
    }
  }

  lemma {:induction false} ResumeKeepsValid(o: Outcome, selector: int, fuel: nat)
    requires Valid(o.cpu) && (o.Finished? ==> AllTerminated(o.cpu.processes))
    ensures Valid(Resume(o, selector, fuel).cpu)
    decreases fuel, 1
  {
    if o.Continue? {
      ScheduleKeepsValid(o.cpu, selector, fuel);
    }
  }

  /** Once every record is TERMINATED the loop exits at its next test, whatever the selector. */
  lemma ExitAtOnce(c: Cpu, selector: int, fuel: nat)
    requires Indexed(c) && AllTerminated(c.processes) && fuel > 0
    ensures Schedule(c, selector, fuel) == Finished(c)
  {
  }

  /** When the loop exits, the terminated queue lists every record exactly once and nothing is ready. */
  lemma FinishedReport(c: Cpu)
    requires Valid(c) && AllTerminated(c.processes)
    ensures DisplayQueues(c).0 == []
    ensures |DisplayQueues(c).1| == |c.processes|
    ensures forall i :: 0 <= i < |c.processes| ==> i in c.terminated
  {
    forall i | 0 <= i < |c.processes| ensures i in c.terminated && i !in c.ready {
      assert Placed(c, i, None);
    }
    IndexedMembers(c);
    forall x: nat ensures x !in c.ready {
      if x < |c.processes| {
        assert Placed(c, x, None);
      }
    }
    NothingInIsEmpty(c.ready);
    var all: seq<nat> := seq(|c.processes|, i => i);
    IncreasingNoDup(all);
    forall x ensures x in all <==> x in c.terminated {
      if x in all {
        var k :| 0 <= k < |all| && all[k] == x;
      }
      if x in c.terminated {
        var k :| 0 <= k < |c.terminated| && c.terminated[k] == x;
        assert all[x] == x;
      }
    }
    SameElementsSameLength(all, c.terminated);
  }
}
