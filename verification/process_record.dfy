/**
 * The process control block of pcb.h: the record the scheduler moves between
 * queues, its frame stack and the creation counter that numbers records.
 */
module ProcessRecord {

  /** The four states of `PCB::State`. */
  datatype State = Ready | Running | Blocked | Terminated

  /** A saved call frame: a register snapshot (register name to value) and a program counter. */
  datatype Frame = Frame(registers: map<string, int>, programCounter: int)

  /** `StackFrame()`: value-initialised, so no registers and a zero program counter. */
  const DefaultFrame: Frame := Frame(map[], 0)

  /** The frame stack; the last element of `frames` is the top. */
  datatype Stack = Stack(frames: seq<Frame>)

  const EmptyStack: Stack := Stack([])

  function Push(s: Stack, f: Frame): (r: Stack)
    ensures |r.frames| == |s.frames| + 1
    ensures r.frames[|s.frames|] == f && r.frames[..|s.frames|] == s.frames
  {
    Stack(s.frames + [f])
  }

  /**
   * Removes and returns the top frame; an empty stack yields the default frame
   * and stays empty.
   */
  function Pop(s: Stack): (r: (Frame, Stack))
    ensures s.frames == [] ==> r == (DefaultFrame, s)
    ensures s.frames != [] ==> r.1.frames + [r.0] == s.frames
  {
    if s.frames == [] then (DefaultFrame, s)
    else (s.frames[|s.frames| - 1], Stack(s.frames[..|s.frames| - 1]))
  }

  predicate IsEmpty(s: Stack)
  {
    s.frames == []
  }

  /** Last in, first out: popping right after a push gives back the frame and the old stack. */
  lemma PushThenPop(s: Stack, f: Frame)
    ensures Pop(Push(s, f)) == (f, s)
    ensures !IsEmpty(Push(s, f))
  {
    assert (s.frames + [f])[..|s.frames|] == s.frames;
  }

  /** Popping an empty stack is harmless: the default frame comes back and the stack stays empty. */
  lemma PopEmpty(s: Stack)
    requires IsEmpty(s)
    ensures Pop(s).0 == DefaultFrame && IsEmpty(Pop(s).1)
  {
  }

  /**
   * The process record. `numOfpro` is the creation index taken from the static
   * counter `proNum`; `codeStartIndex`/`codeLength` locate the program in the
   * program store.
   */
  datatype Pcb = Pcb(
    pid: int,
    priority: int,
    arrivalTime: int,
    totalRunTime: int,
    usedRunTime: int,
    state: State,
    numOfpro: int,
    programCounter: int,
    usedTimeSlice: int,
    remainingTimeSlice: int,
    codeStartIndex: int,
    codeLength: int,
    stack: Stack)

  /** Construction arguments: pid, priority, arrival time and total run time. */
  datatype Params = Params(pid: int, priority: int, arrivalTime: int, totalRunTime: int)

  /** The static counter `PCB::proNum` starts at zero. */
  const InitialProNum: int := 0

  /**
   * The constructor: the counters start at zero, the record takes the current
   * value of the creation counter, and the counter moves on by one.
   */
  function Construct(proNum: int, a: Params, initial: State): (r: (Pcb, int))
    ensures r.1 == proNum + 1 && r.0.numOfpro == proNum
    ensures r.0.pid == a.pid && r.0.priority == a.priority
    ensures r.0.arrivalTime == a.arrivalTime && r.0.totalRunTime == a.totalRunTime
    ensures r.0.state == initial
    ensures r.0.usedRunTime == 0 && r.0.programCounter == 0
    ensures r.0.usedTimeSlice == 0 && r.0.remainingTimeSlice == 0
    ensures IsEmpty(r.0.stack)
  {
    (Pcb(a.pid, a.priority, a.arrivalTime, a.totalRunTime, 0, initial, proNum, 0, 0, 0, 0, 0, EmptyStack),
     proNum + 1)
  }

  /** The constructor with the state argument left at its default, READY. */
  function New(proNum: int, a: Params): (r: (Pcb, int))
    ensures r.0.state == Ready
    ensures r.0.usedRunTime == 0 && r.0.programCounter == 0
    ensures r.0.usedTimeSlice == 0 && r.0.remainingTimeSlice == 0
    ensures r.1 == proNum + 1 && r.0.numOfpro == proNum
  {
    Construct(proNum, a, Ready)
  }

  /**
   * Constructing records one after another from counter value `proNum`: the
   * i-th record gets creation index proNum + i.
   */
  function ConstructAll(proNum: int, args: seq<Params>, initial: State): (r: (seq<Pcb>, int))
    ensures |r.0| == |args| && r.1 == proNum + |args|
    ensures forall i :: 0 <= i < |args| ==> r.0[i].numOfpro == proNum + i
    ensures forall i :: 0 <= i < |args| ==> r.0[i].pid == args[i].pid && r.0[i].priority == args[i].priority
    ensures forall i :: 0 <= i < |args| ==>
      r.0[i].arrivalTime == args[i].arrivalTime && r.0[i].totalRunTime == args[i].totalRunTime
    ensures forall i :: 0 <= i < |args| ==>
      r.0[i].state == initial && r.0[i].usedRunTime == 0 && r.0[i].programCounter == 0
    decreases |args|
  {
    if args == [] then ([], proNum)
    else
      var (first, next) := Construct(proNum, args[0], initial);
      var (rest, last) := ConstructAll(next, args[1..], initial);
      ([first] + rest, last)
  }

  /** Records created from the initial counter are numbered 0, 1, 2, ... */
  lemma CreationIndicesFromZero(args: seq<Params>, initial: State)
    ensures forall i :: 0 <= i < |args| ==> ConstructAll(InitialProNum, args, initial).0[i].numOfpro == i
  {
  }

  function SetPriority(p: Pcb, priority: int): (r: Pcb)
    ensures r.priority == priority && r.(priority := p.priority) == p
  {
    p.(priority := priority)
  }

  function SetCurrentState(p: Pcb, s: State): (r: Pcb)
    ensures r.state == s && r.(state := p.state) == p
  {
    p.(state := s)
  }

  /** `updateUsedRunTime(k)`: adds exactly k to the used run time and touches nothing else. */
  function UpdateUsedRunTime(p: Pcb, k: int): (r: Pcb)
    ensures r.usedRunTime - p.usedRunTime == k
    ensures r.(usedRunTime := p.usedRunTime) == p
  {
    p.(usedRunTime := p.usedRunTime + k)
  }

  /** `updateUsedTimeSlice()`: one more used slice, nothing else changes. */
  function UpdateUsedTimeSlice(p: Pcb): (r: Pcb)
    ensures r.usedTimeSlice == p.usedTimeSlice + 1
    ensures r.(usedTimeSlice := p.usedTimeSlice) == p
  {
    p.(usedTimeSlice := p.usedTimeSlice + 1)
  }

  function SetRemainingTimeSlice(p: Pcb, n: int): (r: Pcb)
    ensures r.remainingTimeSlice == n && r.(remainingTimeSlice := p.remainingTimeSlice) == p
  {
    p.(remainingTimeSlice := n)
  }

  /** `setCodeInfo(start, length)`: records where the program lives in the store. */
  function SetCodeInfo(p: Pcb, start: int, length: int): (r: Pcb)
    ensures r.(codeStartIndex := p.codeStartIndex, codeLength := p.codeLength) == p
  {
    p.(codeStartIndex := start, codeLength := length)
  }

  function GetCodeStartIndex(p: Pcb): int { p.codeStartIndex }

  function GetCodeLength(p: Pcb): int { p.codeLength }

  /** Setting the code location and reading it back through the getters gives the same pair. */
  lemma CodeInfoRoundTrip(p: Pcb, start: int, length: int)
    ensures GetCodeStartIndex(SetCodeInfo(p, start, length)) == start
    ensures GetCodeLength(SetCodeInfo(p, start, length)) == length
  {
  }

  /** `operator<` of pcb.h: compares priorities. */
  predicate Before(a: Pcb, b: Pcb)
  {
    a.priority < b.priority
  }

  /** pcb.h's comparator is a strict weak order: irreflexive, transitive, and incomparability is transitive. */
  lemma BeforeIsStrictWeakOrder()
    ensures forall a :: !Before(a, a)
    ensures forall a, b, c :: Before(a, b) && Before(b, c) ==> Before(a, c)
    ensures forall a, b, c :: !Before(a, b) && !Before(b, a) && !Before(b, c) && !Before(c, b) ==>
      !Before(a, c) && !Before(c, a)
  {
  }
}
