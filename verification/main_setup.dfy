/**
 * The set-up in main.cpp: five sample programs, five records built with the
 * all_pcb.h constructor (so each starts BLOCKED), the programs copied into the
 * program store, and the records sorted by priority value.
 *
 * As written, main.cpp loads the third program for the third, fourth and fifth
 * records, while the fourth and fifth records' run times are computed from the
 * lengths of the fourth and fifth programs; the model follows the code.
 */
module MainSetup {
  import PR = ProcessRecord
  import V = ProcessRecordVariant
  import Store = ProgramStore
  import Sorting = PrioritySort

  const P1: seq<string> := [
    "#include <iostream>",
    "int main() {",
    "    std::cout << \"Hello World!\" << std::endl;",
    "    return 0;",
    "}"]

  const P2: seq<string> := [
    "#include <iostream>",
    "int main() {",
    "    int a = 0, b = 0;",
    "    std::cin >> a;",
    "    std::cout << a + b << std::endl;",
    "    return 0;",
    "} "]

  const P3: seq<string> := [
    "#include <iostream>",
    "int main() {",
    "    int a = 0, b = 0;",
    "    std::cin >> a >> b;",
    "    std::cout << a + b << std::endl;",
    "    return 0;",
    "} "]

  const P4: seq<string> := [
    "#include <iostream>",
    "using namespace std;",
    "int main() {",
    "    char a = 'a';",
    "    if (a == 'a')",
    "        printf(\"%c\", a);",
    "    else",
    "        printf(\"not a\");",
    "    return 0;",
    "} "]

  const P5: seq<string> := [
    "#include <iostream>",
    "using namespace std;",
    "int main() {",
    "    int a = 1, b = 2;",
    "    cout << a * b << endl;",
    "    return 0;",
    "} "]

  /** The constructor arguments of the five records, in creation order. */
  const Args: seq<PR.Params> := [
    PR.Params(1, 30, 0, |P1| + 4),
    PR.Params(2, 20, 2, |P2| + 2),
    PR.Params(3, 40, 4, |P3| + 1),
    PR.Params(4, 25, 3, |P4| + 3),
    PR.Params(5, 35, 1, |P5| + 1)]

  /** The program main.cpp loads for the record of each creation index. */
  const Loads: seq<seq<string>> := [P1, P2, P3, P3, P3]

  /** The pids in the order the sort leaves them: ascending priority value. */
  const SortedPids: seq<int> := [2, 4, 1, 5, 3]

  /** The sample records in the order pid 2, 4, 1, 5, 3. */
  function ByPriority(records: seq<PR.Pcb>): seq<PR.Pcb>
    requires |records| == |Args|
  {
    [records[1], records[3], records[0], records[4], records[2]]
  }

  /**
   * Reordering records with the sample priorities as pid 2, 4, 1, 5, 3 puts
   * them in comparator order, with no two sharing a priority, and loses or
   * adds no record.
   */
  lemma {:induction false} ByPriorityIsOrdered(records: seq<PR.Pcb>)
    requires |records| == |Args|
    requires forall i :: 0 <= i < |Args| ==>
      records[i].pid == Args[i].pid && records[i].priority == Args[i].priority
    ensures Sorting.Sorted(ByPriority(records))
    ensures Sorting.DistinctPriorities(ByPriority(records))
    ensures multiset(ByPriority(records)) == multiset(records)
  {
    assert records == [records[0], records[1], records[2], records[3], records[4]];
  }

  /** Reordering records with the sample pids as above lists the pids as 2, 4, 1, 5, 3. */
  lemma ByPriorityPids(records: seq<PR.Pcb>)
    requires |records| == |Args|
    requires forall i :: 0 <= i < |Args| ==> records[i].pid == Args[i].pid
    ensures forall k :: 0 <= k < |SortedPids| ==> ByPriority(records)[k].pid == SortedPids[k]
  {
  }

  /**
   * Records with the sample pids and priorities, whatever their other fields,
   * have exactly one ordered permutation: the order pid 2, 4, 1, 5, 3. So any
   * result `std::sort` may return is that order.
   */
  lemma {:induction false} SortOrder(records: seq<PR.Pcb>, sorted: seq<PR.Pcb>)
    requires |records| == |Args|
    requires forall i :: 0 <= i < |Args| ==>
      records[i].pid == Args[i].pid && records[i].priority == Args[i].priority
    requires Sorting.Sorted(sorted) && multiset(sorted) == multiset(records)
    ensures sorted == ByPriority(records)
    ensures |sorted| == |SortedPids|
    ensures forall k :: 0 <= k < |SortedPids| ==> sorted[k].pid == SortedPids[k]
  {
    ByPriorityIsOrdered(records);
    ByPriorityPids(records);
    Sorting.DistinctDetermines(ByPriority(records));
    Sorting.SortedUnique(ByPriority(records), sorted);
  }

  /** The five records as the all_pcb.h constructor builds them, in creation order. */
  function Created(): (r: seq<PR.Pcb>)
    ensures |r| == |Args|
    ensures forall n :: 0 <= n < |Args| ==>
      r[n].pid == Args[n].pid && r[n].priority == Args[n].priority &&
      r[n].numOfpro == n && r[n].state == PR.Blocked
    ensures forall n :: 0 <= n < |Args| ==>
      r[n].arrivalTime == Args[n].arrivalTime && r[n].totalRunTime == Args[n].totalRunTime &&
      r[n].usedRunTime == 0 && r[n].programCounter == 0
  {
    PR.CreationIndicesFromZero(Args, PR.Blocked);
    PR.ConstructAll(PR.InitialProNum, Args, PR.Blocked).0
  }

  /** What line k of the store should hold: line k mod 256 of the program loaded into slot k / 256, or a blank line. */
  function Expected(k: int): string
    requires 0 <= k < Store.AllMemorySize
  {
    var n := k / Store.SlotSize;
    var i := k % Store.SlotSize;
    if i < |Loads[n]| then Loads[n][i] else ""
  }

  /** The store after the five loads of main.cpp. */
  function Filled(): (code: seq<string>)
    ensures |code| == Store.AllMemorySize
  {
    var c0 := Store.Loaded(Store.Blank(), Loads[0], Store.SlotOffset(0));
    var c1 := Store.Loaded(c0, Loads[1], Store.SlotOffset(1));
    var c2 := Store.Loaded(c1, Loads[2], Store.SlotOffset(2));
    var c3 := Store.Loaded(c2, Loads[3], Store.SlotOffset(3));
    Store.Loaded(c3, Loads[4], Store.SlotOffset(4))
  }

  /** Every line of the filled store is the expected one. */
  lemma FilledAsExpected(k: int)
    requires 0 <= k < Store.AllMemorySize
    ensures Filled()[k] == Expected(k)
  {
    if k < 256 {
      assert k / Store.SlotSize == 0 && k % Store.SlotSize == k;
    } else if k < 512 {
      assert k / Store.SlotSize == 1 && k % Store.SlotSize == k - 256;
    } else if k < 768 {
      assert k / Store.SlotSize == 2 && k % Store.SlotSize == k - 512;
    } else if k < 1024 {
      assert k / Store.SlotSize == 3 && k % Store.SlotSize == k - 768;
    } else {
      assert k / Store.SlotSize == 4 && k % Store.SlotSize == k - 1024;
    }
  }

  /**
   * The loaded records in the order pid 2, 4, 1, 5, 3, each with its creation
   * index, BLOCKED state, slot start and full program length.
   */
  lemma {:induction false} OrderedRecords(loaded: seq<PR.Pcb>)
    requires |loaded| == |Args|
    requires forall n :: 0 <= n < |Args| ==>
      loaded[n].pid == Args[n].pid && loaded[n].priority == Args[n].priority &&
      loaded[n].numOfpro == n && loaded[n].state == PR.Blocked &&
      loaded[n].codeStartIndex == Store.SlotOffset(n) && loaded[n].codeLength == |Loads[n]|
    ensures var r := ByPriority(loaded);
      |r| == |SortedPids| &&
      forall k :: 0 <= k < |r| ==>
        var n := SortedPids[k] - 1;
        r[k].pid == Args[n].pid && r[k].priority == Args[n].priority &&
        r[k].numOfpro == n && r[k].state == PR.Blocked &&
        r[k].codeStartIndex == Store.SlotOffset(n) && r[k].codeLength == |Loads[n]|
  {
    var r := ByPriority(loaded);
    forall k | 0 <= k < |r|
      ensures var n := SortedPids[k] - 1;
        r[k].pid == Args[n].pid && r[k].priority == Args[n].priority &&
        r[k].numOfpro == n && r[k].state == PR.Blocked &&
        r[k].codeStartIndex == Store.SlotOffset(n) && r[k].codeLength == |Loads[n]|
    {
      var n := SortedPids[k] - 1;
      assert r[k] == loaded[n];
    }
  }

  /**
   * Builds the records, fills the program store and sorts the records: each
   * line of the store holds its slot's program line or a blank (the fifth
   * program cut to the two lines left in the buffer), and the sorted records
   * carry their slot start and full program length.
   */
  method Setup() returns (code: seq<string>, processes: seq<PR.Pcb>)
    ensures |code| == Store.AllMemorySize
    ensures forall k :: 0 <= k < |code| ==> code[k] == Expected(k)
    ensures |processes| == |SortedPids|
    ensures forall k :: 0 <= k < |processes| ==>
      var n := SortedPids[k] - 1;
      processes[k].pid == Args[n].pid && processes[k].priority == Args[n].priority &&
      processes[k].numOfpro == n && processes[k].state == PR.Blocked &&
      processes[k].codeStartIndex == Store.SlotOffset(n) && processes[k].codeLength == |Loads[n]|
  {
    var built := Created();
    code := Store.Blank();
    var p0, p1, p2, p3, p4;
    code, p0 := Store.LoadInstructions(code, P1, built[0]);
    code, p1 := Store.LoadInstructions(code, P2, built[1]);
    code, p2 := Store.LoadInstructions(code, P3, built[2]);
    code, p3 := Store.LoadInstructions(code, P3, built[3]);
    code, p4 := Store.LoadInstructions(code, P3, built[4]);
    assert code == Filled();
    forall k | 0 <= k < |code| ensures code[k] == Expected(k) {
      FilledAsExpected(k);
    }
    var loaded := [p0, p1, p2, p3, p4];
    OrderedRecords(loaded);
    processes := Sorting.Sort(loaded);
    SortOrder(loaded, processes);
  }
}
