/**
 * The program store: the global `code` buffer of ALL_MEMORY_SIZE instruction
 * lines (allhead.h), its initialisation and the `loadInstructions` lambda of
 * main.cpp that copies a program into the slot of its record.
 */
module ProgramStore {
  import opened Common
  import PR = ProcessRecord

  /** ALL_MEMORY_SIZE: the number of lines in the buffer. */
  const AllMemorySize: nat := 1026

  /** The number of lines reserved for each record: slot k starts at line k * 256. */
  const SlotSize: nat := 256

  /** `code.resize(ALL_MEMORY_SIZE, "")` on the empty global vector. */
  function Blank(): (code: seq<string>)
    ensures |code| == AllMemorySize
    ensures forall k :: 0 <= k < |code| ==> code[k] == ""
  {
    seq(AllMemorySize, _ => "")
  }

  /** `code[k]`: a line inside the buffer, or `None` where indexing the vector is undefined. */
  function Read(code: seq<string>, k: int): (r: Option<string>)
    ensures r.Some? <==> 0 <= k < |code|
    ensures r.Some? ==> r.value == code[k]
  {
    if 0 <= k < |code| then Some(code[k]) else None
  }

  /** The first line of a record's slot. */
  function SlotOffset(numOfpro: int): int
  {
    numOfpro * SlotSize
  }

  /**
   * What the buffer holds after copying `instrs` from line `offset` on: every
   * line of the program that falls inside the buffer is written, nothing else changes.
   */
  function Loaded(code: seq<string>, instrs: seq<string>, offset: nat): (r: seq<string>)
    ensures |r| == |code|
    ensures forall i :: 0 <= i < |instrs| && offset + i < |code| ==> r[offset + i] == instrs[i]
    ensures forall k :: 0 <= k < |code| && !(offset <= k < offset + |instrs|) ==> r[k] == code[k]
  {
    seq(|code|, k requires 0 <= k < |code| =>
      if offset <= k < offset + |instrs| then instrs[k - offset] else code[k])
  }

  /**
   * The `loadInstructions` lambda: copies the program into the record's slot,
   * stopping at the end of the buffer, and records the slot start and the FULL
   * program length on the record, even when the copy was cut short.
   */
  method LoadInstructions(code: seq<string>, instrs: seq<string>, p: PR.Pcb)
    returns (code': seq<string>, p': PR.Pcb)
    requires |code| == AllMemorySize
    requires p.numOfpro >= 0
    ensures code' == Loaded(code, instrs, SlotOffset(p.numOfpro))
    ensures forall i :: 0 <= i < |instrs| && SlotOffset(p.numOfpro) + i < AllMemorySize ==>
      code'[SlotOffset(p.numOfpro) + i] == instrs[i]
    ensures forall k :: 0 <= k < |code| && !(SlotOffset(p.numOfpro) <= k < SlotOffset(p.numOfpro) + |instrs|) ==>
      code'[k] == code[k]
    ensures p' == PR.SetCodeInfo(p, SlotOffset(p.numOfpro), |instrs|)
  {
    var offset: nat := p.numOfpro * SlotSize;
    code' := code;
    var i := 0;
    while i < |instrs| && offset + i < AllMemorySize
      invariant 0 <= i <= |instrs|
      invariant |code'| == |code|
      invariant forall k :: 0 <= k < |code| ==>
        code'[k] == (if offset <= k < offset + i then instrs[k - offset] else code[k])
    {
      code' := code'[offset + i := instrs[i]];
      i := i + 1;
    }
    p' := PR.SetCodeInfo(p, offset, |instrs|);
  }

  /** Two distinct records with programs of at most one slot write disjoint line ranges. */
  lemma SlotsDisjoint(a: nat, b: nat, la: nat, lb: nat, k: int)
    requires a != b && la <= SlotSize && lb <= SlotSize
    ensures !(SlotOffset(a) <= k < SlotOffset(a) + la && SlotOffset(b) <= k < SlotOffset(b) + lb)
  {
    if a < b {
      assert SlotOffset(a) + SlotSize <= SlotOffset(b) by {
        assert (b - a) * SlotSize >= SlotSize;
      }
    } else {
      assert SlotOffset(b) + SlotSize <= SlotOffset(a) by {
        assert (a - b) * SlotSize >= SlotSize;
      }
    }
  }

  /**
   * Loading a second record's program after the first leaves the first
   * program in place, provided both fit a slot and the records are distinct.
   */
  lemma LaterLoadKeepsEarlier(code: seq<string>, i1: seq<string>, i2: seq<string>, a: nat, b: nat)
    requires a != b && |i1| <= SlotSize && |i2| <= SlotSize
    ensures var after := Loaded(Loaded(code, i1, SlotOffset(a)), i2, SlotOffset(b));
      forall i :: 0 <= i < |i1| && SlotOffset(a) + i < |code| ==> after[SlotOffset(a) + i] == i1[i]
  {
    var after := Loaded(Loaded(code, i1, SlotOffset(a)), i2, SlotOffset(b));
    forall i | 0 <= i < |i1| && SlotOffset(a) + i < |code|
      ensures after[SlotOffset(a) + i] == i1[i]
    {
      SlotsDisjoint(a, b, |i1|, |i2|, SlotOffset(a) + i);
    }
  }

  /**
   * The fifth record (creation index 4) starts at line 1024 of 1026, so of a
   * seven-line program only two lines are stored, and the slot end lies beyond
   * the buffer.
   */
  lemma FifthSlotTruncated(instrs: seq<string>)
    requires |instrs| == 7
    ensures SlotOffset(4) == 1024
    ensures SlotOffset(4) + |instrs| > AllMemorySize
    ensures var code := Loaded(Blank(), instrs, SlotOffset(4));
      code[1024] == instrs[0] && code[1025] == instrs[1] && code[..1024] == Blank()[..1024]
  {
  }
}
