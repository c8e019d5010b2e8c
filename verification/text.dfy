/**
 * The string helpers of cpu.h: `stripComma`, and the whitespace tokenising that
 * `getCurrentReadVariable` does with `iss >> cmd >> var`.
 */
module Text {

  /** The characters `std::isspace` accepts in the "C" locale. */
  predicate IsSpace(ch: char)
  {
    ch == ' ' || ch == '\t' || ch == '\n' || ch == '\U{0B}' || ch == '\U{0C}' || ch == '\r'
  }

  predicate NoSpace(s: string)
  {
    forall k :: 0 <= k < |s| ==> !IsSpace(s[k])
  }

  /** Removes one trailing comma if there is one, and nothing else. */
  function StripComma(s: string): (r: string)
    ensures r <= s
    ensures |s| - 1 <= |r|
    ensures |r| < |s| <==> |s| > 0 && s[|s| - 1] == ','
  {
    if |s| > 0 && s[|s| - 1] == ',' then s[..|s| - 1] else s
  }

  /** Stripping undoes appending a comma. */
  lemma StripCommaUndoesAppend(s: string)
    ensures StripComma(s + ",") == s
  {
    assert (s + ",")[..|s|] == s;
  }

  /** A string that does not end in a comma is left alone. */
  lemma StripCommaKeepsUnterminated(s: string)
    requires s == [] || s[|s| - 1] != ','
    ensures StripComma(s) == s
  {
  }

  /** The first position at or after `i` that does not hold whitespace, or the end of the line. */
  function SpaceEnd(s: string, i: nat): (r: nat)
    requires i <= |s|
    ensures i <= r <= |s|
    ensures forall k :: i <= k < r ==> IsSpace(s[k])
    ensures r == |s| || !IsSpace(s[r])
    decreases |s| - i
  {
    if i < |s| && IsSpace(s[i]) then SpaceEnd(s, i + 1) else i
  }

  /** The first position at or after `i` that holds whitespace, or the end of the line. */
  function WordEnd(s: string, i: nat): (r: nat)
    requires i <= |s|
    ensures i <= r <= |s|
    ensures forall k :: i <= k < r ==> !IsSpace(s[k])
    ensures r == |s| || IsSpace(s[r])
    decreases |s| - i
  {
    if i < |s| && !IsSpace(s[i]) then WordEnd(s, i + 1) else i
  }

  /**
   * One formatted extraction `>>` from a stream at position `pos`: skip the
   * whitespace, take the longest run free of whitespace, and leave the stream
   * just after it. Returns the token and the new position.
   */
  function Extract(s: string, pos: nat): (r: (string, int))
    requires pos <= |s|
    ensures && pos <= r.1 <= |s| && |r.0| <= r.1 - pos
            && r.0 == s[r.1 - |r.0|..r.1] && NoSpace(r.0)
            && (forall k :: pos <= k < r.1 - |r.0| ==> IsSpace(s[k]))
            && (r.1 == |s| || IsSpace(s[r.1]))
            && (r.0 == [] ==> r.1 == |s|)
  {
    var start := SpaceEnd(s, pos);
    var end := WordEnd(s, start);
    (s[start..end], end)
  }

  /**
   * `iss >> cmd >> var`: the second whitespace-separated token, or the empty
   * string when the line has fewer than two tokens.
   */
  function SecondToken(line: string): (r: string)
    ensures NoSpace(r)
  {
    Extract(line, Extract(line, 0).1).0
  }

  /** Skipping from `i` stops at `j` when only whitespace lies between and none at `j`. */
  lemma {:induction false} SpaceEndAt(s: string, i: nat, j: nat)
    requires i <= j <= |s|
    requires forall k :: i <= k < j ==> IsSpace(s[k])
    requires j == |s| || !IsSpace(s[j])
    ensures SpaceEnd(s, i) == j
    decreases j - i
  {
    if i < j {
      SpaceEndAt(s, i + 1, j);
    }
  }

  /** A word from `i` ends at `j` when no whitespace lies between and there is whitespace or the end at `j`. */
  lemma {:induction false} WordEndAt(s: string, i: nat, j: nat)
    requires i <= j <= |s|
    requires forall k :: i <= k < j ==> !IsSpace(s[k])
    requires j == |s| || IsSpace(s[j])
    ensures WordEnd(s, i) == j
    decreases j - i
  {
    if i < j {
      WordEndAt(s, i + 1, j);
    }
  }

  /**
   * Extracting from `pos` yields exactly the characters from `start` to `end`
   * when whitespace fills the gap before `start`, the token holds none, and
   * whitespace or the end of the line follows it.
   */
  lemma ExtractToken(s: string, pos: nat, start: nat, end: nat)
    requires pos <= start < end <= |s|
    requires forall k :: pos <= k < start ==> IsSpace(s[k])
    requires forall k :: start <= k < end ==> !IsSpace(s[k])
    requires end == |s| || IsSpace(s[end])
    ensures Extract(s, pos) == (s[start..end], end)
  {
    SpaceEndAt(s, pos, start);
    WordEndAt(s, start, end);
  }

  /** Where the pieces of "<cmd> <var><rest>" lie, and which of them are whitespace. */
  lemma InstructionLayout(cmd: string, v: string, rest: string)
    requires NoSpace(cmd) && NoSpace(v)
    requires rest == [] || IsSpace(rest[0])
    ensures var line := cmd + " " + v + rest; var a := |cmd| + 1; var b := a + |v|;
      && b <= |line|
      && (forall k :: 0 <= k < |cmd| ==> !IsSpace(line[k]))
      && IsSpace(line[|cmd|])
      && (forall k :: a <= k < b ==> !IsSpace(line[k]))
      && (b == |line| || IsSpace(line[b]))
      && line[a..b] == v
  {
    var line := cmd + " " + v + rest;
    var a := |cmd| + 1;
    var b := a + |v|;
    forall k | 0 <= k < |cmd| ensures !IsSpace(line[k]) {
      assert line[k] == cmd[k];
    }
    assert line[|cmd|] == ' ';
    forall k | a <= k < b ensures !IsSpace(line[k]) {
      assert line[k] == v[k - a];
    }
    assert b == |line| || line[b] == rest[0];
    assert line[a..b] == v;
  }

  /**
   * An instruction written as "<cmd> <var><rest>" yields <var> as its second
   * token, so the read variable of "read x," is "x".
   */
  lemma SecondTokenOfInstruction(cmd: string, v: string, rest: string)
    requires cmd != [] && NoSpace(cmd)
    requires v != [] && NoSpace(v)
    requires rest == [] || IsSpace(rest[0])
    ensures SecondToken(cmd + " " + v + rest) == v
  {
    var line := cmd + " " + v + rest;
    InstructionLayout(cmd, v, rest);
    ExtractToken(line, 0, 0, |cmd|);
    ExtractToken(line, |cmd|, |cmd| + 1, |cmd| + 1 + |v|);
  }

  /** The comma that ends a read instruction is stripped from the variable name. */
  lemma ReadVariableOfInstruction(cmd: string, v: string)
    requires cmd != [] && NoSpace(cmd)
    requires v != [] && NoSpace(v)
    ensures StripComma(SecondToken(cmd + " " + v + ",")) == v
  {
    var v' := v + ",";
    assert NoSpace(v') by {
      forall k | 0 <= k < |v'| ensures !IsSpace(v'[k]) {
        if k < |v| { assert v'[k] == v[k]; }
      }
    }
    assert cmd + " " + v + "," == cmd + " " + v' + [];
    SecondTokenOfInstruction(cmd, v', []);
    StripCommaUndoesAppend(v);
  }
}
