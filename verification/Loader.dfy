// VM_PrepareInterpreter in src/vm/vm.c: byte code to word code with translated
// jump targets.

module Loader {
  import opened Words
  import opened Bytecode

  /** The word an operand becomes: branch targets turn into word offsets. */
  function TranslateOne(i: Instr, code: seq<Instr>): seq<int>
    requires IsBranch(i.op) ==> 0 <= i.arg < |code|
  {
    if IsBranch(i.op) then [i.op, Pointer(code, i.arg)] else ExpandOne(i)
  }

  predicate TargetsOk(part: seq<Instr>, count: nat) {
    forall k :: 0 <= k < |part| && IsBranch(part[k].op) ==> 0 <= part[k].arg < count
  }

  /** The loaded form of a part of the code. */
  function Translate(part: seq<Instr>, code: seq<Instr>): seq<int>
    requires TargetsOk(part, |code|)
  {
    if part == [] then []
    else Translate(part[..|part| - 1], code) + TranslateOne(part[|part| - 1], code)
  }

  lemma {:induction false} TranslateLength(part: seq<Instr>, code: seq<Instr>)
    requires TargetsOk(part, |code|)
    ensures |Translate(part, code)| == |Expand(part)|
    decreases |part|
  {
    if part != [] {
      TranslateLength(part[..|part| - 1], code);
    }
  }

  lemma {:induction false} TranslatePrefix(part: seq<Instr>, code: seq<Instr>, k: nat)
    requires TargetsOk(part, |code|) && k <= |part|
    ensures Translate(part[..k], code) <= Translate(part, code)
    decreases |part|
  {
    if k == |part| {
      assert part[..k] == part;
    } else {
      var front := part[..|part| - 1];
      assert part[..k] == front[..k];
      TranslatePrefix(front, code, k);
    }
  }

  /** The loaded words of instruction k stand at its pointer. */
  lemma {:induction false} TranslatedAt(code: seq<Instr>, k: nat)
    requires TargetsOk(code, |code|) && k < |code|
    ensures |Translate(code[..k], code)| == Pointer(code, k)
    ensures Translate(code[..k], code) + TranslateOne(code[k], code) <= Translate(code, code)
  {
    assert code[..k + 1][..k] == code[..k];
    TranslatePrefix(code, code, k + 1);
    TranslateLength(code[..k], code);
  }

  lemma ExpandStep(code: seq<Instr>, bytes: seq<Byte>, k: nat)
    requires AllWellFormed(code) && k < |code| && Encode(code) <= bytes
    ensures
      var pc := |Encode(code[..k])|;
      && pc < |bytes| && pc + FetchLength(bytes[pc]) <= |bytes|
      && Fetch(bytes, pc).0 == code[k]
      && |Encode(code[..k + 1])| == pc + Fetch(bytes, pc).1
    ensures Expand(code[..k + 1]) == Expand(code[..k]) + ExpandOne(code[k])
    ensures Pointer(code, k) + |ExpandOne(code[k])| <= |bytes|
  {
    FetchEncoded(code, bytes, k);
    PointerStep(code, k);
    ExpandedAt(code, k);
    ExpandFits(code);
  }

  lemma {:induction false} TranslateStep(code: seq<Instr>, k: nat)
    requires k < |code| && TargetsOk(code[..k + 1], |code|)
    ensures TargetsOk(code[..k], |code|)
    ensures Translate(code[..k + 1], code) == Translate(code[..k], code) + TranslateOne(code[k], code)
    ensures |Translate(code[..k], code)| == Pointer(code, k)
  {
    assert code[..k + 1][..k] == code[..k];
    TranslateLength(code[..k], code);
  }

  /** The expanded words from instruction k on begin with those of instruction k. */
  lemma {:induction false} ExpandedFrom(code: seq<Instr>, k: nat)
    requires k < |code|
    ensures
      var at, one := Pointer(code, k), ExpandOne(code[k]);
      && Pointer(code, k + 1) == at + |one| <= |Expand(code)|
      && Expand(code)[at] == one[0] && (|one| == 2 ==> Expand(code)[at + 1] == one[1])
  {
    PointerStep(code, k);
    ExpandedAt(code, k);
    var at, one := Pointer(code, k), ExpandOne(code[k]);
    assert Expand(code)[at..at + |one|][0] == one[0];
    if |one| == 2 { assert Expand(code)[at..at + |one|][1] == one[1]; }
  }

  lemma {:induction false} NothingYet(code: seq<Instr>)
    ensures Encode(code[..0]) == [] && Pointer(code, 0) == 0 && Expand(code[..0]) == []
    ensures Translate(code[..0], code) == []
  {
  }

  // ----- what the second loop makes of a branch -----

  /** Beyond: the operand is instructionCount itself, which passes the test and is read behind the pointers. */
  datatype Verdict = Accepted | Rejected | Beyond

  function BranchVerdict(i: Instr, count: nat): Verdict {
    if !IsBranch(i.op) || 0 <= i.arg < count then Accepted
    else if i.arg == count then Beyond
    else Rejected
  }

  /** The first branch that is not accepted decides. */
  function CodeVerdict(part: seq<Instr>, count: nat): Verdict {
    if part == [] then Accepted
    else if CodeVerdict(part[..|part| - 1], count) != Accepted then CodeVerdict(part[..|part| - 1], count)
    else BranchVerdict(part[|part| - 1], count)
  }

  lemma {:induction false} NoVerdict(code: seq<Instr>)
    ensures CodeVerdict(code[..0], |code|) == Accepted
  {
  }

  lemma {:induction false} VerdictStays(code: seq<Instr>, count: nat, k: nat)
    requires k <= |code| && CodeVerdict(code[..k], count) != Accepted
    ensures CodeVerdict(code, count) == CodeVerdict(code[..k], count)
    decreases |code|
  {
    if k == |code| {
      assert code[..k] == code;
    } else {
      assert code[..|code| - 1][..k] == code[..k];
      VerdictStays(code[..|code| - 1], count, k);
    }
  }

  lemma {:induction false} VerdictNext(code: seq<Instr>, count: nat, k: nat)
    requires k < |code| && CodeVerdict(code[..k], count) == Accepted
    ensures CodeVerdict(code[..k + 1], count) == BranchVerdict(code[k], count)
  {
    assert code[..k + 1][..k] == code[..k];
  }

  /** Nothing but branches to instructions is accepted. */
  lemma {:induction false} AcceptedExactly(code: seq<Instr>, count: nat)
    ensures CodeVerdict(code, count) == Accepted <==> TargetsOk(code, count)
    decreases |code|
  {
    if code != [] {
      var front := code[..|code| - 1];
      AcceptedExactly(front, count);
      if TargetsOk(front, count) && BranchVerdict(code[|code| - 1], count) == Accepted {
        forall k | 0 <= k < |code| && IsBranch(code[k].op) ensures 0 <= code[k].arg < count {
          assert k < |front| ==> code[k] == front[k];
        }
      }
    }
  }

  /** A branch that the second loop refuses, and every branch before it names an instruction. */
  ghost predicate FirstBad(code: seq<Instr>, count: nat, k: nat) {
    k < |code| && IsBranch(code[k].op) && !(0 <= code[k].arg <= count) && TargetsOk(code[..k], count)
  }

  /** A program is refused exactly if the first branch that names no instruction is not one to instructionCount. */
  lemma {:induction false} RejectedExactly(code: seq<Instr>, count: nat)
    ensures CodeVerdict(code, count) == Rejected <==> exists k: nat :: FirstBad(code, count, k)
    decreases |code|
  {
    if code != [] {
      var n := |code| - 1;
      var front := code[..n];
      RejectedExactly(front, count);
      AcceptedExactly(front, count);
      forall k: nat | k < n ensures FirstBad(code, count, k) == FirstBad(front, count, k) {
        assert front[..k] == code[..k];
      }
      if exists k: nat :: FirstBad(front, count, k) {
        var k: nat :| FirstBad(front, count, k);
        assert FirstBad(code, count, k);
      }
      assert FirstBad(code, count, n) <==>
        IsBranch(code[n].op) && !(0 <= code[n].arg <= count) && TargetsOk(front, count);
    }
  }

  /** vm_t, as far as loading code goes. */
  class Vm {
    var codeBase: array<int>
    var instructionPointers: array<int>
    var instructionCount: nat
    var jumpError: bool

    constructor (codeLength: nat, instructionCount: nat)
      ensures fresh(codeBase) && fresh(instructionPointers) && codeBase != instructionPointers
      ensures codeBase.Length == codeLength && instructionPointers.Length == instructionCount
      ensures this.instructionCount == instructionCount && !jumpError
    {
      codeBase := new int[codeLength];
      instructionPointers := new int[instructionCount];
      this.instructionCount := instructionCount;
      jumpError := false;
    }

    /** One turn of the first loop: copies the instruction at bytePc0 to word offset intPc0. */
    method ExpandInstr(bytes: seq<Byte>, bytePc0: nat, intPc0: nat) returns (bytePc: nat, intPc: nat)
      requires bytePc0 < |bytes| && bytePc0 + FetchLength(bytes[bytePc0]) <= |bytes|
      requires intPc0 + |ExpandOne(Fetch(bytes, bytePc0).0)| <= codeBase.Length
      modifies codeBase
      ensures bytePc == bytePc0 + Fetch(bytes, bytePc0).1
      ensures intPc == intPc0 + |ExpandOne(Fetch(bytes, bytePc0).0)|
      ensures codeBase[..intPc] == old(codeBase[..intPc0]) + ExpandOne(Fetch(bytes, bytePc0).0)
    {
      var op := bytes[bytePc0];
      codeBase[intPc0] := op;
      bytePc, intPc := bytePc0 + 1, intPc0 + 1;
      if HasWord(op) {
        codeBase[intPc] := Word4(bytes[bytePc..bytePc + 4]);
        bytePc := bytePc + 4;
        intPc := intPc + 1;
      } else if op == OP_ARG {
        codeBase[intPc] := bytes[bytePc];
        bytePc := bytePc + 1;
        intPc := intPc + 1;
      }
    }

    /** The first loop: expands the code to words and records where each instruction starts. */
    method ExpandCode(bytes: seq<Byte>, ghost code: seq<Instr>)
      requires AllWellFormed(code) && Encode(code) <= bytes
      requires codeBase.Length == |bytes| && instructionPointers.Length == instructionCount == |code|
      requires codeBase != instructionPointers
      modifies codeBase, instructionPointers
      ensures |Expand(code)| <= codeBase.Length && codeBase[..|Expand(code)|] == Expand(code)
      ensures forall k :: 0 <= k < |code| ==> instructionPointers[k] == Pointer(code, k)
    {
      hide Fetch, FetchLength, Encode, Expand, ExpandOne;
      NothingYet(code);
      ExpandFits(code);
      var bytePc, intPc, instruction := 0, 0, 0;
      while instruction < instructionCount
        invariant 0 <= instruction <= instructionCount
        invariant bytePc == |Encode(code[..instruction])|
        invariant intPc == Pointer(code, instruction) <= codeBase.Length
        invariant codeBase[..intPc] == Expand(code[..instruction])
        invariant forall k :: 0 <= k < instruction ==> instructionPointers[k] == Pointer(code, k)
      {
        ExpandStep(code, bytes, instruction);
        instructionPointers[instruction] := intPc;
        bytePc, intPc := ExpandInstr(bytes, bytePc, intPc);
        instruction := instruction + 1;
      }
      assert code[..instruction] == code;
    }

    /** One turn of the second loop. */
    method TranslateInstr(intPc0: nat, ghost i: Instr, ghost code: seq<Instr>) returns (intPc: nat, verdict: Verdict)
      requires intPc0 + |ExpandOne(i)| <= codeBase.Length && codeBase != instructionPointers
      requires codeBase[intPc0..intPc0 + |ExpandOne(i)|] == ExpandOne(i)
      requires instructionPointers.Length == instructionCount == |code|
      requires forall k :: 0 <= k < |code| ==> instructionPointers[k] == Pointer(code, k)
      modifies codeBase
      ensures verdict == BranchVerdict(i, |code|)
      ensures verdict.Accepted? ==> intPc == intPc0 + |ExpandOne(i)|
      ensures verdict.Accepted? ==> codeBase[..intPc] == old(codeBase[..intPc0]) + TranslateOne(i, code)
      ensures verdict.Accepted? ==> forall j :: intPc <= j < codeBase.Length ==> codeBase[j] == old(codeBase[j])
    {
      assert codeBase[intPc0] == ExpandOne(i)[0];
      var op := codeBase[intPc0];
      intPc, verdict := intPc0 + 1, Accepted;
      if IsBranch(op) {
        assert codeBase[intPc] == ExpandOne(i)[1];
        if codeBase[intPc] < 0 || codeBase[intPc] > instructionCount {
          return intPc, Rejected;
        }
        if codeBase[intPc] == instructionPointers.Length {
          return intPc, Beyond;
        }
        codeBase[intPc] := instructionPointers[codeBase[intPc]];
        intPc := intPc + 1;
      } else if HasWord(op) || op == OP_ARG {
        assert codeBase[intPc] == ExpandOne(i)[1];
        intPc := intPc + 1;
      }
    }

    /** The second loop: translates the jump targets up to the first that is no instruction. */
    method TranslateJumps(ghost code: seq<Instr>) returns (verdict: Verdict)
      requires codeBase != instructionPointers && instructionPointers.Length == instructionCount == |code|
      requires |Expand(code)| <= codeBase.Length && codeBase[..|Expand(code)|] == Expand(code)
      requires forall k :: 0 <= k < |code| ==> instructionPointers[k] == Pointer(code, k)
      modifies codeBase
      ensures verdict == CodeVerdict(code, |code|)
      ensures verdict.Accepted? ==> TargetsOk(code, |code|) && codeBase[..|Expand(code)|] == Translate(code, code)
    {
      hide Translate, Expand, TranslateOne, BranchVerdict, CodeVerdict;
      NothingYet(code);
      NoVerdict(code);
      ghost var n := |Expand(code)|;
      var intPc, instruction := 0, 0;
      while instruction < instructionCount
        invariant 0 <= instruction <= instructionCount
        invariant intPc == Pointer(code, instruction) <= n
        invariant CodeVerdict(code[..instruction], |code|) == Accepted && TargetsOk(code[..instruction], |code|)
        invariant codeBase[..intPc] == Translate(code[..instruction], code)
        invariant forall j :: intPc <= j < n ==> codeBase[j] == Expand(code)[j]
      {
        ghost var i := code[instruction];
        ExpandedFrom(code, instruction);
        assert codeBase[intPc..intPc + |ExpandOne(i)|] == ExpandOne(i);
        VerdictNext(code, |code|, instruction);
        intPc, verdict := TranslateInstr(intPc, i, code);
        if !verdict.Accepted? {
          VerdictStays(code, |code|, instruction + 1);
          return;
        }
        AcceptedExactly(code[..instruction + 1], |code|);
        TranslateStep(code, instruction);
        instruction := instruction + 1;
      }
      verdict := Accepted;
      assert code[..instruction] == code;
    }

    /**
     * VM_PrepareInterpreter on the bytes of a well-formed program: it accepts exactly the
     * programs in which every branch names an instruction, and then the loaded words are the
     * translated ones.
     */
    method PrepareInterpreter(bytes: seq<Byte>, ghost code: seq<Instr>) returns (verdict: Verdict)
      requires AllWellFormed(code) && Encode(code) <= bytes
      requires codeBase != instructionPointers && codeBase.Length == |bytes|
      requires instructionPointers.Length == instructionCount == |code|
      modifies this`jumpError, codeBase, instructionPointers
      ensures verdict == CodeVerdict(code, |code|) && (verdict.Accepted? <==> TargetsOk(code, |code|))
      ensures jumpError == (old(jumpError) || verdict.Rejected?)
      ensures |Expand(code)| <= codeBase.Length
      ensures verdict.Accepted? ==> codeBase[..|Expand(code)|] == Translate(code, code)
      ensures forall k :: 0 <= k < |code| ==> instructionPointers[k] == Pointer(code, k)
    {
      ExpandCode(bytes, code);
      verdict := TranslateJumps(code);
      AcceptedExactly(code, |code|);
      if verdict.Rejected? {
        jumpError := true;
      }
    }
  }
}
