// The lines that lcc prints for jumps and calls by name, assembled: q3asm
// (q3asm/q3asm.c) makes static jumps and calls of them.

module StaticLines {
  import opened Words
  import opened Bytecode
  import opened Assembly
  import opened AssemblyLines
  import opened Passes
  import opened AssembledCode
  import opened Symbols
  import opened Addresses
  import opened Procedures
  import L = Lockstep
  import F = Frames
  import S = Statics
  import M = Machine

  // ----- lines -----

  /** Line j is the last before line k that appends an instruction. */
  ghost predicate LastCoding(source: seq<Input>, j: nat, k: nat) {
    j < k <= |source| && Codes(source[j].line) && forall i :: j < i < k ==> !Codes(source[i].line)
  }

  predicate PushesConst(line: Line) {
    line.Op? && line.opcode == OP_CONST
  }

  predicate Jumps(line: Line) {
    line.Op? && line.opcode == OP_JUMP
  }

  predicate Calls(line: Line) {
    line.Call? || (line.Op? && line.opcode == OP_CALL)
  }

  /** Line j pushes the number of the procedure that line q begins. */
  ghost predicate NamesProcedure(source: seq<Input>, j: nat, q: nat)
    requires SourceOk(source) && Opening(source) && j < |source| && q < |source|
  {
    && source[j].line.Op? && source[j].line.operand.Some?
    && source[j].line.operand.value.base.Name? && source[j].line.operand.value.offset == 0
    && source[q].line.Proc? && Before(source, Origin(source), q).current == CODESEG
    && Settled(source, Origin(source), q + 1)
    && Expanded(source[j].line.operand.value.base.name, source[j].file) == Expanded(source[q].line.name, source[q].file)
  }

  /** Line j pushes a negative number, as for a system call. */
  ghost predicate NamesTrap(source: seq<Input>, s0: State, j: nat)
    requires SourceOk(source) && StateOk(s0) && j < |source|
  {
    && source[j].line.Op? && source[j].line.operand.Some?
    && Wrap(Evaluate(Pass1At(source, s0, j, source[j].file), source[j].line.operand.value).1) < 0
  }

  /** A jump or call at line i right behind a constant at line j is to a label of the procedure, or of a function. */
  ghost predicate NamedWell(source: seq<Input>, s0: State, p: nat, e: nat, j: nat, i: nat)
    requires SourceOk(source) && Opening(source) && StateOk(s0) && p < e < |source| && j < i < |source|
  {
    && (Jumps(source[i].line) ==> exists k :: p < k < e && Targets(source, j, k))
    && (Calls(source[i].line) ==>
          NamesTrap(source, s0, j) || exists q: nat, u: nat :: Procedure(source, q, u) && NamesProcedure(source, j, q))
  }

  /** No label of the procedure stands right behind a constant: code leaves nothing on the stack there. */
  ghost predicate LabelsClear(source: seq<Input>, p: nat, e: nat)
    requires e < |source|
  {
    forall j: nat, k: nat :: p < k < e && source[k].line.Label? && LastCoding(source, j, k) ==>
        !PushesConst(source[j].line)
  }

  ghost predicate ProcedureStatic(source: seq<Input>, s0: State, p: nat, e: nat)
    requires SourceOk(source) && Opening(source) && StateOk(s0) && p < e < |source|
  {
    && LabelsClear(source, p, e)
    && forall j: nat, i: nat :: p < i < e && LastCoding(source, j, i) && PushesConst(source[j].line) ==>
         NamedWell(source, s0, p, e, j, i)
  }

  /** A source as lcc prints it: jumps and calls by name go where they name. */
  ghost predicate Named(source: seq<Input>, s0: State) {
    Compiled(source, s0) && forall p: nat, e: nat :: Procedure(source, p, e) ==> ProcedureStatic(source, s0, p, e)
  }

  // ----- instructions and their lines -----

  /** The last instruction before line k is the last of the last line that codes. */
  lemma {:induction false} LastLine(source: seq<Input>, s0: State, k: nat) returns (j: nat)
    requires Built(source, s0) && 1 <= k <= |source| && |ProgramBefore(source, s0, k)| > 0
    ensures 1 <= j && LastCoding(source, j, k)
    ensures ProgramBefore(source, s0, k)
         == ProgramBefore(source, s0, j) + Instrs(Pass1At(source, s0, j, source[j].file), source[j].line)
    decreases k
  {
    hide Assembles, ShapedSource, Assembled, Program, StepLine, Instrs, Codes;
    if k == 1 {
      FirstLine(source, s0);
    } else {
      LineStep(source, s0, k - 1);
      if Codes(source[k - 1].line) {
        j := k - 1;
      } else {
        ShapedLine(source, s0, k - 1);
        NoInstrs(Pass1At(source, s0, k - 1, source[k - 1].file), source[k - 1].line);
        j := LastLine(source, s0, k - 1);
      }
    }
  }

  lemma ShapedLine(source: seq<Input>, s0: State, i: nat)
    requires Built(source, s0) && i < |source|
    ensures Shaped(source[i].line)
  {
    hide Assembles, Laid;
  }

  /** The line that appended instruction i. */
  lemma {:induction false} LineOf(source: seq<Input>, s0: State, p: nat, k: nat, i: nat) returns (l: nat)
    requires Built(source, s0) && 1 <= p < k <= |source|
    requires |ProgramBefore(source, s0, p)| <= i < |ProgramBefore(source, s0, k)|
    ensures p <= l < k && |ProgramBefore(source, s0, l)| <= i < |ProgramBefore(source, s0, l + 1)|
    decreases k
  {
    hide Assembles, ShapedSource, Assembled, Program;
    if i >= |ProgramBefore(source, s0, k - 1)| {
      l := k - 1;
    } else {
      l := LineOf(source, s0, p, k - 1, i);
    }
  }

  /** The last instruction of a line is a constant only if the line is. */
  lemma LastConst(s: State, line: Line)
    requires StateOk(s) && Shaped(line) && Instrs(s, line) != []
    requires Instrs(s, line)[|Instrs(s, line)| - 1].op == OP_CONST
    ensures PushesConst(line)
  {
  }

  /** An inner line that codes makes one instruction. */
  lemma InnerOne(s: State, line: Line)
    requires StateOk(s) && Shaped(line) && InnerLine(line) && Codes(line)
    ensures |Instrs(s, line)| == 1
    ensures Instrs(s, line)[0].op == OP_JUMP ==> Jumps(line)
    ensures Instrs(s, line)[0].op == OP_CALL ==> Calls(line)
    ensures IsBranch(Instrs(s, line)[0].op) ==> Branches(line)
  {
    hide Evaluate;
  }

  // ----- operands -----

  /** A constant that names a label of the procedure is the instruction behind the label. */
  lemma LabelOperand(source: seq<Input>, s0: State, j: nat, k: nat)
    requires Built(source, s0) && 1 <= j < |source| && 1 <= k < |source| && PushesConst(source[j].line)
        && Targets(source, j, k)
    ensures Instrs(Pass1At(source, s0, j, source[j].file), source[j].line)
        == [Instr(OP_CONST, |ProgramBefore(source, s0, k)|)]
  {
    hide Assembled, Program, Settled;
    CodeLabelIndex(source, s0, k, j, source[j].file, source[j].line.operand.value.base.name);
    CountFits(source, s0, k);
  }

  lemma ProcedureOperand(source: seq<Input>, s0: State, j: nat, q: nat)
    requires Built(source, s0) && 1 <= j < |source| && 1 <= q < |source|
    requires PushesConst(source[j].line) && NamesProcedure(source, j, q)
    ensures Instrs(Pass1At(source, s0, j, source[j].file), source[j].line)
        == [Instr(OP_CONST, |ProgramBefore(source, s0, q)|)]
  {
    hide Assembled, Program, Settled;
    CodeLabelIndex(source, s0, q, j, source[j].file, source[j].line.operand.value.base.name);
    CountFits(source, s0, q);
  }

  lemma TrapOperand(source: seq<Input>, s0: State, j: nat)
    requires Built(source, s0) && 1 <= j < |source| && PushesConst(source[j].line) && NamesTrap(source, s0, j)
    ensures
      var part := Instrs(Pass1At(source, s0, j, source[j].file), source[j].line);
      |part| == 1 && part[0].arg < 0
  {
    hide Assembled, Evaluate;
    ShapedLine(source, s0, j);
  }

  // ----- the instructions of a function -----

  /** The program holds what the first lines append. */
  lemma PrefixOfProgram(source: seq<Input>, s0: State, k: nat)
    requires Built(source, s0) && 1 <= k <= |source|
    ensures ProgramBefore(source, s0, k) <= Linked(source, s0).code
  {
    hide Assembles, ShapedSource, Assembled, Program;
    ProgramGrows(source, s0, k, |source|);
    assert source[..|source|] == source;
  }

  /** What stands before line k in the program is a constant only if the last coding line before it pushes one. */
  lemma {:induction false} ConstBefore(source: seq<Input>, s0: State, k: nat) returns (j: nat)
    requires Built(source, s0) && 1 <= k <= |source| && |ProgramBefore(source, s0, k)| > 0
    ensures 1 <= j && LastCoding(source, j, k) && |ProgramBefore(source, s0, k)| <= |Linked(source, s0).code|
    ensures Instrs(Pass1At(source, s0, j, source[j].file), source[j].line) != []
    ensures
      var part := Instrs(Pass1At(source, s0, j, source[j].file), source[j].line);
      Linked(source, s0).code[|ProgramBefore(source, s0, k)| - 1] == part[|part| - 1]
    ensures Linked(source, s0).code[|ProgramBefore(source, s0, k)| - 1].op == OP_CONST ==> PushesConst(source[j].line)
  {
    hide Assembles, ShapedSource, Assembled, Program, Instrs, Linked;
    PrefixOfProgram(source, s0, k);
    j := LastLine(source, s0, k);
    ShapedLine(source, s0, j);
    var t := Pass1At(source, s0, j, source[j].file);
    CodesSome(t, source[j].line);
    if Instrs(t, source[j].line)[|Instrs(t, source[j].line)| - 1].op == OP_CONST { LastConst(t, source[j].line); }
  }

  lemma CodesSome(s: State, line: Line)
    requires StateOk(s) && Shaped(line) && Codes(line)
    ensures Instrs(s, line) != []
  {
  }

  /** A label is not in the middle of a static jump or call. */
  lemma {:induction false} LabelNotStatic(source: seq<Input>, s0: State, p: nat, e: nat, k: nat)
    requires Built(source, s0) && Procedure(source, p, e) && LabelsClear(source, p, e) && p < k < e
        && source[k].line.Label?
    ensures !S.StaticAt(Linked(source, s0), |ProgramBefore(source, s0, k)|)
  {
    hide Assembles, ShapedSource, Assembled, Program, Instrs, Linked, BranchesInside;
    if |ProgramBefore(source, s0, k)| > 0 {
      var j := ConstBefore(source, s0, k);
    }
  }

  /** The instruction at the place of an inner line that codes. */
  lemma {:induction false} InstrOf(source: seq<Input>, s0: State, p: nat, e: nat, l: nat, i: nat)
    requires Built(source, s0) && Procedure(source, p, e) && p < l < e
    requires |ProgramBefore(source, s0, l)| <= i < |ProgramBefore(source, s0, l + 1)|
    ensures i == |ProgramBefore(source, s0, l)| && i < |Linked(source, s0).code| && Codes(source[l].line)
    ensures Instrs(Pass1At(source, s0, l, source[l].file), source[l].line) == [Linked(source, s0).code[i]]
  {
    hide Assembles, ShapedSource, Assembled, Program, Instrs, Linked, BranchesInside, Codes, StepLine;
    LineStep(source, s0, l);
    PrefixOfProgram(source, s0, l + 1);
    ShapedLine(source, s0, l);
    var t := Pass1At(source, s0, l, source[l].file);
    assert InnerLine(source[l].line);
    if Codes(source[l].line) { InnerOne(t, source[l].line); } else { NoInstrs(t, source[l].line); }
  }

  /** A static jump of the procedure. */
  lemma {:induction false} JumpStatic(source: seq<Input>, s0: State, p: nat, e: nat, j: nat, l: nat, k: nat)
    requires Built(source, s0) && Procedure(source, p, e) && LabelsClear(source, p, e) && p < l < e
    requires 1 <= j && j < l && PushesConst(source[j].line) && p < k < e && Targets(source, j, k)
    ensures
      var f := FnOf(source, s0, p, e);
      var part := Instrs(Pass1At(source, s0, j, source[j].file), source[j].line);
      |part| == 1 && f.start < part[0].arg < f.end && !S.StaticAt(Linked(source, s0), part[0].arg)
  {
    hide Assembles, ShapedSource, Assembled, Program, Instrs, Linked, BranchesInside, LabelsClear;
    LabelOperand(source, s0, j, k);
    LabelInside(source, s0, p, e, k);
    LabelNotStatic(source, s0, p, e, k);
  }

  /** A static call. */
  lemma {:induction false} CallStatic(source: seq<Input>, s0: State, p: nat, e: nat, j: nat, l: nat)
    requires Built(source, s0) && Procedure(source, p, e) && p < l < e
    requires 1 <= j && j < l && PushesConst(source[j].line) && Calls(source[l].line)
        && NamedWell(source, s0, p, e, j, l)
    ensures
      var part := Instrs(Pass1At(source, s0, j, source[j].file), source[j].line);
      |part| == 1 && (part[0].arg >= 0 ==> F.FnAt(Functions(source, s0), part[0].arg).Some?)
  {
    hide Assembles, ShapedSource, Assembled, Program, Instrs, BranchesInside, NamesTrap;
    if NamesTrap(source, s0, j) {
      TrapOperand(source, s0, j);
    } else {
      var q: nat, u: nat :| Procedure(source, q, u) && NamesProcedure(source, j, q);
      ProcedureOperand(source, s0, j, q);
      assert FnOf(source, s0, q, u) in Functions(source, s0);
    }
  }

  /** Every instruction of a function that jumps, calls or branches. */
  lemma {:induction false} InstrStatic(source: seq<Input>, s0: State, p: nat, e: nat, i: nat)
    requires Built(source, s0) && Procedure(source, p, e) && ProcedureStatic(source, s0, p, e)
    requires FnOf(source, s0, p, e).start < i < FnOf(source, s0, p, e).end && i < |Linked(source, s0).code|
    ensures S.StaticOk(Linked(source, s0), Functions(source, s0), FnOf(source, s0, p, e), i)
  {
    hide Assembles, ShapedSource, Assembled, Program, Instrs, Linked, BranchesInside, LabelsClear, Functions, NamedWell,
         S.StaticAt, Codes, InnerLine;
    var code := Linked(source, s0).code;
    Ends(source, s0, p, e);
    var l := LineOf(source, s0, p + 1, e + 1, i);
    if l == e {
      EndStatic(source, s0, p, e, i);
    } else {
      InstrOf(source, s0, p, e, l, i);
      InnerStatic(source, s0, p, e, l);
    }
  }

  lemma {:induction false} EndStatic(source: seq<Input>, s0: State, p: nat, e: nat, i: nat)
    requires Built(source, s0) && Procedure(source, p, e)
    requires |ProgramBefore(source, s0, e)| <= i < |ProgramBefore(source, s0, e + 1)|
        && 0 < i < |Linked(source, s0).code|
    ensures S.StaticOk(Linked(source, s0), Functions(source, s0), FnOf(source, s0, p, e), i)
  {
    hide Assembles, ShapedSource, Assembled, Program, Instrs, Linked, BranchesInside, Functions;
    Ends(source, s0, p, e);
    PrefixOfProgram(source, s0, e + 1);
  }

  /** The instruction of an inner line. */
  lemma {:induction false} InnerStatic(source: seq<Input>, s0: State, p: nat, e: nat, l: nat)
    requires Built(source, s0) && Procedure(source, p, e) && ProcedureStatic(source, s0, p, e) && p < l < e
    requires Codes(source[l].line) && 0 < |ProgramBefore(source, s0, l)| < |Linked(source, s0).code|
    requires Instrs(Pass1At(source, s0, l, source[l].file), source[l].line)
          == [Linked(source, s0).code[|ProgramBefore(source, s0, l)|]]
    ensures S.StaticOk(Linked(source, s0), Functions(source, s0), FnOf(source, s0, p, e),
                       |ProgramBefore(source, s0, l)|)
  {
    hide Assembles, ShapedSource, Assembled, Program, Instrs, Linked, LabelsClear, Functions, NamedWell, Codes, Targets;
    var i := |ProgramBefore(source, s0, l)|;
    var one := Linked(source, s0).code[i];
    ShapedLine(source, s0, l);
    assert InnerLine(source[l].line) && BranchesInside(source, p, e, l);
    InnerOne(Pass1At(source, s0, l, source[l].file), source[l].line);
    if IsBranch(one.op) {
      BranchStatic(source, s0, p, e, l);
    } else if S.StaticAt(Linked(source, s0), i) {
      var j := ConstBefore(source, s0, l);
      if one.op == OP_JUMP {
        var k := JumpTarget(source, s0, p, e, j, l);
        JumpStatic(source, s0, p, e, j, l, k);
      } else {
        CallStatic(source, s0, p, e, j, l);
      }
    }
  }

  lemma JumpTarget(source: seq<Input>, s0: State, p: nat, e: nat, j: nat, l: nat) returns (k: nat)
    requires SourceOk(source) && Opening(source) && StateOk(s0) && p < e < |source| && j < l < |source|
    requires NamedWell(source, s0, p, e, j, l) && Jumps(source[l].line)
    ensures p < k < e && Targets(source, j, k)
  {
    hide Targets, NamesTrap, NamesProcedure, Procedure;
    k :| p < k < e && Targets(source, j, k);
  }

  lemma {:induction false} BranchStatic(source: seq<Input>, s0: State, p: nat, e: nat, l: nat)
    requires Built(source, s0) && Procedure(source, p, e) && LabelsClear(source, p, e) && p < l < e
    requires Branches(source[l].line)
    ensures
      var part := Instrs(Pass1At(source, s0, l, source[l].file), source[l].line);
      |part| == 1 && !S.StaticAt(Linked(source, s0), part[0].arg)
  {
    hide Assembles, ShapedSource, Assembled, Program, Instrs, Linked, LabelsClear;
    assert BranchesInside(source, p, e, l);
    var k :| p < k < e && Targets(source, l, k);
    BranchOperand(source, s0, l, k);
    LabelNotStatic(source, s0, p, e, k);
  }

  /** All jumps and calls by name go where they should. */
  lemma {:induction false} NamedStatics(source: seq<Input>, s0: State)
    requires Named(source, s0)
    ensures S.StaticsOk(Linked(source, s0), Functions(source, s0))
  {
    hide Assembles, ShapedSource, Linked, InProcedure, Procedure, S.StaticOk, FnOf;
    forall f, i | f in Functions(source, s0) && f.start < i < f.end && i < |Linked(source, s0).code|
      ensures S.StaticOk(Linked(source, s0), Functions(source, s0), f, i)
    {
      var p: nat, e: nat :| p < |source| && e < |source| && Procedure(source, p, e) && f == FnOf(source, s0, p, e);
      InstrStatic(source, s0, p, e, i);
    }
  }

  // ----- runs -----

  /**
   * Every run of an assembled source keeps the frame protocol, if it does not store over saved
   * words, computes no jump or call that leads astray, and the host keeps the return word.
   */
  lemma {:induction false} TameRunKeeps(host: M.Host, source: seq<Input>, s0: State, stack: seq<F.Activation>,
                                        o: L.Outcome,
                                        n: nat)
    requires Named(source, s0) && o.Running? && L.ProgramOk(Linked(source, s0))
    requires S.TameRun(host, Linked(source, s0), Functions(source, s0), stack, o, n)
    requires F.Inv(Linked(source, s0), Functions(source, s0), stack, o.pc, o.core)
    requires S.Ready(Linked(source, s0), stack, o.pc, o.core)
    ensures F.PoliteRun(host, Linked(source, s0), Functions(source, s0), stack, o, n)
    ensures
      var (p, table) := (Linked(source, s0), Functions(source, s0));
      match L.Run(L.InstrSteps(host, p), o, n)
      case Running(i, c) => F.Inv(p, table, F.StackAfter(host, p, table, stack, o, n), i, c)
      case Halted(c) => c.ps == stack[0].base
      case _ => true
  {
    hide *;
    NamedCompiled(source, s0);
    NamedStatics(source, s0);
    FunctionsOk(source, s0);
    S.TameIsPolite(host, Linked(source, s0), Functions(source, s0), stack, o, n);
    AssembledRunKeeps(host, source, s0, stack, o, n);
  }

  /** And a call comes back to the instruction after it, with its programStack. */
  lemma {:induction false} TameCallReturns(host: M.Host, source: seq<Input>, s0: State, s: seq<F.Activation>,
                                           a: F.Activation,
                                           stack: seq<F.Activation>, o: L.Outcome, n: nat)
    requires Named(source, s0) && o.Running? && L.ProgramOk(Linked(source, s0))
    requires S.TameRun(host, Linked(source, s0), Functions(source, s0), stack, o, n)
    requires F.Inv(Linked(source, s0), Functions(source, s0), stack, o.pc, o.core) && s + [a] <= stack
    requires S.Ready(Linked(source, s0), stack, o.pc, o.core)
    requires F.Deeper(host, Linked(source, s0), Functions(source, s0), stack, o, n, |s|)
    requires |F.StackAfter(host, Linked(source, s0), Functions(source, s0), stack, o, n)| == |s|
    requires L.Run(L.InstrSteps(host, Linked(source, s0)), o, n).Running?
    ensures F.StackAfter(host, Linked(source, s0), Functions(source, s0), stack, o, n) == s
    ensures
      var e := L.Run(L.InstrSteps(host, Linked(source, s0)), o, n);
      e.pc == a.ret && e.core.ps == a.base
  {
    hide *;
    NamedCompiled(source, s0);
    TameRunKeeps(host, source, s0, stack, o, n);
    AssembledCallReturns(host, source, s0, s, a, stack, o, n);
  }

  lemma NamedCompiled(source: seq<Input>, s0: State)
    requires Named(source, s0)
    ensures Compiled(source, s0) && Built(source, s0)
  {
    hide Assembles, ShapedSource, InProcedure, ProcedureStatic;
  }
}
