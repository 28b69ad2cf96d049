// What a call leaves behind: the value of the tree that the callee returns is on the operand
// stack of its caller (lcc/src/bytecode.c, q3asm/q3asm.c, src/vm/vm.c), or pop drops it.

module Results {
  import opened Words
  import opened Bytecode
  import opened Assembly
  import opened Passes
  import opened Addresses
  import opened Procedures
  import opened AssembledCode
  import opened Machine
  import opened Toolchain
  import L = Lockstep
  import F = Frames
  import T = Trees
  import D = Dumptree
  import E = EndToEnd
  import B = Branches

  /** The word at the caller's programStack, frame bytes up, is where instruction j starts. */
  ghost predicate ReturnsTo(p: L.Program, c: Core, frame: nat, j: nat)
    requires L.ProgramOk(p)
  {
    && CoreOk(c) && j < |p.code| && Fits(c.ps + frame) && InImage(c, c.ps + frame)
    && Wrap(Load(c.image, c.ps + frame, 4)) == Pointer(p.code, j)
  }

  /** c' is the caller's core: its programStack, and w on top of what c has on the operand stack. */
  ghost predicate Returned(c: Core, c': Core, frame: nat, w: Word) {
    Fits(c.ps + frame) && c'.ps == c.ps + frame && D.Pushed(c, c'.(ps := c.ps), w)
  }

  lemma {:induction false} PointerInside(p: L.Program, j: nat)
    requires L.ProgramOk(p) && j < |p.code|
    ensures Pointer(p.code, j) < p.codeLength && L.InstrAt(p.code, Pointer(p.code, j), |p.code|) == Some(j)
  {
    PointersIncrease(p.code, j, |p.code|);
    assert p.code[..|p.code|] == p.code;
    F.InstrAtOf(p.code, j, |p.code|);
  }

  /** OP_LEAVE goes back to the caller with the word that has been pushed. */
  lemma LeaveReturns(host: Host, p: L.Program, i: nat, frame: nat, c: Core, c1: Core, w: Word, j: nat)
    requires L.ProgramOk(p) && i < |p.code| && p.code[i] == Instr(OP_LEAVE, frame)
    requires ReturnsTo(p, c, frame, j) && D.Pushed(c, c1, w)
    ensures L.InstrStep(host, p, i, c1) == L.Running(j, c1.(ps := c.ps + frame))
    ensures Returned(c, c1.(ps := c.ps + frame), frame, w)
  {
    hide Load, Pointer;
    PointerInside(p, j);
    WrapOfU(c.ps + frame);
  }

  /** The code of a tree and OP_LEAVE, in a program. */
  lemma {:induction false} ResultLeft(host: Host, p: L.Program, i: nat, v: T.Tree, frame: Word, c: Core, j: nat)
    returns (c': Core)
    requires L.ProgramOk(p) && T.WellTyped(v) && T.TypeOf(v).size == 4 && 0 <= frame
    requires E.HoldsAt(p, T.Code(v) + [Instr(OP_LEAVE, frame)], i) && ReturnsTo(p, c, frame, j)
    requires D.CleanAt(v, c) && T.Eval(v, c).Some? && c.top + T.Need(v) < OPSTACK
    ensures L.Run(L.InstrSteps(host, p), L.Running(i, c), |T.Code(v)| + 1) == L.Running(j, c')
    ensures Returned(c, c', frame, Wrap(T.Eval(v, c).value))
  {
    hide Effect, L.InstrStep, T.Eval, D.CleanAt, T.Code, T.WellTyped, T.RunCode, D.Pushed, D.StandsFor, Returned;
    D.CodeFits(v);
    D.CodeCorrect(host, v, c);
    var c1 := T.RunCode(host, T.Code(v), c).value;
    B.InCode(p, T.Code(v), Instr(OP_LEAVE, frame), i);
    E.CodeInProgram(host, p, T.Code(v), i, c);
    B.ExactWords(v, c1.stack[c1.top], T.Eval(v, c).value);
    LeaveReturns(host, p, i + |T.Code(v)|, frame, c, c1, c1.stack[c1.top], j);
    c' := c1.(ps := c.ps + frame);
    B.OneMore(L.InstrSteps(host, p), L.Running(i, c), |T.Code(v)|, L.Running(i + |T.Code(v)|, c1));
  }

  /** OP_PUSH and OP_LEAVE, as a procedure ends: the caller finds some word pushed. */
  lemma {:induction false} EndLeaves(host: Host, p: L.Program, i: nat, frame: nat, c: Core, j: nat) returns (c': Core,
                                     w: Word)
    requires L.ProgramOk(p) && i + 1 < |p.code| && p.code[i].op == OP_PUSH && p.code[i + 1] == Instr(OP_LEAVE, frame)
    requires ReturnsTo(p, c, frame, j) && c.top + 1 < OPSTACK
    ensures L.Run(L.InstrSteps(host, p), L.Running(i, c), 2) == L.Running(j, c') && Returned(c, c', frame, w)
  {
    hide Load, L.InstrStep;
    var c1 := Moved(c, 1);
    w := c1.stack[c1.top];
    PushGoesOn(host, p, i, c);
    LeaveReturns(host, p, i + 1, frame, c, c1, w, j);
    c' := c1.(ps := c.ps + frame);
    assert L.Run(L.InstrSteps(host, p), L.Running(i, c), 1) == L.Running(i + 1, c1) by {
      B.OneMore(L.InstrSteps(host, p), L.Running(i, c), 0, L.Running(i, c));
    }
    B.OneMore(L.InstrSteps(host, p), L.Running(i, c), 1, L.Running(i + 1, c1));
  }

  lemma PushGoesOn(host: Host, p: L.Program, i: nat, c: Core)
    requires L.ProgramOk(p) && i + 1 < |p.code| && p.code[i].op == OP_PUSH && CoreOk(c)
    ensures L.InstrStep(host, p, i, c) == L.Running(i + 1, Moved(c, 1))
  {
    hide Load, Pointer;
  }

  /** OP_POP drops the word. */
  lemma PopDrops(host: Host, p: L.Program, i: nat, c: Core, c1: Core, w: Word) returns (c': Core)
    requires L.ProgramOk(p) && i + 1 < |p.code| && p.code[i].op == OP_POP && D.Pushed(c, c1, w)
    ensures L.InstrStep(host, p, i, c1) == L.Running(i + 1, c') && D.Performed(c, c', c.image)
  {
    hide Load, Pointer;
    c' := Moved(c1, -1);
  }

  // ----- printed lines -----

  /** Lines k to m of the procedure are what dumptree prints for a tree, and line m returns its value. */
  ghost predicate ReturnPrinted(source: seq<Input>, s0: State, p: nat, e: nat, k: nat, m: nat, v: T.Tree) {
    && Built(source, s0) && Procedure(source, p, e) && p < k <= m < e
    && T.WellTyped(v) && T.TypeOf(v).size == 4 && Printed(Trace(source, s0, k, m), v) && source[m].line.Ret?
  }

  lemma {:induction false} ReturnIs(source: seq<Input>, s0: State, p: nat, e: nat, k: nat, m: nat, v: T.Tree)
    requires ReturnPrinted(source, s0, p, e, k, m, v)
    ensures Built(source, s0) && SourceOk(source) && StateOk(s0) && Opening(source) && Procedure(source, p, e)
    ensures p < k <= m < e < |source| && source[p].line.Proc? && T.WellTyped(v) && T.TypeOf(v).size == 4
  {
    hide Assembles, ShapedSource, BranchesInside, Printed, Trace;
  }

  lemma {:induction false} ReturnHeld(source: seq<Input>, s0: State, p: nat, e: nat, k: nat, m: nat, v: T.Tree)
    requires ReturnPrinted(source, s0, p, e, k, m, v)
    ensures T.WellTyped(v) && Procedure(source, p, e)
    ensures E.HoldsAt(Linked(source, s0), T.Code(v) + [Instr(OP_LEAVE, FrameOf(source[p].line))],
                      |ProgramBefore(source, s0, k)|)
  {
    hide Assembles, ShapedSource, Assembled, Program, BranchesInside, Printed, Trace, Made, E.HoldsAt, StepLine,
         T.Code, T.WellTyped;
    TreeMade(Trace(source, s0, k, m), v);
    TraceMade(source, s0, k, m);
    LineStep(source, s0, m);
    FrameHeld(source, s0, p, e, m);
    FrameInRange(source, s0, p, e);
    InProgram(source, s0, p, e, k, m + 1, T.Code(v) + [Instr(OP_LEAVE, FrameOf(source[p].line))]);
  }

  /**
   * From printed lines to a run: the lines that return the value of a tree take an assembled
   * program to the instruction the return word names, in the frame of the caller, with the
   * value on top of the operand stack.
   */
  lemma {:induction false} ReturnRuns(host: Host, source: seq<Input>, s0: State, p: nat, e: nat, k: nat, m: nat,
                                      v: T.Tree,
                                      c: Core, j: nat) returns (c': Core, steps: nat)
    requires Compiled(source, s0) && ReturnPrinted(source, s0, p, e, k, m, v) && L.ProgramOk(Linked(source, s0))
    requires 0 <= FrameOf(source[p].line) && ReturnsTo(Linked(source, s0), c, FrameOf(source[p].line), j)
    requires D.CleanAt(v, c) && T.Eval(v, c).Some? && c.top + T.Need(v) < OPSTACK
    ensures L.Run(L.InstrSteps(host, Linked(source, s0)), L.Running(|ProgramBefore(source, s0, k)|, c), steps)
         == L.Running(j, c')
    ensures Returned(c, c', FrameOf(source[p].line), Wrap(T.Eval(v, c).value))
  {
    hide *;
    ReturnIs(source, s0, p, e, k, m, v);
    ReturnHeld(source, s0, p, e, k, m, v);
    FrameInRange(source, s0, p, e);
    c' := ResultLeft(host, Linked(source, s0), |ProgramBefore(source, s0, k)|, v, FrameOf(source[p].line), c, j);
    steps := |T.Code(v)| + 1;
  }

  lemma EndHeld(source: seq<Input>, s0: State, p: nat, e: nat)
    requires Compiled(source, s0) && Procedure(source, p, e)
    ensures Built(source, s0) && SourceOk(source) && StateOk(s0) && p < e < |source| && source[p].line.Proc?
    ensures
      var code, i := Linked(source, s0).code, |ProgramBefore(source, s0, e)|;
      i + 1 < |code| && code[i].op == OP_PUSH && code[i + 1] == Instr(OP_LEAVE, FrameOf(source[p].line))
  {
    hide Assembles, ShapedSource, Assembled, Program, BranchesInside, InProcedure;
    Ends(source, s0, p, e);
    ProgramGrows(source, s0, e + 1, |source|);
    assert source[..|source|] == source;
    var code, before, n := Linked(source, s0).code, ProgramBefore(source, s0, e + 1), |ProgramBefore(source, s0, e)|;
    assert code[n] == before[n] && code[n + 1] == before[n + 1];
  }

  /** Run from its last line, a procedure comes back with some word pushed. */
  lemma {:induction false} EndRuns(host: Host, source: seq<Input>, s0: State, p: nat, e: nat, c: Core, j: nat)
    returns (c': Core, w: Word)
    requires Compiled(source, s0) && Procedure(source, p, e) && L.ProgramOk(Linked(source, s0))
    requires 0 <= FrameOf(source[p].line) && ReturnsTo(Linked(source, s0), c, FrameOf(source[p].line), j)
    requires c.top + 1 < OPSTACK
    ensures L.Run(L.InstrSteps(host, Linked(source, s0)), L.Running(|ProgramBefore(source, s0, e)|, c), 2)
        == L.Running(j, c')
    ensures Returned(c, c', FrameOf(source[p].line), w)
  {
    hide *;
    EndHeld(source, s0, p, e);
    c', w := EndLeaves(host, Linked(source, s0), |ProgramBefore(source, s0, e)|, FrameOf(source[p].line), c, j);
  }

  lemma {:induction false} PopHeld(source: seq<Input>, s0: State, p: nat, e: nat, m: nat)
    requires Compiled(source, s0) && Procedure(source, p, e) && p < m < e && source[m].line.Pop?
    ensures Built(source, s0) && SourceOk(source) && StateOk(s0) && m < |source|
    ensures
      var code, i := Linked(source, s0).code, |ProgramBefore(source, s0, m)|;
      i + 1 < |code| && code[i].op == OP_POP && |ProgramBefore(source, s0, m + 1)| == i + 1
  {
    hide Assembles, ShapedSource, Assembled, Program, BranchesInside, InProcedure, StepLine;
    LineStep(source, s0, m);
    InProgram(source, s0, p, e, m, m + 1, [Instr(OP_POP, 0)]);
    var code, i := Linked(source, s0).code, |ProgramBefore(source, s0, m)|;
    assert code[i] == code[i..i + 1][0];
  }

  /** A line pop drops the word that a call has left: run from it, the program goes on with the next line. */
  lemma {:induction false} PopRuns(host: Host, source: seq<Input>, s0: State, p: nat, e: nat, m: nat, c: Core, c1: Core,
                                   w: Word) returns (c': Core)
    requires Compiled(source, s0) && Procedure(source, p, e) && p < m < e && source[m].line.Pop?
    requires L.ProgramOk(Linked(source, s0)) && D.Pushed(c, c1, w)
    ensures L.InstrStep(host, Linked(source, s0), |ProgramBefore(source, s0, m)|, c1)
         == L.Running(|ProgramBefore(source, s0, m + 1)|, c')
    ensures D.Performed(c, c', c.image)
  {
    hide *;
    PopHeld(source, s0, p, e, m);
    c' := PopDrops(host, Linked(source, s0), |ProgramBefore(source, s0, m)|, c, c1, w);
  }
}
