// The functions of an assembled program: what q3asm (q3asm/q3asm.c) makes of the
// lines from proc to endproc has the shape that the frame protocol relies on.

module Procedures {
  import opened Words
  import opened Bytecode
  import opened Assembly
  import opened AssemblyLines
  import opened Passes
  import opened AssembledCode
  import opened Symbols
  import opened Addresses
  import L = Lockstep
  import F = Frames
  import M = Machine
  import Loader

  // ----- sources -----

  /** An error-free assembly of lines as lcc prints them, from segments that start at 0. */
  ghost predicate Built(source: seq<Input>, s0: State) {
    && SourceOk(source) && Opening(source) && StateOk(s0) && Assembles(source, s0)
    && s0.segments[CODESEG].base == 0 && ShapedSource(source, Origin(source))
  }

  /** No line that begins or ends a procedure, nor an instruction that only those make. */
  predicate InnerLine(line: Line) {
    !line.Proc? && !line.EndProc? && (line.Op? ==> line.opcode != OP_ENTER && line.opcode != OP_LEAVE)
  }

  predicate Branches(line: Line) {
    line.Op? && IsBranch(line.opcode)
  }

  /** The branch at line i names the code label at line k. */
  ghost predicate Targets(source: seq<Input>, i: nat, k: nat)
    requires SourceOk(source) && Opening(source) && i < |source| && k < |source|
  {
    && source[i].line.Op? && source[i].line.operand.Some?
    && source[i].line.operand.value.base.Name? && source[i].line.operand.value.offset == 0
    && source[k].line.Label? && Before(source, Origin(source), k).current == CODESEG
    && Settled(source, Origin(source), k + 1)
    && Expanded(source[i].line.operand.value.base.name, source[i].file) == Expanded(source[k].line.name, source[k].file)
  }

  /** The branch at line i names a label between lines p and e. */
  ghost predicate BranchesInside(source: seq<Input>, p: nat, e: nat, i: nat)
    requires SourceOk(source) && Opening(source) && p < e < |source| && i < |source|
  {
    Branches(source[i].line) ==> exists k :: p < k < e && Targets(source, i, k)
  }

  /** Lines p to e are a procedure whose branches stay inside it. */
  ghost predicate Procedure(source: seq<Input>, p: nat, e: nat)
    requires SourceOk(source) && Opening(source)
  {
    && 1 <= p < e < |source| && source[p].line.Proc? && source[e].line.EndProc?
    && source[p].line.locals >= 0 && source[p].line.args >= 0
    && (forall i :: p < i < e ==> InnerLine(source[i].line) && BranchesInside(source, p, e, i))
  }

  function FrameOf(line: Line): int
    requires line.Proc?
  {
    8 + RoundUp4(line.locals) + RoundUp4(line.args)
  }

  /** The function that the lines become. */
  ghost function FnOf(source: seq<Input>, s0: State, p: nat, e: nat): F.Fn
    requires Built(source, s0) && Procedure(source, p, e)
  {
    F.Fn(|ProgramBefore(source, s0, p)|, |ProgramBefore(source, s0, e + 1)|, FrameOf(source[p].line))
  }

  // ----- one line after the other, in pass 1 -----

  /** Line i of pass 1, from a clean state to a clean state. */
  lemma LineStep(source: seq<Input>, s0: State, i: nat)
    requires Built(source, s0) && 1 <= i < |source|
    ensures
      var t := Pass1At(source, s0, i, source[i].file);
      && 0 <= t.current < JTRGSEG && Clean(t, StepLine(t, source[i].line))
      && Assembled(source[..i + 1], Pass1(source, s0)) == StepLine(t, source[i].line)
      && ProgramBefore(source, s0, i + 1) == ProgramBefore(source, s0, i) + Instrs(t, source[i].line)
  {
    hide StepLine, Instrs, Laid, Assembled, Program;
    TwoCleanPasses(source, s0);
    CleanStep(source, Pass1(source, s0), i);
    LayoutAfter(source, Pass1(source, s0), i);
    ProgramStep(source, Pass1(source, s0), i);
  }

  lemma {:induction false} ProgramGrows(source: seq<Input>, s0: State, i: nat, j: nat)
    requires Built(source, s0) && 1 <= i <= j <= |source|
    ensures ProgramBefore(source, s0, i) <= ProgramBefore(source, s0, j)
    decreases j
  {
    hide Built, StepLine, Instrs, Assembled, Program;
    if i < j {
      ProgramGrows(source, s0, i, j - 1);
      LineStep(source, s0, j - 1);
    }
  }

  /** Inside a procedure q3asm holds the sizes of its proc line. */
  lemma {:induction false} FrameHeld(source: seq<Input>, s0: State, p: nat, e: nat, i: nat)
    requires Built(source, s0) && Procedure(source, p, e) && p < i <= e
    ensures
      var t := Assembled(source[..i], Pass1(source, s0));
      t.locals == RoundUp4(source[p].line.locals) && t.args == RoundUp4(source[p].line.args)
    decreases i
  {
    hide StepLine, Instrs, Assembled, Program, BranchesInside, Assembles, ShapedSource, Rest, Laid;
    LineStep(source, s0, i - 1);
    var t := Pass1At(source, s0, i - 1, source[i - 1].file);
    StepRest(t, source[i - 1].line);
    RestSizes(t, source[i - 1].line);
    if i > p + 1 {
      FrameHeld(source, s0, p, e, i - 1);
      assert InnerLine(source[i - 1].line);
    }
  }

  lemma RestSizes(s: State, line: Line)
    requires StateOk(s) && LineOk(line)
    ensures Rest(s, line).locals == (if line.Proc? then RoundUp4(line.locals) else s.locals)
    ensures Rest(s, line).args == (if line.Proc? then RoundUp4(line.args) else s.args)
  {
  }

  lemma ProcLimit(s: State, name: string, locals: int, args: int)
    requires StateOk(s) && Clean(s, StepLine(s, Proc(name, locals, args)))
    ensures 8 + RoundUp4(locals) + RoundUp4(args) < 32767
  {
    hide EmitInt, EmitByte;
    var s1 := Define(s, name, s.count).(locals := RoundUp4(locals), args := RoundUp4(args));
    EmitsKeepErrors(Counted(if Frame(s1) >= 32767 then Fault(s1) else s1), Frame(s1));
  }

  lemma EmitsKeepErrors(s: State, frame: int)
    requires StateOk(s)
    ensures EmitInt(EmitByte(s, CODESEG, OP_ENTER), CODESEG, frame).errors == s.errors
  {
  }

  // ----- the shape of a function -----

  lemma FrameInRange(source: seq<Input>, s0: State, p: nat, e: nat)
    requires Built(source, s0) && Procedure(source, p, e)
    ensures 8 <= FrameOf(source[p].line) < 32767 && Wrap(FrameOf(source[p].line)) == FrameOf(source[p].line)
  {
    hide StepLine, Instrs, Assembled, Program, BranchesInside, Assembles, ShapedSource;
    LineStep(source, s0, p);
    var line := source[p].line;
    ProcLimit(Pass1At(source, s0, p, source[p].file), line.name, line.locals, line.args);
    WrapOfU(FrameOf(line));
  }

  /** Where the procedure's first and last lines stand in the program. */
  lemma Ends(source: seq<Input>, s0: State, p: nat, e: nat)
    requires Built(source, s0) && Procedure(source, p, e)
    ensures
      var f := FnOf(source, s0, p, e);
      && ProgramBefore(source, s0, p + 1) == ProgramBefore(source, s0, p) + [Instr(OP_ENTER, f.frame)]
      && ProgramBefore(source, s0, e + 1)
         == ProgramBefore(source, s0, e) + [Instr(OP_PUSH, 0), Instr(OP_LEAVE, f.frame)]
  {
    hide StepLine, Assembled, Program, BranchesInside, Assembles, ShapedSource;
    FrameInRange(source, s0, p, e);
    LineStep(source, s0, p);
    LineStep(source, s0, e);
    FrameHeld(source, s0, p, e, e);
  }

  /** A label inside the procedure stands for an instruction of its function. */
  lemma LabelInside(source: seq<Input>, s0: State, p: nat, e: nat, k: nat)
    requires Built(source, s0) && Procedure(source, p, e) && p < k < e
    ensures
      var f := FnOf(source, s0, p, e);
      f.start < |ProgramBefore(source, s0, k)| < f.end
  {
    hide Built, Assembled, Program, BranchesInside;
    Ends(source, s0, p, e);
    ProgramGrows(source, s0, p + 1, k);
    ProgramGrows(source, s0, k, e);
  }

  lemma {:induction false} FewerThanBytes(code: seq<Instr>)
    requires AllWellFormed(code)
    ensures |code| <= |Encode(code)|
    decreases |code|
  {
    if code != [] { FewerThanBytes(code[..|code| - 1]); }
  }

  lemma CountFits(source: seq<Input>, s0: State, k: nat)
    requires Built(source, s0) && 1 <= k <= |source|
    ensures |ProgramBefore(source, s0, k)| <= VM_MAX_IMAGE_SIZE
    ensures Wrap(|ProgramBefore(source, s0, k)|) == |ProgramBefore(source, s0, k)|
  {
    hide Assembled, Program, Encode, ShapedSource;
    TwoCleanPasses(source, s0);
    CodeSegment(source, Pass1(source, s0), k);
    FewerThanBytes(ProgramBefore(source, s0, k));
    WrapOfU(|ProgramBefore(source, s0, k)|);
  }

  /** A branch goes to the instruction its label stands for. */
  lemma BranchOperand(source: seq<Input>, s0: State, i: nat, k: nat)
    requires Built(source, s0) && 1 <= i < |source| && 1 <= k < |source|
    requires Branches(source[i].line) && Targets(source, i, k)
    ensures
      Instrs(Pass1At(source, s0, i, source[i].file), source[i].line)
      == [Instr(source[i].line.opcode, |ProgramBefore(source, s0, k)|)]
  {
    hide Assembled, Program, Settled;
    CodeLabelIndex(source, s0, k, i, source[i].file, source[i].line.operand.value.base.name);
    CountFits(source, s0, k);
  }

  ghost predicate AllInside(part: seq<Instr>, f: F.Fn) {
    forall k :: 0 <= k < |part| ==> F.InsideOk(part[k], f)
  }

  /** What a line inside the procedure appends. */
  lemma LineInside(source: seq<Input>, s0: State, p: nat, e: nat, i: nat)
    requires Built(source, s0) && Procedure(source, p, e) && p < i < e
    ensures AllInside(Instrs(Pass1At(source, s0, i, source[i].file), source[i].line), FnOf(source, s0, p, e))
  {
    hide Assembled, Program, Targets, Assembles;
    var line := source[i].line;
    assert InnerLine(line) && BranchesInside(source, p, e, i) && Shaped(line);
    if Branches(line) {
      var k :| p < k < e && Targets(source, i, k);
      BranchOperand(source, s0, i, k);
      LabelInside(source, s0, p, e, k);
    } else if line.Ret? {
      FrameHeld(source, s0, p, e, i);
      FrameInRange(source, s0, p, e);
    }
  }

  /** Every instruction after the prologue, up to line i. */
  lemma {:induction false} InsideUpTo(source: seq<Input>, s0: State, p: nat, e: nat, i: nat)
    requires Built(source, s0) && Procedure(source, p, e) && p < i <= e
    ensures
      var f := FnOf(source, s0, p, e);
      f.start < |ProgramBefore(source, s0, i)| && AllInside(ProgramBefore(source, s0, i)[f.start + 1..], f)
    decreases i
  {
    hide Assembled, Program, BranchesInside, Assembles, ShapedSource, Instrs, StepLine, F.InsideOk;
    var f := FnOf(source, s0, p, e);
    if i == p + 1 {
      Ends(source, s0, p, e);
    } else {
      InsideUpTo(source, s0, p, e, i - 1);
      LineInside(source, s0, p, e, i - 1);
      LineStep(source, s0, i - 1);
      var before := ProgramBefore(source, s0, i - 1);
      var new' := Instrs(Pass1At(source, s0, i - 1, source[i - 1].file), source[i - 1].line);
      assert (before + new')[f.start + 1..] == before[f.start + 1..] + new';
    }
  }

  // ----- the program -----

  /** The program that WriteVmFile writes, and the length of its code segment. */
  ghost function Linked(source: seq<Input>, s0: State): L.Program
    requires Built(source, s0)
  {
    L.Program(Program(source, Pass1(source, s0)), AfterPass1(source, s0).segments[CODESEG].used)
  }

  /** A procedure becomes a function: ENTER and LEAVE of its frame, and nothing that leaves it otherwise. */
  lemma ProcedureIsFn(source: seq<Input>, s0: State, p: nat, e: nat)
    requires Built(source, s0) && Procedure(source, p, e)
    ensures F.FnOk(Linked(source, s0), FnOf(source, s0, p, e))
  {
    hide Assembled, Program, BranchesInside, Assembles, ShapedSource, Instrs, F.InsideOk;
    var f, code := FnOf(source, s0, p, e), Linked(source, s0).code;
    assert source[..|source|] == source;
    assert code == ProgramBefore(source, s0, |source|);
    Ends(source, s0, p, e);
    FrameInRange(source, s0, p, e);
    ProgramGrows(source, s0, p + 1, e);
    ProgramGrows(source, s0, e + 1, |source|);
    InsideUpTo(source, s0, p, e, e);
    var front, whole := ProgramBefore(source, s0, e), ProgramBefore(source, s0, e + 1);
    assert whole <= code && front <= whole;
    forall i | f.start < i < f.end ensures F.InsideOk(code[i], f) {
      if i < |front| {
        assert code[i] == front[i] == front[f.start + 1..][i - f.start - 1];
      } else {
        assert code[i] == whole[i];
        EndInside(f, whole[i]);
      }
    }
    assert code[f.start] == whole[f.start] == ProgramBefore(source, s0, p + 1)[f.start];
    assert code[f.end - 1] == whole[f.end - 1];
  }

  lemma EndInside(f: F.Fn, i: Instr)
    requires i == Instr(OP_PUSH, 0) || i == Instr(OP_LEAVE, f.frame)
    ensures F.InsideOk(i, f)
  {
  }

  ghost predicate InProcedure(source: seq<Input>, i: nat)
    requires SourceOk(source) && Opening(source)
  {
    exists p: nat, e: nat :: Procedure(source, p, e) && p <= i <= e
  }

  /** A source in which every instruction belongs to a procedure. */
  ghost predicate Compiled(source: seq<Input>, s0: State) {
    Built(source, s0) && forall i :: 0 <= i < |source| && Codes(source[i].line) ==> InProcedure(source, i)
  }

  ghost function Functions(source: seq<Input>, s0: State): set<F.Fn>
    requires Built(source, s0)
  {
    set p: nat, e: nat | p < |source| && e < |source| && Procedure(source, p, e) :: FnOf(source, s0, p, e)
  }

  lemma TargetsBoth(a: seq<Instr>, b: seq<Instr>, n: nat)
    requires Loader.TargetsOk(a, n) && Loader.TargetsOk(b, n)
    ensures Loader.TargetsOk(a + b, n)
  {
  }

  lemma NoBranch(t: State, line: Line, n: nat)
    requires StateOk(t) && Shaped(line) && !Branches(line)
    ensures Loader.TargetsOk(Instrs(t, line), n)
  {
  }

  lemma InsideTargets(part: seq<Instr>, f: F.Fn, n: nat)
    requires AllInside(part, f) && f.end <= n
    ensures Loader.TargetsOk(part, n)
  {
  }

  /** Every branch of a line goes to an instruction of the program. */
  lemma LineTargets(source: seq<Input>, s0: State, i: nat)
    requires Compiled(source, s0) && 1 <= i < |source|
    ensures Loader.TargetsOk(Instrs(Pass1At(source, s0, i, source[i].file), source[i].line), |Linked(source, s0).code|)
  {
    hide Assembled, Program, Assembles, Procedure, Instrs, AllInside, Loader.TargetsOk, Shaped;
    var t, line, n := Pass1At(source, s0, i, source[i].file), source[i].line, |Linked(source, s0).code|;
    assert Shaped(line);
    if Branches(line) {
      var p: nat, e: nat := ProcedureOf(source, s0, i);
      LineInside(source, s0, p, e, i);
      assert source[..|source|] == source;
      ProgramGrows(source, s0, e + 1, |source|);
      InsideTargets(Instrs(t, line), FnOf(source, s0, p, e), n);
    } else {
      NoBranch(t, line, n);
    }
  }

  lemma ProcedureOf(source: seq<Input>, s0: State, i: nat) returns (p: nat, e: nat)
    requires Compiled(source, s0) && 1 <= i < |source| && Branches(source[i].line)
    ensures Procedure(source, p, e) && p < i < e < |source|
  {
    hide Assembles, BranchesInside, InnerLine, Shaped, Codes;
    assert Shaped(source[i].line);
    BranchCodes(source[i].line);
    p, e :| Procedure(source, p, e) && p <= i <= e;
  }

  lemma BranchCodes(line: Line)
    requires Branches(line)
    ensures Codes(line)
  {
  }

  lemma {:induction false} TargetsUpTo(source: seq<Input>, s0: State, i: nat)
    requires Compiled(source, s0) && 1 <= i <= |source|
    ensures Loader.TargetsOk(ProgramBefore(source, s0, i), |Linked(source, s0).code|)
    decreases i
  {
    hide Assembled, Assembles, ShapedSource, Instrs, StepLine, Loader.TargetsOk, InProcedure;
    var n := |Linked(source, s0).code|;
    if i == 1 {
      FirstLine(source, s0);
      NoTargets(n);
    } else {
      TargetsUpTo(source, s0, i - 1);
      LineTargets(source, s0, i - 1);
      LineStep(source, s0, i - 1);
      TargetsBoth(ProgramBefore(source, s0, i - 1),
                  Instrs(Pass1At(source, s0, i - 1, source[i - 1].file), source[i - 1].line), n);
    }
  }

  lemma NoTargets(n: nat)
    ensures Loader.TargetsOk([], n)
  {
  }

  lemma FirstLine(source: seq<Input>, s0: State)
    requires Built(source, s0)
    ensures ProgramBefore(source, s0, 1) == []
  {
    hide Assembled, Assembles, ShapedSource, StepLine;
    var b := Pass1(source, s0);
    ProgramStep(source, b, 0);
    assert source[..0] == [];
    assert Program([], b) == [];
  }

  /** What q3asm makes of the source is a program the loader accepts. */
  lemma LinkedOk(source: seq<Input>, s0: State)
    requires Compiled(source, s0)
    ensures L.ProgramOk(Linked(source, s0)) && Linked(source, s0).codeLength <= VM_MAX_IMAGE_SIZE
    ensures Encode(Linked(source, s0).code)
         <= AfterPass1(source, s0).segments[CODESEG].image[..Linked(source, s0).codeLength]
    ensures AfterPass1(source, s0).count == |Linked(source, s0).code|
  {
    hide Assembled, Assembles, ShapedSource, InProcedure, Encode, Expand;
    WrittenProgram(source, s0);
    TargetsUpTo(source, s0, |source|);
    assert source[..|source|] == source;
    ExpandFits(Linked(source, s0).code);
  }

  /** Its procedures are functions as the frame protocol needs them. */
  lemma FunctionsOk(source: seq<Input>, s0: State)
    requires Compiled(source, s0)
    ensures F.TableOk(Linked(source, s0), Functions(source, s0))
  {
    hide Linked, F.FnOk, InProcedure, Procedure, ShapedSource, Assembles;
    LinkedOk(source, s0);
    forall f | f in Functions(source, s0) ensures F.FnOk(Linked(source, s0), f) {
      var p: nat, e: nat :| p < |source| && e < |source| && Procedure(source, p, e) && f == FnOf(source, s0, p, e);
      ProcedureIsFn(source, s0, p, e);
    }
  }

  // ----- runs of assembled functions -----

  /** The frame protocol holds after every polite run of an assembled program. */
  lemma {:induction false} AssembledRunKeeps(host: M.Host, source: seq<Input>, s0: State, stack: seq<F.Activation>,
                                             o: L.Outcome, n: nat)
    requires Compiled(source, s0) && o.Running? && L.ProgramOk(Linked(source, s0))
    requires F.PoliteRun(host, Linked(source, s0), Functions(source, s0), stack, o, n)
    requires F.Inv(Linked(source, s0), Functions(source, s0), stack, o.pc, o.core)
    ensures
      var (p, table) := (Linked(source, s0), Functions(source, s0));
      match L.Run(L.InstrSteps(host, p), o, n)
      case Running(i, c) => F.Inv(p, table, F.StackAfter(host, p, table, stack, o, n), i, c)
      case Halted(c) => c.ps == stack[0].base
      case _ => true
  {
    hide Linked, Functions, Built, F.Inv, F.PoliteRun, F.StackAfter, F.TableOk, L.Run;
    FunctionsOk(source, s0);
    F.RunKeeps(host, Linked(source, s0), Functions(source, s0), stack, o, n);
  }

  /** A call in an assembled program comes back to the instruction after it, with its programStack. */
  lemma {:induction false} AssembledCallReturns(host: M.Host, source: seq<Input>, s0: State, s: seq<F.Activation>,
                                                a: F.Activation,
                             stack: seq<F.Activation>, o: L.Outcome, n: nat)
    requires Compiled(source, s0) && o.Running? && L.ProgramOk(Linked(source, s0))
    requires F.PoliteRun(host, Linked(source, s0), Functions(source, s0), stack, o, n)
    requires F.Inv(Linked(source, s0), Functions(source, s0), stack, o.pc, o.core) && s + [a] <= stack
    requires F.Deeper(host, Linked(source, s0), Functions(source, s0), stack, o, n, |s|)
    requires |F.StackAfter(host, Linked(source, s0), Functions(source, s0), stack, o, n)| == |s|
    requires L.Run(L.InstrSteps(host, Linked(source, s0)), o, n).Running?
    ensures F.StackAfter(host, Linked(source, s0), Functions(source, s0), stack, o, n) == s
    ensures
      var e := L.Run(L.InstrSteps(host, Linked(source, s0)), o, n);
      e.pc == a.ret && e.core.ps == a.base
  {
    hide Linked, Functions, Built, F.Inv, F.PoliteRun, F.StackAfter, F.TableOk, L.Run;
    FunctionsOk(source, s0);
    F.CallReturns(host, Linked(source, s0), Functions(source, s0), s, a, stack, o, n);
  }
}
