// The whole way of a source: the lines that dumptree (lcc/src/bytecode.c) prints,
// assembled by q3asm (q3asm/q3asm.c), loaded by VM_PrepareInterpreter (src/vm/vm.c)
// and run by the cached interpreter.

module Toolchain {
  import opened Words
  import opened Bytecode
  import opened Assembly
  import opened AssemblyLines
  import opened Passes
  import opened AssembledCode
  import opened Addresses
  import opened Procedures
  import L = Lockstep
  import M = Machine
  import T = Trees
  import D = Dumptree
  import E = EndToEnd
  import I = Interpreter
  import Assembler
  import R = Regions
  import C = Parameters
  import B = Branches
  import K = Comparisons

  // ----- what dumptree prints -----

  /** dumptree prints a line for every node. */
  function TreeLines(t: T.Tree): (n: nat)
    ensures n > 0
  {
    match t
    case Cnst(_, _) => 1
    case Addr(_) => 1
    case Indir(_, a) => TreeLines(a) + 1
    case Neg(u) => TreeLines(u) + 1
    case Bcom(u) => TreeLines(u) + 1
    case Bin(_, l, r) => TreeLines(l) + TreeLines(r) + 1
    case Cvt(_, u) => TreeLines(u) + 1
  }

  /** The line addresses that place, as q3asm resolves it in the state s. */
  ghost predicate NamesPlace(s: State, line: Line, place: T.Place)
    requires StateOk(s)
  {
    match place
    case Global(a) =>
      line.Op? && line.opcode == OP_CONST && line.operand.Some? && Wrap(Evaluate(s, line.operand.value).1) == a
    case Local(o) =>
      || (line.AddrL? && Wrap(8 + s.args + Evaluate(s, line.e).1) == o)
      || (line.AddrF? && Wrap(16 + s.args + s.locals + Evaluate(s, line.e).1) == o)
  }

  /** The line of a conversion: a sign extension by width, or an opcode that q3asm ignores. */
  predicate Converts(line: Line, from: T.Ty, to: T.Ty) {
    if to == T.I4 && from.signed && (from.size == 1 || from.size == 2) then line == Extend(from.size, None)
    else line.Op? && line.opcode == OP_IGNORE
  }

  /** The line of the node itself. */
  ghost predicate NodeLine(s: State, line: Line, t: T.Tree)
    requires StateOk(s) && T.WellTyped(t)
  {
    match t
    case Cnst(_, v) => line == Op(OP_CONST, Some(Expr(Number(v), 0)))
    case Addr(place) => NamesPlace(s, line, place)
    case Indir(ty, _) => line == Op(T.LoadOp(ty), None)
    case Neg(_) => line == Op(OP_NEGI, None)
    case Bcom(_) => line == Op(OP_BCOM, None)
    case Bin(op, l, _) => line == Op(T.OpCode(op, T.TypeOf(l).signed), None)
    case Cvt(ty, u) => Converts(line, T.TypeOf(u), ty)
  }

  /** The instruction of a node. */
  function NodeCode(t: T.Tree): seq<Instr>
    requires T.WellTyped(t)
  {
    match t
    case Cnst(_, v) => [Instr(OP_CONST, Wrap(v))]
    case Addr(Global(a)) => [Instr(OP_CONST, a)]
    case Addr(Local(o)) => [Instr(OP_LOCAL, o)]
    case Indir(ty, _) => [Instr(T.LoadOp(ty), 0)]
    case Neg(_) => [Instr(OP_NEGI, 0)]
    case Bcom(_) => [Instr(OP_BCOM, 0)]
    case Bin(op, l, _) => [Instr(T.OpCode(op, T.TypeOf(l).signed), 0)]
    case Cvt(ty, u) => T.CvtCode(T.TypeOf(u), ty)
  }

  lemma {:induction false} NodeInstrs(s: State, line: Line, t: T.Tree)
    requires StateOk(s) && T.WellTyped(t) && NodeLine(s, line, t)
    ensures Instrs(s, line) == NodeCode(t)
  {
  }

  /** Lines, each with the state in which pass 1 comes to it. */
  datatype Stop = Stop(s: State, line: Line)

  ghost predicate StopsOk(steps: seq<Stop>) {
    forall i :: 0 <= i < |steps| ==> StateOk(steps[i].s)
  }

  /** The lines are what dumptree prints for the tree: the kids, and then the node. */
  ghost predicate Printed(steps: seq<Stop>, t: T.Tree)
    requires StopsOk(steps) && T.WellTyped(t)
    decreases t
  {
    var last := TreeLines(t) - 1;
    && |steps| == last + 1 && NodeLine(steps[last].s, steps[last].line, t)
    && match t
       case Indir(_, a) => Printed(steps[..last], a)
       case Neg(u) => Printed(steps[..last], u)
       case Bcom(u) => Printed(steps[..last], u)
       case Bin(_, l, r) => Printed(steps[..TreeLines(l)], l) && Printed(steps[TreeLines(l)..last], r)
       case Cvt(_, u) => Printed(steps[..last], u)
       case _ => true
  }

  /** What the lines append to the program. */
  ghost function Made(steps: seq<Stop>): seq<Instr>
    requires StopsOk(steps)
    decreases |steps|
  {
    if steps == [] then []
    else Made(steps[..|steps| - 1]) + Instrs(steps[|steps| - 1].s, steps[|steps| - 1].line)
  }

  lemma {:induction false} MadeBoth(a: seq<Stop>, b: seq<Stop>)
    requires StopsOk(a) && StopsOk(b)
    ensures StopsOk(a + b) && Made(a + b) == Made(a) + Made(b)
    decreases |b|
  {
    hide Instrs;
    if b == [] {
      assert a + b == a;
    } else {
      assert (a + b)[..|a + b| - 1] == a + b[..|b| - 1];
      MadeBoth(a, b[..|b| - 1]);
    }
  }

  lemma {:induction false} KidsTyped(t: T.Tree)
    requires T.WellTyped(t)
    ensures match t
            case Indir(_, a) => T.WellTyped(a) && T.Code(t) == T.Code(a) + NodeCode(t)
            case Neg(u) => T.WellTyped(u) && T.Code(t) == T.Code(u) + NodeCode(t)
            case Bcom(u) => T.WellTyped(u) && T.Code(t) == T.Code(u) + NodeCode(t)
            case Bin(_, l, r) => T.WellTyped(l) && T.WellTyped(r) && T.Code(t) == T.Code(l) + T.Code(r) + NodeCode(t)
            case Cvt(_, u) => T.WellTyped(u) && T.Code(t) == T.Code(u) + NodeCode(t)
            case _ => T.Code(t) == NodeCode(t)
  {
  }

  lemma {:induction false} MadeSplit(steps: seq<Stop>, m: nat)
    requires StopsOk(steps) && m <= |steps|
    ensures StopsOk(steps[..m]) && StopsOk(steps[m..]) && Made(steps) == Made(steps[..m]) + Made(steps[m..])
  {
    hide Made;
    assert steps[..m] + steps[m..] == steps;
    MadeBoth(steps[..m], steps[m..]);
  }

  lemma {:induction false} MadeLast(steps: seq<Stop>)
    requires StopsOk(steps) && steps != []
    ensures StopsOk(steps[..|steps| - 1])
    ensures Made(steps) == Made(steps[..|steps| - 1]) + Instrs(steps[|steps| - 1].s, steps[|steps| - 1].line)
  {
  }

  /** What q3asm assembles from the lines of a tree is the code of the tree. */
  lemma {:induction false} TreeMade(steps: seq<Stop>, t: T.Tree)
    requires StopsOk(steps) && T.WellTyped(t) && Printed(steps, t)
    ensures Made(steps) == T.Code(t)
    decreases t
  {
    hide StateOk, Instrs, NodeLine, T.WellTyped, NodeCode, T.Code, Made, StopsOk;
    KidsTyped(t);
    var last := TreeLines(t) - 1;
    MadeLast(steps);
    NodeMade(steps, t);
    match t
    case Indir(_, a) => TreeMade(steps[..last], a);
    case Neg(u) => TreeMade(steps[..last], u);
    case Bcom(u) => TreeMade(steps[..last], u);
    case Bin(_, l, r) =>
      MadeSplit(steps[..last], TreeLines(l));
      assert steps[..last][TreeLines(l)..] == steps[TreeLines(l)..last]
          && steps[..last][..TreeLines(l)] == steps[..TreeLines(l)];
      TreeMade(steps[..TreeLines(l)], l);
      TreeMade(steps[TreeLines(l)..last], r);
    case Cvt(_, u) => TreeMade(steps[..last], u);
    case _ => NothingMade(steps[..last], t);
  }

  lemma {:induction false} NodeMade(steps: seq<Stop>, t: T.Tree)
    requires StopsOk(steps) && T.WellTyped(t) && Printed(steps, t)
    ensures |steps| == TreeLines(t) && Instrs(steps[|steps| - 1].s, steps[|steps| - 1].line) == NodeCode(t)
  {
    hide StateOk, Instrs, NodeLine, T.WellTyped, NodeCode;
    NodeInstrs(steps[|steps| - 1].s, steps[|steps| - 1].line, t);
  }

  lemma {:induction false} NothingMade(steps: seq<Stop>, t: T.Tree)
    requires StopsOk(steps) && T.WellTyped(t) && steps == []
    ensures Made(steps) + NodeCode(t) == NodeCode(t)
  {
  }

  // ----- roots -----

  function RootLines(r: D.Root): (n: nat)
    ensures n > 0
  {
    match r
    case Asgn(_, a, v) => TreeLines(a) + TreeLines(v) + 1
    case Copy(_, dst, src) => TreeLines(dst) + TreeLines(src) + 1
    case Arg(_, v) => TreeLines(v) + 1
  }

  /** The lines of two trees and then that of an operator on them. */
  ghost predicate PrintedTwo(steps: seq<Stop>, l: T.Tree, r: T.Tree, line: Line)
    requires StopsOk(steps) && T.WellTyped(l) && T.WellTyped(r) && |steps| == TreeLines(l) + TreeLines(r) + 1
  {
    var last := |steps| - 1;
    steps[last].line == line && Printed(steps[..TreeLines(l)], l) && Printed(steps[TreeLines(l)..last], r)
  }

  ghost predicate PrintedRoot(steps: seq<Stop>, r: D.Root)
    requires StopsOk(steps) && D.RootOk(r) && |steps| == RootLines(r)
  {
    match r
    case Asgn(ty, a, v) => PrintedTwo(steps, a, v, Op(T.StoreOp(ty), None))
    case Copy(size, dst, src) => PrintedTwo(steps, dst, src, Op(OP_BLOCK_COPY, Some(Expr(Number(size), 0))))
    case Arg(slot, v) =>
      var last := |steps| - 1;
      steps[last].line.Arg? && slot == 8 + steps[last].s.argOffset && Printed(steps[..last], v)
  }

  /** A forest, perhaps with line numbers between its roots. */
  ghost predicate PrintedForest(steps: seq<Stop>, f: seq<D.Root>)
    requires StopsOk(steps) && forall i :: 0 <= i < |f| ==> D.RootOk(f[i])
    decreases |steps|
  {
    if steps == [] then f == []
    else if steps[0].line.Ignored? then PrintedForest(steps[1..], f)
    else
      && f != [] && RootLines(f[0]) <= |steps|
      && PrintedRoot(steps[..RootLines(f[0])], f[0]) && PrintedForest(steps[RootLines(f[0])..], f[1..])
  }

  lemma {:induction false} TwoMade(steps: seq<Stop>, l: T.Tree, r: T.Tree, line: Line)
    requires StopsOk(steps) && T.WellTyped(l) && T.WellTyped(r) && |steps| == TreeLines(l) + TreeLines(r) + 1
    requires PrintedTwo(steps, l, r, line)
    ensures Made(steps) == T.Code(l) + T.Code(r) + Instrs(steps[|steps| - 1].s, line)
  {
    hide StateOk, Instrs, T.WellTyped, T.Code, Made, StopsOk, Printed;
    var last := |steps| - 1;
    MadeLast(steps);
    MadeSplit(steps[..last], TreeLines(l));
    assert steps[..last][TreeLines(l)..] == steps[TreeLines(l)..last]
        && steps[..last][..TreeLines(l)] == steps[..TreeLines(l)];
    TreeMade(steps[..TreeLines(l)], l);
    TreeMade(steps[TreeLines(l)..last], r);
  }

  lemma {:induction false} RootMade(steps: seq<Stop>, r: D.Root)
    requires StopsOk(steps) && D.RootOk(r) && |steps| == RootLines(r) && PrintedRoot(steps, r)
    ensures Made(steps) == D.RootCode(r)
  {
    hide T.WellTyped, T.Code, Made, Printed, PrintedTwo;
    match r
    case Asgn(ty, a, v) => TwoMade(steps, a, v, Op(T.StoreOp(ty), None));
    case Copy(size, dst, src) =>
      TwoMade(steps, dst, src, Op(OP_BLOCK_COPY, Some(Expr(Number(size), 0))));
      WrapOfU(RoundUp4(size));
    case Arg(_, v) =>
      MadeLast(steps);
      TreeMade(steps[..|steps| - 1], v);
  }

  /** What q3asm assembles from the lines of a forest is the code of the forest. */
  lemma {:induction false} ForestMade(steps: seq<Stop>, f: seq<D.Root>)
    requires StopsOk(steps) && (forall i :: 0 <= i < |f| ==> D.RootOk(f[i])) && PrintedForest(steps, f)
    ensures Made(steps) == D.ForestCode(f)
    decreases |steps|
  {
    hide StateOk, PrintedRoot, D.RootOk, D.RootCode, Made;
    if steps == [] {
      NoneMade(steps);
    } else if steps[0].line.Ignored? {
      MadeSplit(steps, 1);
      IgnoredMade(steps[..1]);
      ForestMade(steps[1..], f);
    } else {
      var n := RootLines(f[0]);
      MadeSplit(steps, n);
      RootMade(steps[..n], f[0]);
      ForestMade(steps[n..], f[1..]);
    }
  }

  lemma {:induction false} NoneMade(steps: seq<Stop>)
    requires StopsOk(steps) && steps == []
    ensures Made(steps) == []
  {
  }

  lemma {:induction false} IgnoredMade(steps: seq<Stop>)
    requires StopsOk(steps) && |steps| == 1 && steps[0].line.Ignored?
    ensures Made(steps) == []
  {
    MadeLast(steps);
    NoneMade(steps[..0]);
  }

  // ----- in the program -----

  ghost function StopAt(source: seq<Input>, s0: State, i: nat): (stop: Stop)
    requires SourceOk(source) && StateOk(s0) && i < |source|
    ensures StateOk(stop.s)
  {
    Stop(Pass1At(source, s0, i, source[i].file), source[i].line)
  }

  /** Lines k to n as pass 1 comes to them. */
  ghost function Trace(source: seq<Input>, s0: State, k: nat, n: nat): (steps: seq<Stop>)
    requires SourceOk(source) && StateOk(s0) && k <= n <= |source|
    ensures StopsOk(steps) && |steps| == n - k
    decreases n
  {
    if k == n then [] else Trace(source, s0, k, n - 1) + [StopAt(source, s0, n - 1)]
  }

  lemma TraceStep(source: seq<Input>, s0: State, k: nat, n: nat)
    requires SourceOk(source) && StateOk(s0) && k <= n < |source|
    ensures Trace(source, s0, k, n + 1)[..n - k] == Trace(source, s0, k, n)
    ensures Trace(source, s0, k, n + 1)[n - k] == Stop(Pass1At(source, s0, n, source[n].file), source[n].line)
  {
  }

  /** The program grows by what the lines append. */
  lemma {:induction false} TraceMade(source: seq<Input>, s0: State, k: nat, n: nat)
    requires Built(source, s0) && 1 <= k <= n <= |source|
    ensures ProgramBefore(source, s0, n) == ProgramBefore(source, s0, k) + Made(Trace(source, s0, k, n))
    decreases n
  {
    hide Assembles, ShapedSource, Assembled, Program, StepLine, Instrs, Trace;
    if n > k {
      TraceMade(source, s0, k, n - 1);
      LineStep(source, s0, n - 1);
      TraceStep(source, s0, k, n - 1);
      MadeLast(Trace(source, s0, k, n));
    } else {
      NoneMade(Trace(source, s0, k, n));
    }
  }

  /** Lines k to n of the procedure from line p to line e are what dumptree prints for the forest. */
  ghost predicate ForestAt(source: seq<Input>, s0: State, p: nat, e: nat, k: nat, n: nat, f: seq<D.Root>) {
    && Built(source, s0) && Procedure(source, p, e) && p < k <= n <= e
    && (forall i :: 0 <= i < |f| ==> D.RootOk(f[i]))
    && PrintedForest(Trace(source, s0, k, n), f)
  }

  /** Lines of a procedure append code that stands in the program where the first of them does. */
  lemma {:induction false} InProgram(source: seq<Input>, s0: State, p: nat, e: nat, k: nat, n: nat, part: seq<Instr>)
    requires Built(source, s0) && Procedure(source, p, e) && p < k <= n <= e
    requires ProgramBefore(source, s0, n) == ProgramBefore(source, s0, k) + part
    ensures E.HoldsAt(Linked(source, s0), part, |ProgramBefore(source, s0, k)|)
  {
    hide Assembles, ShapedSource, Assembled, Program, BranchesInside;
    ProgramGrows(source, s0, n, e);
    ProgramGrows(source, s0, e + 1, |source|);
    Ends(source, s0, p, e);
    assert source[..|source|] == source;
    var code, before := Linked(source, s0).code, ProgramBefore(source, s0, n);
    assert before <= code && code[..|before|] == before;
    assert before[|ProgramBefore(source, s0, k)|..] == part;
  }

  /** The code of the forest stands in the program where its first line does. */
  lemma {:induction false} ForestHeld(source: seq<Input>, s0: State, p: nat, e: nat, k: nat, n: nat, f: seq<D.Root>)
    requires ForestAt(source, s0, p, e, k, n, f)
    ensures E.HoldsAt(Linked(source, s0), D.ForestCode(f), |ProgramBefore(source, s0, k)|)
    ensures |ProgramBefore(source, s0, n)| == |ProgramBefore(source, s0, k)| + |D.ForestCode(f)|
  {
    hide Assembles, ShapedSource, Assembled, Program, BranchesInside, PrintedForest, Trace, D.RootOk, Made, E.HoldsAt;
    ForestMade(Trace(source, s0, k, n), f);
    TraceMade(source, s0, k, n);
    InProgram(source, s0, p, e, k, n, D.ForestCode(f));
  }

  // ----- comparisons -----

  /**
   * Lines k to m of the procedure from line p to line e are what dumptree prints for the operands
   * of a comparison, and line m is the branch, to the label of line to.
   */
  ghost predicate ComparisonPrinted(source: seq<Input>, s0: State, p: nat, e: nat, k: nat, n: nat, m: nat,
                                    rel: K.Rel, l: T.Tree, r: T.Tree, to: nat) {
    && Built(source, s0) && Procedure(source, p, e) && p < k <= n <= m < e && p < to < e && B.ComparisonOk(l, r)
    && Printed(Trace(source, s0, k, n), l) && Printed(Trace(source, s0, n, m), r)
    && source[m].line.Op? && source[m].line.opcode == B.BranchOp(rel, T.TypeOf(l).signed) && Targets(source, m, to)
  }

  /** The code of the comparison stands in the program, with the instruction behind the label as its target. */
  lemma {:induction false} ComparisonHeld(source: seq<Input>, s0: State, p: nat, e: nat, k: nat, n: nat, m: nat,
                                          rel: K.Rel, l: T.Tree, r: T.Tree, to: nat)
    requires ComparisonPrinted(source, s0, p, e, k, n, m, rel, l, r, to)
    ensures Fits(|ProgramBefore(source, s0, to)|)
    ensures
      var code := B.ComparisonCode(rel, l, r, |ProgramBefore(source, s0, to)|);
      && E.HoldsAt(Linked(source, s0), code, |ProgramBefore(source, s0, k)|)
      && |ProgramBefore(source, s0, m + 1)| == |ProgramBefore(source, s0, k)| + |code|
  {
    hide Assembles, ShapedSource, Assembled, Program, BranchesInside, Printed, Trace, Made, E.HoldsAt, StepLine, Instrs,
         T.Code, T.WellTyped, Targets, B.BranchOp;
    TreeMade(Trace(source, s0, k, n), l);
    TreeMade(Trace(source, s0, n, m), r);
    TraceMade(source, s0, k, n);
    TraceMade(source, s0, n, m);
    LineStep(source, s0, m);
    BranchOperand(source, s0, m, to);
    CountFits(source, s0, to);
    WrapOfU(|ProgramBefore(source, s0, to)|);
    InProgram(source, s0, p, e, k, m + 1, B.ComparisonCode(rel, l, r, |ProgramBefore(source, s0, to)|));
  }

  /**
   * From printed lines to a run: the lines of a comparison take an assembled program to the
   * instruction behind the label if the comparison holds of the values of its operands, and to
   * the next line if it does not.
   */
  lemma {:induction false} ComparisonRuns(host: M.Host, source: seq<Input>, s0: State, p: nat, e: nat, k: nat, n: nat,
                                          m: nat,
                                          rel: K.Rel, l: T.Tree, r: T.Tree, to: nat, c: M.Core)
    returns (c': M.Core, steps: nat)
    requires Compiled(source, s0) && ComparisonPrinted(source, s0, p, e, k, n, m, rel, l, r, to)
    requires M.CoreOk(c) && D.CleanAt(l, c) && D.CleanAt(r, c) && T.Eval(l, c).Some? && T.Eval(r, c).Some?
    requires c.top + T.Need(l) < M.OPSTACK && c.top + 1 + T.Need(r) < M.OPSTACK
    ensures L.ProgramOk(Linked(source, s0)) && D.Performed(c, c', c.image)
    ensures
      var line := if K.Holds(rel, T.Eval(l, c).value, T.Eval(r, c).value) then to else m + 1;
      L.Run(L.InstrSteps(host, Linked(source, s0)), L.Running(|ProgramBefore(source, s0, k)|, c), steps)
      == L.Running(|ProgramBefore(source, s0, line)|, c')
  {
    hide *;
    ComparisonIs(source, s0, p, e, k, n, m, rel, l, r, to);
    ComparisonHeld(source, s0, p, e, k, n, m, rel, l, r, to);
    LinkedOk(source, s0);
    var target := |ProgramBefore(source, s0, to)|;
    c' := B.ComparisonCorrect(host, Linked(source, s0), |ProgramBefore(source, s0, k)|, rel, l, r, target, c);
    steps := |B.ComparisonCode(rel, l, r, target)|;
  }

  lemma {:induction false} ComparisonIs(source: seq<Input>, s0: State, p: nat, e: nat, k: nat, n: nat, m: nat,
                     rel: K.Rel, l: T.Tree, r: T.Tree, to: nat)
    requires ComparisonPrinted(source, s0, p, e, k, n, m, rel, l, r, to)
    ensures Built(source, s0) && SourceOk(source) && StateOk(s0) && k < |source| && m + 1 <= |source| && to < |source|
    ensures B.ComparisonOk(l, r) && T.WellTyped(l) && T.WellTyped(r)
  {
    hide Assembles, ShapedSource, BranchesInside, Printed, Trace, Targets, B.BranchOp;
  }

  // ----- calls -----

  /** Lines that neither pass an argument nor call. */
  ghost predicate Quiet(steps: seq<Stop>) {
    forall i :: 0 <= i < |steps| ==> !steps[i].line.Arg? && !steps[i].line.Call?
  }

  lemma {:induction false} TreeQuiet(steps: seq<Stop>, t: T.Tree)
    requires StopsOk(steps) && T.WellTyped(t) && Printed(steps, t)
    ensures Quiet(steps)
    decreases t
  {
    hide StateOk, Instrs, T.WellTyped, NodeCode, T.Code, Made, NodeLine, StopsOk;
    KidsTyped(t);
    var last := TreeLines(t) - 1;
    LastQuiet(steps, t);
    StopsPart(steps, 0, last);
    match t
    case Indir(_, a) => TreeQuiet(steps[..last], a);
    case Neg(u) => TreeQuiet(steps[..last], u);
    case Bcom(u) => TreeQuiet(steps[..last], u);
    case Bin(_, l, r) =>
      StopsPart(steps, 0, TreeLines(l));
      StopsPart(steps, TreeLines(l), last);
      TreeQuiet(steps[..TreeLines(l)], l);
      TreeQuiet(steps[TreeLines(l)..last], r);
      forall i | 0 <= i < |steps| ensures !steps[i].line.Arg? && !steps[i].line.Call? {
        if i < TreeLines(l) {
          assert steps[i] == steps[..TreeLines(l)][i];
        } else if i < last {
          assert steps[i] == steps[TreeLines(l)..last][i - TreeLines(l)];
        }
      }
    case Cvt(_, u) => TreeQuiet(steps[..last], u);
    case _ =>
  }

  lemma StopsPart(steps: seq<Stop>, i: nat, j: nat)
    requires StopsOk(steps) && i <= j <= |steps|
    ensures StopsOk(steps[i..j]) && steps[0..j] == steps[..j]
  {
  }

  lemma {:induction false} LastQuiet(steps: seq<Stop>, t: T.Tree)
    requires StopsOk(steps) && T.WellTyped(t) && Printed(steps, t)
    ensures |steps| == TreeLines(t) && !steps[|steps| - 1].line.Arg? && !steps[|steps| - 1].line.Call?
  {
  }

  /** currentArgOffset after the lines, from its value before them. */
  function OffsetAfter(steps: seq<Stop>, a: nat): nat
    decreases |steps|
  {
    if steps == [] then a
    else
      var before := OffsetAfter(steps[..|steps| - 1], a);
      match steps[|steps| - 1].line
      case Arg => before + 4
      case Call => 0
      case _ => before
  }

  lemma {:induction false} OffsetBoth(x: seq<Stop>, y: seq<Stop>, a: nat)
    ensures OffsetAfter(x + y, a) == OffsetAfter(y, OffsetAfter(x, a))
    decreases |y|
  {
    if y == [] {
      assert x + y == x;
    } else {
      assert (x + y)[..|x + y| - 1] == x + y[..|y| - 1];
      OffsetBoth(x, y[..|y| - 1], a);
    }
  }

  lemma {:induction false} QuietKeeps(steps: seq<Stop>, a: nat)
    requires Quiet(steps)
    ensures OffsetAfter(steps, a) == a
    decreases |steps|
  {
    if steps != [] { QuietKeeps(steps[..|steps| - 1], a); }
  }

  /** Each line finds the offset that the lines before it leave. */
  ghost predicate Counted(steps: seq<Stop>, a: nat) {
    forall i :: 0 <= i < |steps| ==> steps[i].s.argOffset == OffsetAfter(steps[..i], a)
  }

  lemma {:induction false} CountedRest(steps: seq<Stop>, a: nat, n: nat)
    requires Counted(steps, a) && n <= |steps|
    ensures Counted(steps[n..], OffsetAfter(steps[..n], a))
  {
    var b := OffsetAfter(steps[..n], a);
    forall i | 0 <= i < |steps[n..]| ensures steps[n..][i].s.argOffset == OffsetAfter(steps[n..][..i], b) {
      assert steps[..n + i] == steps[..n] + steps[n..][..i];
      OffsetBoth(steps[..n], steps[n..][..i], a);
    }
  }

  lemma {:induction false} CountedMore(front: seq<Stop>, steps: seq<Stop>, a: nat)
    requires Counted(front, a) && |steps| == |front| + 1 && steps[..|front|] == front
    requires steps[|front|].s.argOffset == OffsetAfter(front, a)
    ensures Counted(steps, a)
  {
    forall i | 0 <= i < |steps| ensures steps[i].s.argOffset == OffsetAfter(steps[..i], a) {
      assert steps[..i] == front[..i];
      if i == |front| { assert front[..i] == front; } else { assert steps[i] == front[i]; }
    }
  }

  lemma {:induction false} TraceCounted(source: seq<Input>, s0: State, k: nat, n: nat)
    requires Built(source, s0) && 1 <= k <= n <= |source|
    ensures Counted(Trace(source, s0, k, n), Assembled(source[..k], Pass1(source, s0)).argOffset)
    ensures
      Assembled(source[..n], Pass1(source, s0)).argOffset
      == OffsetAfter(Trace(source, s0, k, n), Assembled(source[..k], Pass1(source, s0)).argOffset)
    decreases n
  {
    hide Assembles, ShapedSource, Assembled, Program, StepLine, Instrs, Trace, StateOk, Clean;
    var a := Assembled(source[..k], Pass1(source, s0)).argOffset;
    if n > k {
      TraceCounted(source, s0, k, n - 1);
      TraceStep(source, s0, k, n - 1);
      LineStep(source, s0, n - 1);
      R.ArgStep(Pass1At(source, s0, n - 1, source[n - 1].file), source[n - 1].line);
      CountedMore(Trace(source, s0, k, n - 1), Trace(source, s0, k, n), a);
    } else {
      assert |Trace(source, s0, k, n)| == 0;
    }
  }

  /** What a root does to the offset. */
  lemma {:induction false} RootCounted(steps: seq<Stop>, r: D.Root, a: nat)
    requires StopsOk(steps) && D.RootOk(r) && |steps| == RootLines(r) && PrintedRoot(steps, r) && Counted(steps, a)
    ensures OffsetAfter(steps, a) == if r.Arg? then a + 4 else a
    ensures r.Arg? ==> r.slot == 8 + a
  {
    hide T.WellTyped, T.Code, Made, Printed, NodeLine;
    var last := |steps| - 1;
    match r
    case Asgn(ty, l, v) => TwoCounted(steps, l, v, Op(T.StoreOp(ty), None), a);
    case Copy(size, dst, src) => TwoCounted(steps, dst, src, Op(OP_BLOCK_COPY, Some(Expr(Number(size), 0))), a);
    case Arg(_, v) =>
      TreeQuiet(steps[..last], v);
      QuietKeeps(steps[..last], a);
  }

  lemma {:induction false} TwoCounted(steps: seq<Stop>, l: T.Tree, r: T.Tree, line: Line, a: nat)
    requires StopsOk(steps) && T.WellTyped(l) && T.WellTyped(r) && |steps| == TreeLines(l) + TreeLines(r) + 1
    requires PrintedTwo(steps, l, r, line) && line.Op?
    ensures OffsetAfter(steps, a) == a
  {
    hide T.WellTyped, Printed;
    var last := |steps| - 1;
    TreeQuiet(steps[..TreeLines(l)], l);
    TreeQuiet(steps[TreeLines(l)..last], r);
    QuietKeeps(steps[..TreeLines(l)], a);
    QuietKeeps(steps[TreeLines(l)..last], a);
    assert steps[..last] == steps[..TreeLines(l)] + steps[TreeLines(l)..last];
    OffsetBoth(steps[..TreeLines(l)], steps[TreeLines(l)..last], a);
  }

  /** The arguments of a printed forest go to successive slots. */
  lemma {:induction false} ForestPasses(steps: seq<Stop>, f: seq<D.Root>, a: nat)
    requires StopsOk(steps) && (forall i :: 0 <= i < |f| ==> D.RootOk(f[i])) && PrintedForest(steps, f)
        && Counted(steps, a)
    ensures C.Passing(f, 8 + a)
    decreases |steps|
  {
    hide StateOk, PrintedRoot, D.RootOk, Counted, OffsetAfter;
    if steps != [] {
      if steps[0].line.Ignored? {
        CountedRest(steps, a, 1);
        IgnoredKeeps(steps[..1], a);
        ForestPasses(steps[1..], f, a);
      } else {
        var n := RootLines(f[0]);
        CountedRest(steps, a, n);
        CountedFront(steps, a, n);
        RootCounted(steps[..n], f[0], a);
        ForestPasses(steps[n..], f[1..], OffsetAfter(steps[..n], a));
      }
    }
  }

  lemma {:induction false} IgnoredKeeps(steps: seq<Stop>, a: nat)
    requires |steps| == 1 && steps[0].line.Ignored?
    ensures OffsetAfter(steps, a) == a
  {
    assert steps[..0] == [];
  }

  lemma CountedFront(steps: seq<Stop>, a: nat, n: nat)
    requires Counted(steps, a) && n <= |steps|
    ensures Counted(steps[..n], a)
  {
    forall i | 0 <= i < n ensures steps[..n][i].s.argOffset == OffsetAfter(steps[..n][..i], a) {
      assert steps[..n][..i] == steps[..i];
    }
  }

  /**
   * Lines k to m of the procedure from line p to line e are what dumptree prints for a call: the
   * roots of its arguments, from a currentArgOffset of 0, the address, and CALL.
   */
  ghost predicate CallPrinted(source: seq<Input>, s0: State, p: nat, e: nat, k: nat, n: nat, m: nat, f: seq<D.Root>,
                              a: T.Tree) {
    && ForestAt(source, s0, p, e, k, n, f) && T.WellTyped(a) && n <= m < e
    && R.ArgOffset(source[..k], 0) == 0 && R.ArgOffset(source, 0) == 0 && s0.argOffset == 0
    && Printed(Trace(source, s0, n, m), a) && source[m].line.Call?
  }

  lemma CallLine(source: seq<Input>, s0: State, m: nat)
    requires Built(source, s0) && 1 <= m < |source| && source[m].line.Call?
    ensures ProgramBefore(source, s0, m + 1) == ProgramBefore(source, s0, m) + [Instr(OP_CALL, 0)]
  {
    hide Assembles, ShapedSource, Assembled, Program, StepLine;
    LineStep(source, s0, m);
  }

  /** The code of the call stands in the program. */
  lemma {:induction false} CallHeld(source: seq<Input>, s0: State, p: nat, e: nat, k: nat, n: nat, m: nat,
                                    f: seq<D.Root>, a: T.Tree)
    requires CallPrinted(source, s0, p, e, k, n, m, f, a)
    ensures T.WellTyped(a) && (forall i :: 0 <= i < |f| ==> D.RootOk(f[i]))
    ensures E.HoldsAt(Linked(source, s0), C.CallCode(f, a), |ProgramBefore(source, s0, k)|)
  {
    hide Assembles, ShapedSource, Assembled, Program, BranchesInside, PrintedForest, Printed, Trace, D.RootOk, Made,
         R.ArgOffset, E.HoldsAt, StepLine, Instrs, T.Code, T.WellTyped;
    ForestMade(Trace(source, s0, k, n), f);
    TreeMade(Trace(source, s0, n, m), a);
    TraceMade(source, s0, k, n);
    TraceMade(source, s0, n, m);
    CallLine(source, s0, m);
    InProgram(source, s0, p, e, k, m + 1, C.CallCode(f, a));
  }

  /** Its arguments have the slots 8, 12, 16 and so on. */
  lemma {:induction false} CallPasses(source: seq<Input>, s0: State, p: nat, e: nat, k: nat, n: nat, m: nat,
                                      f: seq<D.Root>, a: T.Tree)
    requires CallPrinted(source, s0, p, e, k, n, m, f, a)
    ensures C.Passing(f, 8)
  {
    hide Assembles, ShapedSource, Assembled, Program, BranchesInside, PrintedForest, Printed, Trace, D.RootOk, Made,
         R.ArgOffset, Counted, OffsetAfter;
    R.OffsetInPass1(source, s0, k);
    TraceCounted(source, s0, k, n);
    ForestPasses(Trace(source, s0, k, n), f, 0);
  }

  /** The values of a call's arguments are there to be evaluated, and the address is that of the function. */
  ghost predicate Callable(f: seq<D.Root>, a: T.Tree, c: M.Core, image: seq<Byte>, start: nat) {
    && C.Calling(f, a, c, image, start) && C.Undisturbed(f, c, 8) && C.Reachable(c, 8 + 4 * C.Passed(f))
  }

  /** Line l of the procedure from line p to line e is ADDRF of parameter j. */
  ghost predicate ParameterAt(source: seq<Input>, p: nat, e: nat, l: nat, j: nat) {
    && SourceOk(source) && Opening(source) && Procedure(source, p, e) && p < l < e && source[l].line.AddrF?
    && R.Constant(source[l].line.e) && R.Operand(source[l].line.e) == 4 * j
  }

  /** How the callee finds the value v of parameter j, from the core c of its caller. */
  ghost predicate Receives(source: seq<Input>, s0: State, p: nat, l: nat, c: M.Core, d: M.Core, v: int)
    requires SourceOk(source) && StateOk(s0) && p < |source| && source[p].line.Proc? && l < |source|
        && source[l].line.AddrF?
  {
    && M.CoreOk(c) && M.CoreOk(d) && d.ps == c.ps - FrameOf(source[p].line)
    && var at := R.Address(Pass1At(source, s0, l, source[l].file), source[l].line, d.ps);
       M.Load(d.image, M.Masked(d, at), 4) == U(v)
  }

  /**
   * Parameter j is argument j, from printed lines to printed lines: run from the first line of
   * a call that dumptree has printed, through the arguments, OP_CALL and OP_ENTER, an assembled
   * program is in the callee, and the address that the callee's line l names holds the value
   * that the caller evaluated for argument j.
   */
  lemma {:induction false} ParameterArrives(host: M.Host, source: seq<Input>, s0: State, q: nat, u: nat, k: nat,
                                            n: nat, m: nat,
                                            f: seq<D.Root>, a: T.Tree, c: M.Core, image: seq<Byte>,
                                            p: nat, e: nat, l: nat, j: nat)
    returns (d: M.Core)
    requires Compiled(source, s0) && CallPrinted(source, s0, q, u, k, n, m, f, a) && ParameterAt(source, p, e, l, j)
    requires Callable(f, a, c, image, FnOf(source, s0, p, e).start) && j < C.Passed(f)
    ensures T.WellTyped(a) && L.ProgramOk(Linked(source, s0)) && |C.ArgValues(f, c)| == C.Passed(f)
    ensures
      L.Run(L.InstrSteps(host, Linked(source, s0)), L.Running(|ProgramBefore(source, s0, k)|, c),
            |C.CallCode(f, a)| + 1)
      == L.Running(FnOf(source, s0, p, e).start + 1, d)
    ensures Receives(source, s0, p, l, c, d, C.ArgValues(f, c)[j])
  {
    hide *;
    CallablePrinted(source, s0, q, u, k, n, m, f, a, c, image, p, e, l, j);
    CallHeld(source, s0, q, u, k, n, m, f, a);
    CallPasses(source, s0, q, u, k, n, m, f, a);
    CallIs(Linked(source, s0), |ProgramBefore(source, s0, k)|, f, a, c, image, FnOf(source, s0, p, e).start);
    d := C.ParameterArrives(host, source, s0, p, e, l, |ProgramBefore(source, s0, k)|, f, a, c, image, j);
    ReceivesIs(source, s0, p, l, c, d, C.ArgValues(f, c)[j]);
  }

  lemma CallablePrinted(source: seq<Input>, s0: State, q: nat, u: nat, k: nat, n: nat, m: nat,
                        f: seq<D.Root>, a: T.Tree, c: M.Core, image: seq<Byte>, p: nat, e: nat, l: nat, j: nat)
    requires Compiled(source, s0) && CallPrinted(source, s0, q, u, k, n, m, f, a) && ParameterAt(source, p, e, l, j)
    requires Callable(f, a, c, image, FnOf(source, s0, p, e).start)
    ensures Built(source, s0) && SourceOk(source) && StateOk(s0) && Procedure(source, p, e) && p < l < e < |source|
    ensures source[p].line.Proc? && source[l].line.AddrF?
    ensures R.Constant(source[l].line.e) && R.Operand(source[l].line.e) == 4 * j
    ensures M.CoreOk(c) && C.RootsOk(f) && k <= |source|
  {
    hide Assembles, ShapedSource, InProcedure, BranchesInside, PrintedForest, Printed, Trace, C.Undisturbed,
         C.Reachable;
  }

  lemma {:induction false} CallIs(pr: L.Program, i: nat, f: seq<D.Root>, a: T.Tree, c: M.Core, image: seq<Byte>,
                                  start: nat)
    requires Callable(f, a, c, image, start) && C.Passing(f, 8) && T.WellTyped(a)
        && (forall r :: 0 <= r < |f| ==> D.RootOk(f[r]))
    requires E.HoldsAt(pr, C.CallCode(f, a), i)
    ensures C.CallAt(pr, i, f, a, c, image, start)
  {
    hide C.Undisturbed, C.Reachable, C.Passing, E.HoldsAt, C.CallCode;
  }

  lemma ReceivesIs(source: seq<Input>, s0: State, p: nat, l: nat, c: M.Core, d: M.Core, v: int)
    requires SourceOk(source) && StateOk(s0) && p < |source| && source[p].line.Proc? && l < |source|
        && source[l].line.AddrF?
    requires M.CoreOk(c) && M.CoreOk(d) && d.ps == c.ps - FrameOf(source[p].line)
    requires M.Load(d.image, M.Masked(d, R.Address(Pass1At(source, s0, l, source[l].file), source[l].line, d.ps)), 4)
        == U(v)
    ensures Receives(source, s0, p, l, c, d, v)
  {
  }

  // ----- assemble, load, run -----

  /** An error-free assembly and its loading: the image is that of the program the source stands for. */
  method BuildAndLoad(asm: Assembler.Asm, source: seq<Input>) returns (bytes: seq<Byte>, count: nat)
    requires Compiled(source, asm.View()) && asm.View().segments[DATASEG].base == 0
    modifies asm
    ensures var p := Linked(source, old(asm.View()));
      L.ProgramOk(p) && Encode(p.code) <= bytes && |bytes| == p.codeLength && count == |p.code|
  {
    hide Assembled, Assembles, ShapedSource, InProcedure;
    ghost var s0 := asm.View();
    LinkedOk(source, s0);
    asm.Assemble(source);
    bytes := asm.segment[CODESEG].image[..asm.segment[CODESEG].used];
    count := asm.instructionCount;
  }

  /** The forest printed by lines k to n of a compiled source can be run from c, and performs its stores. */
  ghost predicate Runnable(source: seq<Input>, s0: State, p: nat, e: nat, k: nat, n: nat, f: seq<D.Root>,
                           c: M.Core, image: seq<Byte>) {
    && Compiled(source, s0) && s0.segments[DATASEG].base == 0 && ForestAt(source, s0, p, e, k, n, f)
    && E.Performs(f, D.ForestCode(f), c, image)
  }

  /** pc is where the code of line n begins in the loaded program. */
  ghost predicate StandsAt(source: seq<Input>, s0: State, n: nat, pc: int) {
    && Built(source, s0) && n <= |source| && |ProgramBefore(source, s0, n)| <= |Linked(source, s0).code|
    && pc == Pointer(Linked(source, s0).code, |ProgramBefore(source, s0, n)|)
  }

  /** What running the forest takes. */
  lemma Running(source: seq<Input>, s0: State, p: nat, e: nat, k: nat, n: nat, f: seq<D.Root>, c: M.Core,
                image: seq<Byte>)
    returns (pr: L.Program)
    requires Runnable(source, s0, p, e, k, n, f, c, image)
    ensures Built(source, s0) && Compiled(source, s0) && s0.segments[DATASEG].base == 0
        && ForestAt(source, s0, p, e, k, n, f)
    ensures (forall j :: 0 <= j < |f| ==> D.RootOk(f[j])) && E.Performs(f, D.ForestCode(f), c, image)
    ensures pr == Linked(source, s0) && L.ProgramOk(pr)
        && E.HoldsAt(pr, D.ForestCode(f), |ProgramBefore(source, s0, k)|)
    ensures |ProgramBefore(source, s0, k)| + |D.ForestCode(f)| < |pr.code|
  {
    hide Assembled, Assembles, ShapedSource, InProcedure, E.Performs, BranchesInside, PrintedForest, Linked, Program,
         L.ProgramOk;
    pr := Linked(source, s0);
    ForestHeld(source, s0, p, e, k, n, f);
    LinkedOk(source, s0);
  }

  lemma ForestBuilt(source: seq<Input>, s0: State, p: nat, e: nat, k: nat, n: nat, f: seq<D.Root>)
    requires ForestAt(source, s0, p, e, k, n, f)
    ensures Built(source, s0) && n <= |source|
  {
    hide Assembles, ShapedSource, BranchesInside, PrintedForest;
  }

  lemma Stands(source: seq<Input>, s0: State, n: nat, pc: int)
    requires Built(source, s0) && n <= |source| && |ProgramBefore(source, s0, n)| <= |Linked(source, s0).code|
    requires pc == Pointer(Linked(source, s0).code, |ProgramBefore(source, s0, n)|)
    ensures StandsAt(source, s0, n, pc)
  {
  }

  lemma {:induction false} ArrivesAt(source: seq<Input>, s0: State, p: nat, e: nat, k: nat, n: nat, f: seq<D.Root>,
                                     i: nat, length: nat, pc: int)
    requires ForestAt(source, s0, p, e, k, n, f) && i == |ProgramBefore(source, s0, k)| && length == |D.ForestCode(f)|
    requires i + length <= |Linked(source, s0).code| && pc == Pointer(Linked(source, s0).code, i + length)
    ensures StandsAt(source, s0, n, pc)
  {
    hide *;
    ForestHeld(source, s0, p, e, k, n, f);
    ForestBuilt(source, s0, p, e, k, n, f);
    Stands(source, s0, n, pc);
  }

  /**
   * A source assembled, loaded and run from the first line of a forest: after the instructions
   * of the forest the interpreter stands at the line behind it, and memory is what the forest's
   * stores make of it.
   */
  method RunSource(asm: Assembler.Asm, source: seq<Input>, vm: I.Interp, host: M.Host, ghost p: nat, ghost e: nat,
                   ghost k: nat, ghost n: nat, ghost f: seq<D.Root>, ghost image: seq<Byte>, i: nat, length: nat)
    returns (status: I.Status, pc: int)
    requires vm.Valid() && Runnable(source, asm.View(), p, e, k, n, f, vm.View(), image)
    requires i == |ProgramBefore(source, asm.View(), k)| && length == |D.ForestCode(f)|
    modifies asm, vm`opStackOfs, vm`programStack, vm`breakCount, vm`r0, vm`r1, vm.opStack, vm.image
    ensures status == I.Ready && StandsAt(source, old(asm.View()), n, pc)
    ensures D.Performed(old(vm.View()), vm.View(), image)
  {
    hide *;
    ghost var s0 := asm.View();
    ghost var pr := Running(source, s0, p, e, k, n, f, vm.View(), image);
    var bytes, count := BuildAndLoad(asm, source);
    status, pc := E.RunForest(vm, host, bytes, pr, count, f, D.ForestCode(f), image, i, length);
    ArrivesAt(source, s0, p, e, k, n, f, i, length, pc);
  }
}
