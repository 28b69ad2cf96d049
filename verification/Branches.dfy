// Conditional branches: what the interpreter compares (src/vm/vm.c) is what C
// compares, and the code of a comparison branches as C says (lcc/src/bytecode.c).

module Branches {
  import opened Words
  import opened Bytecode
  import opened Machine
  import opened Lockstep
  import opened Comparisons
  import opened Trees
  import opened Dumptree
  import E = EndToEnd

  /** The opcode q3asm has for a comparison of lcc's, by the type of the operands. */
  function BranchOp(rel: Rel, signed: bool): (op: int)
    ensures IsBranch(op)
  {
    match rel
    case EQ => OP_EQ
    case NE => OP_NE
    case LT => if signed then OP_LTI else OP_LTU
    case LE => if signed then OP_LEI else OP_LEU
    case GT => if signed then OP_GTI else OP_GTU
    case GE => if signed then OP_GEI else OP_GEU
  }

  /** The interpreter compares the words of x and y as C compares x and y, for every comparison. */
  lemma CompareCorrect(host: Host, rel: Rel, ty: Ty, x: int, y: int)
    requires (ty == I4 || ty == U4) && InType(ty, x) && InType(ty, y)
    ensures Compare(host, BranchOp(rel, ty.signed), Wrap(x), Wrap(y)) <==> Holds(rel, x, y)
  {
    WrapOfU(x);
    WrapOfU(y);
  }

  // ----- the code of a comparison -----

  /** Two words of type I4 or U4, compared with a branch to an instruction. */
  predicate ComparisonOk(l: Tree, r: Tree) {
    WellTyped(l) && WellTyped(r) && TypeOf(l) == TypeOf(r) && (TypeOf(l) == I4 || TypeOf(l) == U4)
  }

  function ComparisonCode(rel: Rel, l: Tree, r: Tree, target: Word): seq<Instr>
    requires ComparisonOk(l, r)
  {
    Code(l) + Code(r) + [Instr(BranchOp(rel, TypeOf(l).signed), target)]
  }

  lemma BranchTaken(host: Host, op: int, target: Word, ret: int, c: Core, c1: Core, c2: Core, w1: Word, w2: Word)
    requires IsBranch(op) && Pushed(c, c1, w1) && Pushed(c1, c2, w2)
    ensures
      var r := Effect(host, op, target, ret, c2);
      && r.1 == (if Compare(host, op, w1, w2) then Taken else Next)
      && Performed(c, r.0, c.image)
  {
    hide Compare;
  }

  /** A branch goes to its operand or to the next instruction. */
  lemma BranchStep(host: Host, p: Program, j: nat, c: Core, c1: Core, c2: Core, w1: Word, w2: Word)
    requires ProgramOk(p) && j + 1 < |p.code| && IsBranch(p.code[j].op) && Pushed(c, c1, w1) && Pushed(c1, c2, w2)
    ensures
      var o := InstrStep(host, p, j, c2);
      && o.Running? && Performed(c, o.core, c.image)
      && o.pc == if Compare(host, p.code[j].op, w1, w2) then p.code[j].arg else j + 1
  {
    hide Effect, Compare;
    assert WellFormed(p.code[j]);
    BranchTaken(host, p.code[j].op, p.code[j].arg, Pointer(p.code, j) + 1, c, c1, c2, w1, w2);
  }

  /**
   * The code of a comparison, standing in a program: it goes to the branch's operand exactly if
   * the comparison holds of the values of the trees, otherwise on to what follows; memory, the
   * frame and the operand stack are as they were.
   */
  lemma {:induction false} ComparisonCorrect(host: Host, p: Program, i: nat, rel: Rel, l: Tree, r: Tree, target: Word,
                                             c: Core)
    returns (c': Core)
    requires ProgramOk(p) && ComparisonOk(l, r) && E.HoldsAt(p, ComparisonCode(rel, l, r, target), i)
    requires CoreOk(c) && CleanAt(l, c) && CleanAt(r, c) && Eval(l, c).Some? && Eval(r, c).Some?
    requires c.top + Need(l) < OPSTACK && c.top + 1 + Need(r) < OPSTACK
    ensures Performed(c, c', c.image)
    ensures
      var n := |ComparisonCode(rel, l, r, target)|;
      Run(InstrSteps(host, p), Running(i, c), n)
      == Running(if Holds(rel, Eval(l, c).value, Eval(r, c).value) then target else i + n, c')
  {
    hide Effect, InstrStep, Eval, CleanAt, Code, WellTyped, Compare, RunCode, Pushed, StandsFor, Performed;
    var x, y, ty := Eval(l, c).value, Eval(r, c).value, TypeOf(l);
    var operands, branch := Code(l) + Code(r), Instr(BranchOp(rel, ty.signed), target);
    var c1, c2 := TwoOperands(host, l, r, c);
    InCode(p, operands, branch, i);
    E.CodeInProgram(host, p, operands, i, c);
    EvalInType(l, c);
    EvalInType(r, c);
    ExactWords(l, c1.stack[c1.top], x);
    ExactWords(r, c2.stack[c2.top], y);
    CompareCorrect(host, rel, ty, x, y);
    BranchStep(host, p, i + |operands|, c, c1, c2, Wrap(x), Wrap(y));
    var o := InstrStep(host, p, i + |operands|, c2);
    c' := o.core;
    OneMore(InstrSteps(host, p), Running(i, c), |operands|, Running(i + |operands|, c2));
  }

  /** A jump goes to the instruction whose number has been pushed. */
  lemma JumpStep(host: Host, p: Program, j: nat, c: Core, c1: Core, w: Word)
    requires ProgramOk(p) && j < |p.code| && p.code[j].op == OP_JUMP && Pushed(c, c1, w) && 0 <= w < |p.code|
    ensures
      var o := InstrStep(host, p, j, c1);
      o.Running? && o.pc == w && Performed(c, o.core, c.image)
  {
    hide Compare, Load, Store, BlockCopied, SystemEffect, CallEffect, LeaveEffect, Unary, Binary, Pointer;
    assert WellFormed(p.code[j]);
  }

  /** The code of a computed jump: it goes to the instruction that the tree evaluates to, as switch tables do. */
  lemma {:induction false} JumpCorrect(host: Host, p: Program, i: nat, t: Tree, c: Core) returns (c': Core)
    requires ProgramOk(p) && WellTyped(t) && TypeOf(t).size == 4 && E.HoldsAt(p, Code(t) + [Instr(OP_JUMP, 0)], i)
    requires CoreOk(c) && CleanAt(t, c) && Eval(t, c).Some? && c.top + Need(t) < OPSTACK
    requires 0 <= Eval(t, c).value < |p.code| && Fits(Eval(t, c).value)
    ensures Performed(c, c', c.image)
    ensures Run(InstrSteps(host, p), Running(i, c), |Code(t)| + 1) == Running(Eval(t, c).value, c')
  {
    hide Effect, InstrStep, Eval, CleanAt, Code, WellTyped, RunCode, Pushed, StandsFor, Performed;
    var k := Eval(t, c).value;
    CodeFits(t);
    CodeCorrect(host, t, c);
    var c1 := RunCode(host, Code(t), c).value;
    InCode(p, Code(t), Instr(OP_JUMP, 0), i);
    E.CodeInProgram(host, p, Code(t), i, c);
    ExactWords(t, c1.stack[c1.top], k);
    WrapOfU(k);
    JumpStep(host, p, i + |Code(t)|, c, c1, k);
    c' := InstrStep(host, p, i + |Code(t)|, c1).core;
    OneMore(InstrSteps(host, p), Running(i, c), |Code(t)|, Running(i + |Code(t)|, c1));
  }

  lemma {:induction false} ExactWords(t: Tree, w: Word, v: int)
    requires WellTyped(t) && TypeOf(t).size == 4 && StandsFor(t, w, v)
    ensures w == Wrap(v)
  {
  }

  lemma InCode(p: Program, part: seq<Instr>, last: Instr, i: nat)
    requires E.HoldsAt(p, part + [last], i)
    ensures i + |part| + 1 < |p.code| && p.code[i..i + |part|] == part && p.code[i + |part|] == last
  {
    var t := p.code[i..i + |part| + 1];
    assert p.code[i..i + |part|] == t[..|part|];
    assert p.code[i + |part|] == t[|part|];
  }

  lemma {:induction false} OneMore(step: (int, Core) -> Outcome, o: Outcome, n: nat, o': Outcome)
    requires Run(step, o, n) == o' && o'.Running?
    ensures Run(step, o, n + 1) == step(o'.pc, o'.core)
    decreases n
  {
    if n > 0 {
      if o.Running? {
        OneMore(step, step(o.pc, o.core), n - 1, o');
      }
    } else {
      assert Run(step, step(o.pc, o.core), 0) == step(o.pc, o.core);
    }
  }
}
