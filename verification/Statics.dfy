// Jumps to labels and calls of functions by name, as lcc prints them: the operand is
// the constant pushed just before, so that no run can make them go astray.

module Statics {
  import opened Words
  import opened Bytecode
  import opened Machine
  import opened Lockstep
  import opened Frames

  /** A jump or a call whose operand is the constant of the instruction before it. */
  predicate StaticAt(p: Program, i: int) {
    && 0 < i < |p.code| && (p.code[i].op == OP_JUMP || p.code[i].op == OP_CALL)
    && p.code[i - 1].op == OP_CONST
  }

  /** Such a jump stays in its function, such a call is of a function, and nothing else leads to them. */
  ghost predicate StaticOk(p: Program, table: set<Fn>, f: Fn, i: nat)
    requires 0 < i < |p.code|
  {
    && (StaticAt(p, i) && p.code[i].op == OP_JUMP ==>
          f.start < p.code[i - 1].arg < f.end && !StaticAt(p, p.code[i - 1].arg))
    && (StaticAt(p, i) && p.code[i].op == OP_CALL && p.code[i - 1].arg >= 0 ==> FnAt(table, p.code[i - 1].arg).Some?)
    && (IsBranch(p.code[i].op) ==> !StaticAt(p, p.code[i].arg))
  }

  ghost predicate StaticsOk(p: Program, table: set<Fn>) {
    forall f, i :: f in table && f.start < i < f.end && i < |p.code| ==> StaticOk(p, table, f, i)
  }

  /**
   * What a step must not do: store over the saved words, return from the host without the
   * return word, or, by a jump or call that is computed, go where control does not belong.
   */
  ghost predicate Tame(p: Program, table: set<Fn>, stack: seq<Activation>, i: nat, c: Core, o: Outcome)
    requires i < |p.code| && stack != [] && CoreOk(c)
  {
    var op, f := p.code[i].op, stack[|stack| - 1].fn;
    o.Running? ==>
      && (IsStore(op) ==> Intact(stack, c.image, o.core.image))
      && (op == OP_JUMP && !StaticAt(p, i) ==> f.start < o.pc < f.end && !StaticAt(p, o.pc))
      && (op == OP_CALL && !StaticAt(p, i) && Machine.At(c, 0) >= 0 ==> FnAt(table, o.pc).Some?)
      && (op == OP_CALL && Machine.At(c, 0) < 0 ==>
            Intact(stack, c.image, o.core.image) && InImage(o.core, c.ps)
            && Wrap(Load(o.core.image, c.ps, 4)) == Pointer(p.code, i) + 1)
  }

  /** The next n steps from o are tame. */
  ghost predicate TameRun(host: Host, p: Program, table: set<Fn>, stack: seq<Activation>, o: Outcome, n: nat)
    requires ProgramOk(p)
    decreases n
  {
    n > 0 && o.Running? ==>
      && 0 <= o.pc < |p.code| && CoreOk(o.core) && stack != []
      && var o' := InstrStep(host, p, o.pc, o.core);
         Tame(p, table, stack, o.pc, o.core, o')
         && TameRun(host, p, table, NextStack(p, table, stack, o.pc, o.core, o'), o', n - 1)
  }

  /** The constant is on top, and no activation returns to a static jump or call. */
  ghost predicate Ready(p: Program, stack: seq<Activation>, i: int, c: Core) {
    && (StaticAt(p, i) ==> CoreOk(c) && Machine.At(c, 0) == p.code[i - 1].arg)
    && (forall k :: 0 < k < |stack| ==> !StaticAt(p, stack[k].ret))
  }

  // ----- where control goes -----

  lemma PlainGoes(host: Host, p: Program, i: nat, c: Core)
    requires ProgramOk(p) && CoreOk(c) && i < |p.code| && p.code[i].op != OP_CALL && p.code[i].op != OP_LEAVE
    ensures
      var o := InstrStep(host, p, i, c);
      o.Running? ==>
        || (o.pc == i + 1 && (p.code[i].op == OP_CONST ==> CoreOk(o.core) && Machine.At(o.core, 0) == p.code[i].arg))
        || (IsBranch(p.code[i].op) && o.pc == p.code[i].arg)
        || (p.code[i].op == OP_JUMP && o.pc == Machine.At(c, 0))
  {
    hide Load, Value, Bytes, Unary, Binary, Masked, BlockCopied, Store, Compare, CallEffect, LeaveEffect;
    var one, ret := p.code[i], Pointer(p.code, i) + 1;
    assert WellFormed(one);
    PlainControl(host, one.op, one.arg, ret, c);
  }

  /** A jump goes nowhere but to the word on top. */
  lemma JumpGoes(host: Host, p: Program, i: nat, c: Core)
    requires ProgramOk(p) && CoreOk(c) && i < |p.code| && p.code[i].op == OP_JUMP
    ensures var o := InstrStep(host, p, i, c); o.Running? ==> o.pc == Machine.At(c, 0)
  {
    assert WellFormed(p.code[i]);
  }

  lemma CallGoes(host: Host, p: Program, i: nat, c: Core)
    requires ProgramOk(p) && CoreOk(c) && i < |p.code| && p.code[i].op == OP_CALL && Machine.At(c, 0) >= 0
    ensures var o := InstrStep(host, p, i, c); o.Running? ==> o.pc == Machine.At(c, 0)
  {
    hide Load, Store;
    assert WellFormed(p.code[i]);
  }

  // ----- tame steps are polite -----

  /** The current function is one of the table, and i inside it. */
  lemma InsideFn(p: Program, table: set<Fn>, stack: seq<Activation>, i: nat, c: Core)
    requires TableOk(p, table) && Inv(p, table, stack, i, c) && i < |p.code|
    ensures CoreOk(c) && stack != []
    ensures var f := stack[|stack| - 1].fn; f in table && f.start <= i < f.end <= |p.code| && FnOk(p, f)
  {
    hide Load;
    assert FnOk(p, stack[|stack| - 1].fn);
  }

  lemma StepPolite(host: Host, p: Program, table: set<Fn>, stack: seq<Activation>, i: nat, c: Core)
    requires TableOk(p, table) && StaticsOk(p, table) && Inv(p, table, stack, i, c) && i < |p.code|
    requires Ready(p, stack, i, c) && CoreOk(c) && stack != [] && Tame(p, table, stack, i, c, InstrStep(host, p, i, c))
    ensures Polite(p, table, stack, i, c, InstrStep(host, p, i, c))
  {
    hide InstrStep, Load, Intact, Inv, Pointer;
    InsideFn(p, table, stack, i, c);
    var f := stack[|stack| - 1].fn;
    if StaticAt(p, i) {
      assert i != f.start && StaticOk(p, table, f, i);
      if p.code[i].op == OP_JUMP {
        JumpGoes(host, p, i, c);
      } else if Machine.At(c, 0) >= 0 {
        CallGoes(host, p, i, c);
      }
    }
  }

  lemma PlainReady(host: Host, p: Program, table: set<Fn>, stack: seq<Activation>, i: nat, c: Core)
    requires TableOk(p, table) && StaticsOk(p, table) && Inv(p, table, stack, i, c) && i < |p.code|
    requires Ready(p, stack, i, c) && CoreOk(c) && stack != [] && Tame(p, table, stack, i, c, InstrStep(host, p, i, c))
    requires p.code[i].op != OP_CALL && p.code[i].op != OP_LEAVE
    ensures var o := InstrStep(host, p, i, c); o.Running? ==> Ready(p, stack, o.pc, o.core)
  {
    hide InstrStep, Load, Intact, Inv, Pointer;
    InsideFn(p, table, stack, i, c);
    var f := stack[|stack| - 1].fn;
    PlainGoes(host, p, i, c);
    if i > f.start { assert StaticOk(p, table, f, i); }
    if p.code[i].op == OP_JUMP { JumpGoes(host, p, i, c); }
  }

  lemma StepReady(host: Host, p: Program, table: set<Fn>, stack: seq<Activation>, i: nat, c: Core)
    requires TableOk(p, table) && StaticsOk(p, table) && Inv(p, table, stack, i, c) && i < |p.code|
    requires Ready(p, stack, i, c) && CoreOk(c) && stack != [] && Tame(p, table, stack, i, c, InstrStep(host, p, i, c))
    ensures
      var o := InstrStep(host, p, i, c);
      o.Running? ==> Ready(p, NextStack(p, table, stack, i, c, o), o.pc, o.core)
  {
    hide InstrStep, Load, Intact, Inv, Pointer, StaticsOk, Tame;
    StepPolite(host, p, table, stack, i, c);
    if p.code[i].op == OP_LEAVE {
      LeaveStep(host, p, table, stack, i, c);
    } else if p.code[i].op != OP_CALL {
      PlainReady(host, p, table, stack, i, c);
    } else if Machine.At(c, 0) >= 0 {
      CallStep(host, p, table, stack, i, c);
      var o := InstrStep(host, p, i, c);
      if o.Running? { assert FnOk(p, FnAt(table, o.pc).value); }
    } else {
      SystemStep(host, p, table, stack, i, c);
    }
  }

  /** Every tame run is polite. */
  lemma {:induction false} TameIsPolite(host: Host, p: Program, table: set<Fn>, stack: seq<Activation>, o: Outcome,
                                        n: nat)
    requires TableOk(p, table) && StaticsOk(p, table) && TameRun(host, p, table, stack, o, n)
    requires o.Running? && Inv(p, table, stack, o.pc, o.core) && Ready(p, stack, o.pc, o.core)
    ensures PoliteRun(host, p, table, stack, o, n)
    decreases n
  {
    hide InstrStep, Inv, NextStack, Polite, Tame, Ready, StaticsOk;
    if n > 0 {
      var o' := InstrStep(host, p, o.pc, o.core);
      StepPolite(host, p, table, stack, o.pc, o.core);
      StepReady(host, p, table, stack, o.pc, o.core);
      StepKeeps(host, p, table, stack, o.pc, o.core);
      if o'.Running? {
        TameIsPolite(host, p, table, NextStack(p, table, stack, o.pc, o.core, o'), o', n - 1);
      }
    }
  }
}
