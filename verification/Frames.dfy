// The call protocol of assembled functions: the prologue, calls, returns and
// frames that q3asm/q3asm.c lays out and VM_CallInterpreted (src/vm/vm.c) runs.

module Frames {
  import opened Words
  import opened Bytecode
  import opened Loader
  import opened Machine
  import opened Lockstep

  /** An assembled function: its instructions, from ENTER to the LEAVE of endproc, and its frame size. */
  datatype Fn = Fn(start: nat, end: nat, frame: nat)

  /** Instructions between the prologue and the end. */
  predicate InsideOk(i: Instr, f: Fn) {
    && i.op != OP_ENTER
    && (i.op == OP_LEAVE ==> i.arg == f.frame)
    && (IsBranch(i.op) ==> f.start < i.arg < f.end)
  }

  ghost predicate FnOk(p: Program, f: Fn) {
    && f.start + 1 < f.end <= |p.code| && 8 <= f.frame < TWO31
    && p.code[f.start] == Instr(OP_ENTER, f.frame)
    && p.code[f.end - 1].op == OP_LEAVE
    && (forall i :: f.start < i < f.end ==> InsideOk(p.code[i], f))
  }

  ghost predicate TableOk(p: Program, table: set<Fn>) {
    ProgramOk(p) && forall f :: f in table ==> FnOk(p, f)
  }

  /** A function that has been entered: where it returns to, -1 for leaving the VM, and its caller's programStack. */
  datatype Activation = Activation(fn: Fn, ret: int, base: int)

  function SavedWord(p: Program, a: Activation): int
    requires a.ret == -1 || 0 <= a.ret <= |p.code|
  {
    if a.ret == -1 then -1 else Pointer(p.code, a.ret)
  }

  /** The word at base is the return word of the activation. */
  ghost predicate Saved(p: Program, image: seq<Byte>, a: Activation) {
    && (a.ret == -1 || 0 <= a.ret <= |p.code|) && 0 <= a.base && a.base + 4 <= |image|
    && Wrap(Load(image, a.base, 4)) == SavedWord(p, a)
  }

  /** Each activation lies below its caller's frame and returns into its caller. */
  ghost predicate Linked(caller: Activation, a: Activation) {
    && a.base == caller.base - caller.fn.frame
    && caller.fn.start < a.ret < caller.fn.end
  }

  /** The activations that are running at instruction i, the current one last. */
  ghost predicate Inv(p: Program, table: set<Fn>, stack: seq<Activation>, i: int, c: Core)
    requires ProgramOk(p)
  {
    && stack != [] && stack[0].ret == -1
    && (forall k :: 0 <= k < |stack| ==> stack[k].fn in table && Saved(p, c.image, stack[k]))
    && (forall k :: 0 < k < |stack| ==> Linked(stack[k - 1], stack[k]))
    && Within(stack[|stack| - 1], i, c)
  }

  ghost predicate Within(a: Activation, i: int, c: Core) {
    && CoreOk(c) && a.fn.start <= i < a.fn.end
    && c.ps == if i == a.fn.start then a.base else a.base - a.fn.frame
  }

  predicate IsStore(op: int) {
    OP_STORE1 <= op <= OP_ARG || op == OP_BLOCK_COPY
  }

  /** The words saved by the running activations are the same in both images. */
  ghost predicate Intact(stack: seq<Activation>, image: seq<Byte>, image': seq<Byte>) {
    |image'| == |image| && forall k :: 0 <= k < |stack| ==> SameWord(stack[k].base, image, image')
  }

  ghost predicate SameWord(a: int, image: seq<Byte>, image': seq<Byte>) {
    0 <= a && a + 4 <= |image| == |image'| ==> Load(image', a, 4) == Load(image, a, 4)
  }

  ghost function FnAt(table: set<Fn>, i: int): (f: Option<Fn>)
    ensures f.Some? ==> f.value in table && f.value.start == i
  {
    if exists f :: f in table && f.start == i then (var f :| f in table && f.start == i; Some(f)) else None
  }

  /**
   * What a step must not do: store over the saved words, jump through a word out of the
   * function, call what is no function, or return from the host without the return word.
   */
  ghost predicate Polite(p: Program, table: set<Fn>, stack: seq<Activation>, i: nat, c: Core, o: Outcome)
    requires i < |p.code| && stack != [] && CoreOk(c)
  {
    var op, f := p.code[i].op, stack[|stack| - 1].fn;
    o.Running? ==>
      && (IsStore(op) ==> Intact(stack, c.image, o.core.image))
      && (op == OP_JUMP ==> f.start < o.pc < f.end)
      && (op == OP_CALL && Machine.At(c, 0) >= 0 ==> FnAt(table, o.pc).Some?)
      && (op == OP_CALL && Machine.At(c, 0) < 0 ==>
            Intact(stack, c.image, o.core.image) && InImage(o.core, c.ps)
            && Wrap(Load(o.core.image, c.ps, 4)) == Pointer(p.code, i) + 1)
  }

  /** The activations after a step. */
  ghost function NextStack(p: Program, table: set<Fn>, stack: seq<Activation>, i: nat, c: Core,
                           o: Outcome): seq<Activation>
    requires i < |p.code| && stack != [] && CoreOk(c)
  {
    var op := p.code[i].op;
    if op == OP_LEAVE then stack[..|stack| - 1]
    else if op == OP_CALL && Machine.At(c, 0) >= 0 && o.Running? && FnAt(table, o.pc).Some?
    then stack + [Activation(FnAt(table, o.pc).value, i + 1, c.ps)]
    else stack
  }

  // ----- what instructions leave alone -----

  lemma EffectKeeps(host: Host, op: int, arg: Word, ret: int, c: Core)
    requires CoreOk(c)
    ensures
      var (c', ctl) := Effect(host, op, arg, ret, c);
      && (op != OP_ENTER && op != OP_LEAVE ==> c'.ps == c.ps)
      && (!IsStore(op) && op != OP_CALL ==> c'.image == c.image)
  {
    hide Load, Value, Bytes, Unary, Binary, Masked, Store, Compare;
    if op == OP_CALL { CallKeeps(host, ret, c); }
  }

  lemma CallKeeps(host: Host, ret: int, c: Core)
    requires CoreOk(c)
    ensures CallEffect(host, ret, c).0.ps == c.ps
  {
  }

  /** Where the instructions that are no calls, returns or prologues lead. */
  lemma PlainControl(host: Host, op: int, arg: Word, ret: int, c: Core)
    requires CoreOk(c) && op != OP_CALL && op != OP_LEAVE
    ensures
      var ctl := Effect(host, op, arg, ret, c).1;
      && !ctl.Return? && !ctl.Resume? && (ctl.Jump? ==> op == OP_JUMP) && (ctl.Taken? ==> IsBranch(op))
  {
    hide Load, Value, Bytes, Unary, Binary, Masked, BlockCopied, Store, Compare;
  }

  lemma SameImageIntact(stack: seq<Activation>, image: seq<Byte>)
    ensures Intact(stack, image, image)
  {
  }

  lemma StackKept(p: Program, table: set<Fn>, stack: seq<Activation>, image: seq<Byte>, image': seq<Byte>)
    requires ProgramOk(p) && Intact(stack, image, image')
    requires forall k :: 0 <= k < |stack| ==> stack[k].fn in table && Saved(p, image, stack[k])
    ensures forall k :: 0 <= k < |stack| ==> stack[k].fn in table && Saved(p, image', stack[k])
  {
  }

  // ----- steps -----

  /** A step inside a function: no call, no return. */
  lemma PlainStep(host: Host, p: Program, table: set<Fn>, stack: seq<Activation>, i: nat, c: Core)
    requires TableOk(p, table) && Inv(p, table, stack, i, c) && i < |p.code|
    requires p.code[i].op != OP_CALL && p.code[i].op != OP_LEAVE
    requires Polite(p, table, stack, i, c, InstrStep(host, p, i, c))
    ensures
      match InstrStep(host, p, i, c)
      case Running(i', c') => Inv(p, table, stack, i', c')
      case Halted(_) => false
      case _ => true
  {
    assert CoreOk(c) && Saved(p, c.image, stack[|stack| - 1]) && Within(stack[|stack| - 1], i, c);
    assert 0 <= stack[|stack| - 1].base < TWO31;
    hide Effect, Load, Saved, Linked, Within, InstrAt;
    var one, f, o := p.code[i], stack[|stack| - 1].fn, InstrStep(host, p, i, c);
    assert WellFormed(one) && FnOk(p, f);
    var ret := Pointer(p.code, i) + 1;
    PlainControl(host, one.op, one.arg, ret, c);
    EffectKeeps(host, one.op, one.arg, ret, c);
    if o.Running? {
      if !IsStore(one.op) { SameImageIntact(stack, c.image); }
      StackKept(p, table, stack, c.image, o.core.image);
      PlainWithin(host, p, f, stack[|stack| - 1], i, c);
    }
  }

  lemma PlainWithin(host: Host, p: Program, f: Fn, a: Activation, i: nat, c: Core)
    requires ProgramOk(p) && FnOk(p, f) && a.fn == f && Within(a, i, c) && 0 <= a.base < TWO31
    requires p.code[i].op != OP_CALL && p.code[i].op != OP_LEAVE
    requires
      var o := InstrStep(host, p, i, c);
      o.Running? && (p.code[i].op == OP_JUMP ==> f.start < o.pc < f.end)
    ensures
      var o := InstrStep(host, p, i, c);
      Within(a, o.pc, o.core)
  {
    hide Load, Value, Bytes, Unary, Binary, Masked, BlockCopied, Store, Compare, CallEffect, LeaveEffect;
    var one, ret := p.code[i], Pointer(p.code, i) + 1;
    assert WellFormed(one);
    PlainControl(host, one.op, one.arg, ret, c);
    EffectKeeps(host, one.op, one.arg, ret, c);
    if i > f.start { assert InsideOk(one, f); }
  }

  lemma {:induction false} PointerInjective(code: seq<Instr>, j: nat, k: nat)
    requires j < |code| && k < |code| && Pointer(code, j) == Pointer(code, k)
    ensures j == k
  {
    if j < k { PointersIncrease(code, j, k); }
    if k < j { PointersIncrease(code, k, j); }
  }

  /** The instruction a saved word names. */
  lemma {:induction false} InstrAtOf(code: seq<Instr>, j: nat, k: nat)
    requires j < k <= |code|
    ensures InstrAt(code, Pointer(code, j), k) == Some(j)
    decreases k
  {
    if Pointer(code, k - 1) == Pointer(code, j) {
      PointerInjective(code, j, k - 1);
    } else {
      InstrAtOf(code, j, k - 1);
    }
  }

  /** The word after OP_CALL is where the next instruction starts. */
  lemma {:induction false} CallPointer(p: Program, i: nat)
    requires ProgramOk(p) && i + 1 < |p.code| && p.code[i].op == OP_CALL
    ensures Pointer(p.code, i) + 1 == Pointer(p.code, i + 1) < p.codeLength
  {
    PointerStep(p.code, i);
    PointersIncrease(p.code, i + 1, |p.code|);
    assert p.code[..|p.code|] == p.code;
  }

  /** Every activation lies at least a header above the frame of the current one. */
  lemma {:induction false} FramesAbove(p: Program, table: set<Fn>, stack: seq<Activation>, k: nat)
    requires TableOk(p, table) && k < |stack|
    requires forall k :: 0 <= k < |stack| ==> stack[k].fn in table
    requires forall k :: 0 < k < |stack| ==> Linked(stack[k - 1], stack[k])
    ensures stack[k].base >= stack[|stack| - 1].base
    decreases |stack| - k
  {
    if k + 1 < |stack| {
      FramesAbove(p, table, stack, k + 1);
      assert Linked(stack[k], stack[k + 1]) && FnOk(p, stack[k].fn);
    }
  }

  /** The return word of a call goes below every word saved so far. */
  lemma CallStoreIntact(p: Program, table: set<Fn>, stack: seq<Activation>, image: seq<Byte>, ps: int, ret: int)
    requires TableOk(p, table) && stack != [] && 0 <= ps && ps + 4 <= |image|
    requires forall k :: 0 <= k < |stack| ==> stack[k].fn in table
    requires forall k :: 0 < k < |stack| ==> Linked(stack[k - 1], stack[k])
    requires ps == stack[|stack| - 1].base - stack[|stack| - 1].fn.frame
    ensures Intact(stack, image, Store(image, ps, ret, 4))
  {
    assert FnOk(p, stack[|stack| - 1].fn);
    forall k | 0 <= k < |stack| ensures SameWord(stack[k].base, image, Store(image, ps, ret, 4)) {
      FramesAbove(p, table, stack, k);
      if stack[k].base + 4 <= |image| { StoreApart(image, ps, ret, stack[k].base); }
    }
  }

  lemma CallOutcome(host: Host, p: Program, i: nat, c: Core)
    requires ProgramOk(p) && CoreOk(c) && i < |p.code| && p.code[i].op == OP_CALL && Machine.At(c, 0) >= 0
    ensures
      match InstrStep(host, p, i, c)
      case Running(_, c') =>
        && InImage(c, c.ps) && CoreOk(c') && c'.ps == c.ps
        && c'.image == Store(c.image, c.ps, Pointer(p.code, i) + 1, 4)
      case Halted(_) => false
      case _ => true
  {
    hide Load, Store;
    assert WellFormed(p.code[i]);
  }

  /** The activation of the function called. */
  lemma CalleeEntered(p: Program, a: Activation, i: nat, c: Core, c': Core, f: Fn)
    requires ProgramOk(p) && FnOk(p, a.fn) && FnOk(p, f) && Within(a, i, c) && p.code[i].op == OP_CALL
    requires InImage(c, c.ps) && CoreOk(c') && c'.ps == c.ps
    requires c'.image == Store(c.image, c.ps, Pointer(p.code, i) + 1, 4)
    ensures i != a.fn.start
    ensures
      var b := Activation(f, i + 1, c.ps);
      Saved(p, c'.image, b) && Linked(a, b) && Within(b, f.start, c')
  {
    hide Load, Store, Pointer;
    assert i != a.fn.start && i != a.fn.end - 1;
    CallPointer(p, i);
    StoreThenLoad(c.image, c.ps, Pointer(p.code, i + 1));
  }

  /** Storing the return word and entering the function called keeps the protocol. */
  lemma CallPushes(p: Program, table: set<Fn>, stack: seq<Activation>, i: nat, c: Core, c': Core, f: Fn)
    requires TableOk(p, table) && Inv(p, table, stack, i, c) && i < |p.code| && p.code[i].op == OP_CALL
    requires InImage(c, c.ps) && CoreOk(c') && c'.ps == c.ps && f in table
    requires c'.image == Store(c.image, c.ps, Pointer(p.code, i) + 1, 4)
    ensures Inv(p, table, stack + [Activation(f, i + 1, c.ps)], f.start, c')
  {
    hide Load, Store, Pointer, Saved, Linked;
    var a, b := stack[|stack| - 1], Activation(f, i + 1, c.ps);
    assert FnOk(p, a.fn) && FnOk(p, f);
    CalleeEntered(p, a, i, c, c', f);
    CallStoreIntact(p, table, stack, c.image, c.ps, Pointer(p.code, i) + 1);
    StackKept(p, table, stack, c.image, c'.image);
    InvPushed(p, table, stack, b, f.start, c');
  }

  /** A call of a function pushes its activation. */
  lemma CallStep(host: Host, p: Program, table: set<Fn>, stack: seq<Activation>, i: nat, c: Core)
    requires TableOk(p, table) && Inv(p, table, stack, i, c) && i < |p.code|
    requires p.code[i].op == OP_CALL && CoreOk(c) && Machine.At(c, 0) >= 0
    requires Polite(p, table, stack, i, c, InstrStep(host, p, i, c))
    ensures
      var o := InstrStep(host, p, i, c);
      match o
      case Running(i', c') =>
        && c'.ps == c.ps && Inv(p, table, NextStack(p, table, stack, i, c, o), i', c')
        && NextStack(p, table, stack, i, c, o) == stack + [Activation(FnAt(table, i').value, i + 1, c.ps)]
      case Halted(_) => false
      case _ => true
  {
    hide Load, Store, InstrStep, Effect, Inv;
    var o := InstrStep(host, p, i, c);
    CallOutcome(host, p, i, c);
    if o.Running? {
      CallPushes(p, table, stack, i, c, o.core, FnAt(table, o.pc).value);
    }
  }

  lemma InvPushed(p: Program, table: set<Fn>, stack: seq<Activation>, b: Activation, i: int, c: Core)
    requires TableOk(p, table) && stack != [] && stack[0].ret == -1
    requires forall k :: 0 <= k < |stack| ==> stack[k].fn in table && Saved(p, c.image, stack[k])
    requires forall k :: 0 < k < |stack| ==> Linked(stack[k - 1], stack[k])
    requires b.fn in table && Saved(p, c.image, b) && Linked(stack[|stack| - 1], b) && Within(b, i, c)
    ensures Inv(p, table, stack + [b], i, c)
  {
    hide Load, Within;
  }

  lemma SystemOutcome(host: Host, p: Program, i: nat, c: Core)
    requires ProgramOk(p) && CoreOk(c) && i < |p.code| && p.code[i].op == OP_CALL && Machine.At(c, 0) < 0
    ensures
      match InstrStep(host, p, i, c)
      case Running(_, c') => CoreOk(c') && c'.ps == c.ps
      case Halted(_) => false
      case _ => true
  {
    hide Load, Store, InstrAt;
    assert WellFormed(p.code[i]);
  }

  lemma CallInside(p: Program, f: Fn, i: nat)
    requires ProgramOk(p) && FnOk(p, f) && f.start <= i < f.end && p.code[i].op == OP_CALL
    ensures f.start < i && i + 1 < f.end
  {
  }

  /** The word that OP_CALL resumes at is the one the host leaves at programStack. */
  lemma SystemResumes(host: Host, p: Program, i: nat, c: Core, c': Core)
    requires ProgramOk(p) && CoreOk(c) && i < |p.code| && p.code[i].op == OP_CALL && Machine.At(c, 0) < 0
    requires InstrStep(host, p, i, c).Running? && InstrStep(host, p, i, c).core == c' && InImage(c', c.ps)
    ensures
      InstrStep(host, p, i, c) == Arrive(p.code, Wrap(Load(c'.image, c.ps, 4)), c')
  {
    hide Load, Store, InstrAt;
  }

  /** A system call that leaves the return word alone comes back to the next instruction. */
  lemma SystemArrives(host: Host, p: Program, i: nat, c: Core)
    requires ProgramOk(p) && CoreOk(c) && i + 1 < |p.code| && p.code[i].op == OP_CALL && Machine.At(c, 0) < 0
    requires
      var o := InstrStep(host, p, i, c);
      o.Running? && CoreOk(o.core) && InImage(o.core, c.ps)
          && Wrap(Load(o.core.image, c.ps, 4)) == Pointer(p.code, i) + 1
    ensures InstrStep(host, p, i, c).pc == i + 1
  {
    hide Load, Store, InstrStep, Effect, InstrAt, WellFormed, AllWellFormed;
    CallPointer(p, i);
    SystemResumes(host, p, i, c, InstrStep(host, p, i, c).core);
    InstrAtOf(p.code, i + 1, |p.code|);
  }

  /** A system call comes back to the next instruction of its caller. */
  lemma SystemStep(host: Host, p: Program, table: set<Fn>, stack: seq<Activation>, i: nat, c: Core)
    requires TableOk(p, table) && Inv(p, table, stack, i, c) && i < |p.code|
    requires p.code[i].op == OP_CALL && Machine.At(c, 0) < 0
    requires Polite(p, table, stack, i, c, InstrStep(host, p, i, c))
    ensures
      match InstrStep(host, p, i, c)
      case Running(i', c') => i' == i + 1 && c'.ps == c.ps && Inv(p, table, stack, i', c')
      case Halted(_) => false
      case _ => true
  {
    hide Load, Store, InstrStep, Effect, Saved, Linked, WellFormed, AllWellFormed, Pointer;
    var a, o := stack[|stack| - 1], InstrStep(host, p, i, c);
    assert FnOk(p, a.fn);
    CallInside(p, a.fn, i);
    SystemOutcome(host, p, i, c);
    if o.Running? {
      SystemArrives(host, p, i, c);
      StackKept(p, table, stack, c.image, o.core.image);
    }
  }

  /** OP_LEAVE of a function's own frame size goes where its saved word says. */
  lemma LeaveOutcome(host: Host, p: Program, a: Activation, i: nat, c: Core)
    requires ProgramOk(p) && FnOk(p, a.fn) && Within(a, i, c) && Saved(p, c.image, a) && p.code[i].op == OP_LEAVE
    ensures i != a.fn.start
    ensures InstrStep(host, p, i, c) == InstrGoto(p, i, c.(ps := a.base), Return(SavedWord(p, a)))
  {
    hide Load, InstrGoto, InstrAt, Pointer;
    assert i != a.fn.start && InsideOk(p.code[i], a.fn);
    assert WellFormed(p.code[i]);
    assert Wrap(c.ps + p.code[i].arg) == a.base;
  }

  lemma ReturnTo(p: Program, i: nat, c: Core, ret: nat)
    requires ProgramOk(p) && i < |p.code| && ret < |p.code|
    ensures InstrGoto(p, i, c, Return(Pointer(p.code, ret))) == Running(ret, c)
  {
    hide InstrAt;
    InstrAtOf(p.code, ret, |p.code|);
    PointersIncrease(p.code, ret, |p.code|);
    assert p.code[..|p.code|] == p.code;
    ReturnWord(Pointer(p.code, ret));
  }

  lemma InvPopped(p: Program, table: set<Fn>, stack: seq<Activation>, i: nat, c: Core)
    requires TableOk(p, table) && Inv(p, table, stack, i, c) && |stack| > 1
    ensures
      var a := stack[|stack| - 1];
      0 <= a.ret < |p.code| && 0 <= a.base < TWO31
      && Inv(p, table, stack[..|stack| - 1], a.ret, c.(ps := a.base))
  {
    hide Load;
    var a, b := stack[|stack| - 1], stack[|stack| - 2];
    assert Linked(b, a) && FnOk(p, b.fn) && Saved(p, c.image, a);
    assert Within(b, a.ret, c.(ps := a.base));
  }

  /** A return pops the activation: programStack is the caller's again, just after the call. */
  lemma LeaveStep(host: Host, p: Program, table: set<Fn>, stack: seq<Activation>, i: nat, c: Core)
    requires TableOk(p, table) && Inv(p, table, stack, i, c) && i < |p.code| && p.code[i].op == OP_LEAVE
    ensures
      var a := stack[|stack| - 1];
      match InstrStep(host, p, i, c)
      case Running(i', c') =>
        |stack| > 1 && i' == a.ret && c'.ps == a.base && Inv(p, table, stack[..|stack| - 1], i', c')
      case Halted(c') => |stack| == 1 && c'.ps == a.base && c'.image == c.image
      case _ => false
  {
    hide Load, InstrStep, Effect;
    var a := stack[|stack| - 1];
    assert FnOk(p, a.fn) && Saved(p, c.image, a);
    LeaveOutcome(host, p, a, i, c);
    if |stack| > 1 {
      InvPopped(p, table, stack, i, c);
      ReturnTo(p, i, c.(ps := a.base), a.ret);
    }
  }

  lemma ReturnWord(w: nat)
    requires w < TWO31
    ensures U(w) == w
  {
  }

  /** Every polite step keeps the protocol. */
  lemma StepKeeps(host: Host, p: Program, table: set<Fn>, stack: seq<Activation>, i: nat, c: Core)
    requires TableOk(p, table) && Inv(p, table, stack, i, c) && i < |p.code|
    requires Polite(p, table, stack, i, c, InstrStep(host, p, i, c))
    ensures
      var o := InstrStep(host, p, i, c);
      match o
      case Running(i', c') => Inv(p, table, NextStack(p, table, stack, i, c, o), i', c')
      case Halted(c') => |stack| == 1 && p.code[i].op == OP_LEAVE && c'.ps == stack[0].base
      case _ => true
  {
    hide InstrStep;
    if p.code[i].op == OP_LEAVE {
      LeaveStep(host, p, table, stack, i, c);
    } else if p.code[i].op != OP_CALL {
      PlainStep(host, p, table, stack, i, c);
    } else if Machine.At(c, 0) >= 0 {
      CallStep(host, p, table, stack, i, c);
    } else {
      SystemStep(host, p, table, stack, i, c);
    }
  }

  // ----- runs -----

  /** The next n steps from o are polite. */
  ghost predicate PoliteRun(host: Host, p: Program, table: set<Fn>, stack: seq<Activation>, o: Outcome, n: nat)
    requires ProgramOk(p)
    decreases n
  {
    n > 0 && o.Running? ==>
      && 0 <= o.pc < |p.code| && CoreOk(o.core) && stack != []
      && var o' := InstrStep(host, p, o.pc, o.core);
         Polite(p, table, stack, o.pc, o.core, o')
         && PoliteRun(host, p, table, NextStack(p, table, stack, o.pc, o.core, o'), o', n - 1)
  }

  /** The activations after n steps. */
  ghost function StackAfter(host: Host, p: Program, table: set<Fn>, stack: seq<Activation>, o: Outcome,
                            n: nat): seq<Activation>
    requires ProgramOk(p)
    decreases n
  {
    if n > 0 && o.Running? && 0 <= o.pc < |p.code| && CoreOk(o.core) && stack != [] then
      var o' := InstrStep(host, p, o.pc, o.core);
      StackAfter(host, p, table, NextStack(p, table, stack, o.pc, o.core, o'), o', n - 1)
    else stack
  }

  /** The protocol holds after every run of polite steps. */
  lemma {:induction false} RunKeeps(host: Host, p: Program, table: set<Fn>, stack: seq<Activation>, o: Outcome, n: nat)
    requires TableOk(p, table) && PoliteRun(host, p, table, stack, o, n)
    requires o.Running? && Inv(p, table, stack, o.pc, o.core)
    ensures
      match Run(InstrSteps(host, p), o, n)
      case Running(i, c) => Inv(p, table, StackAfter(host, p, table, stack, o, n), i, c)
      case Halted(c) => c.ps == stack[0].base
      case _ => true
    decreases n
  {
    hide InstrStep, Inv, NextStack, Polite;
    if n > 0 {
      var o' := InstrStep(host, p, o.pc, o.core);
      var stack' := NextStack(p, table, stack, o.pc, o.core, o');
      StepKeeps(host, p, table, stack, o.pc, o.core);
      if o'.Running? {
        NextBottom(p, table, stack, o.pc, o.core, o');
        RunKeeps(host, p, table, stack', o', n - 1);
      } else {
        StuckStays(InstrSteps(host, p), o', n - 1);
      }
    }
  }

  lemma NextBottom(p: Program, table: set<Fn>, stack: seq<Activation>, i: nat, c: Core, o: Outcome)
    requires i < |p.code| && stack != [] && CoreOk(c)
    ensures
      var stack' := NextStack(p, table, stack, i, c, o);
      stack' != [] ==> stack'[0] == stack[0]
  {
  }

  /** The first activation stays the first. */
  lemma {:induction false} BottomKept(host: Host, p: Program, table: set<Fn>, stack: seq<Activation>, o: Outcome,
                                      n: nat)
    requires ProgramOk(p) && stack != []
    ensures
      var stack' := StackAfter(host, p, table, stack, o, n);
      stack' != [] ==> stack'[0] == stack[0]
    decreases n
  {
    hide InstrStep, NextStack;
    if n > 0 && o.Running? && 0 <= o.pc < |p.code| && CoreOk(o.core) {
      var o' := InstrStep(host, p, o.pc, o.core);
      NextBottom(p, table, stack, o.pc, o.core, o');
      var stack' := NextStack(p, table, stack, o.pc, o.core, o');
      if stack' != [] { BottomKept(host, p, table, stack', o', n - 1); }
    }
  }

  // ----- a call and its return -----

  lemma {:induction false} StackAfterFirst(host: Host, p: Program, table: set<Fn>, stack: seq<Activation>, o: Outcome,
                                           n: nat)
    requires ProgramOk(p) && n > 0 && o.Running? && 0 <= o.pc < |p.code| && CoreOk(o.core) && stack != []
    ensures
      var o' := InstrStep(host, p, o.pc, o.core);
      StackAfter(host, p, table, stack, o, n)
      == StackAfter(host, p, table, NextStack(p, table, stack, o.pc, o.core, o'), o', n - 1)
  {
  }

  /** For fewer than n steps there are more than d activations. */
  ghost predicate Deeper(host: Host, p: Program, table: set<Fn>, stack: seq<Activation>, o: Outcome, n: nat, d: nat)
    requires ProgramOk(p)
  {
    forall m: nat :: m < n ==> |StackAfter(host, p, table, stack, o, m)| > d
  }

  lemma {:induction false} DeeperNext(host: Host, p: Program, table: set<Fn>, stack: seq<Activation>, o: Outcome,
                                      n: nat, d: nat)
    requires ProgramOk(p) && n > 0 && o.Running? && 0 <= o.pc < |p.code| && CoreOk(o.core) && stack != []
    requires Deeper(host, p, table, stack, o, n, d)
    ensures
      var o' := InstrStep(host, p, o.pc, o.core);
      Deeper(host, p, table, NextStack(p, table, stack, o.pc, o.core, o'), o', n - 1, d)
  {
    hide InstrStep, NextStack;
    var o' := InstrStep(host, p, o.pc, o.core);
    var stack' := NextStack(p, table, stack, o.pc, o.core, o');
    forall m: nat | m < n - 1 ensures |StackAfter(host, p, table, stack', o', m)| > d {
      StackAfterFirst(host, p, table, stack, o, m + 1);
    }
  }

  /**
   * Whatever a called function does, calls of its own included: when its activation a is
   * popped, the caller goes on just after the call with the programStack it called with.
   */
  lemma {:induction false} CallReturns(host: Host, p: Program, table: set<Fn>, s: seq<Activation>, a: Activation,
                                       stack: seq<Activation>, o: Outcome, n: nat)
    requires TableOk(p, table) && PoliteRun(host, p, table, stack, o, n)
    requires o.Running? && Inv(p, table, stack, o.pc, o.core) && s + [a] <= stack
    requires Deeper(host, p, table, stack, o, n, |s|)
    requires |StackAfter(host, p, table, stack, o, n)| == |s| && Run(InstrSteps(host, p), o, n).Running?
    ensures StackAfter(host, p, table, stack, o, n) == s
    ensures
      var e := Run(InstrSteps(host, p), o, n);
      e.pc == a.ret && e.core.ps == a.base
    decreases n
  {
    hide InstrStep, Inv, Polite, NextStack;
    if n > 0 {
      var o' := InstrStep(host, p, o.pc, o.core);
      var stack' := NextStack(p, table, stack, o.pc, o.core, o');
      StepKeeps(host, p, table, stack, o.pc, o.core);
      StackAfterFirst(host, p, table, stack, o, n);
      DeeperNext(host, p, table, stack, o, n, |s|);
      if n == 1 {
        PopReturns(host, p, table, stack, o.pc, o.core, s, a);
      } else {
        assert |StackAfter(host, p, table, stack', o', 0)| > |s|;
        NextPrefix(p, table, stack, o.pc, o.core, o', s + [a]);
        CallReturns(host, p, table, s, a, stack', o', n - 1);
      }
    }
  }

  lemma NextPrefix(p: Program, table: set<Fn>, stack: seq<Activation>, i: nat, c: Core, o: Outcome, s: seq<Activation>)
    requires i < |p.code| && stack != [] && CoreOk(c) && s <= stack
    requires |NextStack(p, table, stack, i, c, o)| >= |s|
    ensures s <= NextStack(p, table, stack, i, c, o)
  {
  }

  lemma PopReturns(host: Host, p: Program, table: set<Fn>, stack: seq<Activation>, i: nat, c: Core,
                   s: seq<Activation>, a: Activation)
    requires TableOk(p, table) && Inv(p, table, stack, i, c) && i < |p.code| && s + [a] <= stack
    requires InstrStep(host, p, i, c).Running?
    requires |NextStack(p, table, stack, i, c, InstrStep(host, p, i, c))| == |s|
    ensures
      var o := InstrStep(host, p, i, c);
      NextStack(p, table, stack, i, c, o) == s && o.pc == a.ret && o.core.ps == a.base
  {
    hide InstrStep, Inv;
    LeaveStep(host, p, table, stack, i, c);
  }

  // ----- entering the VM -----

  const MAX_VMMAIN_ARGS := 13
  const ENTRY_FRAME := 8 + 4 * MAX_VMMAIN_ARGS

  /** The core as VM_CallInterpreted starts on it, called with programStack at top. */
  ghost predicate Entered(c: Core, top: int, args: seq<Word>) {
    && CoreOk(c) && |args| == MAX_VMMAIN_ARGS && c.top == 0 && c.stack[0] == 0xBEEF
    && ENTRY_FRAME <= top <= |c.image| && c.ps == top - ENTRY_FRAME
    && Wrap(Load(c.image, c.ps, 4)) == -1
    && (forall k :: 0 <= k < MAX_VMMAIN_ARGS ==> Wrap(Load(c.image, c.ps + 8 + 4 * k, 4)) == args[k])
  }

  /** VM_CallInterpreted starts the protocol with the function at instruction 0. */
  lemma EntryInv(p: Program, table: set<Fn>, f: Fn, c: Core, top: int, args: seq<Word>)
    requires TableOk(p, table) && f in table && f.start == 0 && Entered(c, top, args)
    ensures Inv(p, table, [Activation(f, -1, c.ps)], 0, c)
  {
  }

  /**
   * The host may call the VM again from a system call made at programStack ps; the frames of
   * the inner run, their return words and the arguments of its entry all lie below ps.
   */
  lemma NestedBelow(p: Program, table: set<Fn>, inner: seq<Activation>, i: int, c: Core, ps: int, k: nat)
    requires TableOk(p, table) && Inv(p, table, inner, i, c) && k < |inner|
    requires inner[0].base == ps - 4 - ENTRY_FRAME
    ensures inner[k].base + ENTRY_FRAME <= ps - 4 && c.ps + ENTRY_FRAME <= ps - 4
  {
    FramesBelow(p, table, inner, k);
    FramesBelow(p, table, inner, |inner| - 1);
    assert FnOk(p, inner[|inner| - 1].fn);
  }

  lemma {:induction false} FramesBelow(p: Program, table: set<Fn>, stack: seq<Activation>, k: nat)
    requires TableOk(p, table) && k < |stack|
    requires forall k :: 0 <= k < |stack| ==> stack[k].fn in table
    requires forall k :: 0 < k < |stack| ==> Linked(stack[k - 1], stack[k])
    ensures stack[k].base <= stack[0].base
    decreases k
  {
    if k > 0 {
      FramesBelow(p, table, stack, k - 1);
      assert Linked(stack[k - 1], stack[k]) && FnOk(p, stack[k - 1].fn);
    }
  }
}
