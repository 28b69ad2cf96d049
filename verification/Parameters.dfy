// Parameters across a call: what the caller's ARG instructions store
// (lcc/src/bytecode.c, q3asm/q3asm.c) is what the callee's ADDRF addresses, through
// OP_CALL and OP_ENTER of src/vm/vm.c.

module Parameters {
  import opened Words
  import opened Bytecode
  import opened Machine
  import opened Lockstep
  import opened Trees
  import opened Dumptree
  import opened EndToEnd
  import A = Assembly
  import D = Addresses
  import F = Frames
  import P = Procedures
  import R = Regions

  // ----- passing arguments -----

  /** The roots of a call's arguments, from a slot on; other roots may stand between them. */
  ghost predicate Passing(f: seq<Root>, slot: nat)
    decreases |f|
  {
    f != [] ==>
      if f[0].Arg? then f[0].slot == slot && Passing(f[1..], slot + 4) else Passing(f[1..], slot)
  }

  function Passed(f: seq<Root>): nat {
    if f == [] then 0 else (if f[0].Arg? then 1 else 0) + Passed(f[1..])
  }

  ghost predicate RootsOk(f: seq<Root>) {
    forall i :: 0 <= i < |f| ==> RootOk(f[i])
  }

  /** The words from the first slot to this one are as they were. */
  ghost predicate KeepsSlots(c: Core, image: seq<Byte>, slot: nat) {
    && |image| == |c.image|
    && forall b: nat :: c.ps + 8 <= b && b + 4 <= c.ps + slot && b + 4 <= |image| ==>
         Load(image, b, 4) == Load(c.image, b, 4)
  }

  /** The roots that are no arguments leave alone what has been passed so far. */
  ghost predicate Undisturbed(f: seq<Root>, c: Core, slot: nat)
    requires CoreOk(c) && RootsOk(f)
    decreases |f|
  {
    f != [] && Effects(f[0], c).Some? && |Effects(f[0], c).value| == |c.image| ==>
      var image := Effects(f[0], c).value;
      && (!f[0].Arg? ==> KeepsSlots(c, image, slot))
      && Undisturbed(f[1..], c.(image := image), if f[0].Arg? then slot + 4 else slot)
  }

  /** The values of the arguments, each evaluated in the memory that the roots before it leave. */
  ghost function ArgValues(f: seq<Root>, c: Core): seq<int>
    requires CoreOk(c) && RootsOk(f)
    decreases |f|
  {
    if f == [] || Effects(f[0], c).None? || |Effects(f[0], c).value| != |c.image| then []
    else (if f[0].Arg? then [Eval(f[0].v, c).value] else []) + ArgValues(f[1..], c.(image := Effects(f[0], c).value))
  }

  /** The slots up to some offset lie in the masked part of the image. */
  ghost predicate Reachable(c: Core, end: nat) {
    CoreOk(c) && exists k: nat :: k < 31 && |c.image| == Pow2(k) + 4 && 0 <= c.ps && c.ps + end <= Pow2(k)
  }

  lemma SlotsInside(c: Core, end: nat)
    requires Reachable(c, end) && end >= 8
    ensures CoreOk(c) && InImage(c, c.ps) && c.ps + end + 4 <= |c.image|
  {
    hide Pow2;
  }

  lemma {:induction false} NoMask(c: Core, a: int)
    requires CoreOk(c) && 0 <= a && exists k: nat :: k < 31 && |c.image| == Pow2(k) + 4 && a < Pow2(k)
    ensures Masked(c, a) == a
  {
    hide Pow2, Masked;
    var k: nat :| k < 31 && |c.image| == Pow2(k) + 4 && a < Pow2(k);
    MaskedIsModulo(c, a, k);
    ModSmall(a, TWO32);
    ModSmall(a, Pow2(k));
  }

  /** Every argument ends in its slot, and stays there. */
  lemma {:induction false} ArgumentsStored(f: seq<Root>, c: Core, slot: nat, image: seq<Byte>)
    requires RootsOk(f) && Passing(f, slot) && slot >= 8 && Reachable(c, slot + 4 * Passed(f))
    requires Perform(f, c) == Some(image) && Undisturbed(f, c, slot)
    ensures |image| == |c.image| && |ArgValues(f, c)| == Passed(f) && KeepsSlots(c, image, slot)
    ensures 0 <= c.ps && c.ps + slot + 4 * Passed(f) <= |image|
    ensures forall k :: 0 <= k < Passed(f) ==> Load(image, c.ps + slot + 4 * k, 4) == U(ArgValues(f, c)[k])
    decreases |f|
  {
    hide Load, Eval, Effects, Reachable;
    SlotsInside(c, slot + 4 * Passed(f));
    if f != [] {
      var image1 := Effects(f[0], c).value;
      var c1 := c.(image := image1);
      ReachesOn(c, c1, slot + 4 * Passed(f));
      if f[0].Arg? {
        ReachesOn(c, c, slot + 4 * Passed(f));
        FirstStored(f[0], c, slot);
        ArgumentsStored(f[1..], c1, slot + 4, image);
        forall k | 0 <= k < Passed(f) ensures Load(image, c.ps + slot + 4 * k, 4) == U(ArgValues(f, c)[k]) {
          if k > 0 { assert c.ps + slot + 4 * k == c1.ps + (slot + 4) + 4 * (k - 1); }
        }
      } else {
        ArgumentsStored(f[1..], c1, slot, image);
      }
    }
  }

  lemma ReachesOn(c: Core, c': Core, end: nat)
    requires Reachable(c, end) && CoreOk(c') && c'.ps == c.ps && |c'.image| == |c.image|
    ensures Reachable(c', end) && forall e: nat :: e <= end ==> Reachable(c', e)
  {
    hide Pow2;
    var k: nat :| k < 31 && |c.image| == Pow2(k) + 4 && 0 <= c.ps && c.ps + end <= Pow2(k);
    forall e: nat | e <= end ensures Reachable(c', e) {
      assert |c'.image| == Pow2(k) + 4 && c'.ps + e <= Pow2(k);
    }
  }

  lemma {:induction false} FirstStored(r: Root, c: Core, slot: nat)
    requires RootOk(r) && r.Arg? && r.slot == slot && slot >= 8 && Reachable(c, slot + 4) && Effects(r, c).Some?
    ensures
      var image := Effects(r, c).value;
      && |image| == |c.image| && Eval(r.v, c).Some?
      && Load(image, c.ps + slot, 4) == U(Eval(r.v, c).value) && KeepsSlots(c, image, slot)
  {
    hide Load, Store, Masked, Eval, Pow2;
    var a, x := c.ps + slot, Eval(r.v, c).value;
    NoMask(c, a);
    assert Effects(r, c).value == Store(c.image, a, x, 4);
    StoredWord(c.image, a, x);
    forall b: nat | c.ps + 8 <= b && b + 4 <= a ensures Load(Store(c.image, a, x, 4), b, 4) == Load(c.image, b, 4) {
      StoreApart(c.image, a, x, b);
    }
  }

  // ----- from the caller to the callee -----

  /** The code of a call: the arguments, the address, OP_CALL. */
  function CallCode(f: seq<Root>, a: Tree): seq<Instr>
    requires WellTyped(a) && forall i :: 0 <= i < |f| ==> RootOk(f[i])
  {
    ForestCode(f) + Code(a) + [Instr(OP_CALL, 0)]
  }

  /** The caller at its first argument, about to call the function at instruction start. */
  ghost predicate Calling(f: seq<Root>, a: Tree, c: Core, image: seq<Byte>, start: nat) {
    && CoreOk(c) && RootsOk(f) && (forall i :: 0 <= i < |f| ==> c.top + RootNeed(f[i]) < OPSTACK)
    && ForestClean(f, c) && Perform(f, c) == Some(image) && |image| == |c.image|
    && WellTyped(a) && TypeOf(a) == U4 && c.top + Need(a) < OPSTACK
    && CleanAt(a, c.(image := image)) && Eval(a, c.(image := image)) == Some(start)
  }

  /** The arguments performed; the address is still what it was to be. */
  lemma {:induction false} ForestDone(host: Host, f: seq<Root>, a: Tree, c: Core, image: seq<Byte>, start: nat)
    returns (c1: Core)
    requires Calling(f, a, c, image, start)
    ensures RootsOk(f) && Fitting(ForestCode(f)) && RunCode(host, ForestCode(f), c) == Some(c1)
    ensures CoreOk(c1) && c1.image == image && c1.ps == c.ps && WellTyped(a) && TypeOf(a) == U4
    ensures CleanAt(a, c1) && Eval(a, c1) == Some(start) && c1.top + Need(a) < OPSTACK
  {
    hide Effect, Effects, Eval, CleanAt, RootOk, RootClean, Code, WellTyped, RunCode;
    ForestCorrect(host, f, c);
    c1 := RunCode(host, ForestCode(f), c).value;
    EvalSame(a, c.(image := image), c1);
    CleanSame(a, c.(image := image), c1);
  }

  lemma {:induction false} ValuePushed(host: Host, a: Tree, c: Core, v: nat) returns (c': Core)
    requires WellTyped(a) && TypeOf(a) == U4 && CoreOk(c) && CleanAt(a, c) && Eval(a, c) == Some(v) && Fits(v)
    requires c.top + Need(a) < OPSTACK
    ensures Fitting(Code(a)) && RunCode(host, Code(a), c) == Some(c')
    ensures CoreOk(c') && c'.image == c.image && c'.ps == c.ps && At(c', 0) == v
  {
    hide Eval, CleanAt, Code, WellTyped, RunCode;
    CodeCorrect(host, a, c);
    CodeFits(a);
    c' := RunCode(host, Code(a), c).value;
    WrapOfU(v);
  }

  /** The arguments and the address, without the call. */
  lemma {:induction false} AddressPushed(host: Host, f: seq<Root>, a: Tree, c: Core, image: seq<Byte>, start: nat)
    returns (c2: Core)
    requires Calling(f, a, c, image, start) && CoreOk(c) && Fits(start)
    ensures RootsOk(f) && WellTyped(a)
    ensures Fitting(ForestCode(f) + Code(a)) && RunCode(host, ForestCode(f) + Code(a), c) == Some(c2)
    ensures CoreOk(c2) && c2.image == image && c2.ps == c.ps && At(c2, 0) == start
  {
    hide *;
    CallingOk(f, a, c, image, start);
    var c1 := ForestDone(host, f, a, c, image, start);
    c2 := ValuePushed(host, a, c1, start);
    RunBoth(host, ForestCode(f), Code(a), c);
    FittingBoth(ForestCode(f), Code(a));
  }

  lemma FittingBoth(a: seq<Instr>, b: seq<Instr>)
    requires Fitting(a) && Fitting(b)
    ensures Fitting(a + b)
  {
  }

  lemma {:induction false} RunMore(step: (int, Core) -> Outcome, o: Outcome, m: nat, n: nat)
    ensures Run(step, o, m + n) == Run(step, Run(step, o, m), n)
    decreases m
  {
    if o.Running? {
      if m > 0 { RunMore(step, step(o.pc, o.core), m - 1, n); }
    } else {
      StuckStays(step, o, m);
      StuckStays(step, o, n);
      StuckStays(step, o, m + n);
    }
  }

  /** OP_CALL goes to the function whose number is on top. */
  lemma CallGoes(host: Host, p: Program, j: nat, c: Core, start: nat)
    requires ProgramOk(p) && CoreOk(c) && j < |p.code| && p.code[j] == Instr(OP_CALL, 0)
    requires InImage(c, c.ps) && At(c, 0) == start < |p.code|
    ensures InstrStep(host, p, j, c) == Running(start, Machine.Saved(c, Pointer(p.code, j) + 1))
  {
    hide Load, Store, Machine.Saved;
    assert WellFormed(p.code[j]);
  }

  /** OP_ENTER takes the frame off programStack. */
  lemma EnterGoes(host: Host, p: Program, f: F.Fn, c: Core)
    requires ProgramOk(p) && F.FnOk(p, f) && CoreOk(c) && 0 <= c.ps
    ensures InstrStep(host, p, f.start, c) == Running(f.start + 1, c.(ps := c.ps - f.frame))
  {
    assert WellFormed(p.code[f.start]);
    WrapOfU(c.ps - f.frame);
  }

  /** From the caller's first argument to the callee's first instruction after its prologue. */
  lemma {:induction false} CallArrives(host: Host, p: Program, i: nat, f: seq<Root>, a: Tree, c: Core, image: seq<Byte>,
                                       callee: F.Fn)
    returns (e: Core, ret: int)
    requires ProgramOk(p) && F.FnOk(p, callee) && Calling(f, a, c, image, callee.start) && InImage(c, c.ps)
    requires HoldsAt(p, CallCode(f, a), i)
    ensures Run(InstrSteps(host, p), Running(i, c), |CallCode(f, a)| + 1) == Running(callee.start + 1, e)
    ensures CoreOk(e) && e.ps == c.ps - callee.frame
    ensures e.image == Store(image, c.ps, ret, 4)
  {
    hide *;
    CallingOk(f, a, c, image, callee.start);
    StartInside(p, callee);
    var code := ForestCode(f) + Code(a);
    CallCodeIs(f, a);
    var c2 := AddressPushed(host, f, a, c, image, callee.start);
    CodePrefix(p, i, code, Instr(OP_CALL, 0));
    HeldRuns(host, p, code, i, c, c2);
    SameInImage(c, c2);
    e, ret := CallDone(host, p, i + |code|, c2, callee);
    RunMore(InstrSteps(host, p), Running(i, c), |code|, 2);
  }

  lemma {:induction false} CallCodeIs(f: seq<Root>, a: Tree)
    requires WellTyped(a) && RootsOk(f)
    ensures RootsOk(f) && CallCode(f, a) == ForestCode(f) + Code(a) + [Instr(OP_CALL, 0)]
    ensures |CallCode(f, a)| + 1 == |ForestCode(f) + Code(a)| + 2
  {
  }

  lemma SameInImage(c: Core, c': Core)
    requires CoreOk(c) && CoreOk(c') && InImage(c, c.ps) && |c'.image| == |c.image| && c'.ps == c.ps
    ensures InImage(c', c'.ps)
  {
  }

  /** OP_CALL and the OP_ENTER it leads to. */
  lemma CallDone(host: Host, p: Program, j: nat, c: Core, callee: F.Fn) returns (e: Core, ret: int)
    requires ProgramOk(p) && F.FnOk(p, callee) && j < |p.code| && p.code[j] == Instr(OP_CALL, 0)
    requires CoreOk(c) && InImage(c, c.ps) && At(c, 0) == callee.start
    ensures Run(InstrSteps(host, p), Running(j, c), 2) == Running(callee.start + 1, e)
    ensures CoreOk(e) && e.ps == c.ps - callee.frame
    ensures e.image == Store(c.image, c.ps, ret, 4)
  {
    StartInside(p, callee);
    hide Effect, InstrStep, Store, ProgramOk, F.FnOk, Pointer, Run;
    CallGoes(host, p, j, c, callee.start);
    ret := Pointer(p.code, j) + 1;
    var c' := Machine.Saved(c, ret);
    EnterGoes(host, p, callee, c');
    e := c'.(ps := c'.ps - callee.frame);
    TwoSteps(InstrSteps(host, p), Running(j, c), callee.start, c', Running(callee.start + 1, e));
  }

  lemma StartInside(p: Program, f: F.Fn)
    requires ProgramOk(p) && F.FnOk(p, f)
    ensures f.start < |p.code| && Fits(f.start)
  {
    ProgramFits(p);
  }

  lemma {:induction false} CallingOk(f: seq<Root>, a: Tree, c: Core, image: seq<Byte>, start: nat)
    requires Calling(f, a, c, image, start)
    ensures CoreOk(c) && WellTyped(a) && RootsOk(f) && (forall k :: 0 <= k < |f| ==> RootOk(f[k]))
        && |image| == |c.image|
  {
  }

  lemma CodePrefix(p: Program, i: nat, part: seq<Instr>, last: Instr)
    requires HoldsAt(p, part + [last], i)
    ensures HoldsAt(p, part, i) && i + |part| < |p.code| && p.code[i + |part|] == last
  {
    var t := p.code[i..i + |part| + 1];
    assert p.code[i..i + |part|] == t[..|part|];
    assert p.code[i + |part|] == t[|part|];
  }

  lemma {:induction false} HeldRuns(host: Host, p: Program, code: seq<Instr>, i: nat, c: Core, c': Core)
    requires ProgramOk(p) && CoreOk(c) && Fitting(code) && RunCode(host, code, c) == Some(c') && HoldsAt(p, code, i)
    ensures Run(InstrSteps(host, p), Running(i, c), |code|) == Running(i + |code|, c')
  {
    CodeInProgram(host, p, code, i, c);
  }

  lemma {:induction false} TwoSteps(step: (int, Core) -> Outcome, o: Outcome, pc: int, c: Core, o': Outcome)
    requires o.Running? && step(o.pc, o.core) == Running(pc, c) && step(pc, c) == o'
    ensures Run(step, o, 2) == o'
  {
    assert Run(step, o, 2) == Run(step, step(o.pc, o.core), 1);
    assert Run(step, Running(pc, c), 1) == Run(step, step(pc, c), 0);
  }

  lemma ProgramFits(p: Program)
    requires ProgramOk(p)
    ensures |p.code| < TWO31
  {
    hide WellFormed;
    assert p.code[..|p.code|] == p.code;
    LengthAtMost(p.code);
  }

  lemma {:induction false} LengthAtMost(code: seq<Instr>)
    ensures |code| <= |Expand(code)|
    decreases |code|
  {
    if code != [] { LengthAtMost(code[..|code| - 1]); }
  }

  /** Instruction i begins a call, with all its arguments, of the function at instruction start. */
  ghost predicate CallAt(p: Program, i: nat, f: seq<Root>, a: Tree, c: Core, image: seq<Byte>, start: nat) {
    && Calling(f, a, c, image, start)
    && Passing(f, 8) && Undisturbed(f, c, 8) && Reachable(c, 8 + 4 * Passed(f))
    && HoldsAt(p, CallCode(f, a), i)
  }

  /** The callee finds the value of argument k in the word 8 + 4 * k above its caller's programStack. */
  lemma {:induction false} ValueArrives(host: Host, p: Program, i: nat, f: seq<Root>, a: Tree, c: Core,
                                        image: seq<Byte>,
                                        callee: F.Fn, k: nat)
    returns (d: Core)
    requires ProgramOk(p) && F.FnOk(p, callee) && CallAt(p, i, f, a, c, image, callee.start) && k < Passed(f)
    ensures |ArgValues(f, c)| == Passed(f)
    ensures Run(InstrSteps(host, p), Running(i, c), |CallCode(f, a)| + 1) == Running(callee.start + 1, d)
    ensures CoreOk(d) && d.ps == c.ps - callee.frame && 0 <= c.ps
    ensures Load(d.image, Masked(d, c.ps + 8 + 4 * k), 4) == U(ArgValues(f, c)[k])
  {
    hide Load, Store, Masked, Calling, Undisturbed, Passing, Reachable, CallCode, F.FnOk, Run, ProgramOk, InstrSteps;
    var end := 8 + 4 * Passed(f);
    CallingStored(f, a, c, image, callee.start);
    SlotsInside(c, end);
    var ret;
    d, ret := CallArrives(host, p, i, f, a, c, image, callee);
    ArgumentsStored(f, c, 8, image);
    WordKept(c, d, image, ret, c.ps + 8 + 4 * k, end);
  }

  /**
   * The callee reads, through ADDRF of parameter k, the value that the caller evaluated for
   * argument k: from the caller at its first argument, through OP_CALL and OP_ENTER of an
   * assembled program, to the word at the address that line l of the callee names.
   */
  lemma {:induction false} ParameterArrives(host: Host, source: seq<A.Input>, s0: A.State, p: nat, e: nat, l: nat,
                                            i: nat, f: seq<Root>, a: Tree, c: Core, image: seq<Byte>, k: nat)
    returns (d: Core)
    requires P.Compiled(source, s0) && P.Procedure(source, p, e) && p < l < e && source[l].line.AddrF?
    requires R.Constant(source[l].line.e) && R.Operand(source[l].line.e) == 4 * k && k < Passed(f)
    requires CallAt(P.Linked(source, s0), i, f, a, c, image, P.FnOf(source, s0, p, e).start)
    ensures ProgramOk(P.Linked(source, s0)) && |ArgValues(f, c)| == Passed(f)
    ensures Run(InstrSteps(host, P.Linked(source, s0)), Running(i, c), |CallCode(f, a)| + 1)
         == Running(P.FnOf(source, s0, p, e).start + 1, d)
    ensures CoreOk(d) && d.ps == c.ps - P.FrameOf(source[p].line)
    ensures
      var at := R.Address(D.Pass1At(source, s0, l, source[l].file), source[l].line, d.ps);
      Load(d.image, Masked(d, at), 4) == U(ArgValues(f, c)[k])
  {
    hide *;
    CompiledBuilt(source, s0);
    CallFew(P.Linked(source, s0), i, f, a, c, image, P.FnOf(source, s0, p, e).start);
    P.LinkedOk(source, s0);
    P.ProcedureIsFn(source, s0, p, e);
    FnFrame(source, s0, p, e);
    d := ValueArrives(host, P.Linked(source, s0), i, f, a, c, image, P.FnOf(source, s0, p, e), k);
    R.ParamSlot(source, s0, p, e, l, d.ps);
  }

  lemma CompiledBuilt(source: seq<A.Input>, s0: A.State)
    requires P.Compiled(source, s0)
    ensures P.Built(source, s0)
  {
  }

  lemma FnFrame(source: seq<A.Input>, s0: A.State, p: nat, e: nat)
    requires P.Built(source, s0) && P.Procedure(source, p, e)
    ensures P.FnOf(source, s0, p, e).frame == P.FrameOf(source[p].line)
  {
  }

  /** A slot is a byte, so that there are few arguments. */
  lemma {:induction false} PassedFew(f: seq<Root>, slot: nat)
    requires RootsOk(f) && Passing(f, slot)
    ensures Passed(f) == 0 || slot + 4 * (Passed(f) - 1) < 256
    decreases |f|
  {
    if f != [] {
      assert RootOk(f[0]);
      PassedFew(f[1..], if f[0].Arg? then slot + 4 else slot);
    }
  }

  lemma {:induction false} CallFew(p: Program, i: nat, f: seq<Root>, a: Tree, c: Core, image: seq<Byte>, start: nat)
    requires CallAt(p, i, f, a, c, image, start)
    ensures Passed(f) <= 62
  {
    hide Undisturbed, Reachable, CallCode;
    CallingStored(f, a, c, image, start);
    PassedFew(f, 8);
  }

  lemma {:induction false} CallingStored(f: seq<Root>, a: Tree, c: Core, image: seq<Byte>, start: nat)
    requires Calling(f, a, c, image, start)
    ensures CoreOk(c) && RootsOk(f) && WellTyped(a) && Perform(f, c) == Some(image) && |image| == |c.image|
  {
  }

  /** The word at an argument's slot survives the return word stored below it. */
  lemma WordKept(c: Core, d: Core, image: seq<Byte>, ret: int, b: nat, end: nat)
    requires Reachable(c, end) && CoreOk(d) && |image| == |c.image| && c.ps + end + 4 <= |c.image|
    requires d.image == Store(image, c.ps, ret, 4) && c.ps + 8 <= b && b + 4 <= c.ps + end
    ensures Load(d.image, Masked(d, b), 4) == Load(image, b, 4)
  {
    hide Load, Store, Masked, Pow2;
    var k: nat :| k < 31 && |c.image| == Pow2(k) + 4 && 0 <= c.ps && c.ps + end <= Pow2(k);
    assert |d.image| == Pow2(k) + 4 && b < Pow2(k);
    NoMask(d, b);
    StoreApart(image, c.ps, ret, b);
  }
}
