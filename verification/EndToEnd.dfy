// The stages together: the code of a forest, assembled to bytes, loaded by
// VM_PrepareInterpreter and run by the cached interpreter, performs the
// forest's stores.

module EndToEnd {
  import opened Words
  import opened Bytecode
  import opened Loader
  import opened Machine
  import opened Lockstep
  import opened Trees
  import opened Dumptree
  import opened Interpreter

  /** Only OP_CALL looks at the offset of the next instruction, and it never falls through. */
  lemma StraightIgnoresReturn(host: Host, i: Instr, ret: int, c: Core)
    requires CoreOk(c) && Fits(i.arg)
    ensures Effect(host, i.op, i.arg, 0, c).1 == Next ==>
      Effect(host, i.op, i.arg, ret, c) == Effect(host, i.op, i.arg, 0, c)
  {
  }

  /** An instruction that falls through takes the program to the next one. */
  lemma StraightStep(host: Host, p: Program, i: nat, c: Core)
    requires ProgramOk(p) && CoreOk(c) && i + 1 < |p.code| && Fits(p.code[i].arg)
    requires Effect(host, p.code[i].op, p.code[i].arg, 0, c).1 == Next
    ensures InstrStep(host, p, i, c) == Running(i + 1, Effect(host, p.code[i].op, p.code[i].arg, 0, c).0)
  {
    StraightIgnoresReturn(host, p.code[i], Pointer(p.code, i) + 1, c);
  }

  lemma RunFirst(step: (int, Core) -> Outcome, o: Outcome, n: nat)
    requires n > 0 && o.Running?
    ensures Run(step, o, n) == Run(step, step(o.pc, o.core), n - 1)
  {
  }

  lemma SliceFirst<T>(s: seq<T>, i: nat, part: seq<T>)
    requires part != [] && i + |part| <= |s| && s[i..i + |part|] == part
    ensures s[i] == part[0] && s[i + 1..i + |part|] == part[1..]
  {
  }

  lemma {:induction false} RunCodeFirst(host: Host, code: seq<Instr>, c: Core)
    requires code != [] && CoreOk(c) && Fitting(code) && RunCode(host, code, c).Some?
    ensures
      var (c', ctl) := Effect(host, code[0].op, code[0].arg, 0, c);
      ctl == Next && CoreOk(c') && Fitting(code[1..]) && RunCode(host, code[1..], c') == RunCode(host, code, c)
  {
  }

  /** The assembled program goes from instruction i to instruction j in n steps. */
  ghost predicate Reaches(host: Host, p: Program, i: int, c: Core, n: nat, j: int, c': Core)
    requires ProgramOk(p)
  {
    Run(InstrSteps(host, p), Running(i, c), n) == Running(j, c')
  }

  /** Straight-line code inside a program runs as it does by itself. */
  lemma {:induction false} CodeInProgram(host: Host, p: Program, code: seq<Instr>, i: nat, c: Core)
    requires ProgramOk(p) && CoreOk(c) && Fitting(code) && RunCode(host, code, c).Some?
    requires i + |code| < |p.code| && p.code[i..i + |code|] == code
    ensures Reaches(host, p, i, c, |code|, i + |code|, RunCode(host, code, c).value)
    decreases |code|
  {
    hide Effect, InstrStep;
    if code != [] {
      SliceFirst(p.code, i, code);
      RunCodeFirst(host, code, c);
      StraightStep(host, p, i, c);
      var c' := Effect(host, code[0].op, code[0].arg, 0, c).0;
      RunFirst(InstrSteps(host, p), Running(i, c), |code|);
      CodeInProgram(host, p, code[1..], i + 1, c');
    }
  }

  /** n steps of the loaded program lead from word offset pc to pc' with the memory image. */
  ghost predicate RunsTo(host: Host, m: Image, pc: int, c: Core, n: nat, pc': int, image: seq<Byte>) {
    var o := Run(WordSteps(host, m), Running(pc, c), n);
    o.Running? && o.pc == pc' && Performed(c, o.core, image)
  }

  lemma SimulatedBetween(host: Host, p: Program, m: Image, i: nat, c: Core, n: nat, j: nat, c': Core,
                         image: seq<Byte>)
    requires ProgramOk(p) && Loaded(p, m) && i < |p.code| && j < |p.code|
    requires Reaches(host, p, i, c, n, j, c') && Performed(c, c', image)
    ensures RunsTo(host, m, m.pointers[i], c, n, Pointer(p.code, j), image)
  {
    hide Effect, InstrStep, WordStep;
    Simulation(host, p, m, Running(i, c), n);
  }

  /** f can be run from c, has that code and performs its stores on the image. */
  ghost predicate Performs(f: seq<Root>, code: seq<Instr>, c: Core, image: seq<Byte>) {
    && CoreOk(c)
    && (forall k :: 0 <= k < |f| ==> RootOk(f[k]) && c.top + RootNeed(f[k]) < OPSTACK)
    && code == ForestCode(f) && ForestClean(f, c) && Perform(f, c) == Some(image)
  }

  /** The code stands at instruction i of the program, and not at its very end. */
  ghost predicate HoldsAt(p: Program, code: seq<Instr>, i: nat) {
    i + |code| < |p.code| && p.code[i..i + |code|] == code
  }

  lemma ForestInImage(host: Host, p: Program, m: Image, f: seq<Root>, code: seq<Instr>, i: nat, c: Core,
                      image: seq<Byte>)
    requires ProgramOk(p) && Loaded(p, m) && Performs(f, code, c, image) && HoldsAt(p, code, i)
    ensures RunsTo(host, m, m.pointers[i], c, |code|, Pointer(p.code, i + |code|), image)
  {
    ForestCorrect(host, f, c);
    CodePerforms(host, p, m, code, i, c, image);
  }

  lemma CodePerforms(host: Host, p: Program, m: Image, code: seq<Instr>, i: nat, c: Core, image: seq<Byte>)
    requires ProgramOk(p) && Loaded(p, m) && CoreOk(c) && Does(host, code, c, image)
    requires i + |code| < |p.code| && p.code[i..i + |code|] == code
    ensures RunsTo(host, m, m.pointers[i], c, |code|, Pointer(p.code, i + |code|), image)
  {
    hide Effect, InstrStep, WordStep;
    var n, c' := |code|, RunCode(host, code, c).value;
    CodeInProgram(host, p, code, i, c);
    SimulatedBetween(host, p, m, i, c, n, i + n, c', image);
  }

  /** VM_PrepareInterpreter leaves behind the image that the simulation starts from. */
  method LoadProgram(bytes: seq<Byte>, ghost p: Program, count: nat) returns (m: Image)
    requires ProgramOk(p) && Encode(p.code) <= bytes && |bytes| == p.codeLength && count == |p.code|
    ensures Loaded(p, m)
  {
    var vm := new Vm(|bytes|, count);
    var verdict := vm.PrepareInterpreter(bytes, p.code);
    m := Image(vm.codeBase[..], vm.instructionPointers[..], |bytes|);
    PrefixOfArray(m.words, Translate(p.code, p.code));
  }

  lemma PrefixOfArray(words: seq<int>, t: seq<int>)
    requires |t| <= |words| && words[..|t|] == t
    ensures t <= words
  {
  }

  method RunImage(vm: Interp, host: Host, m: Image, pc0: int, n: nat, ghost goal: int, ghost image: seq<Byte>)
    returns (status: Status, pc: int)
    requires vm.Valid() && RunsTo(host, m, pc0, vm.View(), n, goal, image)
    modifies vm`opStackOfs, vm`programStack, vm`breakCount, vm`r0, vm`r1, vm.opStack, vm.image
    ensures status == Ready && pc == goal && Performed(old(vm.View()), vm.View(), image)
  {
    hide Effect, WordStep;
    status, pc := vm.Interpret(host, m, pc0, n);
  }

  /**
   * From trees to the running interpreter: the bytes of a program that holds the code of a
   * forest at instruction i, loaded and run for as many instructions, end at the instruction
   * after it with the forest's stores performed in order, the operand stack up to its top and
   * the frame as they were.
   */
  method RunForest(vm: Interp, host: Host, bytes: seq<Byte>, ghost p: Program, count: nat,
                   ghost f: seq<Root>, ghost code: seq<Instr>, ghost image: seq<Byte>, i: nat, length: nat)
    returns (status: Status, pc: int)
    requires vm.Valid()
    requires ProgramOk(p) && Encode(p.code) <= bytes && |bytes| == p.codeLength && count == |p.code|
    requires Performs(f, code, vm.View(), image) && HoldsAt(p, code, i) && length == |code|
    modifies vm`opStackOfs, vm`programStack, vm`breakCount, vm`r0, vm`r1, vm.opStack, vm.image
    ensures status == Ready && pc == Pointer(p.code, i + length)
    ensures Performed(old(vm.View()), vm.View(), image)
  {
    hide Effect, WordStep, Performs, RunsTo;
    var m := LoadProgram(bytes, p, count);
    ForestInImage(host, p, m, f, code, i, vm.View(), image);
    status, pc := RunImage(vm, host, m, m.pointers[i], length, Pointer(p.code, i + length), image);
  }
}
