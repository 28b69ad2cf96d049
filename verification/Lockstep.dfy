// The loaded word code simulates the code it was made from, step for step.

module Lockstep {
  import opened Words
  import opened Bytecode
  import opened Loader
  import opened Machine

  datatype Outcome = Running(pc: int, core: Core) | Halted(core: Core) | Failed(core: Core) | Stuck

  /** A program as assembled: its instructions and the length of its code segment. */
  datatype Program = Program(code: seq<Instr>, codeLength: nat)

  predicate ProgramOk(p: Program) {
    && (forall k :: 0 <= k < |p.code| ==> WellFormed(p.code[k]))
    && TargetsOk(p.code, |p.code|)
    && |Expand(p.code)| <= p.codeLength < TWO31
  }

  // ----- the instruction-indexed machine -----

  /** The instruction that starts at word offset w, if any. */
  function InstrAt(code: seq<Instr>, w: int, k: nat): Option<nat>
    requires k <= |code|
  {
    if k == 0 then None
    else if Pointer(code, k - 1) == w then Some(k - 1)
    else InstrAt(code, w, k - 1)
  }

  function Arrive(code: seq<Instr>, w: int, c: Core): Outcome {
    match InstrAt(code, w, |code|)
    case Some(k) => Running(k, c)
    case None => Stuck
  }

  function InstrGoto(p: Program, i: nat, c: Core, ctl: Control): Outcome
    requires i < |p.code|
  {
    match ctl
    case Next => if i + 1 < |p.code| then Running(i + 1, c) else Stuck
    case Taken => Running(p.code[i].arg, c)
    case Jump(k) => if 0 <= k < |p.code| then Running(k, c) else Failed(c)
    case Return(w) =>
      if w == -1 then Halted(c)
      else if U(w) >= p.codeLength then Failed(c)
      else Arrive(p.code, w, c)
    case Resume(w) => Arrive(p.code, w, c)
    case BadInstruction => Failed(c)
    case Undefined => Stuck
  }

  /** Instruction i; a saved return word is the word offset of the instruction to come back to. */
  function InstrStep(host: Host, p: Program, i: int, c: Core): Outcome
    requires ProgramOk(p)
  {
    if 0 <= i < |p.code| && CoreOk(c) then
      assert WellFormed(p.code[i]);
      var (c', ctl) := Effect(host, p.code[i].op, p.code[i].arg, Pointer(p.code, i) + 1, c);
      InstrGoto(p, i, c', ctl)
    else Stuck
  }

  /**
   * What control by a word is checked for: a jump or call goes to the instruction with that number or
   * fails if there is none; a return by -1 ends the run, and one to no place in the code segment fails.
   */
  lemma RangeChecked(host: Host, p: Program, i: nat, c: Core)
    requires ProgramOk(p) && i < |p.code| && CoreOk(c)
    ensures
      var op, o, w := p.code[i].op, InstrStep(host, p, i, c), At(c, 0);
      && (op == OP_JUMP || (op == OP_CALL && w >= 0 && InImage(c, c.ps)) ==>
            if 0 <= w < |p.code| then o.Running? && o.pc == w else o.Failed?)
      && (op == OP_LEAVE && InImage(c, Wrap(c.ps + p.code[i].arg)) ==>
            var ret := Wrap(Load(c.image, Wrap(c.ps + p.code[i].arg), 4));
            if ret == -1 then o.Halted? else !(0 <= ret < p.codeLength) ==> o.Failed?)
  {
    hide Load, Store, InstrAt, Unary, Binary, Compare, BlockCopied, SystemEffect, Pointer;
    assert WellFormed(p.code[i]);
  }

  // ----- the word machine -----

  /** codeBase, instructionPointers and codeLength after loading. */
  datatype Image = Image(words: seq<int>, pointers: seq<int>, codeLength: nat)

  function WordGoto(m: Image, pc: int, op: int, c: Core, ctl: Control): Outcome
    requires 0 <= pc < |m.words| && (IsBranch(op) ==> pc + 1 < |m.words|)
    requires ctl == Taken ==> IsBranch(op)
  {
    match ctl
    case Next => Running(if HasWord(op) || op == OP_ARG then pc + 2 else pc + 1, c)
    case Taken => Running(m.words[pc + 1], c)
    case Jump(k) => if 0 <= k < |m.pointers| then Running(m.pointers[k], c) else Failed(c)
    case Return(w) =>
      if w == -1 then Halted(c) else if U(w) >= m.codeLength then Failed(c) else Running(w, c)
    case Resume(w) => Running(w, c)
    case BadInstruction => Failed(c)
    case Undefined => Stuck
  }

  predicate Readable(m: Image, pc: int) {
    && 0 <= pc < |m.words|
    && (HasWord(m.words[pc]) || m.words[pc] == OP_ARG ==> pc + 1 < |m.words| && Fits(m.words[pc + 1]))
  }

  lemma TakenIsBranch(host: Host, op: int, arg: Word, ret: int, c: Core)
    requires CoreOk(c)
    ensures Effect(host, op, arg, ret, c).1 == Taken ==> IsBranch(op)
  {
  }

  function WordStep(host: Host, m: Image, pc: int, c: Core): Outcome {
    if Readable(m, pc) && CoreOk(c) then
      var op := m.words[pc];
      var arg := if HasWord(op) || op == OP_ARG then m.words[pc + 1] else 0;
      var (c', ctl) := Effect(host, op, arg, pc + 1, c);
      TakenIsBranch(host, op, arg, pc + 1, c);
      WordGoto(m, pc, op, c', ctl)
    else Stuck
  }

  // ----- the simulation -----

  /** What VM_PrepareInterpreter leaves behind for program p. */
  ghost predicate Loaded(p: Program, m: Image)
    requires ProgramOk(p)
  {
    && Translate(p.code, p.code) <= m.words
    && |m.pointers| == |p.code|
    && (forall k :: 0 <= k < |p.code| ==> m.pointers[k] == Pointer(p.code, k))
    && m.codeLength == p.codeLength
  }

  /** The word machine's view of an outcome: instruction numbers become word offsets. */
  function Relocated(p: Program, o: Outcome): Outcome {
    match o
    case Running(i, c) => if 0 <= i < |p.code| then Running(Pointer(p.code, i), c) else Stuck
    case _ => o
  }

  lemma {:induction false} InstrAtPointer(code: seq<Instr>, w: int, k: nat)
    requires k <= |code|
    ensures InstrAt(code, w, k).Some? ==>
      InstrAt(code, w, k).value < k && Pointer(code, InstrAt(code, w, k).value) == w
  {
    if k > 0 {
      InstrAtPointer(code, w, k - 1);
    }
  }

  lemma WordsAfter(before: seq<int>, t: seq<int>, words: seq<int>)
    requires before + t <= words && 1 <= |t| <= 2
    ensures |before| + |t| <= |words| && words[|before|] == t[0] && (|t| == 2 ==> words[|before| + 1] == t[1])
  {
  }

  /** The words the machine reads at the pointer of instruction i. */
  lemma ReadsInstr(p: Program, m: Image, i: nat)
    requires ProgramOk(p) && Loaded(p, m) && i < |p.code|
    ensures
      var pc, one := Pointer(p.code, i), p.code[i];
      && Readable(m, pc) && m.words[pc] == one.op
      && (HasWord(one.op) || one.op == OP_ARG ==>
            m.words[pc + 1] == if IsBranch(one.op) then Pointer(p.code, one.arg) else one.arg)
  {
    var one := p.code[i];
    assert WellFormed(one);
    TranslatedAt(p.code, i);
    WordsAfter(Translate(p.code[..i], p.code), TranslateOne(one, p.code), m.words);
    if IsBranch(one.op) {
      ExpandPrefix(p.code, one.arg);
    }
  }

  /** One step of the assembled program is one step of its loaded form. */
  lemma StepSimulated(host: Host, p: Program, m: Image, i: nat, c: Core)
    requires ProgramOk(p) && Loaded(p, m) && CoreOk(c) && i < |p.code|
    ensures InstrStep(host, p, i, c) != Stuck ==>
      WordStep(host, m, Pointer(p.code, i), c) == Relocated(p, InstrStep(host, p, i, c))
  {
    ReadsInstr(p, m, i);
    var one, pc := p.code[i], Pointer(p.code, i);
    assert WellFormed(one);
    var ret := pc + 1;
    TakenIsBranch(host, one.op, one.arg, ret, c);
    if IsBranch(one.op) {
      BranchIgnoresOperand(host, one.op, one.arg, m.words[pc + 1], ret, c);
    }
    var (c', ctl) := Effect(host, one.op, one.arg, ret, c);
    GotoSimulated(p, m, i, c', ctl);
  }

  lemma GotoSimulated(p: Program, m: Image, i: nat, c: Core, ctl: Control)
    requires ProgramOk(p) && Loaded(p, m) && i < |p.code| && (ctl == Taken ==> IsBranch(p.code[i].op))
    ensures
      var pc, op := Pointer(p.code, i), p.code[i].op;
      && Readable(m, pc) && m.words[pc] == op
      && (InstrGoto(p, i, c, ctl) != Stuck ==> WordGoto(m, pc, op, c, ctl) == Relocated(p, InstrGoto(p, i, c, ctl)))
  {
    ReadsInstr(p, m, i);
    PointerStep(p.code, i);
    hide Loaded, Expand, ExpandOne, Encode, AllWellFormed;
    match ctl
    case Return(w) => InstrAtPointer(p.code, w, |p.code|);
    case Resume(w) => InstrAtPointer(p.code, w, |p.code|);
    case _ =>
  }

  // ----- runs -----

  function Run(step: (int, Core) -> Outcome, o: Outcome, n: nat): Outcome
    decreases n
  {
    if n == 0 || !o.Running? then o else Run(step, step(o.pc, o.core), n - 1)
  }

  lemma {:induction false} StuckStays(step: (int, Core) -> Outcome, o: Outcome, n: nat)
    requires !o.Running?
    ensures Run(step, o, n) == o
  {
  }

  /** If every step of f is matched by a step of g, so is every run that does not get stuck. */
  lemma {:induction false} RunSimulated(f: (int, Core) -> Outcome, g: (int, Core) -> Outcome,
                                        rel: Outcome -> Outcome, o: Outcome, n: nat)
    requires forall o: Outcome :: !o.Running? ==> rel(o) == o
    requires forall o: Outcome :: o.Running? && f(o.pc, o.core) != Stuck ==>
      rel(o).Running? && g(rel(o).pc, rel(o).core) == rel(f(o.pc, o.core))
    ensures Run(f, o, n) != Stuck ==> Run(g, rel(o), n) == rel(Run(f, o, n))
    decreases n
  {
    if n > 0 && o.Running? {
      var o' := f(o.pc, o.core);
      if o' == Stuck { StuckStays(f, o', n - 1); }
      RunSimulated(f, g, rel, o', n - 1);
    }
  }

  function InstrSteps(host: Host, p: Program): (int, Core) -> Outcome
    requires ProgramOk(p)
  {
    (i, c) => InstrStep(host, p, i, c)
  }

  function WordSteps(host: Host, m: Image): (int, Core) -> Outcome {
    (pc, c) => WordStep(host, m, pc, c)
  }

  /**
   * Load-time translation is a lockstep simulation: as long as the assembled program does not
   * get stuck, its loaded form is in the same state after every number of steps, at the word
   * offset of the same instruction.
   */
  lemma {:induction false} Simulation(host: Host, p: Program, m: Image, o: Outcome, n: nat)
    requires ProgramOk(p) && Loaded(p, m)
    requires Run(InstrSteps(host, p), o, n) != Stuck
    ensures Run(WordSteps(host, m), Relocated(p, o), n) == Relocated(p, Run(InstrSteps(host, p), o, n))
  {
    var f, g, rel := InstrSteps(host, p), WordSteps(host, m), o => Relocated(p, o);
    forall o: Outcome | o.Running? && f(o.pc, o.core) != Stuck
      ensures rel(o).Running? && g(rel(o).pc, rel(o).core) == rel(f(o.pc, o.core))
    {
      StepSimulated(host, p, m, o.pc, o.core);
    }
    RunSimulated(f, g, rel, o, n);
  }
}
