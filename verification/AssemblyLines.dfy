// What an error-free line of assembly does: the bytes it emits, how it advances
// the layout, and what else it changes.

module AssemblyLines {
  import opened Words
  import opened Bytecode
  import opened Assembly

  /** s' comes from s without an error. */
  ghost predicate Clean(s: State, s': State) {
    !s.dead && !s'.dead && s'.errors == s.errors
  }

  // ----- emission -----

  ghost predicate Fits4(seg: Segment, b: seq<Byte>) {
    seg.used + |b| <= |seg.image|
  }

  /** s with b appended to segment g. */
  function Appended(s: State, g: int, b: seq<Byte>): State
    requires 0 <= g < |s.segments| && Fits4(s.segments[g], b)
  {
    s.(segments := s.segments[g := Emitted(s.segments[g], b)])
  }

  lemma EmittedTwice(seg: Segment, a: seq<Byte>, b: seq<Byte>)
    requires Fits4(seg, a + b)
    ensures Fits4(seg, a) && Fits4(Emitted(seg, a), b)
    ensures Emitted(Emitted(seg, a), b) == Emitted(seg, a + b)
  {
  }

  lemma AppendedTwice(s: State, g: int, a: seq<Byte>, b: seq<Byte>)
    requires StateOk(s) && 0 <= g < NUM_SEGMENTS && Fits4(s.segments[g], a + b)
    ensures Fits4(s.segments[g], a) && Fits4(Appended(s, g, a).segments[g], b)
    ensures Appended(Appended(s, g, a), g, b) == Appended(s, g, a + b)
  {
    EmittedTwice(s.segments[g], a, b);
    assert s.segments[g := Emitted(s.segments[g], a)][g := Emitted(s.segments[g], a + b)]
        == s.segments[g := Emitted(s.segments[g], a + b)];
  }

  /** An opcode with its operand. */
  lemma {:induction false} EmitWord(s: State, g: int, op: int, v: int)
    requires StateOk(s) && 0 <= g < NUM_SEGMENTS && !EmitInt(EmitByte(s, g, op), g, v).dead
    ensures !s.dead && Fits4(s.segments[g], [op % 256] + Bytes(v, 4))
    ensures EmitInt(EmitByte(s, g, op), g, v) == Appended(s, g, [op % 256] + Bytes(v, 4))
  {
    AppendedTwice(s, g, [op % 256], Bytes(v, 4));
  }

  lemma EmitOne(s: State, g: int, op: int)
    requires StateOk(s) && 0 <= g < NUM_SEGMENTS && !EmitByte(s, g, op).dead
    ensures !s.dead && Fits4(s.segments[g], [op % 256])
    ensures EmitByte(s, g, op) == Appended(s, g, [op % 256])
  {
  }

  lemma {:induction false} EmitMany(s: State, g: int, v: int, n: nat)
    requires StateOk(s) && 0 <= g < NUM_SEGMENTS && n > 0
    ensures EmitBytes(s, g, v, n).errors == s.errors && (s.dead ==> EmitBytes(s, g, v, n).dead)
    ensures !EmitBytes(s, g, v, n).dead ==>
      Fits4(s.segments[g], Bytes(v, n)) && EmitBytes(s, g, v, n) == Appended(s, g, Bytes(v, n))
    decreases n
  {
    if n == 1 {
      assert Bytes(v, 1) == [v % 256];
      assert EmitBytes(s, g, v, 1) == EmitByte(s, g, v);
    } else {
      EmitMany(EmitByte(s, g, v), g, v / 256, n - 1);
      if !EmitBytes(s, g, v, n).dead { AppendedTwice(s, g, [v % 256], Bytes(v / 256, n - 1)); }
    }
  }

  // ----- what a line emits -----

  lemma EvaluateClean(s: State, e: Expr)
    requires StateOk(s)
    ensures Evaluate(s, e).0.errors >= s.errors && (s.dead ==> Evaluate(s, e).0.dead)
    ensures Clean(s, Evaluate(s, e).0) ==> Evaluate(s, e).0 == s
  {
  }

  function EncodeWord(op: int, v: int): seq<Byte> {
    [op % 256] + Bytes(v, 4)
  }

  /** The bytes an error-free line emits, and the segment they go to. */
  function Output(s: State, line: Line): seq<Byte>
    requires StateOk(s)
  {
    match line
    case Op(opcode, operand) => OpOutput(s, opcode, operand)
    case Extend(width, operand) => OpOutput(s, if width == 1 then OP_SEX8 else OP_SEX16, operand)
    case Call => [OP_CALL]
    case Arg => [OP_ARG, (8 + s.argOffset) % 256]
    case Ret => EncodeWord(OP_LEAVE, Frame(s))
    case Pop => [OP_POP]
    case AddrF(e) => EncodeWord(OP_LOCAL, 16 + s.args + s.locals + Evaluate(s, e).1)
    case AddrL(e) => EncodeWord(OP_LOCAL, 8 + s.args + Evaluate(s, e).1)
    case Proc(_, locals, args) => EncodeWord(OP_ENTER, 8 + RoundUp4(locals) + RoundUp4(args))
    case EndProc => [OP_PUSH] + EncodeWord(OP_LEAVE, Frame(s))
    case Address(e) => Bytes(Evaluate(s, e).1, 4)
    case Data(width, value) => if width <= 0 then [] else Bytes(value, width)
    case _ => []
  }

  function OpOutput(s: State, opcode: int, operand: Option<Expr>): seq<Byte>
    requires StateOk(s)
  {
    if opcode == OP_IGNORE then []
    else if operand.Some? && opcode != OP_CVIF && opcode != OP_CVFI then
      var v := Evaluate(s, operand.value).1;
      EncodeWord(opcode, if opcode == OP_BLOCK_COPY then RoundUp4(v) else v)
    else [opcode % 256]
  }

  function Target(line: Line, current: int): int {
    match line
    case Address(_) => DATASEG
    case Data(1, _) => LITSEG
    case Data(4, _) => DATASEG
    case Data(_, _) => current
    case _ => CODESEG
  }

  function Instructions(line: Line): nat {
    match line
    case Op(opcode, _) => if opcode == OP_IGNORE then 0 else 1
    case EndProc => 2
    case Address(_) => 0
    case Data(_, _) => 0
    case Align(_) => 0
    case Skip(_) => 0
    case Directive(_) => 0
    case Label(_) => 0
    case Equ(_, _) => 0
    case Ignored => 0
    case Unknown => 0
    case _ => 1
  }

  /** s' is s with b appended to segment g, leaving out the pseudo-segment of jump targets. */
  ghost predicate Emits(s: State, s': State, g: int, b: seq<Byte>, n: nat) {
    && StateOk(s) && StateOk(s') && 0 <= g < JTRGSEG
    && (b != [] ==> Fits4(s.segments[g], b))
    && (forall h :: 0 <= h < JTRGSEG ==>
          s'.segments[h] == if h == g && b != [] then Emitted(s.segments[g], b) else s.segments[h])
    && s'.count == s.count + n && s'.pass == s.pass
  }

  lemma OpEmits(s: State, opcode: int, operand: Option<Expr>)
    requires StateOk(s) && Clean(s, StepOp(s, opcode, operand)) && opcode != OP_IGNORE
    ensures Emits(s, StepOp(s, opcode, operand), CODESEG, OpOutput(s, opcode, operand), 1)
    ensures opcode != OP_UNDEF && StepOp(s, opcode, operand).(segments := s.segments, count := s.count) == s
  {
    if operand.Some? && opcode != OP_CVIF && opcode != OP_CVFI {
      var s0 := if opcode == OP_UNDEF then Fault(s) else s;
      var (s1, v) := Evaluate(s0, operand.value);
      EvaluateClean(s0, operand.value);
      EmitWord(s1, CODESEG, opcode, if opcode == OP_BLOCK_COPY then RoundUp4(v) else v);
    } else {
      EmitOne(s, CODESEG, opcode);
    }
  }

  lemma ArgEmits(s: State)
    requires StateOk(s) && Clean(s, StepArg(s))
    ensures Emits(s, StepArg(s), CODESEG, [OP_ARG, (8 + s.argOffset) % 256], 1)
    ensures 8 + s.argOffset < 256
    ensures StepArg(s).(segments := s.segments, count := s.count) == s.(argOffset := s.argOffset + 4)
  {
    var b: seq<Byte> := [(8 + s.argOffset) % 256];
    AppendedTwice(s, CODESEG, [OP_ARG], b);
    assert [OP_ARG] + b == [OP_ARG, (8 + s.argOffset) % 256];
  }

  lemma LocalEmits(s: State, e: Expr, extra: int)
    requires StateOk(s) && Clean(s, StepLocal(s, e, extra))
    ensures Emits(s, StepLocal(s, e, extra), CODESEG, EncodeWord(OP_LOCAL, extra + Evaluate(s, e).1), 1)
    ensures StepLocal(s, e, extra).(segments := s.segments, count := s.count) == s
  {
    hide EmitInt, EmitByte;
    EvaluateClean(Counted(s), e);
    var (s1, v) := Evaluate(Counted(s), e);
    EmitWord(s1, CODESEG, OP_LOCAL, extra + v);
  }

  lemma ProcEmits(s: State, name: string, locals: int, args: int)
    requires StateOk(s) && Clean(s, StepProc(s, name, locals, args))
    ensures Emits(s, StepProc(s, name, locals, args), CODESEG,
                  EncodeWord(OP_ENTER, 8 + RoundUp4(locals) + RoundUp4(args)), 1)
    ensures StepProc(s, name, locals, args).(segments := s.segments, count := s.count)
         == Define(s, name, s.count).(locals := RoundUp4(locals), args := RoundUp4(args))
    ensures Clean(s, Define(s, name, s.count))
  {
    hide EmitInt, EmitByte;
    var s1 := Define(s, name, s.count).(locals := RoundUp4(locals), args := RoundUp4(args));
    EmitWord(Counted(if Frame(s1) >= 32767 then Fault(s1) else s1), CODESEG, OP_ENTER, Frame(s1));
  }

  lemma EndProcState(s: State)
    requires StateOk(s) && Clean(s, StepEndProc(s))
    ensures
      var b := [OP_PUSH] + EncodeWord(OP_LEAVE, Frame(s));
      Fits4(s.segments[CODESEG], b) && StepEndProc(s) == Counted(Counted(Appended(s, CODESEG, b)))
  {
    hide EmitInt, EmitByte;
    var s1 := EmitByte(Counted(s), CODESEG, OP_PUSH);
    EmitWord(Counted(s1), CODESEG, OP_LEAVE, Frame(s1));
    EmitOne(Counted(s), CODESEG, OP_PUSH);
    AppendedTwice(s, CODESEG, [OP_PUSH], EncodeWord(OP_LEAVE, Frame(s)));
  }

  lemma EndProcEmits(s: State)
    requires StateOk(s) && Clean(s, StepEndProc(s))
    ensures Emits(s, StepEndProc(s), CODESEG, [OP_PUSH] + EncodeWord(OP_LEAVE, Frame(s)), 2)
    ensures StepEndProc(s).(segments := s.segments, count := s.count) == s
  {
    hide StepEndProc;
    EndProcState(s);
  }

  lemma RetEmits(s: State)
    requires StateOk(s) && Clean(s, StepLine(s, Ret))
    ensures Emits(s, StepLine(s, Ret), CODESEG, EncodeWord(OP_LEAVE, Frame(s)), 1)
    ensures StepLine(s, Ret).(segments := s.segments, count := s.count) == s
  {
    EmitWord(s, CODESEG, OP_LEAVE, Frame(s));
  }

  lemma HackClean(s: State, g: int)
    requires StateOk(s) && 0 <= g < NUM_SEGMENTS
    ensures Hack(s, g).errors == s.errors && Hack(s, g).segments == s.segments && (s.dead ==> Hack(s, g).dead)
    ensures Hack(s, g).(current := s.current, symbols := s.symbols, dead := s.dead) == s && Hack(s, g).current == g
  {
  }

  lemma AddressEmits(s: State, e: Expr)
    requires StateOk(s) && Clean(s, StepAddress(s, e))
    ensures Emits(s, StepAddress(s, e), DATASEG, Bytes(Evaluate(s, e).1, 4), 0)
    ensures StepAddress(s, e).(segments := s.segments) == Hack(s, DATASEG)
  {
    EvaluateClean(s, e);
    HackClean(Evaluate(s, e).0, DATASEG);
  }

  lemma {:induction false} DataEmits(s: State, width: int, value: int)
    requires StateOk(s) && 0 <= s.current < JTRGSEG && Clean(s, StepData(s, width, value))
    ensures
      var g := Target(Data(width, value), s.current);
      && Emits(s, StepData(s, width, value), g, if width <= 0 then [] else Bytes(value, width), 0)
      && StepData(s, width, value).(segments := s.segments) == Hack(s, g)
  {
    var g := Target(Data(width, value), s.current);
    HackClean(s, g);
    if width > 0 {
      EmitMany(if width == 2 then Fault(s) else Hack(s, g), g, value, width);
    }
  }

  /** Lines that only emit. */
  predicate Reserves(line: Line) {
    line.Align? || line.Skip?
  }

  lemma StepEmits(s: State, line: Line)
    requires StateOk(s) && 0 <= s.current < JTRGSEG && LineOk(line) && !Reserves(line) && Clean(s, StepLine(s, line))
    ensures Emits(s, StepLine(s, line), Target(line, s.current), Output(s, line), Instructions(line))
  {
    hide StepOp, StepArg, StepLocal, StepProc, StepEndProc, StepAddress, StepData, Emits, OpOutput, Evaluate;
    match line
    case Op(opcode, operand) => if opcode != OP_IGNORE { OpEmits(s, opcode, operand); } else { OpIgnored(s, operand); }
    case Extend(width, operand) => ExtendEmits(s, width, operand);
    case Call => CallEmits(s);
    case Arg => ArgEmits(s);
    case Ret => RetEmits(s);
    case Pop => PopEmits(s);
    case AddrF(e) => LocalEmits(s, e, 16 + s.args + s.locals);
    case AddrL(e) => LocalEmits(s, e, 8 + s.args);
    case Proc(name, locals, args) => ProcEmits(s, name, locals, args);
    case EndProc => EndProcEmits(s);
    case Address(e) => AddressEmits(s, e);
    case Data(width, value) => DataEmits(s, width, value);
    case Directive(_) => EmitsNothing(s, StepLine(s, line));
    case Label(name) => LabelClean(s, name); EmitsNothing(s, StepLine(s, line));
    case Equ(name, value) => EmitsNothing(s, StepLine(s, line));
    case Ignored => EmitsNothing(s, StepLine(s, line));
  }

  lemma EmitsNothing(s: State, s': State)
    requires StateOk(s) && StateOk(s') && s'.segments == s.segments && s'.count == s.count && s'.pass == s.pass
    ensures Emits(s, s', CODESEG, [], 0)
  {
  }

  lemma LabelClean(s: State, name: string)
    requires StateOk(s) && Clean(s, StepLabel(s, name))
    ensures s.current >= 0
    ensures StepLabel(s, name) == Define(s, name, if s.current == CODESEG then s.count else s.segments[s.current].used)
  {
  }

  lemma CallEmits(s: State)
    requires StateOk(s) && Clean(s, StepLine(s, Call))
    ensures Emits(s, StepLine(s, Call), CODESEG, [OP_CALL], 1)
    ensures StepLine(s, Call).(segments := s.segments, count := s.count) == s.(argOffset := 0)
  {
    EmitOne(s, CODESEG, OP_CALL);
  }

  lemma PopEmits(s: State)
    requires StateOk(s) && Clean(s, StepLine(s, Pop))
    ensures Emits(s, StepLine(s, Pop), CODESEG, [OP_POP], 1)
    ensures StepLine(s, Pop).(segments := s.segments, count := s.count) == s
  {
    EmitOne(s, CODESEG, OP_POP);
  }

  lemma OpIgnored(s: State, operand: Option<Expr>)
    requires StateOk(s)
    ensures Emits(s, StepOp(s, OP_IGNORE, operand), CODESEG, OpOutput(s, OP_IGNORE, operand), 0)
    ensures StepOp(s, OP_IGNORE, operand) == s
  {
  }

  lemma ExtendEmits(s: State, width: int, operand: Option<Expr>)
    requires StateOk(s) && Clean(s, StepExtend(s, width, operand))
    ensures width == 1 || width == 2
    ensures Emits(s, StepExtend(s, width, operand), CODESEG,
                  OpOutput(s, if width == 1 then OP_SEX8 else OP_SEX16, operand), 1)
    ensures StepExtend(s, width, operand).(segments := s.segments, count := s.count) == s
  {
    OpEmits(s, if width == 1 then OP_SEX8 else OP_SEX16, operand);
  }

  /** The state after an error-free line, apart from what the segments hold and the instruction count. */
  function Rest(s: State, line: Line): (s': State)
    requires StateOk(s) && LineOk(line)
    ensures StateOk(s')
  {
    match line
    case Call => s.(argOffset := 0)
    case Arg => s.(argOffset := s.argOffset + 4)
    case Proc(name, locals, args) =>
      Define(s, name, s.count).(locals := RoundUp4(locals), args := RoundUp4(args))
    case Address(_) => Hack(s, DATASEG)
    case Data(1, _) => Hack(s, LITSEG)
    case Data(4, _) => Hack(s, DATASEG)
    case Directive(g) => s.(current := g)
    case Label(name) =>
      Define(s, name, if s.current == CODESEG then s.count else if s.current < 0 then 0 else s.segments[s.current].used)
    case Equ(name, value) => Define(s, name, value)
    case _ => s
  }

  lemma StepRest(s: State, line: Line)
    requires StateOk(s) && 0 <= s.current < JTRGSEG && LineOk(line) && Clean(s, StepLine(s, line))
    ensures StepLine(s, line).(segments := s.segments, count := s.count) == Rest(s, line)
  {
    hide StepOp, StepArg, StepLocal, StepProc, StepEndProc, StepAddress, StepData, Emits, OpOutput, Evaluate,
         Hack;
    match line
    case Op(opcode, operand) => if opcode != OP_IGNORE { OpEmits(s, opcode, operand); } else { OpIgnored(s, operand); }
    case Extend(width, operand) => ExtendEmits(s, width, operand);
    case Call => CallEmits(s);
    case Arg => ArgEmits(s);
    case Ret => RetEmits(s);
    case Pop => PopEmits(s);
    case AddrF(e) => LocalEmits(s, e, 16 + s.args + s.locals);
    case AddrL(e) => LocalEmits(s, e, 8 + s.args);
    case Proc(name, locals, args) => ProcEmits(s, name, locals, args);
    case EndProc => EndProcEmits(s);
    case Address(e) => AddressEmits(s, e);
    case Data(width, value) => DataEmits(s, width, value); HackSame(s);
    case Label(name) => LabelClean(s, name);
    case _ =>
  }

  lemma HackSame(s: State)
    requires StateOk(s) && s.current >= 0
    ensures Hack(s, s.current) == s
  {
  }

  /** Errors are never taken back. */
  lemma StepErrors(s: State, line: Line)
    requires StateOk(s) && LineOk(line)
    ensures StepLine(s, line).errors >= s.errors
  {
    hide StepOp, StepProc, StepAddress, StepData, Evaluate, Emitted, Bytes;
    match line
    case Op(opcode, operand) => OpErrors(s, opcode, operand);
    case Extend(width, operand) => OpErrors(s, if width == 1 then OP_SEX8 else OP_SEX16, operand);
    case AddrF(e) => EvaluateClean(Counted(s), e);
    case AddrL(e) => EvaluateClean(Counted(s), e);
    case Proc(name, locals, args) => ProcErrors(s, name, locals, args);
    case Address(e) => AddressErrors(s, e);
    case Data(width, value) => DataErrors(s, width, value);
    case _ =>
  }

  lemma OpErrors(s: State, opcode: int, operand: Option<Expr>)
    requires StateOk(s)
    ensures StepOp(s, opcode, operand).errors >= s.errors
  {
    hide Evaluate, Emitted;
    if operand.Some? { EvaluateClean(if opcode == OP_UNDEF then Fault(s) else s, operand.value); }
  }

  lemma ProcErrors(s: State, name: string, locals: int, args: int)
    requires StateOk(s)
    ensures StepProc(s, name, locals, args).errors >= s.errors
  {
  }

  lemma AddressErrors(s: State, e: Expr)
    requires StateOk(s)
    ensures StepAddress(s, e).errors >= s.errors
  {
    EvaluateClean(s, e);
    HackClean(Evaluate(s, e).0, DATASEG);
  }

  lemma DataErrors(s: State, width: int, value: int)
    requires StateOk(s)
    ensures StepData(s, width, value).errors >= s.errors
  {
    var s1 := if width == 1 then Hack(s, LITSEG)
              else if width == 4 then Hack(s, DATASEG)
              else if width == 2 then Fault(s) else s;
    if width > 0 && s1.current >= 0 { EmitMany(s1, s1.current, value, width); }
  }

  // ----- layout -----

  /** imageUsed of the code, data, lit and bss segments, currentSegment and instructionCount. */
  datatype Layout = Layout(used: seq<nat>, current: int, count: nat)

  predicate LayoutOk(l: Layout) {
    |l.used| == 4 && 0 <= l.current < 4
  }

  function LayoutOf(s: State): Layout
    requires StateOk(s)
  {
    Layout([s.segments[0].used, s.segments[1].used, s.segments[2].used, s.segments[3].used], s.current, s.count)
  }

  lemma LayoutUsed(s: State, g: int)
    requires StateOk(s) && 0 <= g < 4
    ensures LayoutOf(s).used[g] == s.segments[g].used
  {
  }

  /** The number of bytes a line emits, in either pass. */
  function OutputSize(line: Line): nat {
    match line
    case Op(opcode, operand) => if opcode == OP_IGNORE then 0 else OpSize(opcode, operand)
    case Extend(_, operand) => OpSize(OP_SEX8, operand)
    case Call => 1
    case Arg => 2
    case Ret => 5
    case Pop => 1
    case AddrF(_) => 5
    case AddrL(_) => 5
    case Proc(_, _, _) => 5
    case EndProc => 6
    case Address(_) => 4
    case Data(width, _) => if width <= 0 then 0 else width
    case _ => 0
  }

  function OpSize(opcode: int, operand: Option<Expr>): nat {
    if operand.Some? && opcode != OP_CVIF && opcode != OP_CVFI then 5 else 1
  }

  lemma OutputLength(s: State, line: Line)
    requires StateOk(s) && LineOk(line) && Clean(s, StepLine(s, line))
    ensures |Output(s, line)| == OutputSize(line)
  {
    hide Evaluate, StepLine;
  }

  function NextSegment(line: Line, current: int): int {
    match line
    case Directive(g) => g
    case Address(_) => DATASEG
    case Data(_, _) => Target(line, current)
    case _ => current
  }

  /** How an error-free line advances the layout, in either pass. */
  function Advance(line: Line, l: Layout): (l': Layout)
    requires LayoutOk(l) && LineOk(line)
    ensures LayoutOk(l')
  {
    match line
    case Align(n) => l.(used := l.used[l.current := Aligned(l.used[l.current], n)])
    case Skip(n) => l.(used := l.used[l.current := l.used[l.current] + n])
    case _ =>
      var g := Target(line, l.current);
      Layout(l.used[g := l.used[g] + OutputSize(line)], NextSegment(line, l.current), l.count + Instructions(line))
  }

  lemma RestCurrent(s: State, line: Line)
    requires StateOk(s) && 0 <= s.current < JTRGSEG && LineOk(line)
    ensures Rest(s, line).current == NextSegment(line, s.current)
  {
  }

  /** Neither pass departs from the layout: what a line reserves depends on nothing else. */
  lemma StepLayout(s: State, line: Line)
    requires StateOk(s) && LayoutOk(LayoutOf(s)) && LineOk(line) && Clean(s, StepLine(s, line))
    ensures LayoutOf(StepLine(s, line)) == Advance(line, LayoutOf(s))
  {
    StepRest(s, line);
    RestCurrent(s, line);
    if Reserves(line) {
      ReserveLayout(s, line);
    } else {
      StepEmits(s, line);
      OutputLength(s, line);
      EmitsLayout(s, StepLine(s, line), line, Output(s, line));
    }
  }

  lemma ReserveLayout(s: State, line: Line)
    requires StateOk(s) && LayoutOk(LayoutOf(s)) && LineOk(line) && Reserves(line) && Clean(s, StepLine(s, line))
    ensures LayoutOf(StepLine(s, line)) == Advance(line, LayoutOf(s))
  {
  }

  lemma EmitsLayout(s: State, s': State, line: Line, b: seq<Byte>)
    requires LineOk(line) && !Reserves(line) && Emits(s, s', Target(line, s.current), b, Instructions(line))
    requires LayoutOk(LayoutOf(s)) && |b| == OutputSize(line) && s'.current == NextSegment(line, s.current)
    ensures LayoutOf(s') == Advance(line, LayoutOf(s))
  {
  }
}
