// What q3asm/q3asm.c does with a line of assembly, as functions on the state
// that its globals hold.

module Assembly {
  import opened Words
  import opened Bytecode

  const VM_MAX_IMAGE_SIZE := 0x40_0000

  // segmentName_t
  const CODESEG := 0
  const DATASEG := 1
  const LITSEG := 2
  const BSSSEG := 3
  const JTRGSEG := 4
  const NUM_SEGMENTS := 5

  // ----- lines -----

  datatype Base = Number(n: int) | Name(name: string)

  /** A symbol or a number, plus and minus numbers. */
  datatype Expr = Expr(base: Base, offset: int)

  datatype Line =
    | Op(opcode: int, operand: Option<Expr>)     // from the table of opstrings.h
    | Extend(width: int, operand: Option<Expr>)  // CVII4
    | Call
    | Arg
    | Ret
    | Pop
    | AddrF(e: Expr)
    | AddrL(e: Expr)
    | Proc(name: string, locals: int, args: int)
    | EndProc
    | Address(e: Expr)
    | Data(width: int, value: int)               // byte
    | Align(n: nat)
    | Skip(n: nat)
    | Directive(seg: int)                        // code, data, lit, bss
    | Label(name: string)
    | Equ(name: string, value: int)
    | Ignored                                    // line, file, import, export, blank lines
    | Unknown

  datatype Input = Input(file: nat, line: Line)

  /** align takes a power of two, and a directive names a real segment. */
  ghost predicate LineOk(line: Line) {
    && (line.Align? ==> exists k: nat :: k < 31 && line.n == Pow2(k))
    && (line.Directive? ==> CODESEG <= line.seg <= BSSSEG)
  }

  // ----- state -----

  /** segment -1 is the null pointer that currentSegment starts as. */
  datatype Symbol = Symbol(segment: int, value: int)

  datatype Segment = Segment(image: seq<Byte>, used: nat, base: int)

  /** dead: Error() has ended the assembler, or C leaves what follows undefined. */
  datatype State = State(
    segments: seq<Segment>, current: int, count: nat,
    locals: int, args: int, argOffset: nat,
    symbols: map<string, Symbol>, last: Option<string>,
    pass: nat, file: nat, errors: nat, dead: bool)

  predicate StateOk(s: State) {
    && |s.segments| == NUM_SEGMENTS && -1 <= s.current < NUM_SEGMENTS && s.pass <= 1
    && (forall g :: 0 <= g < NUM_SEGMENTS ==> |s.segments[g].image| == VM_MAX_IMAGE_SIZE)
    && (forall x :: x in s.symbols ==> -1 <= s.symbols[x].segment < NUM_SEGMENTS)
    && (s.last.Some? ==> s.last.value in s.symbols)
  }

  function Fault(s: State): State { s.(errors := s.errors + 1) }
  function Die(s: State): State { s.(dead := true) }

  function Used(s: State, g: int, n: nat): State
    requires 0 <= g < |s.segments|
  {
    s.(segments := s.segments[g := s.segments[g].(used := n)])
  }

  // ----- emitting -----

  function Patched(image: seq<Byte>, at: nat, b: seq<Byte>): (r: seq<Byte>)
    requires at + |b| <= |image|
    ensures |r| == |image|
  {
    image[..at] + b + image[at + |b|..]
  }

  function Emitted(seg: Segment, b: seq<Byte>): Segment
    requires seg.used + |b| <= |seg.image|
  {
    seg.(image := Patched(seg.image, seg.used, b), used := seg.used + |b|)
  }

  function EmitByte(s: State, g: int, v: int): (s': State)
    requires StateOk(s) && 0 <= g < NUM_SEGMENTS
    ensures StateOk(s')
  {
    if s.dead || s.segments[g].used >= VM_MAX_IMAGE_SIZE then Die(s)
    else s.(segments := s.segments[g := Emitted(s.segments[g], [v % 256])])
  }

  function EmitInt(s: State, g: int, v: int): (s': State)
    requires StateOk(s) && 0 <= g < NUM_SEGMENTS
    ensures StateOk(s')
  {
    if s.dead || s.segments[g].used >= VM_MAX_IMAGE_SIZE - 4 then Die(s)
    else s.(segments := s.segments[g := Emitted(s.segments[g], Bytes(v, 4))])
  }

  /** The n low bytes of v, one EmitByte at a time. */
  function EmitBytes(s: State, g: int, v: int, n: nat): (s': State)
    requires StateOk(s) && 0 <= g < NUM_SEGMENTS
    ensures StateOk(s')
    decreases n
  {
    if n == 0 then s else EmitBytes(EmitByte(s, g, v), g, v / 256, n - 1)
  }

  // ----- symbols -----

  function Digits(n: nat): string
    decreases n
  {
    (if n < 10 then [] else Digits(n / 10)) + [(n % 10 + '0' as int) as char]
  }

  /** Local symbols get the number of their file. */
  function Expanded(name: string, file: nat): string {
    if name != [] && name[0] == '$' then name + "_" + Digits(file) else name
  }

  function Define(s: State, name: string, value: int): (s': State)
    requires StateOk(s)
    ensures StateOk(s')
  {
    var x := Expanded(name, s.file);
    if s.pass == 1 then s
    else if x in s.symbols then Fault(s)
    else s.(symbols := s.symbols[x := Symbol(s.current, value)], last := Some(x))
  }

  /** An undefined symbol is reported once and then defined as 0, under its expanded name expanded again. */
  function Lookup(s: State, name: string): (r: (State, int))
    requires StateOk(s)
    ensures StateOk(r.0)
  {
    var x := Expanded(name, s.file);
    if s.pass == 0 then (s, 0)
    else if x in s.symbols then
      var y := s.symbols[x];
      if y.segment < 0 then (Die(s), 0) else (s, s.segments[y.segment].base + y.value)
    else (Define(Fault(s).(pass := 0), x, 0).(pass := 1), 0)
  }

  function Evaluate(s: State, e: Expr): (r: (State, int))
    requires StateOk(s)
    ensures StateOk(r.0)
  {
    match e.base
    case Number(n) => (s, n + e.offset)
    case Name(x) => var (s', v) := Lookup(s, x); (s', v + e.offset)
  }

  /** HackToSegment: moves the symbol defined last along with the data. */
  function Hack(s: State, g: int): (s': State)
    requires StateOk(s) && 0 <= g < NUM_SEGMENTS
    ensures StateOk(s')
  {
    if s.current == g then s
    else if s.pass != 0 then s.(current := g)
    else match s.last
      case Some(x) => s.(current := g, symbols := s.symbols[x := Symbol(g, s.segments[g].used)])
      case None => Die(s.(current := g))
  }

  lemma EvaluateKeepsPass(s: State, e: Expr)
    requires StateOk(s)
    ensures Evaluate(s, e).0.pass == s.pass
  {
  }

  lemma HackKeepsPass(s: State, g: int)
    requires StateOk(s) && 0 <= g < NUM_SEGMENTS
    ensures Hack(s, g).pass == s.pass
  {
  }

  lemma EmitKeeps(s: State, g: int, v: int)
    requires StateOk(s) && 0 <= g < NUM_SEGMENTS
    ensures EmitByte(s, g, v).(segments := s.segments, dead := s.dead) == s
    ensures EmitInt(s, g, v).(segments := s.segments, dead := s.dead) == s
  {
  }

  // ----- lines -----

  /** n rounded up to a multiple of v. */
  function Aligned(n: nat, v: nat): nat {
    if v == 0 then n else RoundUp(n, v)
  }

  function Frame(s: State): int { 8 + s.locals + s.args }

  function Counted(s: State): State { s.(count := s.count + 1) }

  function StepOp(s: State, opcode: int, operand: Option<Expr>): (s': State)
    requires StateOk(s)
    ensures StateOk(s')
  {
    var s0 := if opcode == OP_UNDEF then Fault(s) else s;
    if opcode == OP_IGNORE then s
    else if operand.Some? && opcode != OP_CVIF && opcode != OP_CVFI then
      var (s1, v) := Evaluate(s0, operand.value);
      Counted(EmitInt(EmitByte(s1, CODESEG, opcode), CODESEG, if opcode == OP_BLOCK_COPY then RoundUp4(v) else v))
    else Counted(EmitByte(s0, CODESEG, opcode))
  }

  function StepExtend(s: State, width: int, operand: Option<Expr>): (s': State)
    requires StateOk(s)
    ensures StateOk(s')
  {
    if width == 1 then StepOp(s, OP_SEX8, operand)
    else if width == 2 then StepOp(s, OP_SEX16, operand)
    else Fault(s)
  }

  function StepArg(s: State): (s': State)
    requires StateOk(s)
    ensures StateOk(s')
  {
    var s1 := Counted(EmitByte(s, CODESEG, OP_ARG));
    if 8 + s.argOffset >= 256 then Fault(s1)
    else EmitByte(s1, CODESEG, 8 + s.argOffset).(argOffset := s.argOffset + 4)
  }

  function StepLocal(s: State, e: Expr, extra: int): (s': State)
    requires StateOk(s)
    ensures StateOk(s')
  {
    var (s1, v) := Evaluate(Counted(s), e);
    EmitInt(EmitByte(s1, CODESEG, OP_LOCAL), CODESEG, extra + v)
  }

  function StepProc(s: State, name: string, locals: int, args: int): (s': State)
    requires StateOk(s)
    ensures StateOk(s')
  {
    var s1 := Define(s, name, s.count).(locals := RoundUp4(locals), args := RoundUp4(args));
    var s2 := Counted(if Frame(s1) >= 32767 then Fault(s1) else s1);
    EmitInt(EmitByte(s2, CODESEG, OP_ENTER), CODESEG, Frame(s2))
  }

  function StepEndProc(s: State): (s': State)
    requires StateOk(s)
    ensures StateOk(s')
  {
    var s1 := EmitByte(Counted(s), CODESEG, OP_PUSH);
    EmitInt(EmitByte(Counted(s1), CODESEG, OP_LEAVE), CODESEG, Frame(s1))
  }

  predicate IsLocal(e: Expr) {
    e.base.Name? && e.base.name != [] && e.base.name[0] == '$'
  }

  function StepAddress(s: State, e: Expr): (s': State)
    requires StateOk(s)
    ensures StateOk(s')
  {
    var (s1, v) := Evaluate(s, e);
    var s2 := Hack(s1, DATASEG);
    var s3 := EmitInt(s2, DATASEG, v);
    if s.pass == 1 && IsLocal(e) then EmitInt(s3, JTRGSEG, v) else s3
  }

  function StepData(s: State, width: int, value: int): (s': State)
    requires StateOk(s)
    ensures StateOk(s')
  {
    var s1 := if width == 1 then Hack(s, LITSEG)
              else if width == 4 then Hack(s, DATASEG)
              else if width == 2 then Fault(s) else s;
    if width <= 0 then s1
    else if s1.current < 0 then Die(s1)
    else EmitBytes(s1, s1.current, value, width)
  }

  function StepLabel(s: State, name: string): (s': State)
    requires StateOk(s)
    ensures StateOk(s')
  {
    if s.current == CODESEG then Define(s, name, s.count)
    else if s.current < 0 then Die(s)
    else Define(s, name, s.segments[s.current].used)
  }

  /** align and skip; a sum beyond int is undefined. */
  function StepReserve(s: State, used: nat): (s': State)
    requires StateOk(s)
    ensures StateOk(s')
  {
    if s.current < 0 || used >= TWO31 then Die(s) else Used(s, s.current, used)
  }

  function Current(s: State): nat
    requires StateOk(s)
  {
    if s.current < 0 then 0 else s.segments[s.current].used
  }

  function StepAlign(s: State, n: nat): (s': State)
    requires StateOk(s)
    ensures StateOk(s')
  {
    if Current(s) + n >= TWO31 then Die(s) else StepReserve(s, Aligned(Current(s), n))
  }

  function StepLine(s: State, line: Line): (s': State)
    requires StateOk(s) && (line.Directive? ==> CODESEG <= line.seg <= BSSSEG)
    ensures StateOk(s')
  {
    match line
    case Op(opcode, operand) => StepOp(s, opcode, operand)
    case Extend(width, operand) => StepExtend(s, width, operand)
    case Call => Counted(EmitByte(s, CODESEG, OP_CALL)).(argOffset := 0)
    case Arg => StepArg(s)
    case Ret => EmitInt(Counted(EmitByte(s, CODESEG, OP_LEAVE)), CODESEG, Frame(s))
    case Pop => Counted(EmitByte(s, CODESEG, OP_POP))
    case AddrF(e) => StepLocal(s, e, 16 + s.args + s.locals)
    case AddrL(e) => StepLocal(s, e, 8 + s.args)
    case Proc(name, locals, args) => StepProc(s, name, locals, args)
    case EndProc => StepEndProc(s)
    case Address(e) => StepAddress(s, e)
    case Data(width, value) => StepData(s, width, value)
    case Align(n) => StepAlign(s, n)
    case Skip(n) => StepReserve(s, Current(s) + n)
    case Directive(g) => s.(current := g)
    case Label(name) => StepLabel(s, name)
    case Equ(name, value) => Define(s, name, value)
    case Ignored => s
    case Unknown => Fault(s)
  }

  /** AssembleLine; once the assembler is dead nothing changes any more. */
  function Step(s: State, input: Input): (s': State)
    requires StateOk(s) && (input.line.Directive? ==> CODESEG <= input.line.seg <= BSSSEG)
    ensures StateOk(s')
  {
    if s.dead then s else StepLine(s.(file := input.file), input.line)
  }
}
