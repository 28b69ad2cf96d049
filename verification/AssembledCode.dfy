// The code segment that q3asm builds is the encoding of the instructions its
// lines stand for, and code labels are instruction numbers.

module AssembledCode {
  import opened Words
  import opened Bytecode
  import opened Assembly
  import opened AssemblyLines
  import opened Passes

  /** Lines as lcc prints them: an operand exactly where the interpreter reads one. */
  predicate Shaped(line: Line) {
    match line
    case Op(opcode, operand) =>
      opcode == OP_IGNORE || (0 <= opcode < OP_MAX && opcode != OP_ARG
          && (OpSize(opcode, operand) == 5 <==> HasWord(opcode)))
    case Extend(_, operand) => operand == None
    case Data(width, _) => width == 1 || width == 4
    case _ => true
  }

  function OneWord(op: int, v: int): seq<Instr> {
    [Instr(op, Wrap(v))]
  }

  /** The instructions that an error-free line appends. */
  function Instrs(s: State, line: Line): seq<Instr>
    requires StateOk(s)
  {
    match line
    case Op(opcode, operand) =>
      if opcode == OP_IGNORE then []
      else if OpSize(opcode, operand) == 5 then
        var v := Evaluate(s, operand.value).1;
        OneWord(opcode, if opcode == OP_BLOCK_COPY then RoundUp4(v) else v)
      else [Instr(opcode, 0)]
    case Extend(width, _) => [Instr(if width == 1 then OP_SEX8 else OP_SEX16, 0)]
    case Call => [Instr(OP_CALL, 0)]
    case Arg => [Instr(OP_ARG, 8 + s.argOffset)]
    case Ret => OneWord(OP_LEAVE, Frame(s))
    case Pop => [Instr(OP_POP, 0)]
    case AddrF(e) => OneWord(OP_LOCAL, 16 + s.args + s.locals + Evaluate(s, e).1)
    case AddrL(e) => OneWord(OP_LOCAL, 8 + s.args + Evaluate(s, e).1)
    case Proc(_, locals, args) => OneWord(OP_ENTER, 8 + RoundUp4(locals) + RoundUp4(args))
    case EndProc => [Instr(OP_PUSH, 0)] + OneWord(OP_LEAVE, Frame(s))
    case _ => []
  }

  /** The lines that append to the code segment. */
  predicate Codes(line: Line) {
    Instructions(line) > 0
  }

  lemma EncodesOne(i: Instr)
    requires WellFormed(i)
    ensures AllWellFormed([i]) && Encode([i]) == EncodeOne(i)
  {
  }

  lemma EncodesTwo(i: Instr, j: Instr)
    requires WellFormed(i) && WellFormed(j)
    ensures AllWellFormed([i, j]) && Encode([i, j]) == EncodeOne(i) + EncodeOne(j)
  {
    EncodesOne(i);
    assert [i, j][..1] == [i];
  }

  lemma {:induction false} SameBytes(v: int)
    ensures Bytes(Wrap(v), 4) == Bytes(v, 4)
  {
    Pow256At4();
    BytesCongruent(Wrap(v), v, 4, (Wrap(v) - v) / TWO32);
  }

  lemma EncodesWord(op: int, v: int)
    requires 0 <= op < OP_MAX && HasWord(op)
    ensures AllWellFormed(OneWord(op, v)) && Encode(OneWord(op, v)) == EncodeWord(op, v)
  {
    SameBytes(v);
    EncodesOne(Instr(op, Wrap(v)));
  }

  /** What a shaped line emits is the encoding of its instructions. */
  lemma OutputEncodes(s: State, line: Line)
    requires StateOk(s) && Shaped(line) && Codes(line) && (line.Arg? ==> 8 + s.argOffset < 256)
    ensures AllWellFormed(Instrs(s, line)) && Encode(Instrs(s, line)) == Output(s, line)
    ensures |Instrs(s, line)| == Instructions(line)
  {
    hide Evaluate, Encode, Bytes, EncodeWord;
    match line
    case Op(opcode, operand) =>
      if OpSize(opcode, operand) == 5 {
        var v := Evaluate(s, operand.value).1;
        EncodesWord(opcode, if opcode == OP_BLOCK_COPY then RoundUp4(v) else v);
      } else {
        EncodesOne(Instr(opcode, 0));
      }
    case Extend(width, _) => EncodesOne(Instr(if width == 1 then OP_SEX8 else OP_SEX16, 0));
    case Call => EncodesOne(Instr(OP_CALL, 0));
    case Arg => EncodesOne(Instr(OP_ARG, 8 + s.argOffset));
    case Ret => EncodesWord(OP_LEAVE, Frame(s));
    case Pop => EncodesOne(Instr(OP_POP, 0));
    case AddrF(e) => EncodesWord(OP_LOCAL, 16 + s.args + s.locals + Evaluate(s, e).1);
    case AddrL(e) => EncodesWord(OP_LOCAL, 8 + s.args + Evaluate(s, e).1);
    case Proc(_, locals, args) => EncodesWord(OP_ENTER, 8 + RoundUp4(locals) + RoundUp4(args));
    case EndProc => EndProcEncodes(Frame(s));
  }

  lemma EndProcEncodes(frame: int)
    ensures
      var code := [Instr(OP_PUSH, 0)] + OneWord(OP_LEAVE, frame);
      AllWellFormed(code) && Encode(code) == [OP_PUSH] + EncodeWord(OP_LEAVE, frame)
  {
    SameBytes(frame);
    EncodesTwo(Instr(OP_PUSH, 0), Instr(OP_LEAVE, Wrap(frame)));
  }

  lemma {:induction false} EncodeBoth(a: seq<Instr>, b: seq<Instr>)
    requires AllWellFormed(a) && AllWellFormed(b)
    ensures AllWellFormed(a + b) && Encode(a + b) == Encode(a) + Encode(b)
    decreases |b|
  {
    hide EncodeOne;
    if b == [] {
      assert a + b == a;
    } else {
      var n := |b| - 1;
      EncodeBoth(a, b[..n]);
      assert (a + b)[..|a + b| - 1] == a + b[..n];
    }
  }

  // ----- the segment -----

  /** What the lines append, from the instructions of the first to those of the last. */
  ghost function Program(source: seq<Input>, s: State): seq<Instr>
    requires SourceOk(source) && StateOk(s)
    decreases |source|
  {
    if source == [] then []
    else
      var front, last := source[..|source| - 1], source[|source| - 1];
      Program(front, s) + Instrs(Assembled(front, s).(file := last.file), last.line)
  }

  /** Shaped lines, and no align or skip while the code segment is current. */
  ghost predicate ShapedSource(source: seq<Input>, l: Layout)
    requires SourceOk(source) && LayoutOk(l)
  {
    forall k :: 0 <= k < |source| ==>
      Shaped(source[k].line) && (Reserves(source[k].line) ==> Laid(source[..k], l).current != CODESEG)
  }

  /** The code segment after a line. */
  lemma CodeStep(s: State, line: Line)
    requires StateOk(s) && 0 <= s.current < JTRGSEG && LineOk(line) && Clean(s, StepLine(s, line))
    requires Shaped(line) && (Reserves(line) ==> s.current != CODESEG)
    ensures
      var s' := StepLine(s, line);
      if Codes(line) then
        && (line.Arg? ==> 8 + s.argOffset < 256)
        && Fits4(s.segments[CODESEG], Output(s, line))
        && s'.segments[CODESEG] == Emitted(s.segments[CODESEG], Output(s, line))
        && s'.count == s.count + Instructions(line)
      else s'.segments[CODESEG] == s.segments[CODESEG] && s'.count == s.count
  {
    hide Output, StepOp, StepArg, StepLocal, StepProc, StepEndProc, StepAddress, StepData;
    if !Reserves(line) {
      StepEmits(s, line);
      OutputLength(s, line);
      if line.Arg? { ArgEmits(s); }
    }
  }

  lemma {:induction false} ProgramStep(source: seq<Input>, s: State, k: nat)
    requires SourceOk(source) && StateOk(s) && k < |source|
    ensures SourceOk(source[..k]) && SourceOk(source[..k + 1])
    ensures Program(source[..k + 1], s)
         == Program(source[..k], s) + Instrs(Assembled(source[..k], s).(file := source[k].file), source[k].line)
  {
    assert source[..k + 1][..k] == source[..k];
  }

  /** The code segment t comes to hold the program. */
  ghost predicate HoldsProgram(t: State, program: seq<Instr>) {
    && StateOk(t) && AllWellFormed(program) && t.count == |program|
    && t.segments[CODESEG].used == |Encode(program)| <= VM_MAX_IMAGE_SIZE
    && Encode(program) <= t.segments[CODESEG].image
  }

  lemma EmittedAfter(seg: Segment, a: seq<Byte>, b: seq<Byte>)
    requires seg.used == |a| && a <= seg.image && Fits4(seg, b)
    ensures a + b <= Emitted(seg, b).image && Emitted(seg, b).used == |a + b|
  {
  }

  /** One more line. */
  lemma HoldsMore(t: State, line: Line, program: seq<Instr>)
    requires HoldsProgram(t, program) && 0 <= t.current < JTRGSEG && LineOk(line) && Clean(t, StepLine(t, line))
    requires Shaped(line) && (Reserves(line) ==> t.current != CODESEG)
    ensures HoldsProgram(StepLine(t, line), program + Instrs(t, line))
  {
    hide StepLine, Instrs, Output, Encode;
    CodeStep(t, line);
    if Codes(line) {
      OutputEncodes(t, line);
      EncodeBoth(program, Instrs(t, line));
      EmittedAfter(t.segments[CODESEG], Encode(program), Output(t, line));
    } else {
      NoInstrs(t, line);
      assert program + [] == program;
    }
  }

  lemma NoInstrs(t: State, line: Line)
    requires StateOk(t) && Shaped(line) && !Codes(line)
    ensures Instrs(t, line) == []
  {
  }

  /** After k lines of an error-free pass the code segment is the encoding of their instructions. */
  lemma {:induction false} CodeSegment(source: seq<Input>, s: State, k: nat)
    requires SourceOk(source) && Opening(source) && Fresh(s) && Clean(s, Assembled(source, s))
    requires ShapedSource(source, Origin(source)) && 1 <= k <= |source|
    ensures SourceOk(source[..k]) && HoldsProgram(Assembled(source[..k], s), Program(source[..k], s))
    decreases k
  {
    hide StepLine, Instrs, Encode, Laid, HoldsProgram;
    var n := k - 1;
    CleanStep(source, s, n);
    ProgramStep(source, s, n);
    var t := Assembled(source[..n], s).(file := source[n].file);
    if n == 0 {
      assert source[..0] == [];
      assert Program([], s) == [] && Assembled([], s) == s;
      OpeningStep(t, source[0].line);
    } else {
      CodeSegment(source, s, n);
      LayoutAfter(source, s, n);
      HoldsInFile(Assembled(source[..n], s), Program(source[..n], s), source[n].file);
      HoldsMore(t, source[n].line, Program(source[..n], s));
    }
  }

  lemma HoldsInFile(t: State, program: seq<Instr>, file: nat)
    requires HoldsProgram(t, program)
    ensures HoldsProgram(t.(file := file), program)
  {
  }

  lemma OpeningStep(t: State, line: Line)
    requires StateOk(t) && t.segments[CODESEG].used == 0 && t.count == 0 && line.Directive? && LineOk(line)
    ensures Instrs(t, line) == [] && HoldsProgram(StepLine(t, line), [])
  {
  }

  /** What a segment does not use yet is as it was. */
  ghost predicate Untouched(a: Segment, b: Segment) {
    |b.image| == |a.image| && a.used <= b.used && forall j :: b.used <= j < |a.image| ==> b.image[j] == a.image[j]
  }

  lemma EmittedUntouched(a: Segment, seg: Segment, b: seq<Byte>)
    requires Untouched(a, seg) && Fits4(seg, b)
    ensures Untouched(a, Emitted(seg, b))
  {
  }

  /** A line writes nothing behind what it emits. */
  lemma StepUntouched(a: Segment, t: State, line: Line)
    requires StateOk(t) && 0 <= t.current < JTRGSEG && LineOk(line) && Clean(t, StepLine(t, line))
    requires Shaped(line) && (Reserves(line) ==> t.current != CODESEG) && Untouched(a, t.segments[CODESEG])
    ensures Untouched(a, StepLine(t, line).segments[CODESEG])
  {
    hide StepLine, Output, Untouched;
    CodeStep(t, line);
    if Codes(line) { EmittedUntouched(a, t.segments[CODESEG], Output(t, line)); }
  }

  /** Behind the encoding the code segment is as it was before the pass. */
  lemma {:induction false} RestUntouched(source: seq<Input>, s: State, k: nat)
    requires SourceOk(source) && Opening(source) && Fresh(s) && Clean(s, Assembled(source, s))
    requires ShapedSource(source, Origin(source)) && 1 <= k <= |source|
    ensures SourceOk(source[..k]) && Untouched(s.segments[CODESEG], Assembled(source[..k], s).segments[CODESEG])
    decreases k
  {
    hide StepLine, Laid;
    var n := k - 1;
    CleanStep(source, s, n);
    var t := Assembled(source[..n], s).(file := source[n].file);
    if n == 0 {
      assert source[..0] == [];
      assert Assembled([], s) == s;
      OpeningUntouched(t, source[0].line);
    } else {
      RestUntouched(source, s, n);
      LayoutAfter(source, s, n);
      StepUntouched(s.segments[CODESEG], t, source[n].line);
    }
  }

  lemma OpeningUntouched(t: State, line: Line)
    requires StateOk(t) && line.Directive? && LineOk(line)
    ensures Untouched(t.segments[CODESEG], StepLine(t, line).segments[CODESEG])
  {
  }
}
