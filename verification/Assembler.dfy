// q3asm/q3asm.c as it works: globals updated line by line, twice over the
// source.

module Assembler {
  import opened Words
  import opened Bytecode
  import opened Assembly
  import opened Passes
  import opened AssembledCode
  import opened Addresses

  lemma PatchOne(image: seq<Byte>, at: nat, v: Byte)
    requires at < |image|
    ensures image[at := v] == Patched(image, at, [v])
  {
  }

  lemma {:induction false} PatchFour(image: seq<Byte>, at: nat, v: int)
    requires at + 4 <= |image|
    ensures
      image[at := v % 256][at + 1 := v / 256 % 256][at + 2 := v / 256 / 256 % 256][at + 3 := v / 256 / 256 / 256 % 256]
      == Patched(image, at, Bytes(v, 4))
  {
  }

  class Asm {
    var segment: seq<Segment>
    var currentSegment: int
    var instructionCount: nat
    var currentLocals: int
    var currentArgs: int
    var currentArgOffset: nat
    var symtable: map<string, Symbol>
    var lastSymbol: Option<string>
    var passNumber: nat
    var currentFileIndex: nat
    var errorCount: nat
    var exited: bool

    ghost function View(): State
      reads this
    {
      State(segment, currentSegment, instructionCount, currentLocals, currentArgs, currentArgOffset,
            symtable, lastSymbol, passNumber, currentFileIndex, errorCount, exited)
    }

    method CodeError()
      modifies this
      ensures View() == Fault(old(View()))
    {
      errorCount := errorCount + 1;
    }

    // ----- emitting -----

    method EmitByte(g: int, v: int)
      requires StateOk(View()) && 0 <= g < NUM_SEGMENTS
      modifies this
      ensures View() == Assembly.EmitByte(old(View()), g, v)
    {
      var seg := segment[g];
      if exited || seg.used >= VM_MAX_IMAGE_SIZE {
        exited := true;
        return;
      }
      PatchOne(seg.image, seg.used, v % 256);
      segment := segment[g := seg.(image := seg.image[seg.used := v % 256], used := seg.used + 1)];
    }

    method EmitInt(g: int, v: int)
      requires StateOk(View()) && 0 <= g < NUM_SEGMENTS
      modifies this
      ensures View() == Assembly.EmitInt(old(View()), g, v)
    {
      var seg := segment[g];
      if exited || seg.used >= VM_MAX_IMAGE_SIZE - 4 {
        exited := true;
        return;
      }
      var at, image := seg.used, seg.image;
      PatchFour(image, at, v);
      image := image[at := v % 256];
      image := image[at + 1 := v / 256 % 256];
      image := image[at + 2 := v / 256 / 256 % 256];
      image := image[at + 3 := v / 256 / 256 / 256 % 256];
      segment := segment[g := seg.(image := image, used := at + 4)];
    }

    // ----- symbols -----

    method DefineSymbol(sym: string, value: int)
      requires StateOk(View())
      modifies this
      ensures View() == Define(old(View()), sym, value)
    {
      if passNumber == 1 {
        return;
      }
      var x := Expanded(sym, currentFileIndex);
      if x in symtable {
        CodeError();
        return;
      }
      symtable := symtable[x := Symbol(currentSegment, value)];
      lastSymbol := Some(x);
    }

    method LookupSymbol(sym: string) returns (v: int)
      requires StateOk(View())
      modifies this
      ensures (View(), v) == Lookup(old(View()), sym)
    {
      if passNumber == 0 {
        return 0;
      }
      var x := Expanded(sym, currentFileIndex);
      if x in symtable {
        var s := symtable[x];
        if s.segment < 0 {
          exited := true;
          return 0;
        }
        return segment[s.segment].base + s.value;
      }
      CodeError();
      passNumber := 0;
      DefineSymbol(x, 0);
      passNumber := 1;
      v := 0;
    }

    method ParseExpression(e: Expr) returns (v: int)
      requires StateOk(View())
      modifies this
      ensures (View(), v) == Evaluate(old(View()), e)
    {
      match e.base {
        case Number(n) => v := n;
        case Name(x) => v := LookupSymbol(x);
      }
      v := v + e.offset;
    }

    method HackToSegment(g: int)
      requires StateOk(View()) && 0 <= g < NUM_SEGMENTS
      modifies this
      ensures View() == Hack(old(View()), g)
    {
      if currentSegment == g {
        return;
      }
      currentSegment := g;
      if passNumber == 0 {
        match lastSymbol
        case Some(x) => symtable := symtable[x := Symbol(g, segment[g].used)];
        case None => exited := true;
      }
    }

    // ----- lines -----

    /** An opcode of the table, with or without an expression after it. */
    method AssembleOp(opcode: int, operand: Option<Expr>)
      requires StateOk(View())
      modifies this
      ensures View() == StepOp(old(View()), opcode, operand)
    {
      hide Assembly.EmitByte, Assembly.EmitInt, Evaluate;
      if opcode == OP_UNDEF {
        CodeError();
      }
      if opcode == OP_IGNORE {
        return;
      }
      if operand.Some? && opcode != OP_CVIF && opcode != OP_CVFI {
        var expression := ParseExpression(operand.value);
        if opcode == OP_BLOCK_COPY {
          expression := RoundUp4(expression);
        }
        EmitByte(CODESEG, opcode);
        EmitInt(CODESEG, expression);
      } else {
        EmitByte(CODESEG, opcode);
      }
      instructionCount := instructionCount + 1;
    }

    method AssembleExtend(width: int, operand: Option<Expr>)
      requires StateOk(View())
      modifies this
      ensures View() == StepExtend(old(View()), width, operand)
    {
      hide StepOp;
      if width == 1 {
        AssembleOp(OP_SEX8, operand);
      } else if width == 2 {
        AssembleOp(OP_SEX16, operand);
      } else {
        CodeError();
      }
    }

    method AssembleCall()
      requires StateOk(View())
      modifies this
      ensures View() == StepLine(old(View()), Call)
    {
      EmitByte(CODESEG, OP_CALL);
      instructionCount := instructionCount + 1;
      currentArgOffset := 0;
    }

    method AssembleArg()
      requires StateOk(View())
      modifies this
      ensures View() == StepArg(old(View()))
    {
      hide Assembly.EmitByte;
      EmitKeeps(View(), CODESEG, OP_ARG);
      EmitByte(CODESEG, OP_ARG);
      instructionCount := instructionCount + 1;
      if 8 + currentArgOffset >= 256 {
        CodeError();
        return;
      }
      EmitKeeps(View(), CODESEG, 8 + currentArgOffset);
      EmitByte(CODESEG, 8 + currentArgOffset);
      currentArgOffset := currentArgOffset + 4;
    }

    method AssembleRet()
      requires StateOk(View())
      modifies this
      ensures View() == StepLine(old(View()), Ret)
    {
      hide Assembly.EmitInt;
      EmitByte(CODESEG, OP_LEAVE);
      instructionCount := instructionCount + 1;
      EmitInt(CODESEG, 8 + currentLocals + currentArgs);
    }

    method AssemblePop()
      requires StateOk(View())
      modifies this
      ensures View() == StepLine(old(View()), Pop)
    {
      EmitByte(CODESEG, OP_POP);
      instructionCount := instructionCount + 1;
    }

    /** ADDRF and ADDRL: a constant offset from programStack. */
    method AssembleLocal(e: Expr, extra: int)
      requires StateOk(View())
      modifies this
      ensures View() == StepLocal(old(View()), e, extra)
    {
      hide Assembly.EmitByte, Assembly.EmitInt, Evaluate;
      instructionCount := instructionCount + 1;
      var v := ParseExpression(e);
      EmitByte(CODESEG, OP_LOCAL);
      EmitInt(CODESEG, extra + v);
    }

    method AssembleProc(name: string, locals: int, args: int)
      requires StateOk(View())
      modifies this
      ensures View() == StepProc(old(View()), name, locals, args)
    {
      hide Assembly.EmitByte, Assembly.EmitInt, Define;
      DefineSymbol(name, instructionCount);
      currentLocals := RoundUp4(locals);
      currentArgs := RoundUp4(args);
      if 8 + currentLocals + currentArgs >= 32767 {
        CodeError();
      }
      instructionCount := instructionCount + 1;
      EmitKeeps(View(), CODESEG, OP_ENTER);
      EmitByte(CODESEG, OP_ENTER);
      EmitInt(CODESEG, 8 + currentLocals + currentArgs);
    }

    method AssembleEndProc()
      requires StateOk(View())
      modifies this
      ensures View() == StepEndProc(old(View()))
    {
      hide Assembly.EmitByte, Assembly.EmitInt;
      EmitCounted(OP_PUSH);
      EmitCounted(OP_LEAVE);
      EmitInt(CODESEG, 8 + currentLocals + currentArgs);
    }

    method EmitCounted(op: int)
      requires StateOk(View())
      modifies this
      ensures StateOk(View()) && View() == Assembly.EmitByte(Counted(old(View())), CODESEG, op)
      ensures Frame(View()) == old(Frame(View()))
    {
      hide Assembly.EmitByte;
      instructionCount := instructionCount + 1;
      EmitKeeps(View(), CODESEG, op);
      EmitByte(CODESEG, op);
    }

    method AssembleAddress(e: Expr)
      requires StateOk(View())
      modifies this
      ensures View() == StepAddress(old(View()), e)
    {
      hide Assembly.EmitInt, Evaluate, Hack;
      ghost var s := View();
      var v := ParseExpression(e);
      EvaluateKeepsPass(s, e);
      HackKeepsPass(View(), DATASEG);
      HackToSegment(DATASEG);
      EmitKeeps(View(), DATASEG, v);
      EmitInt(DATASEG, v);
      if passNumber == 1 && IsLocal(e) {
        EmitInt(JTRGSEG, v);
      }
    }

    /** byte: one byte at a time, lowest first. */
    method AssembleData(width: int, value: int)
      requires StateOk(View())
      modifies this
      ensures View() == StepData(old(View()), width, value)
    {
      hide Assembly.EmitByte, Hack;
      if width == 1 {
        HackToSegment(LITSEG);
      } else if width == 4 {
        HackToSegment(DATASEG);
      } else if width == 2 {
        CodeError();
      }
      if width > 0 && currentSegment < 0 {
        exited := true;
        return;
      }
      var i, v2 := 0, value;
      ghost var goal := if width > 0 then EmitBytes(View(), currentSegment, value, width) else View();
      while i < width
        invariant StateOk(View()) && 0 <= i && (width > 0 ==> i <= width && 0 <= currentSegment)
        invariant width > 0 ==> EmitBytes(View(), currentSegment, v2, width - i) == goal
        invariant width <= 0 ==> View() == goal
      {
        EmitKeeps(View(), currentSegment, v2);
        EmitByte(currentSegment, v2);
        v2 := v2 / 256;
        i := i + 1;
      }
    }

    method AssembleLabel(name: string)
      requires StateOk(View())
      modifies this
      ensures View() == StepLabel(old(View()), name)
    {
      if currentSegment == CODESEG {
        DefineSymbol(name, instructionCount);
      } else if currentSegment < 0 {
        exited := true;
      } else {
        DefineSymbol(name, segment[currentSegment].used);
      }
    }

    method SetUsed(n: nat)
      requires StateOk(View())
      modifies this
      ensures View() == StepReserve(old(View()), n)
    {
      if currentSegment < 0 || n >= TWO31 {
        exited := true;
      } else {
        segment := segment[currentSegment := segment[currentSegment].(used := n)];
      }
    }

    /** align: the mask ~(n - 1) clears what is left over of a power of two. */
    method AssembleAlign(n: nat)
      requires StateOk(View()) && exists k: nat :: k < 31 && n == Pow2(k)
      modifies this
      ensures View() == StepAlign(old(View()), n)
    {
      var used := if currentSegment < 0 then 0 else segment[currentSegment].used;
      if used + n >= TWO31 {
        exited := true;
        return;
      }
      ghost var k: nat :| k < 31 && n == Pow2(k);
      AlignMask(used, k);
      SetUsed(And(used + n - 1, Com(n - 1)));
    }

    method AssembleSkip(n: nat)
      requires StateOk(View())
      modifies this
      ensures View() == StepLine(old(View()), Skip(n))
    {
      SetUsed((if currentSegment < 0 then 0 else segment[currentSegment].used) + n);
    }

    /** AssembleLine, on a line whose tokens have been read. */
    method AssembleLine(line: Line)
      requires StateOk(View()) && LineOk(line)
      modifies this
      ensures View() == StepLine(old(View()), line)
    {
      hide StepOp, StepExtend, StepArg, StepLocal, StepProc, StepEndProc, StepAddress, StepData, StepLabel, StepAlign;
      match line
      case Op(opcode, operand) => AssembleOp(opcode, operand);
      case Extend(width, operand) => AssembleExtend(width, operand);
      case Call => AssembleCall();
      case Arg => AssembleArg();
      case Ret => AssembleRet();
      case Pop => AssemblePop();
      case AddrF(e) => AssembleLocal(e, 16 + currentArgs + currentLocals);
      case AddrL(e) => AssembleLocal(e, 8 + currentArgs);
      case Proc(name, locals, args) => AssembleProc(name, locals, args);
      case EndProc => AssembleEndProc();
      case Address(e) => AssembleAddress(e);
      case Data(width, value) => AssembleData(width, value);
      case Align(n) => AssembleAlign(n);
      case Skip(n) => AssembleSkip(n);
      case Directive(g) => currentSegment := g;
      case Label(name) => AssembleLabel(name);
      case Equ(name, value) => DefineSymbol(name, value);
      case Ignored =>
      case Unknown => CodeError();
    }

    // ----- passes -----

    method BeginPass(pass: nat)
      requires StateOk(View()) && pass <= 1
      modifies this
      ensures View() == StartPass(old(View()), pass)
    {
      var data, lit, bss := segment[DATASEG].used, segment[LITSEG].used, segment[BSSSEG].used;
      passNumber := pass;
      segment := [segment[CODESEG].(used := 0), segment[DATASEG].(used := 4),
                  segment[LITSEG].(used := 0, base := data), segment[BSSSEG].(used := 0, base := data + lit),
                  segment[JTRGSEG].(used := 0, base := data + lit + bss)];
      instructionCount := 0;
    }

    method FinishPass()
      requires StateOk(View())
      modifies this
      ensures View() == EndPass(old(View()))
    {
      var aligned, g := [], 0;
      while g < NUM_SEGMENTS
        invariant 0 <= g <= NUM_SEGMENTS == |segment| && |aligned| == g
        invariant forall h :: 0 <= h < g ==> aligned[h] == segment[h].(used := RoundUp4(segment[h].used))
      {
        aligned := aligned + [segment[g].(used := RoundUp4(segment[g].used))];
        g := g + 1;
      }
      segment := aligned;
    }

    /** The lines of all files, in order. */
    method AssembleLines(source: seq<Input>)
      requires StateOk(View()) && SourceOk(source)
      modifies this
      ensures StateOk(View()) && View() == Assembled(source, old(View()))
    {
      hide StepLine;
      ghost var s := View();
      var i := 0;
      while i < |source| && !exited
        invariant 0 <= i <= |source| && SourceOk(source[..i]) && StateOk(View())
        invariant View() == Assembled(source[..i], s)
      {
        StepBack(source, s, i);
        currentFileIndex := source[i].file;
        AssembleLine(source[i].line);
        i := i + 1;
      }
      StaysDead(source, s, i);
      assert source[..|source|] == source;
    }

    /**
     * Both passes of Assemble. If they report no error, the code segment is the program that the
     * lines stand for, the instruction count is its length, the segments lie where the loader
     * puts them, and every label is the number or the address of what follows it.
     */
    method Assemble(source: seq<Input>)
      requires StateOk(View()) && SourceOk(source)
      modifies this
      ensures StateOk(View()) && View() == AfterPass1(source, old(View()))
      ensures
        && !old(exited) && !exited && errorCount == old(errorCount)
        && old(segment[CODESEG].base) == 0 && old(segment[DATASEG].base) == 0
        && Opening(source) && ShapedSource(source, Origin(source))
        ==> Outcome(source, old(View()), View())
    {
      hide Assembled, Outcome, ShapedSource, StartPass, EndPass;
      ghost var s0 := View();
      BeginPass(0);
      AssembleLines(source);
      FinishPass();
      BeginPass(1);
      AssembleLines(source);
      FinishPass();
      if !s0.dead && !exited && errorCount == s0.errors && s0.segments[CODESEG].base == 0
          && s0.segments[DATASEG].base == 0 {
        NoErrors(source, s0);
      }
    }
  }

  lemma NoErrors(source: seq<Input>, s0: State)
    requires SourceOk(source) && StateOk(s0) && !s0.dead
    requires !AfterPass1(source, s0).dead && AfterPass1(source, s0).errors == s0.errors
    requires s0.segments[CODESEG].base == 0 && s0.segments[DATASEG].base == 0
    ensures Opening(source) && ShapedSource(source, Origin(source)) ==> Outcome(source, s0, AfterPass1(source, s0))
  {
    hide AfterPass1, Outcome, ShapedSource;
    if Opening(source) && ShapedSource(source, Origin(source)) {
      OutcomeRight(source, s0);
    }
  }

  lemma {:induction false} StaysDead(source: seq<Input>, s: State, i: nat)
    requires SourceOk(source) && StateOk(s) && i <= |source| && SourceOk(source[..i])
    requires i < |source| ==> Assembled(source[..i], s).dead
    ensures Assembled(source, s) == Assembled(source[..i], s)
    decreases |source| - i
  {
    if i == |source| {
      assert source[..i] == source;
    } else {
      StepBack(source, s, i);
      StaysDead(source, s, i + 1);
    }
  }

  /** (n + v - 1) & ~(v - 1) is n rounded up to a multiple of v, for a power of two. */
  lemma {:induction false} AlignMask(n: nat, k: nat)
    requires k < 31 && n + Pow2(k) < TWO31
    ensures And(n + Pow2(k) - 1, Com(Pow2(k) - 1)) == RoundUp(n, Pow2(k))
  {
    hide Bits, Pow2;
    var v := Pow2(k);
    var x := n + v - 1;
    Pow2At32();
    MaskOff(x, k, 32);
    ModSmall(x, TWO32);
    ModSmall(v - 1, TWO32);
    ModSmall(TWO32 - v, TWO32);
    Multiple(x, v);
  }

  lemma Multiple(x: nat, v: nat)
    requires v > 0
    ensures x - x % v == x / v * v
  {
  }

  /** Masking with all but k low ones clears those bits. */
  lemma {:induction false} MaskOff(x: nat, k: nat, n: nat)
    requires k <= n && x < Pow2(n)
    ensures Pow2(k) <= Pow2(n) && Bits(AndBit(), x, Pow2(n) - Pow2(k)) == x - x % Pow2(k)
    decreases n
  {
    hide Bits;
    Pow2Monotone(k, n);
    if k == 0 {
      AndMask(x, n);
      ModSmall(x, Pow2(n));
    } else {
      var p, q := Pow2(k - 1), Pow2(n - 1);
      assert Pow2(k) == 2 * p && Pow2(n) == 2 * q;
      hide Pow2;
      MaskOff(x / 2, k - 1, n - 1);
      HalfMod(x, p);
      EvenMask(x, q - p);
    }
  }

  lemma {:induction false} Pow2Monotone(k: nat, n: nat)
    requires k <= n
    ensures Pow2(k) <= Pow2(n)
    decreases n
  {
    if k < n { Pow2Monotone(k, n - 1); }
  }

  lemma {:induction false} EvenMask(x: nat, m: nat)
    ensures Bits(AndBit(), x, 2 * m) == 2 * Bits(AndBit(), x / 2, m)
  {
  }
}
