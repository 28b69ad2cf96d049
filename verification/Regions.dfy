// The frame of an assembled function: the slots of its ARG instructions lie in the
// space that lcc counted for them (lcc/src/bytecode.c, q3asm/q3asm.c).

module Regions {
  import opened Words
  import opened Bytecode
  import opened Assembly
  import opened AssemblyLines
  import opened Passes
  import opened AssembledCode
  import opened Addresses
  import opened Procedures
  import FL = FrameLayout

  // ----- currentArgOffset -----

  /** What currentArgOffset becomes over some lines. */
  function ArgOffset(lines: seq<Input>, a: nat): nat
    decreases |lines|
  {
    if lines == [] then a
    else
      var before := ArgOffset(lines[..|lines| - 1], a);
      match lines[|lines| - 1].line
      case Arg => before + 4
      case Call => 0
      case _ => before
  }

  /** One line of a pass. */
  lemma ArgStep(s: State, line: Line)
    requires StateOk(s) && 0 <= s.current < JTRGSEG && LineOk(line) && AssemblyLines.Clean(s, StepLine(s, line))
    ensures
      StepLine(s, line).argOffset == (match line case Arg => s.argOffset + 4 case Call => 0 case _ => s.argOffset)
  {
    hide StepLine;
    StepRest(s, line);
  }

  lemma {:induction false} OffsetHeld(source: seq<Input>, b: State, i: nat)
    requires SourceOk(source) && Opening(source) && Fresh(b) && AssemblyLines.Clean(b, Assembled(source, b))
    requires 1 <= i <= |source|
    ensures SourceOk(source[..i]) && Assembled(source[..i], b).argOffset == ArgOffset(source[..i], b.argOffset)
    decreases i
  {
    hide StepLine, Assembled, Laid;
    var n := i - 1;
    CleanStep(source, b, n);
    assert source[..i][..n] == source[..n];
    if n == 0 {
      assert source[..0] == [];
      NoLines(b);
      DirectiveKeeps(b.(file := source[0].file), source[0].line);
    } else {
      LayoutAfter(source, b, n);
      OffsetHeld(source, b, n);
      ArgStep(Assembled(source[..n], b).(file := source[n].file), source[n].line);
    }
  }

  lemma DirectiveKeeps(s: State, line: Line)
    requires StateOk(s) && line.Directive? && LineOk(line)
    ensures StepLine(s, line).argOffset == s.argOffset
  {
  }

  /** Every ARG is followed by the CALL it belongs to, in the source and up to line p. */
  ghost predicate CallsComplete(source: seq<Input>, p: nat)
    requires p <= |source|
  {
    ArgOffset(source, 0) == 0 && ArgOffset(source[..p], 0) == 0
  }

  /** currentArgOffset before a line of pass 1. */
  lemma {:induction false} OffsetInPass1(source: seq<Input>, s0: State, i: nat)
    requires Built(source, s0) && s0.argOffset == 0 && ArgOffset(source, 0) == 0 && 1 <= i <= |source|
    ensures Assembled(source[..i], Pass1(source, s0)).argOffset == ArgOffset(source[..i], 0)
  {
    hide StepLine, Assembled, ShapedSource;
    TwoCleanPasses(source, s0);
    OffsetHeld(source, Pass0(source, s0), |source|);
    assert source[..|source|] == source;
    OffsetHeld(source, Pass1(source, s0), i);
  }

  // ----- what lcc counted and what q3asm counts -----

  /** The ARG and CALL lines are the events that lcc counted. */
  ghost predicate Prints(lines: seq<Input>, events: seq<FL.Kind>)
    decreases |lines|
  {
    if lines == [] then events == []
    else
      var front := lines[..|lines| - 1];
      match lines[|lines| - 1].line
      case Arg => events != [] && events[|events| - 1].Arg? && Prints(front, events[..|events| - 1])
      case Call => events != [] && events[|events| - 1].Call? && Prints(front, events[..|events| - 1])
      case _ => Prints(front, events)
  }

  lemma {:induction false} NeverMore(lines: seq<Input>, events: seq<FL.Kind>)
    requires Prints(lines, events)
    ensures ArgOffset(lines, 0) <= FL.CountAll(FL.Args(0, 0), events).offset
    decreases |lines|
  {
    if lines != [] {
      var front := lines[..|lines| - 1];
      match lines[|lines| - 1].line
      case Arg => NeverMore(front, events[..|events| - 1]);
      case Call => NeverMore(front, events[..|events| - 1]);
      case _ => NeverMore(front, events);
    }
  }

  ghost predicate CallAfter(lines: seq<Input>, i: nat) {
    exists j :: i < j < |lines| && lines[j].line.Call?
  }

  /** The slot of an ARG is counted in argoffset until its CALL, and in maxargoffset from there on. */
  lemma {:induction false} SlotCounted(lines: seq<Input>, events: seq<FL.Kind>, i: nat)
    requires Prints(lines, events) && i < |lines| && lines[i].line.Arg?
    ensures
      var n := FL.CountAll(FL.Args(0, 0), events);
      ArgOffset(lines[..i], 0) + 4 <= n.most || (!CallAfter(lines, i) && ArgOffset(lines[..i], 0) + 4 <= n.offset)
    decreases |lines|
  {
    var last := |lines| - 1;
    var front := lines[..last];
    if i == last {
      NeverMore(lines, events);
    } else {
      assert front[..i] == lines[..i];
      match lines[last].line {
        case Arg => SlotCounted(front, events[..|events| - 1], i);
        case Call => SlotCounted(front, events[..|events| - 1], i);
        case _ => SlotCounted(front, events, i);
      }
      if CallAfter(lines, i) && !lines[last].line.Call? {
        var j :| i < j < |lines| && lines[j].line.Call?;
        assert front[j].line.Call?;
      }
    }
  }

  lemma {:induction false} OffsetFrom(lines: seq<Input>, more: seq<Input>)
    requires ArgOffset(lines, 0) == 0
    ensures ArgOffset(lines + more, 0) == ArgOffset(more, 0)
    decreases |more|
  {
    if more == [] {
      assert lines + more == lines;
    } else {
      assert (lines + more)[..|lines + more| - 1] == lines + more[..|more| - 1];
      OffsetFrom(lines, more[..|more| - 1]);
    }
  }

  // ----- the regions of a frame -----

  /** The lines of a procedure are what b_function prints for the code. */
  ghost predicate Printed(source: seq<Input>, p: nat, e: nat, code: FL.Code)
    requires SourceOk(source) && Opening(source)
  {
    && Procedure(source, p, e) && FL.CodeOk(code) && FL.Blocks(code)
    && source[p].line.locals == FL.MaxOffset(code) && source[p].line.args == FL.MaxArgOffset(code)
    && Prints(source[p + 1..e], FL.Events(code))
  }

  /** The rounded space for locals and outgoing arguments. */
  function LocalSpace(line: Line): int
    requires line.Proc?
  {
    RoundUp4(line.locals)
  }

  function ArgSpace(line: Line): int
    requires line.Proc?
  {
    RoundUp4(line.args)
  }

  /** An ARG before its CALL stores at the next slot, and the slot lies in the space for arguments. */
  lemma ArgSlot(source: seq<Input>, s0: State, p: nat, e: nat, code: FL.Code, i: nat)
    requires Built(source, s0) && s0.argOffset == 0 && Printed(source, p, e, code) && CallsComplete(source, p)
    requires p < i < e && source[i].line.Arg? && CallAfter(source[..e], i)
    ensures
      var slot := 8 + ArgOffset(source[p + 1..i], 0);
      && Instrs(Pass1At(source, s0, i, source[i].file), source[i].line) == [Instr(OP_ARG, slot)]
      && 8 <= slot && slot + 4 <= 8 + ArgSpace(source[p].line)
  {
    hide Assembled, StepLine, ShapedSource, BranchesInside, Assembles, InnerLine;
    OffsetInPass1(source, s0, i);
    var body := source[p + 1..e];
    ProcKeeps(source, p);
    assert source[..i] == source[..p + 1] + source[p + 1..i];
    OffsetFrom(source[..p + 1], source[p + 1..i]);
    assert body[..i - p - 1] == source[p + 1..i];
    SlotCounted(body, FL.Events(code), i - p - 1);
    var j :| i < j < |source[..e]| && source[..e][j].line.Call?;
    assert body[j - p - 1].line.Call?;
  }

  lemma ProcKeeps(source: seq<Input>, p: nat)
    requires p < |source| && source[p].line.Proc? && ArgOffset(source[..p], 0) == 0
    ensures ArgOffset(source[..p + 1], 0) == 0
  {
    assert source[..p + 1][..p] == source[..p];
  }

  /** Where the operand of a LOCAL instruction points, for programStack ps. */
  function Address(s: State, line: Line, ps: int): int
    requires StateOk(s) && (line.AddrF? || line.AddrL?)
  {
    Instrs(s, line)[0].arg + ps
  }

  /** An operand that names no symbol. */
  predicate Constant(e: Expr) { e.base.Number? }

  function Operand(e: Expr): int
    requires Constant(e)
  {
    e.base.n + e.offset
  }

  /** ADDRL of a local that lcc placed stays in the space for locals. */
  lemma {:induction false} LocalSlot(source: seq<Input>, s0: State, p: nat, e: nat, code: FL.Code, i: nat, k: nat,
                                     ps: int)
    requires Built(source, s0) && Printed(source, p, e, code) && p < i < e && source[i].line.AddrL?
    requires Constant(source[i].line.e) && k < |FL.Places(code, 0)|
    requires Operand(source[i].line.e) == FL.Places(code, 0)[k].offset
    ensures
      var at := Address(Pass1At(source, s0, i, source[i].file), source[i].line, ps);
      && ps + 8 + ArgSpace(source[p].line) <= at
      && at + FL.Places(code, 0)[k].size <= ps + 8 + ArgSpace(source[p].line) + LocalSpace(source[p].line)
  {
    hide Assembled, StepLine, ShapedSource, BranchesInside, Assembles, InnerLine, FL.Places, FL.Most;
    FrameHeld(source, s0, p, e, i);
    FrameInRange(source, s0, p, e);
    FL.LocalsFit(code);
    WrapOfU(8 + ArgSpace(source[p].line) + Operand(source[i].line.e));
  }

  /** ADDRF of parameter offset v is 8 + v above the programStack of the caller. */
  lemma ParamSlot(source: seq<Input>, s0: State, p: nat, e: nat, i: nat, ps: int)
    requires Built(source, s0) && Procedure(source, p, e) && p < i < e && source[i].line.AddrF?
    requires Constant(source[i].line.e) && 0 <= Operand(source[i].line.e) < 0x1000_0000
    ensures
      Address(Pass1At(source, s0, i, source[i].file), source[i].line, ps)
      == ps + FrameOf(source[p].line) + 8 + Operand(source[i].line.e)
  {
    hide Assembled, StepLine, ShapedSource, BranchesInside, Assembles, InnerLine;
    FrameHeld(source, s0, p, e, i);
    FrameInRange(source, s0, p, e);
    WrapOfU(16 + ArgSpace(source[p].line) + LocalSpace(source[p].line) + Operand(source[i].line.e));
  }

  datatype Region = Region(lo: int, hi: int)

  predicate Apart(a: Region, b: Region) {
    a.hi <= b.lo || b.hi <= a.lo
  }

  /**
   * The frame of an assembled function at programStack ps, its caller at ps + frame: the
   * header, the slot of any ARG before its CALL, any local that ADDRL names and any word of a
   * parameter that ADDRF names lie apart from each other.
   */
  lemma {:induction false} FrameRegions(source: seq<Input>, s0: State, p: nat, e: nat, code: FL.Code, i: nat, j: nat,
                                        k: nat, l: nat, ps: int)
    requires Built(source, s0) && s0.argOffset == 0 && Printed(source, p, e, code) && CallsComplete(source, p)
    requires p < i < e && source[i].line.Arg? && CallAfter(source[..e], i)
    requires p < j < e && source[j].line.AddrL? && Constant(source[j].line.e) && k < |FL.Places(code, 0)|
    requires Operand(source[j].line.e) == FL.Places(code, 0)[k].offset
    requires p < l < e && source[l].line.AddrF?
    requires Constant(source[l].line.e) && 0 <= Operand(source[l].line.e) < 0x1000_0000
    ensures
      var header := Region(ps, ps + 8);
      var slot := ps + Instrs(Pass1At(source, s0, i, source[i].file), source[i].line)[0].arg;
      var argument := Region(slot, slot + 4);
      var at := Address(Pass1At(source, s0, j, source[j].file), source[j].line, ps);
      var local := Region(at, at + FL.Places(code, 0)[k].size);
      var caller := ps + FrameOf(source[p].line);
      var from := Address(Pass1At(source, s0, l, source[l].file), source[l].line, ps);
      var parameter := Region(from, from + 4);
      && Apart(header, argument) && Apart(header, local) && Apart(header, parameter)
      && Apart(argument, local) && Apart(argument, parameter) && Apart(local, parameter)
      && header.lo == ps && argument.hi <= caller && local.hi <= caller && caller + 8 <= parameter.lo
  {
    hide Built, Printed, CallsComplete, CallAfter, Instrs, Address, Pass1At, FL.Places;
    PrintedProcedure(source, s0, p, e, code);
    ArgSlot(source, s0, p, e, code, i);
    LocalSlot(source, s0, p, e, code, j, k, ps);
    ParamSlot(source, s0, p, e, l, ps);
    FrameInRange(source, s0, p, e);
  }

  lemma PrintedProcedure(source: seq<Input>, s0: State, p: nat, e: nat, code: FL.Code)
    requires Built(source, s0) && Printed(source, p, e, code)
    ensures Procedure(source, p, e)
  {
  }
}
