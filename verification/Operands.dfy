// The words that operands come to: a name with an offset is the address of its label
// and so many bytes more, wherever q3asm (q3asm/q3asm.c) is given it.

module Operands {
  import opened Words
  import opened Bytecode
  import opened Assembly
  import opened AssemblyLines
  import opened Passes
  import AssembledCode
  import opened Symbols
  import opened Addresses

  /** The bytes stand at that place of segment g when the assembly is over. */
  ghost predicate StandsAt(e: State, g: int, at: int, bytes: seq<Byte>)
    requires StateOk(e) && 0 <= g < NUM_SEGMENTS
  {
    0 <= at && at + |bytes| <= |e.segments[g].image| && e.segments[g].image[at..at + |bytes|] == bytes
  }

  /** The symbol is the address a. */
  ghost predicate IsAddress(e: State, x: string, a: int)
    requires StateOk(e)
  {
    && x in e.symbols && 0 <= e.symbols[x].segment < JTRGSEG
    && a == e.segments[e.symbols[x].segment].base + e.symbols[x].value
  }

  /** The bytes stand at address a of the image that is loaded. */
  ghost predicate InImage(e: State, a: int, bytes: seq<Byte>)
    requires StateOk(e) && Written(e)
  {
    var loaded := LoadedData(e, e.segments[DATASEG].used + e.segments[LITSEG].used);
    0 <= a && a + |bytes| <= |loaded| && loaded[a..a + |bytes|] == bytes
  }

  /** Instructions whose operand is emitted as it is. */
  predicate TakesWord(op: int) {
    0 <= op < OP_MAX && op != OP_UNDEF && op != OP_IGNORE && op != OP_BLOCK_COPY && op != OP_CVIF && op != OP_CVFI
  }

  /** What the lines up to i have put into segment g, seen from pass 1. */
  ghost function Offset(source: seq<Input>, i: nat, g: int): int
    requires SourceOk(source) && Opening(source) && i <= |source| && 0 <= g < 4
  {
    Before(source, Origin(source), i).used[g]
  }

  /** The bytes that a line of the code segment emits are there at the end of the pass. */
  lemma {:induction false} CodeStays(source: seq<Input>, s: State, i: nat)
    requires Under(source, s) && i < |source| && !Reserves(source[i].line) && OutputSize(source[i].line) > 0
    requires Target(source[i].line, Before(source, LayoutOf(s), i).current) == CODESEG
    ensures SourceOk(source[..i])
    ensures
      var t := Assembled(source[..i], s).(file := source[i].file);
      var out, at := Output(t, source[i].line), Before(source, LayoutOf(s), i).used[CODESEG];
      StandsAt(Assembled(source, s), CODESEG, at, out)
  {
    hide StepLine, Step, Assembled, Output;
    CleanStep(source, s, i);
    LaidAt(source, s, i);
    RunKeeps(source, s, i + 1, |source|);
    assert source[..|source|] == source;
    var t := Assembled(source[..i], s).(file := source[i].file);
    LayoutUsed(t, CODESEG);
    StepEmits(t, source[i].line);
    OutputLength(t, source[i].line);
    PlacedStays(t.segments[CODESEG], Output(t, source[i].line), Assembled(source, s).segments[CODESEG]);
  }

  /** A line of the code segment, in the finished image. */
  lemma {:induction false} CodeInPlace(source: seq<Input>, s0: State, i: nat)
    requires SourceOk(source) && Opening(source) && StateOk(s0) && Assembles(source, s0)
    requires 1 <= i < |source| && source[i].line.Op? && source[i].line.opcode != OP_IGNORE
    ensures
      StandsAt(AfterPass1(source, s0), CODESEG, Offset(source, i, CODESEG),
               Output(Pass1At(source, s0, i, source[i].file), source[i].line))
  {
    hide Assembled, Laid, Output;
    TwoCleanPasses(source, s0);
    var b := Pass1(source, s0);
    OpenedSame(source, b, i);
    CodeStays(source, Opened(source, b), i);
  }

  /** What a name stands for when the assembly is over it stands for at every line of pass 1. */
  lemma {:induction false} NameEvaluates(source: seq<Input>, s0: State, i: nat, name: string, k: int, a: int)
    requires SourceOk(source) && Opening(source) && StateOk(s0) && Assembles(source, s0) && 1 <= i < |source|
    requires IsAddress(AfterPass1(source, s0), Expanded(name, source[i].file), a)
    ensures Evaluate(Pass1At(source, s0, i, source[i].file), Expr(Name(name), k)).1 == a + k
  {
    hide Assembled;
    SymbolsCarried(source, s0, i);
    SymbolsCarried(source, s0, |source|);
    assert source[..|source|] == source;
  }

  /** The operand of an instruction that is a name and an offset: the address of the name and the offset. */
  lemma {:induction false} NamedOperand(source: seq<Input>, s0: State, i: nat, op: int, name: string, k: int, a: int)
    requires SourceOk(source) && Opening(source) && StateOk(s0) && Assembles(source, s0) && 1 <= i < |source|
    requires source[i].line == Op(op, Some(Expr(Name(name), k))) && TakesWord(op)
    requires IsAddress(AfterPass1(source, s0), Expanded(name, source[i].file), a)
    ensures StandsAt(AfterPass1(source, s0), CODESEG, Offset(source, i, CODESEG), [op] + Bytes(a + k, 4))
  {
    hide Assembled, Evaluate, Bytes, StandsAt, IsAddress;
    CodeInPlace(source, s0, i);
    NameEvaluates(source, s0, i, name, k, a);
  }

  /** An operand that is a number, and an offset. */
  lemma {:induction false} NumberOperand(source: seq<Input>, s0: State, i: nat, op: int, n: int, k: int)
    requires SourceOk(source) && Opening(source) && StateOk(s0) && Assembles(source, s0) && 1 <= i < |source|
    requires source[i].line == Op(op, Some(Expr(Number(n), k))) && TakesWord(op)
    ensures StandsAt(AfterPass1(source, s0), CODESEG, Offset(source, i, CODESEG), [op] + Bytes(n + k, 4))
  {
    hide Assembled, Bytes, StandsAt;
    CodeInPlace(source, s0, i);
  }

  /** The word that an address line puts into the data segment. */
  lemma {:induction false} NamedDatum(source: seq<Input>, s0: State, j: nat, name: string, k: int, a: int)
    requires SourceOk(source) && Opening(source) && StateOk(s0) && Assembles(source, s0) && 1 <= j < |source|
    requires source[j].line == Address(Expr(Name(name), k))
    requires IsAddress(AfterPass1(source, s0), Expanded(name, source[j].file), a)
    ensures StandsAt(AfterPass1(source, s0), DATASEG, Offset(source, j, DATASEG), Bytes(a + k, 4))
  {
    hide Assembled, Evaluate, Bytes, IsAddress;
    DatumEmitted(source, s0, j);
    NameEvaluates(source, s0, j, name, k, a);
  }

  /** The bytes that a byte line puts into the data or lit segment, lowest first. */
  lemma {:induction false} PlainDatum(source: seq<Input>, s0: State, j: nat, width: int, value: int)
    requires SourceOk(source) && Opening(source) && StateOk(s0) && Assembles(source, s0) && 1 <= j < |source|
    requires source[j].line == Data(width, value) && (width == 1 || width == 4)
    ensures
      var g := if width == 1 then LITSEG else DATASEG;
      StandsAt(AfterPass1(source, s0), g, Offset(source, j, g), Bytes(value, width))
  {
    hide Assembled, Bytes;
    DatumEmitted(source, s0, j);
  }

  // ----- labels -----

  /** A code label is the number of the next instruction, so that a name and an offset is so many further. */
  lemma {:induction false} CodeLabelAddress(source: seq<Input>, s0: State, l: nat)
    requires SourceOk(source) && Opening(source) && StateOk(s0) && Assembles(source, s0)
    requires s0.segments[CODESEG].base == 0 && s0.segments[DATASEG].base == 0
    requires AssembledCode.ShapedSource(source, Origin(source)) && CodeLabelAt(source, l)
    ensures IsAddress(AfterPass1(source, s0), LabelName(source[l]), |ProgramBefore(source, s0, l)|)
  {
    hide Assembled, Laid;
    OutcomeRight(source, s0);
  }

  /** A data label is the place of its datum in the loaded image. */
  lemma {:induction false} DataLabelAddress(source: seq<Input>, s0: State, l: nat, j: nat) returns (a: int)
    requires SourceOk(source) && Opening(source) && StateOk(s0) && Assembles(source, s0)
    requires s0.segments[CODESEG].base == 0 && s0.segments[DATASEG].base == 0
    requires AssembledCode.ShapedSource(source, Origin(source)) && j < |source| && DataLabelAt(source, l, j)
    requires Written(AfterPass1(source, s0))
    ensures IsAddress(AfterPass1(source, s0), LabelName(source[l]), a)
    ensures InImage(AfterPass1(source, s0), a, Output(Pass1At(source, s0, j, source[j].file), source[j].line))
  {
    hide Assembled, Laid, Output, LoadedData, Denotes, DataLabelAt, ProgramBefore, InImage, CodeLabelsRight,
         WrittenCode;
    OutcomeRight(source, s0);
    var e := AfterPass1(source, s0);
    var x := LabelledBy(source, l, j);
    assert Denotes(e, x, Output(Pass1At(source, s0, j, source[j].file), source[j].line));
    RecordedSegment(source, s0, l, j);
    a := DenotedAddress(e, x, Output(Pass1At(source, s0, j, source[j].file), source[j].line));
  }

  lemma LabelledBy(source: seq<Input>, l: nat, j: nat) returns (x: string)
    requires SourceOk(source) && Opening(source) && j < |source| && DataLabelAt(source, l, j)
    ensures l < |source| && source[l].line.Label? && x == LabelName(source[l])
  {
    hide Before, OneWidth;
    x := LabelName(source[l]);
  }

  lemma {:induction false} RecordedSegment(source: seq<Input>, s0: State, l: nat, j: nat)
    requires SourceOk(source) && Opening(source) && StateOk(s0) && Assembles(source, s0)
    requires j < |source| && DataLabelAt(source, l, j)
    ensures
      var e, x := AfterPass1(source, s0), LabelName(source[l]);
      x in e.symbols && 0 <= e.symbols[x].segment < JTRGSEG
  {
    hide Assembled, Laid;
    DatumRecorded(source, s0, l, j);
    SymbolsCarried(source, s0, |source|);
    assert source[..|source|] == source;
  }

  lemma DenotedAddress(e: State, x: string, out: seq<Byte>) returns (a: int)
    requires StateOk(e) && Written(e) && Denotes(e, x, out) && e.symbols[x].segment < JTRGSEG
    ensures IsAddress(e, x, a)
    ensures InImage(e, a, out)
  {
    hide LoadedData;
    a := e.segments[e.symbols[x].segment].base + e.symbols[x].value;
  }
}
