// Pass 1 of q3asm and the data image that VM_LoadQVM makes of its result: a
// symbol's address is where its datum lies.

module Addresses {
  import opened Words
  import opened Bytecode
  import opened Assembly
  import opened AssemblyLines
  import opened Passes
  import opened AssembledCode
  import opened Symbols

  // ----- pass 1 -----

  /** What is emitted stays where it is. */
  ghost predicate Grows(a: Segment, b: Segment) {
    && b.base == a.base && |b.image| == |a.image| && a.used <= b.used
    && (forall i :: 0 <= i < a.used && i < |a.image| ==> b.image[i] == a.image[i])
  }

  ghost predicate AllGrow(s: State, s': State) {
    StateOk(s) && StateOk(s') && forall g :: 0 <= g < JTRGSEG ==> Grows(s.segments[g], s'.segments[g])
  }

  lemma EmittedGrows(seg: Segment, b: seq<Byte>)
    requires Fits4(seg, b)
    ensures Grows(seg, Emitted(seg, b))
    ensures Emitted(seg, b).image[seg.used..seg.used + |b|] == b
  {
  }

  lemma StepGrows(s: State, line: Line)
    requires StateOk(s) && 0 <= s.current < JTRGSEG && LineOk(line) && Clean(s, StepLine(s, line))
    ensures AllGrow(s, StepLine(s, line))
  {
    if Reserves(line) {
    } else {
      EmitsGrow(s, line);
    }
  }

  lemma EmitsGrow(s: State, line: Line)
    requires StateOk(s) && 0 <= s.current < JTRGSEG && LineOk(line) && !Reserves(line) && Clean(s, StepLine(s, line))
    ensures AllGrow(s, StepLine(s, line))
  {
    hide StepLine, Output, Target, Emitted;
    StepEmits(s, line);
    var b, g := Output(s, line), Target(line, s.current);
    if b != [] { EmittedGrows(s.segments[g], b); }
  }

  lemma StepKeepsPass(s: State, line: Line)
    requires StateOk(s) && 0 <= s.current < JTRGSEG && LineOk(line) && Clean(s, StepLine(s, line))
    ensures StepLine(s, line).pass == s.pass
    ensures s.pass == 1 ==> StepLine(s, line).symbols == s.symbols
  {
    hide StepLine;
    StepRest(s, line);
  }

  /** From line j on, what there is of the segments stays, and in pass 1 the symbols do. */
  lemma {:induction false} RunKeeps(source: seq<Input>, s: State, j: nat, n: nat)
    requires Under(source, s) && j <= n <= |source|
    ensures SourceOk(source[..j]) && SourceOk(source[..n])
    ensures
      var t, t' := Assembled(source[..j], s), Assembled(source[..n], s);
      AllGrow(t, t') && t'.pass == t.pass && (t.pass == 1 ==> t'.symbols == t.symbols)
    decreases n
  {
    hide StepLine, Step, Assembled;
    if n > j {
      RunKeeps(source, s, j, n - 1);
      CleanStep(source, s, n - 1);
      LaidAt(source, s, n - 1);
      var t := Assembled(source[..n - 1], s).(file := source[n - 1].file);
      StepGrows(t, source[n - 1].line);
      StepKeepsPass(t, source[n - 1].line);
    }
  }

  /** The bytes that line j emits are in its segment at the end of the pass. */
  lemma {:induction false} DatumStays(source: seq<Input>, s: State, j: nat)
    requires Under(source, s) && j < |source| && IsDatum(source[j].line)
    ensures SourceOk(source[..j])
    ensures
      var t := Assembled(source[..j], s).(file := source[j].file);
      var out, g := Output(t, source[j].line), Target(source[j].line, 0);
      var at, e := Before(source, LayoutOf(s), j).used[g], Assembled(source, s).segments[g];
      at + |out| <= VM_MAX_IMAGE_SIZE && at + |out| <= e.used && e.image[at..at + |out|] == out
  {
    hide StepLine, Step, Assembled, Output;
    CleanStep(source, s, j);
    LaidAt(source, s, j);
    RunKeeps(source, s, j + 1, |source|);
    assert source[..|source|] == source;
    var t := Assembled(source[..j], s).(file := source[j].file);
    var g := Target(source[j].line, 0);
    LayoutUsed(t, g);
    StepEmits(t, source[j].line);
    OutputLength(t, source[j].line);
    PlacedStays(t.segments[g], Output(t, source[j].line), Assembled(source, s).segments[g]);
  }

  lemma PlacedStays(seg: Segment, out: seq<Byte>, e: Segment)
    requires Fits4(seg, out) && Grows(Emitted(seg, out), e)
    ensures seg.used + |out| <= e.used && e.image[seg.used..seg.used + |out|] == out
  {
  }

  // ----- both passes -----

  /** A pass as if the segment of its opening directive had been current from the start. */
  function Opened(source: seq<Input>, s: State): State
    requires Opening(source)
  {
    s.(current := source[0].line.seg)
  }

  lemma {:induction false} OpenedSame(source: seq<Input>, s: State, k: nat)
    requires SourceOk(source) && Opening(source) && Fresh(s) && Clean(s, Assembled(source, s)) && 1 <= k <= |source|
    ensures Under(source, Opened(source, s)) && LayoutOf(Opened(source, s)) == Origin(source)
    ensures SourceOk(source[..k]) && Assembled(source[..k], s) == Assembled(source[..k], Opened(source, s))
    ensures Assembled(source, s) == Assembled(source, Opened(source, s))
  {
    CleanPrefix(source, s, k);
    OpeningForgets(source[..k], s, source[0].line.seg);
    OpeningForgets(source, s, source[0].line.seg);
  }

  ghost function Pass0(source: seq<Input>, s0: State): (a: State)
    requires SourceOk(source) && StateOk(s0)
    ensures StateOk(a)
  {
    StartPass(s0, 0)
  }

  ghost function Pass1(source: seq<Input>, s0: State): (b: State)
    requires SourceOk(source) && StateOk(s0)
    ensures StateOk(b)
  {
    StartPass(AfterPass0(source, s0), 1)
  }

  /** Before line i of pass 1, seen from a file. */
  ghost function Pass1At(source: seq<Input>, s0: State, i: nat, file: nat): (t: State)
    requires SourceOk(source) && StateOk(s0) && i <= |source|
    ensures StateOk(t)
  {
    Assembled(source[..i], Pass1(source, s0)).(file := file)
  }

  /** The instructions that the first k lines of pass 1 append. */
  ghost function ProgramBefore(source: seq<Input>, s0: State, k: nat): seq<Instr>
    requires SourceOk(source) && StateOk(s0) && k <= |source|
  {
    Program(source[..k], Pass1(source, s0))
  }

  /** What pass 0 has recorded is what pass 1 sees at every line. */
  lemma {:induction false} SymbolsCarried(source: seq<Input>, s0: State, i: nat)
    requires SourceOk(source) && Opening(source) && StateOk(s0) && Assembles(source, s0) && 1 <= i <= |source|
    ensures SourceOk(source[..i])
    ensures
      var t := Assembled(source[..i], Pass1(source, s0));
      && t.pass == 1 && t.symbols == Assembled(source, Pass0(source, s0)).symbols
      && (forall g :: 0 <= g < JTRGSEG ==> t.segments[g].base == Pass1(source, s0).segments[g].base)
  {
    hide Assembled;
    TwoCleanPasses(source, s0);
    var b := Pass1(source, s0);
    OpenedSame(source, b, i);
    RunKeeps(source, Opened(source, b), 0, i);
    assert source[..0] == [];
    NoLines(Opened(source, b));
  }

  lemma {:induction false} NoLines(s: State)
    requires StateOk(s)
    ensures Assembled([], s) == s
  {
  }

  /** A symbol of pass 0, looked up at any line of pass 1. */
  lemma {:induction false} LookedUp(source: seq<Input>, s0: State, i: nat, file: nat, name: string, v: Symbol)
    requires SourceOk(source) && Opening(source) && StateOk(s0) && Assembles(source, s0) && 1 <= i <= |source|
    requires Has(Assembled(source, Pass0(source, s0)), Expanded(name, file), v) && 0 <= v.segment < JTRGSEG
    ensures
      var t := Pass1At(source, s0, i, file);
      Lookup(t, name) == (t, Pass1(source, s0).segments[v.segment].base + v.value)
  {
    hide Assembled;
    SymbolsCarried(source, s0, i);
  }

  // ----- the loaded image -----

  /** dataBase after VM_LoadQVM: data, lit, and zeros up to dataAlloc. */
  function LoadedData(e: State, alloc: nat): (image: seq<Byte>)
    requires StateOk(e) && Written(e)
    requires e.segments[DATASEG].used + e.segments[LITSEG].used <= alloc
    ensures |image| == alloc
  {
    var data, lit := e.segments[DATASEG], e.segments[LITSEG];
    data.image[..data.used] + lit.image[..lit.used] + seq(alloc - data.used - lit.used, _ => 0)
  }

  /** The data and lit segments lie in their buffers, so that WriteVmFile writes what was assembled. */
  ghost predicate Written(e: State)
    requires StateOk(e)
  {
    e.segments[DATASEG].used <= VM_MAX_IMAGE_SIZE && e.segments[LITSEG].used <= VM_MAX_IMAGE_SIZE
  }

  /** Where segment g begins in dataBase. */
  function LoadBase(e: State, g: int): nat
    requires StateOk(e)
  {
    if g == LITSEG then e.segments[DATASEG].used
    else if g == BSSSEG then e.segments[DATASEG].used + e.segments[LITSEG].used
    else 0
  }

  lemma LoadedAt(e: State, alloc: nat, g: int, at: nat, out: seq<Byte>)
    requires StateOk(e) && Written(e) && e.segments[DATASEG].used + e.segments[LITSEG].used <= alloc
    requires (g == DATASEG || g == LITSEG) && at + |out| <= e.segments[g].used
    requires at + |out| <= VM_MAX_IMAGE_SIZE && e.segments[g].image[at..at + |out|] == out
    ensures LoadBase(e, g) + at + |out| <= alloc
    ensures LoadedData(e, alloc)[LoadBase(e, g) + at..LoadBase(e, g) + at + |out|] == out
  {
    var data, lit, a, loaded := e.segments[DATASEG], e.segments[LITSEG], LoadBase(e, g) + at, LoadedData(e, alloc);
    forall i | 0 <= i < |out| ensures loaded[a + i] == out[i] {
      assert e.segments[g].image[at..at + |out|][i] == e.segments[g].image[at + i];
    }
  }

  /**
   * For an error-free source that opens with a directive: the address that a label stands for,
   * at any line of pass 1, is where the bytes of its first datum lie in the loaded image, if
   * all data until the next definition is of one width.
   */
  lemma DatumInPlace(source: seq<Input>, s0: State, k: nat, j: nat, i: nat, file: nat, name: string, alloc: nat)
    requires SourceOk(source) && Opening(source) && StateOk(s0) && Assembles(source, s0) && 1 <= i <= |source|
    requires s0.segments[DATASEG].base == 0
    requires Labels(source, k, j) && Before(source, Origin(source), k).current != CODESEG
    requires OneWidth(source, j + 1, Target(source[j].line, 0))
    requires Expanded(name, file) == Expanded(source[k].line.name, source[k].file)
    requires
      var e := AfterPass1(source, s0);
      Written(e) && e.segments[DATASEG].used + e.segments[LITSEG].used <= alloc
    ensures
      var t, u := Pass1At(source, s0, i, file), Pass1At(source, s0, j, source[j].file);
      var (t', a) := Lookup(t, name);
      var out := Output(u, source[j].line);
      t' == t && 0 <= a && a + |out| <= alloc && LoadedData(AfterPass1(source, s0), alloc)[a..a + |out|] == out
  {
    hide Assembled, Output, LoadedData, Laid;
    var g, l := Target(source[j].line, 0), Origin(source);
    var x, at := Expanded(name, file), Before(source, Origin(source), j).used[g];
    DatumRecorded(source, s0, k, j);
    LookedUp(source, s0, i, file, name, Symbol(g, at));
    DatumEmitted(source, s0, j);
    BaseIsLoadBase(source, s0, g);
    var u := Pass1At(source, s0, j, source[j].file);
    LoadedAt(AfterPass1(source, s0), alloc, g, at, Output(u, source[j].line));
  }

  lemma BaseIsLoadBase(source: seq<Input>, s0: State, g: int)
    requires SourceOk(source) && Opening(source) && StateOk(s0) && Assembles(source, s0)
    requires s0.segments[DATASEG].base == 0 && (g == DATASEG || g == LITSEG || g == BSSSEG)
    ensures Pass1(source, s0).segments[g].base == LoadBase(AfterPass1(source, s0), g)
  {
    BasesRight(source, s0);
    TwoCleanPasses(source, s0);
    OpenedSame(source, Pass0(source, s0), |source|);
    assert source[..0] == [];
    NoLines(Opened(source, Pass0(source, s0)));
    RunKeeps(source, Opened(source, Pass0(source, s0)), 0, |source|);
    assert source[..|source|] == source;
  }

  lemma {:induction false} DatumRecorded(source: seq<Input>, s0: State, k: nat, j: nat)
    requires SourceOk(source) && Opening(source) && StateOk(s0) && Assembles(source, s0)
    requires Labels(source, k, j) && Before(source, Origin(source), k).current != CODESEG
    requires OneWidth(source, j + 1, Target(source[j].line, 0))
    ensures
      var x, g := Expanded(source[k].line.name, source[k].file), Target(source[j].line, 0);
      Has(Assembled(source, Pass0(source, s0)), x, Symbol(g, Before(source, Origin(source), j).used[g]))
  {
    hide Assembled, Laid;
    TwoCleanPasses(source, s0);
    var a := Pass0(source, s0);
    OpenedSame(source, a, |source|);
    assert source[..0] == [];
    NoLines(Opened(source, a));
    RunKeeps(source, Opened(source, a), 0, k);
    DataLabel(source, Opened(source, a), k, j);
  }

  lemma DatumEmitted(source: seq<Input>, s0: State, j: nat)
    requires SourceOk(source) && Opening(source) && StateOk(s0) && Assembles(source, s0)
    requires j < |source| && IsDatum(source[j].line)
    ensures
      var u, e := Pass1At(source, s0, j, source[j].file), AfterPass1(source, s0);
      var out, g := Output(u, source[j].line), Target(source[j].line, 0);
      var at := Before(source, Origin(source), j).used[g];
      at + |out| <= VM_MAX_IMAGE_SIZE && at + |out| <= e.segments[g].used && e.segments[g].image[at..at + |out|] == out
  {
    hide Assembled, Laid, Output;
    TwoCleanPasses(source, s0);
    var b := Pass1(source, s0);
    OpenedSame(source, b, j);
    DatumStays(source, Opened(source, b), j);
  }

  // ----- code labels and bss -----

  lemma {:induction false} CodeLabelDefined(source: seq<Input>, s: State, k: nat)
    requires Under(source, s) && s.pass == 0 && k < |source| && (source[k].line.Label? || source[k].line.Proc?)
    requires SourceOk(source[..k]) && Assembled(source[..k], s).pass == 0
    requires Before(source, LayoutOf(s), k).current == CODESEG && Settled(source, LayoutOf(s), k + 1)
    ensures
      Has(Assembled(source, s), Expanded(source[k].line.name, source[k].file),
          Symbol(CODESEG, Before(source, LayoutOf(s), k).count))
  {
    hide StepLine, Step, Assembled, Laid;
    var x, v := Expanded(source[k].line.name, source[k].file), Symbol(CODESEG, Before(source, LayoutOf(s), k).count);
    CleanStep(source, s, k);
    LaidAt(source, s, k);
    StepDefines(Assembled(source[..k], s).(file := source[k].file), source[k].line);
    SymbolStays(source, s, k + 1, |source|, x, v);
    assert source[..|source|] == source;
  }

  lemma {:induction false} CodeLabelRecorded(source: seq<Input>, s0: State, k: nat)
    requires SourceOk(source) && Opening(source) && StateOk(s0) && Assembles(source, s0)
    requires k < |source| && (source[k].line.Label? || source[k].line.Proc?)
    requires Before(source, Origin(source), k).current == CODESEG && Settled(source, Origin(source), k + 1)
    ensures
      Has(Assembled(source, Pass0(source, s0)), Expanded(source[k].line.name, source[k].file),
          Symbol(CODESEG, Before(source, Origin(source), k).count))
  {
    hide Assembled, Laid;
    TwoCleanPasses(source, s0);
    var a := Pass0(source, s0);
    OpenedSame(source, a, |source|);
    assert source[..0] == [];
    NoLines(Opened(source, a));
    RunKeeps(source, Opened(source, a), 0, k);
    CodeLabelDefined(source, Opened(source, a), k);
  }

  /** A code label or procedure name stands for the number of instructions assembled before it. */
  lemma {:induction false} CodeLabelIndex(source: seq<Input>, s0: State, k: nat, i: nat, file: nat, name: string)
    requires SourceOk(source) && Opening(source) && StateOk(s0) && Assembles(source, s0) && 1 <= i <= |source|
    requires s0.segments[CODESEG].base == 0 && ShapedSource(source, Origin(source))
    requires 1 <= k < |source| && (source[k].line.Label? || source[k].line.Proc?)
    requires Before(source, Origin(source), k).current == CODESEG && Settled(source, Origin(source), k + 1)
    requires Expanded(name, file) == Expanded(source[k].line.name, source[k].file)
    ensures
      var t := Pass1At(source, s0, i, file);
      Lookup(t, name) == (t, |ProgramBefore(source, s0, k)|)
  {
    hide Assembled, Laid, Program;
    CodeLabelRecorded(source, s0, k);
    var v := Symbol(CODESEG, Before(source, Origin(source), k).count);
    LookedUp(source, s0, i, file, name, v);
    CountBefore(source, s0, k);
    CodeBaseZero(source, s0);
  }

  lemma {:induction false} CountBefore(source: seq<Input>, s0: State, k: nat)
    requires SourceOk(source) && Opening(source) && StateOk(s0) && Assembles(source, s0)
    requires ShapedSource(source, Origin(source)) && 1 <= k <= |source|
    ensures Before(source, Origin(source), k).count == |ProgramBefore(source, s0, k)|
  {
    hide Assembled, Laid, Program;
    TwoCleanPasses(source, s0);
    LayoutAfter(source, Pass1(source, s0), k);
    CodeSegment(source, Pass1(source, s0), k);
  }

  lemma {:induction false} CodeBaseZero(source: seq<Input>, s0: State)
    requires SourceOk(source) && Opening(source) && StateOk(s0) && Assembles(source, s0)
    requires s0.segments[CODESEG].base == 0
    ensures Pass1(source, s0).segments[CODESEG].base == 0
  {
    hide Assembled;
    TwoCleanPasses(source, s0);
    OpenedSame(source, Pass0(source, s0), |source|);
    assert source[..0] == [];
    NoLines(Opened(source, Pass0(source, s0)));
    RunKeeps(source, Opened(source, Pass0(source, s0)), 0, |source|);
    assert source[..|source|] == source;
  }

  /** What WriteVmFile writes of a code segment: the program, and up to whole words what was there before. */
  ghost predicate WrittenCode(e: Segment, before: Segment, program: seq<Instr>)
    requires AllWellFormed(program)
  {
    && e.used == RoundUp4(|Encode(program)|) <= |e.image| == |before.image|
    && Encode(program) <= e.image[..e.used]
    && forall j :: |Encode(program)| <= j < e.used ==> e.image[j] == before.image[j]
  }

  /** A segment as C's static memory begins. */
  ghost predicate Blank(seg: Segment) {
    forall j :: 0 <= j < |seg.image| ==> seg.image[j] == 0
  }

  /** The file that WriteVmFile writes holds the program, as many instructions as its header says. */
  lemma {:induction false} WrittenProgram(source: seq<Input>, s0: State)
    requires SourceOk(source) && Opening(source) && StateOk(s0) && Assembles(source, s0)
    requires ShapedSource(source, Origin(source))
    ensures
      var e, program := AfterPass1(source, s0), Program(source, Pass1(source, s0));
      && AllWellFormed(program) && e.count == |program|
      && WrittenCode(e.segments[CODESEG], s0.segments[CODESEG], program)
  {
    hide Assembled, Program, Encode;
    TwoCleanPasses(source, s0);
    CodeSegment(source, Pass1(source, s0), |source|);
    RestUntouched(source, Pass0(source, s0), |source|);
    RestUntouched(source, Pass1(source, s0), |source|);
    PassesAgree(source, s0, |source|);
    assert source[..|source|] == source;
    var a, b := Assembled(source, Pass0(source, s0)), Assembled(source, Pass1(source, s0));
    assert a.segments[CODESEG].used == b.segments[CODESEG].used by {
      LayoutUsed(a, CODESEG);
      LayoutUsed(b, CODESEG);
    }
    assert b.segments[CODESEG].used <= VM_MAX_IMAGE_SIZE;
  }

  /** In a segment that was blank the program is padded with zeros. */
  lemma {:induction false} ZeroPadded(e: Segment, before: Segment, program: seq<Instr>)
    requires AllWellFormed(program) && WrittenCode(e, before, program) && Blank(before)
    ensures e.image[..e.used] == Encode(program) + seq(e.used - |Encode(program)|, _ => 0)
  {
    hide Encode;
    var n := |Encode(program)|;
    assert e.image[..e.used][..n] == Encode(program);
  }

  /** A label of reserved space: its address in the loaded image, where all of the space is zero. */
  lemma {:induction false} SpaceInPlace(source: seq<Input>, s0: State, k: nat, i: nat, file: nat, name: string,
                                        alloc: nat)
    requires SourceOk(source) && Opening(source) && StateOk(s0) && Assembles(source, s0) && 1 <= i <= |source|
    requires s0.segments[DATASEG].base == 0
    requires 1 <= k && k + 1 < |source| && source[k].line.Label? && source[k + 1].line.Skip?
    requires Before(source, Origin(source), k).current == BSSSEG && Settled(source, Origin(source), k + 1)
    requires Expanded(name, file) == Expanded(source[k].line.name, source[k].file)
    requires
      var e := AfterPass1(source, s0);
      Written(e) && LoadBase(e, BSSSEG) + e.segments[BSSSEG].used <= alloc
    ensures
      var t, e := Pass1At(source, s0, i, file), AfterPass1(source, s0);
      var (t', a) := Lookup(t, name);
      && t' == t && LoadBase(e, BSSSEG) <= a
      && a + source[k + 1].line.n <= LoadBase(e, BSSSEG) + e.segments[BSSSEG].used
      && (forall b :: a <= b < a + source[k + 1].line.n ==> LoadedData(e, alloc)[b] == 0)
  {
    hide Assembled, Laid;
    SpaceRecorded(source, s0, k);
    var at := Before(source, Origin(source), k).used[BSSSEG];
    LookedUp(source, s0, i, file, name, Symbol(BSSSEG, at));
    BaseIsLoadBase(source, s0, BSSSEG);
    SpaceReserved(source, s0, k);
  }

  lemma {:induction false} SpaceRecorded(source: seq<Input>, s0: State, k: nat)
    requires SourceOk(source) && Opening(source) && StateOk(s0) && Assembles(source, s0)
    requires k < |source| && source[k].line.Label?
    requires Before(source, Origin(source), k).current == BSSSEG && Settled(source, Origin(source), k + 1)
    ensures
      Has(Assembled(source, Pass0(source, s0)), Expanded(source[k].line.name, source[k].file),
          Symbol(BSSSEG, Before(source, Origin(source), k).used[BSSSEG]))
  {
    hide Assembled, Laid, StepLine, Step;
    TwoCleanPasses(source, s0);
    var a := Opened(source, Pass0(source, s0));
    OpenedSame(source, Pass0(source, s0), |source|);
    assert source[..0] == [] && source[..|source|] == source;
    NoLines(a);
    RunKeeps(source, a, 0, k);
    LabelDefined(source, a, k);
    var x := Expanded(source[k].line.name, source[k].file);
    var v := Symbol(BSSSEG, Before(source, Origin(source), k).used[BSSSEG]);
    SymbolStays(source, a, k + 1, |source|, x, v);
  }

  lemma {:induction false} SpaceReserved(source: seq<Input>, s0: State, k: nat)
    requires SourceOk(source) && Opening(source) && StateOk(s0) && Assembles(source, s0)
    requires 1 <= k && k + 1 < |source| && source[k].line.Label? && source[k + 1].line.Skip?
    requires Before(source, Origin(source), k).current == BSSSEG
    ensures Before(source, Origin(source), k).used[BSSSEG] + source[k + 1].line.n
         <= AfterPass1(source, s0).segments[BSSSEG].used
  {
    hide Assembled, Laid, StepLine, Step;
    TwoCleanPasses(source, s0);
    var b := Opened(source, Pass1(source, s0));
    OpenedSame(source, Pass1(source, s0), |source|);
    LaidStep(source, Origin(source), k);
    LaidStep(source, Origin(source), k + 1);
    RunKeeps(source, b, k + 2, |source|);
    assert source[..|source|] == source;
    LaidAt(source, b, k + 2);
    LayoutUsed(Assembled(source[..k + 2], b), BSSSEG);
  }

  // ----- the outcome of an assembly -----

  /** Line k defines a code label or a procedure. */
  ghost predicate CodeLabelAt(source: seq<Input>, k: nat)
    requires SourceOk(source) && Opening(source)
  {
    && 1 <= k < |source| && (source[k].line.Label? || source[k].line.Proc?)
    && Before(source, Origin(source), k).current == CODESEG && Settled(source, Origin(source), k + 1)
  }

  /** Line k labels the datum of line j, and all data until the next definition is as wide. */
  ghost predicate DataLabelAt(source: seq<Input>, k: nat, j: nat)
    requires SourceOk(source) && Opening(source)
  {
    && Labels(source, k, j) && Before(source, Origin(source), k).current != CODESEG
    && OneWidth(source, j + 1, Target(source[j].line, 0))
  }

  function LabelName(input: Input): string
    requires input.line.Label? || input.line.Proc?
  {
    Expanded(input.line.name, input.file)
  }

  /** Every code label is the number of the instruction that follows it. */
  ghost predicate CodeLabelsRight(source: seq<Input>, s0: State, e: State)
    requires SourceOk(source) && Opening(source) && StateOk(s0)
  {
    forall k: nat :: CodeLabelAt(source, k) ==>
      Has(e, LabelName(source[k]), Symbol(CODESEG, |ProgramBefore(source, s0, k)|))
  }

  /** Symbol x stands, in the image that is loaded, for these bytes. */
  ghost predicate Denotes(e: State, x: string, out: seq<Byte>)
    requires StateOk(e) && Written(e)
  {
    && x in e.symbols && 0 <= e.symbols[x].segment && 0 <= e.segments[e.symbols[x].segment].base + e.symbols[x].value
    && var a, alloc := e.segments[e.symbols[x].segment].base + e.symbols[x].value,
                       e.segments[DATASEG].used + e.segments[LITSEG].used;
       a + |out| <= alloc && LoadedData(e, alloc)[a..a + |out|] == out
  }

  /** Every data label stands for the bytes that pass 1 emits for the datum behind it. */
  ghost predicate DataLabelsRight(source: seq<Input>, s0: State, e: State)
    requires SourceOk(source) && Opening(source) && StateOk(s0) && StateOk(e) && Written(e)
  {
    forall k: nat, j: nat :: j < |source| && DataLabelAt(source, k, j) ==>
      Denotes(e, LabelName(source[k]), Output(Pass1At(source, s0, j, source[j].file), source[j].line))
  }

  /** The segments lie one behind the other as VM_LoadQVM loads them. */
  predicate BasesPlaced(e: State)
    requires StateOk(e)
  {
    && e.segments[CODESEG].base == 0 && e.segments[DATASEG].base == 0
    && e.segments[LITSEG].base == e.segments[DATASEG].used
    && e.segments[BSSSEG].base == e.segments[DATASEG].used + e.segments[LITSEG].used
  }

  /** What an assembly without errors leaves behind. */
  ghost predicate Outcome(source: seq<Input>, s0: State, e: State) {
    && SourceOk(source) && Opening(source) && StateOk(s0) && StateOk(e)
    && var program := Program(source, Pass1(source, s0));
    && AllWellFormed(program) && e.count == |program|
    && WrittenCode(e.segments[CODESEG], s0.segments[CODESEG], program)
    && BasesPlaced(e) && CodeLabelsRight(source, s0, e)
    && (Written(e) ==> DataLabelsRight(source, s0, e))
  }

  lemma {:induction false} CodeLabelInPlace(source: seq<Input>, s0: State, k: nat)
    requires SourceOk(source) && Opening(source) && StateOk(s0) && Assembles(source, s0)
    requires ShapedSource(source, Origin(source)) && CodeLabelAt(source, k)
    ensures Has(AfterPass1(source, s0), LabelName(source[k]), Symbol(CODESEG, |ProgramBefore(source, s0, k)|))
  {
    hide Assembled, Laid, Program;
    CodeLabelRecorded(source, s0, k);
    CountBefore(source, s0, k);
    SymbolsCarried(source, s0, |source|);
    assert source[..|source|] == source;
  }

  lemma {:induction false} DataLabelInPlace(source: seq<Input>, s0: State, k: nat, j: nat)
    requires SourceOk(source) && Opening(source) && StateOk(s0) && Assembles(source, s0)
    requires s0.segments[DATASEG].base == 0 && Written(AfterPass1(source, s0))
    requires j < |source| && DataLabelAt(source, k, j)
    ensures Denotes(AfterPass1(source, s0), LabelName(source[k]),
                    Output(Pass1At(source, s0, j, source[j].file), source[j].line))
  {
    hide Assembled, Output, LoadedData, Laid;
    var e := AfterPass1(source, s0);
    DatumInPlace(source, s0, k, j, |source|, source[k].file, source[k].line.name,
                 e.segments[DATASEG].used + e.segments[LITSEG].used);
    DatumRecorded(source, s0, k, j);
    SymbolsCarried(source, s0, |source|);
    assert source[..|source|] == source;
  }

  lemma {:induction false} OutcomeRight(source: seq<Input>, s0: State)
    requires SourceOk(source) && Opening(source) && StateOk(s0) && Assembles(source, s0)
    requires s0.segments[CODESEG].base == 0 && s0.segments[DATASEG].base == 0 && ShapedSource(source, Origin(source))
    ensures Outcome(source, s0, AfterPass1(source, s0))
  {
    hide Assembled, Laid, Program, Output, Encode, LoadedData, Denotes, Has, Settled, OneWidth, Before;
    var e := AfterPass1(source, s0);
    WrittenProgram(source, s0);
    BasesRight(source, s0);
    CodeBaseZero(source, s0);
    BaseIsLoadBase(source, s0, DATASEG);
    BasesCarried(source, s0);
    forall k: nat | CodeLabelAt(source, k)
      ensures Has(e, LabelName(source[k]), Symbol(CODESEG, |ProgramBefore(source, s0, k)|))
    {
      CodeLabelInPlace(source, s0, k);
    }
    if Written(e) {
      forall k: nat, j: nat | j < |source| && DataLabelAt(source, k, j)
        ensures Denotes(e, LabelName(source[k]), Output(Pass1At(source, s0, j, source[j].file), source[j].line))
      {
        DataLabelInPlace(source, s0, k, j);
      }
    }
  }

  lemma {:induction false} BasesCarried(source: seq<Input>, s0: State)
    requires SourceOk(source) && Opening(source) && StateOk(s0) && Assembles(source, s0)
    ensures forall g :: 0 <= g < JTRGSEG ==>
      AfterPass1(source, s0).segments[g].base == Pass1(source, s0).segments[g].base
  {
    hide Assembled;
    SymbolsCarried(source, s0, |source|);
    assert source[..|source|] == source;
  }
}
