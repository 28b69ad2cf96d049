// What pass 0 of q3asm records about a label is where pass 1 puts its datum, and
// where VM_LoadQVM (src/vm/vm.c) loads it.

module Symbols {
  import opened Words
  import opened Bytecode
  import opened Assembly
  import opened AssemblyLines
  import opened Passes
  import opened AssembledCode

  // ----- pass 0: one symbol through the lines -----

  /** Lines that define a symbol. */
  predicate Defines(line: Line) {
    line.Proc? || line.Label? || line.Equ?
  }

  predicate IsDatum(line: Line) {
    line.Address? || (line.Data? && (line.width == 1 || line.width == 4))
  }

  /** Lines for which HackToSegment moves the last symbol. */
  predicate Hacks(line: Line, current: int) {
    (line.Address? || line.Data?) && Target(line, current) != current
  }

  ghost predicate Has(s: State, x: string, v: Symbol) {
    x in s.symbols && s.symbols[x] == v
  }

  /** A line changes no symbol but a new one, and the last one when it moves the data elsewhere. */
  lemma StepKeepsSymbol(s: State, line: Line, x: string, v: Symbol)
    requires StateOk(s) && s.pass == 0 && 0 <= s.current < JTRGSEG && LineOk(line) && Clean(s, StepLine(s, line))
    requires Has(s, x, v) && (s.last == Some(x) ==> !Hacks(line, s.current))
    ensures
      var s' := StepLine(s, line);
      && s'.pass == 0 && Has(s', x, v)
      && (s'.last == Some(x) ==> s.last == Some(x) && !Defines(line))
  {
    hide StepLine;
    StepRest(s, line);
    assert Rest(s, line).errors == s.errors;
  }

  /** No symbol is defined by lines k to j. */
  ghost predicate NoneDefined(source: seq<Input>, k: nat, j: nat) {
    forall i :: k <= i < j && i < |source| ==> !Defines(source[i].line)
  }

  /** From line k until the next definition, no data goes to another segment than the current one. */
  ghost predicate Settled(source: seq<Input>, l: Layout, k: nat)
    requires SourceOk(source) && LayoutOk(l)
  {
    forall j :: k <= j < |source| && NoneDefined(source, k, j) ==>
      !Hacks(source[j].line, Laid(source[..j], l).current)
  }

  /** Pass 0 as it is once the opening directive has been seen. */
  ghost predicate Under(source: seq<Input>, s: State) {
    SourceOk(source) && StateOk(s) && LayoutOk(LayoutOf(s)) && Clean(s, Assembled(source, s))
  }

  lemma {:induction false} LaidAt(source: seq<Input>, s: State, k: nat)
    requires Under(source, s) && k <= |source|
    ensures SourceOk(source[..k]) && LayoutOf(Assembled(source[..k], s)) == Laid(source[..k], LayoutOf(s))
  {
    CleanPrefix(source, s, k);
    LaidOut(source[..k], s);
  }

  lemma {:induction false} SymbolStays(source: seq<Input>, s: State, k: nat, n: nat, x: string, v: Symbol)
    requires Under(source, s) && s.pass == 0 && k <= n <= |source| && Settled(source, LayoutOf(s), k)
    requires SourceOk(source[..k]) && Has(Assembled(source[..k], s), x, v) && Assembled(source[..k], s).pass == 0
    ensures SourceOk(source[..n])
    ensures
      var t := Assembled(source[..n], s);
      t.pass == 0 && Has(t, x, v) && (t.last == Some(x) ==> NoneDefined(source, k, n))
    decreases n
  {
    hide StepLine, Step, Assembled, Laid, Hacks, Defines;
    if n > k {
      var j := n - 1;
      SymbolStays(source, s, k, j, x, v);
      CleanStep(source, s, j);
      LaidAt(source, s, j);
      StepKeepsSymbol(Assembled(source[..j], s).(file := source[j].file), source[j].line, x, v);
    }
  }

  /** Lines whose data, if any, goes to segment g. */
  predicate StaysIn(line: Line, g: int) {
    && !line.Directive?
    && (line.Address? ==> g == DATASEG)
    && (line.Data? ==> (line.width == 1 ==> g == LITSEG) && (line.width == 4 ==> g == DATASEG))
  }

  /** Until the next definition all data is of the width that goes to segment g. */
  ghost predicate OneWidth(source: seq<Input>, k: nat, g: int) {
    forall j :: k <= j < |source| && NoneDefined(source, k, j) ==> StaysIn(source[j].line, g)
  }

  lemma {:induction false} OneWidthStays(source: seq<Input>, l: Layout, k: nat, j: nat, g: int)
    requires SourceOk(source) && LayoutOk(l) && OneWidth(source, k, g) && k <= j <= |source|
    requires Laid(source[..k], l).current == g && NoneDefined(source, k, j)
    ensures Laid(source[..j], l).current == g
    decreases j
  {
    hide Laid, Aligned;
    if j > k {
      OneWidthStays(source, l, k, j - 1, g);
      LaidStep(source, l, j - 1);
      assert StaysIn(source[j - 1].line, g);
    }
  }

  lemma {:induction false} OneWidthSettled(source: seq<Input>, l: Layout, k: nat, g: int)
    requires SourceOk(source) && LayoutOk(l) && OneWidth(source, k, g) && k <= |source|
    requires Laid(source[..k], l).current == g
    ensures Settled(source, l, k)
  {
    hide Laid, Advance;
    forall j | k <= j < |source| && NoneDefined(source, k, j)
      ensures !Hacks(source[j].line, Laid(source[..j], l).current)
    {
      OneWidthStays(source, l, k, j, g);
    }
  }

  // ----- labels -----

  /** The symbol a label or a procedure defines. */
  lemma StepDefines(s: State, line: Line)
    requires StateOk(s) && s.pass == 0 && 0 <= s.current < JTRGSEG && LineOk(line) && Clean(s, StepLine(s, line))
    requires line.Label? || line.Proc?
    ensures
      var s', x := StepLine(s, line), Expanded(line.name, s.file);
      && s'.last == Some(x) && s'.current == s.current && s'.pass == 0
      && Has(s', x, Symbol(s.current,
                           if line.Proc? || s.current == CODESEG then s.count else s.segments[s.current].used))
  {
    hide StepLine;
    StepRest(s, line);
    assert Rest(s, line).errors == s.errors;
  }

  /** The first datum after a label: the label ends up in the datum's segment, where the datum starts. */
  lemma StepMoves(s: State, line: Line, x: string)
    requires StateOk(s) && s.pass == 0 && 0 <= s.current < JTRGSEG && LineOk(line) && Clean(s, StepLine(s, line))
    requires IsDatum(line) && s.last == Some(x) && Has(s, x, Symbol(s.current, s.segments[s.current].used))
    ensures
      var s', g := StepLine(s, line), Target(line, s.current);
      s'.pass == 0 && Has(s', x, Symbol(g, s.segments[g].used))
  {
    hide StepLine;
    StepRest(s, line);
  }

  /** From a label at line k to its first datum at line j nothing happens. */
  ghost predicate Labels(source: seq<Input>, k: nat, j: nat) {
    && k < j < |source| && source[k].line.Label? && IsDatum(source[j].line)
    && (forall i :: k < i < j ==> source[i].line.Ignored?)
  }

  lemma {:induction false} IgnoredLines(source: seq<Input>, s: State, k: nat, j: nat)
    requires SourceOk(source) && StateOk(s) && k <= j <= |source|
    requires forall i :: k <= i < j ==> source[i].line.Ignored?
    ensures Assembled(source[..j], s) == Assembled(source[..k], s).(file := Assembled(source[..j], s).file)
    decreases j
  {
    hide Assembled;
    if j > k {
      IgnoredLines(source, s, k, j - 1);
      StepBack(source, s, j - 1);
    }
  }

  /** The layout before line j, once the opening directive has been seen. */
  ghost function Before(source: seq<Input>, l: Layout, j: nat): (b: Layout)
    requires SourceOk(source) && LayoutOk(l) && j <= |source|
    ensures LayoutOk(b)
  {
    Laid(source[..j], l)
  }

  lemma LabelDefined(source: seq<Input>, s: State, k: nat)
    requires Under(source, s) && s.pass == 0 && k < |source| && source[k].line.Label?
    requires SourceOk(source[..k]) && Assembled(source[..k], s).pass == 0
    requires Before(source, LayoutOf(s), k).current != CODESEG
    ensures SourceOk(source[..k + 1])
    ensures
      var t, x, b := Assembled(source[..k + 1], s), Expanded(source[k].line.name, source[k].file),
                     Before(source, LayoutOf(s), k);
      && t.pass == 0 && t.last == Some(x) && t.current == b.current
      && Has(t, x, Symbol(b.current, b.used[b.current])) && t.segments[b.current].used == b.used[b.current]
  {
    hide StepLine, Step, Assembled, Laid;
    CleanStep(source, s, k);
    LaidAt(source, s, k);
    LaidStep(source, LayoutOf(s), k);
    LaidAt(source, s, k + 1);
    StepDefines(Assembled(source[..k], s).(file := source[k].file), source[k].line);
    LayoutUsed(Assembled(source[..k], s), Before(source, LayoutOf(s), k).current);
    LayoutUsed(Assembled(source[..k + 1], s), Before(source, LayoutOf(s), k).current);
  }

  lemma DatumMoves(source: seq<Input>, s: State, k: nat, j: nat, x: string)
    requires Under(source, s) && s.pass == 0 && Labels(source, k, j)
    requires SourceOk(source[..k + 1])
    requires
      var t := Assembled(source[..k + 1], s);
      t.pass == 0 && t.last == Some(x) && 0 <= t.current < JTRGSEG
      && Has(t, x, Symbol(t.current, t.segments[t.current].used))
    ensures SourceOk(source[..j + 1])
    ensures
      var t, g := Assembled(source[..j + 1], s), Target(source[j].line, 0);
      t.pass == 0 && Has(t, x, Symbol(g, Before(source, LayoutOf(s), j).used[g]))
      && Before(source, LayoutOf(s), j + 1).current == g
  {
    hide StepLine, Step, Assembled, Laid;
    IgnoredLines(source, s, k + 1, j);
    CleanStep(source, s, j);
    LaidAt(source, s, j);
    LaidStep(source, LayoutOf(s), j);
    LayoutUsed(Assembled(source[..j], s), Target(source[j].line, 0));
    StepMoves(Assembled(source[..j], s).(file := source[j].file), source[j].line, x);
  }

  /** A label of data of one width ends pass 0 at the segment and offset of its first datum. */
  lemma {:induction false} DataLabel(source: seq<Input>, s: State, k: nat, j: nat)
    requires Under(source, s) && s.pass == 0 && Labels(source, k, j)
    requires SourceOk(source[..k]) && Assembled(source[..k], s).pass == 0
    requires Before(source, LayoutOf(s), k).current != CODESEG
    requires OneWidth(source, j + 1, Target(source[j].line, 0))
    ensures
      var x, g := Expanded(source[k].line.name, source[k].file), Target(source[j].line, 0);
      Has(Assembled(source, s), x, Symbol(g, Before(source, LayoutOf(s), j).used[g]))
  {
    hide StepLine, Step, Assembled, Laid;
    var x, g := Expanded(source[k].line.name, source[k].file), Target(source[j].line, 0);
    LabelDefined(source, s, k);
    DatumMoves(source, s, k, j, x);
    OneWidthSettled(source, LayoutOf(s), j + 1, g);
    SymbolStays(source, s, j + 1, |source|, x, Symbol(g, Before(source, LayoutOf(s), j).used[g]));
    assert source[..|source|] == source;
  }
}

