// The names of an assembly (DefineSymbol and LookupSymbol in q3asm/q3asm.c): local
// names of different files never meet, an error-free source defines every name
// that it uses, and none twice.

module Definitions {
  import opened Words
  import opened Bytecode
  import opened Assembly
  import opened AssemblyLines
  import opened Passes
  import opened Symbols
  import opened Addresses
  import opened Operands

  // ----- names -----

  predicate LocalName(name: string) {
    name != [] && name[0] == '$'
  }

  lemma {:induction false} DigitsAre(n: nat)
    ensures |Digits(n)| > 0 && forall k :: 0 <= k < |Digits(n)| ==> Digits(n)[k] != '_'
    decreases n
  {
    if n >= 10 { DigitsAre(n / 10); }
  }

  lemma {:induction false} DigitsApart(m: nat, n: nat)
    requires Digits(m) == Digits(n)
    ensures m == n
    decreases m
  {
    var x, y := Digits(m), Digits(n);
    assert x[|x| - 1] == (m % 10 + '0' as int) as char && y[|y| - 1] == (n % 10 + '0' as int) as char;
    DigitsAre(m / 10);
    DigitsAre(n / 10);
    if m >= 10 && n >= 10 {
      assert x[..|x| - 1] == Digits(m / 10) && y[..|y| - 1] == Digits(n / 10);
      DigitsApart(m / 10, n / 10);
    }
  }

  lemma LastUnderscore(x: string, a: string, k: nat)
    requires forall i :: 0 <= i < |a| ==> a[i] != '_'
    requires |x| < k < |x + "_" + a|
    ensures (x + "_" + a)[k] != '_'
  {
    assert (x + "_" + a)[k] == a[k - |x| - 1];
  }

  /** Two names with their digits behind the last underscore agree in both. */
  lemma SuffixesApart(x: string, y: string, a: string, b: string)
    requires x + "_" + a == y + "_" + b
    requires forall k :: 0 <= k < |a| ==> a[k] != '_'
    requires forall k :: 0 <= k < |b| ==> b[k] != '_'
    ensures x == y && a == b
  {
    var z, z' := x + "_" + a, y + "_" + b;
    forall k | |x| < k < |z| ensures z[k] != '_' { LastUnderscore(x, a, k); }
    forall k | |y| < k < |z'| ensures z'[k] != '_' { LastUnderscore(y, b, k); }
    assert z[|x|] == '_' && z'[|y|] == '_';
    assert z[..|x|] == x && z'[..|y|] == y && z[|x| + 1..] == a && z'[|y| + 1..] == b;
  }

  /** Names meet exactly if they are the same name, of the same file if they are local. */
  lemma ExpandedApart(x: string, f: nat, y: string, g: nat)
    ensures Expanded(x, f) == Expanded(y, g) <==> x == y && (LocalName(x) ==> f == g)
  {
    if Expanded(x, f) == Expanded(y, g) {
      DigitsAre(f);
      DigitsAre(g);
      assert LocalName(Expanded(x, f)) == LocalName(x) && LocalName(Expanded(y, g)) == LocalName(y);
      if LocalName(x) && LocalName(y) {
        SuffixesApart(x, y, Digits(f), Digits(g));
        DigitsApart(f, g);
      }
    }
  }

  // ----- definitions -----

  function DefinedName(input: Input): string
    requires Defines(input.line)
  {
    Expanded(input.line.name, input.file)
  }

  /** In pass 0 a line adds the name that it defines, which must be new, and no other. */
  lemma StepNames(s: State, line: Line)
    requires StateOk(s) && 0 <= s.current < JTRGSEG && LineOk(line) && Clean(s, StepLine(s, line))
    ensures s.pass == 0 && Defines(line) ==>
      && Expanded(line.name, s.file) !in s.symbols
      && StepLine(s, line).symbols.Keys == s.symbols.Keys + {Expanded(line.name, s.file)}
    ensures s.pass == 1 || !Defines(line) ==> StepLine(s, line).symbols.Keys == s.symbols.Keys
  {
    hide StepLine, Expanded;
    StepRest(s, line);
    assert Rest(s, line).errors == s.errors;
  }

  /** The names that pass 0 knows after k lines. */
  ghost function NamesAfter(source: seq<Input>, k: nat, names: set<string>): set<string>
    requires k <= |source|
  {
    names + set i | 0 <= i < k && Defines(source[i].line) :: DefinedName(source[i])
  }

  lemma {:induction false} NamesKnown(source: seq<Input>, s: State, k: nat)
    requires Under(source, s) && s.pass == 0 && k <= |source|
    ensures SourceOk(source[..k]) && Assembled(source[..k], s).pass == 0
    ensures Assembled(source[..k], s).symbols.Keys == NamesAfter(source, k, s.symbols.Keys)
    decreases k
  {
    hide StepLine, Step, Assembled, Expanded, Laid;
    if k == 0 {
      assert source[..0] == [];
      NoLines(s);
    } else {
      NamesKnown(source, s, k - 1);
      CleanStep(source, s, k - 1);
      LaidAt(source, s, k - 1);
      var t := Assembled(source[..k - 1], s).(file := source[k - 1].file);
      StepNames(t, source[k - 1].line);
      StepKeepsPass(t, source[k - 1].line);
      NamesNext(source, k - 1, s.symbols.Keys);
    }
  }

  lemma NamesNext(source: seq<Input>, k: nat, names: set<string>)
    requires k < |source|
    ensures NamesAfter(source, k + 1, names)
         == NamesAfter(source, k, names) + if Defines(source[k].line) then {DefinedName(source[k])} else {}
  {
    hide Expanded;
  }

  /** An error-free source defines no name twice. */
  lemma {:induction false} DefinedOnce(source: seq<Input>, s0: State, i: nat, j: nat)
    requires SourceOk(source) && Opening(source) && StateOk(s0) && Assembles(source, s0)
    requires i < j < |source| && Defines(source[i].line) && Defines(source[j].line)
    ensures DefinedName(source[i]) != DefinedName(source[j]) && DefinedName(source[j]) !in s0.symbols
  {
    hide Assembled, Expanded, Laid, StepLine;
    TwoCleanPasses(source, s0);
    var a := Pass0(source, s0);
    OpenedSame(source, a, |source|);
    var s := Opened(source, a);
    NamesKnown(source, s, j);
    CleanStep(source, s, j);
    LaidAt(source, s, j);
    StepNames(Assembled(source[..j], s).(file := source[j].file), source[j].line);
    assert DefinedName(source[i]) in NamesAfter(source, j, s.symbols.Keys);
  }

  /** The name that a line needs the value of. */
  function UsedName(line: Line): Option<string> {
    match line
    case Op(opcode, Some(e)) =>
      if e.base.Name? && opcode != OP_IGNORE && opcode != OP_CVIF && opcode != OP_CVFI then Some(e.base.name) else None
    case AddrF(e) => if e.base.Name? then Some(e.base.name) else None
    case AddrL(e) => if e.base.Name? then Some(e.base.name) else None
    case Address(e) => if e.base.Name? then Some(e.base.name) else None
    case _ => None
  }

  /** In pass 1 a line that is no error uses a name that is known. */
  lemma StepUses(s: State, line: Line)
    requires StateOk(s) && s.pass == 1 && LineOk(line) && UsedName(line).Some? && Clean(s, StepLine(s, line))
    ensures Expanded(UsedName(line).value, s.file) in s.symbols
  {
    hide Expanded, StepOp, StepLocal, StepAddress;
    match line
    case Op(opcode, operand) => OpUses(s, opcode, operand.value);
    case AddrF(e) => LocalUses(s, e, 16 + s.args + s.locals);
    case AddrL(e) => LocalUses(s, e, 8 + s.args);
    case Address(e) => AddressUses(s, e);
  }

  lemma EvaluateKnows(s: State, e: Expr)
    requires StateOk(s) && s.pass == 1 && e.base.Name? && Evaluate(s, e).0.errors == s.errors
    ensures Expanded(e.base.name, s.file) in s.symbols
  {
    hide Expanded;
  }

  lemma OpUses(s: State, opcode: int, e: Expr)
    requires StateOk(s) && s.pass == 1 && e.base.Name? && Clean(s, StepOp(s, opcode, Some(e)))
    requires opcode != OP_IGNORE && opcode != OP_CVIF && opcode != OP_CVFI
    ensures Expanded(e.base.name, s.file) in s.symbols
  {
    hide EmitInt, EmitByte, Evaluate, Expanded;
    var s0 := if opcode == OP_UNDEF then Fault(s) else s;
    var (s1, v) := Evaluate(s0, e);
    EvaluateClean(s0, e);
    EmitWord(s1, CODESEG, opcode, if opcode == OP_BLOCK_COPY then RoundUp4(v) else v);
    EvaluateKnows(s0, e);
  }

  lemma LocalUses(s: State, e: Expr, extra: int)
    requires StateOk(s) && s.pass == 1 && e.base.Name? && Clean(s, StepLocal(s, e, extra))
    ensures Expanded(e.base.name, s.file) in s.symbols
  {
    hide EmitInt, EmitByte, Evaluate, Expanded;
    EvaluateClean(Counted(s), e);
    var (s1, v) := Evaluate(Counted(s), e);
    EmitWord(s1, CODESEG, OP_LOCAL, extra + v);
    EvaluateKnows(Counted(s), e);
  }

  lemma AddressUses(s: State, e: Expr)
    requires StateOk(s) && s.pass == 1 && e.base.Name? && Clean(s, StepAddress(s, e))
    ensures Expanded(e.base.name, s.file) in s.symbols
  {
    hide EmitInt, Evaluate, Expanded;
    var (s1, v) := Evaluate(s, e);
    EvaluateClean(s, e);
    HackClean(s1, DATASEG);
    EmitKeeps(Hack(s1, DATASEG), DATASEG, v);
    EmitKeeps(EmitInt(Hack(s1, DATASEG), DATASEG, v), JTRGSEG, v);
    EvaluateKnows(s, e);
  }

  /** An error-free source defines every name that it uses. */
  lemma {:induction false} UsedDefined(source: seq<Input>, s0: State, i: nat) returns (k: nat)
    requires SourceOk(source) && Opening(source) && StateOk(s0) && Assembles(source, s0)
    requires 1 <= i < |source| && UsedName(source[i].line).Some?
    ensures
      var x := Expanded(UsedName(source[i].line).value, source[i].file);
      x !in s0.symbols ==> k < |source| && Defines(source[k].line) && DefinedName(source[k]) == x
  {
    hide Assembled, Expanded, Laid, StepLine, UsedName;
    TwoCleanPasses(source, s0);
    var a, b, x := Pass0(source, s0), Pass1(source, s0), Expanded(UsedName(source[i].line).value, source[i].file);
    OpenedSame(source, a, |source|);
    NamesKnown(source, Opened(source, a), |source|);
    assert source[..|source|] == source;
    CleanStep(source, b, i);
    SymbolsCarried(source, s0, i);
    StepUses(Pass1At(source, s0, i, source[i].file), source[i].line);
    k := 0;
    if x !in s0.symbols {
      assert x in NamesAfter(source, |source|, s0.symbols.Keys);
      k :| 0 <= k < |source| && Defines(source[k].line) && DefinedName(source[k]) == x;
    }
  }

  /** The symbol that an equate records. */
  lemma EquStep(s: State, name: string, value: int)
    requires StateOk(s) && s.pass == 0 && Clean(s, StepLine(s, Equ(name, value)))
    ensures
      var s' := StepLine(s, Equ(name, value));
      Has(s', Expanded(name, s.file), Symbol(s.current, value)) && s'.pass == 0
  {
    hide Expanded;
  }

  lemma {:induction false} EquRecorded(source: seq<Input>, s: State, k: nat)
    requires Under(source, s) && s.pass == 0 && k < |source| && source[k].line.Equ?
    requires Settled(source, LayoutOf(s), k + 1)
    ensures
      Has(Assembled(source, s), DefinedName(source[k]),
          Symbol(Before(source, LayoutOf(s), k).current, source[k].line.value))
  {
    hide StepLine, Step, Assembled, Laid, Expanded;
    assert source[..0] == [] && source[..|source|] == source;
    NoLines(s);
    RunKeeps(source, s, 0, k);
    CleanStep(source, s, k);
    LaidAt(source, s, k);
    EquStep(Assembled(source[..k], s).(file := source[k].file), source[k].line.name, source[k].line.value);
    SymbolStays(source, s, k + 1, |source|, DefinedName(source[k]),
                Symbol(Before(source, LayoutOf(s), k).current, source[k].line.value));
  }

  /** An equate is its value, counted from the base of the segment it stands in, 0 for code and data. */
  lemma {:induction false} EquAddress(source: seq<Input>, s0: State, k: nat)
    requires SourceOk(source) && Opening(source) && StateOk(s0) && Assembles(source, s0)
    requires k < |source| && source[k].line.Equ? && Settled(source, Origin(source), k + 1)
    ensures
      var e, g := AfterPass1(source, s0), Before(source, Origin(source), k).current;
      IsAddress(e, DefinedName(source[k]), e.segments[g].base + source[k].line.value)
  {
    hide Assembled, Laid, Expanded;
    TwoCleanPasses(source, s0);
    OpenedSame(source, Pass0(source, s0), |source|);
    EquRecorded(source, Opened(source, Pass0(source, s0)), k);
    SymbolsCarried(source, s0, |source|);
    assert source[..|source|] == source;
  }

  // ----- space and segments -----

  /**
   * align goes on to the least multiple of its operand, skip exactly as far as its operand, both in the
   * current segment only; a directive makes its segment the current one; definitions take no space.
   */
  lemma {:induction false} Reserved(source: seq<Input>, l: Layout, k: nat)
    requires SourceOk(source) && LayoutOk(l) && k < |source|
    ensures
      var b, a := Before(source, l, k), Before(source, l, k + 1);
      match source[k].line
      case Align(n) =>
        && n > 0 && a == b.(used := b.used[b.current := a.used[b.current]])
        && a.used[b.current] % n == 0 && 0 <= a.used[b.current] - b.used[b.current] < n
      case Skip(n) => a == b.(used := b.used[b.current := b.used[b.current] + n])
      case Directive(g) => a == b.(current := g)
      case Label(_) => a == b
      case Equ(_, _) => a == b
      case Ignored => a == b
      case _ => true
  {
    LaidStep(source, l, k);
  }

  // ----- jump targets -----

  /** A word of a jump table, the address of a local label, is listed among the jump targets too. */
  lemma TargetListed(s: State, e: Expr)
    requires StateOk(s) && s.pass == 1 && Clean(s, StepAddress(s, e))
    ensures IsLocal(e) ==> s.segments[JTRGSEG].used + 4 <= |s.segments[JTRGSEG].image|
    ensures
      var v, j := Evaluate(s, e).1, s.segments[JTRGSEG];
      StepAddress(s, e).segments[JTRGSEG] ==
        if IsLocal(e) then j.(image := Patched(j.image, j.used, Bytes(v, 4)), used := j.used + 4)
        else j
  {
    hide Evaluate;
    EvaluateClean(s, e);
    HackClean(s, DATASEG);
  }

  /** Lines that put a word on the list of jump targets: address of a local name. */
  predicate ListsTarget(line: Line) {
    line.Address? && IsLocal(line.e)
  }

  lemma EmitsElsewhere(s: State, op: int, v: int)
    requires StateOk(s)
    ensures EmitByte(s, CODESEG, op).segments[JTRGSEG] == s.segments[JTRGSEG]
    ensures EmitInt(EmitByte(s, CODESEG, op), CODESEG, v).segments[JTRGSEG] == s.segments[JTRGSEG]
  {
    hide Bytes;
  }

  lemma OpTargets(s: State, opcode: int, operand: Option<Expr>)
    requires StateOk(s) && Clean(s, StepOp(s, opcode, operand))
    ensures StepOp(s, opcode, operand).segments[JTRGSEG] == s.segments[JTRGSEG]
  {
    hide EmitByte, EmitInt, Evaluate;
    var s0 := if opcode == OP_UNDEF then Fault(s) else s;
    EmitsElsewhere(s0, opcode, 0);
    if operand.Some? && opcode != OP_IGNORE && opcode != OP_CVIF && opcode != OP_CVFI {
      var (s1, v) := Evaluate(s0, operand.value);
      EvaluateClean(s0, operand.value);
      var w := if opcode == OP_BLOCK_COPY then RoundUp4(v) else v;
      EmitWord(s1, CODESEG, opcode, w);
      EmitsElsewhere(s1, opcode, w);
    }
  }

  lemma LocalTargets(s: State, e: Expr, extra: int)
    requires StateOk(s) && Clean(s, StepLocal(s, e, extra))
    ensures StepLocal(s, e, extra).segments[JTRGSEG] == s.segments[JTRGSEG]
  {
    hide EmitByte, EmitInt, Evaluate;
    EvaluateClean(Counted(s), e);
    var (s1, v) := Evaluate(Counted(s), e);
    EmitWord(s1, CODESEG, OP_LOCAL, extra + v);
    EmitsElsewhere(s1, OP_LOCAL, extra + v);
  }

  lemma AddressTargets(s: State, e: Expr)
    requires StateOk(s) && !IsLocal(e) && Clean(s, StepAddress(s, e))
    ensures StepAddress(s, e).segments[JTRGSEG] == s.segments[JTRGSEG]
  {
    hide Evaluate, Bytes;
    EvaluateClean(s, e);
    HackClean(Evaluate(s, e).0, DATASEG);
  }

  lemma ProcTargets(s: State, name: string, locals: int, args: int)
    requires StateOk(s)
    ensures StepProc(s, name, locals, args).segments[JTRGSEG] == s.segments[JTRGSEG]
  {
    hide EmitByte, EmitInt, Expanded;
    var s1 := Define(s, name, s.count).(locals := RoundUp4(locals), args := RoundUp4(args));
    var s2 := Counted(if Frame(s1) >= 32767 then Fault(s1) else s1);
    EmitsElsewhere(s2, OP_ENTER, Frame(s2));
  }

  lemma LeaveTargets(s: State)
    requires StateOk(s)
    ensures StepLine(s, Ret).segments[JTRGSEG] == s.segments[JTRGSEG]
    ensures StepEndProc(s).segments[JTRGSEG] == s.segments[JTRGSEG]
  {
    hide EmitByte, EmitInt;
    EmitsElsewhere(s, OP_LEAVE, Frame(s));
    EmitsElsewhere(Counted(s), OP_PUSH, 0);
    EmitsElsewhere(Counted(EmitByte(Counted(s), CODESEG, OP_PUSH)), OP_LEAVE, Frame(s));
    EmitKeeps(s, CODESEG, OP_LEAVE);
    EmitKeeps(Counted(s), CODESEG, OP_PUSH);
    RetCounts(s);
  }

  lemma RetCounts(s: State)
    requires StateOk(s)
    ensures EmitInt(Counted(EmitByte(s, CODESEG, OP_LEAVE)), CODESEG, Frame(s)).segments
         == EmitInt(EmitByte(s, CODESEG, OP_LEAVE), CODESEG, Frame(s)).segments
  {
    hide Bytes;
  }

  /** Any other line leaves the list alone. */
  lemma TargetsKept(s: State, line: Line)
    requires StateOk(s) && 0 <= s.current < JTRGSEG && LineOk(line) && !ListsTarget(line) && Clean(s, StepLine(s, line))
    ensures StepLine(s, line).segments[JTRGSEG] == s.segments[JTRGSEG]
  {
    hide StepOp, StepLocal, StepAddress, StepData, StepProc, StepEndProc, Expanded;
    match line
    case Op(opcode, operand) => OpTargets(s, opcode, operand);
    case Extend(width, operand) => if width == 1 || width == 2 {
      OpTargets(s, if width == 1 then OP_SEX8 else OP_SEX16, operand);
    }
    case AddrF(e) => LocalTargets(s, e, 16 + s.args + s.locals);
    case AddrL(e) => LocalTargets(s, e, 8 + s.args);
    case Address(e) => AddressTargets(s, e);
    case Data(width, value) => DataTargets(s, width, value);
    case Proc(name, locals, args) => ProcTargets(s, name, locals, args);
    case EndProc => LeaveTargets(s);
    case Ret => LeaveTargets(s);
    case _ =>
  }

  lemma {:induction false} DataTargets(s: State, width: int, value: int)
    requires StateOk(s) && 0 <= s.current < JTRGSEG && Clean(s, StepData(s, width, value))
    ensures StepData(s, width, value).segments[JTRGSEG] == s.segments[JTRGSEG]
  {
    hide Bytes, EmitBytes;
    var g := Target(Data(width, value), s.current);
    HackClean(s, g);
    if width > 0 { EmitMany(if width == 2 then Fault(s) else Hack(s, g), g, value, width); }
  }

  lemma {:induction false} TargetStep(s: State, line: Line, v: int)
    requires StateOk(s) && s.pass == 1 && 0 <= s.current < JTRGSEG && LineOk(line) && Clean(s, StepLine(s, line))
    requires ListsTarget(line) ==> Evaluate(s, line.e).1 == v
    ensures
      var j, j' := s.segments[JTRGSEG], StepLine(s, line).segments[JTRGSEG];
      j.used <= |j.image| ==>
        j'.used <= |j'.image| && j'.image[..j'.used] == j.image[..j.used] + if ListsTarget(line) then Bytes(v, 4)
            else []
  {
    hide StepAddress, Evaluate, Bytes;
    if ListsTarget(line) {
      assert StepLine(s, line) == StepAddress(s, line.e);
      TargetListed(s, line.e);
    } else {
      hide StepLine;
      TargetsKept(s, line);
    }
  }

  /** The words of the address lines of local names, in order. */
  ghost function JumpTargets(source: seq<Input>, values: seq<int>): seq<Byte>
    requires |values| == |source|
  {
    if source == [] then []
    else
      var n := |source| - 1;
      JumpTargets(source[..n], values[..n]) + if ListsTarget(source[n].line) then Bytes(values[n], 4) else []
  }

  /** Every local name that is listed is its address and an offset. */
  ghost predicate TargetsAre(source: seq<Input>, e: State, values: seq<int>)
    requires StateOk(e) && |values| == |source|
  {
    forall i :: 0 <= i < |source| && ListsTarget(source[i].line) ==>
      IsAddress(e, Expanded(source[i].line.e.base.name, source[i].file), values[i] - source[i].line.e.offset)
  }

  lemma {:induction false} TargetsAfter(source: seq<Input>, s0: State, values: seq<int>, k: nat)
    requires SourceOk(source) && Opening(source) && StateOk(s0) && Assembles(source, s0)
    requires |values| == |source| && TargetsAre(source, AfterPass1(source, s0), values) && 1 <= k <= |source|
    ensures SourceOk(source[..k])
    ensures
      var j := Assembled(source[..k], Pass1(source, s0)).segments[JTRGSEG];
      j.used <= |j.image| && j.image[..j.used] == JumpTargets(source[..k], values[..k])
    decreases k
  {
    hide Assembled, Expanded, Laid, StepLine, Evaluate, IsAddress, Bytes;
    var b, i := Pass1(source, s0), k - 1;
    TwoCleanPasses(source, s0);
    OpenedSame(source, b, |source|);
    CleanStep(source, b, i);
    assert source[..k][..i] == source[..i] && values[..k][..i] == values[..i];
    if i == 0 {
      NoTargets(source, values, b);
    } else {
      TargetsAfter(source, s0, values, i);
      LayoutAfter(source, b, i);
      SymbolsCarried(source, s0, i);
      var t := Pass1At(source, s0, i, source[i].file);
      if ListsTarget(source[i].line) {
        var e := source[i].line.e;
        NameEvaluates(source, s0, i, e.base.name, e.offset, values[i] - e.offset);
      }
      TargetStep(t, source[i].line, values[i]);
    }
  }

  /** The list of jump targets holds the addresses that the address lines give local names, and nothing else. */
  lemma {:induction false} TargetsRight(source: seq<Input>, s0: State, values: seq<int>)
    requires SourceOk(source) && Opening(source) && StateOk(s0) && Assembles(source, s0)
    requires |values| == |source| && TargetsAre(source, AfterPass1(source, s0), values)
    ensures
      var j := Assembled(source, Pass1(source, s0)).segments[JTRGSEG];
      j.used <= |j.image| && j.image[..j.used] == JumpTargets(source, values)
  {
    hide Assembled, Expanded, Laid, StepLine, JumpTargets, IsAddress;
    TargetsAfter(source, s0, values, |source|);
    assert source[..|source|] == source && values[..|source|] == values;
  }

  lemma {:induction false} NoTargets(source: seq<Input>, values: seq<int>, b: State)
    requires SourceOk(source) && Opening(source) && |values| == |source| && Fresh(b) && !b.dead
    requires b.segments[JTRGSEG].used == 0
    ensures
      var j := Assembled(source[..1], b).segments[JTRGSEG];
      j.used == 0 && JumpTargets(source[..1], values[..1]) == []
  {
    assert source[..1][..0] == [];
    NoLines(b);
  }
}
