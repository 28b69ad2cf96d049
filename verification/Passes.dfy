// The two passes of q3asm (Assemble in q3asm/q3asm.c) go through the same layout
// line by line.

module Passes {
  import opened Words
  import opened Bytecode
  import opened Assembly
  import opened AssemblyLines

  ghost predicate SourceOk(source: seq<Input>) {
    forall k :: 0 <= k < |source| ==> LineOk(source[k].line)
  }

  /** The lines of a pass, one after the other. */
  ghost function Assembled(source: seq<Input>, s: State): (s': State)
    requires SourceOk(source) && StateOk(s)
    ensures StateOk(s')
    decreases |source|
  {
    if source == [] then s
    else Step(Assembled(source[..|source| - 1], s), source[|source| - 1])
  }

  /** What Assemble does before the lines of a pass. */
  function StartPass(s: State, pass: nat): (s': State)
    requires StateOk(s) && pass <= 1
    ensures StateOk(s')
  {
    var data, lit, bss := s.segments[DATASEG].used, s.segments[LITSEG].used, s.segments[BSSSEG].used;
    s.(pass := pass, count := 0, segments := [
      s.segments[CODESEG].(used := 0),
      s.segments[DATASEG].(used := 4),
      s.segments[LITSEG].(used := 0, base := data),
      s.segments[BSSSEG].(used := 0, base := data + lit),
      s.segments[JTRGSEG].(used := 0, base := data + lit + bss)])
  }

  /** What Assemble does after the lines of a pass: every segment ends on a whole word. */
  function EndPass(s: State): (s': State)
    requires StateOk(s)
    ensures StateOk(s')
  {
    s.(segments := seq(NUM_SEGMENTS, g requires 0 <= g < NUM_SEGMENTS =>
      s.segments[g].(used := RoundUp4(s.segments[g].used))))
  }

  // ----- prefixes -----

  lemma {:induction false} StepBack(source: seq<Input>, s: State, k: nat)
    requires SourceOk(source) && StateOk(s) && k < |source|
    ensures SourceOk(source[..k]) && SourceOk(source[..k + 1])
    ensures Assembled(source[..k + 1], s) == Step(Assembled(source[..k], s), source[k])
  {
    assert source[..k + 1][..k] == source[..k];
  }

  /** An error-free run is error-free up to every line. */
  lemma {:induction false} CleanPrefix(source: seq<Input>, s: State, k: nat)
    requires SourceOk(source) && StateOk(s) && k <= |source| && Clean(s, Assembled(source, s))
    ensures SourceOk(source[..k]) && Clean(s, Assembled(source[..k], s))
    ensures Assembled(source[..k], s).errors == s.errors
    decreases |source| - k
  {
    if k == |source| {
      assert source[..k] == source;
    } else {
      CleanPrefix(source, s, k + 1);
      StepBack(source, s, k);
      var t := Assembled(source[..k], s);
      ErrorsGrow(source[..k], s);
      if !t.dead { StepErrors(t.(file := source[k].file), source[k].line); }
    }
  }

  lemma {:induction false} ErrorsGrow(source: seq<Input>, s: State)
    requires SourceOk(source) && StateOk(s)
    ensures Assembled(source, s).errors >= s.errors
    decreases |source|
  {
    if source != [] {
      var t, last := Assembled(source[..|source| - 1], s), source[|source| - 1];
      ErrorsGrow(source[..|source| - 1], s);
      if !t.dead { StepErrors(t.(file := last.file), last.line); }
    }
  }

  /** Line k of an error-free run, as a step from a clean state to a clean state. */
  lemma {:induction false} CleanStep(source: seq<Input>, s: State, k: nat)
    requires SourceOk(source) && StateOk(s) && k < |source| && Clean(s, Assembled(source, s))
    ensures SourceOk(source[..k]) && SourceOk(source[..k + 1])
    ensures
      var t := Assembled(source[..k], s).(file := source[k].file);
      && Assembled(source[..k + 1], s) == StepLine(t, source[k].line)
      && Clean(t, StepLine(t, source[k].line))
  {
    CleanPrefix(source, s, k);
    CleanPrefix(source, s, k + 1);
    StepBack(source, s, k);
  }

  // ----- layout -----

  predicate Opening(source: seq<Input>) {
    source != [] && source[0].line.Directive? && CODESEG <= source[0].line.seg <= BSSSEG
  }

  /** The layout after the lines. */
  ghost function Laid(source: seq<Input>, l: Layout): (l': Layout)
    requires SourceOk(source) && LayoutOk(l)
    ensures LayoutOk(l')
    decreases |source|
  {
    if source == [] then l
    else Advance(source[|source| - 1].line, Laid(source[..|source| - 1], l))
  }

  lemma {:induction false} LaidStep(source: seq<Input>, l: Layout, k: nat)
    requires SourceOk(source) && LayoutOk(l) && k < |source|
    ensures SourceOk(source[..k]) && SourceOk(source[..k + 1])
    ensures Laid(source[..k + 1], l) == Advance(source[k].line, Laid(source[..k], l))
  {
    assert source[..k + 1][..k] == source[..k];
  }

  /** A source that opens with a directive does not care which segment was current before. */
  lemma {:induction false} OpeningForgets(source: seq<Input>, s: State, c: int)
    requires SourceOk(source) && Opening(source) && StateOk(s) && !s.dead && -1 <= c < NUM_SEGMENTS
    ensures Assembled(source, s) == Assembled(source, s.(current := c))
    decreases |source|
  {
    var front := source[..|source| - 1];
    if front == [] {
      assert Assembled(front, s) == s && Assembled(front, s.(current := c)) == s.(current := c);
    } else {
      OpeningForgets(front, s, c);
    }
  }

  /** How every pass begins. */
  ghost predicate Fresh(s: State) {
    StateOk(s) && s.count == 0 && (forall g :: 0 <= g < 4 ==> s.segments[g].used == if g == DATASEG then 4 else 0)
  }

  /** The layout a pass begins with, once its opening directive has been seen. */
  function Origin(source: seq<Input>): (l: Layout)
    requires Opening(source)
    ensures LayoutOk(l)
  {
    Layout([0, 4, 0, 0], source[0].line.seg, 0)
  }

  lemma {:induction false} LaidOut(source: seq<Input>, s: State)
    requires SourceOk(source) && StateOk(s) && LayoutOk(LayoutOf(s)) && Clean(s, Assembled(source, s))
    ensures LayoutOf(Assembled(source, s)) == Laid(source, LayoutOf(s))
    decreases |source|
  {
    if source != [] {
      var n := |source| - 1;
      CleanPrefix(source, s, n);
      LaidOut(source[..n], s);
      CleanStep(source, s, n);
      assert source[..n + 1] == source;
      StepLayout(Assembled(source[..n], s).(file := source[n].file), source[n].line);
    }
  }

  /** After k lines of an error-free pass the layout is what the lines alone say. */
  lemma {:induction false} LayoutAfter(source: seq<Input>, s: State, k: nat)
    requires SourceOk(source) && Opening(source) && Fresh(s) && Clean(s, Assembled(source, s)) && 1 <= k <= |source|
    ensures SourceOk(source[..k]) && LayoutOf(Assembled(source[..k], s)) == Laid(source[..k], Origin(source))
  {
    CleanPrefix(source, s, k);
    var t := s.(current := source[0].line.seg);
    OpeningForgets(source[..k], s, t.current);
    LaidOut(source[..k], t);
    assert LayoutOf(t) == Origin(source);
  }

  /** Both passes of an error-free assembly have the same layout after every line. */
  lemma PassesAgree(source: seq<Input>, s0: State, k: nat)
    requires SourceOk(source) && Opening(source) && StateOk(s0) && Assembles(source, s0) && 1 <= k <= |source|
    ensures
      var a, b := StartPass(s0, 0), StartPass(AfterPass0(source, s0), 1);
      LayoutOf(Assembled(source[..k], a)) == LayoutOf(Assembled(source[..k], b))
  {
    TwoCleanPasses(source, s0);
    LayoutAfter(source, StartPass(s0, 0), k);
    LayoutAfter(source, StartPass(AfterPass0(source, s0), 1), k);
  }

  ghost function AfterPass0(source: seq<Input>, s0: State): (s: State)
    requires SourceOk(source) && StateOk(s0)
    ensures StateOk(s)
  {
    EndPass(Assembled(source, StartPass(s0, 0)))
  }

  ghost function AfterPass1(source: seq<Input>, s0: State): (s: State)
    requires SourceOk(source) && StateOk(s0)
    ensures StateOk(s)
  {
    EndPass(Assembled(source, StartPass(AfterPass0(source, s0), 1)))
  }

  /** Both passes end without an error. */
  ghost predicate Assembles(source: seq<Input>, s0: State)
    requires SourceOk(source) && StateOk(s0)
  {
    Clean(s0, AfterPass1(source, s0))
  }

  lemma {:induction false} DeadStays(source: seq<Input>, s: State)
    requires SourceOk(source) && StateOk(s) && s.dead
    ensures Assembled(source, s) == s
    decreases |source|
  {
    if source != [] { DeadStays(source[..|source| - 1], s); }
  }

  lemma {:induction false} TwoCleanPasses(source: seq<Input>, s0: State)
    requires SourceOk(source) && StateOk(s0) && Assembles(source, s0)
    ensures
      var a, b := StartPass(s0, 0), StartPass(AfterPass0(source, s0), 1);
      && Fresh(a) && Fresh(b) && Clean(a, Assembled(source, a)) && Clean(b, Assembled(source, b))
  {
    var a, b := StartPass(s0, 0), StartPass(AfterPass0(source, s0), 1);
    ErrorsGrow(source, a);
    ErrorsGrow(source, b);
    if b.dead { DeadStays(source, b); }
  }

  /**
   * So the segment bases of pass 1 are where VM_LoadQVM puts the segments that pass 1 ends
   * with: data at 0, then lit, then bss.
   */
  lemma BasesRight(source: seq<Input>, s0: State)
    requires SourceOk(source) && Opening(source) && StateOk(s0) && Assembles(source, s0)
    ensures
      var b, e := StartPass(AfterPass0(source, s0), 1), AfterPass1(source, s0);
      && b.segments[LITSEG].base == e.segments[DATASEG].used
      && b.segments[BSSSEG].base == e.segments[DATASEG].used + e.segments[LITSEG].used
  {
    TwoCleanPasses(source, s0);
    PassesAgree(source, s0, |source|);
    assert source[..|source|] == source;
    var x, y := LayoutOf(Assembled(source, StartPass(s0, 0))),
                LayoutOf(Assembled(source, StartPass(AfterPass0(source, s0), 1)));
    assert x.used[1] == y.used[1] && x.used[2] == y.used[2];
  }
}
