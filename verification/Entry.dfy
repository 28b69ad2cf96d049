// How VM_CallInterpreted (src/vm/vm.c) sets up its first frame, and runs of an
// assembled program from there.

module Entry {
  import opened Words
  import opened Bytecode
  import opened Machine
  import opened Lockstep
  import opened Frames
  import opened Interpreter
  import A = Assembly
  import C = AssembledCode
  import D = Addresses
  import P = Procedures
  import S = Statics
  import N = StaticLines

  /** The arguments stored so far. */
  ghost predicate Stored(image: seq<Byte>, ps: nat, args: seq<Word>, n: nat) {
    && n <= |args| && ps + 8 + 4 * |args| <= |image|
    && forall k :: 0 <= k < n ==> Wrap(Load(image, ps + 8 + 4 * k, 4)) == args[k]
  }

  lemma StoredNext(image: seq<Byte>, ps: nat, args: seq<Word>, n: nat)
    requires Stored(image, ps, args, n) && n < |args|
    ensures Stored(Store(image, ps + 8 + 4 * n, args[n], 4), ps, args, n + 1)
  {
    hide Load, Store;
    var a := ps + 8 + 4 * n;
    var image' := Store(image, a, args[n], 4);
    StoreThenLoad(image, a, args[n]);
    forall k | 0 <= k < n + 1 ensures Wrap(Load(image', ps + 8 + 4 * k, 4)) == args[k] {
      if k < n { StoreApart(image, a, args[n], ps + 8 + 4 * k); }
    }
  }

  /** A word stored below the arguments leaves them as they are. */
  lemma StoredBelow(image: seq<Byte>, ps: nat, args: seq<Word>, a: nat, v: Word)
    requires Stored(image, ps, args, |args|) && a + 4 <= ps + 8
    ensures Stored(Store(image, a, v, 4), ps, args, |args|)
  {
    hide Load, Store;
    var image' := Store(image, a, v, 4);
    forall k | 0 <= k < |args| ensures Wrap(Load(image', ps + 8 + 4 * k, 4)) == args[k] {
      StoreApart(image, a, v, ps + 8 + 4 * k);
    }
  }

  /** The images differ only from lo up to hi. */
  ghost predicate OnlyWithin(image: seq<Byte>, image': seq<Byte>, lo: int, hi: int) {
    |image'| == |image| && forall k :: 0 <= k < |image| && !(lo <= k < hi) ==> image'[k] == image[k]
  }

  lemma StoredWithin(image: seq<Byte>, image': seq<Byte>, lo: int, hi: int, a: nat, v: Word)
    requires OnlyWithin(image, image', lo, hi) && lo <= a && a + 4 <= hi && a + 4 <= |image|
    ensures OnlyWithin(image, Store(image', a, v, 4), lo, hi)
  {
  }

  method StoreArgs(vm: Interp, args: seq<Word>)
    requires vm.Valid() && |args| == MAX_VMMAIN_ARGS && 0 <= vm.programStack
        && vm.programStack + ENTRY_FRAME <= vm.image.Length
    modifies vm.image
    ensures vm.Valid() && Stored(vm.image[..], vm.programStack, args, MAX_VMMAIN_ARGS)
    ensures OnlyWithin(old(vm.image[..]), vm.image[..], vm.programStack, vm.programStack + ENTRY_FRAME)
  {
    hide Load, Store, OnlyWithin;
    ghost var image, top := vm.image[..], vm.programStack + ENTRY_FRAME;
    var arg := 0;
    SameWithin(image, vm.programStack, top);
    while arg < MAX_VMMAIN_ARGS
      invariant 0 <= arg <= MAX_VMMAIN_ARGS && vm.Valid()
      invariant Stored(vm.image[..], vm.programStack, args, arg)
      invariant OnlyWithin(image, vm.image[..], vm.programStack, top)
    {
      StoredNext(vm.image[..], vm.programStack, args, arg);
      StoredWithin(image, vm.image[..], vm.programStack, top, vm.programStack + 8 + arg * 4, args[arg]);
      vm.StoreBytes(vm.programStack + 8 + arg * 4, args[arg], 4);
      arg := arg + 1;
    }
  }

  /** VM_CallInterpreted up to its main loop: the frame with the arguments, and nothing else, is written. */
  method Enter(vm: Interp, args: seq<Word>)
    requires vm.Valid() && |args| == MAX_VMMAIN_ARGS && ENTRY_FRAME <= vm.programStack <= vm.image.Length
    modifies vm`programStack, vm`opStackOfs, vm`r0, vm`r1, vm.opStack, vm.image
    ensures vm.Valid() && vm.Cached() && Entered(vm.View(), old(vm.programStack), args)
    ensures OnlyWithin(old(vm.image[..]), vm.image[..], vm.programStack, old(vm.programStack))
  {
    hide Load, Store, OnlyWithin;
    ghost var image := vm.image[..];
    var top := vm.programStack;
    vm.programStack := top - ENTRY_FRAME;
    StoreArgs(vm, args);
    StoredBelow(vm.image[..], vm.programStack, args, vm.programStack + 4, 0);
    StoredWithin(image, vm.image[..], top - ENTRY_FRAME, top, vm.programStack + 4, 0);
    vm.StoreBytes(vm.programStack + 4, 0, 4);
    StoredBelow(vm.image[..], vm.programStack, args, vm.programStack, -1);
    StoreThenLoad(vm.image[..], vm.programStack, -1);
    StoredWithin(image, vm.image[..], top - ENTRY_FRAME, top, vm.programStack, -1);
    vm.StoreBytes(vm.programStack, -1, 4);
    vm.opStack[0] := 0xBEEF;
    vm.opStackOfs := 0;
    vm.Reload();
  }

  lemma SameWithin(image: seq<Byte>, lo: int, hi: int)
    ensures OnlyWithin(image, image, lo, hi)
  {
  }

  // ----- runs from there -----

  /**
   * A run that a system call starts while programStack is ps: VM_CallInterpreted begins four
   * bytes below, and all frames of the inner run, their return words and the arguments of its
   * entry lie below that, until it ends where it began.
   */
  lemma {:induction false} NestedRun(host: Host, p: Program, table: set<Fn>, f: Fn, c: Core, ps: int, args: seq<Word>,
                                     n: nat)
    requires TableOk(p, table) && f in table && f.start == 0 && Entered(c, ps - 4, args)
    requires PoliteRun(host, p, table, [Activation(f, -1, c.ps)], Running(0, c), n)
    ensures
      match Run(InstrSteps(host, p), Running(0, c), n)
      case Running(i, c') =>
        && c'.ps + ENTRY_FRAME <= ps - 4
        && var stack := StackAfter(host, p, table, [Activation(f, -1, c.ps)], Running(0, c), n);
           forall k :: 0 <= k < |stack| ==> stack[k].base + ENTRY_FRAME <= ps - 4
      case Halted(c') => c'.ps == c.ps == ps - 4 - ENTRY_FRAME
      case _ => true
  {
    hide InstrStep, PoliteRun;
    var first := [Activation(f, -1, c.ps)];
    EntryInv(p, table, f, c, ps - 4, args);
    RunKeeps(host, p, table, first, Running(0, c), n);
    var o := Run(InstrSteps(host, p), Running(0, c), n);
    if o.Running? {
      var stack := StackAfter(host, p, table, first, Running(0, c), n);
      BottomKept(host, p, table, first, Running(0, c), n);
      forall k | 0 <= k < |stack| ensures stack[k].base + ENTRY_FRAME <= ps - 4 {
        NestedBelow(p, table, stack, o.pc, o.core, ps, k);
      }
      NestedBelow(p, table, stack, o.pc, o.core, ps, 0);
    }
  }

  /** The first procedure of a source, before any other instruction. */
  ghost predicate Leading(source: seq<A.Input>, s0: A.State, p: nat, e: nat) {
    && P.Compiled(source, s0) && P.Procedure(source, p, e)
    && forall i :: 0 <= i < p ==> !C.Codes(source[i].line)
  }

  lemma {:induction false} NothingBefore(source: seq<A.Input>, s0: A.State, p: nat, e: nat, i: nat)
    requires Leading(source, s0, p, e) && 1 <= i <= p
    ensures D.ProgramBefore(source, s0, i) == []
    decreases i
  {
    assert p < |source|;
    hide P.Procedure, C.Program, C.Codes, A.StepLine;
    if i == 1 {
      P.FirstLine(source, s0);
    } else {
      NothingBefore(source, s0, p, e, i - 1);
      P.LineStep(source, s0, i - 1);
      C.NoInstrs(D.Pass1At(source, s0, i - 1, source[i - 1].file), source[i - 1].line);
    }
  }

  /**
   * Every run of an assembled source from VM_CallInterpreted on, if it does not store over
   * saved words, computes no jump or call that leads astray, and the host keeps the return word:
   * the frame protocol holds throughout, and the run can only end with the programStack it began
   * with.
   */
  lemma {:induction false} AssembledRun(host: Host, source: seq<A.Input>, s0: A.State, p: nat, e: nat, c: Core,
                                        top: int,
                                        args: seq<Word>, n: nat)
    requires N.Named(source, s0) && Leading(source, s0, p, e)
    requires Entered(c, top, args) && ProgramOk(P.Linked(source, s0))
    requires S.TameRun(host, P.Linked(source, s0), P.Functions(source, s0),
                       [Activation(P.FnOf(source, s0, p, e), -1, c.ps)], Running(0, c), n)
    ensures
      var first := [Activation(P.FnOf(source, s0, p, e), -1, c.ps)];
      match Run(InstrSteps(host, P.Linked(source, s0)), Running(0, c), n)
      case Running(i, c') =>
        Inv(P.Linked(source, s0), P.Functions(source, s0),
            StackAfter(host, P.Linked(source, s0), P.Functions(source, s0), first, Running(0, c), n), i, c')
      case Halted(c') => c'.ps == top - ENTRY_FRAME
      case _ => true
  {
    hide P.Linked, P.Built, P.Procedure, Inv, PoliteRun, StackAfter, Run, D.ProgramBefore, S.TameRun, N.Named;
    P.FunctionsOk(source, s0);
    FirstIsFunction(source, s0, p, e);
    EntryInv(P.Linked(source, s0), P.Functions(source, s0), P.FnOf(source, s0, p, e), c, top, args);
    N.TameRunKeeps(host, source, s0, [Activation(P.FnOf(source, s0, p, e), -1, c.ps)], Running(0, c), n);
  }

  lemma FirstIsFunction(source: seq<A.Input>, s0: A.State, p: nat, e: nat)
    requires Leading(source, s0, p, e)
    ensures P.FnOf(source, s0, p, e) in P.Functions(source, s0) && P.FnOf(source, s0, p, e).start == 0
  {
    hide P.Built, P.BranchesInside, D.ProgramBefore;
    assert 1 <= p < |source| && e < |source|;
    NothingBefore(source, s0, p, e, p);
  }
}
