// VM_CallInterpreted in src/vm/vm.c: the interpreter with its two cached
// operands, against the plain stack machine.

module Interpreter {
  import opened Words
  import opened Bytecode
  import opened Machine
  import opened Lockstep

  /** The mask is the size of the data, a power of two, less 1. */
  lemma MaskIs(c: Core, a: int)
    requires CoreOk(c)
    ensures And(a, |c.image| - 5) == Masked(c, a)
  {
    hide And;
  }

  class Interp {
    var opStack: array<Word>
    var opStackOfs: nat
    var programStack: Word
    var image: array<Byte>
    var breakCount: nat
    var r0: Word
    var r1: Word

    ghost predicate Valid()
      reads this, opStack, image
    {
      && opStack as object != image
      && opStack.Length == OPSTACK && opStackOfs < OPSTACK && 5 <= image.Length < TWO31
    }

    ghost function View(): (c: Core)
      reads this, opStack, image
    {
      Core(opStack[..], opStackOfs, programStack, image[..], breakCount)
    }

    /** What the dispatch without a reload relies on. */
    ghost predicate Cached()
      reads this, opStack
    {
      && opStack.Length == OPSTACK && opStackOfs < OPSTACK
      && r0 == opStack[opStackOfs] && r1 == opStack[(opStackOfs + 255) % OPSTACK]
    }

    /** The reload at the head of DISPATCH. */
    method Reload()
      requires Valid()
      modifies this`r0, this`r1
      ensures Cached()
    {
      r0 := opStack[opStackOfs];
      r1 := opStack[(opStackOfs + 255) % OPSTACK];
    }

    // OP_CONST and OP_LOCAL shift the cache instead of reloading it.
    method PushWord(w: Word)
      requires Valid() && Cached()
      modifies this`opStackOfs, this`r0, this`r1, opStack
      ensures Valid() && Cached() && View() == Put(old(View()), 1, w)
    {
      opStackOfs := (opStackOfs + 1) % OPSTACK;
      r1 := r0;
      opStack[opStackOfs] := w;
      r0 := w;
    }

    // OP_LOAD1, OP_LOAD2 and OP_LOAD4 replace the top and its copy.
    method LoadTop(n: nat)
      requires Valid() && Cached() && n <= 4
      modifies this`r0, opStack
      ensures Valid() && Cached()
      ensures View() == Put(old(View()), 0, Wrap(Load(old(View()).image, Masked(old(View()), old(r0)), n)))
    {
      hide Value;
      ghost var c := View();
      var a := And(r0, image.Length - 5);
      assert a == Masked(c, r0);
      r0 := Wrap(Value(image[a..a + n]));
      opStack[opStackOfs] := r0;
    }

    method StoreBytes(a: int, v: int, n: nat)
      requires 0 <= a && a + n <= image.Length
      modifies image
      ensures image[..] == Store(old(image[..]), a, v, n)
    {
      var b := Bytes(v, n);
      var k := 0;
      while k < n
        invariant 0 <= k <= n
        invariant forall j :: 0 <= j < image.Length ==>
          image[j] == if a <= j < a + k then b[j - a] else old(image[j])
      {
        image[a + k] := b[k];
        k := k + 1;
      }
    }

    method Drop(n: nat)
      requires Valid() && n <= 2
      modifies this`opStackOfs, this`r0, this`r1
      ensures Valid() && Cached() && View() == Moved(old(View()), 0 - n)
    {
      opStackOfs := (opStackOfs + OPSTACK - n) % OPSTACK;
      Reload();
    }

    // OP_STORE1, OP_STORE2 and OP_STORE4
    method StoreTop(n: nat)
      requires Valid() && Cached() && n <= 4
      modifies this`opStackOfs, this`r0, this`r1, image
      ensures Valid() && Cached()
      ensures
        var c := old(View());
        View() == Moved(c.(image := Store(c.image, Masked(c, At(c, -1)), At(c, 0), n)), -2)
    {
      hide Store, And, Masked;
      ghost var c := View();
      ghost var m := Masked(c, At(c, -1));
      MaskIs(c, r1);
      var a := And(r1, image.Length - 5);
      assert a == m && r0 == At(c, 0);
      StoreBytes(a, r0, n);
      assert View() == c.(image := Store(c.image, m, At(c, 0), n));
      Drop(2);
    }

    // OP_ARG
    method StoreArg(arg: Word)
      requires Valid() && Cached()
      modifies this`opStackOfs, this`r0, this`r1, image
      ensures Valid() && Cached()
      ensures
        var c := old(View());
        View() == Moved(c.(image := Store(c.image, Masked(c, arg + c.ps), At(c, 0), 4)), -1)
    {
      hide Store, And, Masked;
      ghost var c := View();
      ghost var m := Masked(c, arg + c.ps);
      MaskIs(c, arg + c.ps);
      var a := And(arg + programStack, image.Length - 5);
      assert a == m && r0 == At(c, 0);
      StoreBytes(a, r0, 4);
      assert View() == c.(image := Store(c.image, m, At(c, 0), 4));
      Drop(1);
    }

    method CopyBytes(dest: nat, src: nat, n: nat)
      requires dest + n <= image.Length && src + n <= image.Length
      modifies image
      ensures image[..] == old(image[..dest]) + old(image[src..src + n]) + old(image[dest + n..])
    {
      var b := image[src..src + n];
      var k := 0;
      while k < n
        invariant 0 <= k <= n
        invariant forall j :: 0 <= j < image.Length ==>
          image[j] == if dest <= j < dest + k then b[j - dest] else old(image[j])
      {
        image[dest + k] := b[k];
        k := k + 1;
      }
    }

    /** VM_BlockCopy */
    method MoveBlock(dest: Word, src: Word, n: nat)
      requires Valid()
      modifies image
      ensures View() == BlockCopied(old(View()), dest, src, n)
    {
      var mask := image.Length - 5;
      if U(dest) <= mask && U(src) <= mask && U(dest) + n <= mask && U(src) + n <= mask {
        CopyBytes(U(dest), U(src), n);
      }
    }

    // OP_BLOCK_COPY
    method BlockCopy(n: nat)
      requires Valid() && Cached()
      modifies this`opStackOfs, this`r0, this`r1, image
      ensures Valid() && Cached()
      ensures View() == Moved(BlockCopied(old(View()), At(old(View()), -1), At(old(View()), 0), n), -2)
    {
      hide BlockCopied;
      assert r1 == At(View(), -1) && r0 == At(View(), 0);
      MoveBlock(r1, r0, n);
      Drop(2);
    }

    method Unary(host: Host, op: int)
      requires Valid() && Cached() && IsUnary(op)
      modifies this`r0, this`r1, opStack
      ensures Valid() && Cached()
      ensures View() == Put(old(View()), 0, Machine.Unary(host, op, At(old(View()), 0)))
    {
      hide Machine.Unary;
      if op == OP_NEGI || op == OP_BCOM {
        opStack[opStackOfs] := Machine.Unary(host, op, r0);
      } else {
        opStack[opStackOfs] := Machine.Unary(host, op, opStack[opStackOfs]);
      }
      Reload();
    }

    /** Integer operators work on the cache, float operators on the stack itself. */
    method Binary(host: Host, op: int) returns (ok: bool)
      requires Valid() && Cached() && IsBinary(op)
      modifies this`opStackOfs, this`r0, this`r1, opStack
      ensures Valid() && Cached()
      ensures
        match Machine.Binary(host, op, At(old(View()), -1), At(old(View()), 0))
        case Some(w) => ok && View() == Put(old(View()), -1, w)
        case None => !ok && View() == old(View())
    {
      hide Machine.Binary;
      var below := (opStackOfs + 255) % OPSTACK;
      var result := if OP_ADDF <= op <= OP_MULF
                    then Machine.Binary(host, op, opStack[below], opStack[(below + 1) % OPSTACK])
                    else Machine.Binary(host, op, r1, r0);
      ok := result.Some?;
      if ok {
        opStackOfs := below;
        opStack[opStackOfs] := result.value;
        Reload();
      }
    }

    method Branch(host: Host, op: int) returns (taken: bool)
      requires Valid() && Cached() && IsBranch(op)
      modifies this`opStackOfs, this`r0, this`r1
      ensures Valid() && Cached() && View() == Moved(old(View()), -2)
      ensures taken <==> Compare(host, op, At(old(View()), -1), At(old(View()), 0))
    {
      hide Compare;
      var below := (opStackOfs + OPSTACK - 2) % OPSTACK;
      TwoBelow(opStackOfs);
      taken := if op >= OP_EQF
               then Compare(host, op, opStack[(below + 1) % OPSTACK], opStack[(below + 2) % OPSTACK])
               else Compare(host, op, r1, r0);
      Drop(2);
    }

    method LoadWord(a: int) returns (w: Word)
      requires 0 <= a && a + 4 <= image.Length
      ensures w == Wrap(Load(image[..], a, 4))
    {
      assert image[..][a..a + 4] == image[a..a + 4];
      w := Wrap(Value(image[a..a + 4]));
    }

    method SetImage(bytes: seq<Byte>)
      requires |bytes| == image.Length
      modifies image
      ensures image[..] == bytes
    {
      var k := 0;
      while k < image.Length
        invariant 0 <= k <= image.Length && forall j :: 0 <= j < k ==> image[j] == bytes[j]
      {
        image[k] := bytes[k];
        k := k + 1;
      }
    }

    /** OP_CALL of a negative number, once the return offset is stored and the number popped. */
    method SystemCall(host: Host, number: Word) returns (ctl: Control)
      requires Valid() && Cached() && number < 0
      modifies this`opStackOfs, this`r0, this`r1, opStack, image
      ensures ctl == SystemEffect(host, number, old(View())).1
      ensures ctl != Undefined ==> Valid() && Cached() && View() == SystemEffect(host, number, old(View())).0
    {
      hide Store, Value;
      if programStack < 0 || programStack + 8 > image.Length {
        return Undefined;
      }
      StoreBytes(programStack + 4, -1 - number, 4);
      var (r, bytes) := host.system(programStack, image[..]);
      if |bytes| != image.Length {
        return Undefined;
      }
      SetImage(bytes);
      var w := LoadWord(programStack);
      PushWord(Wrap(r));
      ctl := Resume(w);
    }

    /** Stores the return offset and pops the number called. */
    method SaveReturn(ret: int)
      requires Valid() && Cached() && InImage(View(), programStack)
      modifies this`opStackOfs, this`r0, this`r1, image
      ensures Valid() && Cached()
      ensures View() == Saved(old(View()), ret)
    {
      hide Store;
      StoreBytes(programStack, ret, 4);
      Drop(1);
    }

    // OP_CALL
    method Call(host: Host, ret: int) returns (ctl: Control)
      requires Valid() && Cached()
      modifies this`opStackOfs, this`r0, this`r1, opStack, image
      ensures ctl == CallEffect(host, ret, old(View())).1
      ensures ctl != Undefined ==> Valid() && Cached() && View() == CallEffect(host, ret, old(View())).0
    {
      hide Value, Bytes, SystemEffect;
      var number := r0;
      if programStack < 0 || programStack + 4 > image.Length {
        return Undefined;
      }
      SaveReturn(ret);
      if number >= 0 {
        ctl := Jump(number);
      } else {
        ctl := SystemCall(host, number);
      }
    }

    // OP_LEAVE
    method Leave(arg: Word) returns (ctl: Control)
      requires Valid() && Cached()
      modifies this`programStack, this`r0, this`r1
      ensures ctl == LeaveEffect(arg, old(View())).1
      ensures ctl != Undefined ==> Valid() && Cached() && View() == LeaveEffect(arg, old(View())).0
    {
      hide Value;
      programStack := Wrap(programStack + arg);
      if programStack < 0 || programStack + 4 > image.Length {
        return Undefined;
      }
      var w := LoadWord(programStack);
      Reload();
      ctl := Return(w);
    }

    /** Loads and stores. */
    method ExecAccess(host: Host, op: int, arg: Word, ret: int)
      requires Valid() && Cached() && OP_LOAD1 <= op <= OP_ARG
      modifies this`opStackOfs, this`r0, this`r1, opStack, image
      ensures Valid() && Cached() && (View(), Next) == Effect(host, op, arg, ret, old(View()))
    {
      hide Value, Bytes;
      if op <= OP_LOAD4 {
        LoadTop(AccessWidth(op));
      } else if op <= OP_STORE4 {
        StoreTop(AccessWidth(op));
      } else {
        StoreArg(arg);
      }
    }

    /** Constants and the block copy. */
    method ExecOperand(host: Host, op: int, arg: Word, ret: int) returns (ctl: Control)
      requires Valid() && Cached() && (op == OP_CONST || op == OP_LOCAL || op == OP_BLOCK_COPY)
      modifies this`opStackOfs, this`r0, this`r1, opStack, image
      ensures ctl == Effect(host, op, arg, ret, old(View())).1
      ensures ctl != Undefined ==> Valid() && Cached() && View() == Effect(host, op, arg, ret, old(View())).0
    {
      ctl := Next;
      if op == OP_CONST {
        PushWord(arg);
      } else if op == OP_LOCAL {
        PushWord(Wrap(arg + programStack));
      } else if arg < 0 {
        ctl := Undefined;
      } else {
        BlockCopy(arg);
      }
    }

    /** Calls, returns, frames and jumps. */
    method ExecControl(host: Host, op: int, arg: Word, ret: int) returns (ctl: Control)
      requires Valid() && Cached()
      requires OP_IGNORE <= op <= OP_POP || op == OP_JUMP
      modifies this`opStackOfs, this`programStack, this`breakCount, this`r0, this`r1, opStack, image
      ensures ctl == Effect(host, op, arg, ret, old(View())).1
      ensures ctl != Undefined ==> Valid() && Cached() && View() == Effect(host, op, arg, ret, old(View())).0
    {
      hide CallEffect, LeaveEffect;
      ctl := Next;
      if op == OP_IGNORE {
      } else if op == OP_BREAK {
        breakCount := breakCount + 1;
      } else if op == OP_CALL {
        ctl := Call(host, ret);
      } else if op == OP_PUSH {
        opStackOfs := (opStackOfs + 1) % OPSTACK;
        Reload();
      } else if op == OP_POP {
        Drop(1);
      } else if op == OP_ENTER {
        programStack := Wrap(programStack - arg);
        Reload();
      } else if op == OP_LEAVE {
        ctl := Leave(arg);
      } else {
        ctl := Jump(r0);
        Drop(1);
      }
    }

    /** One instruction on the cached interpreter is one on the plain machine. */
    method Exec(host: Host, op: int, arg: Word, ret: int) returns (ctl: Control)
      requires Valid() && Cached()
      modifies this`opStackOfs, this`programStack, this`breakCount, this`r0, this`r1, opStack, image
      ensures ctl == Effect(host, op, arg, ret, old(View())).1
      ensures ctl != Undefined ==> Valid() && Cached() && View() == Effect(host, op, arg, ret, old(View())).0
    {
      ctl := Next;
      if OP_LOAD1 <= op <= OP_ARG {
        ExecAccess(host, op, arg, ret);
      } else if op == OP_CONST || op == OP_LOCAL || op == OP_BLOCK_COPY {
        ctl := ExecOperand(host, op, arg, ret);
      } else if OP_IGNORE <= op <= OP_POP || op == OP_JUMP {
        ctl := ExecControl(host, op, arg, ret);
      } else if IsBranch(op) {
        var taken := Branch(host, op);
        ctl := if taken then Taken else Next;
      } else if IsUnary(op) {
        Unary(host, op);
      } else if IsBinary(op) {
        var ok := Binary(host, op);
        ctl := if ok then Next else Undefined;
      } else {
        ctl := BadInstruction;
      }
    }

    /** Fetches and executes the instruction at word offset pc. */
    method Dispatch(host: Host, m: Lockstep.Image, pc: int) returns (status: Status, pc': int)
      requires Valid() && Cached()
      modifies this`opStackOfs, this`programStack, this`breakCount, this`r0, this`r1, opStack, image
      ensures Shows(status, pc', WordStep(host, m, pc, old(View())))
      ensures status == Ready ==> Valid() && Cached()
    {
      hide Effect;
      status, pc' := Lost, pc;
      if !Readable(m, pc) {
        return;
      }
      var op := m.words[pc];
      var wide := HasWord(op) || op == OP_ARG;
      var arg := if wide then m.words[pc + 1] else 0;
      TakenIsBranch(host, op, arg, pc + 1, View());
      var ctl := Exec(host, op, arg, pc + 1);
      match ctl
      case Next => status, pc' := Ready, if wide then pc + 2 else pc + 1;
      case Taken => status, pc' := Ready, m.words[pc + 1];
      case Jump(k) =>
        if 0 <= k < |m.pointers| {
          status, pc' := Ready, m.pointers[k];
        } else {
          status := Error;
        }
      case Return(w) =>
        if w == -1 {
          status := Done;
        } else if U(w) >= m.codeLength {
          status := Error;
        } else {
          status, pc' := Ready, w;
        }
      case Resume(w) => status, pc' := Ready, w;
      case BadInstruction => status := Error;
      case Undefined =>
    }

    ghost predicate Shows(status: Status, pc: int, o: Outcome)
      reads this, opStack, image
    {
      match o
      case Running(p, c) => status == Ready && pc == p && View() == c
      case Halted(c) => status == Done && View() == c
      case Failed(c) => status == Error && View() == c
      case Stuck => status == Lost
    }

    /** The interpreter loop, for n instructions or until it ends: every run refines the plain machine's. */
    method Interpret(host: Host, m: Lockstep.Image, pc: int, n: nat) returns (status: Status, pc': int)
      requires Valid()
      modifies this`opStackOfs, this`programStack, this`breakCount, this`r0, this`r1, opStack, image
      ensures Shows(status, pc', Run(WordSteps(host, m), Running(pc, old(View())), n))
    {
      hide WordStep;
      Reload();
      status, pc' := Ready, pc;
      ghost var goal := Run(WordSteps(host, m), Running(pc, View()), n);
      var left := n;
      while left > 0 && status == Ready
        invariant 0 <= left <= n
        invariant status == Ready ==> Valid() && Cached()
        invariant status == Ready ==> Run(WordSteps(host, m), Running(pc', View()), left) == goal
        invariant status != Ready ==> Shows(status, pc', goal)
      {
        ghost var o := WordStep(host, m, pc', View());
        status, pc' := Dispatch(host, m, pc');
        left := left - 1;
        if !o.Running? { StuckStays(WordSteps(host, m), o, left); }
      }
    }
  }

  datatype Status = Ready | Done | Error | Lost

  /** Two slots down and up again on the ring of the operand stack. */
  lemma TwoBelow(top: nat)
    requires top < OPSTACK
    ensures var below := (top + OPSTACK - 2) % OPSTACK;
      (below + 1) % OPSTACK == (top + 255) % OPSTACK == (top - 1) % OPSTACK
          && (below + 2) % OPSTACK == top == (top + 0) % OPSTACK
  {
  }
}
