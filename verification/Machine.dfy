// What each instruction does (VM_CallInterpreted in src/vm/vm.c), as a plain
// stack machine without cached operands.

module Machine {
  import opened Words
  import opened Bytecode

  const OPSTACK := 256

  /** The data side of the interpreter: opStack and opStackOfs, programStack, image, breakCount. */
  datatype Core = Core(stack: seq<Word>, top: nat, ps: Word, image: seq<Byte>, breaks: nat)

  /** dataAlloc is the data size, a positive number of bytes, plus 4. */
  predicate CoreOk(c: Core) {
    |c.stack| == OPSTACK && c.top < OPSTACK && 5 <= |c.image| < TWO31
  }

  /** What the host supplies: system calls, and float arithmetic on the bits of words. */
  datatype Host = Host(
    system: (int, seq<Byte>) -> (int, seq<Byte>),
    floatBinary: (int, int, int) -> int,
    floatUnary: (int, int) -> int,
    floatCompare: (int, int, int) -> bool)

  /** Where control goes after an instruction. */
  datatype Control =
    | Next                  // the following instruction
    | Taken                 // the branch operand
    | Jump(index: int)      // an instruction number from the stack, checked
    | Return(word: int)     // a saved word, checked against -1 and codeLength
    | Resume(word: int)     // a saved word, after a system call
    | BadInstruction
    | Undefined             // no defined behaviour in C

  // ----- the operand stack: a ring of 256 words -----

  function At(c: Core, k: int): Word
    requires CoreOk(c)
  {
    c.stack[(c.top + k) % OPSTACK]
  }

  function Moved(c: Core, k: int): (c': Core)
    requires CoreOk(c)
    ensures CoreOk(c')
  {
    c.(top := (c.top + k) % OPSTACK)
  }

  /** Moves the top by k and stores w there. */
  function Put(c: Core, k: int, w: Word): (c': Core)
    requires CoreOk(c)
    ensures CoreOk(c')
  {
    c.(top := (c.top + k) % OPSTACK, stack := c.stack[(c.top + k) % OPSTACK := w])
  }

  // ----- memory -----

  function Load(image: seq<Byte>, a: int, n: nat): nat
    requires 0 <= a && a + n <= |image|
  {
    Value(image[a..a + n])
  }

  function Store(image: seq<Byte>, a: int, v: int, n: nat): (image': seq<Byte>)
    requires 0 <= a && a + n <= |image|
    ensures |image'| == |image|
  {
    image[..a] + Bytes(v, n) + image[a + n..]
  }

  /** a & dataMask: every access of up to 4 bytes there lies in the image. */
  function Masked(c: Core, a: int): (m: int)
    requires CoreOk(c)
    ensures 0 <= m && m + 4 < |c.image|
  {
    AndAtMost(U(a), U(|c.image| - 5));
    And(a, |c.image| - 5)
  }

  predicate InImage(c: Core, a: int) {
    0 <= a && a + 4 <= |c.image|
  }

  // ----- arithmetic -----

  predicate IsUnary(op: int) {
    op == OP_NEGI || op == OP_BCOM || op == OP_SEX8 || op == OP_SEX16
    || op == OP_NEGF || op == OP_CVIF || op == OP_CVFI
  }

  predicate IsBinary(op: int) {
    (OP_ADD <= op <= OP_RSHU && op != OP_BCOM) || OP_ADDF <= op <= OP_MULF
  }

  function SignExtend(x: int, half: int): int
    requires half > 0
  {
    (x + half) % (2 * half) - half
  }

  function Unary(host: Host, op: int, r0: Word): Word
    requires IsUnary(op)
  {
    if op == OP_NEGI then Wrap(0 - r0)
    else if op == OP_BCOM then Wrap(Com(r0))
    else if op == OP_SEX8 then Wrap(SignExtend(r0, 0x80))
    else if op == OP_SEX16 then Wrap(SignExtend(r0, 0x8000))
    else Wrap(host.floatUnary(op, r0))
  }

  predicate DivisionOk(r1: int, r0: int) {
    r0 != 0 && !(r1 == -TWO31 && r0 == -1)
  }

  /** None where C leaves the result undefined. */
  function Binary(host: Host, op: int, r1: Word, r0: Word): Option<Word>
    requires IsBinary(op)
  {
    if op == OP_ADD then Some(Wrap(r1 + r0))
    else if op == OP_SUB then Some(Wrap(r1 - r0))
    else if op == OP_DIVI then if DivisionOk(r1, r0) then Some(Wrap(Quot(r1, r0))) else None
    else if op == OP_DIVU then if U(r0) != 0 then Some(Wrap(U(r1) / U(r0))) else None
    else if op == OP_MODI then if DivisionOk(r1, r0) then Some(Wrap(Rem(r1, r0))) else None
    else if op == OP_MODU then if U(r0) != 0 then Some(Wrap(U(r1) % U(r0))) else None
    else if op == OP_MULI then Some(Wrap(r1 * r0))
    else if op == OP_MULU then Some(Wrap(U(r1) * U(r0)))
    else if op == OP_BAND then Some(Wrap(And(r1, r0)))
    else if op == OP_BOR then Some(Wrap(Or(r1, r0)))
    else if op == OP_BXOR then Some(Wrap(Xor(r1, r0)))
    else if op == OP_LSH then if 0 <= r0 < 32 then Some(Wrap(r1 * Pow2(r0))) else None
    else if op == OP_RSHI then if 0 <= r0 < 32 then Some(Wrap(r1 / Pow2(r0))) else None
    else if op == OP_RSHU then if 0 <= r0 < 32 then Some(Wrap(U(r1) / Pow2(r0))) else None
    else Some(Wrap(host.floatBinary(op, r1, r0)))
  }

  predicate Compare(host: Host, op: int, r1: Word, r0: Word)
    requires IsBranch(op)
  {
    if op == OP_EQ then r1 == r0
    else if op == OP_NE then r1 != r0
    else if op == OP_LTI then r1 < r0
    else if op == OP_LEI then r1 <= r0
    else if op == OP_GTI then r1 > r0
    else if op == OP_GEI then r1 >= r0
    else if op == OP_LTU then U(r1) < U(r0)
    else if op == OP_LEU then U(r1) <= U(r0)
    else if op == OP_GTU then U(r1) > U(r0)
    else if op == OP_GEU then U(r1) >= U(r0)
    else host.floatCompare(op, r1, r0)
  }

  // ----- instructions -----

  function AccessWidth(op: int): nat
    requires OP_LOAD1 <= op <= OP_STORE4
  {
    if op == OP_LOAD1 || op == OP_STORE1 then 1 else if op == OP_LOAD2 || op == OP_STORE2 then 2 else 4
  }

  /** VM_BlockCopy: out of range, it reports an error and copies nothing. */
  function BlockCopied(c: Core, dest: int, src: int, n: int): (c': Core)
    requires CoreOk(c) && 0 <= n
    ensures CoreOk(c')
  {
    var mask := |c.image| - 5;
    if U(dest) <= mask && U(src) <= mask && U(dest) + n <= mask && U(src) + n <= mask
    then c.(image := c.image[..U(dest)] + c.image[U(src)..U(src) + n] + c.image[U(dest) + n..])
    else c
  }

  /** A system call: the host sees programStack and the image, with the call number after the return word. */
  function SystemEffect(host: Host, number: Word, c: Core): (r: (Core, Control))
    requires CoreOk(c)
    ensures CoreOk(r.0)
  {
    if number >= 0 || !InImage(c, c.ps) || !InImage(c, c.ps + 4) then (c, Undefined)
    else
      var (r, image) := host.system(c.ps, Store(c.image, c.ps + 4, -1 - number, 4));
      if |image| != |c.image| then (c, Undefined)
      else (Put(c.(image := image), 1, Wrap(r)), Resume(Wrap(Load(image, c.ps, 4))))
  }

  /** The core after OP_CALL stored the offset ret of the next instruction and popped the number called. */
  function Saved(c: Core, ret: int): (c': Core)
    requires CoreOk(c) && InImage(c, c.ps)
    ensures CoreOk(c')
  {
    Moved(c.(image := Store(c.image, c.ps, ret, 4)), -1)
  }

  function CallEffect(host: Host, ret: int, c: Core): (r: (Core, Control))
    requires CoreOk(c)
    ensures CoreOk(r.0)
  {
    var r0 := At(c, 0);
    if !InImage(c, c.ps) then (c, Undefined)
    else if r0 >= 0 then (Saved(c, ret), Jump(r0))
    else SystemEffect(host, r0, Saved(c, ret))
  }

  function LeaveEffect(arg: int, c: Core): (r: (Core, Control))
    requires CoreOk(c)
    ensures CoreOk(r.0)
  {
    var ps := Wrap(c.ps + arg);
    if !InImage(c, ps) then (c, Undefined)
    else (c.(ps := ps), Return(Wrap(Load(c.image, ps, 4))))
  }

  /** One instruction; ret is the offset of the next one, which only OP_CALL looks at. */
  function Effect(host: Host, op: int, arg: Word, ret: int, c: Core): (r: (Core, Control))
    requires CoreOk(c)
    ensures CoreOk(r.0)
  {
    var r0, r1 := At(c, 0), At(c, -1);
    if op == OP_IGNORE then (c, Next)
    else if op == OP_BREAK then (c.(breaks := c.breaks + 1), Next)
    else if op == OP_CONST then (Put(c, 1, arg), Next)
    else if op == OP_LOCAL then (Put(c, 1, Wrap(arg + c.ps)), Next)
    else if OP_LOAD1 <= op <= OP_LOAD4 then
      (Put(c, 0, Wrap(Load(c.image, Masked(c, r0), AccessWidth(op)))), Next)
    else if OP_STORE1 <= op <= OP_STORE4 then
      (Moved(c.(image := Store(c.image, Masked(c, r1), r0, AccessWidth(op))), -2), Next)
    else if op == OP_ARG then
      (Moved(c.(image := Store(c.image, Masked(c, arg + c.ps), r0, 4)), -1), Next)
    else if op == OP_BLOCK_COPY then
      if arg < 0 then (c, Undefined) else (Moved(BlockCopied(c, r1, r0, arg), -2), Next)
    else if op == OP_CALL then CallEffect(host, ret, c)
    else if op == OP_PUSH then (Moved(c, 1), Next)
    else if op == OP_POP then (Moved(c, -1), Next)
    else if op == OP_ENTER then (c.(ps := Wrap(c.ps - arg)), Next)
    else if op == OP_LEAVE then LeaveEffect(arg, c)
    else if op == OP_JUMP then (Moved(c, -1), Jump(r0))
    else if IsBranch(op) then (Moved(c, -2), if Compare(host, op, r1, r0) then Taken else Next)
    else if IsUnary(op) then (Put(c, 0, Unary(host, op, r0)), Next)
    else if IsBinary(op) then
      (match Binary(host, op, r1, r0)
       case Some(w) => (Put(c, -1, w), Next)
       case None => (c, Undefined))
    else (c, BadInstruction)
  }

  lemma BranchIgnoresOperand(host: Host, op: int, arg: Word, arg': Word, ret: int, c: Core)
    requires CoreOk(c) && IsBranch(op)
    ensures Effect(host, op, arg, ret, c) == Effect(host, op, arg', ret, c)
  {
  }

  /** The data size is the least power of two that holds data, lit and bss, so masking is reduction modulo it. */
  method DataSize(length: nat) returns (size: nat, ghost k: nat)
    ensures size == Pow2(k) && length <= size && (k > 0 ==> Pow2(k - 1) < length)
  {
    k := 0;
    size := 1;
    while length > size
      invariant size == Pow2(k)
      invariant k > 0 ==> Pow2(k - 1) < length
      decreases length - size
    {
      size := 2 * size;
      k := k + 1;
    }
  }

  lemma {:induction false} MaskedIsModulo(c: Core, a: int, k: nat)
    requires CoreOk(c) && |c.image| == Pow2(k) + 4
    ensures Masked(c, a) == U(a) % Pow2(k)
  {
    AndMask(U(a), k);
  }

  // ----- what an instruction changes -----

  /** A block copy inside the data moves n bytes and changes nothing else; any other changes nothing at all. */
  lemma CopiedBytes(c: Core, dest: int, src: int, n: nat, k: nat)
    requires CoreOk(c) && k < |c.image|
    ensures
      var d, s, mask := U(dest), U(src), |c.image| - 5;
      var c' := BlockCopied(c, dest, src, n);
      && c' == c.(image := c'.image) && |c'.image| == |c.image|
      && c'.image[k] == if d + n <= mask && s + n <= mask && d <= k < d + n then c.image[s + (k - d)] else c.image[k]
  {
  }

  /** What the host sees: the return word at programStack, the call number behind it, all else as it was. */
  ghost predicate CallSeen(c: Core, number: int, ret: int, image: seq<Byte>)
    requires CoreOk(c)
  {
    && |image| == |c.image| && InImage(c, c.ps) && InImage(c, c.ps + 4)
    && Wrap(Load(image, c.ps, 4)) == Wrap(ret) && Wrap(Load(image, c.ps + 4, 4)) == number
    && image[..c.ps] == c.image[..c.ps] && image[c.ps + 8..] == c.image[c.ps + 8..]
  }

  /**
   * A system call: the host is given programStack and an image with the return word and the call
   * number -1 - r0; its result replaces r0, its image is the new one, and control comes back by
   * the word it left at programStack.
   */
  lemma {:induction false} HostCalled(host: Host, ret: int, c: Core) returns (seen: seq<Byte>)
    requires CoreOk(c) && At(c, 0) < 0 && InImage(c, c.ps) && InImage(c, c.ps + 4)
    ensures CallSeen(c, -1 - At(c, 0), ret, seen)
    ensures
      var (r, image) := host.system(c.ps, seen);
      var (c', ctl) := CallEffect(host, ret, c);
      |image| == |c.image| ==>
        && c'.image == image && c'.ps == c.ps && c'.top == c.top && c'.stack == c.stack[c.top := Wrap(r)]
        && ctl == Resume(Wrap(Load(image, c.ps, 4)))
  {
    hide Load, Bytes, Value;
    var number := -1 - At(c, 0);
    var saved := Store(c.image, c.ps, ret, 4);
    seen := Store(saved, c.ps + 4, number, 4);
    HostSees(c, saved, seen, number, ret);
    assert Moved(c, -1).top == (c.top - 1) % OPSTACK && (Moved(c, -1).top + 1) % OPSTACK == c.top;
  }

  lemma {:induction false} HostSees(c: Core, saved: seq<Byte>, seen: seq<Byte>, number: Word, ret: int)
    requires CoreOk(c) && InImage(c, c.ps) && InImage(c, c.ps + 4)
    requires saved == Store(c.image, c.ps, ret, 4) && seen == Store(saved, c.ps + 4, number, 4)
    ensures CallSeen(c, number, ret, seen)
  {
    hide Load, Bytes, Value;
    StoreThenLoad(saved, c.ps + 4, number);
    StoreApart(saved, c.ps + 4, number, c.ps);
    StoredWord(c.image, c.ps, ret);
    WrapOfU(ret);
  }

  /** OP_POP drops what OP_CONST or OP_PUSH put on the operand stack: every slot of c is where it was. */
  lemma Dropped(host: Host, op: int, w: Word, ret: int, c: Core, k: int)
    requires CoreOk(c) && (op == OP_CONST || op == OP_PUSH) && -(OPSTACK - 1) < k <= 0
    ensures
      var c1 := Effect(host, op, w, ret, c).0;
      var (c2, ctl) := Effect(host, OP_POP, 0, ret, c1);
      && c2 == c.(stack := c2.stack) && ctl == Next && At(c2, k) == At(c, k)
      && At(c1, k - 1) == At(c, k) && (op == OP_CONST ==> At(c1, 0) == w)
  {
    var c1 := if op == OP_CONST then Put(c, 1, w) else Moved(c, 1);
    MovesOne(host, op, w, ret, c, c1);
    hide Effect;
    assert (c1.top - 1) % OPSTACK == c.top;
    SlotsKept(c, c1, Moved(c1, -1), k);
  }

  lemma MovesOne(host: Host, op: int, w: Word, ret: int, c: Core, c1: Core)
    requires CoreOk(c) && CoreOk(c1) && (op == OP_CONST || op == OP_PUSH)
    requires c1 == if op == OP_CONST then Put(c, 1, w) else Moved(c, 1)
    ensures Effect(host, op, w, ret, c).0 == c1 && Effect(host, OP_POP, 0, ret, c1) == (Moved(c1, -1), Next)
  {
    hide Load, Store, BlockCopied, SystemEffect, CallEffect, LeaveEffect, Unary, Binary, Compare;
  }

  lemma SlotsKept(c: Core, c1: Core, c2: Core, k: int)
    requires CoreOk(c) && CoreOk(c1) && CoreOk(c2) && -(OPSTACK - 1) < k <= 0
    requires c1.top == (c.top + 1) % OPSTACK && c2.top == c.top && c2.stack == c1.stack
    requires forall j :: 0 <= j < OPSTACK && j != c1.top ==> c1.stack[j] == c.stack[j]
    ensures At(c2, k) == At(c, k) && At(c1, k - 1) == At(c, k)
  {
    var j, i := (c.top + k) % OPSTACK, (c1.top + k - 1) % OPSTACK;
    assert i == j != c1.top;
  }

  // ----- words in memory -----

  lemma {:induction false} ValueOfWord(v: int)
    requires Fits(v)
    ensures Wrap(Value(Bytes(v, 4))) == v
  {
    WordRoundTrip(v);
    WrapOfU(v);
  }

  lemma StoreThenLoad(image: seq<Byte>, a: nat, v: int)
    requires a + 4 <= |image| && Fits(v)
    ensures Wrap(Load(Store(image, a, v, 4), a, 4)) == v
  {
    ValueOfWord(v);
    assert Store(image, a, v, 4)[a..a + 4] == Bytes(v, 4);
  }

  lemma StoreApart(image: seq<Byte>, a: nat, v: int, b: nat)
    requires a + 4 <= |image| && b + 4 <= |image| && (b + 4 <= a || a + 4 <= b)
    ensures Load(Store(image, a, v, 4), b, 4) == Load(image, b, 4)
  {
    assert Store(image, a, v, 4)[b..b + 4] == image[b..b + 4];
  }

  lemma {:induction false} StoredWord(image: seq<Byte>, a: nat, v: int)
    requires a + 4 <= |image|
    ensures Load(Store(image, a, v, 4), a, 4) == U(v)
  {
    var q := ValueOfBytes(v, 4);
    assert Store(image, a, v, 4)[a..a + 4] == Bytes(v, 4);
    Pow256At4();
    SameProduct(Pow256(4), TWO32, q);
    ModUnique(v, TWO32, q, Value(Bytes(v, 4)));
  }
}
