// The instruction set shared by q3asm and the interpreter, its byte encoding
// (EmitByte and EmitInt in q3asm/q3asm.c) and the first loop of
// VM_PrepareInterpreter in src/vm/vm.c, which decodes it.

module Bytecode {
  import opened Words

  // opcode_t
  const OP_UNDEF := 0
  const OP_IGNORE := 1
  const OP_BREAK := 2
  const OP_ENTER := 3
  const OP_LEAVE := 4
  const OP_CALL := 5
  const OP_PUSH := 6
  const OP_POP := 7
  const OP_CONST := 8
  const OP_LOCAL := 9
  const OP_JUMP := 10
  const OP_EQ := 11
  const OP_NE := 12
  const OP_LTI := 13
  const OP_LEI := 14
  const OP_GTI := 15
  const OP_GEI := 16
  const OP_LTU := 17
  const OP_LEU := 18
  const OP_GTU := 19
  const OP_GEU := 20
  const OP_EQF := 21
  const OP_NEF := 22
  const OP_LTF := 23
  const OP_LEF := 24
  const OP_GTF := 25
  const OP_GEF := 26
  const OP_LOAD1 := 27
  const OP_LOAD2 := 28
  const OP_LOAD4 := 29
  const OP_STORE1 := 30
  const OP_STORE2 := 31
  const OP_STORE4 := 32
  const OP_ARG := 33
  const OP_BLOCK_COPY := 34
  const OP_SEX8 := 35
  const OP_SEX16 := 36
  const OP_NEGI := 37
  const OP_ADD := 38
  const OP_SUB := 39
  const OP_DIVI := 40
  const OP_DIVU := 41
  const OP_MODI := 42
  const OP_MODU := 43
  const OP_MULI := 44
  const OP_MULU := 45
  const OP_BAND := 46
  const OP_BOR := 47
  const OP_BXOR := 48
  const OP_BCOM := 49
  const OP_LSH := 50
  const OP_RSHI := 51
  const OP_RSHU := 52
  const OP_NEGF := 53
  const OP_ADDF := 54
  const OP_SUBF := 55
  const OP_DIVF := 56
  const OP_MULF := 57
  const OP_CVIF := 58
  const OP_CVFI := 59
  const OP_MAX := 60

  predicate IsBranch(op: int) {
    OP_EQ <= op <= OP_GEF
  }

  predicate HasWord(op: int) {
    op == OP_ENTER || op == OP_CONST || op == OP_LOCAL || op == OP_LEAVE || IsBranch(op) || op == OP_BLOCK_COPY
  }

  /** An instruction and its operand, 0 if it has none. */
  datatype Instr = Instr(op: int, arg: int)

  predicate WellFormed(i: Instr) {
    && 0 <= i.op < OP_MAX
    && (if HasWord(i.op) then Fits(i.arg) else if i.op == OP_ARG then 0 <= i.arg < 256 else i.arg == 0)
  }

  // ----- encoding -----

  type Byte = b: int | 0 <= b < 256

  /** The n low bytes of v, lowest first. */
  function Bytes(v: int, n: nat): (b: seq<Byte>)
    ensures |b| == n
    decreases n
  {
    if n == 0 then [] else [v % 256] + Bytes(v / 256, n - 1)
  }

  /** Byte i counts 256^i. */
  lemma {:induction false} ByteAt(v: int, n: nat, i: nat)
    requires i < n
    ensures Bytes(v, n)[i] == v / Pow256(i) % 256
    decreases n
  {
    if i > 0 {
      var p := Pow256(i - 1);
      ByteAt(v / 256, n - 1, i - 1);
      assert Bytes(v, n)[i] == Bytes(v / 256, n - 1)[i - 1];
      DivideTwice(v, p);
    }
  }

  lemma DivideTwice(v: int, p: int)
    requires p > 0
    ensures v / (256 * p) == v / 256 / p
  {
    var q, r := v / 256 / p, v / 256 % p;
    assert v == 256 * (q * p + r) + v % 256;
    assert q * (256 * p) == 256 * (q * p);
    ModUnique(v, 256 * p, q, 256 * r + v % 256);
  }

  function Value(b: seq<Byte>): nat {
    if b == [] then 0
    else
      var low: int, high: int := b[0], Value(b[1..]);
      low + 256 * high
  }

  function Pow256(n: nat): (p: nat)
    ensures p > 0
  {
    if n == 0 then 1 else 256 * Pow256(n - 1)
  }

  lemma {:induction false} ValueOfBytes(v: int, n: nat) returns (q: int)
    ensures v == Value(Bytes(v, n)) + Pow256(n) * q
    ensures Value(Bytes(v, n)) < Pow256(n)
    decreases n
  {
    if n == 0 {
      q := v;
    } else {
      q := ValueOfBytes(v / 256, n - 1);
      assert Bytes(v, n)[1..] == Bytes(v / 256, n - 1);
      Reassociate(256, Pow256(n - 1), q);
    }
  }

  lemma {:induction false} BytesCongruent(x: int, y: int, n: nat, k: int)
    requires x == y + Pow256(n) * k
    ensures Bytes(x, n) == Bytes(y, n)
    decreases n
  {
    if n > 0 {
      var m := Pow256(n - 1) * k;
      Reassociate(256, Pow256(n - 1), k);
      assert x == y + 256 * m;
      assert x % 256 == y % 256 && x / 256 == y / 256 + m;
      BytesCongruent(x / 256, y / 256, n - 1, k);
    }
  }

  lemma Reassociate(a: int, b: int, c: int)
    ensures (a * b) * c == a * (b * c)
  {
  }

  lemma {:induction false} BytesOfValue(b: seq<Byte>)
    ensures Bytes(Value(b), |b|) == b
  {
    if b != [] {
      BytesOfValue(b[1..]);
      var low: int := b[0];
      assert Value(b) % 256 == low && Value(b) / 256 == Value(b[1..]);
    }
  }

  /** LittleEndianToHost */
  function Word4(b: seq<Byte>): Word
    requires |b| == 4
  {
    Wrap(Value(b))
  }

  /** EmitInt, then LittleEndianToHost, gives back every 32-bit value. */
  lemma {:induction false} WordRoundTrip(v: int)
    ensures Word4(Bytes(v, 4)) == Wrap(v)
  {
    var q := ValueOfBytes(v, 4);
    Pow256At4();
    SameProduct(Pow256(4), TWO32, q);
    WrapPeriodic(Value(Bytes(v, 4)), v, q);
  }

  lemma Pow256At4()
    ensures Pow256(4) == TWO32
  {
  }

  lemma SameProduct(a: int, b: int, q: int)
    requires a == b
    ensures a * q == b * q
  {
  }

  lemma WrapPeriodic(x: int, y: int, q: int)
    requires y == x + TWO32 * q
    ensures Wrap(y) == Wrap(x)
  {
  }

  // ----- instructions as bytes -----

  function EncodeOne(i: Instr): seq<Byte>
    requires WellFormed(i)
  {
    if HasWord(i.op) then [i.op] + Bytes(i.arg, 4)
    else if i.op == OP_ARG then [i.op, i.arg]
    else [i.op]
  }

  ghost predicate AllWellFormed(code: seq<Instr>) {
    forall i :: 0 <= i < |code| ==> WellFormed(code[i])
  }

  /** The code segment after assembling the instructions one by one. */
  function Encode(code: seq<Instr>): seq<Byte>
    requires AllWellFormed(code)
  {
    if code == [] then [] else Encode(code[..|code| - 1]) + EncodeOne(code[|code| - 1])
  }

  lemma {:induction false} EncodePrefix(code: seq<Instr>, k: nat)
    requires AllWellFormed(code) && k <= |code|
    ensures Encode(code[..k]) <= Encode(code)
    decreases |code|
  {
    if k == |code| {
      assert code[..k] == code;
    } else {
      var front := code[..|code| - 1];
      assert code[..k] == front[..k];
      EncodePrefix(front, k);
    }
  }

  /** Where instruction k stands in the code segment. */
  lemma {:induction false} EncodedAt(code: seq<Instr>, k: nat)
    requires AllWellFormed(code) && k < |code|
    ensures Encode(code[..k + 1]) == Encode(code[..k]) + EncodeOne(code[k])
    ensures Encode(code[..k]) + EncodeOne(code[k]) <= Encode(code)
  {
    assert code[..k + 1][..k] == code[..k];
    EncodePrefix(code, k + 1);
  }

  /** The instruction at byte pc and its length. */
  function Fetch(bytes: seq<Byte>, pc: nat): (Instr, nat)
    requires pc < |bytes| && pc + FetchLength(bytes[pc]) <= |bytes|
  {
    if HasWord(bytes[pc]) then (Instr(bytes[pc], Word4(bytes[pc + 1..pc + 5])), 5)
    else if bytes[pc] == OP_ARG then (Instr(bytes[pc], bytes[pc + 1]), 2)
    else (Instr(bytes[pc], 0), 1)
  }

  function FetchLength(op: int): nat {
    if HasWord(op) then 5 else if op == OP_ARG then 2 else 1
  }

  /** Every instruction is decoded as it was encoded, whatever the lengths of those before it. */
  lemma FetchEncoded(code: seq<Instr>, bytes: seq<Byte>, k: nat)
    requires AllWellFormed(code) && k < |code| && Encode(code) <= bytes
    ensures
      var pc := |Encode(code[..k])|;
      && pc < |bytes| && pc + FetchLength(bytes[pc]) <= |bytes|
      && Fetch(bytes, pc) == (code[k], |EncodeOne(code[k])|)
      && |Encode(code[..k + 1])| == pc + Fetch(bytes, pc).1
  {
    EncodedAt(code, k);
    FetchOne(Encode(code[..k]), code[k], bytes);
  }

  lemma FetchOne(before: seq<Byte>, i: Instr, bytes: seq<Byte>)
    requires WellFormed(i) && before + EncodeOne(i) <= bytes
    ensures
      var pc := |before|;
      && pc < |bytes| && pc + FetchLength(bytes[pc]) <= |bytes|
      && Fetch(bytes, pc) == (i, |EncodeOne(i)|)
  {
    var pc, one := |before|, EncodeOne(i);
    assert one == bytes[pc..pc + |one|] by {
      assert (before + one)[pc..] == one;
    }
    assert bytes[pc] == one[0];
    if HasWord(i.op) {
      hide Word4, Bytes;
      assert bytes[pc + 1..pc + 5] == one[1..] == Bytes(i.arg, 4);
      WordRoundTrip(i.arg);
      WrapOfU(i.arg);
    } else if i.op == OP_ARG {
      assert bytes[pc + 1] == one[1];
    }
  }

  // ----- instructions as words -----

  function ExpandOne(i: Instr): seq<int> {
    if HasWord(i.op) || i.op == OP_ARG then [i.op, i.arg] else [i.op]
  }

  /** The word code before jump targets are translated. */
  function Expand(code: seq<Instr>): seq<int> {
    if code == [] then [] else Expand(code[..|code| - 1]) + ExpandOne(code[|code| - 1])
  }

  /** instructionPointers[k] */
  function Pointer(code: seq<Instr>, k: nat): nat
    requires k <= |code|
  {
    |Expand(code[..k])|
  }

  lemma {:induction false} ExpandPrefix(code: seq<Instr>, k: nat)
    requires k <= |code|
    ensures Expand(code[..k]) <= Expand(code)
    decreases |code|
  {
    if k == |code| {
      assert code[..k] == code;
    } else {
      var front := code[..|code| - 1];
      assert code[..k] == front[..k];
      ExpandPrefix(front, k);
    }
  }

  lemma PointerStep(code: seq<Instr>, k: nat)
    requires k < |code|
    ensures Expand(code[..k + 1]) == Expand(code[..k]) + ExpandOne(code[k])
    ensures Pointer(code, k + 1) == Pointer(code, k) + |ExpandOne(code[k])|
  {
    assert code[..k + 1][..k] == code[..k];
  }

  lemma {:induction false} ExpandedAt(code: seq<Instr>, k: nat)
    requires k < |code|
    ensures Pointer(code, k) + |ExpandOne(code[k])| <= |Expand(code)|
    ensures Expand(code)[Pointer(code, k)..Pointer(code, k) + |ExpandOne(code[k])|] == ExpandOne(code[k])
  {
    PointerStep(code, k);
    ExpandPrefix(code, k + 1);
  }

  lemma {:induction false} PointersIncrease(code: seq<Instr>, j: nat, k: nat)
    requires j < k <= |code|
    ensures Pointer(code, j) < Pointer(code, k)
    decreases k
  {
    PointerStep(code, k - 1);
    if j < k - 1 {
      PointersIncrease(code, j, k - 1);
    }
  }

  /** The word code never needs more words than the byte code has bytes. */
  lemma {:induction false} ExpandFits(code: seq<Instr>)
    requires AllWellFormed(code)
    ensures |Expand(code)| <= |Encode(code)|
    decreases |code|
  {
    if code != [] {
      ExpandFits(code[..|code| - 1]);
    }
  }
}
