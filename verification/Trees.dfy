// Integer expression trees of lcc, what they mean, and the postfix code that
// dumptree (lcc/src/bytecode.c) prints for them, as q3asm reads it
// (q3asm/opstrings.h).

module Trees {
  import opened Words
  import opened Bytecode
  import opened Machine

  /** An integer type; pointers are unsigned of size 4. */
  datatype Ty = Ty(signed: bool, size: nat)

  const I4 := Ty(true, 4)
  const U4 := Ty(false, 4)

  predicate TyOk(ty: Ty) {
    ty.size == 1 || ty.size == 2 || ty.size == 4
  }

  function Span(ty: Ty): int
    requires TyOk(ty)
  {
    if ty.size == 1 then 0x100 else if ty.size == 2 then 0x1_0000 else TWO32
  }

  predicate InType(ty: Ty, v: int)
    requires TyOk(ty)
  {
    if ty.signed then -(Span(ty) / 2) <= v < Span(ty) / 2 else 0 <= v < Span(ty)
  }

  /** v reduced to the type. */
  function Norm(ty: Ty, v: int): (n: int)
    requires TyOk(ty)
    ensures InType(ty, n)
  {
    if ty.signed then (v + Span(ty) / 2) % Span(ty) - Span(ty) / 2 else v % Span(ty)
  }

  datatype Place = Global(address: Word) | Local(offset: Word)

  datatype BinOp = Add | Sub | Mul | Div | Mod | BitAnd | BitOr | BitXor | Lsh | Rsh

  datatype Tree =
    | Cnst(ty: Ty, v: int)
    | Addr(place: Place)
    | Indir(ty: Ty, a: Tree)
    | Neg(t: Tree)
    | Bcom(t: Tree)
    | Bin(op: BinOp, l: Tree, r: Tree)
    | Cvt(ty: Ty, t: Tree)

  function TypeOf(t: Tree): Ty {
    match t
    case Cnst(ty, _) => ty
    case Addr(_) => U4
    case Indir(ty, _) => ty
    case Neg(_) => I4
    case Bcom(u) => TypeOf(u)
    case Bin(_, l, _) => TypeOf(l)
    case Cvt(ty, _) => ty
  }

  /** The conversions lcc makes: widening to int, the two readings of a word, narrowing. */
  predicate CvtOk(from: Ty, to: Ty) {
    || (to == I4 && from != I4)                 // CVII4, CVUI4
    || (to == U4 && from == I4)                 // CVIU4
    || (to == U4 && !from.signed && from.size < 4)  // CVUU4
    || (from.size == 4 && from.signed == to.signed && to.size < 4) // CVII1, CVII2, CVUU1, CVUU2
  }

  predicate WellTyped(t: Tree) {
    && TyOk(TypeOf(t))
    && match t
       case Cnst(ty, v) => InType(ty, v)
       case Addr(_) => true
       case Indir(ty, a) => WellTyped(a) && TypeOf(a) == U4
       case Neg(u) => WellTyped(u) && TypeOf(u) == I4
       case Bcom(u) => WellTyped(u) && TypeOf(u).size == 4
       case Bin(op, l, r) =>
         && WellTyped(l) && WellTyped(r) && TypeOf(l).size == 4 && TypeOf(r).size == 4
         && (op.Lsh? || op.Rsh? ==> TypeOf(r) == I4)
         && (op.Add? || op.Sub? || op.Lsh? || op.Rsh? || TypeOf(r) == TypeOf(l))
       case Cvt(ty, u) => WellTyped(u) && CvtOk(TypeOf(u), ty)
  }

  // ----- meaning -----

  /** C's operator on values of type ty, None where it is undefined; signed overflow wraps. */
  function Operate(op: BinOp, ty: Ty, x: int, y: int): Option<int>
    requires TyOk(ty)
  {
    match op
    case Add => Some(Norm(ty, x + y))
    case Sub => Some(Norm(ty, x - y))
    case Mul => Some(Norm(ty, x * y))
    case Div => if y == 0 || (ty.signed && !InType(ty, Quot(x, y))) then None
                else Some(Norm(ty, if ty.signed then Quot(x, y) else x / y))
    case Mod => if y == 0 || (ty.signed && !InType(ty, Quot(x, y))) then None
                else Some(Norm(ty, if ty.signed then Rem(x, y) else x % y))
    case BitAnd => Some(Norm(ty, And(x, y)))
    case BitOr => Some(Norm(ty, Or(x, y)))
    case BitXor => Some(Norm(ty, Xor(x, y)))
    case Lsh => if 0 <= y < 32 then Some(Norm(ty, x * Pow2(y))) else None
    case Rsh => if 0 <= y < 32 then Some(Norm(ty, x / Pow2(y))) else None
  }

  /** The value of a tree in the memory and frame of c. */
  function Eval(t: Tree, c: Core): Option<int>
    requires WellTyped(t) && CoreOk(c)
  {
    match t
    case Cnst(_, v) => Some(v)
    case Addr(Global(a)) => Some(U(a))
    case Addr(Local(o)) => Some(U(o + c.ps))
    case Indir(ty, a) =>
      (match Eval(a, c)
       case Some(p) => Some(Norm(ty, Load(c.image, Masked(c, p), ty.size)))
       case None => None)
    case Neg(u) =>
      (match Eval(u, c) case Some(x) => Some(Norm(I4, -x)) case None => None)
    case Bcom(u) =>
      (match Eval(u, c) case Some(x) => Some(Norm(TypeOf(u), -1 - x)) case None => None)
    case Bin(op, l, r) =>
      (match (Eval(l, c), Eval(r, c))
       case (Some(x), Some(y)) => Operate(op, TypeOf(l), x, y)
       case _ => None)
    case Cvt(ty, u) =>
      (match Eval(u, c) case Some(x) => Some(Norm(ty, x)) case None => None)
  }

  // ----- code -----

  function LoadOp(ty: Ty): int
    requires TyOk(ty)
  {
    if ty.size == 1 then OP_LOAD1 else if ty.size == 2 then OP_LOAD2 else OP_LOAD4
  }

  function StoreOp(ty: Ty): int
    requires TyOk(ty)
  {
    if ty.size == 1 then OP_STORE1 else if ty.size == 2 then OP_STORE2 else OP_STORE4
  }

  function OpCode(op: BinOp, signed: bool): int {
    match op
    case Add => OP_ADD
    case Sub => OP_SUB
    case Mul => if signed then OP_MULI else OP_MULU
    case Div => if signed then OP_DIVI else OP_DIVU
    case Mod => if signed then OP_MODI else OP_MODU
    case BitAnd => OP_BAND
    case BitOr => OP_BOR
    case BitXor => OP_BXOR
    case Lsh => OP_LSH
    case Rsh => if signed then OP_RSHI else OP_RSHU
  }

  /** q3asm drops every integer conversion but the sign extensions. */
  function CvtCode(from: Ty, to: Ty): seq<Instr> {
    if to == I4 && from.signed && from.size == 1 then [Instr(OP_SEX8, 0)]
    else if to == I4 && from.signed && from.size == 2 then [Instr(OP_SEX16, 0)]
    else []
  }

  function Code(t: Tree): seq<Instr>
    requires WellTyped(t)
  {
    match t
    case Cnst(_, v) => [Instr(OP_CONST, Wrap(v))]
    case Addr(Global(a)) => [Instr(OP_CONST, a)]
    case Addr(Local(o)) => [Instr(OP_LOCAL, o)]
    case Indir(ty, a) => Code(a) + [Instr(LoadOp(ty), 0)]
    case Neg(u) => Code(u) + [Instr(OP_NEGI, 0)]
    case Bcom(u) => Code(u) + [Instr(OP_BCOM, 0)]
    case Bin(op, l, r) => Code(l) + Code(r) + [Instr(OpCode(op, TypeOf(l).signed), 0)]
    case Cvt(ty, u) => Code(u) + CvtCode(TypeOf(u), ty)
  }

  /** Slots of the operand stack the code of a tree uses. */
  function Need(t: Tree): nat {
    match t
    case Cnst(_, _) => 1
    case Addr(_) => 1
    case Indir(_, a) => Need(a)
    case Neg(u) => Need(u)
    case Bcom(u) => Need(u)
    case Bin(_, l, r) => if Need(l) > 1 + Need(r) then Need(l) else 1 + Need(r)
    case Cvt(_, u) => Need(u)
  }

  /** Straight-line code: every instruction goes on to the next. */
  function RunCode(host: Host, code: seq<Instr>, c: Core): Option<Core>
    requires CoreOk(c) && forall i :: 0 <= i < |code| ==> Fits(code[i].arg)
    ensures RunCode(host, code, c).Some? ==> CoreOk(RunCode(host, code, c).value)
    decreases |code|
  {
    if code == [] then Some(c)
    else
      var (c', ctl) := Effect(host, code[0].op, code[0].arg, 0, c);
      if ctl == Next then RunCode(host, code[1..], c') else None
  }
}
