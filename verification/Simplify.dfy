// Constant folding and rewriting of integer trees: simplify and its guards
// (lcc/src/simp.c), root (lcc/src/tree.c).

module Simplify {
  import opened Comparisons
  import opened Words
  import T = Trees

  type Ty = ty: T.Ty | ty == T.I4 || ty == T.U4 witness T.I4

  const INT: Ty := T.I4
  const UNSIGNED: Ty := T.U4

  /** A leaf may have effects; a load has none. Nothing is the null tree that root leaves of a pure one. */
  datatype Tree =
    | Nothing
    | Cnst(ty: Ty, v: int)
    | Load(ty: Ty, id: int)
    | Leaf(ty: Ty, id: int)
    | Bin(op: T.BinOp, ty: Ty, l: Tree, r: Tree)
    | Cmp(rel: Rel, kind: Ty, l: Tree, r: Tree)
    | Neg(t: Tree)
    | Bcom(ty: Ty, t: Tree)
    | Cvt(ty: Ty, t: Tree)
    | And(l: Tree, r: Tree)
    | Or(l: Tree, r: Tree)
    | Not(t: Tree)
    | Right(l: Tree, r: Tree)

  function TypeOf(t: Tree): Ty {
    match t
    case Nothing => INT
    case Cnst(ty, _) => ty
    case Load(ty, _) => ty
    case Leaf(ty, _) => ty
    case Bin(_, ty, _, _) => ty
    case Cmp(_, _, _, _) => INT
    case Neg(_) => INT
    case Bcom(ty, _) => ty
    case Cvt(ty, _) => ty
    case And(_, _) => INT
    case Or(_, _) => INT
    case Not(_) => INT
    case Right(l, r) => if r.Nothing? then TypeOf(l) else TypeOf(r)
  }

  // ----- meaning -----

  /** What leaves do in a world, and what loads read in it. */
  datatype Env<!W> = Env(leaf: (int, W) -> (int, W), load: (int, W) -> int)

  function Bit(b: bool): int { if b then 1 else 0 }

  /** Value and world after a tree, left operands first; None where C leaves it undefined. */
  function Eval<W>(e: Env<W>, t: Tree, w: W): Option<(int, W)> {
    match t
    case Nothing => Some((0, w))
    case Cnst(ty, v) => Some((T.Norm(ty, v), w))
    case Load(ty, id) => Some((T.Norm(ty, e.load(id, w)), w))
    case Leaf(ty, id) => var (x, w') := e.leaf(id, w); Some((T.Norm(ty, x), w'))
    case Bin(op, ty, l, r) =>
      (match Eval(e, l, w)
       case Some((x, w1)) =>
         (match Eval(e, r, w1)
          case Some((y, w2)) => (match T.Operate(op, ty, x, y) case Some(z) => Some((z, w2)) case None => None)
          case None => None)
       case None => None)
    case Cmp(rel, _, l, r) =>
      (match Eval(e, l, w)
       case Some((x, w1)) =>
         (match Eval(e, r, w1)
          case Some((y, w2)) => Some((Bit(Holds(rel, x, y)), w2))
          case None => None)
       case None => None)
    case Neg(u) => (match Eval(e, u, w) case Some((x, w1)) => Some((T.Norm(INT, -x), w1)) case None => None)
    case Bcom(ty, u) => (match Eval(e, u, w) case Some((x, w1)) => Some((T.Norm(ty, -1 - x), w1)) case None => None)
    case Cvt(ty, u) => (match Eval(e, u, w) case Some((x, w1)) => Some((T.Norm(ty, x), w1)) case None => None)
    case And(l, r) =>
      (match Eval(e, l, w)
       case Some((x, w1)) =>
         if x == 0 then Some((0, w1))
         else (match Eval(e, r, w1) case Some((y, w2)) => Some((Bit(y != 0), w2)) case None => None)
       case None => None)
    case Or(l, r) =>
      (match Eval(e, l, w)
       case Some((x, w1)) =>
         if x != 0 then Some((1, w1))
         else (match Eval(e, r, w1) case Some((y, w2)) => Some((Bit(y != 0), w2)) case None => None)
       case None => None)
    case Not(u) => (match Eval(e, u, w) case Some((x, w1)) => Some((Bit(x == 0), w1)) case None => None)
    case Right(l, r) =>
      (match Eval(e, l, w)
       case Some((x, w1)) => if r.Nothing? then Some((x, w1)) else Eval(e, r, w1)
       case None => None)
  }

  /** Operand types as the parser makes them. */
  predicate WellTyped(t: Tree) {
    match t
    case Nothing => true
    case Cnst(_, _) => true
    case Load(_, _) => true
    case Leaf(_, _) => true
    case Bin(op, ty, l, r) =>
      WellTyped(l) && WellTyped(r) && TypeOf(l) == ty && TypeOf(r) == if op.Lsh? || op.Rsh? then INT else ty
    case Cmp(_, kind, l, r) => WellTyped(l) && WellTyped(r) && TypeOf(l) == kind && TypeOf(r) == kind
    case Neg(u) => WellTyped(u) && TypeOf(u) == INT
    case Bcom(ty, u) => WellTyped(u) && TypeOf(u) == ty
    case Cvt(_, u) => WellTyped(u)
    case And(l, r) => WellTyped(l) && WellTyped(r)
    case Or(l, r) => WellTyped(l) && WellTyped(r)
    case Not(u) => WellTyped(u)
    case Right(l, r) => WellTyped(l) && WellTyped(r)
  }

  /** Every constant is one of its type. */
  predicate InRange(t: Tree) {
    match t
    case Cnst(ty, v) => T.InType(ty, v)
    case Bin(_, _, l, r) => InRange(l) && InRange(r)
    case Cmp(_, _, l, r) => InRange(l) && InRange(r)
    case Neg(u) => InRange(u)
    case Bcom(_, u) => InRange(u)
    case Cvt(_, u) => InRange(u)
    case And(l, r) => InRange(l) && InRange(r)
    case Or(l, r) => InRange(l) && InRange(r)
    case Not(u) => InRange(u)
    case Right(l, r) => InRange(l) && InRange(r)
    case _ => true
  }

  // ----- the guards: needconst is 0 -----

  function Addi(x: int, y: int, min: int, max: int): bool {
    || x == 0 || y == 0
    || (x < 0 && y < 0 && x >= min - y)
    || (x < 0 && y > 0)
    || (x > 0 && y < 0)
    || (x > 0 && y > 0 && x <= max - y)
  }

  function Subi(x: int, y: int, min: int, max: int): bool { Addi(x, -y, min, max) }

  function Muli(x: int, y: int, min: int, max: int): bool {
    || (x > -1 && x <= 1) || (y > -1 && y <= 1)
    || (x < 0 && y < 0 && -x <= Quot(max, -y))
    || (x < 0 && y > 0 && x >= Quot(min, y))
    || (x > 0 && y < 0 && y >= Quot(min, x))
    || (x > 0 && y > 0 && x <= Quot(max, y))
  }

  function Divi(x: int, y: int, min: int): bool {
    y != 0 && !(x == min && y == -1)
  }

  const MIN := -TWO31
  const MAX := TWO31 - 1

  /** addi accepts exactly the sums in range. */
  lemma AddiExact(x: int, y: int)
    requires Fits(x) && Fits(y)
    ensures Addi(x, y, MIN, MAX) <==> Fits(x + y)
  {
  }

  /** subi does so too, but for 0 - INT_MIN, which the clause for x == 0 lets through. */
  lemma SubiExact(x: int, y: int)
    requires Fits(x) && Fits(y)
    ensures Subi(x, y, MIN, MAX) <==> Fits(x - y) || (x == 0 && y == MIN)
  {
  }

  lemma QuotientBound(x: nat, y: nat, m: nat)
    requires y > 0
    ensures x <= m / y <==> x * y <= m
  {
    var q := m / y;
    assert m == q * y + m % y;
    if x <= q { ProductAtLeast(y, q, x); } else {
      ProductAtLeast(y, x, q + 1);
      assert y * (q + 1) == q * y + y;
    }
  }

  /** muli accepts exactly the products in range. */
  lemma MuliExact(x: int, y: int)
    requires Fits(x) && Fits(y)
    ensures Muli(x, y, MIN, MAX) <==> Fits(x * y)
  {
    if (x > -1 && x <= 1) || (y > -1 && y <= 1) {
      SmallFactor(x, y);
    } else if x < 0 && y < 0 {
      QuotientBound(-x, -y, MAX);
      assert x * y == -x * -y > 0;
    } else if x < 0 && y > 0 {
      QuotientBound(-x, y, TWO31);
      assert x * y == -(-x * y) < 0;
    } else if x > 0 && y < 0 {
      QuotientBound(-y, x, TWO31);
      assert x * y == -(-y * x) < 0;
    } else {
      QuotientBound(x, y, MAX);
      assert x * y > 0;
    }
  }

  lemma SmallFactor(x: int, y: int)
    requires Fits(x) && Fits(y) && (0 <= x <= 1 || 0 <= y <= 1)
    ensures Fits(x * y)
  {
    if x == 0 { assert x * y == 0; } else if x == 1 { assert x * y == y; }
    else if y == 0 { assert x * y == 0; } else { assert x * y == x; }
  }

  /** divi accepts exactly the quotients in range. */
  lemma DiviExact(x: int, y: int)
    requires Fits(x) && Fits(y)
    ensures Divi(x, y, MIN) <==> y != 0 && Fits(Quot(x, y))
  {
  }

  // ----- powers of two -----

  /** The exponent of a power of two above 1, otherwise 0. */
  function Exponent(u: nat): (n: nat)
    ensures n > 0 ==> u == Pow2(n)
  {
    if u <= 1 || u % 2 == 1 then 0
    else if u == 2 then 1
    else var n := Exponent(u / 2); if n == 0 then 0 else n + 1
  }

  lemma {:induction false} ExponentOfPow2(n: nat)
    requires n > 0
    ensures Exponent(Pow2(n)) == n
    decreases n
  {
    if n > 1 {
      ExponentOfPow2(n - 1);
      assert Pow2(n) / 2 == Pow2(n - 1) && Pow2(n - 1) == 2 * Pow2(n - 2);
    } else {
      assert Pow2(1) == 2;
    }
  }

  /** u & (u - 1) is 0 exactly for the powers of two. */
  lemma {:induction false} LowestBitCleared(u: nat)
    requires u > 1
    ensures Bits(AndBit(), u, u - 1) == 0 <==> Exponent(u) > 0
    decreases u
  {
    var k := u / 2;
    if u % 2 == 1 {
      AndItself(k);
      assert (u - 1) / 2 == k;
    } else {
      assert (u - 1) / 2 == k - 1 && (u - 1) % 2 == 1;
      if k > 1 { LowestBitCleared(k); } else { AndZero(1); }
    }
  }

  lemma {:induction false} AndItself(x: nat)
    ensures Bits(AndBit(), x, x) == x
    decreases x
  {
    if x > 0 { AndItself(x / 2); }
  }

  /** A power of two above 1. */
  ghost predicate IsPower(u: nat) {
    exists k: nat :: k > 0 && u == Pow2(k)
  }

  lemma {:induction false} ExponentIsPower(u: nat)
    ensures IsPower(u) <==> Exponent(u) > 0
  {
    if IsPower(u) {
      var k: nat :| k > 0 && u == Pow2(k);
      ExponentOfPow2(k);
    }
    if Exponent(u) > 0 { assert u == Pow2(Exponent(u)); }
  }

  /** ispow2: if u > 1 and u is 2^n, n, otherwise 0. */
  method IsPow2(u: nat) returns (n: nat)
    ensures n == Exponent(u)
    ensures IsPower(u) <==> n > 0
  {
    n := 0;
    if u > 1 && Bits(AndBit(), u, u - 1) == 0 {
      LowestBitCleared(u);
      var v := u;
      while v % 2 == 0
        invariant v > 0 && Exponent(u) == n + Exponent(v) && (v == 1 || Exponent(v) > 0)
        decreases v
      {
        v := v / 2;
        n := n + 1;
      }
    } else if u > 1 {
      LowestBitCleared(u);
    }
    ExponentIsPower(u);
  }

  // ----- root -----

  function RightOf(a: Tree, b: Tree): Tree {
    if a.Nothing? && b.Nothing? then Nothing else Right(a, b)
  }

  /** What is left of a tree evaluated for its effects. */
  function Root(t: Tree): Tree {
    match t
    case Leaf(_, _) => t
    case Bin(_, _, l, r) => RightOf(Root(l), Root(r))
    case Cmp(_, _, l, r) => RightOf(Root(l), Root(r))
    case Neg(u) => Root(u)
    case Bcom(_, u) => Root(u)
    case Cvt(_, u) => Root(u)
    case Not(u) => Root(u)
    case And(l, r) => if Root(r).Nothing? then Root(l) else And(l, Root(r))
    case Or(l, r) => if Root(r).Nothing? then Root(l) else Or(l, Root(r))
    case Right(l, r) => if r.Nothing? then Root(l) else RightOf(Root(l), Root(r))
    case _ => Nothing
  }

  // ----- simplify -----

  /** cnsttree: unsigned constants are masked to their type. */
  function Const(ty: Ty, v: int): Tree {
    Cnst(ty, if ty == UNSIGNED then v % TWO32 else v)
  }

  predicate Both(ty: Ty, l: Tree, r: Tree) {
    l.Cnst? && l.ty == ty && r.Cnst? && r.ty == ty
  }

  /** commute: a constant on the left goes to the right. */
  predicate Swaps(l: Tree, r: Tree) {
    l.Cnst? && !r.Cnst?
  }

  /** commute, then the identity for 0 on the right. */
  function Commuted(op: T.BinOp, ty: Ty, l: Tree, r: Tree): Tree {
    if Swaps(l, r) then (if l == Cnst(ty, 0) then r else Bin(op, ty, r, l))
    else if r == Cnst(ty, 0) then l
    else Bin(op, ty, l, r)
  }

  function Add(ty: Ty, l: Tree, r: Tree): Tree {
    if Both(ty, l, r) && (ty == UNSIGNED || Addi(l.v, r.v, MIN, MAX)) then Const(ty, l.v + r.v)
    else Commuted(T.Add, ty, l, r)
  }

  function Sub(ty: Ty, l: Tree, r: Tree): Tree {
    if Both(ty, l, r) && (ty == UNSIGNED || Subi(l.v, r.v, MIN, MAX)) then Const(ty, l.v - r.v)
    else if r == Cnst(ty, 0) then l
    else Bin(T.Sub, ty, l, r)
  }

  /** 1 << n as an int of the host. */
  function HostPower(n: nat): int {
    if n == 31 then -TWO31 else Pow2(n)
  }

  function Lsh(ty: Ty, l: Tree, r: Tree): Tree {
    if r == Cnst(INT, 0) then l
    else if l.Cnst? && l.ty == ty && r.Cnst? && r.ty == INT && 0 <= r.v < 32
         && (ty == UNSIGNED || Muli(l.v, HostPower(r.v), MIN, MAX))
    then Const(ty, l.v * Pow2(r.v))
    else Bin(T.Lsh, ty, l, r)
  }

  function Rsh(ty: Ty, l: Tree, r: Tree): Tree {
    if r == Cnst(INT, 0) then l
    else if l.Cnst? && l.ty == ty && r.Cnst? && r.ty == INT && 0 <= r.v < 32 then Const(ty, l.v / Pow2(r.v))
    else Bin(T.Rsh, ty, l, r)
  }

  function PowerOf(t: Tree, ty: Ty): nat {
    if t.Cnst? && t.ty == ty && t.v > 0 then Exponent(t.v) else 0
  }

  function MulU(l: Tree, r: Tree): Tree {
    if Swaps(r, l) then MulUConst(r, l) else MulUConst(l, r)
  }

  /** MUL+U, its constant on the left if it has one. */
  function MulUConst(l: Tree, r: Tree): Tree {
    if PowerOf(l, UNSIGNED) > 0 then Lsh(UNSIGNED, r, Cnst(INT, PowerOf(l, UNSIGNED)))
    else if Both(UNSIGNED, l, r) then Const(UNSIGNED, l.v * r.v)
    else if r == Cnst(UNSIGNED, 1) then l
    else Bin(T.Mul, UNSIGNED, l, r)
  }

  function MulI(l: Tree, r: Tree): Tree
    decreases Size(l) + Size(r), 1
  {
    if Swaps(r, l) then MulIConst(r, l) else MulIConst(l, r)
  }

  /** c1*(x + c2) and c1*(x - c2) */
  predicate Distributes(l: Tree, r: Tree) {
    && l.Cnst? && l.ty == INT && r.Bin? && r.ty == INT && (r.op.Add? || r.op.Sub?)
    && r.r.Cnst? && r.r.ty == INT
  }

  function Size(t: Tree): nat {
    match t
    case Bin(_, _, l, r) => 1 + Size(l) + Size(r)
    case _ => 1
  }

  function MulIConst(l: Tree, r: Tree): Tree
    decreases Size(l) + Size(r), 0
  {
    if Both(INT, l, r) && Muli(l.v, r.v, MIN, MAX) then Const(INT, l.v * r.v)
    else if Distributes(l, r) then
      (if r.op.Add? then Add(INT, MulI(l, r.l), MulI(l, r.r)) else Sub(INT, MulI(l, r.l), MulI(l, r.r)))
    else if PowerOf(l, INT) > 0 then Lsh(INT, r, Cnst(INT, PowerOf(l, INT)))
    else if r == Cnst(INT, 1) then l
    else Bin(T.Mul, INT, l, r)
  }

  function DivI(l: Tree, r: Tree): Tree {
    if r == Cnst(INT, 1) then l
    else if Both(INT, l, r) && Divi(l.v, r.v, MIN) then Const(INT, Quot(l.v, r.v))
    else Bin(T.Div, INT, l, r)
  }

  function DivU(l: Tree, r: Tree): Tree {
    if r == Cnst(UNSIGNED, 1) then l
    else if PowerOf(r, UNSIGNED) > 0 then Rsh(UNSIGNED, l, Cnst(INT, PowerOf(r, UNSIGNED)))
    else if Both(UNSIGNED, l, r) && r.v != 0 then Const(UNSIGNED, l.v / r.v)
    else Bin(T.Div, UNSIGNED, l, r)
  }

  function ModI(l: Tree, r: Tree): Tree {
    if r == Cnst(INT, 1) then Right(Root(l), Cnst(INT, 0))
    else if Both(INT, l, r) && Divi(l.v, r.v, MIN) then Const(INT, Rem(l.v, r.v))
    else Bin(T.Mod, INT, l, r)
  }

  function ModU(l: Tree, r: Tree): Tree {
    if PowerOf(r, UNSIGNED) > 0 then Band(UNSIGNED, l, Const(UNSIGNED, r.v - 1))
    else if Both(UNSIGNED, l, r) && r.v != 0 then Const(UNSIGNED, l.v % r.v)
    else Bin(T.Mod, UNSIGNED, l, r)
  }

  function Band(ty: Ty, l: Tree, r: Tree): Tree {
    if Both(ty, l, r) then Const(ty, T.Norm(ty, Words.And(l.v, r.v)))
    else if Swaps(l, r) then BandConst(ty, r, l) else BandConst(ty, l, r)
  }

  /** The identity compares with 2^32 - 1, which no int constant is. */
  function BandConst(ty: Ty, l: Tree, r: Tree): Tree {
    if r == Cnst(ty, TWO32 - 1) then l
    else if r == Cnst(ty, 0) then Right(Root(l), Cnst(ty, 0))
    else Bin(T.BitAnd, ty, l, r)
  }

  function BorXor(op: T.BinOp, ty: Ty, l: Tree, r: Tree): Tree {
    if Both(ty, l, r) then Const(ty, T.Norm(ty, if op.BitOr? then Words.Or(l.v, r.v) else Words.Xor(l.v, r.v)))
    else Commuted(op, ty, l, r)
  }

  function SimplifyBin(op: T.BinOp, ty: Ty, l: Tree, r: Tree): Tree {
    match op
    case Add => Add(ty, l, r)
    case Sub => Sub(ty, l, r)
    case Mul => if ty == INT then MulI(l, r) else MulU(l, r)
    case Div => if ty == INT then DivI(l, r) else DivU(l, r)
    case Mod => if ty == INT then ModI(l, r) else ModU(l, r)
    case BitAnd => Band(ty, l, r)
    case Lsh => Lsh(ty, l, r)
    case Rsh => Rsh(ty, l, r)
    case _ => BorXor(op, ty, l, r)
  }

  function Fold(rel: Rel, l: Tree, r: Tree): Tree
    requires l.Cnst? && r.Cnst?
  {
    Cnst(INT, Bit(Holds(rel, l.v, r.v)))
  }

  /** EQ and NE: a constant goes to the right. */
  function Equality(rel: Rel, kind: Ty, l: Tree, r: Tree): Tree {
    if Both(kind, l, r) then Fold(rel, l, r)
    else if Swaps(l, r) then Cmp(rel, kind, r, l) else Cmp(rel, kind, l, r)
  }

  const ZERO := Cnst(UNSIGNED, 0)

  /** Comparisons of an unsigned value with 0 are decided, or are comparisons for equality. */
  function Unsigned(rel: Rel, l: Tree, r: Tree): Tree {
    match rel
    case GE =>
      if r == ZERO then Right(Root(l), Cnst(INT, 1)) else if Both(UNSIGNED, l, r) then Fold(rel, l, r)
      else if l == ZERO then Equality(EQ, UNSIGNED, r, l) else Cmp(rel, UNSIGNED, l, r)
    case GT =>
      if l == ZERO then Right(Root(r), Cnst(INT, 0)) else if Both(UNSIGNED, l, r) then Fold(rel, l, r)
      else if r == ZERO then Equality(NE, UNSIGNED, l, r) else Cmp(rel, UNSIGNED, l, r)
    case LE =>
      if l == ZERO then Right(Root(r), Cnst(INT, 1)) else if Both(UNSIGNED, l, r) then Fold(rel, l, r)
      else if r == ZERO then Equality(EQ, UNSIGNED, l, r) else Cmp(rel, UNSIGNED, l, r)
    case LT =>
      if r == ZERO then Right(Root(l), Cnst(INT, 0)) else if Both(UNSIGNED, l, r) then Fold(rel, l, r)
      else if l == ZERO then Equality(NE, UNSIGNED, r, l) else Cmp(rel, UNSIGNED, l, r)
    case _ => Equality(rel, UNSIGNED, l, r)
  }

  function SimplifyCmp(rel: Rel, kind: Ty, l: Tree, r: Tree): Tree {
    if rel == EQ || rel == NE then Equality(rel, kind, l, r)
    else if kind == UNSIGNED then Unsigned(rel, l, r)
    else if Both(INT, l, r) then Fold(rel, l, r)
    else Cmp(rel, INT, l, r)
  }

  function SimplifyNeg(l: Tree): Tree {
    if l.Cnst? && l.ty == INT && l.v != MIN then Cnst(INT, -l.v)
    else if l.Neg? then l.t
    else Neg(l)
  }

  function SimplifyBcom(ty: Ty, l: Tree): Tree {
    if l.Cnst? && l.ty == ty then Const(ty, -1 - l.v)
    else if l.Bcom? && l.ty == UNSIGNED then l.t
    else Bcom(ty, l)
  }

  predicate IsCondition(t: Tree) {
    t.And? || t.Or? || t.Not? || t.Cmp?
  }

  function RightKid(t: Tree): Tree {
    if !t.Right? then t else if t.r.Nothing? then RightKid(t.l) else RightKid(t.r)
  }

  /** cond: a tree as a condition. */
  function Condition(t: Tree): Tree {
    if IsCondition(RightKid(t)) then t else SimplifyCmp(NE, TypeOf(t), t, Cnst(TypeOf(t), 0))
  }

  function SimplifyAnd(l: Tree, r: Tree): Tree {
    if l.Cnst? && l.ty == INT then (if l.v != 0 then Condition(r) else l) else And(l, r)
  }

  function SimplifyOr(l: Tree, r: Tree): Tree {
    if l.Cnst? && l.ty == INT then (if l.v != 0 then Cnst(INT, 1) else Condition(r)) else Or(l, r)
  }

  function SimplifyNot(l: Tree): Tree {
    if l.Cnst? && l.ty == INT then Cnst(INT, Bit(l.v == 0)) else Not(l)
  }

  /** CVI+U and CVU+I between the two 32-bit types. */
  function SimplifyCvt(ty: Ty, l: Tree): Tree {
    if l.Cnst? && l.ty != ty && T.InType(ty, l.v) then Cnst(ty, l.v) else Cvt(ty, l)
  }
}
