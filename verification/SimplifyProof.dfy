// simplify preserves values modulo 2^32 and the order of effects.

module SimplifyProof {
  import opened Comparisons
  import opened Words
  import opened Simplify
  import T = Trees

  /** b does what a does wherever a is defined. */
  ghost predicate Refines<W>(e: Env<W>, a: Tree, b: Tree, w: W) {
    Eval(e, a, w).Some? ==> Eval(e, b, w) == Eval(e, a, w)
  }

  // ----- values -----

  lemma NormIn(ty: Ty, v: int)
    requires T.InType(ty, v)
    ensures T.Norm(ty, v) == v
  {
  }

  lemma NormCongruent(ty: Ty, v: int)
    ensures T.Norm(ty, v % TWO32) == T.Norm(ty, v)
  {
    ModShift(v % TWO32 + TWO31, TWO32, v / TWO32);
    ModShift(v % TWO32, TWO32, v / TWO32);
  }

  lemma {:induction false} EvalTyped<W>(e: Env<W>, t: Tree, w: W)
    requires WellTyped(t) && Eval(e, t, w).Some?
    ensures T.InType(TypeOf(t), Eval(e, t, w).value.0)
    decreases t
  {
    if t.Right? {
      EvalTyped(e, t.l, w);
      if !t.r.Nothing? { EvalTyped(e, t.r, Eval(e, t.l, w).value.1); }
    }
  }

  lemma {:induction false} ConstEval<W>(e: Env<W>, ty: Ty, v: int, w: W)
    ensures Eval(e, Const(ty, v), w) == Some((T.Norm(ty, v), w))
    ensures T.InType(ty, v) ==> Eval(e, Cnst(ty, v), w) == Some((v, w))
  {
    NormCongruent(ty, v);
    if T.InType(ty, v) { NormIn(ty, v); }
  }

  // ----- evaluating operators -----

  lemma BinEval<W>(e: Env<W>, op: T.BinOp, ty: Ty, l: Tree, r: Tree, w: W)
    returns (x: int, w1: W, y: int, w2: W, z: int)
    requires Eval(e, Bin(op, ty, l, r), w).Some?
    ensures Eval(e, l, w) == Some((x, w1)) && Eval(e, r, w1) == Some((y, w2))
    ensures T.Operate(op, ty, x, y) == Some(z) && Eval(e, Bin(op, ty, l, r), w) == Some((z, w2))
  {
    x, w1 := Eval(e, l, w).value.0, Eval(e, l, w).value.1;
    y, w2 := Eval(e, r, w1).value.0, Eval(e, r, w1).value.1;
    z := T.Operate(op, ty, x, y).value;
  }

  lemma {:induction false} BinIs<W>(e: Env<W>, op: T.BinOp, ty: Ty, l: Tree, r: Tree, w: W, x: int, w1: W, y: int,
                                    w2: W)
    requires Eval(e, l, w) == Some((x, w1)) && Eval(e, r, w1) == Some((y, w2))
    ensures Eval(e, Bin(op, ty, l, r), w) ==
      match T.Operate(op, ty, x, y) case Some(z) => Some((z, w2)) case None => None
  {
  }

  predicate Commutes(op: T.BinOp) {
    op.Add? || op.Mul? || op.BitAnd? || op.BitOr? || op.BitXor?
  }

  lemma OperateCommutes(op: T.BinOp, ty: Ty, x: int, y: int)
    requires Commutes(op)
    ensures T.Operate(op, ty, x, y) == T.Operate(op, ty, y, x)
  {
    BitsCommute(AndBit(), U(x), U(y));
    BitsCommute(OrBit(), U(x), U(y));
    BitsCommute(XorBit(), U(x), U(y));
  }

  /** A constant may change sides: it has no effects. */
  lemma {:induction false} SwapRefines<W>(e: Env<W>, op: T.BinOp, ty: Ty, l: Tree, r: Tree, w: W)
    requires Commutes(op) && (l.Cnst? || r.Cnst?)
    ensures Eval(e, Bin(op, ty, r, l), w) == Eval(e, Bin(op, ty, l, r), w)
  {
    hide T.Operate;
    var c, t := if l.Cnst? then l else r, if l.Cnst? then r else l;
    if Eval(e, t, w).Some? {
      var (x, w1) := Eval(e, t, w).value;
      OperateCommutes(op, ty, x, T.Norm(c.ty, c.v));
    }
  }

  /** x op n is x itself, for a constant n. */
  ghost predicate IsIdentity(op: T.BinOp, ty: Ty, n: int) {
    forall x :: T.InType(ty, x) ==> T.Operate(op, ty, x, n) == Some(x)
  }

  lemma {:induction false} IdentityRefines<W>(e: Env<W>, op: T.BinOp, ty: Ty, l: Tree, rty: Ty, n: int, w: W)
    requires WellTyped(l) && TypeOf(l) == ty && T.InType(rty, n) && IsIdentity(op, ty, n)
    ensures Refines(e, Bin(op, ty, l, Cnst(rty, n)), l, w)
  {
    if Eval(e, Bin(op, ty, l, Cnst(rty, n)), w).Some? {
      EvalTyped(e, l, w);
      NormIn(rty, n);
    }
  }

  lemma {:induction false} ZeroOn(op: T.BinOp, ty: Ty, x: int)
    requires op.Add? || op.Sub? || op.BitOr? || op.BitXor? || op.Lsh? || op.Rsh?
    requires T.InType(ty, x)
    ensures T.Operate(op, ty, x, 0) == Some(x)
  {
    hide T.Norm, Bits, Pow2;
    NormIn(ty, x);
    if op.BitOr? || op.BitXor? {
      OrZero(U(x));
      NormCongruent(ty, x);
    } else {
      PowerZero();
    }
  }

  lemma PowerZero()
    ensures Pow2(0) == 1
  {
  }

  lemma ZeroIdentity(op: T.BinOp, ty: Ty)
    requires op.Add? || op.Sub? || op.BitOr? || op.BitXor? || op.Lsh? || op.Rsh?
    ensures IsIdentity(op, ty, 0)
  {
    forall x | T.InType(ty, x) ensures T.Operate(op, ty, x, 0) == Some(x) {
      ZeroOn(op, ty, x);
    }
  }

  lemma OneOn(op: T.BinOp, ty: Ty, x: int)
    requires (op.Mul? || op.Div?) && T.InType(ty, x)
    ensures T.Operate(op, ty, x, 1) == Some(x)
  {
    hide T.Norm;
    NormIn(ty, x);
    assert Quot(x, 1) == x && x * 1 == x && x / 1 == x;
  }

  lemma OneIdentity(op: T.BinOp, ty: Ty)
    requires op.Mul? || op.Div?
    ensures IsIdentity(op, ty, 1)
  {
    forall x | T.InType(ty, x) ensures T.Operate(op, ty, x, 1) == Some(x) {
      OneOn(op, ty, x);
    }
  }

  /** Folding two constants. */
  lemma FoldRefines<W>(e: Env<W>, op: T.BinOp, ty: Ty, x: int, rty: Ty, y: int, v: int, w: W)
    requires
      var z := T.Operate(op, ty, T.Norm(ty, x), T.Norm(rty, y));
      z.Some? ==> z == Some(T.Norm(ty, v))
    ensures Refines(e, Bin(op, ty, Cnst(ty, x), Cnst(rty, y)), Const(ty, v), w)
  {
    ConstEval(e, ty, v, w);
  }

  lemma NormSame(ty: Ty, x: int, y: int)
    requires U(x) == U(y)
    ensures T.Norm(ty, x) == T.Norm(ty, y)
  {
    NormCongruent(ty, x);
    NormCongruent(ty, y);
  }

  lemma NormKeepsU(ty: Ty, x: int)
    ensures U(T.Norm(ty, x)) == U(x)
  {
    if ty == INT {
      var q := (x + TWO31) / TWO32;
      assert T.Norm(ty, x) == x + TWO32 * -q;
      UPeriodic(x, -q);
    }
  }

  /** Sums, differences and products of constants may be folded before they are reduced. */
  lemma RingFolds(ty: Ty, x: int, y: int)
    ensures T.Operate(T.Add, ty, T.Norm(ty, x), T.Norm(ty, y)) == Some(T.Norm(ty, x + y))
    ensures T.Operate(T.Sub, ty, T.Norm(ty, x), T.Norm(ty, y)) == Some(T.Norm(ty, x - y))
    ensures T.Operate(T.Mul, ty, T.Norm(ty, x), T.Norm(ty, y)) == Some(T.Norm(ty, x * y))
  {
    hide T.Norm;
    var x', y' := T.Norm(ty, x), T.Norm(ty, y);
    NormKeepsU(ty, x);
    NormKeepsU(ty, y);
    CongruentSum(x', x, y', y);
    CongruentProduct(x', x, y', y);
    NormSame(ty, x' + y', x + y);
    NormSame(ty, x' - y', x - y);
    NormSame(ty, x' * y', x * y);
  }

  lemma Transitive<W>(e: Env<W>, a: Tree, b: Tree, c: Tree, w: W)
    requires Refines(e, a, b, w) && Refines(e, b, c, w)
    ensures Refines(e, a, c, w)
  {
  }

  // ----- root -----

  /** root keeps the effects. */
  ghost predicate RootKeeps<W>(e: Env<W>, t: Tree, w: W) {
    Eval(e, t, w).Some? ==>
      Eval(e, Root(t), w).Some? && Eval(e, Root(t), w).value.1 == Eval(e, t, w).value.1
  }

  lemma {:induction false} RootEffects<W>(e: Env<W>, t: Tree, w: W)
    ensures RootKeeps(e, t, w)
    decreases t, 0
  {
    hide T.Operate, T.Norm, Holds;
    match t
    case Bin(_, _, l, r) => RootEffects(e, l, w); RootSecond(e, l, r, w);
    case Cmp(_, _, l, r) => RootEffects(e, l, w); RootSecond(e, l, r, w);
    case Neg(u) => RootEffects(e, u, w);
    case Bcom(_, u) => RootEffects(e, u, w);
    case Cvt(_, u) => RootEffects(e, u, w);
    case Not(u) => RootEffects(e, u, w);
    case And(l, r) => RootEffects(e, l, w); RootSecond(e, l, r, w);
    case Or(l, r) => RootEffects(e, l, w); RootSecond(e, l, r, w);
    case Right(l, r) => RootEffects(e, l, w); RootSecond(e, l, r, w);
    case _ =>
  }

  /** The right operand, after the left one. */
  lemma {:induction false} RootSecond<W>(e: Env<W>, l: Tree, r: Tree, w: W)
    ensures Eval(e, l, w).Some? ==> RootKeeps(e, r, Eval(e, l, w).value.1)
    decreases r, 1
  {
    if Eval(e, l, w).Some? { RootEffects(e, r, Eval(e, l, w).value.1); }
  }

  /** (root(l), n) does what l does and is n. */
  lemma {:induction false} RightRefines<W>(e: Env<W>, t: Tree, l: Tree, ty: Ty, n: int, w: W)
    requires T.InType(ty, n)
    requires Eval(e, t, w).Some? ==> Eval(e, l, w).Some? && Eval(e, t, w) == Some((n, Eval(e, l, w).value.1))
    ensures Refines(e, t, Right(Root(l), Cnst(ty, n)), w)
  {
    RootEffects(e, l, w);
    NormIn(ty, n);
  }

  // ----- addition, subtraction, shifts -----

  lemma {:induction false} AddRefines<W>(e: Env<W>, ty: Ty, l: Tree, r: Tree, w: W)
    requires WellTyped(Bin(T.Add, ty, l, r))
    ensures Refines(e, Bin(T.Add, ty, l, r), Add(ty, l, r), w)
  {
    hide Eval, T.Operate, T.Norm;
    if Both(ty, l, r) && (ty == UNSIGNED || Addi(l.v, r.v, MIN, MAX)) {
      RingFolds(ty, l.v, r.v);
      FoldRefines(e, T.Add, ty, l.v, ty, r.v, l.v + r.v, w);
    } else {
      ZeroIdentity(T.Add, ty);
      CommuteRefines(e, T.Add, ty, l, r, w);
    }
  }

  lemma {:induction false} CommuteRefines<W>(e: Env<W>, op: T.BinOp, ty: Ty, l: Tree, r: Tree, w: W)
    requires WellTyped(Bin(op, ty, l, r)) && Commutes(op) && IsIdentity(op, ty, 0)
    ensures Refines(e, Bin(op, ty, l, r), Commuted(op, ty, l, r), w)
  {
    hide Eval, T.Operate, T.Norm, IsIdentity;
    if Swaps(l, r) {
      SwapRefines(e, op, ty, l, r, w);
      if l == Cnst(ty, 0) { IdentityRefines(e, op, ty, r, ty, 0, w); }
    } else if r == Cnst(ty, 0) {
      IdentityRefines(e, op, ty, l, ty, 0, w);
    }
  }

  lemma {:induction false} SubRefines<W>(e: Env<W>, ty: Ty, l: Tree, r: Tree, w: W)
    requires WellTyped(Bin(T.Sub, ty, l, r))
    ensures Refines(e, Bin(T.Sub, ty, l, r), Sub(ty, l, r), w)
  {
    hide Eval, T.Operate, T.Norm;
    if Both(ty, l, r) && (ty == UNSIGNED || Subi(l.v, r.v, MIN, MAX)) {
      RingFolds(ty, l.v, r.v);
      FoldRefines(e, T.Sub, ty, l.v, ty, r.v, l.v - r.v, w);
    } else if r == Cnst(ty, 0) {
      ZeroIdentity(T.Sub, ty);
      IdentityRefines(e, T.Sub, ty, l, ty, 0, w);
    }
  }

  lemma {:induction false} ShiftFolds(ty: Ty, x: int, y: int)
    requires T.InType(ty, x) && 0 <= y < 32
    ensures T.Operate(T.Lsh, ty, T.Norm(ty, x), T.Norm(INT, y)) == Some(T.Norm(ty, x * Pow2(y)))
    ensures T.Operate(T.Rsh, ty, T.Norm(ty, x), T.Norm(INT, y)) == Some(T.Norm(ty, x / Pow2(y)))
  {
    hide Pow2;
    NormIn(ty, x);
    NormIn(INT, y);
  }

  lemma {:induction false} LshRefines<W>(e: Env<W>, ty: Ty, l: Tree, r: Tree, w: W)
    requires WellTyped(Bin(T.Lsh, ty, l, r)) && InRange(l) && InRange(r)
    ensures Refines(e, Bin(T.Lsh, ty, l, r), Lsh(ty, l, r), w)
  {
    hide Eval, T.Operate, T.Norm, Pow2;
    if r == Cnst(INT, 0) {
      ZeroIdentity(T.Lsh, ty);
      IdentityRefines(e, T.Lsh, ty, l, INT, 0, w);
    } else if Lsh(ty, l, r) != Bin(T.Lsh, ty, l, r) {
      ShiftFolds(ty, l.v, r.v);
      FoldRefines(e, T.Lsh, ty, l.v, INT, r.v, l.v * Pow2(r.v), w);
    }
  }

  lemma {:induction false} RshRefines<W>(e: Env<W>, ty: Ty, l: Tree, r: Tree, w: W)
    requires WellTyped(Bin(T.Rsh, ty, l, r)) && InRange(l) && InRange(r)
    ensures Refines(e, Bin(T.Rsh, ty, l, r), Rsh(ty, l, r), w)
  {
    hide Eval, T.Operate, T.Norm, Pow2;
    if r == Cnst(INT, 0) {
      ZeroIdentity(T.Rsh, ty);
      IdentityRefines(e, T.Rsh, ty, l, INT, 0, w);
    } else if Rsh(ty, l, r) != Bin(T.Rsh, ty, l, r) {
      ShiftFolds(ty, l.v, r.v);
      FoldRefines(e, T.Rsh, ty, l.v, INT, r.v, l.v / Pow2(r.v), w);
    }
  }

  // ----- multiplication -----

  lemma {:induction false} PowerBelow(n: nat, m: nat)
    requires Pow2(n) < Pow2(m)
    ensures n < m
    decreases n
  {
    if n >= m { PowerGrows(m, n); }
  }

  lemma {:induction false} PowerGrows(m: nat, n: nat)
    requires m <= n
    ensures Pow2(m) <= Pow2(n)
    decreases n
  {
    if m < n { PowerGrows(m, n - 1); }
  }

  /** The exponent of a constant in range is a shift count. */
  lemma {:induction false} ExponentIsCount(ty: Ty, v: int)
    requires T.InType(ty, v) && v > 0 && Exponent(v) > 0
    ensures Exponent(v) < 32 && v == Pow2(Exponent(v))
  {
    Pow2At32();
    PowerBelow(Exponent(v), 32);
  }

  /** 2^n * r is r << n. */
  lemma {:induction false} PowerRefines<W>(e: Env<W>, ty: Ty, v: int, r: Tree, w: W)
    requires T.InType(ty, v) && v > 0 && Exponent(v) > 0
    ensures Refines(e, Bin(T.Mul, ty, Cnst(ty, v), r), Bin(T.Lsh, ty, r, Cnst(INT, Exponent(v))), w)
  {
    hide Eval, T.Norm, Exponent, Pow2;
    var n := Exponent(v);
    ExponentIsCount(ty, v);
    ConstEval(e, ty, v, w);
    if Eval(e, Bin(T.Mul, ty, Cnst(ty, v), r), w).Some? {
      var x, w0, y, w1, z := BinEval(e, T.Mul, ty, Cnst(ty, v), r, w);
      ConstEval(e, INT, n, w1);
      ProductSwaps(v, y);
      BinIs(e, T.Lsh, ty, r, Cnst(INT, n), w, y, w1, n, w1);
    }
  }

  lemma ProductSwaps(x: int, y: int)
    ensures x * y == y * x
  {
  }

  lemma {:induction false} ShiftedRefines<W>(e: Env<W>, ty: Ty, v: int, r: Tree, w: W)
    requires T.InType(ty, v) && v > 0 && Exponent(v) > 0 && WellTyped(r) && TypeOf(r) == ty && InRange(r)
    ensures Refines(e, Bin(T.Mul, ty, Cnst(ty, v), r), Lsh(ty, r, Cnst(INT, Exponent(v))), w)
  {
    hide Eval, T.Norm, Exponent;
    ExponentIsCount(ty, v);
    PowerRefines(e, ty, v, r, w);
    LshRefines(e, ty, r, Cnst(INT, Exponent(v)), w);
  }

  lemma {:induction false} MulURefines<W>(e: Env<W>, l: Tree, r: Tree, w: W)
    requires WellTyped(Bin(T.Mul, UNSIGNED, l, r)) && InRange(l) && InRange(r)
    ensures Refines(e, Bin(T.Mul, UNSIGNED, l, r), MulU(l, r), w)
  {
    hide Eval, MulUConst;
    if Swaps(r, l) {
      SwapRefines(e, T.Mul, UNSIGNED, l, r, w);
      MulUConstRefines(e, r, l, w);
    } else {
      MulUConstRefines(e, l, r, w);
    }
  }

  lemma {:induction false} MulUConstRefines<W>(e: Env<W>, l: Tree, r: Tree, w: W)
    requires WellTyped(Bin(T.Mul, UNSIGNED, l, r)) && InRange(l) && InRange(r)
    ensures Refines(e, Bin(T.Mul, UNSIGNED, l, r), MulUConst(l, r), w)
  {
    hide Eval, T.Operate, T.Norm, Exponent;
    if PowerOf(l, UNSIGNED) > 0 {
      ShiftedRefines(e, UNSIGNED, l.v, r, w);
    } else if Both(UNSIGNED, l, r) {
      RingFolds(UNSIGNED, l.v, r.v);
      FoldRefines(e, T.Mul, UNSIGNED, l.v, UNSIGNED, r.v, l.v * r.v, w);
    } else if r == Cnst(UNSIGNED, 1) {
      OneIdentity(T.Mul, UNSIGNED);
      IdentityRefines(e, T.Mul, UNSIGNED, l, UNSIGNED, 1, w);
    }
  }

  /** c1 * (x + c2) is c1 * x + c1 * c2, and so for a difference. */
  lemma DistributeRefines<W>(e: Env<W>, c1: int, op: T.BinOp, x: Tree, c2: int, w: W)
    requires op.Add? || op.Sub?
    ensures
      var c, d := Cnst(INT, c1), Cnst(INT, c2);
      Refines(e, Bin(T.Mul, INT, c, Bin(op, INT, x, d)), Bin(op, INT, Bin(T.Mul, INT, c, x), Bin(T.Mul, INT, c, d)), w)
  {
    hide Eval, T.Norm;
    var c, d := Cnst(INT, c1), Cnst(INT, c2);
    if Eval(e, Bin(T.Mul, INT, c, Bin(op, INT, x, d)), w).Some? {
      var a, w0, z, w2, v := BinEval(e, T.Mul, INT, c, Bin(op, INT, x, d), w);
      ConstValue(e, c1, w);
      var y, w1, b, w3, u := BinEval(e, op, INT, x, d, w);
      ConstValue(e, c2, w1);
      ConstValue(e, c1, w1);
      DistributedValue(op, a, y, b);
      BinIs(e, T.Mul, INT, c, x, w, a, w, y, w1);
      BinIs(e, T.Mul, INT, c, d, w1, a, w1, b, w1);
      BinIs(e, op, INT, Bin(T.Mul, INT, c, x), Bin(T.Mul, INT, c, d), w,
            T.Norm(INT, a * y), w1, T.Norm(INT, a * b), w1);
    }
  }

  lemma {:induction false} ConstValue<W>(e: Env<W>, c: int, w: W)
    ensures Eval(e, Cnst(INT, c), w) == Some((T.Norm(INT, c), w))
  {
  }

  lemma DistributedValue(op: T.BinOp, a: int, x: int, b: int)
    requires op.Add? || op.Sub?
    ensures T.Norm(INT, a * T.Operate(op, INT, x, b).value)
         == T.Operate(op, INT, T.Norm(INT, a * x), T.Norm(INT, a * b)).value
  {
    hide T.Norm;
    RingFolds(INT, a * x, a * b);
    var v := if op.Add? then x + b else x - b;
    NormKeepsU(INT, v);
    CongruentProduct(a, a, T.Norm(INT, v), v);
    NormSame(INT, a * T.Norm(INT, v), a * v);
    assert a * (x + b) == a * x + a * b && a * (x - b) == a * x - a * b;
  }

  /** Both operands replaced by what refines them. */
  lemma {:induction false} OperandsRefine<W>(e: Env<W>, op: T.BinOp, ty: Ty, l: Tree, l': Tree, r: Tree, r': Tree, w: W)
    requires Refines(e, l, l', w)
    requires Eval(e, l, w).Some? ==> Refines(e, r, r', Eval(e, l, w).value.1)
    ensures Refines(e, Bin(op, ty, l, r), Bin(op, ty, l', r'), w)
  {
    hide T.Operate;
  }

  lemma {:induction false} SumTyped(a: Tree, b: Tree)
    requires WellTyped(a) && TypeOf(a) == INT && WellTyped(b) && TypeOf(b) == INT
    ensures WellTyped(Add(INT, a, b)) && TypeOf(Add(INT, a, b)) == INT
    ensures WellTyped(Sub(INT, a, b)) && TypeOf(Sub(INT, a, b)) == INT
  {
    hide Addi, Subi, Const, WellTyped, TypeOf;
    ConstTyped(INT);
    IntTyped(a, b);
    IntTyped(b, a);
  }

  lemma {:induction false} IntTyped(a: Tree, b: Tree)
    requires WellTyped(a) && TypeOf(a) == INT && WellTyped(b) && TypeOf(b) == INT
    ensures WellTyped(Bin(T.Add, INT, a, b)) && TypeOf(Bin(T.Add, INT, a, b)) == INT
    ensures WellTyped(Bin(T.Sub, INT, a, b)) && TypeOf(Bin(T.Sub, INT, a, b)) == INT
  {
  }

  lemma ConstTyped(ty: Ty)
    ensures forall v :: WellTyped(Const(ty, v)) && TypeOf(Const(ty, v)) == ty
  {
  }

  lemma {:induction false} MulITyped(l: Tree, r: Tree)
    requires WellTyped(Bin(T.Mul, INT, l, r))
    ensures WellTyped(MulI(l, r)) && TypeOf(MulI(l, r)) == INT
    decreases Size(l) + Size(r)
  {
    hide Exponent, Muli, Addi, Subi;
    var c, t := if Swaps(r, l) then r else l, if Swaps(r, l) then l else r;
    if Distributes(c, t) {
      MulITyped(c, t.l);
      MulITyped(c, t.r);
      SumTyped(MulI(c, t.l), MulI(c, t.r));
    }
  }

  lemma {:induction false} MulIRefines<W>(e: Env<W>, l: Tree, r: Tree, w: W)
    requires WellTyped(Bin(T.Mul, INT, l, r)) && InRange(l) && InRange(r)
    ensures Refines(e, Bin(T.Mul, INT, l, r), MulI(l, r), w)
    decreases Size(l) + Size(r)
  {
    hide Eval, MulIConst;
    var c, t := if Swaps(r, l) then r else l, if Swaps(r, l) then l else r;
    if Swaps(r, l) { SwapRefines(e, T.Mul, INT, l, r, w); }
    if Distributes(c, t) && !(Both(INT, c, t)) {
      MulIRefines(e, c, t.l, w);
      var product := Eval(e, Bin(T.Mul, INT, c, t.l), w);
      if product.Some? { MulIRefines(e, c, t.r, product.value.1); }
      DistributedMulRefines(e, c, t, w);
    } else {
      MulIConstRefines(e, c, t, w);
    }
  }

  lemma {:induction false} DistributedMulRefines<W>(e: Env<W>, c: Tree, t: Tree, w: W)
    requires WellTyped(Bin(T.Mul, INT, c, t)) && Distributes(c, t)
    requires Refines(e, Bin(T.Mul, INT, c, t.l), MulI(c, t.l), w)
    requires
      var product := Eval(e, Bin(T.Mul, INT, c, t.l), w);
      product.Some? ==> Refines(e, Bin(T.Mul, INT, c, t.r), MulI(c, t.r), product.value.1)
    ensures Refines(e, Bin(T.Mul, INT, c, t), MulIConst(c, t), w)
  {
    hide Eval, MulI, T.Operate;
    var a, b := MulI(c, t.l), MulI(c, t.r);
    DistributeRefines(e, c.v, t.op, t.l, t.r.v, w);
    OperandsRefine(e, t.op, INT, Bin(T.Mul, INT, c, t.l), a, Bin(T.Mul, INT, c, t.r), b, w);
    MulITyped(c, t.l);
    MulITyped(c, t.r);
    AddRefines(e, INT, a, b, w);
    SubRefines(e, INT, a, b, w);
  }

  lemma {:induction false} MulIConstRefines<W>(e: Env<W>, l: Tree, r: Tree, w: W)
    requires WellTyped(Bin(T.Mul, INT, l, r)) && InRange(l) && InRange(r) && !Distributes(l, r)
    ensures Refines(e, Bin(T.Mul, INT, l, r), MulIConst(l, r), w)
  {
    hide Eval, T.Operate, T.Norm, Exponent;
    if Both(INT, l, r) && Muli(l.v, r.v, MIN, MAX) {
      RingFolds(INT, l.v, r.v);
      FoldRefines(e, T.Mul, INT, l.v, INT, r.v, l.v * r.v, w);
    } else if PowerOf(l, INT) > 0 {
      ShiftedRefines(e, INT, l.v, r, w);
    } else if r == Cnst(INT, 1) {
      OneIdentity(T.Mul, INT);
      IdentityRefines(e, T.Mul, INT, l, INT, 1, w);
    }
  }

  // ----- division and remainder -----

  lemma DivFolds(op: T.BinOp, ty: Ty, x: int, y: int)
    requires op.Div? || op.Mod?
    requires T.InType(ty, x) && T.InType(ty, y) && y != 0 && (ty == INT ==> Divi(x, y, MIN))
    ensures
      var v := if op.Div? then (if ty == INT then Quot(x, y) else x / y) else if ty == INT then Rem(x, y) else x % y;
      T.Operate(op, ty, T.Norm(ty, x), T.Norm(ty, y)) == Some(T.Norm(ty, v))
  {
    hide T.Norm;
    NormIn(ty, x);
    NormIn(ty, y);
    if ty == INT { DiviExact(x, y); }
  }

  lemma {:induction false} DivIRefines<W>(e: Env<W>, l: Tree, r: Tree, w: W)
    requires WellTyped(Bin(T.Div, INT, l, r)) && InRange(l) && InRange(r)
    ensures Refines(e, Bin(T.Div, INT, l, r), DivI(l, r), w)
  {
    hide Eval, T.Operate, T.Norm;
    if r == Cnst(INT, 1) {
      OneIdentity(T.Div, INT);
      IdentityRefines(e, T.Div, INT, l, INT, 1, w);
    } else if Both(INT, l, r) && Divi(l.v, r.v, MIN) {
      DivFolds(T.Div, INT, l.v, r.v);
      FoldRefines(e, T.Div, INT, l.v, INT, r.v, Quot(l.v, r.v), w);
    }
  }

  /** l / 2^n is l >> n. */
  lemma {:induction false} PowerDivides<W>(e: Env<W>, l: Tree, v: int, w: W)
    requires T.InType(UNSIGNED, v) && v > 0 && Exponent(v) > 0
    ensures Refines(e, Bin(T.Div, UNSIGNED, l, Cnst(UNSIGNED, v)), Bin(T.Rsh, UNSIGNED, l, Cnst(INT, Exponent(v))), w)
  {
    hide Eval, T.Norm, Exponent, Pow2;
    var n, d := Exponent(v), Cnst(UNSIGNED, v);
    ExponentIsCount(UNSIGNED, v);
    if Eval(e, Bin(T.Div, UNSIGNED, l, d), w).Some? {
      var x, w1, y, w2, z := BinEval(e, T.Div, UNSIGNED, l, d, w);
      ConstEval(e, UNSIGNED, v, w1);
      ConstEval(e, INT, n, w1);
      BinIs(e, T.Rsh, UNSIGNED, l, Cnst(INT, n), w, x, w1, n, w1);
    }
  }

  lemma {:induction false} DivURefines<W>(e: Env<W>, l: Tree, r: Tree, w: W)
    requires WellTyped(Bin(T.Div, UNSIGNED, l, r)) && InRange(l) && InRange(r)
    ensures Refines(e, Bin(T.Div, UNSIGNED, l, r), DivU(l, r), w)
  {
    hide Eval, T.Operate, T.Norm, Exponent;
    if r == Cnst(UNSIGNED, 1) {
      OneIdentity(T.Div, UNSIGNED);
      IdentityRefines(e, T.Div, UNSIGNED, l, UNSIGNED, 1, w);
    } else if PowerOf(r, UNSIGNED) > 0 {
      ExponentIsCount(UNSIGNED, r.v);
      PowerDivides(e, l, r.v, w);
      RshRefines(e, UNSIGNED, l, Cnst(INT, Exponent(r.v)), w);
    } else if Both(UNSIGNED, l, r) && r.v != 0 {
      DivFolds(T.Div, UNSIGNED, l.v, r.v);
      FoldRefines(e, T.Div, UNSIGNED, l.v, UNSIGNED, r.v, l.v / r.v, w);
    }
  }

  lemma {:induction false} ModIRefines<W>(e: Env<W>, l: Tree, r: Tree, w: W)
    requires WellTyped(Bin(T.Mod, INT, l, r)) && InRange(l) && InRange(r)
    ensures Refines(e, Bin(T.Mod, INT, l, r), ModI(l, r), w)
  {
    hide Eval, T.Norm;
    if r == Cnst(INT, 1) {
      if Eval(e, Bin(T.Mod, INT, l, r), w).Some? {
        var x, w1, y, w2, z := BinEval(e, T.Mod, INT, l, r, w);
        ConstEval(e, INT, 1, w1);
        NormIn(INT, 0);
        assert Rem(x, 1) == 0;
      }
      RightRefines(e, Bin(T.Mod, INT, l, r), l, INT, 0, w);
    } else if Both(INT, l, r) && Divi(l.v, r.v, MIN) {
      DivFolds(T.Mod, INT, l.v, r.v);
      FoldRefines(e, T.Mod, INT, l.v, INT, r.v, Rem(l.v, r.v), w);
    }
  }

  /** l % 2^n is l & (2^n - 1). */
  lemma {:induction false} PowerMasks<W>(e: Env<W>, l: Tree, v: int, w: W)
    requires WellTyped(l) && TypeOf(l) == UNSIGNED && T.InType(UNSIGNED, v) && v > 0 && Exponent(v) > 0
    ensures Refines(e, Bin(T.Mod, UNSIGNED, l, Cnst(UNSIGNED, v)),
                    Bin(T.BitAnd, UNSIGNED, l, Const(UNSIGNED, v - 1)), w)
  {
    hide Eval, T.Norm, Exponent, Pow2, Bits;
    var d, m := Cnst(UNSIGNED, v), Const(UNSIGNED, v - 1);
    ExponentIsCount(UNSIGNED, v);
    if Eval(e, Bin(T.Mod, UNSIGNED, l, d), w).Some? {
      var x, w1, y, w2, z := BinEval(e, T.Mod, UNSIGNED, l, d, w);
      EvalTyped(e, l, w);
      ConstEval(e, UNSIGNED, v, w1);
      ConstEval(e, UNSIGNED, v - 1, w1);
      NormIn(UNSIGNED, v - 1);
      AndMask(x, Exponent(v));
      ModSmall(x, TWO32);
      ModSmall(v - 1, TWO32);
      BinIs(e, T.BitAnd, UNSIGNED, l, m, w, x, w1, v - 1, w1);
    }
  }

  lemma {:induction false} ModURefines<W>(e: Env<W>, l: Tree, r: Tree, w: W)
    requires WellTyped(Bin(T.Mod, UNSIGNED, l, r)) && InRange(l) && InRange(r)
    ensures Refines(e, Bin(T.Mod, UNSIGNED, l, r), ModU(l, r), w)
  {
    hide Eval, T.Operate, T.Norm, Exponent, Band;
    if PowerOf(r, UNSIGNED) > 0 {
      var m := Const(UNSIGNED, r.v - 1);
      ModSmall(r.v - 1, TWO32);
      PowerMasks(e, l, r.v, w);
      BandRefines(e, UNSIGNED, l, m, w);
    } else if Both(UNSIGNED, l, r) && r.v != 0 {
      DivFolds(T.Mod, UNSIGNED, l.v, r.v);
      FoldRefines(e, T.Mod, UNSIGNED, l.v, UNSIGNED, r.v, l.v % r.v, w);
    }
  }

  // ----- bits -----

  lemma BitFolds(op: T.BinOp, ty: Ty, x: int, y: int)
    requires op.BitAnd? || op.BitOr? || op.BitXor?
    ensures
      var v := if op.BitAnd? then Words.And(x, y) else if op.BitOr? then Words.Or(x, y) else Words.Xor(x, y);
      T.Operate(op, ty, T.Norm(ty, x), T.Norm(ty, y)) == Some(T.Norm(ty, T.Norm(ty, v)))
  {
    hide T.Norm, Bits;
    NormKeepsU(ty, x);
    NormKeepsU(ty, y);
    NormIn(ty, T.Norm(ty, Words.And(x, y)));
    NormIn(ty, T.Norm(ty, Words.Or(x, y)));
    NormIn(ty, T.Norm(ty, Words.Xor(x, y)));
  }

  lemma {:induction false} BandRefines<W>(e: Env<W>, ty: Ty, l: Tree, r: Tree, w: W)
    requires WellTyped(Bin(T.BitAnd, ty, l, r)) && InRange(l) && InRange(r)
    ensures Refines(e, Bin(T.BitAnd, ty, l, r), Band(ty, l, r), w)
  {
    hide Eval, T.Operate, T.Norm, BandConst, Words.And;
    if Both(ty, l, r) {
      BitFolds(T.BitAnd, ty, l.v, r.v);
      FoldRefines(e, T.BitAnd, ty, l.v, ty, r.v, T.Norm(ty, Words.And(l.v, r.v)), w);
    } else if Swaps(l, r) {
      SwapRefines(e, T.BitAnd, ty, l, r, w);
      BandConstRefines(e, ty, r, l, w);
    } else {
      BandConstRefines(e, ty, l, r, w);
    }
  }

  lemma MaskAll(x: int)
    requires T.InType(UNSIGNED, x)
    ensures T.Operate(T.BitAnd, UNSIGNED, x, TWO32 - 1) == Some(x)
  {
    Pow2At32();
    AndMask(x, 32);
    ModSmall(x, TWO32);
    ModSmall(TWO32 - 1, TWO32);
    NormIn(UNSIGNED, x);
  }

  lemma AllOnesIdentity()
    ensures IsIdentity(T.BitAnd, UNSIGNED, TWO32 - 1)
  {
    forall x | T.InType(UNSIGNED, x) ensures T.Operate(T.BitAnd, UNSIGNED, x, TWO32 - 1) == Some(x) {
      MaskAll(x);
    }
  }

  lemma {:induction false} BandConstRefines<W>(e: Env<W>, ty: Ty, l: Tree, r: Tree, w: W)
    requires WellTyped(Bin(T.BitAnd, ty, l, r)) && InRange(l) && InRange(r)
    ensures Refines(e, Bin(T.BitAnd, ty, l, r), BandConst(ty, l, r), w)
  {
    hide Eval, T.Norm, Bits;
    if r == Cnst(ty, TWO32 - 1) {
      AllOnesIdentity();
      IdentityRefines(e, T.BitAnd, ty, l, ty, TWO32 - 1, w);
    } else if r == Cnst(ty, 0) {
      if Eval(e, Bin(T.BitAnd, ty, l, r), w).Some? {
        var x, w1, y, w2, z := BinEval(e, T.BitAnd, ty, l, r, w);
        ConstEval(e, ty, 0, w1);
        AndZero(U(x));
        NormIn(ty, 0);
      }
      RightRefines(e, Bin(T.BitAnd, ty, l, r), l, ty, 0, w);
    }
  }

  lemma {:induction false} BorXorRefines<W>(e: Env<W>, op: T.BinOp, ty: Ty, l: Tree, r: Tree, w: W)
    requires op.BitOr? || op.BitXor?
    requires WellTyped(Bin(op, ty, l, r)) && InRange(l) && InRange(r)
    ensures Refines(e, Bin(op, ty, l, r), BorXor(op, ty, l, r), w)
  {
    hide Eval, T.Operate, T.Norm, Words.Or, Words.Xor;
    if Both(ty, l, r) {
      BitFolds(op, ty, l.v, r.v);
      FoldRefines(e, op, ty, l.v, ty, r.v,
                  T.Norm(ty, if op.BitOr? then Words.Or(l.v, r.v) else Words.Xor(l.v, r.v)), w);
    } else {
      ZeroIdentity(op, ty);
      CommuteRefines(e, op, ty, l, r, w);
    }
  }

  /**
   * simplify on an arithmetic, bitwise or shift operator: the tree it makes has the same
   * effects in the same order and the same 32-bit value as the operator on its operands.
   */
  lemma {:induction false} SimplifyBinRefines<W>(e: Env<W>, op: T.BinOp, ty: Ty, l: Tree, r: Tree, w: W)
    requires WellTyped(Bin(op, ty, l, r)) && InRange(l) && InRange(r)
    ensures Refines(e, Bin(op, ty, l, r), SimplifyBin(op, ty, l, r), w)
  {
    hide Refines, Add, Sub, MulI, MulU, DivI, DivU, ModI, ModU, Band, Lsh, Rsh, BorXor;
    match op
    case Add => AddRefines(e, ty, l, r, w);
    case Sub => SubRefines(e, ty, l, r, w);
    case Mul => if ty == INT { MulIRefines(e, l, r, w); } else { MulURefines(e, l, r, w); }
    case Div => if ty == INT { DivIRefines(e, l, r, w); } else { DivURefines(e, l, r, w); }
    case Mod => if ty == INT { ModIRefines(e, l, r, w); } else { ModURefines(e, l, r, w); }
    case BitAnd => BandRefines(e, ty, l, r, w);
    case Lsh => LshRefines(e, ty, l, r, w);
    case Rsh => RshRefines(e, ty, l, r, w);
    case _ => BorXorRefines(e, op, ty, l, r, w);
  }

  // ----- comparisons -----

  lemma CmpEval<W>(e: Env<W>, rel: Rel, kind: Ty, l: Tree, r: Tree, w: W) returns (x: int, w1: W, y: int, w2: W)
    requires Eval(e, Cmp(rel, kind, l, r), w).Some?
    ensures Eval(e, l, w) == Some((x, w1)) && Eval(e, r, w1) == Some((y, w2))
    ensures Eval(e, Cmp(rel, kind, l, r), w) == Some((Bit(Holds(rel, x, y)), w2))
  {
    x, w1 := Eval(e, l, w).value.0, Eval(e, l, w).value.1;
    y, w2 := Eval(e, r, w1).value.0, Eval(e, r, w1).value.1;
  }

  lemma {:induction false} CmpIs<W>(e: Env<W>, rel: Rel, kind: Ty, l: Tree, r: Tree, w: W, x: int, w1: W, y: int, w2: W)
    requires Eval(e, l, w) == Some((x, w1)) && Eval(e, r, w1) == Some((y, w2))
    ensures Eval(e, Cmp(rel, kind, l, r), w) == Some((Bit(Holds(rel, x, y)), w2))
  {
  }

  /** The comparison seen from the other side. */
  function Mirrored(rel: Rel): Rel {
    match rel
    case GE => LE
    case GT => LT
    case LE => GE
    case LT => GT
    case _ => rel
  }

  lemma MirrorRefines<W>(e: Env<W>, rel: Rel, kind: Ty, l: Tree, r: Tree, w: W)
    requires l.Cnst? || r.Cnst?
    ensures Refines(e, Cmp(rel, kind, l, r), Cmp(Mirrored(rel), kind, r, l), w)
  {
    hide Eval;
    if Eval(e, Cmp(rel, kind, l, r), w).Some? {
      var x, w1, y, w2 := CmpEval(e, rel, kind, l, r, w);
      if l.Cnst? {
        ConstAnywhere(e, l, w, w2);
        CmpIs(e, Mirrored(rel), kind, r, l, w, y, w2, x, w2);
      } else {
        ConstAnywhere(e, r, w, w1);
        CmpIs(e, Mirrored(rel), kind, r, l, w, y, w, x, w1);
      }
    }
  }

  lemma {:induction false} ConstAnywhere<W>(e: Env<W>, c: Tree, w: W, w1: W)
    requires c.Cnst?
    ensures Eval(e, c, w) == Some((T.Norm(c.ty, c.v), w)) && Eval(e, c, w1) == Some((T.Norm(c.ty, c.v), w1))
  {
  }

  lemma {:induction false} FoldCmpRefines<W>(e: Env<W>, rel: Rel, kind: Ty, l: Tree, r: Tree, w: W)
    requires Both(kind, l, r) && InRange(l) && InRange(r)
    ensures Refines(e, Cmp(rel, kind, l, r), Fold(rel, l, r), w)
  {
    ConstEval(e, kind, l.v, w);
    ConstEval(e, kind, r.v, w);
    ConstEval(e, INT, Bit(Holds(rel, l.v, r.v)), w);
  }

  lemma {:induction false} EqualityRefines<W>(e: Env<W>, rel: Rel, kind: Ty, l: Tree, r: Tree, w: W)
    requires (rel == EQ || rel == NE) && WellTyped(Cmp(rel, kind, l, r)) && InRange(l) && InRange(r)
    ensures Refines(e, Cmp(rel, kind, l, r), Equality(rel, kind, l, r), w)
  {
    hide Eval;
    if Both(kind, l, r) {
      FoldCmpRefines(e, rel, kind, l, r, w);
    } else if Swaps(l, r) {
      MirrorRefines(e, rel, kind, l, r, w);
    }
  }

  /** An unsigned comparison with 0 that is always v. */
  lemma {:induction false} DecidedRefines<W>(e: Env<W>, rel: Rel, t: Tree, v: int, w: W)
    requires WellTyped(t) && TypeOf(t) == UNSIGNED && (v == 0 || v == 1)
    requires forall x :: T.InType(UNSIGNED, x) ==> Bit(Holds(rel, x, 0)) == v
    ensures Refines(e, Cmp(rel, UNSIGNED, t, ZERO), Right(Root(t), Cnst(INT, v)), w)
  {
    hide Eval, Holds;
    if Eval(e, Cmp(rel, UNSIGNED, t, ZERO), w).Some? {
      var x, w1, y, w2 := CmpEval(e, rel, UNSIGNED, t, ZERO, w);
      EvalTyped(e, t, w);
      ConstEval(e, UNSIGNED, 0, w1);
      assert Bit(Holds(rel, x, 0)) == v;
    }
    RightRefines(e, Cmp(rel, UNSIGNED, t, ZERO), t, INT, v, w);
  }

  /** An unsigned comparison with 0 that is one for equality. */
  lemma {:induction false} EqualRefines<W>(e: Env<W>, rel: Rel, eq: Rel, t: Tree, w: W)
    requires WellTyped(t) && TypeOf(t) == UNSIGNED && InRange(t) && (eq == EQ || eq == NE)
    requires forall x :: T.InType(UNSIGNED, x) ==> (Holds(rel, x, 0) <==> Holds(eq, x, 0))
    ensures Refines(e, Cmp(rel, UNSIGNED, t, ZERO), Equality(eq, UNSIGNED, t, ZERO), w)
  {
    hide Eval, Holds, Equality;
    if Eval(e, Cmp(rel, UNSIGNED, t, ZERO), w).Some? {
      var x, w1, y, w2 := CmpEval(e, rel, UNSIGNED, t, ZERO, w);
      EvalTyped(e, t, w);
      ConstEval(e, UNSIGNED, 0, w1);
      assert Holds(rel, x, 0) <==> Holds(eq, x, 0);
      CmpIs(e, eq, UNSIGNED, t, ZERO, w, x, w1, 0, w1);
    }
    EqualityRefines(e, eq, UNSIGNED, t, ZERO, w);
  }

  /** Comparisons of t with 0, on the right. */
  function WithZero(rel: Rel, t: Tree): Tree {
    match rel
    case GE => Right(Root(t), Cnst(INT, 1))
    case LT => Right(Root(t), Cnst(INT, 0))
    case GT => Equality(NE, UNSIGNED, t, ZERO)
    case LE => Equality(EQ, UNSIGNED, t, ZERO)
    case _ => Equality(rel, UNSIGNED, t, ZERO)
  }

  lemma {:induction false} WithZeroRefines<W>(e: Env<W>, rel: Rel, t: Tree, w: W)
    requires rel != EQ && rel != NE && WellTyped(t) && TypeOf(t) == UNSIGNED && InRange(t)
    ensures Refines(e, Cmp(rel, UNSIGNED, t, ZERO), WithZero(rel, t), w)
  {
    hide Eval, Equality;
    match rel
    case GE => DecidedRefines(e, rel, t, 1, w);
    case LT => DecidedRefines(e, rel, t, 0, w);
    case GT => EqualRefines(e, rel, NE, t, w);
    case LE => EqualRefines(e, rel, EQ, t, w);
  }

  lemma {:induction false} UnsignedRefines<W>(e: Env<W>, rel: Rel, l: Tree, r: Tree, w: W)
    requires rel != EQ && rel != NE
    requires WellTyped(Cmp(rel, UNSIGNED, l, r)) && InRange(l) && InRange(r)
    ensures Refines(e, Cmp(rel, UNSIGNED, l, r), Unsigned(rel, l, r), w)
  {
    hide Eval, Equality;
    var leftFirst := rel == GT || rel == LE;
    if (leftFirst && l == ZERO) || (l == ZERO && r != ZERO && !Both(UNSIGNED, l, r)) {
      MirrorRefines(e, rel, UNSIGNED, l, r, w);
      WithZeroRefines(e, Mirrored(rel), r, w);
    } else if (!leftFirst && r == ZERO) || (r == ZERO && !Both(UNSIGNED, l, r)) {
      WithZeroRefines(e, rel, l, w);
    } else if Both(UNSIGNED, l, r) {
      FoldCmpRefines(e, rel, UNSIGNED, l, r, w);
    }
  }

  /** simplify on a comparison. */
  lemma {:induction false} SimplifyCmpRefines<W>(e: Env<W>, rel: Rel, kind: Ty, l: Tree, r: Tree, w: W)
    requires WellTyped(Cmp(rel, kind, l, r)) && InRange(l) && InRange(r)
    ensures Refines(e, Cmp(rel, kind, l, r), SimplifyCmp(rel, kind, l, r), w)
  {
    hide Eval, Equality, Unsigned;
    if rel == EQ || rel == NE {
      EqualityRefines(e, rel, kind, l, r, w);
    } else if kind == UNSIGNED {
      UnsignedRefines(e, rel, l, r, w);
    } else if Both(INT, l, r) {
      FoldCmpRefines(e, rel, INT, l, r, w);
    }
  }

  // ----- the other operators -----

  lemma {:induction false} NegRefines<W>(e: Env<W>, l: Tree, w: W)
    requires WellTyped(Neg(l)) && InRange(l)
    ensures Refines(e, Neg(l), SimplifyNeg(l), w)
  {
    if l.Cnst? {
      ConstEval(e, INT, l.v, w);
      if l.v != MIN { ConstEval(e, INT, -l.v, w); }
    } else if l.Neg? && Eval(e, l.t, w).Some? {
      EvalTyped(e, l.t, w);
      Twice(INT, Eval(e, l.t, w).value.0);
    }
  }

  lemma Twice(ty: Ty, x: int)
    requires T.InType(ty, x)
    ensures T.Norm(ty, -T.Norm(ty, -x)) == x && T.Norm(ty, -1 - T.Norm(ty, -1 - x)) == x
  {
    hide T.Norm;
    NormKeepsU(ty, -x);
    NormKeepsU(ty, -1 - x);
    CongruentSum(0, 0, T.Norm(ty, -x), -x);
    CongruentSum(-1, -1, T.Norm(ty, -1 - x), -1 - x);
    NormSame(ty, -T.Norm(ty, -x), x);
    NormSame(ty, -1 - T.Norm(ty, -1 - x), x);
    NormIn(ty, x);
  }

  lemma {:induction false} BcomRefines<W>(e: Env<W>, ty: Ty, l: Tree, w: W)
    requires WellTyped(Bcom(ty, l)) && InRange(l)
    ensures Refines(e, Bcom(ty, l), SimplifyBcom(ty, l), w)
  {
    if l.Cnst? {
      ConstEval(e, ty, l.v, w);
      ConstEval(e, ty, -1 - l.v, w);
    } else if l.Bcom? && Eval(e, l.t, w).Some? {
      EvalTyped(e, l.t, w);
      Twice(ty, Eval(e, l.t, w).value.0);
    }
  }

  /** A tree as a condition is its truth value. */
  ghost predicate IsTruth<W>(e: Env<W>, t: Tree, c: Tree, w: W) {
    Eval(e, t, w).Some? ==> Eval(e, c, w) == Some((Bit(Eval(e, t, w).value.0 != 0), Eval(e, t, w).value.1))
  }

  lemma {:induction false} ConditionTruth<W>(e: Env<W>, t: Tree, w: W)
    requires WellTyped(t) && InRange(t)
    ensures IsTruth(e, t, Condition(t), w)
  {
    if IsCondition(RightKid(t)) {
      TruthValue(e, t, w);
    } else {
      var ty := TypeOf(t);
      NonZeroTruth(e, ty, t, w);
      SimplifyCmpRefines(e, NE, ty, t, Cnst(ty, 0), w);
    }
  }

  lemma NonZeroTruth<W>(e: Env<W>, ty: Ty, t: Tree, w: W)
    ensures IsTruth(e, t, Cmp(NE, ty, t, Cnst(ty, 0)), w)
  {
    if Eval(e, t, w).Some? { ConstEval(e, ty, 0, Eval(e, t, w).value.1); }
  }

  /** Comparisons and logical operators are 0 or 1 already. */
  lemma {:induction false} TruthValue<W>(e: Env<W>, t: Tree, w: W)
    requires IsCondition(RightKid(t))
    ensures IsTruth(e, t, t, w)
    decreases t
  {
    if t.Right? && t.r.Nothing? {
      TruthValue(e, t.l, w);
    } else if t.Right? && Eval(e, t.l, w).Some? {
      TruthValue(e, t.r, Eval(e, t.l, w).value.1);
    }
  }

  lemma {:induction false} AndRefines<W>(e: Env<W>, l: Tree, r: Tree, w: W)
    requires WellTyped(And(l, r)) && InRange(l) && InRange(r)
    ensures Refines(e, And(l, r), SimplifyAnd(l, r), w)
  {
    hide Condition;
    if l.Cnst? && l.ty == INT {
      ConstEval(e, INT, l.v, w);
      ConditionTruth(e, r, w);
    }
  }

  lemma {:induction false} OrRefines<W>(e: Env<W>, l: Tree, r: Tree, w: W)
    requires WellTyped(Or(l, r)) && InRange(l) && InRange(r)
    ensures Refines(e, Or(l, r), SimplifyOr(l, r), w)
  {
    hide Condition;
    if l.Cnst? && l.ty == INT {
      ConstEval(e, INT, l.v, w);
      ConstEval(e, INT, 1, w);
      ConditionTruth(e, r, w);
    }
  }

  lemma {:induction false} NotRefines<W>(e: Env<W>, l: Tree, w: W)
    requires WellTyped(Not(l)) && InRange(l)
    ensures Refines(e, Not(l), SimplifyNot(l), w)
  {
    if l.Cnst? && l.ty == INT {
      ConstEval(e, INT, l.v, w);
      ConstEval(e, INT, Bit(l.v == 0), w);
    }
  }

  lemma {:induction false} CvtRefines<W>(e: Env<W>, ty: Ty, l: Tree, w: W)
    requires WellTyped(l) && InRange(l)
    ensures Refines(e, Cvt(ty, l), SimplifyCvt(ty, l), w)
  {
    if l.Cnst? { ConstEval(e, l.ty, l.v, w); }
  }

  // ----- constants stay in range -----

  /** The constant, if it is one, that c * t becomes: a product is distributed over t as far as t is a sum. */
  function Product(c: int, t: Tree): Option<int> {
    if t.Cnst? && t.ty == INT then (if Muli(c, t.v, MIN, MAX) then Some(c * t.v) else None)
    else if t.Bin? && t.ty == INT && (t.op.Add? || t.op.Sub?) && t.r.Cnst? && t.r.ty == INT then
      (match (Product(c, t.l), Product(c, t.r))
       case (Some(a), Some(b)) =>
         if t.op.Add? then (if Addi(a, b, MIN, MAX) then Some(a + b) else None)
         else if Subi(a, b, MIN, MAX) then Some(a - b) else None
       case _ => None)
    else None
  }

  /** c * t is, or keeps, a constant that is no int. */
  predicate ProductOverflows(c: int, t: Tree) {
    match Product(c, t)
    case Some(v) => !Fits(v)
    case None => Distributes(Cnst(INT, c), t) && ProductOverflows(c, t.l)
  }

  /**
   * The constants that simplify makes beyond the range of int: 0 - INT_MIN, 1 << 31, and such
   * a difference of products.
   */
  predicate Overflows(op: T.BinOp, ty: Ty, l: Tree, r: Tree) {
    ty == INT &&
    match op
    case Sub => l == Cnst(INT, 0) && r == Cnst(INT, MIN)
    case Lsh => l == Cnst(INT, 1) && r == Cnst(INT, 31)
    case Mul =>
      var (c, t) := if Swaps(r, l) then (r, l) else (l, r);
      c.Cnst? && ProductOverflows(c.v, t)
    case _ => false
  }

  lemma {:induction false} RootInRange(t: Tree)
    requires InRange(t)
    ensures InRange(Root(t))
    decreases t
  {
    match t
    case Bin(_, _, l, r) => RootInRange(l); RootInRange(r);
    case Cmp(_, _, l, r) => RootInRange(l); RootInRange(r);
    case Neg(u) => RootInRange(u);
    case Bcom(_, u) => RootInRange(u);
    case Cvt(_, u) => RootInRange(u);
    case Not(u) => RootInRange(u);
    case And(l, r) => RootInRange(l); RootInRange(r);
    case Or(l, r) => RootInRange(l); RootInRange(r);
    case Right(l, r) => RootInRange(l); RootInRange(r);
    case _ =>
  }

  lemma QuotientShrinks(ty: Ty, x: int, d: int)
    requires T.InType(ty, x) && d > 0
    ensures T.InType(ty, x / d)
  {
    QuotientTowardsZero(x, d);
  }

  lemma QuotientTowardsZero(x: int, d: int)
    requires d > 0
    ensures if x >= 0 then 0 <= x / d <= x else x <= x / d < 0
  {
    if x >= 0 {
      QuotientAtMost(x, d);
    } else {
      QuotientAtMost(-1 - x, d);
      FloorOfNegative(x, d);
    }
  }

  lemma FloorOfNegative(x: int, d: int)
    requires x < 0 && d > 0
    ensures x / d == -1 - (-1 - x) / d
  {
    var q, r := (-1 - x) / d, (-1 - x) % d;
    assert x == (-1 - q) * d + (d - 1 - r) by { assert (-1 - q) * d == -d - q * d; }
    ModUnique(x, d, -1 - q, d - 1 - r);
  }

  lemma RemFits(x: int, y: int)
    requires Fits(x) && Fits(y) && y != 0
    ensures Fits(Rem(x, y))
  {
  }

  lemma {:induction false} LshInRange(l: Tree, r: Tree)
    requires WellTyped(Bin(T.Lsh, INT, l, r)) && InRange(l) && InRange(r)
    ensures InRange(Lsh(INT, l, r)) <==> !Overflows(T.Lsh, INT, l, r)
  {
    hide Pow2, Muli;
    if l.Cnst? && r.Cnst? && 0 < r.v < 32 {
      Pow2At32();
      if r.v == 31 {
        MuliExact(l.v, MIN);
        MinTimes(l.v);
      } else {
        PowerGrows(r.v, 30);
        PowerHalf();
        MuliExact(l.v, Pow2(r.v));
      }
    }
  }

  lemma PowerHalf()
    ensures Pow2(30) == TWO31 / 2
  {
    Pow2At32();
    assert Pow2(31) == 2 * Pow2(30);
  }

  lemma MinTimes(x: int)
    requires Fits(x)
    ensures Fits(x * MIN) <==> x == 0 || x == 1
    ensures Fits(x * TWO31) <==> x == 0 || x == -1
  {
  }

  lemma {:induction false} MulUInRange(l: Tree, r: Tree)
    requires InRange(l) && InRange(r)
    ensures InRange(MulUConst(l, r))
  {
    hide Exponent, Pow2;
    if PowerOf(l, UNSIGNED) > 0 { ExponentIsCount(UNSIGNED, l.v); }
  }

  lemma {:induction false} PlainMulInRange(l: Tree, r: Tree)
    requires WellTyped(Bin(T.Mul, INT, l, r)) && InRange(l) && InRange(r) && !Distributes(l, r)
    ensures InRange(MulIConst(l, r))
    ensures l.Cnst? && r.Cnst? ==>
      if Muli(l.v, r.v, MIN, MAX) then MulIConst(l, r) == Cnst(INT, l.v * r.v) else !MulIConst(l, r).Cnst?
    ensures l.Cnst? && !r.Cnst? ==> !MulIConst(l, r).Cnst?
  {
    hide Muli, Exponent, Pow2, Lsh;
    if Both(INT, l, r) { MuliExact(l.v, r.v); }
    if PowerOf(l, INT) > 0 && !(Both(INT, l, r) && Muli(l.v, r.v, MIN, MAX)) {
      PowerInRange(l.v, r);
      ShiftNotFolded(l.v, r);
    }
    if r == Cnst(INT, 1) && l.Cnst? { MuliExact(l.v, 1); }
  }

  /** A product that is not folded is not folded as a shift either. */
  lemma {:induction false} ShiftNotFolded(v: int, t: Tree)
    requires T.InType(INT, v) && v > 0 && Exponent(v) > 0 && WellTyped(t) && TypeOf(t) == INT && InRange(t)
    requires t.Cnst? ==> !Muli(v, t.v, MIN, MAX)
    ensures !Lsh(INT, t, Cnst(INT, Exponent(v))).Cnst?
  {
    hide Exponent, Pow2, Muli;
    ExponentIsCount(INT, v);
    Pow2At32();
    if t.Cnst? {
      MuliExact(v, t.v);
      MuliExact(t.v, v);
    }
  }

  /** What a product with a constant becomes: a constant exactly if Product says so. */
  lemma {:induction false} MulIIs(c: int, t: Tree)
    requires Fits(c) && WellTyped(t) && TypeOf(t) == INT && InRange(t)
    ensures
      var m := MulI(Cnst(INT, c), t);
      && (match Product(c, t) case Some(v) => m == Cnst(INT, v) case None => !m.Cnst?)
      && (InRange(m) <==> !ProductOverflows(c, t))
    decreases t
  {
    hide Muli, Addi, Subi, MulIConst;
    var l := Cnst(INT, c);
    if Distributes(l, t) {
      MulIIs(c, t.l);
      MulIIs(c, t.r);
      MuliExact(c, t.r.v);
      MulDistributes(c, t);
      MulITyped(l, t.l);
      MulITyped(l, t.r);
      if t.op.Add? { SumIs(MulI(l, t.l), MulI(l, t.r)); } else { DifferenceIs(MulI(l, t.l), MulI(l, t.r)); }
    } else {
      PlainMulInRange(l, t);
      if t.Cnst? && Muli(c, t.v, MIN, MAX) { MuliExact(c, t.v); }
    }
  }

  lemma {:induction false} MulDistributes(c: int, t: Tree)
    requires Distributes(Cnst(INT, c), t)
    ensures
      var l := Cnst(INT, c);
      MulI(l, t) == if t.op.Add? then Add(INT, MulI(l, t.l), MulI(l, t.r)) else Sub(INT, MulI(l, t.l), MulI(l, t.r))
  {
  }

  /** A sum, when the right operand is in range. */
  lemma {:induction false} SumIs(a: Tree, b: Tree)
    requires TypeOf(a) == INT && TypeOf(b) == INT && InRange(b)
    ensures
      var m := Add(INT, a, b);
      if a.Cnst? && b.Cnst? && Addi(a.v, b.v, MIN, MAX) then m == Cnst(INT, a.v + b.v)
      else !m.Cnst? && (InRange(m) <==> InRange(a))
  {
    hide Addi;
    if a.Cnst? { ZeroAdds(a.v); }
  }

  /** A difference, when the right operand is in range. */
  lemma {:induction false} DifferenceIs(a: Tree, b: Tree)
    requires TypeOf(a) == INT && TypeOf(b) == INT && InRange(b)
    ensures
      var m := Sub(INT, a, b);
      if a.Cnst? && b.Cnst? && Subi(a.v, b.v, MIN, MAX) then m == Cnst(INT, a.v - b.v)
      else !m.Cnst? && (InRange(m) <==> InRange(a))
  {
    hide Addi;
    if a.Cnst? { ZeroAdds(a.v); }
  }

  lemma ZeroAdds(x: int)
    ensures Addi(x, 0, MIN, MAX)
  {
  }

  lemma {:induction false} MulInRange(ty: Ty, l: Tree, r: Tree)
    requires WellTyped(Bin(T.Mul, ty, l, r)) && InRange(l) && InRange(r)
    ensures InRange(SimplifyBin(T.Mul, ty, l, r)) <==> !Overflows(T.Mul, ty, l, r)
  {
    hide MulIConst, MulUConst, Product;
    if ty == UNSIGNED {
      MulUInRange(l, r);
      MulUInRange(r, l);
    } else {
      var c, t := if Swaps(r, l) then r else l, if Swaps(r, l) then l else r;
      if c.Cnst? { MulIIs(c.v, t); } else { PlainMulInRange(c, t); }
      assert MulI(c, t) == MulI(l, r);
    }
  }

  /** An int constant 2^n leaves no room for a shift by 31. */
  lemma {:induction false} PowerInRange(v: int, t: Tree)
    requires T.InType(INT, v) && v > 0 && Exponent(v) > 0 && WellTyped(t) && TypeOf(t) == INT && InRange(t)
    ensures InRange(Lsh(INT, t, Cnst(INT, Exponent(v))))
  {
    hide Exponent, Pow2;
    ExponentIsCount(INT, v);
    Pow2At32();
    LshInRange(t, Cnst(INT, Exponent(v)));
  }

  /** Folding keeps constants in the range of their type exactly where nothing overflows. */
  lemma {:induction false} SimplifyBinInRange(op: T.BinOp, ty: Ty, l: Tree, r: Tree)
    requires WellTyped(Bin(op, ty, l, r)) && InRange(l) && InRange(r)
    ensures InRange(SimplifyBin(op, ty, l, r)) <==> !Overflows(op, ty, l, r)
  {
    hide Addi, Subi, Muli, Divi, Exponent, Pow2, Bits, MulI, Product, ProductOverflows;
    RootInRange(l);
    match op
    case Add => if Both(INT, l, r) { AddiExact(l.v, r.v); }
    case Sub => if Both(INT, l, r) { SubiExact(l.v, r.v); }
    case Mul => MulInRange(ty, l, r);
    case Lsh => if ty == INT { LshInRange(l, r); }
    case Rsh => if l.Cnst? && r.Cnst? && 0 <= r.v < 32 { QuotientShrinks(ty, l.v, Pow2(r.v)); }
    case Div => DivInRange(ty, l, r);
    case Mod => ModInRange(ty, l, r);
    case BitAnd => BandInRange(ty, l, r);
    case _ =>
  }

  lemma {:induction false} DivInRange(ty: Ty, l: Tree, r: Tree)
    requires WellTyped(Bin(T.Div, ty, l, r)) && InRange(l) && InRange(r)
    ensures InRange(SimplifyBin(T.Div, ty, l, r))
  {
    hide Divi, Exponent, Pow2;
    if Both(INT, l, r) { DiviExact(l.v, r.v); }
    if ty == UNSIGNED && PowerOf(r, UNSIGNED) > 0 {
      ExponentIsCount(UNSIGNED, r.v);
      if l.Cnst? { QuotientShrinks(UNSIGNED, l.v, Pow2(Exponent(r.v))); }
    }
  }

  lemma {:induction false} BandInRange(ty: Ty, l: Tree, r: Tree)
    requires InRange(l) && InRange(r)
    ensures InRange(Band(ty, l, r))
  {
    hide Words.And, Root;
    RootInRange(l);
    RootInRange(r);
  }

  lemma {:induction false} ModInRange(ty: Ty, l: Tree, r: Tree)
    requires WellTyped(Bin(T.Mod, ty, l, r)) && InRange(l) && InRange(r)
    ensures InRange(SimplifyBin(T.Mod, ty, l, r))
  {
    hide Divi, Exponent, Bits, Band;
    RootInRange(l);
    if Both(INT, l, r) && Divi(l.v, r.v, MIN) { DiviExact(l.v, r.v); RemFits(l.v, r.v); }
    if ty == UNSIGNED && PowerOf(r, UNSIGNED) > 0 { BandInRange(UNSIGNED, l, Const(UNSIGNED, r.v - 1)); }
  }
}
