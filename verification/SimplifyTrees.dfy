// A whole tree built through simplify (lcc/src/simp.c), from its leaves up.

module SimplifyTrees {
  import opened Words
  import opened Comparisons
  import opened Simplify
  import opened SimplifyProof
  import T = Trees

  /** The tree that the front end gets when it builds t node by node through simplify. */
  function Simplified(t: Tree): Tree {
    match t
    case Bin(op, ty, l, r) => SimplifyBin(op, ty, Simplified(l), Simplified(r))
    case Cmp(rel, kind, l, r) => SimplifyCmp(rel, kind, Simplified(l), Simplified(r))
    case Neg(u) => SimplifyNeg(Simplified(u))
    case Bcom(ty, u) => SimplifyBcom(ty, Simplified(u))
    case Cvt(ty, u) => SimplifyCvt(ty, Simplified(u))
    case And(l, r) => SimplifyAnd(Simplified(l), Simplified(r))
    case Or(l, r) => SimplifyOr(Simplified(l), Simplified(r))
    case Not(u) => SimplifyNot(Simplified(u))
    case Right(l, r) => Right(Simplified(l), Simplified(r))
    case _ => t
  }

  /** The null tree stands nowhere but on one side of a Right. */
  predicate Solid(t: Tree) {
    match t
    case Nothing => false
    case Bin(_, _, l, r) => Solid(l) && Solid(r)
    case Cmp(_, _, l, r) => Solid(l) && Solid(r)
    case Neg(u) => Solid(u)
    case Bcom(_, u) => Solid(u)
    case Cvt(_, u) => Solid(u)
    case And(l, r) => Solid(l) && Solid(r)
    case Or(l, r) => Solid(l) && Solid(r)
    case Not(u) => Solid(u)
    case Right(l, r) => (l.Nothing? || Solid(l)) && (r.Nothing? || Solid(r)) && !(l.Nothing? && r.Nothing?)
    case _ => true
  }

  /** Two int constants that simplify would have added or subtracted. */
  predicate Foldable(op: T.BinOp, ty: Ty, l: Tree, r: Tree) {
    Both(INT, l, r) && ty == INT &&
    ((op.Add? && Addi(l.v, r.v, MIN, MAX)) || (op.Sub? && Subi(l.v, r.v, MIN, MAX)))
  }

  /** No sum or difference in the tree could still be folded. */
  predicate Folded(t: Tree) {
    match t
    case Bin(op, ty, l, r) => Folded(l) && Folded(r) && !Foldable(op, ty, l, r)
    case Cmp(_, _, l, r) => Folded(l) && Folded(r)
    case Neg(u) => Folded(u)
    case Bcom(_, u) => Folded(u)
    case Cvt(_, u) => Folded(u)
    case And(l, r) => Folded(l) && Folded(r)
    case Or(l, r) => Folded(l) && Folded(r)
    case Not(u) => Folded(u)
    case Right(l, r) => Folded(l) && Folded(r)
    case _ => true
  }

  /** What simplify makes and takes. */
  predicate Built(t: Tree) {
    WellTyped(t) && Solid(t) && Folded(t)
  }

  // ----- products over built trees -----

  /** What is no int does not become one by multiplication, unless by 0 or -1. */
  lemma Scaled(c: int, s: int)
    requires (c >= 1 || c <= -2) && !Fits(s)
    ensures !Fits(c * s)
  {
    if c >= 1 {
      if s > 0 { assert c * s >= s; } else { assert c * s <= s; }
    } else {
      assert c * s == -c * -s;
      if s > 0 { assert -c * s >= 2 * s; } else { assert -c * -s >= 2 * -s; }
    }
  }

  lemma NoFactor(c: int, x: int)
    requires c * x == 0
    ensures c == 0 || x == 0
  {
  }

  /** A sum of constants in a built tree becomes a constant only when multiplied by 0 or -1. */
  lemma {:induction false} OnlyMinusOne(c: int, t: Tree)
    requires Fits(c) && WellTyped(t) && InRange(t) && Folded(t) && t.Bin? && Product(c, t).Some?
    ensures c == 0 || c == -1
    decreases t
  {
    hide Muli, Addi;
    if t.l.Bin? {
      OnlyMinusOne(c, t.l);
    } else {
      var x, y := t.l.v, t.r.v;
      AddiExact(x, y);
      SubiExact(x, y);
      MuliExact(c, x);
      MuliExact(c, y);
      AddiExact(c * x, c * y);
      SubiExact(c * x, c * y);
      if c >= 1 || c <= -2 {
        if c * x == 0 { NoFactor(c, x); }
        assert c * (x + y) == c * x + c * y && c * (x - y) == c * x - c * y;
        Scaled(c, if t.op.Add? then x + y else x - y);
      }
    }
  }

  /** So a product distributed over a built tree makes no constant but an int. */
  lemma {:induction false} NoProductOverflows(c: int, t: Tree)
    requires Fits(c) && WellTyped(t) && InRange(t) && Folded(t)
    ensures !ProductOverflows(c, t)
    decreases t
  {
    hide Muli, Addi;
    if t.Cnst? && t.ty == INT {
      MuliExact(c, t.v);
    } else if Distributes(Cnst(INT, c), t) {
      NoProductOverflows(c, t.l);
      MuliExact(c, t.r.v);
      if Product(c, t).Some? {
        var a, b := Product(c, t.l).value, Product(c, t.r).value;
        AddiExact(a, b);
        SubiExact(a, b);
        if t.op.Sub? { ZeroLess(c, t); }
      }
    }
  }

  /** 0 - INT_MIN does not come about by multiplication of a built difference. */
  lemma {:induction false} ZeroLess(c: int, t: Tree)
    requires Fits(c) && WellTyped(t) && InRange(t) && Folded(t) && Distributes(Cnst(INT, c), t) && t.op.Sub?
    ensures Product(c, t.l) == Some(0) ==> c * t.r.v != MIN
  {
    hide Muli;
    if Product(c, t.l) == Some(0) {
      if t.l.Bin? {
        OnlyMinusOne(c, t.l);
      } else {
        NoFactor(c, t.l.v);
      }
    }
  }

  // ----- what simplify makes is built -----

  /** m is a built tree of that type. */
  ghost predicate BuiltAs(ty: Ty, m: Tree) {
    Built(m) && TypeOf(m) == ty
  }

  lemma {:induction false} RootBuilt(t: Tree)
    requires Built(t) || t.Nothing?
    ensures Root(t).Nothing? || Built(Root(t))
    decreases t
  {
    match t
    case Bin(_, _, l, r) => RootBuilt(l); RootBuilt(r); RightBuilt(Root(l), Root(r));
    case Cmp(_, _, l, r) => RootBuilt(l); RootBuilt(r); RightBuilt(Root(l), Root(r));
    case Neg(u) => RootBuilt(u);
    case Bcom(_, u) => RootBuilt(u);
    case Cvt(_, u) => RootBuilt(u);
    case Not(u) => RootBuilt(u);
    case And(l, r) => RootBuilt(l); RootBuilt(r);
    case Or(l, r) => RootBuilt(l); RootBuilt(r);
    case Right(l, r) => RootBuilt(l); RootBuilt(r); RightBuilt(Root(l), Root(r));
    case _ =>
  }

  lemma RightBuilt(a: Tree, b: Tree)
    requires (a.Nothing? || Built(a)) && (b.Nothing? || Built(b))
    ensures RightOf(a, b).Nothing? || Built(RightOf(a, b))
  {
    assert WellTyped(Nothing) && Folded(Nothing);
  }

  lemma ConstsBuilt(ty: Ty)
    ensures forall v :: BuiltAs(ty, Cnst(ty, v))
  {
  }

  lemma OpBuilt(op: T.BinOp, ty: Ty, l: Tree, r: Tree)
    requires BuiltAs(ty, l) && BuiltAs(if op.Lsh? || op.Rsh? then INT else ty, r)
    ensures Foldable(op, ty, l, r) || BuiltAs(ty, Bin(op, ty, l, r))
  {
    hide Foldable;
  }

  lemma CmpIsBuilt(rel: Rel, kind: Ty, l: Tree, r: Tree)
    requires BuiltAs(kind, l) && BuiltAs(kind, r)
    ensures BuiltAs(INT, Cmp(rel, kind, l, r))
  {
  }

  lemma {:induction false} RightConstBuilt(l: Tree, ty: Ty, n: int)
    requires Built(l)
    ensures BuiltAs(ty, Right(Root(l), Cnst(ty, n)))
  {
    hide Root, Built;
    RootBuilt(l);
    PairBuilt(Root(l), Cnst(ty, n));
  }

  lemma PairBuilt(a: Tree, c: Tree)
    requires (a.Nothing? || Built(a)) && c.Cnst?
    ensures BuiltAs(c.ty, Right(a, c))
  {
    assert WellTyped(c) && Folded(c) && Solid(c);
    assert WellTyped(Nothing) && Folded(Nothing);
  }

  lemma {:induction false} RightBuiltAs(from: Ty, l: Tree, ty: Ty, n: int)
    requires BuiltAs(from, l)
    ensures BuiltAs(ty, Right(Root(l), Cnst(ty, n)))
  {
    RightConstBuilt(l, ty, n);
  }

  lemma {:induction false} SumBuilt(ty: Ty, l: Tree, r: Tree)
    requires BuiltAs(ty, l) && BuiltAs(ty, r)
    ensures BuiltAs(ty, Add(ty, l, r)) && BuiltAs(ty, Sub(ty, l, r))
  {
    hide Addi, BuiltAs;
    ConstsBuilt(ty);
    OpBuilt(T.Add, ty, l, r);
    OpBuilt(T.Add, ty, r, l);
    OpBuilt(T.Sub, ty, l, r);
  }

  lemma {:induction false} LshBuilt(ty: Ty, l: Tree, r: Tree)
    requires BuiltAs(ty, l) && BuiltAs(INT, r)
    ensures BuiltAs(ty, Lsh(ty, l, r))
  {
    hide Muli, Pow2, BuiltAs;
    ConstsBuilt(ty);
    OpBuilt(T.Lsh, ty, l, r);
  }

  lemma {:induction false} RshBuilt(ty: Ty, l: Tree, r: Tree)
    requires BuiltAs(ty, l) && BuiltAs(INT, r)
    ensures BuiltAs(ty, Rsh(ty, l, r))
  {
    hide Pow2, BuiltAs;
    ConstsBuilt(ty);
    OpBuilt(T.Rsh, ty, l, r);
  }

  lemma {:induction false} MulUBuilt(l: Tree, r: Tree)
    requires BuiltAs(UNSIGNED, l) && BuiltAs(UNSIGNED, r)
    ensures BuiltAs(UNSIGNED, MulU(l, r))
  {
    hide Exponent, Lsh, BuiltAs;
    MulUConstBuilt(l, r);
    MulUConstBuilt(r, l);
  }

  lemma {:induction false} MulUConstBuilt(l: Tree, r: Tree)
    requires BuiltAs(UNSIGNED, l) && BuiltAs(UNSIGNED, r)
    ensures BuiltAs(UNSIGNED, MulUConst(l, r))
  {
    hide Exponent, Lsh, BuiltAs, PowerOf;
    ConstsBuilt(UNSIGNED);
    ConstsBuilt(INT);
    OpBuilt(T.Mul, UNSIGNED, l, r);
    LshBuilt(UNSIGNED, r, Cnst(INT, PowerOf(l, UNSIGNED)));
  }

  lemma KidsBuilt(t: Tree)
    requires t.Bin? && (t.op.Add? || t.op.Sub?) && BuiltAs(t.ty, t)
    ensures BuiltAs(t.ty, t.l) && BuiltAs(t.ty, t.r)
  {
  }

  lemma {:induction false} MulIBuilt(l: Tree, r: Tree)
    requires BuiltAs(INT, l) && BuiltAs(INT, r)
    ensures BuiltAs(INT, MulI(l, r))
    decreases Size(l) + Size(r)
  {
    hide Exponent, Muli, Add, Sub, Lsh, PowerOf, BuiltAs;
    var c, t := if Swaps(r, l) then r else l, if Swaps(r, l) then l else r;
    ConstsBuilt(INT);
    OpBuilt(T.Mul, INT, c, t);
    LshBuilt(INT, t, Cnst(INT, PowerOf(c, INT)));
    if Distributes(c, t) {
      KidsBuilt(t);
      MulIBuilt(c, t.l);
      MulIBuilt(c, t.r);
      SumBuilt(INT, MulI(c, t.l), MulI(c, t.r));
    }
  }

  lemma {:induction false} BandBuilt(ty: Ty, l: Tree, r: Tree)
    requires BuiltAs(ty, l) && BuiltAs(ty, r)
    ensures BuiltAs(ty, Band(ty, l, r))
  {
    hide Words.And, Root, BuiltAs;
    ConstsBuilt(ty);
    OpBuilt(T.BitAnd, ty, l, r);
    OpBuilt(T.BitAnd, ty, r, l);
    RightBuiltAs(ty, l, ty, 0);
    RightBuiltAs(ty, r, ty, 0);
  }

  lemma {:induction false} DivBuilt(ty: Ty, l: Tree, r: Tree)
    requires BuiltAs(ty, l) && BuiltAs(ty, r)
    ensures BuiltAs(ty, if ty == INT then DivI(l, r) else DivU(l, r))
  {
    hide Exponent, Rsh, Divi, BuiltAs, PowerOf;
    ConstsBuilt(ty);
    ConstsBuilt(INT);
    OpBuilt(T.Div, ty, l, r);
    RshBuilt(ty, l, Cnst(INT, PowerOf(r, UNSIGNED)));
  }

  lemma {:induction false} ModBuilt(ty: Ty, l: Tree, r: Tree)
    requires BuiltAs(ty, l) && BuiltAs(ty, r)
    ensures BuiltAs(ty, if ty == INT then ModI(l, r) else ModU(l, r))
  {
    hide Exponent, Band, Divi, Root, BuiltAs;
    ConstsBuilt(ty);
    OpBuilt(T.Mod, ty, l, r);
    RightBuiltAs(ty, l, INT, 0);
    if ty == UNSIGNED && r.Cnst? { BandBuilt(ty, l, Const(UNSIGNED, r.v - 1)); }
  }

  lemma {:induction false} BorXorBuilt(op: T.BinOp, ty: Ty, l: Tree, r: Tree)
    requires op.BitOr? || op.BitXor?
    requires BuiltAs(ty, l) && BuiltAs(ty, r)
    ensures BuiltAs(ty, BorXor(op, ty, l, r))
  {
    hide Words.Or, Words.Xor, BuiltAs;
    ConstsBuilt(ty);
    OpBuilt(op, ty, l, r);
    OpBuilt(op, ty, r, l);
  }

  lemma {:induction false} BinBuilt(op: T.BinOp, ty: Ty, l: Tree, r: Tree)
    requires BuiltAs(ty, l) && BuiltAs(if op.Lsh? || op.Rsh? then INT else ty, r)
    ensures BuiltAs(ty, SimplifyBin(op, ty, l, r))
  {
    hide BuiltAs, Add, Sub, MulI, MulU, DivI, DivU, ModI, ModU, Band, Lsh, Rsh, BorXor;
    match op
    case Add => SumBuilt(ty, l, r);
    case Sub => SumBuilt(ty, l, r);
    case Mul => if ty == INT { MulIBuilt(l, r); } else { MulUBuilt(l, r); }
    case Div => DivBuilt(ty, l, r);
    case Mod => ModBuilt(ty, l, r);
    case BitAnd => BandBuilt(ty, l, r);
    case Lsh => LshBuilt(ty, l, r);
    case Rsh => RshBuilt(ty, l, r);
    case _ => BorXorBuilt(op, ty, l, r);
  }

  lemma EqualityBuilt(rel: Rel, kind: Ty, l: Tree, r: Tree)
    requires BuiltAs(kind, l) && BuiltAs(kind, r)
    ensures BuiltAs(INT, Equality(rel, kind, l, r))
  {
    hide Holds, BuiltAs;
    ConstsBuilt(INT);
    CmpIsBuilt(rel, kind, l, r);
    CmpIsBuilt(rel, kind, r, l);
  }

  lemma {:induction false} UnsignedBuilt(rel: Rel, l: Tree, r: Tree)
    requires BuiltAs(UNSIGNED, l) && BuiltAs(UNSIGNED, r)
    ensures BuiltAs(INT, Unsigned(rel, l, r))
  {
    hide Root, Holds, BuiltAs, Equality;
    ConstsBuilt(INT);
    CmpIsBuilt(rel, UNSIGNED, l, r);
    EqualityBuilt(rel, UNSIGNED, l, r);
    EqualityBuilt(EQ, UNSIGNED, l, r);
    EqualityBuilt(NE, UNSIGNED, l, r);
    EqualityBuilt(EQ, UNSIGNED, r, l);
    EqualityBuilt(NE, UNSIGNED, r, l);
    RightBuiltAs(UNSIGNED, l, INT, 0);
    RightBuiltAs(UNSIGNED, l, INT, 1);
    RightBuiltAs(UNSIGNED, r, INT, 0);
    RightBuiltAs(UNSIGNED, r, INT, 1);
  }

  lemma {:induction false} CmpBuilt(rel: Rel, kind: Ty, l: Tree, r: Tree)
    requires BuiltAs(kind, l) && BuiltAs(kind, r)
    ensures BuiltAs(INT, SimplifyCmp(rel, kind, l, r))
  {
    hide Root, Holds, BuiltAs, Equality, Unsigned;
    ConstsBuilt(INT);
    EqualityBuilt(rel, kind, l, r);
    if kind == UNSIGNED { UnsignedBuilt(rel, l, r); }
    CmpIsBuilt(rel, kind, l, r);
  }

  lemma {:induction false} ConditionBuilt(t: Tree)
    requires Built(t)
    ensures BuiltAs(INT, Condition(t))
  {
    hide SimplifyCmp;
    if IsCondition(RightKid(t)) {
      ConditionType(t);
    } else {
      ConstsBuilt(TypeOf(t));
      CmpBuilt(NE, TypeOf(t), t, Cnst(TypeOf(t), 0));
    }
  }

  lemma {:induction false} ConditionType(t: Tree)
    requires IsCondition(RightKid(t))
    ensures TypeOf(t) == INT
  {
    if t.Right? { ConditionType(if t.r.Nothing? then t.l else t.r); }
  }

  lemma {:induction false} OneBuilt(t: Tree, u: Tree)
    requires Built(u)
    ensures t == Neg(u) && TypeOf(u) == INT ==> BuiltAs(INT, SimplifyNeg(u))
    ensures t.Bcom? && t.t == u && TypeOf(u) == t.ty ==> BuiltAs(t.ty, SimplifyBcom(t.ty, u))
    ensures t.Cvt? && t.t == u ==> BuiltAs(t.ty, SimplifyCvt(t.ty, u))
    ensures t == Not(u) ==> BuiltAs(INT, SimplifyNot(u))
  {
  }

  lemma LogicIsBuilt(l: Tree, r: Tree)
    requires Built(l) && Built(r)
    ensures BuiltAs(INT, And(l, r)) && BuiltAs(INT, Or(l, r)) && (l.Cnst? && l.ty == INT ==> BuiltAs(INT, l))
  {
  }

  lemma {:induction false} LogicBuilt(l: Tree, r: Tree)
    requires Built(l) && Built(r)
    ensures BuiltAs(INT, SimplifyAnd(l, r)) && BuiltAs(INT, SimplifyOr(l, r))
  {
    hide Condition, BuiltAs, Built;
    ConditionBuilt(r);
    ConstsBuilt(INT);
    LogicIsBuilt(l, r);
  }

  lemma {:induction false} BuiltIs(ty: Ty, t: Tree)
    requires BuiltAs(ty, t)
    ensures Built(t) && TypeOf(t) == ty && !t.Nothing?
  {
  }

  /** What simplify makes of a tree is built, and of the tree's type. */
  lemma {:induction false} SimplifiedBuilt(t: Tree)
    requires WellTyped(t) && Solid(t)
    ensures BuiltAs(TypeOf(t), Simplified(t))
    decreases t
  {
    hide BuiltAs, SimplifyBin, SimplifyCmp, SimplifyAnd, SimplifyOr, SimplifyNeg, SimplifyBcom, SimplifyCvt,
         SimplifyNot;
    match t
    case Bin(op, ty, l, r) =>
      SimplifiedBuilt(l);
      SimplifiedBuilt(r);
      BinBuilt(op, ty, Simplified(l), Simplified(r));
    case Cmp(rel, kind, l, r) =>
      SimplifiedBuilt(l);
      SimplifiedBuilt(r);
      CmpBuilt(rel, kind, Simplified(l), Simplified(r));
    case And(l, r) => BothBuilt(t, l, r);
    case Or(l, r) => BothBuilt(t, l, r);
    case Neg(u) => KidBuilt(t, u);
    case Bcom(_, u) => KidBuilt(t, u);
    case Cvt(_, u) => KidBuilt(t, u);
    case Not(u) => KidBuilt(t, u);
    case Right(l, r) => SidesBuilt(l, r);
    case _ => LeafBuilt(t);
  }

  lemma {:induction false} LeafBuilt(t: Tree)
    requires t.Cnst? || t.Load? || t.Leaf?
    ensures BuiltAs(TypeOf(t), t)
  {
  }

  lemma {:induction false} KidBuilt(t: Tree, u: Tree)
    requires u < t && WellTyped(t) && Solid(t) && WellTyped(u) && Solid(u)
    requires t == Neg(u) || t == Bcom(TypeOf(t), u) || t == Cvt(TypeOf(t), u) || t == Not(u)
    ensures BuiltAs(TypeOf(t), Simplified(t))
    decreases t, 0
  {
    hide BuiltAs, Built, SimplifyNeg, SimplifyBcom, SimplifyCvt, SimplifyNot;
    SimplifiedBuilt(u);
    BuiltIs(TypeOf(u), Simplified(u));
    var v := Simplified(u);
    OneBuilt(if t.Neg? then Neg(v) else if t.Bcom? then Bcom(t.ty, v) else if t.Cvt? then Cvt(t.ty, v) else Not(v), v);
  }

  lemma {:induction false} BothBuilt(t: Tree, l: Tree, r: Tree)
    requires (t == And(l, r) || t == Or(l, r)) && WellTyped(l) && Solid(l) && WellTyped(r) && Solid(r)
    ensures BuiltAs(INT, SimplifyAnd(Simplified(l), Simplified(r)))
    ensures BuiltAs(INT, SimplifyOr(Simplified(l), Simplified(r)))
    decreases t, 0
  {
    hide BuiltAs, Built, SimplifyAnd, SimplifyOr;
    SimplifiedBuilt(l);
    SimplifiedBuilt(r);
    BuiltIs(TypeOf(l), Simplified(l));
    BuiltIs(TypeOf(r), Simplified(r));
    LogicBuilt(Simplified(l), Simplified(r));
  }

  lemma {:induction false} SidesBuilt(l: Tree, r: Tree)
    requires WellTyped(l) && WellTyped(r) && Solid(Right(l, r))
    ensures BuiltAs(TypeOf(Right(l, r)), Right(Simplified(l), Simplified(r)))
    decreases Right(l, r), 0
  {
    if !l.Nothing? { SimplifiedBuilt(l); }
    if !r.Nothing? { SimplifiedBuilt(r); }
    assert WellTyped(Nothing) && Folded(Nothing);
  }

  // ----- ranges -----

  /** 0 - INT_MIN and 1 << 31, which simplify folds to constants that are no ints. */
  predicate Wraps(op: T.BinOp, ty: Ty, l: Tree, r: Tree) {
    ty == INT &&
    ((op.Sub? && l == Cnst(INT, 0) && r == Cnst(INT, MIN)) || (op.Lsh? && l == Cnst(INT, 1) && r == Cnst(INT, 31)))
  }

  lemma {:induction false} BuiltOverflows(op: T.BinOp, ty: Ty, l: Tree, r: Tree)
    requires Built(l) && Built(r) && InRange(l) && InRange(r) && WellTyped(Bin(op, ty, l, r))
    ensures Overflows(op, ty, l, r) <==> Wraps(op, ty, l, r)
  {
    hide Product, ProductOverflows;
    if op.Mul? && ty == INT {
      var c, u := if Swaps(r, l) then r else l, if Swaps(r, l) then l else r;
      if c.Cnst? { NoProductOverflows(c.v, u); }
    }
  }

  /** Nowhere on the way up does simplify meet 0 - INT_MIN or 1 << 31. */
  predicate NoneWraps(t: Tree) {
    match t
    case Bin(op, ty, l, r) => NoneWraps(l) && NoneWraps(r) && !Wraps(op, ty, Simplified(l), Simplified(r))
    case Cmp(_, _, l, r) => NoneWraps(l) && NoneWraps(r)
    case Neg(u) => NoneWraps(u)
    case Bcom(_, u) => NoneWraps(u)
    case Cvt(_, u) => NoneWraps(u)
    case And(l, r) => NoneWraps(l) && NoneWraps(r)
    case Or(l, r) => NoneWraps(l) && NoneWraps(r)
    case Not(u) => NoneWraps(u)
    case Right(l, r) => NoneWraps(l) && NoneWraps(r)
    case _ => true
  }

  /** Every tree on the way up has its constants in range. */
  predicate AllInRange(t: Tree) {
    && InRange(Simplified(t))
    && match t
       case Bin(_, _, l, r) => AllInRange(l) && AllInRange(r)
       case Cmp(_, _, l, r) => AllInRange(l) && AllInRange(r)
       case Neg(u) => AllInRange(u)
       case Bcom(_, u) => AllInRange(u)
       case Cvt(_, u) => AllInRange(u)
       case And(l, r) => AllInRange(l) && AllInRange(r)
       case Or(l, r) => AllInRange(l) && AllInRange(r)
       case Not(u) => AllInRange(u)
       case Right(l, r) => AllInRange(l) && AllInRange(r)
       case _ => true
  }

  lemma {:induction false} EqualityInRange(rel: Rel, kind: Ty, l: Tree, r: Tree)
    requires InRange(l) && InRange(r)
    ensures InRange(Equality(rel, kind, l, r))
  {
    hide Holds;
  }

  lemma {:induction false} PlainInRange(rel: Rel, kind: Ty, l: Tree, r: Tree)
    requires InRange(l) && InRange(r)
    ensures InRange(Cmp(rel, kind, l, r)) && (l.Cnst? && r.Cnst? ==> InRange(Fold(rel, l, r)))
    ensures InRange(Right(Root(l), Cnst(INT, 0))) && InRange(Right(Root(l), Cnst(INT, 1)))
    ensures InRange(Right(Root(r), Cnst(INT, 0))) && InRange(Right(Root(r), Cnst(INT, 1)))
  {
    hide Holds, Root;
    assert InRange(Cnst(INT, 0)) && InRange(Cnst(INT, 1));
    RootInRange(l);
    RootInRange(r);
  }

  lemma {:induction false} CmpInRange(rel: Rel, kind: Ty, l: Tree, r: Tree)
    requires InRange(l) && InRange(r)
    ensures InRange(SimplifyCmp(rel, kind, l, r))
  {
    hide Holds, Root, Equality, InRange;
    EqualityInRange(rel, kind, l, r);
    EqualityInRange(EQ, UNSIGNED, l, r);
    EqualityInRange(NE, UNSIGNED, l, r);
    EqualityInRange(EQ, UNSIGNED, r, l);
    EqualityInRange(NE, UNSIGNED, r, l);
    PlainInRange(rel, kind, l, r);
    PlainInRange(rel, UNSIGNED, l, r);
    PlainInRange(rel, INT, l, r);
  }

  lemma {:induction false} LogicInRange(l: Tree, r: Tree)
    requires InRange(l) && InRange(r)
    ensures InRange(SimplifyAnd(l, r)) && InRange(SimplifyOr(l, r))
  {
    hide SimplifyCmp;
    CmpInRange(NE, TypeOf(r), r, Cnst(TypeOf(r), 0));
  }

  lemma {:induction false} OneInRange(ty: Ty, u: Tree)
    requires InRange(u)
    ensures InRange(SimplifyNeg(u)) && InRange(SimplifyCvt(ty, u)) && InRange(SimplifyNot(u))
    ensures InRange(SimplifyBcom(ty, u))
  {
  }

  lemma {:induction false} BinInRange(op: T.BinOp, ty: Ty, l: Tree, r: Tree)
    requires BuiltAs(ty, l) && BuiltAs(if op.Lsh? || op.Rsh? then INT else ty, r) && InRange(l) && InRange(r)
    ensures InRange(SimplifyBin(op, ty, l, r)) <==> !Wraps(op, ty, l, r)
  {
    hide Overflows, SimplifyBin, Wraps, InRange;
    SimplifyBinInRange(op, ty, l, r);
    BuiltOverflows(op, ty, l, r);
  }

  /** All the constants that simplify makes on the way up are in range exactly if nothing wraps. */
  lemma {:induction false} InRangeExactly(t: Tree)
    requires WellTyped(t) && InRange(t) && (t.Nothing? || Solid(t))
    ensures AllInRange(t) <==> NoneWraps(t)
    decreases t
  {
    hide Wraps, SimplifyBin, SimplifyCmp, SimplifyAnd, SimplifyOr, SimplifyNeg, SimplifyBcom, SimplifyCvt,
         SimplifyNot, BuiltAs, TypeOf;
    match t
    case Bin(op, ty, l, r) =>
      InRangeExactly(l);
      InRangeExactly(r);
      if AllInRange(l) && AllInRange(r) {
        KidsInRange(op, ty, l, r);
        BinInRange(op, ty, Simplified(l), Simplified(r));
      }
    case Cmp(rel, kind, l, r) =>
      InRangeExactly(l);
      InRangeExactly(r);
      if AllInRange(l) && AllInRange(r) { CmpInRange(rel, kind, Simplified(l), Simplified(r)); }
    case And(l, r) =>
      InRangeExactly(l);
      InRangeExactly(r);
      if AllInRange(l) && AllInRange(r) { LogicInRange(Simplified(l), Simplified(r)); }
    case Or(l, r) =>
      InRangeExactly(l);
      InRangeExactly(r);
      if AllInRange(l) && AllInRange(r) { LogicInRange(Simplified(l), Simplified(r)); }
    case Right(l, r) =>
      InRangeExactly(l);
      InRangeExactly(r);
    case Neg(u) =>
      InRangeExactly(u);
      if AllInRange(u) { OneInRange(INT, Simplified(u)); }
    case Bcom(ty, u) =>
      InRangeExactly(u);
      if AllInRange(u) { OneInRange(ty, Simplified(u)); }
    case Cvt(ty, u) =>
      InRangeExactly(u);
      if AllInRange(u) { OneInRange(ty, Simplified(u)); }
    case Not(u) =>
      InRangeExactly(u);
      if AllInRange(u) { OneInRange(INT, Simplified(u)); }
    case _ =>
  }

  lemma {:induction false} KidsInRange(op: T.BinOp, ty: Ty, l: Tree, r: Tree)
    requires WellTyped(Bin(op, ty, l, r)) && Solid(l) && Solid(r) && AllInRange(l) && AllInRange(r)
    ensures BuiltAs(ty, Simplified(l)) && BuiltAs(if op.Lsh? || op.Rsh? then INT else ty, Simplified(r))
    ensures InRange(Simplified(l)) && InRange(Simplified(r))
  {
    hide BuiltAs;
    SimplifiedBuilt(l);
    SimplifiedBuilt(r);
  }

  // ----- meaning -----

  /** t, with its operands replaced by trees that do the same. */
  ghost predicate KidsRefine<W>(e: Env<W>, l: Tree, l': Tree, r: Tree, r': Tree, w: W) {
    && Refines(e, l, l', w)
    && (Eval(e, l, w).Some? ==> Refines(e, r, r', Eval(e, l, w).value.1))
  }

  lemma {:induction false} CmpKidsRefine<W>(e: Env<W>, rel: Rel, kind: Ty, l: Tree, l': Tree, r: Tree, r': Tree, w: W)
    requires KidsRefine(e, l, l', r, r', w)
    ensures Refines(e, Cmp(rel, kind, l, r), Cmp(rel, kind, l', r'), w)
  {
    hide Holds;
  }

  lemma {:induction false} LogicKidsRefine<W>(e: Env<W>, l: Tree, l': Tree, r: Tree, r': Tree, w: W)
    requires KidsRefine(e, l, l', r, r', w)
    ensures Refines(e, And(l, r), And(l', r'), w) && Refines(e, Or(l, r), Or(l', r'), w)
  {
  }

  lemma {:induction false} SidesRefine<W>(e: Env<W>, l: Tree, l': Tree, r: Tree, r': Tree, w: W)
    requires KidsRefine(e, l, l', r, r', w) && (r.Nothing? <==> r'.Nothing?)
    ensures Refines(e, Right(l, r), Right(l', r'), w)
  {
  }

  lemma {:induction false} OneRefines<W>(e: Env<W>, ty: Ty, u: Tree, u': Tree, w: W)
    requires Refines(e, u, u', w)
    ensures Refines(e, Neg(u), Neg(u'), w) && Refines(e, Not(u), Not(u'), w)
    ensures Refines(e, Bcom(ty, u), Bcom(ty, u'), w) && Refines(e, Cvt(ty, u), Cvt(ty, u'), w)
  {
    hide T.Norm;
  }

  /** What simplify needs of an operand it is given. */
  ghost predicate Taken(ty: Ty, t: Tree) {
    WellTyped(t) && InRange(t) && TypeOf(t) == ty && !t.Nothing?
  }

  /** A tree as the front end starts from. */
  predicate Plain(t: Tree) {
    WellTyped(t) && InRange(t) && Solid(t) && NoneWraps(t)
  }

  lemma {:induction false} SimplifiedTaken(t: Tree)
    requires Plain(t)
    ensures Taken(TypeOf(t), Simplified(t))
  {
    SimplifiedBuilt(t);
    InRangeExactly(t);
  }

  lemma {:induction false} BinStep<W>(e: Env<W>, op: T.BinOp, ty: Ty, l: Tree, l': Tree, r: Tree, r': Tree, w: W)
    requires KidsRefine(e, l, l', r, r', w)
    requires Taken(ty, l') && Taken(if op.Lsh? || op.Rsh? then INT else ty, r')
    ensures Refines(e, Bin(op, ty, l, r), SimplifyBin(op, ty, l', r'), w)
  {
    hide Eval, SimplifyBin;
    OperandsRefine(e, op, ty, l, l', r, r', w);
    SimplifyBinRefines(e, op, ty, l', r', w);
    Transitive(e, Bin(op, ty, l, r), Bin(op, ty, l', r'), SimplifyBin(op, ty, l', r'), w);
  }

  lemma {:induction false} CmpStep<W>(e: Env<W>, rel: Rel, kind: Ty, l: Tree, l': Tree, r: Tree, r': Tree, w: W)
    requires KidsRefine(e, l, l', r, r', w) && Taken(kind, l') && Taken(kind, r')
    ensures Refines(e, Cmp(rel, kind, l, r), SimplifyCmp(rel, kind, l', r'), w)
  {
    hide Eval, SimplifyCmp;
    CmpKidsRefine(e, rel, kind, l, l', r, r', w);
    SimplifyCmpRefines(e, rel, kind, l', r', w);
    Transitive(e, Cmp(rel, kind, l, r), Cmp(rel, kind, l', r'), SimplifyCmp(rel, kind, l', r'), w);
  }

  lemma {:induction false} LogicStep<W>(e: Env<W>, ty: Ty, l: Tree, l': Tree, rty: Ty, r: Tree, r': Tree, w: W)
    requires KidsRefine(e, l, l', r, r', w) && Taken(ty, l') && Taken(rty, r')
    ensures Refines(e, And(l, r), SimplifyAnd(l', r'), w) && Refines(e, Or(l, r), SimplifyOr(l', r'), w)
  {
    hide Eval, SimplifyAnd, SimplifyOr;
    LogicKidsRefine(e, l, l', r, r', w);
    AndRefines(e, l', r', w);
    OrRefines(e, l', r', w);
    Transitive(e, And(l, r), And(l', r'), SimplifyAnd(l', r'), w);
    Transitive(e, Or(l, r), Or(l', r'), SimplifyOr(l', r'), w);
  }

  lemma {:induction false} OneStep<W>(e: Env<W>, from: Ty, ty: Ty, u: Tree, u': Tree, w: W)
    requires Refines(e, u, u', w) && Taken(from, u')
    ensures from == INT ==> Refines(e, Neg(u), SimplifyNeg(u'), w)
    ensures from == ty ==> Refines(e, Bcom(ty, u), SimplifyBcom(ty, u'), w)
    ensures Refines(e, Cvt(ty, u), SimplifyCvt(ty, u'), w) && Refines(e, Not(u), SimplifyNot(u'), w)
  {
    hide Eval, SimplifyNeg, SimplifyBcom, SimplifyCvt, SimplifyNot;
    OneRefines(e, ty, u, u', w);
    if from == INT { NegRefines(e, u', w); }
    if from == ty { BcomRefines(e, ty, u', w); }
    CvtRefines(e, ty, u', w);
    NotRefines(e, u', w);
  }

  lemma {:induction false} NothingRefines<W>(e: Env<W>, w: W)
    ensures Refines(e, Nothing, Simplified(Nothing), w)
  {
  }

  /**
   * A tree built through simplify does what the tree itself does, wherever that is defined: the
   * same effects in the same order and the same 32-bit value.
   */
  lemma {:induction false} SimplifiedRefines<W>(e: Env<W>, t: Tree, w: W)
    requires Plain(t)
    ensures Refines(e, t, Simplified(t), w)
    decreases t
  {
    hide Eval, InRange, Taken, Refines, SimplifyBin, SimplifyCmp, SimplifyAnd, SimplifyOr, SimplifyNeg, SimplifyBcom,
         SimplifyCvt, SimplifyNot, TypeOf;
    PlainKids(t);
    match t
    case Bin(op, ty, l, r) =>
      PairSimplified(e, t, l, r, w);
      BinStep(e, op, ty, l, Simplified(l), r, Simplified(r), w);
    case Cmp(rel, kind, l, r) =>
      PairSimplified(e, t, l, r, w);
      CmpStep(e, rel, kind, l, Simplified(l), r, Simplified(r), w);
    case And(l, r) =>
      PairSimplified(e, t, l, r, w);
      LogicStep(e, TypeOf(l), l, Simplified(l), TypeOf(r), r, Simplified(r), w);
    case Or(l, r) =>
      PairSimplified(e, t, l, r, w);
      LogicStep(e, TypeOf(l), l, Simplified(l), TypeOf(r), r, Simplified(r), w);
    case Right(l, r) => SidesSimplified(e, l, r, w);
    case Neg(u) => OneSimplified(e, t, u, INT, w);
    case Bcom(ty, u) => OneSimplified(e, t, u, ty, w);
    case Cvt(ty, u) => OneSimplified(e, t, u, ty, w);
    case Not(u) => OneSimplified(e, t, u, INT, w);
    case _ => LeafRefines(e, t, w);
  }

  lemma {:induction false} LeafRefines<W>(e: Env<W>, t: Tree, w: W)
    requires t.Cnst? || t.Load? || t.Leaf?
    ensures Refines(e, t, Simplified(t), w)
  {
  }

  lemma {:induction false} PlainKids(t: Tree)
    requires Plain(t)
    ensures
      match t
      case Bin(_, _, l, r) => Plain(l) && Plain(r)
      case Cmp(_, _, l, r) => Plain(l) && Plain(r)
      case And(l, r) => Plain(l) && Plain(r)
      case Or(l, r) => Plain(l) && Plain(r)
      case Neg(u) => Plain(u)
      case Bcom(_, u) => Plain(u)
      case Cvt(_, u) => Plain(u)
      case Not(u) => Plain(u)
      case Right(l, r) => (l.Nothing? || Plain(l)) && (r.Nothing? || Plain(r))
      case _ => true
  {
    hide Wraps, Simplified, TypeOf;
  }

  lemma {:induction false} PairSimplified<W>(e: Env<W>, t: Tree, l: Tree, r: Tree, w: W)
    requires l < t && r < t && Plain(l) && Plain(r)
    ensures KidsRefine(e, l, Simplified(l), r, Simplified(r), w)
    ensures Taken(TypeOf(l), Simplified(l)) && Taken(TypeOf(r), Simplified(r))
    decreases t, 0
  {
    hide Eval, Plain, Refines, Simplified, Taken;
    SimplifiedRefines(e, l, w);
    if Eval(e, l, w).Some? { SimplifiedRefines(e, r, Eval(e, l, w).value.1); }
    SimplifiedTaken(l);
    SimplifiedTaken(r);
  }

  lemma {:induction false} OneSimplified<W>(e: Env<W>, t: Tree, u: Tree, ty: Ty, w: W)
    requires Plain(u) && u < t && WellTyped(t) && (t == Neg(u) || t == Bcom(ty, u) || t == Cvt(ty, u) || t == Not(u))
    ensures Refines(e, t, Simplified(t), w)
    decreases t, 0
  {
    hide Eval, Plain, Refines, Taken, TypeOf, SimplifyNeg, SimplifyBcom, SimplifyCvt, SimplifyNot;
    SimplifiedRefines(e, u, w);
    SimplifiedTaken(u);
    OneStep(e, TypeOf(u), ty, u, Simplified(u), w);
  }

  lemma {:induction false} SidesSimplified<W>(e: Env<W>, l: Tree, r: Tree, w: W)
    requires (l.Nothing? || Plain(l)) && (r.Nothing? || Plain(r))
    ensures Refines(e, Right(l, r), Simplified(Right(l, r)), w)
    decreases Right(l, r), 0
  {
    hide Plain, Taken, TypeOf, Eval, Refines;
    NothingRefines(e, w);
    if !l.Nothing? { SimplifiedRefines(e, l, w); }
    if !r.Nothing? {
      SimplifiedTaken(r);
      TakenNot(TypeOf(r), Simplified(r));
    }
    if Eval(e, l, w).Some? {
      NothingRefines(e, Eval(e, l, w).value.1);
      if !r.Nothing? { SimplifiedRefines(e, r, Eval(e, l, w).value.1); }
    }
    SidesRefine(e, l, Simplified(l), r, Simplified(r), w);
  }

  lemma TakenNot(ty: Ty, t: Tree)
    requires Taken(ty, t)
    ensures !t.Nothing?
  {
  }
}
