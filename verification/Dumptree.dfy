// The postfix code of an expression tree computes its value.

module Dumptree {
  import opened Words
  import opened Bytecode
  import opened Machine
  import opened Trees

  /** c' is c with w pushed. */
  ghost predicate Pushed(c: Core, c': Core, w: Word) {
    && CoreOk(c) && CoreOk(c') && c'.top == c.top + 1
    && c'.ps == c.ps && c'.image == c.image && c'.breaks == c.breaks
    && c'.stack[c'.top] == w && (forall k :: 0 <= k <= c.top ==> c'.stack[k] == c.stack[k])
  }

  ghost predicate Fitting(code: seq<Instr>) {
    forall i :: 0 <= i < |code| ==> Fits(code[i].arg)
  }

  lemma {:induction false} RunBoth(host: Host, a: seq<Instr>, b: seq<Instr>, c: Core)
    requires CoreOk(c) && Fitting(a) && Fitting(b)
    ensures RunCode(host, a + b, c) ==
      match RunCode(host, a, c) case Some(c') => RunCode(host, b, c') case None => None
    decreases |a|
  {
    if a == [] {
      assert a + b == b;
    } else {
      var (c', ctl) := Effect(host, a[0].op, a[0].arg, 0, c);
      assert (a + b)[0] == a[0] && (a + b)[1..] == a[1..] + b;
      RunBoth(host, a[1..], b, c');
    }
  }

  lemma {:induction false} RunOne(host: Host, i: Instr, c: Core)
    requires CoreOk(c) && Fits(i.arg)
    ensures RunCode(host, [i], c) ==
      if Effect(host, i.op, i.arg, 0, c).1 == Next then Some(Effect(host, i.op, i.arg, 0, c).0) else None
  {
    assert [i][1..] == [];
  }

  // ----- the operators -----

  lemma {:induction false} CodeFits(t: Tree)
    requires WellTyped(t)
    ensures Fitting(Code(t))
  {
    match t
    case Indir(_, a) => CodeFits(a);
    case Neg(u) => CodeFits(u);
    case Bcom(u) => CodeFits(u);
    case Bin(_, l, r) => CodeFits(l); CodeFits(r);
    case Cvt(_, u) => CodeFits(u);
    case _ =>
  }

  /** How the word of a 4-byte value relates to it: the same modulo 2^32. */
  lemma NormWraps(ty: Ty, v: int)
    requires TyOk(ty) && ty.size == 4
    ensures Wrap(Norm(ty, v)) == Wrap(v)
  {
    var q := (v + TWO31) / TWO32;
    UPeriodic(v, -q);
    UPeriodic(v, -(v / TWO32));
  }

  lemma WrapCongruent(x: int)
    ensures U(Wrap(x)) == U(x)
  {
  }

  lemma WrapSame(x: int, y: int)
    requires U(x) == U(y)
    ensures Wrap(x) == Wrap(y)
  {
  }

  lemma SumCorrect(ty: Ty, x: int, y: int)
    requires TyOk(ty) && ty.size == 4
    ensures Wrap(Wrap(x) + Wrap(y)) == Wrap(Norm(ty, x + y))
    ensures Wrap(Wrap(x) - Wrap(y)) == Wrap(Norm(ty, x - y))
  {
    CongruentSum(Wrap(x), x, Wrap(y), y);
    NormWraps(ty, x + y);
    NormWraps(ty, x - y);
    WrapSame(Wrap(x) + Wrap(y), x + y);
    WrapSame(Wrap(x) - Wrap(y), x - y);
  }

  lemma ProductCorrect(ty: Ty, w: int, x: int, z: int, y: int)
    requires TyOk(ty) && ty.size == 4 && U(w) == U(x) && U(z) == U(y)
    ensures Wrap(w * z) == Wrap(Norm(ty, x * y))
  {
    CongruentProduct(w, x, z, y);
    NormWraps(ty, x * y);
    WrapSame(w * z, x * y);
  }

  lemma SignedDivision(host: Host, op: BinOp, x: int, y: int)
    requires InType(I4, x) && InType(I4, y) && (op.Div? || op.Mod?) && Operate(op, I4, x, y).Some?
    ensures Binary(host, OpCode(op, true), Wrap(x), Wrap(y)) == Some(Wrap(Operate(op, I4, x, y).value))
  {
    WrapOfU(x);
    WrapOfU(y);
    QuotientInRange(x, y);
    NormWraps(I4, Quot(x, y));
    NormWraps(I4, Rem(x, y));
  }

  lemma UnsignedDivision(host: Host, op: BinOp, x: int, y: int)
    requires InType(U4, x) && InType(U4, y) && (op.Div? || op.Mod?) && Operate(op, U4, x, y).Some?
    ensures Binary(host, OpCode(op, false), Wrap(x), Wrap(y)) == Some(Wrap(Operate(op, U4, x, y).value))
  {
    WrapCongruent(x);
    WrapCongruent(y);
    assert U(Wrap(x)) == x && U(Wrap(y)) == y;
    NormWraps(U4, x / y);
    NormWraps(U4, x % y);
  }

  lemma AdditiveCorrect(host: Host, op: BinOp, ty: Ty, x: int, y: int)
    requires (ty == I4 || ty == U4) && (op.Add? || op.Sub?)
    ensures Binary(host, OpCode(op, ty.signed), Wrap(x), Wrap(y)) == Some(Wrap(Operate(op, ty, x, y).value))
  {
    SumCorrect(ty, x, y);
  }

  lemma MultiplyCorrect(host: Host, ty: Ty, x: int, y: int)
    requires ty == I4 || ty == U4
    ensures Binary(host, OpCode(Mul, ty.signed), Wrap(x), Wrap(y)) == Some(Wrap(Operate(Mul, ty, x, y).value))
  {
    ProductCorrect(ty, Wrap(x), x, Wrap(y), y);
    ProductCorrect(ty, U(Wrap(x)), x, U(Wrap(y)), y);
  }

  lemma BitwiseCorrect(host: Host, op: BinOp, ty: Ty, x: int, y: int)
    requires (ty == I4 || ty == U4) && (op.BitAnd? || op.BitOr? || op.BitXor?)
    ensures Binary(host, OpCode(op, ty.signed), Wrap(x), Wrap(y)) == Some(Wrap(Operate(op, ty, x, y).value))
  {
    NormWraps(ty, And(x, y));
    NormWraps(ty, Or(x, y));
    NormWraps(ty, Xor(x, y));
  }

  lemma {:induction false} LeftShiftCorrect(host: Host, ty: Ty, x: int, y: int)
    requires (ty == I4 || ty == U4) && 0 <= y < 32
    ensures Binary(host, OP_LSH, Wrap(x), Wrap(y)) == Some(Wrap(Norm(ty, x * Pow2(y))))
  {
    WrapOfU(y);
    ProductCorrect(ty, Wrap(x), x, Pow2(y), Pow2(y));
  }

  lemma {:induction false} SignedShiftCorrect(host: Host, x: int, y: int)
    requires Fits(x) && 0 <= y < 32
    ensures Binary(host, OP_RSHI, Wrap(x), Wrap(y)) == Some(Wrap(Norm(I4, x / Pow2(y))))
  {
    assert Wrap(x) == x && Wrap(y) == y;
    NormWraps(I4, x / Pow2(y));
  }

  lemma {:induction false} UnsignedShiftCorrect(host: Host, x: int, y: int)
    requires InType(U4, x) && 0 <= y < 32
    ensures Binary(host, OP_RSHU, Wrap(x), Wrap(y)) == Some(Wrap(Norm(U4, x / Pow2(y))))
  {
    assert U(Wrap(x)) == x && Wrap(y) == y;
    NormWraps(U4, x / Pow2(y));
  }

  /** The interpreter's operator on the words of x and y gives the word of C's result. */
  lemma OperatorCorrect(host: Host, op: BinOp, ty: Ty, rty: Ty, x: int, y: int)
    requires (ty == I4 || ty == U4) && (rty == I4 || rty == U4)
    requires InType(ty, x) && InType(rty, y)
    requires op.Lsh? || op.Rsh? ==> rty == I4
    requires op.Add? || op.Sub? || op.Lsh? || op.Rsh? || rty == ty
    requires Operate(op, ty, x, y).Some?
    ensures Binary(host, OpCode(op, ty.signed), Wrap(x), Wrap(y)) == Some(Wrap(Operate(op, ty, x, y).value))
  {
    if (op.Div? || op.Mod?) && ty.signed {
      SignedDivision(host, op, x, y);
    } else if op.Div? || op.Mod? {
      UnsignedDivision(host, op, x, y);
    } else if op.Lsh? {
      LeftShiftCorrect(host, ty, x, y);
    } else if op.Rsh? {
      SignedShiftCorrect(host, if ty.signed then x else 0, y);
      UnsignedShiftCorrect(host, if ty.signed then 0 else x, y);
    } else if op.Add? || op.Sub? {
      AdditiveCorrect(host, op, ty, x, y);
    } else if op.Mul? {
      MultiplyCorrect(host, ty, x, y);
    } else {
      BitwiseCorrect(host, op, ty, x, y);
    }
  }

  // ----- expressions -----

  /** Trees whose word is exact even if their type is narrow: no bits above the type are left over. */
  predicate Exact(t: Tree) {
    TypeOf(t).size == 4 || t.Cnst? || (t.Indir? && !TypeOf(t).signed)
  }

  /**
   * q3asm emits nothing for unsigned conversions, so where an unsigned word is narrowed and
   * widened again it must not need the narrowing.
   */
  predicate CleanAt(t: Tree, c: Core)
    requires WellTyped(t) && CoreOk(c)
  {
    match t
    case Cnst(_, _) => true
    case Addr(_) => true
    case Indir(_, a) => CleanAt(a, c)
    case Neg(u) => CleanAt(u, c)
    case Bcom(u) => CleanAt(u, c)
    case Bin(_, l, r) => CleanAt(l, c) && CleanAt(r, c)
    case Cvt(ty, u) =>
      CleanAt(u, c) && (Rewidens(ty, u) ==> Eval(u.t, c).Some? && Eval(u.t, c).value < Span(u.ty))
  }

  /** A conversion to ty of an unsigned word that has just been narrowed. */
  predicate Rewidens(ty: Ty, u: Tree) {
    ty.size == 4 && !TypeOf(u).signed && !Exact(u) && u.Cvt?
  }

  /** Nothing but a conversion leaves an unsigned word with bits above its type. */
  lemma {:induction false} OnlyNarrowings(u: Tree)
    requires WellTyped(u) && !TypeOf(u).signed && !Exact(u)
    ensures u.Cvt? && TypeOf(u.t) == U4 && Exact(u.t) && CvtCode(U4, u.ty) == []
  {
  }

  lemma {:induction false} CleanSame(t: Tree, c: Core, c': Core)
    requires WellTyped(t) && CoreOk(c) && CoreOk(c') && c.image == c'.image && c.ps == c'.ps
    ensures CleanAt(t, c) == CleanAt(t, c')
  {
    match t
    case Indir(_, a) => CleanSame(a, c, c');
    case Neg(u) => CleanSame(u, c, c');
    case Bcom(u) => CleanSame(u, c, c');
    case Bin(_, l, r) => CleanSame(l, c, c'); CleanSame(r, c, c');
    case Cvt(ty, u) =>
      CleanSame(u, c, c');
      if u.Cvt? { EvalSame(u.t, c, c'); }
    case _ =>
  }

  /** How the word pushed for a tree stands for its value v. */
  ghost predicate StandsFor(t: Tree, w: Word, v: int)
    requires WellTyped(t)
  {
    if Exact(t) then w == Wrap(v) else (w - v) % Span(TypeOf(t)) == 0
  }

  lemma {:induction false} EvalInType(t: Tree, c: Core)
    requires WellTyped(t) && CoreOk(c) && Eval(t, c).Some?
    ensures InType(TypeOf(t), Eval(t, c).value)
  {
  }

  // ----- expressions onto the stack -----

  lemma PushConst(host: Host, op: int, arg: Word, c: Core)
    requires CoreOk(c) && c.top + 1 < OPSTACK && (op == OP_CONST || op == OP_LOCAL)
    ensures
      var r := Effect(host, op, arg, 0, c);
      r.1 == Next && Pushed(c, r.0, if op == OP_CONST then arg else Wrap(arg + c.ps))
  {
  }

  /** An operator on one operand replaces the word pushed. */
  lemma ReplaceTop(c: Core, c1: Core, w: Word, w': Word)
    requires Pushed(c, c1, w)
    ensures At(c1, 0) == w && Pushed(c, Put(c1, 0, w'), w')
  {
  }

  /** An operator on two operands replaces both words pushed by one. */
  lemma ReplaceTwo(c: Core, c1: Core, c2: Core, w1: Word, w2: Word, w: Word)
    requires Pushed(c, c1, w1) && Pushed(c1, c2, w2)
    ensures At(c2, -1) == w1 && At(c2, 0) == w2 && Pushed(c, Put(c2, -1, w), w)
  {
  }

  /** The core after code that pushes the value of t. */
  ghost predicate Computes(host: Host, t: Tree, c: Core)
    requires WellTyped(t) && CoreOk(c) && Eval(t, c).Some?
  {
    CodeFits(t);
    match RunCode(host, Code(t), c)
    case Some(c') => Pushed(c, c', c'.stack[c'.top]) && StandsFor(t, c'.stack[c'.top], Eval(t, c).value)
    case None => false
  }

  lemma LoadCorrect(host: Host, ty: Ty, c: Core, c1: Core, w: Word, p: int)
    requires TyOk(ty) && Pushed(c, c1, w) && w == Wrap(p)
    ensures
      var r := Effect(host, LoadOp(ty), 0, 0, c1);
      var raw := Load(c.image, Masked(c, p), ty.size);
      && r.1 == Next && Pushed(c, r.0, Wrap(raw))
      && (if ty.size == 4 || !ty.signed then Wrap(raw) == Wrap(Norm(ty, raw))
          else (Wrap(raw) - Norm(ty, raw)) % Span(ty) == 0)
  {
    WrapCongruent(p);
    ReplaceTop(c, c1, w, Wrap(Load(c.image, Masked(c, p), ty.size)));
    LoadBound(c.image[Masked(c, p)..Masked(c, p) + ty.size], ty);
    ZeroExtended(Load(c.image, Masked(c, p), ty.size), ty);
  }

  lemma {:induction false} ValueBound(b: seq<Byte>)
    ensures Value(b) < Pow256(|b|)
  {
    if b != [] { ValueBound(b[1..]); }
  }

  lemma {:induction false} LoadBound(b: seq<Byte>, ty: Ty)
    requires TyOk(ty) && |b| == ty.size
    ensures 0 <= Value(b) < Span(ty)
  {
    ValueBound(b);
    Pow256At4();
    assert Pow256(1) == 0x100 && Pow256(2) == 0x1_0000;
  }

  /** The word of a zero-extended value keeps the value's low bits, all of them if the type is unsigned. */
  lemma ZeroExtended(v: int, ty: Ty)
    requires TyOk(ty) && 0 <= v < Span(ty)
    ensures if ty.size == 4 || !ty.signed then Wrap(v) == Wrap(Norm(ty, v))
            else (Wrap(v) - Norm(ty, v)) % Span(ty) == 0
  {
    if ty.size == 4 {
      NormWraps(ty, v);
    } else if ty.signed {
      assert Norm(ty, v) == v || Norm(ty, v) == v - Span(ty);
    }
  }

  /** CVII4 from a narrow signed type: the sign extension only needs the low bits. */
  lemma SignExtended(w: Word, v: int, ty: Ty)
    requires TyOk(ty) && ty.signed && ty.size < 4 && InType(ty, v) && (w - v) % Span(ty) == 0
    ensures SignExtend(w, Span(ty) / 2) == v
  {
  }

  /** Narrowing changes no bit that counts: the word still agrees with the narrowed value. */
  lemma Narrowed(w: Word, v: int, ty: Ty)
    requires TyOk(ty) && ty.size < 4 && w == Wrap(v)
    ensures (w - Norm(ty, v)) % Span(ty) == 0
  {
    var m, h := Span(ty), if ty.signed then Span(ty) / 2 else 0;
    var i, j := (v + h) / m, WrapQuotient(v);
    assert Norm(ty, v) == v - m * i;
    assert w - Norm(ty, v) == m * i - TWO32 * j;
    if ty.size == 1 {
      ModShift(0, 0x100, i - 0x100_0000 * j);
    } else {
      ModShift(0, 0x1_0000, i - 0x1_0000 * j);
    }
  }

  function WrapQuotient(v: int): (q: int)
    ensures Wrap(v) == v - TWO32 * q
  {
    if U(v) < TWO31 then v / TWO32 else v / TWO32 + 1
  }

  /** A tree's value does not depend on the operand stack. */
  lemma {:induction false} EvalSame(t: Tree, c: Core, c': Core)
    requires WellTyped(t) && CoreOk(c) && CoreOk(c') && c.image == c'.image && c.ps == c'.ps
    ensures Eval(t, c) == Eval(t, c')
  {
    match t
    case Indir(_, a) => EvalSame(a, c, c');
    case Neg(u) => EvalSame(u, c, c');
    case Bcom(u) => EvalSame(u, c, c');
    case Bin(_, l, r) => EvalSame(l, c, c'); EvalSame(r, c, c');
    case Cvt(_, u) => EvalSame(u, c, c');
    case _ =>
  }

  /** Code that pushes w, followed by one instruction. */
  lemma {:induction false} AppendOne(host: Host, code: seq<Instr>, i: Instr, c: Core, c1: Core, c2: Core)
    requires CoreOk(c) && Fitting(code) && Fits(i.arg) && RunCode(host, code, c) == Some(c1)
    requires Effect(host, i.op, i.arg, 0, c1) == (c2, Next)
    ensures Fitting(code + [i]) && RunCode(host, code + [i], c) == Some(c2)
  {
    RunBoth(host, code, [i], c);
    RunOne(host, i, c1);
  }

  lemma {:induction false} LeafCorrect(host: Host, t: Tree, c: Core)
    requires WellTyped(t) && (t.Cnst? || t.Addr?) && CoreOk(c) && c.top + 1 < OPSTACK
    ensures Computes(host, t, c)
  {
    var i := Code(t)[0];
    PushConst(host, i.op, i.arg, c);
    RunOne(host, i, c);
    WrapOfU(0);
    if t.Addr? {
      match t.place
      case Global(a) => WrapOfU(a);
      case Local(o) => WrapOfU(o + c.ps);
    }
  }

  lemma {:induction false} IndirCorrect(host: Host, t: Tree, c: Core)
    requires WellTyped(t) && t.Indir? && CoreOk(c) && Eval(t, c).Some? && Computes(host, t.a, c)
    ensures Computes(host, t, c)
  {
    hide Effect;
    CodeFits(t.a);
    var c1 := RunCode(host, Code(t.a), c).value;
    var w, p := c1.stack[c1.top], Eval(t.a, c).value;
    LoadCorrect(host, t.ty, c, c1, w, p);
    AppendOne(host, Code(t.a), Instr(LoadOp(t.ty), 0), c, c1, Effect(host, LoadOp(t.ty), 0, 0, c1).0);
  }

  lemma UnaryEffect(host: Host, op: int, c: Core, c1: Core, w1: Word, w: Word)
    requires Pushed(c, c1, w1) && IsUnary(op) && Machine.Unary(host, op, w1) == w
    ensures Effect(host, op, 0, 0, c1) == (Put(c1, 0, w), Next) && Pushed(c, Put(c1, 0, w), w)
  {
    ReplaceTop(c, c1, w1, w);
  }

  lemma UnaryValue(host: Host, ty: Ty, x: int)
    requires TyOk(ty) && ty.size == 4
    ensures Machine.Unary(host, OP_NEGI, Wrap(x)) == Wrap(Norm(I4, -x))
    ensures Machine.Unary(host, OP_BCOM, Wrap(x)) == Wrap(Norm(ty, -1 - x))
  {
    ComplementWord(x);
    NormWraps(I4, -x);
    NormWraps(ty, -1 - x);
  }

  lemma {:induction false} UnaryCorrect(host: Host, t: Tree, u: Tree, c: Core)
    requires WellTyped(t) && (t == Neg(u) || t == Bcom(u)) && CoreOk(c) && Eval(t, c).Some? && Computes(host, u, c)
    ensures Computes(host, t, c)
  {
    hide Effect;
    CodeFits(u);
    var c1 := RunCode(host, Code(u), c).value;
    var x, op, w := Eval(u, c).value, if t.Neg? then OP_NEGI else OP_BCOM, Wrap(Eval(t, c).value);
    UnaryValue(host, TypeOf(u), x);
    UnaryEffect(host, op, c, c1, Wrap(x), w);
    AppendOne(host, Code(u), Instr(op, 0), c, c1, Put(c1, 0, w));
  }

  lemma ComplementWord(x: int)
    ensures Wrap(Com(Wrap(x))) == Wrap(-1 - x)
    ensures Wrap(0 - Wrap(x)) == Wrap(-x)
  {
    WrapCongruent(x);
    CongruentSum(0, 0, Wrap(x), x);
    CongruentSum(TWO32 - 1, -1, U(x), x);
    WrapSame(Com(Wrap(x)), -1 - x);
    WrapSame(0 - Wrap(x), -x);
  }

  lemma BinEffect(host: Host, op: int, c: Core, c1: Core, c2: Core, w1: Word, w2: Word, w: Word)
    requires Pushed(c, c1, w1) && Pushed(c1, c2, w2) && IsBinary(op) && Binary(host, op, w1, w2) == Some(w)
    ensures Effect(host, op, 0, 0, c2) == (Put(c2, -1, w), Next) && Pushed(c, Put(c2, -1, w), w)
  {
    ReplaceTwo(c, c1, c2, w1, w2, w);
  }

  lemma {:induction false} BinCorrect(host: Host, t: Tree, c: Core, c1: Core)
    requires WellTyped(t) && t.Bin? && CoreOk(c) && Eval(t, c).Some? && Computes(host, t.l, c)
    requires Fitting(Code(t.l)) && RunCode(host, Code(t.l), c) == Some(c1)
    requires Eval(t.r, c1) == Eval(t.r, c) && Computes(host, t.r, c1)
    ensures Computes(host, t, c)
  {
    hide Effect, Binary;
    CodeFits(t.r);
    var c2 := RunCode(host, Code(t.r), c1).value;
    var x, y, op := Eval(t.l, c).value, Eval(t.r, c).value, OpCode(t.op, TypeOf(t.l).signed);
    EvalInType(t.l, c);
    EvalInType(t.r, c);
    OperatorCorrect(host, t.op, TypeOf(t.l), TypeOf(t.r), x, y);
    var w := Wrap(Eval(t, c).value);
    BinEffect(host, op, c, c1, c2, Wrap(x), Wrap(y), w);
    RunBoth(host, Code(t.l), Code(t.r), c);
    AppendOne(host, Code(t.l) + Code(t.r), Instr(op, 0), c, c2, Put(c2, -1, w));
  }

  lemma {:induction false} CvtCorrect(host: Host, t: Tree, c: Core)
    requires WellTyped(t) && t.Cvt? && CoreOk(c) && Eval(t, c).Some? && Computes(host, t.t, c)
    requires !Rewidens(t.ty, t.t)
    ensures Computes(host, t, c)
  {
    hide Effect;
    CodeFits(t.t);
    var from, to, u := TypeOf(t.t), t.ty, t.t;
    var c1 := RunCode(host, Code(u), c).value;
    var w, v := c1.stack[c1.top], Eval(u, c).value;
    EvalInType(u, c);
    if to.size == 4 && !from.signed && !Exact(u) { OnlyNarrowings(u); }
    if CvtCode(from, to) == [] {
      assert Code(t) == Code(u);
      if to.size == 4 {
        NormWraps(to, v);
      } else {
        Narrowed(w, v, to);
      }
    } else {
      var op := CvtCode(from, to)[0].op;
      SignExtendStep(host, u, op, c, c1, w, v);
      AppendOne(host, Code(u), Instr(op, 0), c, c1, Put(c1, 0, Wrap(v)));
      NormWraps(to, v);
    }
  }

  lemma {:induction false} SignExtendStep(host: Host, u: Tree, op: int, c: Core, c1: Core, w: Word, v: int)
    requires WellTyped(u) && TypeOf(u).signed && InType(TypeOf(u), v) && StandsFor(u, w, v) && Pushed(c, c1, w)
    requires (TypeOf(u).size == 1 && op == OP_SEX8) || (TypeOf(u).size == 2 && op == OP_SEX16)
    ensures Effect(host, op, 0, 0, c1) == (Put(c1, 0, Wrap(v)), Next) && Pushed(c, Put(c1, 0, Wrap(v)), Wrap(v))
  {
    hide Binary, Compare, Load, Store, Masked, BlockCopied, SystemEffect, CallEffect, LeaveEffect, StandsFor, Wrap;
    StandsModulo(u, w, v);
    SignExtended(w, v, TypeOf(u));
    ReplaceTop(c, c1, w, Wrap(v));
  }

  lemma {:induction false} StandsModulo(u: Tree, w: Word, v: int)
    requires WellTyped(u) && InType(TypeOf(u), v) && TypeOf(u).signed && StandsFor(u, w, v)
    ensures (w - v) % Span(TypeOf(u)) == 0
  {
    if Exact(u) { assert w == v; ModSmall(0, Span(TypeOf(u))); }
  }

  /**
   * Narrowing an unsigned word and widening it again: both conversions are dropped, so the
   * code pushes the value C asks for exactly when the word needed no narrowing.
   */
  lemma {:induction false} RewidenedExactly(host: Host, t: Tree, c: Core)
    requires WellTyped(t) && t.Cvt? && WellTyped(t.t) && Rewidens(t.ty, t.t) && CoreOk(c) && Eval(t, c).Some?
    requires WellTyped(t.t.t) && TypeOf(t.t.t) == U4 && Eval(t.t.t, c).Some? && Computes(host, t.t.t, c)
    ensures Computes(host, t, c) <==> Eval(t.t.t, c).value < Span(t.t.ty)
  {
    var x := t.t.t;
    OnlyNarrowings(t.t);
    CodeFits(x);
    CodeFits(t);
    EvalInType(x, c);
    assert Code(t) == Code(t.t) == Code(x);
    DroppedValue(t.t.ty, t.ty, Eval(x, c).value);
  }

  /** (int)(unsigned char)256u: C has 0, the code pushes 256. */
  lemma {:induction false} DroppedNarrowing(host: Host, c: Core)
    requires CoreOk(c) && c.top + 1 < OPSTACK
    ensures
      var t := Cvt(I4, Cvt(Ty(false, 1), Cnst(U4, 256)));
      && WellTyped(t) && Eval(t, c) == Some(0) && !CleanAt(t, c) && !Computes(host, t, c)
      && Fitting(Code(t)) && RunCode(host, Code(t), c).Some? && At(RunCode(host, Code(t), c).value, 0) == 256
  {
    var x := Cnst(U4, 256);
    var u := Cvt(Ty(false, 1), x);
    var t := Cvt(I4, u);
    LeafCorrect(host, x, c);
    assert Code(t) == Code(u) == Code(x) == [Instr(OP_CONST, 256)];
    RewidenedExactly(host, t, c);
    PushConst(host, OP_CONST, 256, c);
    RunOne(host, Instr(OP_CONST, 256), c);
  }

  lemma DroppedValue(ty: Ty, to: Ty, v: int)
    requires TyOk(ty) && !ty.signed && ty.size < 4 && (to == I4 || to == U4) && InType(U4, v)
    ensures Norm(to, Norm(ty, v)) == v % Span(ty)
    ensures Wrap(v) == Wrap(v % Span(ty)) <==> v < Span(ty)
  {
    var n := v % Span(ty);
    ModSmall(n + TWO31, TWO32);
    ModSmall(v, TWO32);
    ModSmall(n, TWO32);
    if v < Span(ty) { ModSmall(v, Span(ty)); }
  }

  /**
   * The code of a tree pushes exactly its value, from any depth that leaves room for it, and
   * leaves the slots below, the memory and the frame alone, if no narrowing that q3asm drops
   * is needed.
   */
  lemma {:induction false} CodeCorrect(host: Host, t: Tree, c: Core)
    requires WellTyped(t) && CoreOk(c) && CleanAt(t, c) && Eval(t, c).Some?
    requires c.top + Need(t) < OPSTACK
    ensures Computes(host, t, c)
    decreases t, 1
  {
    hide Computes;
    match t
    case Cnst(_, _) => LeafCorrect(host, t, c);
    case Addr(_) => LeafCorrect(host, t, c);
    case Indir(_, a) =>
      CodeCorrect(host, a, c);
      IndirCorrect(host, t, c);
    case Neg(u) =>
      CodeCorrect(host, u, c);
      UnaryCorrect(host, t, u, c);
    case Bcom(u) =>
      CodeCorrect(host, u, c);
      UnaryCorrect(host, t, u, c);
    case Bin(_, l, r) =>
      CodeCorrect(host, l, c);
      BinFromBoth(host, t, c);
    case Cvt(ty, u) =>
      CodeCorrect(host, u, c);
      if Rewidens(ty, u) {
        OnlyNarrowings(u);
        CodeCorrect(host, u.t, c);
        RewidenedExactly(host, t, c);
      } else {
        CvtCorrect(host, t, c);
      }
  }

  lemma {:induction false} BinFromBoth(host: Host, t: Tree, c: Core)
    requires WellTyped(t) && t.Bin? && CoreOk(c) && CleanAt(t.r, c) && Eval(t, c).Some?
    requires c.top + Need(t) < OPSTACK && Computes(host, t.l, c)
    ensures Computes(host, t, c)
    decreases t, 0
  {
    CodeFits(t.l);
    var c1 := RunCode(host, Code(t.l), c).value;
    EvalSame(t.r, c, c1);
    CleanSame(t.r, c, c1);
    CodeCorrect(host, t.r, c1);
    BinCorrect(host, t, c, c1);
  }

  /** The code of every part of t, run by itself, pushes the value of that part. */
  ghost predicate EveryPart(host: Host, t: Tree, c: Core)
    requires WellTyped(t) && CoreOk(c) && Eval(t, c).Some?
  {
    && Computes(host, t, c)
    && match t
       case Cnst(_, _) => true
       case Addr(_) => true
       case Indir(_, a) => EveryPart(host, a, c)
       case Neg(u) => EveryPart(host, u, c)
       case Bcom(u) => EveryPart(host, u, c)
       case Bin(_, l, r) => EveryPart(host, l, c) && EveryPart(host, r, c)
       case Cvt(_, u) => EveryPart(host, u, c)
  }

  /** Clean is exactly what it takes for the code of a tree to be right in all its parts. */
  lemma {:induction false} EveryPartExactly(host: Host, t: Tree, c: Core)
    requires WellTyped(t) && CoreOk(c) && Eval(t, c).Some?
    requires c.top + Need(t) < OPSTACK
    ensures EveryPart(host, t, c) <==> CleanAt(t, c)
  {
    hide Computes;
    if CleanAt(t, c) { CodeCorrect(host, t, c); }
    match t
    case Cnst(_, _) =>
    case Addr(_) =>
    case Indir(_, a) => EveryPartExactly(host, a, c);
    case Neg(u) => EveryPartExactly(host, u, c);
    case Bcom(u) => EveryPartExactly(host, u, c);
    case Bin(_, l, r) => EveryPartExactly(host, l, c); EveryPartExactly(host, r, c);
    case Cvt(ty, u) =>
      EveryPartExactly(host, u, c);
      if Rewidens(ty, u) && CleanAt(u, c) {
        OnlyNarrowings(u);
        CodeCorrect(host, u.t, c);
        RewidenedExactly(host, t, c);
      }
  }

  // ----- forests -----

  /** The roots of a forest that store: assignments, structure copies and outgoing arguments. */
  datatype Root =
    | Asgn(ty: Ty, a: Tree, v: Tree)
    | Copy(size: Word, dst: Tree, src: Tree)
    | Arg(slot: int, v: Tree)

  predicate RootOk(r: Root) {
    match r
    case Asgn(ty, a, v) =>
      TyOk(ty) && WellTyped(a) && TypeOf(a) == U4 && WellTyped(v) && TypeOf(v).size == ty.size
    case Copy(size, dst, src) =>
      0 <= size < TWO31 - 4 && WellTyped(dst) && TypeOf(dst) == U4 && WellTyped(src) && TypeOf(src) == U4
    case Arg(slot, v) => 0 <= slot < 256 && WellTyped(v) && TypeOf(v).size == 4
  }

  /** No narrowing that q3asm drops is needed in the trees of the root. */
  predicate RootClean(r: Root, c: Core)
    requires RootOk(r) && CoreOk(c)
  {
    match r
    case Asgn(_, a, v) => CleanAt(a, c) && CleanAt(v, c)
    case Copy(_, dst, src) => CleanAt(dst, c) && CleanAt(src, c)
    case Arg(_, v) => CleanAt(v, c)
  }

  function RootNeed(r: Root): nat {
    match r
    case Asgn(_, a, v) => if Need(a) > 1 + Need(v) then Need(a) else 1 + Need(v)
    case Copy(_, d, s) => if Need(d) > 1 + Need(s) then Need(d) else 1 + Need(s)
    case Arg(_, v) => Need(v)
  }

  function RootCode(r: Root): seq<Instr>
    requires RootOk(r)
  {
    match r
    case Asgn(ty, a, v) => Code(a) + Code(v) + [Instr(StoreOp(ty), 0)]
    case Copy(size, dst, src) => Code(dst) + Code(src) + [Instr(OP_BLOCK_COPY, RoundUp4(size))]
    case Arg(slot, v) => Code(v) + [Instr(OP_ARG, slot)]
  }

  /** Memory after a root. */
  function Effects(r: Root, c: Core): Option<seq<Byte>>
    requires RootOk(r) && CoreOk(c)
  {
    match r
    case Asgn(ty, a, v) =>
      (match (Eval(a, c), Eval(v, c))
       case (Some(p), Some(x)) => Some(Store(c.image, Masked(c, p), x, ty.size))
       case _ => None)
    case Copy(size, dst, src) =>
      (match (Eval(dst, c), Eval(src, c))
       case (Some(d), Some(s)) => Some(BlockCopied(c, d, s, RoundUp4(size)).image)
       case _ => None)
    case Arg(slot, v) =>
      (match Eval(v, c)
       case Some(x) => Some(Store(c.image, Masked(c, slot + c.ps), x, 4))
       case None => None)
  }

  /** c' is c with another memory and perhaps other words above the top of the stack. */
  ghost predicate Performed(c: Core, c': Core, image: seq<Byte>) {
    && CoreOk(c) && CoreOk(c') && c'.top == c.top && c'.ps == c.ps && c'.breaks == c.breaks
    && c'.image == image && (forall k :: 0 <= k <= c.top ==> c'.stack[k] == c.stack[k])
  }

  /** A store only looks at the bits that the word of a value gets right. */
  lemma {:induction false} StoredBytes(t: Tree, w: Word, v: int)
    requires WellTyped(t) && StandsFor(t, w, v)
    ensures Bytes(w, TypeOf(t).size) == Bytes(v, TypeOf(t).size)
  {
    var ty := TypeOf(t);
    Pow256At4();
    assert Pow256(1) == 0x100 && Pow256(2) == 0x1_0000;
    if Exact(t) {
      var q := WrapQuotient(v);
      BytesCongruent(w, v, 4, -q);
      BytesPrefix(w, v, 4, ty.size);
    } else {
      BytesCongruent(w, v, ty.size, (w - v) / Span(ty));
    }
  }

  lemma {:induction false} BytesPrefix(x: int, y: int, n: nat, k: nat)
    requires Bytes(x, n) == Bytes(y, n) && k <= n
    ensures Bytes(x, k) == Bytes(y, k)
    decreases k
  {
    if k > 0 {
      assert Bytes(x, n)[0] == Bytes(y, n)[0];
      assert Bytes(x / 256, n - 1) == Bytes(x, n)[1..] == Bytes(y, n)[1..] == Bytes(y / 256, n - 1);
      BytesPrefix(x / 256, y / 256, n - 1, k - 1);
    }
  }

  /** Pushing two operands and consuming both leaves the stack as it was. */
  lemma ConsumeTwo(c: Core, c1: Core, c2: Core, w1: Word, w2: Word, image: seq<Byte>)
    requires Pushed(c, c1, w1) && Pushed(c1, c2, w2) && |image| == |c.image|
    ensures At(c2, -1) == w1 && At(c2, 0) == w2 && Performed(c, Moved(c2.(image := image), -2), image)
  {
  }

  /** Both operands of a root, pushed one after the other. */
  lemma TwoOperands(host: Host, a: Tree, v: Tree, c: Core) returns (c1: Core, c2: Core)
    requires WellTyped(a) && WellTyped(v) && CoreOk(c) && CleanAt(a, c) && CleanAt(v, c)
    requires Eval(a, c).Some? && Eval(v, c).Some?
    requires c.top + Need(a) < OPSTACK && c.top + 1 + Need(v) < OPSTACK
    ensures CoreOk(c1) && CoreOk(c2)
    ensures Fitting(Code(a) + Code(v)) && RunCode(host, Code(a) + Code(v), c) == Some(c2)
    ensures Pushed(c, c1, c1.stack[c1.top]) && StandsFor(a, c1.stack[c1.top], Eval(a, c).value)
    ensures Pushed(c1, c2, c2.stack[c2.top]) && StandsFor(v, c2.stack[c2.top], Eval(v, c).value)
  {
    CodeFits(a);
    CodeFits(v);
    CodeCorrect(host, a, c);
    c1 := RunCode(host, Code(a), c).value;
    EvalSame(v, c, c1);
    CleanSame(v, c, c1);
    CodeCorrect(host, v, c1);
    c2 := RunCode(host, Code(v), c1).value;
    RunBoth(host, Code(a), Code(v), c);
  }

  ghost predicate Does(host: Host, code: seq<Instr>, c: Core, image: seq<Byte>)
    requires CoreOk(c)
  {
    Fitting(code) && RunCode(host, code, c).Some? && Performed(c, RunCode(host, code, c).value, image)
  }

  lemma StoreEffect(host: Host, ty: Ty, c: Core, c1: Core, c2: Core, w1: Word, w2: Word)
    requires TyOk(ty) && Pushed(c, c1, w1) && Pushed(c1, c2, w2)
    ensures
      var image := Store(c.image, Masked(c, w1), w2, ty.size);
      Effect(host, StoreOp(ty), 0, 0, c2) == (Moved(c2.(image := image), -2), Next)
  {
    hide Store, Load, And, Unary, Binary, Compare, BlockCopied, SystemEffect, CallEffect, LeaveEffect;
    ConsumeTwo(c, c1, c2, w1, w2, c.image);
    SameMask(c, c2, w1);
  }

  lemma AsgnCorrect(host: Host, r: Root, c: Core)
    requires RootOk(r) && r.Asgn? && CoreOk(c) && RootClean(r, c) && Effects(r, c).Some?
        && c.top + RootNeed(r) < OPSTACK
    ensures Does(host, RootCode(r), c, Effects(r, c).value)
  {
    hide Effect;
    var c1, c2 := TwoOperands(host, r.a, r.v, c);
    var w1, w2, image := c1.stack[c1.top], c2.stack[c2.top], Effects(r, c).value;
    StoredBytes(r.v, w2, Eval(r.v, c).value);
    WrapCongruent(Eval(r.a, c).value);
    StoreEffect(host, r.ty, c, c1, c2, w1, w2);
    ConsumeTwo(c, c1, c2, w1, w2, image);
    AppendOne(host, Code(r.a) + Code(r.v), Instr(StoreOp(r.ty), 0), c, c2, Moved(c2.(image := image), -2));
  }

  lemma CopyEffect(host: Host, n: Word, c: Core, c1: Core, c2: Core, w1: Word, w2: Word)
    requires 0 <= n && Pushed(c, c1, w1) && Pushed(c1, c2, w2)
    ensures
      var image := BlockCopied(c, w1, w2, n).image;
      Effect(host, OP_BLOCK_COPY, n, 0, c2) == (Moved(c2.(image := image), -2), Next)
  {
    ConsumeTwo(c, c1, c2, w1, w2, c.image);
  }

  lemma BlockCopyByWords(c: Core, d: int, s: int, n: nat)
    requires CoreOk(c)
    ensures BlockCopied(c, Wrap(d), Wrap(s), n) == BlockCopied(c, d, s, n)
    ensures |BlockCopied(c, d, s, n).image| == |c.image|
  {
    WrapCongruent(d);
    WrapCongruent(s);
  }

  lemma CopyCorrect(host: Host, r: Root, c: Core)
    requires RootOk(r) && r.Copy? && CoreOk(c) && RootClean(r, c) && Effects(r, c).Some?
        && c.top + RootNeed(r) < OPSTACK
    ensures Does(host, RootCode(r), c, Effects(r, c).value)
  {
    var c1, c2 := TwoOperands(host, r.dst, r.src, c);
    var w1, w2, image := c1.stack[c1.top], c2.stack[c2.top], Effects(r, c).value;
    BlockCopyByWords(c, Eval(r.dst, c).value, Eval(r.src, c).value, RoundUp4(r.size));
    CopyEffect(host, RoundUp4(r.size), c, c1, c2, w1, w2);
    ConsumeTwo(c, c1, c2, w1, w2, image);
    AppendOne(host, Code(r.dst) + Code(r.src), Instr(OP_BLOCK_COPY, RoundUp4(r.size)), c, c2,
              Moved(c2.(image := image), -2));
  }

  lemma ArgEffect(host: Host, slot: Word, c: Core, c1: Core, w: Word)
    requires Pushed(c, c1, w)
    ensures
      var image := Store(c.image, Masked(c, slot + c.ps), w, 4);
      && Effect(host, OP_ARG, slot, 0, c1) == (Moved(c1.(image := image), -1), Next)
      && Performed(c, Moved(c1.(image := image), -1), image)
  {
    hide Effect, Load, Store, Performed, Masked;
    ArgMoves(host, slot, c, c1, w);
    ArgPerformed(c, c1, w, Store(c.image, Masked(c, slot + c.ps), w, 4));
  }

  lemma ArgMoves(host: Host, slot: Word, c: Core, c1: Core, w: Word)
    requires Pushed(c, c1, w)
    ensures Effect(host, OP_ARG, slot, 0, c1)
         == (Moved(c1.(image := Store(c.image, Masked(c, slot + c.ps), w, 4)), -1), Next)
  {
    hide Binary, Unary, Compare, BlockCopied, SystemEffect, CallEffect, LeaveEffect, Load, Store, Masked;
    SameMask(c, c1, slot + c.ps);
    assert At(c1, 0) == w;
  }

  lemma SameMask(c: Core, c1: Core, a: int)
    requires CoreOk(c) && CoreOk(c1) && |c1.image| == |c.image|
    ensures Masked(c1, a) == Masked(c, a)
  {
    hide And;
  }

  lemma ArgPerformed(c: Core, c1: Core, w: Word, image: seq<Byte>)
    requires Pushed(c, c1, w) && |image| == |c.image|
    ensures Performed(c, Moved(c1.(image := image), -1), image)
  {
  }

  lemma {:induction false} StoreByWord(image: seq<Byte>, a: nat, t: Tree, w: Word, v: int)
    requires WellTyped(t) && StandsFor(t, w, v) && a + TypeOf(t).size <= |image|
    ensures Store(image, a, w, TypeOf(t).size) == Store(image, a, v, TypeOf(t).size)
  {
    StoredBytes(t, w, v);
  }

  lemma ArgCorrect(host: Host, r: Root, c: Core)
    requires RootOk(r) && r.Arg? && CoreOk(c) && RootClean(r, c) && Effects(r, c).Some? && c.top + RootNeed(r) < OPSTACK
    ensures Does(host, RootCode(r), c, Effects(r, c).value)
  {
    hide Effect, Store;
    CodeFits(r.v);
    CodeCorrect(host, r.v, c);
    var c1, x := RunCode(host, Code(r.v), c).value, Eval(r.v, c).value;
    var w := c1.stack[c1.top];
    assert Pushed(c, c1, w) && StandsFor(r.v, w, x);
    ArgStored(host, Code(r.v), r.slot, r.v, c, c1, w, x);
  }

  lemma {:induction false} ArgStored(host: Host, code: seq<Instr>, slot: Word, v: Tree, c: Core, c1: Core, w: Word,
                                     x: int)
    requires CoreOk(c) && WellTyped(v) && TypeOf(v).size == 4 && StandsFor(v, w, x)
    requires Fitting(code) && RunCode(host, code, c) == Some(c1) && Pushed(c, c1, w)
    ensures Does(host, code + [Instr(OP_ARG, slot)], c, Store(c.image, Masked(c, slot + c.ps), x, 4))
  {
    var image := Store(c.image, Masked(c, slot + c.ps), x, 4);
    StoreByWord(c.image, Masked(c, slot + c.ps), v, w, x);
    ArgEffect(host, slot, c, c1, w);
    AppendOne(host, code, Instr(OP_ARG, slot), c, c1, Moved(c1.(image := image), -1));
  }

  function ForestCode(f: seq<Root>): seq<Instr>
    requires forall i :: 0 <= i < |f| ==> RootOk(f[i])
  {
    if f == [] then [] else RootCode(f[0]) + ForestCode(f[1..])
  }

  /** Memory after the roots of a forest, performed in order. */
  function Perform(f: seq<Root>, c: Core): Option<seq<Byte>>
    requires CoreOk(c) && forall i :: 0 <= i < |f| ==> RootOk(f[i])
    decreases |f|
  {
    if f == [] then Some(c.image)
    else match Effects(f[0], c)
      case Some(image) => if |image| == |c.image| then Perform(f[1..], c.(image := image)) else None
      case None => None
  }

  /** Every root is clean in the memory the roots before it leave. */
  predicate ForestClean(f: seq<Root>, c: Core)
    requires CoreOk(c) && forall i :: 0 <= i < |f| ==> RootOk(f[i])
    decreases |f|
  {
    f != [] ==>
      && RootClean(f[0], c)
      && match Effects(f[0], c)
         case Some(image) => |image| == |c.image| ==> ForestClean(f[1..], c.(image := image))
         case None => true
  }

  lemma {:induction false} ForestCleanSame(f: seq<Root>, c: Core, c': Core)
    requires CoreOk(c) && CoreOk(c') && c.image == c'.image && c.ps == c'.ps
    requires forall i :: 0 <= i < |f| ==> RootOk(f[i])
    ensures ForestClean(f, c) == ForestClean(f, c')
    decreases |f|
  {
    hide Effects, CleanAt;
    if f != [] {
      EffectsSame(f[0], c, c');
      RootCleanSame(f[0], c, c');
      if Effects(f[0], c).Some? && |Effects(f[0], c).value| == |c.image| {
        ForestCleanSame(f[1..], c.(image := Effects(f[0], c).value), c'.(image := Effects(f[0], c).value));
      }
    }
  }

  lemma RootCleanSame(r: Root, c: Core, c': Core)
    requires CoreOk(c) && CoreOk(c') && c.image == c'.image && c.ps == c'.ps && RootOk(r)
    ensures RootClean(r, c) == RootClean(r, c')
  {
    hide CleanAt;
    match r
    case Asgn(_, a, v) => CleanSame(a, c, c'); CleanSame(v, c, c');
    case Copy(_, d, s) => CleanSame(d, c, c'); CleanSame(s, c, c');
    case Arg(_, v) => CleanSame(v, c, c');
  }

  lemma {:induction false} PerformSame(f: seq<Root>, c: Core, c': Core)
    requires CoreOk(c) && CoreOk(c') && c.image == c'.image && c.ps == c'.ps
    requires forall i :: 0 <= i < |f| ==> RootOk(f[i])
    ensures Perform(f, c) == Perform(f, c')
    decreases |f|
  {
    if f != [] {
      EffectsSame(f[0], c, c');
      if Effects(f[0], c).Some? && |Effects(f[0], c).value| == |c.image| {
        PerformSame(f[1..], c.(image := Effects(f[0], c).value), c'.(image := Effects(f[0], c).value));
      }
    }
  }

  lemma EffectsSame(r: Root, c: Core, c': Core)
    requires CoreOk(c) && CoreOk(c') && c.image == c'.image && c.ps == c'.ps && RootOk(r)
    ensures Effects(r, c) == Effects(r, c')
  {
    hide Store, Eval;
    match r
    case Asgn(_, a, v) => EvalSame(a, c, c'); EvalSame(v, c, c');
    case Copy(_, d, s) => EvalSame(d, c, c'); EvalSame(s, c, c');
    case Arg(_, v) => EvalSame(v, c, c');
  }

  /** The code of a forest performs its stores in order and leaves the operand stack as it found it. */
  lemma {:induction false} ForestCorrect(host: Host, f: seq<Root>, c: Core)
    requires CoreOk(c) && forall i :: 0 <= i < |f| ==> RootOk(f[i]) && c.top + RootNeed(f[i]) < OPSTACK
    requires Perform(f, c).Some? && ForestClean(f, c)
    ensures Does(host, ForestCode(f), c, Perform(f, c).value)
    decreases |f|
  {
    hide Effect, Effects, RootClean;
    if f != [] {
      var r, image := f[0], Effects(f[0], c).value;
      match r {
        case Asgn(_, _, _) => AsgnCorrect(host, r, c);
        case Copy(_, _, _) => CopyCorrect(host, r, c);
        case Arg(_, _) => ArgCorrect(host, r, c);
      }
      var c1 := RunCode(host, RootCode(r), c).value;
      PerformSame(f[1..], c.(image := image), c1);
      ForestCleanSame(f[1..], c.(image := image), c1);
      ForestCorrect(host, f[1..], c1);
      RunBoth(host, RootCode(r), ForestCode(f[1..]), c);
    }
  }
}
