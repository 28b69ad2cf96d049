// Code for a switch: lcc/src/stmt.c, swgen, swcode and cmp, and the jump table
// filled by emitcode in lcc/src/dag.c.

module SwitchCode {
  import opened Comparisons
  import opened SwitchCases
  import opened SwitchBuckets

  datatype Instr =
    | Cmp(rel: Rel, n: int, lab: Lab)
    | Jump(lab: Lab)
    | Define(lab: Lab)
    | Table(values: seq<int>, labels: seq<Lab>, deflab: Lab)

  // ----- what the code does -----

  /**
   * Exit(lab): control leaves the code for a label it does not define.
   * Stray: a jump table was indexed outside its bounds.
   * Backward: a jump to a label already passed. FellOff: ran past the end.
   */
  datatype Outcome = Exit(lab: Lab) | Stray | Backward | FellOff

  /** Jump table entry i is for operand values[0] + i. */
  function JumpTable(values: seq<int>, labels: seq<Lab>, deflab: Lab): seq<Lab>
    requires |values| == |labels| && 0 < |values| && Increasing(values)
  {
    seq(values[|values| - 1] - values[0] + 1, i => Lookup(values, labels, deflab, values[0] + i))
  }

  predicate TableOk(values: seq<int>, labels: seq<Lab>) {
    |values| == |labels| && 0 < |values| && Increasing(values)
  }

  /** Runs the code with operand x; seen holds the labels defined before it. */
  function Exec(seen: set<Lab>, code: seq<Instr>, x: int): Outcome
    decreases |code|, 1
  {
    if code == [] then FellOff
    else match code[0]
      case Cmp(rel, n, lab) =>
        if Holds(rel, x, n) then Branch(seen, code[1..], lab, x) else Exec(seen, code[1..], x)
      case Jump(lab) => Branch(seen, code[1..], lab, x)
      case Define(lab) => Exec(seen + {lab}, code[1..], x)
      case Table(values, labels, deflab) =>
        if TableOk(values, labels) && 0 <= x - values[0] < |JumpTable(values, labels, deflab)|
        then Branch(seen, code[1..], JumpTable(values, labels, deflab)[x - values[0]], x)
        else Stray
  }

  function Branch(seen: set<Lab>, code: seq<Instr>, lab: Lab, x: int): Outcome
    decreases |code|, 2
  {
    if lab in seen then Backward else Forward(seen, code, lab, x)
  }

  /** Continues at the first definition of lab in code. */
  function Forward(seen: set<Lab>, code: seq<Instr>, lab: Lab, x: int): Outcome
    decreases |code|, 0
  {
    if code == [] then Exit(lab)
    else if code[0] == Define(lab) then Exec(seen + {lab}, code[1..], x)
    else Forward(seen + Defs(code[..1]), code[1..], lab, x)
  }

  function Defs(code: seq<Instr>): set<Lab> {
    set i | 0 <= i < |code| && code[i].Define? :: code[i].lab
  }

  lemma DefsConcat(a: seq<Instr>, b: seq<Instr>)
    ensures Defs(a + b) == Defs(a) + Defs(b)
  {
    forall l | l in Defs(a) + Defs(b) ensures l in Defs(a + b) {
      if l in Defs(a) {
        var i :| 0 <= i < |a| && a[i] == Define(l);
        assert (a + b)[i] == Define(l);
      } else {
        var i :| 0 <= i < |b| && b[i] == Define(l);
        assert (a + b)[|a| + i] == Define(l);
      }
    }
  }

  /** A search for lab passes over code that does not define it. */
  lemma {:induction false} SkipOver(seen: set<Lab>, a: seq<Instr>, post: seq<Instr>, lab: Lab, x: int)
    requires lab !in Defs(a)
    decreases |a|
    ensures Forward(seen, a + post, lab, x) == Forward(seen + Defs(a), post, lab, x)
  {
    if a == [] {
      assert a + post == post && seen + Defs(a) == seen;
    } else {
      assert (a + post)[..1] == a[..1] && (a + post)[1..] == a[1..] + post;
      assert a == a[..1] + a[1..];
      DefsConcat(a[..1], a[1..]);
      assert seen + Defs(a) == seen + Defs(a[..1]) + Defs(a[1..]);
      assert a[0] != Define(lab) by { assert a[0].Define? ==> a[0].lab in Defs(a); }
      SkipOver(seen + Defs(a[..1]), a[1..], post, lab, x);
    }
  }

  // ----- the code emitted -----

  /** The operand's type only matters by its signedness. */
  datatype Switch = Switch(values: seq<int>, labels: seq<Lab>, deflab: Lab, isUnsigned: bool)

  ghost predicate Ok(s: Switch, b: seq<int>) {
    && |s.values| == |s.labels| && Increasing(s.values)
    && |b| >= 2 && Partition(b, |s.values|)
  }

  /** One equality test per case l..u. */
  function Tests(s: Switch, l: int, u: int): seq<Instr>
    requires |s.values| == |s.labels| && 0 <= l <= u + 1 <= |s.values|
    decreases u - l + 1
  {
    if l > u then [] else [Cmp(EQ, s.values[l], s.labels[l])] + Tests(s, l + 1, u)
  }

  predicate LowTest(s: Switch, l: int)
    requires 0 <= l < |s.values|
  {
    !s.isUnsigned || s.values[l] != 0
  }

  /** The code of the bucket l..u, which stands below and above others as the flags say. */
  function BucketCode(s: Switch, l: int, u: int, below: bool, above: bool, lolab: Lab, hilab: Lab): seq<Instr>
    requires |s.values| == |s.labels| && 0 <= l <= u < |s.values|
  {
    if u - l + 1 <= 3 then
      Tests(s, l, u)
      + (if below then [Cmp(GT, s.values[u], hilab)]
         else if above then [Cmp(LT, s.values[l], lolab)]
         else [Jump(lolab)])
    else
      (if LowTest(s, l) then [Cmp(LT, s.values[l], lolab)] else [])
      + [Cmp(GT, s.values[u], hilab), Table(s.values[l..u + 1], s.labels[l..u + 1], s.deflab)]
  }

  datatype Emitted = Emitted(code: seq<Instr>, next: Lab)

  function LoLab(s: Switch, below: bool, next: Lab): Lab {
    if below then next else s.deflab
  }

  function HiLab(s: Switch, below: bool, above: bool, next: Lab): Lab {
    if !above then s.deflab else if below then next + 1 else next
  }

  /** The next unused label after a bucket: its branch labels, then the name of its table. */
  function AfterBucket(l: int, u: int, below: bool, above: bool, next: Lab): Lab {
    next + (if below then 1 else 0) + (if above then 1 else 0) + (if u - l + 1 <= 3 then 0 else 1)
  }

  /** The binary decision tree over buckets lb..ub, from unused label next on. */
  function Emit(s: Switch, b: seq<int>, lb: int, ub: int, next: Lab): Emitted
    requires Ok(s, b) && 0 <= lb <= ub < |b| - 1
    decreases ub - lb, 2
  {
    EmitAt(s, b, lb, ub, (lb + ub) / 2, next)
  }

  /** Bucket k first, then the subtrees of the buckets below and above it. */
  function EmitAt(s: Switch, b: seq<int>, lb: int, ub: int, k: int, next: Lab): Emitted
    requires Ok(s, b) && 0 <= lb <= k <= ub < |b| - 1
    decreases ub - lb, 1
  {
    var own := OwnCode(s, b, lb, ub, k, next);
    var left := LeftOf(s, b, lb, ub, k, next);
    var right := SubTree(s, b, k + 1, ub, HiLab(s, k > lb, k < ub, next), left.next);
    Emitted(own + left.code + right.code, right.next)
  }

  function OwnCode(s: Switch, b: seq<int>, lb: int, ub: int, k: int, next: Lab): seq<Instr>
    requires Ok(s, b) && 0 <= lb <= k <= ub < |b| - 1
  {
    BucketCode(s, b[k], b[k + 1] - 1, k > lb, k < ub, LoLab(s, k > lb, next), HiLab(s, k > lb, k < ub, next))
  }

  function LeftOf(s: Switch, b: seq<int>, lb: int, ub: int, k: int, next: Lab): Emitted
    requires Ok(s, b) && 0 <= lb <= k <= ub < |b| - 1
    decreases ub - lb, 0
  {
    SubTree(s, b, lb, k - 1, LoLab(s, k > lb, next), AfterBucket(b[k], b[k + 1] - 1, k > lb, k < ub, next))
  }

  /** The code of buckets lb..ub, if any, under its label. */
  function SubTree(s: Switch, b: seq<int>, lb: int, ub: int, lab: Lab, next: Lab): Emitted
    requires Ok(s, b) && 0 <= lb && ub < |b| - 1
    decreases ub - lb, 3
  {
    if lb > ub then Emitted([], next)
    else
      var e := Emit(s, b, lb, ub, next);
      Emitted([Define(lab)] + e.code, e.next)
  }

  lemma Associate<T>(a: seq<T>, b: seq<T>, c: seq<T>)
    ensures a + b + c == a + (b + c)
  {
  }

  lemma Regroup<T>(a: seq<T>, b: seq<T>, c: seq<T>, d: seq<T>)
    ensures a + b + c + d == a + (b + c + d)
  {
  }

  /** The codelist and the label counter of the compiler. */
  class Generator {
    var code: seq<Instr>
    var next: Lab

    constructor (next: Lab)
      ensures code == [] && this.next == next
    {
      code, this.next := [], next;
    }

    method GenLabel(n: nat) returns (lab: Lab)
      modifies this`next
      ensures lab == old(next) && next == old(next) + n
    {
      next := next + n;
      lab := next - n;
    }

    method Append(i: Instr)
      modifies this`code
      ensures code == old(code) + [i]
    {
      code := code + [i];
    }

    method EqualityTests(s: Switch, l: int, u: int)
      requires |s.values| == |s.labels| && 0 <= l <= u < |s.values|
      modifies this`code
      ensures code == old(code) + Tests(s, l, u)
    {
      var i := l;
      while i <= u
        invariant l <= i <= u + 1
        invariant code + Tests(s, i, u) == old(code) + Tests(s, l, u)
      {
        assert code + ([Cmp(EQ, s.values[i], s.labels[i])] + Tests(s, i + 1, u))
            == (code + [Cmp(EQ, s.values[i], s.labels[i])]) + Tests(s, i + 1, u);
        Append(Cmp(EQ, s.values[i], s.labels[i]));
        i := i + 1;
      }
    }

    method BucketTests(s: Switch, l: int, u: int, below: bool, above: bool, lolab: Lab, hilab: Lab)
      requires |s.values| == |s.labels| && 0 <= l <= u < |s.values|
      modifies this
      ensures code == old(code) + BucketCode(s, l, u, below, above, lolab, hilab)
      ensures next == old(next) + if u - l + 1 <= 3 then 0 else 1
    {
      if u - l + 1 <= 3 {
        EqualityTests(s, l, u);
        if below && above {
          Append(Cmp(GT, s.values[u], hilab));
        } else if below {
          Append(Cmp(GT, s.values[u], hilab));
        } else if above {
          Append(Cmp(LT, s.values[l], lolab));
        } else {
          Append(Jump(lolab));
        }
      } else {
        var table := GenLabel(1);
        if !s.isUnsigned || s.values[l] != 0 {
          Append(Cmp(LT, s.values[l], lolab));
        }
        Append(Cmp(GT, s.values[u], hilab));
        Append(Table(s.values[l..u + 1], s.labels[l..u + 1], s.deflab));
      }
    }

    method BranchLabels(s: Switch, below: bool, above: bool) returns (lolab: Lab, hilab: Lab)
      modifies this`next
      ensures lolab == LoLab(s, below, old(next)) && hilab == HiLab(s, below, above, old(next))
      ensures next == old(next) + (if below then 1 else 0) + (if above then 1 else 0)
    {
      lolab, hilab := s.deflab, s.deflab;
      if below && above {
        lolab := GenLabel(1);
        hilab := GenLabel(1);
      } else if below {
        lolab := GenLabel(1);
      } else if above {
        hilab := GenLabel(1);
      }
    }

    method SubTrees(s: Switch, b: seq<int>, lb: int, ub: int, lab: Lab)
      requires Ok(s, b) && 0 <= lb && ub < |b| - 1
      modifies this
      ensures code == old(code) + SubTree(s, b, lb, ub, lab, old(next)).code
      ensures next == SubTree(s, b, lb, ub, lab, old(next)).next
      decreases ub - lb, 2
    {
      if lb <= ub {
        ghost var e := Emit(s, b, lb, ub, next);
        Append(Define(lab));
        SwCode(s, b, lb, ub);
        Associate(old(code), [Define(lab)], e.code);
      } else {
        assert code == old(code) + [];
      }
    }

    method Branches(s: Switch, b: seq<int>, lb: int, ub: int, k: int)
      requires Ok(s, b) && 0 <= lb <= k <= ub < |b| - 1
      modifies this
      ensures code == old(code) + EmitAt(s, b, lb, ub, k, old(next)).code
      ensures next == EmitAt(s, b, lb, ub, k, old(next)).next
      decreases ub - lb, 0
    {
      ghost var own, left := OwnCode(s, b, lb, ub, k, next), LeftOf(s, b, lb, ub, k, next);
      var lolab, hilab := BranchLabels(s, k > lb, k < ub);
      BucketTests(s, b[k], b[k + 1] - 1, k > lb, k < ub, lolab, hilab);
      SubTrees(s, b, lb, k - 1, lolab);
      ghost var right := SubTree(s, b, k + 1, ub, hilab, next);
      SubTrees(s, b, k + 1, ub, hilab);
      Regroup(old(code), own, left.code, right.code);
    }

    method SwCode(s: Switch, b: seq<int>, lb: int, ub: int)
      requires Ok(s, b) && 0 <= lb <= ub < |b| - 1
      modifies this
      ensures code == old(code) + Emit(s, b, lb, ub, old(next)).code
      ensures next == Emit(s, b, lb, ub, old(next)).next
      decreases ub - lb, 1
    {
      Branches(s, b, lb, ub, (lb + ub) / 2);
    }
  }
}
