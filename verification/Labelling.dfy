// What _label computes for a tree: the least cost of deriving it from each
// nonterminal (lcc/src/dagcheck.c).

module Labelling {
  import opened Grammar

  /** The cost of a nonterminal that has not been derived. */
  const UNSET := 0x7fff

  datatype Tree = Null | Term(op: nat, left: Tree, right: Tree)

  // ---- derivations by the grammar

  /** Use applies a rule; Stop stands for a kid the rule does not have. */
  datatype Deriv = Stop | Use(rule: nat, first: Deriv, second: Deriv)

  /** d derives t from the nonterminal nt. */
  predicate Derives(d: Deriv, t: Tree, nt: nat)
    decreases d
  {
    && d.Use?
    && match RuleOf(d.rule)
       case NoRule => false
       case Chain(lhs, rhs, _) => lhs == nt && d.second.Stop? && Derives(d.first, t, rhs)
       case Base(lhs, op, kids) =>
         && lhs == nt && t.Term? && t.op == op
         && (if |kids| >= 1 then Derives(d.first, t.left, kids[0]) else d.first.Stop?)
         && (if |kids| >= 2 then Derives(d.second, t.right, kids[1]) else d.second.Stop?)
  }

  function Price(n: nat): nat {
    match RuleOf(n)
    case Chain(_, _, price) => price
    case _ => 0
  }

  function DerivCost(d: Deriv): nat {
    if d.Stop? then 0 else Price(d.rule) + DerivCost(d.first) + DerivCost(d.second)
  }

  /** Some step of d coerces one type to another through bogus (rules 11 to 22). */
  predicate UsesBogus(d: Deriv) {
    d.Use? && (11 <= d.rule <= 22 || UsesBogus(d.first) || UsesBogus(d.second))
  }

  /** _label meets neither a null tree nor a bad terminal. */
  predicate Labelable(t: Tree) {
    && t.Term?
    && Arm(t.op) != []
    && (Arity(t.op) >= 1 ==> Labelable(t.left))
    && (Arity(t.op) >= 2 ==> Labelable(t.right))
  }

  // ---- cost vectors

  predicate Vector(cost: seq<int>) {
    |cost| == 9 && forall m :: 1 <= m <= 8 ==> 0 <= cost[m] <= UNSET
  }

  function Min(a: int, b: int): int { if a <= b then a else b }

  /** The cost of the cheapest chain of chain rules by which nt gives m. */
  function Dist(nt: nat, m: nat): nat {
    if nt == m then 0
    else if nt == STMT then UNSET
    else if m == STMT then if nt == V then 0 else if nt == BOGUS then 1 else 2
    else if nt == BOGUS || m == BOGUS then 1
    else 2
  }

  /** The costs once nt can be derived at cost c. */
  function Relax(cost: seq<int>, nt: nat, c: nat): (r: seq<int>)
    requires Vector(cost)
    ensures Vector(r)
  {
    seq(9, m requires 0 <= m < 9 => if m == 0 then cost[0] else Min(cost[m], c + Dist(nt, m)))
  }

  /** No chain rule can lower a cost further. */
  predicate Closed(cost: seq<int>)
    requires Vector(cost)
  {
    && cost[STMT] <= cost[V]
    && ClosedAt(cost, P) && ClosedAt(cost, V) && ClosedAt(cost, I)
    && ClosedAt(cost, U) && ClosedAt(cost, F) && ClosedAt(cost, B)
  }

  predicate ClosedAt(cost: seq<int>, m: nat)
    requires Vector(cost) && IsGoal(m)
  {
    cost[m] <= cost[BOGUS] + 1 && cost[BOGUS] <= cost[m] + 1
  }

  lemma RelaxAt(cost: seq<int>, nt: nat, c: nat, m: nat)
    requires Vector(cost) && 1 <= m < 9
    ensures Relax(cost, nt, c)[m] == Min(cost[m], c + Dist(nt, m))
  {
  }

  lemma RelaxClosesAt(cost: seq<int>, nt: nat, c: nat, m: nat)
    requires Vector(cost) && IsGoal(nt) && (IsValue(m) || m == V)
    requires ClosedAt(cost, m)
    ensures ClosedAt(Relax(cost, nt, c), m)
  {
  }

  lemma RelaxCloses(cost: seq<int>, nt: nat, c: nat)
    requires Vector(cost) && Closed(cost) && IsGoal(nt)
    ensures Closed(Relax(cost, nt, c))
    ensures forall m :: 1 <= m <= 8 ==> Relax(cost, nt, c)[m] <= cost[m]
  {
    hide Relax, ClosedAt;
    forall m | 1 <= m <= 8 ensures Relax(cost, nt, c)[m] <= cost[m] {
      RelaxAt(cost, nt, c, m);
    }
    RelaxAt(cost, nt, c, STMT);
    RelaxAt(cost, nt, c, V);
    RelaxClosesAt(cost, nt, c, P);
    RelaxClosesAt(cost, nt, c, V);
    RelaxClosesAt(cost, nt, c, I);
    RelaxClosesAt(cost, nt, c, U);
    RelaxClosesAt(cost, nt, c, F);
    RelaxClosesAt(cost, nt, c, B);
  }

  lemma ClosedChain(cost: seq<int>, n: nat)
    requires Vector(cost) && Closed(cost)
    requires RuleOf(n).Chain?
    ensures IsGoal(RuleOf(n).lhs) && IsGoal(RuleOf(n).rhs)
    ensures cost[RuleOf(n).lhs] <= cost[RuleOf(n).rhs] + RuleOf(n).price
  {
    hide RuleOf;
    ChainShape(n);
  }

  // ---- the costs of a node from the costs of its kids

  function KidCost(cost: seq<int>, nt: nat): (c: nat)
    requires Vector(cost) && IsGoal(nt)
  {
    cost[nt]
  }

  /** What the kids of one attempt cost together. */
  function KidSum(kids: seq<nat>, left: seq<int>, right: seq<int>): (c: nat)
    requires Vector(left) && Vector(right)
    requires |kids| <= 2 && forall k :: 0 <= k < |kids| ==> IsGoal(kids[k])
  {
    (if |kids| >= 1 then KidCost(left, kids[0]) else 0) + (if |kids| >= 2 then KidCost(right, kids[1]) else 0)
  }

  function TryOne(cost: seq<int>, e: Try, left: seq<int>, right: seq<int>): (r: seq<int>)
    requires Vector(cost) && Vector(left) && Vector(right)
    requires IsGoal(e.lhs) && |e.kids| <= 2 && forall k :: 0 <= k < |e.kids| ==> IsGoal(e.kids[k])
    ensures Vector(r)
  {
    var c := KidSum(e.kids, left, right);
    if c < cost[e.lhs] then Relax(cost, e.lhs, c) else cost
  }

  /** The costs after the first n attempts of the arm for op. */
  function AfterTries(op: nat, n: nat, left: seq<int>, right: seq<int>): (r: seq<int>)
    requires Vector(left) && Vector(right)
    requires n <= |Arm(op)|
    ensures Vector(r)
  {
    if n == 0 then Unset()
    else
      hide Arm, RuleOf, TryOne;
      ArmFollowsGrammar(op, n - 1);
      TryOne(AfterTries(op, n - 1, left, right), Arm(op)[n - 1], left, right)
  }

  function Unset(): (r: seq<int>)
    ensures Vector(r) && Closed(r)
  {
    seq(9, _ => UNSET)
  }

  /** The costs _label leaves in the state of a node with this tree below it. */
  function Costs(t: Tree): (r: seq<int>)
    ensures Vector(r)
  {
    if t.Null? || Arm(t.op) == [] then Unset()
    else AfterTries(t.op, |Arm(t.op)|,
                    if Arity(t.op) >= 1 then Costs(t.left) else Unset(),
                    if Arity(t.op) >= 2 then Costs(t.right) else Unset())
  }

  function LeftCosts(t: Tree): (r: seq<int>)
    requires t.Term?
    ensures Vector(r)
  {
    if Arity(t.op) >= 1 then Costs(t.left) else Unset()
  }

  function RightCosts(t: Tree): (r: seq<int>)
    requires t.Term?
    ensures Vector(r)
  {
    if Arity(t.op) >= 2 then Costs(t.right) else Unset()
  }

  lemma {:induction false} CostsOf(t: Tree)
    requires t.Term? && Arm(t.op) != []
    ensures Costs(t) == AfterTries(t.op, |Arm(t.op)|, LeftCosts(t), RightCosts(t))
  {
  }

  lemma {:induction false} AfterTriesZero(op: nat, left: seq<int>, right: seq<int>)
    requires Vector(left) && Vector(right)
    ensures AfterTries(op, 0, left, right) == Unset()
  {
  }

  lemma AfterTriesNext(op: nat, n: nat, left: seq<int>, right: seq<int>)
    requires Vector(left) && Vector(right)
    requires n < |Arm(op)| && GoodTry(Arm(op)[n], op)
    ensures AfterTries(op, n + 1, left, right) == TryOne(AfterTries(op, n, left, right), Arm(op)[n], left, right)
  {
    hide Arm, RuleOf, TryOne;
  }

  lemma {:induction false} AfterTriesClosed(op: nat, n: nat, left: seq<int>, right: seq<int>)
    requires Vector(left) && Vector(right)
    requires n <= |Arm(op)|
    ensures Closed(AfterTries(op, n, left, right))
  {
    hide Arm, RuleOf, Relax, Closed, KidSum;
    if n > 0 {
      AfterTriesClosed(op, n - 1, left, right);
      ArmFollowsGrammar(op, n - 1);
      var e := Arm(op)[n - 1];
      RelaxCloses(AfterTries(op, n - 1, left, right), e.lhs, KidSum(e.kids, left, right));
    }
  }

  /** Every attempt of the arm bounds the cost of its left side. */
  lemma {:induction false} TriesBound(op: nat, n: nat, i: nat, left: seq<int>, right: seq<int>)
    requires Vector(left) && Vector(right)
    requires i < n <= |Arm(op)|
    ensures GoodTry(Arm(op)[i], op)
    ensures AfterTries(op, n, left, right)[Arm(op)[i].lhs] <= KidSum(Arm(op)[i].kids, left, right)
  {
    hide Arm, RuleOf, Closed, KidSum;
    ArmFollowsGrammar(op, i);
    ArmFollowsGrammar(op, n - 1);
    if i < n - 1 {
      TriesBound(op, n - 1, i, left, right);
    }
  }

  lemma {:induction false} CostsClosed(t: Tree)
    ensures Closed(Costs(t))
  {
    hide Arm, AfterTries, Closed;
    if t.Term? && Arm(t.op) != [] {
      AfterTriesClosed(t.op, |Arm(t.op)|, LeftCosts(t), RightCosts(t));
    }
  }

  // ---- optimality

  /** A rule for a terminal has as many kids as _label visits there, and its cost bounds that of its left side. */
  lemma {:induction false} BaseRule(n: nat, left: seq<int>, right: seq<int>)
    requires RuleOf(n).Base?
    requires Vector(left) && Vector(right)
    ensures var r := RuleOf(n);
      && Arm(r.op) != [] && |r.kids| == Arity(r.op) <= 2 && IsGoal(r.lhs)
      && (forall k :: 0 <= k < |r.kids| ==> IsGoal(r.kids[k]))
      && AfterTries(r.op, |Arm(r.op)|, left, right)[r.lhs] <= KidSum(r.kids, left, right)
  {
    hide Arm, RuleOf, KidSum, AfterTries, Vector, Arity;
    var r := RuleOf(n);
    GrammarFollowsArms(n);
    var e :| e in Arm(r.op) && e.lhs == r.lhs && e.kids == r.kids;
    var i :| 0 <= i < |Arm(r.op)| && Arm(r.op)[i] == e;
    TriesBound(r.op, |Arm(r.op)|, i, left, right);
    ArmArity(r.op, i);
  }

  /** A tree with a derivation from anything is one _label accepts. */
  lemma {:induction false} DerivableLabelable(d: Deriv, t: Tree, nt: nat)
    requires Derives(d, t, nt)
    ensures Labelable(t)
    decreases d
  {
    hide Arm, RuleOf, Arity;
    match RuleOf(d.rule)
    case NoRule =>
    case Chain(lhs, rhs, price) =>
      DerivableLabelable(d.first, t, rhs);
    case Base(lhs, op, kids) =>
      BaseRule(d.rule, Unset(), Unset());
      if |kids| >= 1 {
        DerivableLabelable(d.first, t.left, kids[0]);
      }
      if |kids| >= 2 {
        DerivableLabelable(d.second, t.right, kids[1]);
      }
  }

  /** The costs are lower bounds: no derivation is cheaper. */
  lemma {:induction false} NoCheaperDerivation(d: Deriv, t: Tree, nt: nat)
    requires Derives(d, t, nt)
    ensures IsGoal(nt)
    ensures Costs(t)[nt] <= DerivCost(d)
    decreases d
  {
    hide Arm, RuleOf, AfterTries, Closed, Arity;
    match RuleOf(d.rule)
    case NoRule =>
    case Chain(lhs, rhs, price) =>
      NoCheaperDerivation(d.first, t, rhs);
      CostsClosed(t);
      ClosedChain(Costs(t), d.rule);
    case Base(lhs, op, kids) =>
      BaseRule(d.rule, LeftCosts(t), RightCosts(t));
      if |kids| >= 1 {
        NoCheaperDerivation(d.first, t.left, kids[0]);
      }
      if |kids| >= 2 {
        NoCheaperDerivation(d.second, t.right, kids[1]);
      }
  }

  lemma BogusPrice(n: nat)
    requires !RuleOf(n).NoRule?
    ensures Price(n) == if 11 <= n <= 22 then 1 else 0
  {
    hide RuleOf;
    if RuleOf(n).Chain? {
      ChainShape(n);
    } else {
      BaseNumber(n);
    }
  }

  /** A derivation costs nothing exactly when it takes no step through bogus. */
  lemma {:induction false} BogusCosts(d: Deriv, t: Tree, nt: nat)
    requires Derives(d, t, nt)
    ensures DerivCost(d) == 0 <==> !UsesBogus(d)
    decreases d
  {
    hide RuleOf, Price;
    BogusPrice(d.rule);
    match RuleOf(d.rule)
    case NoRule =>
    case Chain(lhs, rhs, price) =>
      BogusCosts(d.first, t, rhs);
    case Base(lhs, op, kids) =>
      if |kids| >= 1 {
        BogusCosts(d.first, t.left, kids[0]);
      }
      if |kids| >= 2 {
        BogusCosts(d.second, t.right, kids[1]);
      }
  }
}
