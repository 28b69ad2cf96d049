// Labelling and reducing a dag of nodes in place: _label, the _closure
// functions, _rule, reduce and check (lcc/src/dagcheck.c).

module Labeller {
  import opened Grammar
  import opened Labelling

  // ---- what closing does to the costs, case by case

  /** _closure_bogus(a, c) on costs that already have bogus at c. */
  function AfterBogus(cost: seq<int>, c: nat): (r: seq<int>)
    requires Vector(cost)
    ensures Vector(r)
  {
    seq(9, m requires 0 <= m < 9 =>
      if m == 0 || m == BOGUS then cost[m]
      else if m == STMT then if c + 1 < cost[V] then Min(cost[STMT], c + 1) else cost[STMT]
      else Min(cost[m], c + 1))
  }

  /** One if of _closure_bogus, with the closure it calls. */
  function Give(cost: seq<int>, nt: nat, c: nat): (r: seq<int>)
    requires Vector(cost) && (IsValue(nt) || nt == V)
    ensures Vector(r) && r[BOGUS] == cost[BOGUS]
  {
    if c + 1 >= cost[nt] then cost
    else if nt == V then cost[V := c + 1][STMT := Min(cost[STMT], c + 1)]
    else cost[nt := c + 1]
  }

  lemma GiveAt(cost: seq<int>, nt: nat, c: nat, m: nat)
    requires Vector(cost) && (IsValue(nt) || nt == V) && m < 9
    ensures m == nt ==> Give(cost, nt, c)[m] == Min(cost[m], c + 1)
    ensures m != nt && (m != STMT || nt != V) ==> Give(cost, nt, c)[m] == cost[m]
    ensures m == STMT && nt == V ==> Give(cost, nt, c)[m] == if c + 1 < cost[V] then Min(cost[m], c + 1) else cost[m]
  {
  }

  lemma SixGives(cost: seq<int>, c: nat)
    requires Vector(cost)
    ensures Give(Give(Give(Give(Give(Give(cost, V, c), B, c), F, c), P, c), U, c), I, c) == AfterBogus(cost, c)
  {
    hide Give;
    var c1 := Give(cost, V, c);
    var c2 := Give(c1, B, c);
    var c3 := Give(c2, F, c);
    var c4 := Give(c3, P, c);
    var c5 := Give(c4, U, c);
    var c6 := Give(c5, I, c);
    forall m | 0 <= m < 9 ensures c6[m] == AfterBogus(cost, c)[m] {
      GiveAt(cost, V, c, m);
      GiveAt(c1, B, c, m);
      GiveAt(c2, F, c, m);
      GiveAt(c3, P, c, m);
      GiveAt(c4, U, c, m);
      GiveAt(c5, I, c, m);
    }
  }

  /** The other closures on costs that already have their nonterminal at c. */
  function AfterValue(cost: seq<int>, c: nat): (r: seq<int>)
    requires Vector(cost)
    ensures Vector(r)
  {
    if c + 1 < cost[BOGUS] then AfterBogus(cost[BOGUS := c + 1], c + 1) else cost
  }

  function AfterV(cost: seq<int>, c: nat): (r: seq<int>)
    requires Vector(cost)
    ensures Vector(r)
  {
    var s := AfterValue(cost, c);
    s[STMT := Min(s[STMT], c)]
  }

  lemma BogusAt(cost: seq<int>, c: nat, m: nat)
    requires Vector(cost) && 1 <= m < 9
    ensures m == BOGUS ==> AfterBogus(cost, c)[m] == cost[m]
    ensures m == STMT ==> AfterBogus(cost, c)[m] == if c + 1 < cost[V] then Min(cost[STMT], c + 1) else cost[STMT]
    ensures m != BOGUS && m != STMT ==> AfterBogus(cost, c)[m] == Min(cost[m], c + 1)
  {
  }

  lemma ValueRelaxesAt(cost: seq<int>, nt: nat, c: nat, m: nat)
    requires Vector(cost) && Closed(cost) && IsValue(nt) && c < cost[nt] && m < 9
    ensures AfterValue(cost[nt := c], c)[m] == Relax(cost, nt, c)[m]
  {
    if m > 0 {
      hide AfterBogus, Relax;
      RelaxAt(cost, nt, c, m);
      if c + 1 < cost[BOGUS] {
        BogusAt(cost[nt := c][BOGUS := c + 1], c + 1, m);
      } else {
        assert m != nt ==> cost[m] <= c + Dist(nt, m);
      }
    }
  }

  /** From closed costs, each closure does all that the chain rules allow. */
  lemma ValueRelaxes(cost: seq<int>, nt: nat, c: nat)
    requires Vector(cost) && Closed(cost) && IsValue(nt) && c < cost[nt]
    ensures AfterValue(cost[nt := c], c) == Relax(cost, nt, c)
  {
    var r, s := AfterValue(cost[nt := c], c), Relax(cost, nt, c);
    hide AfterValue, Relax, Closed;
    forall m | 0 <= m < 9 ensures r[m] == s[m] {
      ValueRelaxesAt(cost, nt, c, m);
    }
  }

  lemma VRelaxes(cost: seq<int>, c: nat)
    requires Vector(cost) && Closed(cost) && c < cost[V]
    ensures AfterV(cost[V := c], c) == Relax(cost, V, c)
  {
  }

  lemma StatementRelaxes(cost: seq<int>, c: nat)
    requires Vector(cost) && Closed(cost) && c < cost[STMT]
    ensures cost[STMT := c] == Relax(cost, STMT, c)
  {
  }

  /** What all closures together can still take off the costs. */
  function Total(cost: seq<int>): nat
    requires Vector(cost)
  {
    cost[1] + cost[2] + cost[3] + cost[4] + cost[5] + cost[6] + cost[7] + cost[8]
  }

  lemma LowerTotal(cost: seq<int>, m: nat, c: nat)
    requires Vector(cost) && IsGoal(m) && c < cost[m]
    ensures Total(cost[m := c]) < Total(cost)
  {
  }

  lemma MovedTotal(cost0: seq<int>, rule0: seq<nat>, cost: seq<int>, rule: seq<nat>)
    requires Vector(cost0) && Vector(cost) && |rule0| == 9 && |rule| == 9
    requires Moved(cost0, rule0, cost, rule)
    ensures Total(cost) <= Total(cost0)
  {
    hide ByChain;
    assert MovedAt(cost0, rule0, cost, rule, 1) && MovedAt(cost0, rule0, cost, rule, 2);
    assert MovedAt(cost0, rule0, cost, rule, 3) && MovedAt(cost0, rule0, cost, rule, 4);
    assert MovedAt(cost0, rule0, cost, rule, 5) && MovedAt(cost0, rule0, cost, rule, 6);
    assert MovedAt(cost0, rule0, cost, rule, 7) && MovedAt(cost0, rule0, cost, rule, 8);
  }

  // ---- what the rule fields say

  /** The left side of the chain rules whose right side is bogus index idx. */
  function BogusSource(idx: nat): nat {
    if idx == 1 then I
    else if idx == 2 then U
    else if idx == 3 then P
    else if idx == 4 then F
    else if idx == 5 then B
    else V
  }

  /** Index idx names a chain rule for m that accounts for the cost of m. */
  predicate ByChain(cost: seq<int>, m: nat, idx: nat)
    requires Vector(cost) && IsGoal(m)
  {
    if m == STMT then idx == 10 && cost[STMT] >= cost[V]
    else if m == BOGUS then 1 <= idx <= 6 && cost[BOGUS] >= cost[BogusSource(idx)] + 1
    else idx == 1 && cost[m] >= cost[BOGUS] + 1
  }

  /** Costs and rules after some chain rules have been applied: each changed pair is accounted for. */
  predicate Moved(cost0: seq<int>, rule0: seq<nat>, cost: seq<int>, rule: seq<nat>)
    requires Vector(cost0) && Vector(cost) && |rule0| == 9 && |rule| == 9
  {
    forall m :: 1 <= m <= 8 ==> MovedAt(cost0, rule0, cost, rule, m)
  }

  predicate MovedAt(cost0: seq<int>, rule0: seq<nat>, cost: seq<int>, rule: seq<nat>, m: nat)
    requires Vector(cost0) && Vector(cost) && |rule0| == 9 && |rule| == 9 && IsGoal(m)
  {
    && cost[m] <= cost0[m]
    && ((cost[m] == cost0[m] && rule[m] == rule0[m]) || ByChain(cost, m, rule[m]))
  }

  lemma MovedNot(cost: seq<int>, rule: seq<nat>)
    requires Vector(cost) && |rule| == 9
    ensures Moved(cost, rule, cost, rule)
  {
  }

  lemma MovedTwice(cost0: seq<int>, rule0: seq<nat>, cost1: seq<int>, rule1: seq<nat>, cost2: seq<int>, rule2: seq<nat>)
    requires Vector(cost0) && Vector(cost1) && Vector(cost2)
    requires |rule0| == 9 && |rule1| == 9 && |rule2| == 9
    requires Moved(cost0, rule0, cost1, rule1) && Moved(cost1, rule1, cost2, rule2)
    ensures Moved(cost0, rule0, cost2, rule2)
  {
    forall m | 1 <= m <= 8 ensures MovedAt(cost0, rule0, cost2, rule2, m) {
      assert MovedAt(cost0, rule0, cost1, rule1, m);
      assert MovedAt(cost1, rule1, cost2, rule2, m);
      assert MovedAt(cost1, rule1, cost2, rule2, V);
      assert MovedAt(cost1, rule1, cost2, rule2, BOGUS);
      assert MovedAt(cost1, rule1, cost2, rule2, BogusSource(rule1[m]));
    }
  }

  lemma MovedOnce(cost: seq<int>, rule: seq<nat>, m: nat, c: nat, idx: nat)
    requires Vector(cost) && |rule| == 9 && IsGoal(m) && c < cost[m]
    requires ByChain(cost[m := c], m, idx)
    ensures Moved(cost, rule, cost[m := c], rule[m := idx])
  {
  }

  // ---- the state of a labelled node

  /** Index idx names a rule tried in the arm for op whose kids cost exactly c. */
  predicate ByTry(op: nat, left: seq<int>, right: seq<int>, m: nat, idx: nat, c: int)
    requires Vector(left) && Vector(right)
  {
    exists i :: 0 <= i < |Arm(op)| && TryGives(op, i, left, right, m, idx, c)
  }

  predicate TryGives(op: nat, i: nat, left: seq<int>, right: seq<int>, m: nat, idx: nat, c: int)
    requires Vector(left) && Vector(right) && i < |Arm(op)|
  {
    ArmFollowsGrammar(op, i);
    Arm(op)[i].lhs == m && Arm(op)[i].index == idx && KidSum(Arm(op)[i].kids, left, right) == c
  }

  /** Every cost that has been set is accounted for by the rule kept beside it. */
  predicate Explained(op: nat, left: seq<int>, right: seq<int>, cost: seq<int>, rule: seq<nat>)
    requires Vector(left) && Vector(right) && Vector(cost) && |rule| == 9
  {
    forall m :: 1 <= m <= 8 ==> ExplainedAt(op, left, right, cost, rule, m)
  }

  predicate ExplainedAt(op: nat, left: seq<int>, right: seq<int>, cost: seq<int>, rule: seq<nat>, m: nat)
    requires Vector(left) && Vector(right) && Vector(cost) && |rule| == 9 && IsGoal(m)
  {
    cost[m] < UNSET ==> ByChain(cost, m, rule[m]) || ByTry(op, left, right, m, rule[m], cost[m])
  }

  lemma MovedExplained(op: nat, left: seq<int>, right: seq<int>, cost0: seq<int>, rule0: seq<nat>, cost: seq<int>,
                       rule: seq<nat>)
    requires Vector(left) && Vector(right) && Vector(cost0) && Vector(cost) && |rule0| == 9 && |rule| == 9
    requires Explained(op, left, right, cost0, rule0) && Moved(cost0, rule0, cost, rule)
    ensures Explained(op, left, right, cost, rule)
  {
    hide ByTry;
    forall m | 1 <= m <= 8 ensures ExplainedAt(op, left, right, cost, rule, m) {
      assert ExplainedAt(op, left, right, cost0, rule0, m);
      assert MovedAt(cost0, rule0, cost, rule, m);
      assert MovedAt(cost0, rule0, cost, rule, V);
      assert MovedAt(cost0, rule0, cost, rule, BOGUS);
      assert MovedAt(cost0, rule0, cost, rule, BogusSource(rule0[m]));
    }
  }

  /** Recording an attempt that pays off keeps every cost accounted for. */
  lemma TryExplained(op: nat, i: nat, left: seq<int>, right: seq<int>, cost: seq<int>, rule: seq<nat>)
    requires Vector(left) && Vector(right) && Vector(cost) && |rule| == 9
    requires Explained(op, left, right, cost, rule)
    requires i < |Arm(op)| && GoodTry(Arm(op)[i], op)
    requires KidSum(Arm(op)[i].kids, left, right) < cost[Arm(op)[i].lhs]
    ensures var e := Arm(op)[i]; var c := KidSum(e.kids, left, right);
      Explained(op, left, right, cost[e.lhs := c], rule[e.lhs := e.index])
  {
    hide Arm, RuleOf, KidSum;
    var e := Arm(op)[i];
    var c := KidSum(e.kids, left, right);
    var cost1, rule1 := cost[e.lhs := c], rule[e.lhs := e.index];
    forall m | 1 <= m <= 8 ensures ExplainedAt(op, left, right, cost1, rule1, m) {
      assert ExplainedAt(op, left, right, cost, rule, m);
      if m == e.lhs {
        assert TryGives(op, i, left, right, m, e.index, c);
      }
    }
  }

  lemma UnsetExplained(op: nat, left: seq<int>, right: seq<int>, rule: seq<nat>)
    requires Vector(left) && Vector(right) && |rule| == 9
    ensures Explained(op, left, right, Unset(), rule)
  {
  }

  /** The rule number an explained goal has in its field. */
  lemma ChainDecodes(cost: seq<int>, m: nat, idx: nat)
    requires Vector(cost) && IsGoal(m) && ByChain(cost, m, idx)
    ensures var r := RuleOf(Decode(m, idx));
      r.Chain? && r.lhs == m && IsGoal(r.rhs) && cost[m] >= cost[r.rhs] + r.price
      && (r.price == 0 ==> m == STMT && r.rhs != STMT)
  {
  }

  lemma TryDecodes(op: nat, left: seq<int>, right: seq<int>, m: nat, idx: nat, c: int)
    requires Vector(left) && Vector(right) && IsGoal(m)
    requires ByTry(op, left, right, m, idx, c)
    ensures var r := RuleOf(Decode(m, idx));
      r.Base? && r.lhs == m && r.op == op && |r.kids| == Arity(op) <= 2
      && (forall k :: 0 <= k < |r.kids| ==> IsGoal(r.kids[k]))
      && KidSum(r.kids, left, right) == c
  {
    hide Arm, RuleOf, KidSum, Arity, Decode;
    var i :| 0 <= i < |Arm(op)| && TryGives(op, i, left, right, m, idx, c);
    ArmFollowsGrammar(op, i);
    ArmArity(op, i);
  }

  /** The rule a labelled node keeps for a goal it can reach explains the goal's cost exactly. */
  lemma {:induction false} RuleKept(t: Tree, rule: seq<nat>, goal: nat)
    requires t.Term? && |rule| == 9 && IsGoal(goal)
    requires Explained(t.op, LeftCosts(t), RightCosts(t), Costs(t), rule)
    requires Costs(t)[goal] < UNSET
    ensures !RuleOf(Decode(goal, rule[goal])).NoRule?
    ensures var r := RuleOf(Decode(goal, rule[goal]));
      r.Chain? ==> r.lhs == goal && IsGoal(r.rhs) && Costs(t)[goal] == Costs(t)[r.rhs] + r.price
                   && (r.price == 0 ==> goal == STMT && r.rhs != STMT)
    ensures var r := RuleOf(Decode(goal, rule[goal]));
      r.Base? ==> r.lhs == goal && r.op == t.op && |r.kids| == Arity(t.op) <= 2
                  && (forall k :: 0 <= k < |r.kids| ==> IsGoal(r.kids[k]))
                  && KidSum(r.kids, LeftCosts(t), RightCosts(t)) == Costs(t)[goal]
  {
    hide Arm, RuleOf, KidSum, Arity, Decode, ByTry, ByChain, Closed, Costs, LeftCosts, RightCosts;
    assert ExplainedAt(t.op, LeftCosts(t), RightCosts(t), Costs(t), rule, goal);
    if ByChain(Costs(t), goal, rule[goal]) {
      ChainDecodes(Costs(t), goal, rule[goal]);
      CostsClosed(t);
      ClosedChain(Costs(t), Decode(goal, rule[goal]));
    } else {
      TryDecodes(t.op, LeftCosts(t), RightCosts(t), goal, rule[goal], Costs(t)[goal]);
    }
  }

  /** The index a closure started at nt leaves for m. */
  function ChainIndex(nt: nat, m: nat): nat {
    if m == STMT then 10
    else if m != BOGUS then 1
    else if nt == I then 1
    else if nt == U then 2
    else if nt == P then 3
    else if nt == F then 4
    else if nt == B then 5
    else 6
  }

  lemma RelaxMovedAt(cost: seq<int>, rule: seq<nat>, nt: nat, c: nat, rule1: seq<nat>, m: nat)
    requires Vector(cost) && |rule| == 9 && |rule1| == 9 && IsGoal(nt) && nt != BOGUS && IsGoal(m) && c < cost[nt]
    requires rule1[m] == if m != nt && Relax(cost, nt, c)[m] < cost[m] then ChainIndex(nt, m) else rule[m]
    ensures MovedAt(cost[nt := c], rule, Relax(cost, nt, c), rule1, m)
  {
    hide Relax;
    RelaxAt(cost, nt, c, m);
    RelaxAt(cost, nt, c, nt);
    RelaxAt(cost, nt, c, V);
    RelaxAt(cost, nt, c, BOGUS);
  }

  lemma RelaxMoved(cost: seq<int>, rule: seq<nat>, nt: nat, c: nat) returns (rule1: seq<nat>)
    requires Vector(cost) && |rule| == 9 && IsGoal(nt) && nt != BOGUS && c < cost[nt]
    ensures |rule1| == 9 && Moved(cost[nt := c], rule, Relax(cost, nt, c), rule1)
  {
    hide MovedAt, Relax;
    rule1 := seq(9, m requires 0 <= m < 9 =>
      if m != nt && Relax(cost, nt, c)[m] < cost[m] then ChainIndex(nt, m) else rule[m]);
    var cost0, cost1 := cost[nt := c], Relax(cost, nt, c);
    forall m | 1 <= m <= 8 ensures MovedAt(cost0, rule, cost1, rule1, m) {
      RelaxMovedAt(cost, rule, nt, c, rule1, m);
    }
  }

  /** Whatever the attempts, there are rules that account for the costs they leave. */
  lemma {:induction false} Explanation(op: nat, n: nat, left: seq<int>, right: seq<int>) returns (rule: seq<nat>)
    requires Vector(left) && Vector(right) && n <= |Arm(op)|
    ensures |rule| == 9 && Explained(op, left, right, AfterTries(op, n, left, right), rule)
  {
    hide Arm, RuleOf, Relax, KidSum, Explained, Moved, AfterTries;
    if n == 0 {
      rule := seq(9, _ => 0);
      UnsetExplained(op, left, right, rule);
      AfterTriesZero(op, left, right);
    } else {
      rule := Explanation(op, n - 1, left, right);
      ArmFollowsGrammar(op, n - 1);
      AfterTriesNext(op, n - 1, left, right);
      var e := Arm(op)[n - 1];
      var cost, c := AfterTries(op, n - 1, left, right), KidSum(e.kids, left, right);
      if c < cost[e.lhs] {
        TryExplained(op, n - 1, left, right, cost, rule);
        var rule1 := rule[e.lhs := e.index];
        rule := RelaxMoved(cost, rule1, e.lhs, c);
        MovedExplained(op, left, right, cost[e.lhs := c], rule1, Relax(cost, e.lhs, c), rule);
      }
    }
  }

  /** The costs are attained: every cost below the limit is that of a derivation. */
  lemma {:induction false} CheapestDerivation(t: Tree, goal: nat) returns (d: Deriv)
    requires Labelable(t) && IsGoal(goal) && Costs(t)[goal] < UNSET
    ensures Derives(d, t, goal) && DerivCost(d) == Costs(t)[goal]
    decreases t, Costs(t)[goal], if goal == STMT then 1 else 0
  {
    hide Arm, Arity, RuleOf, Decode, Explained, Costs, AfterTries;
    CostsOf(t);
    var rule := Explanation(t.op, |Arm(t.op)|, LeftCosts(t), RightCosts(t));
    RuleKept(t, rule, goal);
    var n := Decode(goal, rule[goal]);
    match RuleOf(n)
    case NoRule =>
      assert false;
    case Chain(lhs, rhs, price) =>
      var first := CheapestDerivation(t, rhs);
      d := Use(n, first, Stop);
    case Base(lhs, o, kids) =>
      var first, second := Stop, Stop;
      if |kids| >= 1 {
        first := CheapestDerivation(t.left, kids[0]);
      }
      if |kids| >= 2 {
        second := CheapestDerivation(t.right, kids[1]);
      }
      d := Use(n, first, second);
  }

  /** The cost of stmt is 0 exactly when some derivation of a statement avoids bogus. */
  lemma {:induction false} FreeStatement(t: Tree)
    requires Labelable(t)
    ensures Costs(t)[STMT] == 0 <==> exists d :: Derives(d, t, STMT) && !UsesBogus(d)
  {
    hide Arm, Arity, RuleOf, Costs, Labelable, Derives, UsesBogus;
    if Costs(t)[STMT] == 0 {
      var d := CheapestDerivation(t, STMT);
      BogusCosts(d, t, STMT);
    }
    forall d | Derives(d, t, STMT) && !UsesBogus(d) ensures Costs(t)[STMT] == 0 {
      NoCheaperDerivation(d, t, STMT);
      BogusCosts(d, t, STMT);
    }
  }

  /** What check makes of a tree. */
  datatype Verdict =
    | BadTree             // _label calls fatal
    | NeedsBogus          // the assertion on the cost of stmt fails
    | Accepted(d: Deriv)  // reduce walks d

  // ---- nodes

  class DagNode {
    const op: nat
    const left: DagNode?
    const right: DagNode?
    /** This node and all nodes below it. */
    ghost const below: set<DagNode>
    var cost: seq<int>
    var rule: seq<nat>

    ghost predicate Valid()
      decreases below
    {
      && this in below
      && (left != null ==> left.below < below && this !in left.below && left.Valid())
      && (right != null ==> right.below < below && this !in right.below && right.Valid())
    }

    /** The tree the dag unfolds to. */
    ghost function Unfold(): Tree
      requires Valid()
      decreases below
    {
      Term(op, if left == null then Null else left.Unfold(), if right == null then Null else right.Unfold())
    }

    /** The nodes _label visits from here. */
    ghost function Visited(): (s: set<DagNode>)
      requires Valid()
      ensures this in s && s <= below
      decreases below
    {
      {this}
      + (if Arity(op) >= 1 && left != null then left.Visited() else {})
      + (if Arity(op) >= 2 && right != null then right.Visited() else {})
    }

    constructor (op: nat, left: DagNode?, right: DagNode?)
      requires left != null ==> left.Valid()
      requires right != null ==> right.Valid()
      ensures Valid() && fresh(this)
      ensures Unfold() == Term(op, if left == null then Null else left.Unfold(),
                               if right == null then Null else right.Unfold())
    {
      this.op, this.left, this.right := op, left, right;
      this.below := {this} + (if left == null then {} else left.below) + (if right == null then {} else right.below);
      this.cost, this.rule := Unset(), seq(9, _ => 0);
    }

    /** The state below this node is the one _label computes. */
    ghost predicate Labelled()
      requires Valid()
      reads this
    {
      && cost == Costs(Unfold()) && |rule| == 9
      && Explained(op, LeftCosts(Unfold()), RightCosts(Unfold()), cost, rule)
    }

    // ---- the closure functions

    /** _closure_P, _closure_I, _closure_U, _closure_F and _closure_B. */
    method ClosureValue(nt: nat, c: nat)
      requires Vector(cost) && |rule| == 9
      requires IsValue(nt) && cost[nt] == c
      modifies this
      ensures Vector(cost) && |rule| == 9
      ensures cost == AfterValue(old(cost), c)
      ensures Moved(old(cost), old(rule), cost, rule)
      decreases Total(cost), 1
    {
      hide AfterBogus, Moved, Total;
      MovedNot(cost, rule);
      if c + 1 < cost[BOGUS] {
        var idx := if nt == I then 1 else if nt == U then 2 else if nt == P then 3 else if nt == F then 4 else 5;
        MovedOnce(cost, rule, BOGUS, c + 1, idx);
        LowerTotal(cost, BOGUS, c + 1);
        cost, rule := cost[BOGUS := c + 1], rule[BOGUS := idx];
        ghost var cost1, rule1 := cost, rule;
        ClosureBogus(c + 1);
        MovedTwice(old(cost), old(rule), cost1, rule1, cost, rule);
      }
    }

    method ClosureV(c: nat)
      requires Vector(cost) && |rule| == 9
      requires cost[V] == c
      modifies this
      ensures Vector(cost) && |rule| == 9
      ensures cost == AfterV(old(cost), c)
      ensures Moved(old(cost), old(rule), cost, rule)
      decreases Total(cost), 1
    {
      hide AfterBogus, Moved, Total;
      MovedNot(cost, rule);
      if c + 1 < cost[BOGUS] {
        MovedOnce(cost, rule, BOGUS, c + 1, 6);
        LowerTotal(cost, BOGUS, c + 1);
        cost, rule := cost[BOGUS := c + 1], rule[BOGUS := 6];
        ghost var cost1, rule1 := cost, rule;
        BogusAt(cost, c + 1, V);
        ClosureBogus(c + 1);
        MovedTwice(old(cost), old(rule), cost1, rule1, cost, rule);
      }
      if c < cost[STMT] {
        ghost var cost1, rule1 := cost, rule;
        MovedOnce(cost, rule, STMT, c, 10);
        cost, rule := cost[STMT := c], rule[STMT := 10];
        MovedTwice(old(cost), old(rule), cost1, rule1, cost, rule);
      }
    }

    /** One of the six ifs of _closure_bogus. */
    method BogusGives(nt: nat, c: nat)
      requires Vector(cost) && |rule| == 9
      requires cost[BOGUS] == c
      requires IsValue(nt) || nt == V
      modifies this
      ensures Vector(cost) && |rule| == 9
      ensures cost == Give(old(cost), nt, c)
      ensures Moved(old(cost), old(rule), cost, rule)
      decreases Total(cost), 0
    {
      hide AfterBogus, Moved, Total;
      MovedNot(cost, rule);
      if c + 1 < cost[nt] {
        MovedOnce(cost, rule, nt, c + 1, 1);
        LowerTotal(cost, nt, c + 1);
        cost, rule := cost[nt := c + 1], rule[nt := 1];
        ghost var cost1, rule1 := cost, rule;
        if nt == V {
          ClosureV(c + 1);
        } else {
          ClosureValue(nt, c + 1);
        }
        MovedTwice(old(cost), old(rule), cost1, rule1, cost, rule);
      }
    }

    method ClosureBogus(c: nat)
      requires Vector(cost) && |rule| == 9
      requires cost[BOGUS] == c
      modifies this
      ensures Vector(cost) && |rule| == 9
      ensures cost == AfterBogus(old(cost), c)
      ensures Moved(old(cost), old(rule), cost, rule)
      decreases Total(cost), 1
    {
      hide AfterBogus, Give, Moved, Total;
      ghost var cost0, rule0 := cost, rule;
      BogusGives(V, c);
      MovedTotal(cost0, rule0, cost, rule);
      ghost var cost1, rule1 := cost, rule;
      BogusGives(B, c);
      MovedTwice(cost0, rule0, cost1, rule1, cost, rule);
      MovedTotal(cost0, rule0, cost, rule);
      ghost var cost2, rule2 := cost, rule;
      BogusGives(F, c);
      MovedTwice(cost0, rule0, cost2, rule2, cost, rule);
      MovedTotal(cost0, rule0, cost, rule);
      ghost var cost3, rule3 := cost, rule;
      BogusGives(P, c);
      MovedTwice(cost0, rule0, cost3, rule3, cost, rule);
      MovedTotal(cost0, rule0, cost, rule);
      ghost var cost4, rule4 := cost, rule;
      BogusGives(U, c);
      MovedTwice(cost0, rule0, cost4, rule4, cost, rule);
      MovedTotal(cost0, rule0, cost, rule);
      ghost var cost5, rule5 := cost, rule;
      BogusGives(I, c);
      MovedTwice(cost0, rule0, cost5, rule5, cost, rule);
      SixGives(cost0, c);
    }

    // ---- _label

    /** Tries the rules of one arm in order, with the kids already labelled. */
    method TryArm(arm: seq<Try>, leftCosts: seq<int>, rightCosts: seq<int>)
      requires arm == Arm(op)
      requires Vector(leftCosts) && Vector(rightCosts)
      requires cost == Unset() && |rule| == 9
      modifies this
      ensures cost == AfterTries(op, |arm|, leftCosts, rightCosts) && |rule| == 9
      ensures Explained(op, leftCosts, rightCosts, cost, rule)
    {
      hide Arm, RuleOf, AfterTries, AfterValue, AfterV, Relax, KidSum, Explained, Moved, Closed;
      UnsetExplained(op, leftCosts, rightCosts, rule);
      AfterTriesZero(op, leftCosts, rightCosts);
      var i := 0;
      while i < |arm|
        invariant 0 <= i <= |arm|
        invariant cost == AfterTries(op, i, leftCosts, rightCosts) && |rule| == 9
        invariant Explained(op, leftCosts, rightCosts, cost, rule)
      {
        ArmFollowsGrammar(op, i);
        AfterTriesClosed(op, i, leftCosts, rightCosts);
        AfterTriesNext(op, i, leftCosts, rightCosts);
        var e := arm[i];
        var c := KidSum(e.kids, leftCosts, rightCosts);
        if c < cost[e.lhs] {
          TryExplained(op, i, leftCosts, rightCosts, cost, rule);
          ghost var cost0 := cost;
          cost, rule := cost[e.lhs := c], rule[e.lhs := e.index];
          ghost var cost1, rule1 := cost, rule;
          if e.lhs == STMT {
            StatementRelaxes(cost0, c);
          } else {
            if e.lhs == V {
              VRelaxes(cost0, c);
              ClosureV(c);
            } else {
              ValueRelaxes(cost0, e.lhs, c);
              ClosureValue(e.lhs, c);
            }
            MovedExplained(op, leftCosts, rightCosts, cost1, rule1, cost, rule);
          }
        }
        i := i + 1;
      }
    }

    /** _label. The result is false where the source calls fatal. */
    method Label() returns (ok: bool)
      requires Valid()
      modifies Visited()
      ensures ok == Labelable(Unfold())
      ensures ok ==> forall n :: n in Visited() ==> n.Valid() && n.Labelled()
      decreases below
    {
      hide Arm, Costs, Explained, AfterTries;
      var fresh_rules: seq<nat> := *;
      cost := Unset();
      rule := if |fresh_rules| == 9 then fresh_rules[STMT := 0] else seq(9, _ => 0);
      var arm := Arm(op);
      if arm == [] {
        return false;
      }
      if Arity(op) >= 1 {
        if left == null {
          return false;
        }
        ok := left.Label();
        if !ok {
          return;
        }
      }
      if Arity(op) >= 2 {
        if right == null {
          return false;
        }
        ok := right.Label();
        if !ok {
          return;
        }
      }
      var leftCosts := if Arity(op) >= 1 then left.cost else Unset();
      var rightCosts := if Arity(op) >= 2 then right.cost else Unset();
      TryArm(arm, leftCosts, rightCosts);
      CostsOf(Unfold());
      ok := true;
      forall n | n in Visited() ensures n.Valid() && n.Labelled() {
        if n != this {
          assert (Arity(op) >= 1 && n in left.Visited()) || (Arity(op) >= 2 && n in right.Visited());
        }
      }
    }

    /** reduce: follows the rule fields from goal down. The derivation is the walk it takes. */
    method Reduce(goal: nat) returns (d: Deriv)
      requires Valid() && IsGoal(goal) && Labelable(Unfold())
      requires forall n :: n in Visited() ==> n.Valid() && n.Labelled()
      requires Costs(Unfold())[goal] < UNSET
      ensures Derives(d, Unfold(), goal)
      ensures DerivCost(d) == Costs(Unfold())[goal]
      decreases below, Costs(Unfold())[goal], if goal == STMT then 1 else 0
    {
      hide Arm, Arity, RuleOf, Decode, Explained, Costs;
      ghost var t := Unfold();
      assert Labelled();
      RuleKept(t, rule, goal);
      var n := Decode(goal, rule[goal]);
      match RuleOf(n)
      case NoRule =>
        assert false;
      case Chain(lhs, rhs, price) =>
        var first := Reduce(rhs);
        d := Use(n, first, Stop);
      case Base(lhs, o, kids) =>
        var first, second := Stop, Stop;
        if |kids| >= 1 {
          first := left.Reduce(kids[0]);
        }
        if |kids| >= 2 {
          second := right.Reduce(kids[1]);
        }
        d := Use(n, first, second);
    }

    /** check: accepts a tree exactly when the grammar derives a statement without bogus. */
    method Check() returns (v: Verdict)
      requires Valid()
      modifies Visited()
      ensures v.BadTree? <==> !Labelable(Unfold())
      ensures v.Accepted? <==> exists d :: Derives(d, Unfold(), STMT) && !UsesBogus(d)
      ensures v.Accepted? ==> Derives(v.d, Unfold(), STMT) && !UsesBogus(v.d)
    {
      hide Arm, Arity, RuleOf, Decode, Explained, Costs, Labelable, Derives, UsesBogus;
      var ok := Label();
      forall d | Derives(d, Unfold(), STMT) ensures Labelable(Unfold()) {
        DerivableLabelable(d, Unfold(), STMT);
      }
      if !ok {
        return BadTree;
      }
      FreeStatement(Unfold());
      assert Labelled();
      if cost[STMT] > 0 {
        return NeedsBogus;
      }
      var d := Reduce(STMT);
      BogusCosts(d, Unfold(), STMT);
      return Accepted(d);
    }
  }
}
