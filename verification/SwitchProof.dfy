// The dispatch code of a switch reaches the label C asks for.

module SwitchProof {
  import opened Comparisons
  import opened SwitchCases
  import opened SwitchBuckets
  import opened SwitchCode

  ghost predicate IsCase(s: Switch, l: int, end: int, x: int)
    requires 0 <= l <= end <= |s.values|
  {
    exists i :: l <= i < end && s.values[i] == x
  }

  function Target(s: Switch, x: int): Lab
    requires |s.values| == |s.labels|
  {
    Lookup(s.values, s.labels, s.deflab, x)
  }

  lemma TargetIsALabel(s: Switch, x: int)
    requires |s.values| == |s.labels| && Increasing(s.values)
    ensures Target(s, x) == s.deflab || Target(s, x) in s.labels
  {
    if x in s.values {
      var i :| 0 <= i < |s.values| && s.values[i] == x;
      LookupHit(s.values, s.labels, s.deflab, i);
    } else {
      LookupMiss(s.values, s.labels, s.deflab, x);
    }
  }

  // ----- one bucket -----

  lemma {:induction false} NoDefs(s: Switch, l: int, u: int)
    requires |s.values| == |s.labels| && 0 <= l <= u + 1 <= |s.values|
    ensures Defs(Tests(s, l, u)) == {}
    decreases u - l + 1
  {
    if l <= u {
      DefsConcat([Cmp(EQ, s.values[l], s.labels[l])], Tests(s, l + 1, u));
      NoDefs(s, l + 1, u);
    }
  }

  lemma {:induction false} TestsRun(s: Switch, l: int, u: int, seen: set<Lab>, rest: seq<Instr>, x: int)
    requires |s.values| == |s.labels| && Increasing(s.values) && 0 <= l <= u + 1 <= |s.values|
    ensures Exec(seen, Tests(s, l, u) + rest, x) ==
      if IsCase(s, l, u + 1, x) then Branch(seen, rest, Target(s, x), x) else Exec(seen, rest, x)
    decreases u - l + 1
  {
    var code := Tests(s, l, u) + rest;
    if l > u {
      assert code == rest;
    } else {
      var tail := Tests(s, l + 1, u);
      assert code[0] == Cmp(EQ, s.values[l], s.labels[l]) && code[1..] == tail + rest;
      if s.values[l] == x {
        LookupHit(s.values, s.labels, s.deflab, l);
        NoDefs(s, l + 1, u);
        if s.labels[l] !in seen {
          SkipOver(seen, tail, rest, s.labels[l], x);
          assert seen + {} == seen;
        }
        assert IsCase(s, l, u + 1, x);
      } else {
        TestsRun(s, l + 1, u, seen, rest, x);
        if IsCase(s, l, u + 1, x) {
          var i :| l <= i < u + 1 && s.values[i] == x;
          assert IsCase(s, l + 1, u + 1, x);
        }
      }
    }
  }

  /** What a jump table over the cases l..u does, past its two range tests. */
  lemma {:induction false} TableRun(s: Switch, l: int, u: int, seen: set<Lab>, rest: seq<Instr>, x: int)
    requires |s.values| == |s.labels| && Increasing(s.values) && 0 <= l <= u < |s.values|
    requires x <= s.values[u]
    ensures Exec(seen, [Table(s.values[l..u + 1], s.labels[l..u + 1], s.deflab)] + rest, x) ==
      if x < s.values[l] then Stray else Branch(seen, rest, Target(s, x), x)
  {
    var vs, ls := s.values[l..u + 1], s.labels[l..u + 1];
    var code := [Table(vs, ls, s.deflab)] + rest;
    assert code[0] == Table(vs, ls, s.deflab) && code[1..] == rest;
    assert vs[0] == s.values[l] && vs[|vs| - 1] == s.values[u];
    if x >= s.values[l] {
      forall i | 0 <= i < |s.values| && !(l <= i < u + 1) ensures s.values[i] != x {
      }
      LookupSlice(s.values, s.labels, s.deflab, l, u + 1, x);
    }
  }

  /** How a bucket passes operand x on: to a label, into the code after it, or astray. */
  function Passed(s: Switch, l: int, u: int, below: bool, above: bool, lolab: Lab, hilab: Lab,
                  seen: set<Lab>, rest: seq<Instr>, x: int): Outcome
    requires |s.values| == |s.labels| && 0 <= l <= u < |s.values|
  {
    var v := s.values;
    if u - l + 1 <= 3 then
      if below then if x > v[u] then Branch(seen, rest, hilab, x) else Exec(seen, rest, x)
      else if above then if x < v[l] then Branch(seen, rest, lolab, x) else Exec(seen, rest, x)
      else Branch(seen, rest, lolab, x)
    else if x < v[l] then if LowTest(s, l) then Branch(seen, rest, lolab, x) else Stray
    else if x > v[u] then Branch(seen, rest, hilab, x)
    else Branch(seen, rest, s.deflab, x)
  }

  lemma {:induction false} BucketRun(s: Switch, l: int, u: int, below: bool, above: bool, lolab: Lab, hilab: Lab,
                  seen: set<Lab>, rest: seq<Instr>, x: int)
    requires |s.values| == |s.labels| && Increasing(s.values) && 0 <= l <= u < |s.values|
    ensures Defs(BucketCode(s, l, u, below, above, lolab, hilab)) == {}
    ensures Exec(seen, BucketCode(s, l, u, below, above, lolab, hilab) + rest, x) ==
      if IsCase(s, l, u + 1, x) then Branch(seen, rest, Target(s, x), x)
      else Passed(s, l, u, below, above, lolab, hilab, seen, rest, x)
  {
    if u - l + 1 <= 3 {
      var last := if below then Cmp(GT, s.values[u], hilab)
                  else if above then Cmp(LT, s.values[l], lolab) else Jump(lolab);
      assert BucketCode(s, l, u, below, above, lolab, hilab) == Tests(s, l, u) + [last];
      NoDefs(s, l, u);
      DefsConcat(Tests(s, l, u), [last]);
      Associate(Tests(s, l, u), [last], rest);
      TestsRun(s, l, u, seen, [last] + rest, x);
      assert ([last] + rest)[1..] == rest;
      TargetIsALabel(s, x);
      SkipPlain(seen, last, rest, Target(s, x), x);
    } else {
      BigBucketRun(s, l, u, below, above, lolab, hilab, seen, rest, x);
    }
  }

  lemma {:induction false} BigBucketRun(s: Switch, l: int, u: int, below: bool, above: bool, lolab: Lab, hilab: Lab,
                     seen: set<Lab>, rest: seq<Instr>, x: int)
    requires |s.values| == |s.labels| && Increasing(s.values) && 0 <= l <= u < |s.values|
    requires u - l + 1 > 3
    ensures Defs(BucketCode(s, l, u, below, above, lolab, hilab)) == {}
    ensures Exec(seen, BucketCode(s, l, u, below, above, lolab, hilab) + rest, x) ==
      if IsCase(s, l, u + 1, x) then Branch(seen, rest, Target(s, x), x)
      else Passed(s, l, u, below, above, lolab, hilab, seen, rest, x)
  {
    hide Lookup;
    var table := Table(s.values[l..u + 1], s.labels[l..u + 1], s.deflab);
    var high := Cmp(GT, s.values[u], hilab);
    var low := if LowTest(s, l) then [Cmp(LT, s.values[l], lolab)] else [];
    var after := [high] + ([table] + rest);
    assert BucketCode(s, l, u, below, above, lolab, hilab) == low + [high, table];
    assert low + [high, table] + rest == low + after;
    assert after[1..] == [table] + rest;
    SkipPlain(seen, high, [table] + rest, lolab, x);
    SkipPlain(seen, table, rest, lolab, x);
    SkipPlain(seen, table, rest, hilab, x);
    assert Exec(seen, low + after, x) ==
      if LowTest(s, l) && x < s.values[l] then Branch(seen, after, lolab, x) else Exec(seen, after, x) by {
      if low != [] {
        assert (low + after)[1..] == after;
      } else {
        assert low + after == after;
      }
    }
    assert Exec(seen, after, x) ==
      if x > s.values[u] then Branch(seen, [table] + rest, hilab, x) else Exec(seen, [table] + rest, x);
    if IsCase(s, l, u + 1, x) {
      var i :| l <= i < u + 1 && s.values[i] == x;
      assert s.values[l] <= x <= s.values[u];
    }
    if x <= s.values[u] {
      TableRun(s, l, u, seen, rest, x);
    }
    if !IsCase(s, l, u + 1, x) && s.values[l] <= x <= s.values[u] {
      assert forall i :: 0 <= i < |s.values| ==> s.values[i] != x;
      LookupMiss(s.values, s.labels, s.deflab, x);
    }
  }

  lemma {:induction false} SkipPlain(seen: set<Lab>, i: Instr, rest: seq<Instr>, lab: Lab, x: int)
    requires !i.Define?
    ensures Forward(seen, [i] + rest, lab, x) == Forward(seen, rest, lab, x)
  {
    assert ([i] + rest)[1..] == rest && ([i] + rest)[..1] == [i];
    assert Defs([i]) == {} && seen + {} == seen;
  }

  // ----- the decision tree -----

  /** The labels a subtree defines are the ones it drew from the counter. */
  lemma {:induction false} EmitDefs(s: Switch, b: seq<int>, lb: int, ub: int, k: int, next: Lab)
    requires Ok(s, b) && 0 <= lb <= k <= ub < |b| - 1
    ensures next <= EmitAt(s, b, lb, ub, k, next).next
    ensures forall lab :: lab in Defs(EmitAt(s, b, lb, ub, k, next).code) ==>
      next <= lab < EmitAt(s, b, lb, ub, k, next).next
    decreases ub - lb, 0
  {
    var own, left := OwnCode(s, b, lb, ub, k, next), LeftOf(s, b, lb, ub, k, next);
    var hilab := HiLab(s, k > lb, k < ub, next);
    var right := SubTree(s, b, k + 1, ub, hilab, left.next);
    BucketRun(s, b[k], b[k + 1] - 1, k > lb, k < ub, LoLab(s, k > lb, next), hilab, {}, [], 0);
    SubTreeDefs(s, b, lb, k - 1, LoLab(s, k > lb, next), AfterBucket(b[k], b[k + 1] - 1, k > lb, k < ub, next));
    SubTreeDefs(s, b, k + 1, ub, hilab, left.next);
    DefsConcat(own, left.code);
    DefsConcat(own + left.code, right.code);
  }

  lemma {:induction false} SubTreeDefs(s: Switch, b: seq<int>, lb: int, ub: int, lab: Lab, next: Lab)
    requires Ok(s, b) && 0 <= lb && ub < |b| - 1
    ensures next <= SubTree(s, b, lb, ub, lab, next).next
    ensures forall l :: l in Defs(SubTree(s, b, lb, ub, lab, next).code) ==>
      l == lab || next <= l < SubTree(s, b, lb, ub, lab, next).next
    ensures lb > ub ==> Defs(SubTree(s, b, lb, ub, lab, next).code) == {}
    decreases ub - lb, 1
  {
    if lb <= ub {
      EmitDefs(s, b, lb, ub, (lb + ub) / 2, next);
      DefsConcat([Define(lab)], Emit(s, b, lb, ub, next).code);
    }
  }

  // ----- every operand -----

  /** The only bucket that mistreats an operand: a table from 0 on, whose low test is skipped. */
  ghost predicate Trap(s: Switch, b: seq<int>, m: int)
    requires Ok(s, b) && 0 <= m < |b| - 1
  {
    b[m + 1] - b[m] > 3 && !LowTest(s, b[m])
  }

  ghost predicate Fresh(s: Switch, seen: set<Lab>, next: Lab) {
    && s.deflab < next && (forall lab :: lab in s.labels ==> lab < next)
    && (forall lab :: lab in seen ==> lab < next && lab != s.deflab && lab !in s.labels)
  }

  /** x is not a case of any bucket outside lb..ub. */
  ghost predicate Elsewhere(s: Switch, b: seq<int>, lb: int, ub: int, x: int)
    requires Ok(s, b) && 0 <= lb <= ub + 1 < |b|
  {
    forall i :: 0 <= i < |s.values| && s.values[i] == x ==> b[lb] <= i < b[ub + 1]
  }

  /** Both ways into a subtree, falling into its label or jumping to it, run its code. */
  lemma {:induction false} Enter(seen: set<Lab>, lab: Lab, code: seq<Instr>, rest: seq<Instr>, x: int)
    ensures Exec(seen, ([Define(lab)] + code) + rest, x) == Exec(seen + {lab}, code + rest, x)
    ensures Forward(seen, ([Define(lab)] + code) + rest, lab, x) == Exec(seen + {lab}, code + rest, x)
  {
    assert (([Define(lab)] + code) + rest)[1..] == code + rest;
  }

  /** The code after a bucket's own: its left subtree, its right subtree, then post. */
  function Rest(s: Switch, b: seq<int>, lb: int, ub: int, k: int, next: Lab, post: seq<Instr>): seq<Instr>
    requires Ok(s, b) && 0 <= lb <= k <= ub < |b| - 1
  {
    LeftOf(s, b, lb, ub, k, next).code + (RightOf(s, b, lb, ub, k, next).code + post)
  }

  function RightOf(s: Switch, b: seq<int>, lb: int, ub: int, k: int, next: Lab): Emitted
    requires Ok(s, b) && 0 <= lb <= k <= ub < |b| - 1
  {
    SubTree(s, b, k + 1, ub, HiLab(s, k > lb, k < ub, next), LeftOf(s, b, lb, ub, k, next).next)
  }

  lemma {:induction false} OwnRun(s: Switch, b: seq<int>, lb: int, ub: int, k: int, next: Lab,
               seen: set<Lab>, post: seq<Instr>, x: int)
    requires Ok(s, b) && 0 <= lb <= k <= ub < |b| - 1
    ensures
      var code, rest := EmitAt(s, b, lb, ub, k, next).code, Rest(s, b, lb, ub, k, next, post);
      var l, u, below, above := b[k], b[k + 1] - 1, k > lb, k < ub;
      && seen + Defs(code)
         == seen + Defs(LeftOf(s, b, lb, ub, k, next).code) + Defs(RightOf(s, b, lb, ub, k, next).code)
      && Exec(seen, code + post, x) ==
           if IsCase(s, l, u + 1, x) then Branch(seen, rest, Target(s, x), x)
           else Passed(s, l, u, below, above, LoLab(s, below, next), HiLab(s, below, above, next), seen, rest, x)
  {
    var l, u, below, above := b[k], b[k + 1] - 1, k > lb, k < ub;
    var own := OwnCode(s, b, lb, ub, k, next);
    var left, right := LeftOf(s, b, lb, ub, k, next), RightOf(s, b, lb, ub, k, next);
    assert EmitAt(s, b, lb, ub, k, next).code == own + left.code + right.code;
    Regroup(own, left.code, right.code, post);
    assert own + left.code + right.code + post == own + Rest(s, b, lb, ub, k, next, post);
    BucketRun(s, l, u, below, above, LoLab(s, below, next), HiLab(s, below, above, next),
              seen, Rest(s, b, lb, ub, k, next, post), x);
    DefsConcat(own, left.code);
    DefsConcat(own + left.code, right.code);
  }

  /** Where the code for buckets lb..ub ends up. */
  function Done(s: Switch, b: seq<int>, lb: int, ub: int, k: int, next: Lab,
                seen: set<Lab>, post: seq<Instr>, x: int): Outcome
    requires Ok(s, b) && 0 <= lb <= k <= ub < |b| - 1
  {
    Forward(seen + Defs(LeftOf(s, b, lb, ub, k, next).code) + Defs(RightOf(s, b, lb, ub, k, next).code),
            post, Target(s, x), x)
  }

  lemma {:induction false} EmittedLabels(s: Switch, b: seq<int>, lb: int, ub: int, k: int, next: Lab)
    requires Ok(s, b) && 0 <= lb <= k <= ub < |b| - 1
    ensures
      var n := AfterBucket(b[k], b[k + 1] - 1, k > lb, k < ub, next);
      var left, right := LeftOf(s, b, lb, ub, k, next), RightOf(s, b, lb, ub, k, next);
      && next <= n <= left.next
      && (forall l :: l in Defs(left.code) ==> (k > lb && l == next) || n <= l < left.next)
      && (forall l :: l in Defs(right.code) ==> (k < ub && l == HiLab(s, k > lb, k < ub, next)) || left.next <= l)
  {
    SubTreeDefs(s, b, lb, k - 1, LoLab(s, k > lb, next), AfterBucket(b[k], b[k + 1] - 1, k > lb, k < ub, next));
    SubTreeDefs(s, b, k + 1, ub, HiLab(s, k > lb, k < ub, next), LeftOf(s, b, lb, ub, k, next).next);
  }

  /** A label outside the switch is reached past both subtrees. */
  lemma {:induction false} LeaveRun(s: Switch, b: seq<int>, lb: int, ub: int, k: int, next: Lab,
                 seen: set<Lab>, post: seq<Instr>, x: int)
    requires Ok(s, b) && 0 <= lb <= k <= ub < |b| - 1 && Fresh(s, seen, next)
    ensures Branch(seen, Rest(s, b, lb, ub, k, next, post), Target(s, x), x)
        == Done(s, b, lb, ub, k, next, seen, post, x)
  {
    EmittedLabels(s, b, lb, ub, k, next);
    TargetIsALabel(s, x);
    var left, right := LeftOf(s, b, lb, ub, k, next), RightOf(s, b, lb, ub, k, next);
    SkipOver(seen, left.code, right.code + post, Target(s, x), x);
    SkipOver(seen + Defs(left.code), right.code, post, Target(s, x), x);
  }

  lemma {:induction false} LeftRun(s: Switch, b: seq<int>, lb: int, ub: int, k: int, next: Lab,
                                   seen: set<Lab>, post: seq<Instr>, x: int)
    requires Ok(s, b) && 0 <= lb < k <= ub < |b| - 1 && Fresh(s, seen, next)
    requires forall m :: lb <= m <= ub ==> !Trap(s, b, m)
    requires Elsewhere(s, b, lb, k - 1, x)
    ensures
      var rest := Rest(s, b, lb, ub, k, next, post);
      && Exec(seen, rest, x) == Done(s, b, lb, ub, k, next, seen, post, x)
      && Branch(seen, rest, next, x) == Done(s, b, lb, ub, k, next, seen, post, x)
    decreases ub - lb, 0
  {
    EmittedLabels(s, b, lb, ub, k, next);
    TargetIsALabel(s, x);
    var left, right := LeftOf(s, b, lb, ub, k, next), RightOf(s, b, lb, ub, k, next);
    var n := AfterBucket(b[k], b[k + 1] - 1, k > lb, k < ub, next);
    SubTreeRun(s, b, lb, k - 1, next, n, seen, right.code + post, x);
    SkipOver(seen + Defs(left.code), right.code, post, Target(s, x), x);
  }

  lemma {:induction false} RightRun(s: Switch, b: seq<int>, lb: int, ub: int, k: int, next: Lab,
                                    seen: set<Lab>, post: seq<Instr>, x: int)
    requires Ok(s, b) && 0 <= lb <= k < ub < |b| - 1 && Fresh(s, seen, next)
    requires forall m :: lb <= m <= ub ==> !Trap(s, b, m)
    requires Elsewhere(s, b, k + 1, ub, x)
    ensures
      var rest := Rest(s, b, lb, ub, k, next, post);
      && (k == lb ==> Exec(seen, rest, x) == Done(s, b, lb, ub, k, next, seen, post, x))
      && Branch(seen, rest, HiLab(s, k > lb, true, next), x) == Done(s, b, lb, ub, k, next, seen, post, x)
    decreases ub - lb, 0
  {
    EmittedLabels(s, b, lb, ub, k, next);
    var left, right := LeftOf(s, b, lb, ub, k, next), RightOf(s, b, lb, ub, k, next);
    var hilab := HiLab(s, k > lb, true, next);
    SkipOver(seen, left.code, right.code + post, hilab, x);
    SubTreeRun(s, b, k + 1, ub, hilab, left.next, seen + Defs(left.code), post, x);
    if k == lb {
      assert left.code == [] && left.code + (right.code + post) == right.code + post;
      assert seen + Defs(left.code) == seen;
    }
  }

  /**
   * Away from the trap, code for buckets lb..ub sends x to its target, wherever the code
   * stands: before any code post and after code that defined the labels seen.
   */
  lemma {:induction false} EmitRun(s: Switch, b: seq<int>, lb: int, ub: int, k: int, next: Lab,
                                   seen: set<Lab>, post: seq<Instr>, x: int)
    requires Ok(s, b) && 0 <= lb <= k <= ub < |b| - 1
    requires forall m :: lb <= m <= ub ==> !Trap(s, b, m)
    requires Fresh(s, seen, next) && Elsewhere(s, b, lb, ub, x)
    ensures
      var code := EmitAt(s, b, lb, ub, k, next).code;
      Exec(seen, code + post, x) == Forward(seen + Defs(code), post, Target(s, x), x)
    decreases ub - lb, 1
  {
    hide EmitAt, LeftOf, RightOf, Rest, Exec, Forward, Branch, Defs, Fresh;
    var l, u := b[k], b[k + 1] - 1;
    OwnRun(s, b, lb, ub, k, next, seen, post, x);
    LeaveRun(s, b, lb, ub, k, next, seen, post, x);
    assert !Trap(s, b, k);
    if !IsCase(s, l, u + 1, x) {
      if k > lb && x <= s.values[u] && (u - l + 1 <= 3 || x < s.values[l]) {
        LeftRun(s, b, lb, ub, k, next, seen, post, x);
      } else if k < ub && (x > s.values[u] || (k == lb && u - l + 1 <= 3 && x >= s.values[l])) {
        RightRun(s, b, lb, ub, k, next, seen, post, x);
      } else {
        assert x !in s.values;
        LookupMiss(s.values, s.labels, s.deflab, x);
      }
    }
  }

  lemma {:induction false} SubTreeRun(s: Switch, b: seq<int>, lb: int, ub: int, lab: Lab, next: Lab,
                                      seen: set<Lab>, post: seq<Instr>, x: int)
    requires Ok(s, b) && 0 <= lb <= ub < |b| - 1
    requires forall m :: lb <= m <= ub ==> !Trap(s, b, m)
    requires Fresh(s, seen + {lab}, next) && Elsewhere(s, b, lb, ub, x)
    ensures
      var code := SubTree(s, b, lb, ub, lab, next).code;
      && Exec(seen, code + post, x) == Forward(seen + Defs(code), post, Target(s, x), x)
      && Forward(seen, code + post, lab, x) == Forward(seen + Defs(code), post, Target(s, x), x)
    decreases ub - lb, 2
  {
    var e := Emit(s, b, lb, ub, next);
    Enter(seen, lab, e.code, post, x);
    EmitRun(s, b, lb, ub, (lb + ub) / 2, next, seen + {lab}, post, x);
    DefsConcat([Define(lab)], e.code);
    assert Defs([Define(lab)]) == {lab} by { assert [Define(lab)][0] == Define(lab); }
    assert seen + {lab} + Defs(e.code) == seen + Defs([Define(lab)] + e.code);
  }

  // ----- the operand the trap catches -----

  lemma BucketsAround(s: Switch, b: seq<int>, k: int, m: int)
    requires Ok(s, b) && 0 <= k < |b| - 1 && 0 <= m < |b| - 1
    ensures k < m ==> 0 <= b[k] < b[k + 1] <= b[m] && s.values[b[k + 1] - 1] < s.values[b[m]]
    ensures k > m ==> b[m] < b[k] < b[k + 1] <= |s.values| && s.values[b[m]] < s.values[b[k]]
  {
  }

  /** If -1 is no case, operand -1 walks down to the trap at bucket m and through it. */
  lemma {:induction false} TrapRun(s: Switch, b: seq<int>, lb: int, ub: int, k: int, m: int, next: Lab,
                                   seen: set<Lab>, post: seq<Instr>)
    requires Ok(s, b) && 0 <= lb <= k <= ub < |b| - 1 && lb <= m <= ub
    requires Trap(s, b, m) && Fresh(s, seen, next) && -1 !in s.values
    ensures Exec(seen, EmitAt(s, b, lb, ub, k, next).code + post, -1) == Stray
    decreases ub - lb, 1
  {
    OwnRun(s, b, lb, ub, k, next, seen, post, -1);
    assert !IsCase(s, b[k], b[k + 1], -1);
    BucketsAround(s, b, k, m);
    if k > m {
      TrapLeft(s, b, lb, ub, k, m, next, seen, post);
    } else if k < m {
      TrapRight(s, b, lb, ub, k, m, next, seen, post);
    }
  }

  lemma {:induction false} TrapLeft(s: Switch, b: seq<int>, lb: int, ub: int, k: int, m: int, next: Lab,
                                    seen: set<Lab>, post: seq<Instr>)
    requires Ok(s, b) && 0 <= lb <= m < k <= ub < |b| - 1
    requires Trap(s, b, m) && Fresh(s, seen, next) && -1 !in s.values
    ensures Exec(seen, Rest(s, b, lb, ub, k, next, post), -1) == Stray
    ensures Branch(seen, Rest(s, b, lb, ub, k, next, post), next, -1) == Stray
    decreases ub - lb, 0
  {
    var n := AfterBucket(b[k], b[k + 1] - 1, k > lb, k < ub, next);
    var e, right := Emit(s, b, lb, k - 1, n), RightOf(s, b, lb, ub, k, next);
    assert LeftOf(s, b, lb, ub, k, next).code == [Define(next)] + e.code;
    Enter(seen, next, e.code, right.code + post, -1);
    TrapRun(s, b, lb, k - 1, (lb + k - 1) / 2, m, n, seen + {next}, right.code + post);
  }

  lemma {:induction false} TrapRight(s: Switch, b: seq<int>, lb: int, ub: int, k: int, m: int, next: Lab,
                                     seen: set<Lab>, post: seq<Instr>)
    requires Ok(s, b) && 0 <= lb <= k < m <= ub < |b| - 1
    requires Trap(s, b, m) && Fresh(s, seen, next) && -1 !in s.values
    ensures k == lb ==> Exec(seen, Rest(s, b, lb, ub, k, next, post), -1) == Stray
    ensures Branch(seen, Rest(s, b, lb, ub, k, next, post), HiLab(s, k > lb, true, next), -1) == Stray
    decreases ub - lb, 0
  {
    EmittedLabels(s, b, lb, ub, k, next);
    var left := LeftOf(s, b, lb, ub, k, next);
    var e, hilab := Emit(s, b, k + 1, ub, left.next), HiLab(s, k > lb, true, next);
    var seen' := seen + Defs(left.code);
    SkipOver(seen, left.code, RightOf(s, b, lb, ub, k, next).code + post, hilab, -1);
    Enter(seen', hilab, e.code, post, -1);
    TrapRun(s, b, k + 1, ub, (k + 1 + ub) / 2, m, left.next, seen' + {hilab}, post);
    if k == lb {
      assert left.code == [] && seen' == seen;
      assert left.code + (RightOf(s, b, lb, ub, k, next).code + post) == RightOf(s, b, lb, ub, k, next).code + post;
    }
  }

  /** Neighbouring buckets that touch would have been merged. */
  lemma BucketsApart(v: seq<int>, b: seq<int>, density: real, m: int)
    requires Increasing(v) && Partition(b, |v|) && 0 < m < |b| - 1
    requires Meets(v, density, b[m - 1], b[m] - 1) && Meets(v, density, b[m], b[m + 1] - 1)
    requires !Meets(v, density, b[m - 1], b[m + 1] - 1)
    ensures v[b[m] - 1] < v[b[m]] - 1
  {
    if v[b[m] - 1] == v[b[m]] - 1 {
      Mediant((b[m] - b[m - 1]) as real, (v[b[m] - 1] - v[b[m - 1]] + 1) as real,
              (b[m + 1] - b[m]) as real, (v[b[m + 1] - 1] - v[b[m]] + 1) as real, density);
      assert false;
    }
  }

  lemma Mediant(c: real, d: real, c': real, d': real, density: real)
    requires d >= 1.0 && d' >= 1.0 && c / d >= density && c' / d' >= density
    ensures (c + c') / (d + d') >= density
  {
    Scale(density, d, c);
    Scale(density, d', c');
    assert density * (d + d') == density * d + density * d';
    Unscale(density, d + d', c + c');
  }

  lemma Unscale(density: real, d: real, c: real)
    requires d >= 1.0 && density * d <= c
    ensures c / d >= density
  {
    var q := c / d;
    assert q * d == c;
    if q < density { assert (density - q) * d > 0.0; }
  }

  // ----- the whole switch -----

  /** What holds of the buckets swgen forms. */
  ghost predicate Bucketed(s: Switch, b: seq<int>, density: real) {
    Ok(s, b) && Merged(b, |s.values|, (l, u) => Meets(s.values, density, l, u), density <= 1.0)
  }

  lemma MinusOneIsNoCase(s: Switch, b: seq<int>, density: real, m: int)
    requires Bucketed(s, b, density) && density <= 1.0 && 0 <= m < |b| - 1 && Trap(s, b, m)
    ensures -1 !in s.values
  {
    if m > 0 {
      BucketsApart(s.values, b, density, m);
    }
  }

  lemma TrapFails(s: Switch, b: seq<int>, k: int, next: Lab, m: int)
    requires Ok(s, b) && Fresh(s, {}, next) && 0 <= k < |b| - 1
    requires 0 <= m < |b| - 1 && Trap(s, b, m) && -1 !in s.values
    ensures Exec({}, EmitAt(s, b, 0, |b| - 2, k, next).code, -1) == Stray
  {
    TrapRun(s, b, 0, |b| - 2, k, m, next, {}, []);
    AppendNothing(EmitAt(s, b, 0, |b| - 2, k, next).code);
  }

  lemma AppendNothing<T>(a: seq<T>)
    ensures a + [] == a
  {
  }

  lemma TrapFree(s: Switch, b: seq<int>, k: int, next: Lab, x: int)
    requires Ok(s, b) && Fresh(s, {}, next) && 0 <= k < |b| - 1
    requires forall m :: 0 <= m < |b| - 1 ==> !Trap(s, b, m)
    ensures Exec({}, EmitAt(s, b, 0, |b| - 2, k, next).code, x) == Exit(Target(s, x))
    ensures Exec({}, EmitAt(s, b, 0, |b| - 2, k, next).code + [Jump(s.deflab)], x) == Exit(Target(s, x))
  {
    var seen := {} + Defs(EmitAt(s, b, 0, |b| - 2, k, next).code);
    EmitRun(s, b, 0, |b| - 2, k, next, {}, [], x);
    EmitRun(s, b, 0, |b| - 2, k, next, {}, [Jump(s.deflab)], x);
    AppendNothing(EmitAt(s, b, 0, |b| - 2, k, next).code);
    OneJump(seen, s.deflab, Target(s, x), x);
  }

  lemma {:induction false} OneJump(seen: set<Lab>, lab: Lab, target: Lab, x: int)
    ensures Forward(seen, [Jump(lab)], target, x) == Exit(target)
    ensures Exec({}, [Jump(lab)], x) == Exit(lab)
  {
    SkipPlain(seen, Jump(lab), [], target, x);
    assert [Jump(lab)] + [] == [Jump(lab)] && [Jump(lab)][1..] == [];
  }

  /**
   * A switch is compiled correctly for every operand exactly when no table starts at value 0
   * of an unsigned type. (A signed operand never meets a trap.)
   */
  lemma DispatchCorrect(s: Switch, b: seq<int>, density: real, next: Lab)
    requires Bucketed(s, b, density) && density <= 1.0 && Fresh(s, {}, next)
    ensures (forall x :: Dispatched(s, b, next, x)) <==> forall m :: 0 <= m < |b| - 1 ==> !Trap(s, b, m)
  {
    if m :| 0 <= m < |b| - 1 && Trap(s, b, m) {
      MinusOneIsNoCase(s, b, density, m);
      TrapFails(s, b, (|b| - 2) / 2, next, m);
      assert !Dispatched(s, b, next, -1);
    } else {
      forall x ensures Dispatched(s, b, next, x) {
        TrapFree(s, b, (|b| - 2) / 2, next, x);
      }
    }
  }

  /** The code sends operand x where C says. */
  ghost predicate Dispatched(s: Switch, b: seq<int>, next: Lab, x: int)
    requires Ok(s, b)
  {
    Exec({}, Emit(s, b, 0, |b| - 2, next).code, x) == Exit(Target(s, x))
  }

  /** swgen, then the branch to the default label, as swstmt calls them. */
  method SwStmt(g: Generator, s: Switch, density: real) returns (b: seq<int>)
    requires |s.values| == |s.labels| && Increasing(s.values) && g.code == [] && Fresh(s, {}, g.next)
    modifies g
    ensures s.values != [] ==> Bucketed(s, b, density)
    ensures s.values != [] && 0.5 <= density <= 1.0 ==> TotalEntries(s.values, b) <= 2 * |s.values|
    ensures (s.values != [] ==> forall m :: 0 <= m < |b| - 1 ==> !Trap(s, b, m)) ==>
      forall x :: Exec({}, g.code, x) == Exit(Target(s, x))
  {
    b := [0];
    if |s.values| > 0 {
      b := SwGen(g, s, density);
    }
    ghost var c := g.code;
    var done := g.code != [] && (g.code[|g.code| - 1].Jump? || g.code[|g.code| - 1].Table?);
    if !done {
      g.Append(Jump(s.deflab));
    }
    if s.values == [] {
      assert g.code == [Jump(s.deflab)];
      forall x ensures Exec({}, g.code, x) == Exit(Target(s, x)) {
        OneJump({}, s.deflab, s.deflab, x);
      }
    } else if forall m :: 0 <= m < |b| - 1 ==> !Trap(s, b, m) {
      forall x ensures Exec({}, g.code, x) == Exit(Target(s, x)) {
        assert Exec({}, c, x) == Exit(Target(s, x));
      }
    }
  }

  method SwGen(g: Generator, s: Switch, density: real) returns (b: seq<int>)
    requires |s.values| == |s.labels| && s.values != [] && Increasing(s.values)
    requires g.code == [] && Fresh(s, {}, g.next)
    modifies g
    ensures Bucketed(s, b, density)
    ensures 0.5 <= density <= 1.0 ==> TotalEntries(s.values, b) <= 2 * |s.values|
    ensures g.code == Emit(s, b, 0, |b| - 2, old(g.next)).code
    ensures (forall m :: 0 <= m < |b| - 1 ==> !Trap(s, b, m)) ==> forall x ::
      && Exec({}, g.code, x) == Exit(Target(s, x))
      && Exec({}, g.code + [Jump(s.deflab)], x) == Exit(Target(s, x))
  {
    b := Buckets(|s.values|, (l, u) => Meets(s.values, density, l, u));
    SinglesMeet(s, density);
    if 0.5 <= density <= 1.0 { BucketsBound(s, b, density); }
    ghost var next := g.next;
    g.SwCode(s, b, 0, |b| - 2);
    if forall m :: 0 <= m < |b| - 1 ==> !Trap(s, b, m) {
      forall x ensures Exec({}, g.code, x) == Exit(Target(s, x))
                    && Exec({}, g.code + [Jump(s.deflab)], x) == Exit(Target(s, x)) {
        TrapFree(s, b, (|b| - 2) / 2, next, x);
        assert g.code == Emit(s, b, 0, |b| - 2, next).code;
      }
    }
  }

  lemma BucketsBound(s: Switch, b: seq<int>, density: real)
    requires Bucketed(s, b, density) && 0.5 <= density <= 1.0
    ensures Increasing(s.values) && Partition(b, |s.values|) && TotalEntries(s.values, b) <= 2 * |s.values|
  {
    hide TotalEntries;
    TableBound(s.values, b, density);
  }

  lemma SinglesMeet(s: Switch, density: real)
    requires Increasing(s.values)
    ensures density <= 1.0 ==> forall k: nat :: k < |s.values| ==> Meets(s.values, density, k, k)
  {
  }

  /** The Switch arm of emitcode: the table's entries in order, gaps filled with the default label. */
  method FillTable(values: seq<int>, labels: seq<Lab>, deflab: Lab) returns (table: seq<Lab>)
    requires TableOk(values, labels)
    ensures table == JumpTable(values, labels, deflab)
  {
    table := [labels[0]];
    LookupHit(values, labels, deflab, 0);
    var i := 1;
    while i < |values|
      invariant 1 <= i <= |values|
      invariant table == JumpTable(values, labels, deflab)[..values[i - 1] - values[0] + 1]
    {
      var k := values[i - 1] + 1;
      while k < values[i]
        invariant values[i - 1] < k <= values[i]
        invariant table == JumpTable(values, labels, deflab)[..k - values[0]]
      {
        LookupMiss(values, labels, deflab, k);
        table := table + [deflab];
        k := k + 1;
      }
      LookupHit(values, labels, deflab, i);
      table := table + [labels[i]];
      i := i + 1;
    }
  }
}
