// Conditions as short-circuit jumps: the AND, OR, NOT, comparison and constant
// arms of listnodes, and labelnode (lcc/src/dag.c).

module ShortCircuit {
  import opened Comparisons
  import opened Labels

  /** leaf names the operands of a comparison, with all that evaluating them does. */
  datatype Cond =
    | Compare(rel: Rel, leaf: int)
    | Const(n: int)
    | And(l: Cond, r: Cond)
    | Or(l: Cond, r: Cond)
    | Not(c: Cond)

  /** Roots of a forest: LABELV, JUMPV of a label, and comparisons that jump. */
  datatype Root = Label(lab: int) | Jump(lab: int) | Branch(rel: Rel, leaf: int, lab: int)

  /** Evaluating the operands of a leaf gives two values and leaves another world behind. */
  type Operands<!W> = (int, W) -> (int, int, W)

  /** C's value of a condition and the world after it: the right operand only if it is needed. */
  function Value<W>(ops: Operands<W>, c: Cond, w: W): (bool, W)
    decreases c
  {
    match c
    case Compare(rel, leaf) => var (x, y, w') := ops(leaf, w); (Holds(rel, x, y), w')
    case Const(n) => (n != 0, w)
    case And(l, r) => var (b, w') := Value(ops, l, w); if b then Value(ops, r, w') else (false, w')
    case Or(l, r) => var (b, w') := Value(ops, l, w); if b then (true, w') else Value(ops, r, w')
    case Not(d) => var (b, w') := Value(ops, d, w); (!b, w')
  }

  // ----- listing -----

  /** The forest so far, the links of its labels, and genlabel's counter. */
  datatype Listing = Listing(forest: seq<Root>, links: Links, next: int)

  /** genlabel(1) */
  function Generated(s: Listing): Listing { s.(next := s.next + 1) }

  function Listed(s: Listing, p: Root): Listing { s.(forest := s.forest + [p]) }

  function LabelNode(s: Listing, lab: int): Listing {
    if s.forest != [] && s.forest[|s.forest| - 1].Label?
    then s.(links := s.links[lab := s.forest[|s.forest| - 1].lab])
    else Listed(s, Label(lab))
  }

  /** Exactly one of the labels is to be jumped to; 0 is none. */
  predicate OneLabel(tlab: int, flab: int) {
    (tlab != 0) != (flab != 0)
  }

  function ListNodes(s: Listing, c: Cond, tlab: int, flab: int): Listing
    requires OneLabel(tlab, flab) && s.next > 0
    ensures ListNodes(s, c, tlab, flab).next >= s.next
    decreases c
  {
    match c
    case And(l, r) =>
      if flab != 0 then ListNodes(ListNodes(s, l, 0, flab), r, 0, flab)
      else LabelNode(ListNodes(ListNodes(Generated(s), l, 0, s.next), r, tlab, 0), s.next)
    case Or(l, r) =>
      if tlab != 0 then ListNodes(ListNodes(s, l, tlab, 0), r, tlab, 0)
      else LabelNode(ListNodes(ListNodes(Generated(s), l, s.next, 0), r, 0, flab), s.next)
    case Not(d) => ListNodes(s, d, flab, tlab)
    case Const(n) =>
      if tlab != 0 && n != 0 then Listed(s, Jump(tlab))
      else if flab != 0 && n == 0 then Listed(s, Jump(flab))
      else s
    case Compare(rel, leaf) =>
      if tlab != 0 then Listed(s, Branch(rel, leaf, tlab)) else Listed(s, Branch(Negated(rel), leaf, flab))
  }

  // ----- running a forest -----

  datatype Where = At(p: nat) | Away(lab: int)

  /** Where the label is placed in the forest, from position k on. */
  function Find(forest: seq<Root>, lab: int, k: nat): Where
    requires k <= |forest|
    decreases |forest| - k
  {
    if k == |forest| then Away(lab)
    else if forest[k] == Label(lab) then At(k)
    else Find(forest, lab, k + 1)
  }

  /** A jump goes to the end of its label's chain, as fixup has it. */
  function Target(forest: seq<Root>, final: int -> int, lab: int): Where {
    Find(forest, final(lab), 0)
  }

  /** One root. */
  function Step<W>(ops: Operands<W>, forest: seq<Root>, final: int -> int, p: nat, w: W): (Where, W)
    requires p < |forest|
  {
    match forest[p]
    case Label(_) => (At(p + 1), w)
    case Jump(lab) => (Target(forest, final, lab), w)
    case Branch(rel, leaf, lab) =>
      var (x, y, w') := ops(leaf, w);
      (if Holds(rel, x, y) then Target(forest, final, lab) else At(p + 1), w')
  }

  function Run<W>(ops: Operands<W>, forest: seq<Root>, final: int -> int, at: Where, w: W, n: nat): (Where, W)
    decreases n
  {
    if n == 0 || at.Away? || at.p >= |forest| then (at, w)
    else var (at', w') := Step(ops, forest, final, at.p, w); Run(ops, forest, final, at', w', n - 1)
  }

  ghost predicate Reaches<W>(ops: Operands<W>, forest: seq<Root>, final: int -> int, at: Where, w: W, at': Where,
                             w': W) {
    exists n: nat :: Run(ops, forest, final, at, w, n) == (at', w')
  }

  lemma {:induction false} RunMore<W>(ops: Operands<W>, forest: seq<Root>, final: int -> int, at: Where, w: W, m: nat,
                                      n: nat)
    ensures
      var (at', w') := Run(ops, forest, final, at, w, m);
      Run(ops, forest, final, at, w, m + n) == Run(ops, forest, final, at', w', n)
    decreases m
  {
    if m > 0 && at.At? && at.p < |forest| {
      var (at', w') := Step(ops, forest, final, at.p, w);
      RunMore(ops, forest, final, at', w', m - 1, n);
    } else {
      RunStopped(ops, forest, final, at, w, m + n);
      RunStopped(ops, forest, final, at, w, m);
    }
  }

  lemma {:induction false} RunStopped<W>(ops: Operands<W>, forest: seq<Root>, final: int -> int, at: Where, w: W,
                                         n: nat)
    ensures n == 0 || at.Away? || at.p >= |forest| ==> Run(ops, forest, final, at, w, n) == (at, w)
  {
  }

  lemma ReachesOn<W>(ops: Operands<W>, forest: seq<Root>, final: int -> int,
                     a: Where, wa: W, b: Where, wb: W, c: Where, wc: W)
    requires Reaches(ops, forest, final, a, wa, b, wb) && Reaches(ops, forest, final, b, wb, c, wc)
    ensures Reaches(ops, forest, final, a, wa, c, wc)
  {
    var m: nat :| Run(ops, forest, final, a, wa, m) == (b, wb);
    var n: nat :| Run(ops, forest, final, b, wb, n) == (c, wc);
    RunMore(ops, forest, final, a, wa, m, n);
  }

  lemma ReachesStep<W>(ops: Operands<W>, forest: seq<Root>, final: int -> int, p: nat, w: W)
    requires p < |forest|
    ensures
      var (at', w') := Step(ops, forest, final, p, w);
      Reaches(ops, forest, final, At(p), w, at', w')
  {
    var (at', w') := Step(ops, forest, final, p, w);
    assert Run(ops, forest, final, At(p), w, 1) == Run(ops, forest, final, at', w', 0);
  }

  lemma ReachesItself<W>(ops: Operands<W>, forest: seq<Root>, final: int -> int, at: Where, w: W)
    ensures Reaches(ops, forest, final, at, w, at, w)
  {
    assert Run(ops, forest, final, at, w, 0) == (at, w);
  }

  // ----- labels -----

  /** Every label is placed once, and a placed label is not forwarded. */
  ghost predicate PlacedOnce(forest: seq<Root>, final: int -> int) {
    && (forall i, j :: 0 <= i < j < |forest| && forest[i].Label? && forest[j].Label? ==> forest[i].lab != forest[j].lab)
    && (forall i :: 0 <= i < |forest| && forest[i].Label? ==> final(forest[i].lab) == forest[i].lab)
  }

  lemma {:induction false} FindPlaced(forest: seq<Root>, k: nat, i: nat)
    requires k <= i < |forest| && forest[i].Label?
    requires forall j :: k <= j < i && forest[j].Label? ==> forest[j].lab != forest[i].lab
    ensures Find(forest, forest[i].lab, k) == At(i)
    decreases i - k
  {
    if k < i { FindPlaced(forest, k + 1, i); }
  }

  lemma TargetPlaced(forest: seq<Root>, final: int -> int, lab: int, i: nat)
    requires PlacedOnce(forest, final) && i < |forest| && forest[i].Label? && final(lab) == forest[i].lab
    ensures Target(forest, final, lab) == At(i)
  {
    FindPlaced(forest, 0, i);
  }

  /** final agrees with the links. */
  ghost predicate Agrees(links: Links, final: int -> int) {
    forall l :: l in links ==> final(l) == final(links[l])
  }

  /** s' has listed more, and linked no label again. */
  ghost predicate Extends(s: Listing, s': Listing) {
    && s.forest <= s'.forest && s.next <= s'.next
    && (forall l :: l in s.links ==> l in s'.links && s'.links[l] == s.links[l])
    && (forall l :: l in s'.links && l !in s.links ==> s.next <= l < s'.next)
    && (forall i :: |s.forest| <= i < |s'.forest| && s'.forest[i].Label? ==> s.next <= s'.forest[i].lab < s'.next)
  }

  /** Labels placed and linked so far were all generated, none is both, and none is placed twice. */
  ghost predicate Tidy(s: Listing) {
    && s.next > 0
    && (forall i, j :: 0 <= i < j < |s.forest| && s.forest[i].Label? && s.forest[j].Label? ==>
         s.forest[i].lab != s.forest[j].lab)
    && (forall i :: 0 <= i < |s.forest| && s.forest[i].Label? ==>
         s.forest[i].lab < s.next && s.forest[i].lab !in s.links)
    && (forall l :: l in s.links ==> l < s.next)
  }

  lemma ExtendsThrough(a: Listing, b: Listing, c: Listing)
    requires Extends(a, b) && Extends(b, c)
    ensures Extends(a, c)
  {
  }

  lemma GeneratedExtends(s: Listing)
    requires Tidy(s)
    ensures Extends(s, Generated(s)) && Tidy(Generated(s))
  {
  }

  lemma ListedExtends(s: Listing, p: Root)
    requires Tidy(s) && !p.Label?
    ensures Extends(s, Listed(s, p)) && Tidy(Listed(s, p))
  {
  }

  /** labelnode of a generated label that is neither placed nor linked yet. */
  lemma LabelNodeExtends(a: Listing, s: Listing, lab: int)
    requires Tidy(s) && Extends(a, s) && a.next <= lab < s.next && lab !in s.links
    requires forall i :: 0 <= i < |s.forest| && s.forest[i].Label? ==> s.forest[i].lab != lab
    ensures Extends(a, LabelNode(s, lab)) && Tidy(LabelNode(s, lab))
  {
  }

  /** The label generated before two conditions are listed is neither placed nor linked by them. */
  lemma StillFree(s: Listing, s': Listing)
    requires Tidy(s) && Extends(Generated(s), s')
    ensures s.next !in s'.links
    ensures forall i :: 0 <= i < |s'.forest| && s'.forest[i].Label? ==> s'.forest[i].lab != s.next
  {
  }

  /** Listing a condition adds to the forest, the links and the labels, and leaves them tidy. */
  lemma {:induction false} ListExtends(s: Listing, c: Cond, tlab: int, flab: int)
    requires Tidy(s) && OneLabel(tlab, flab)
    ensures Extends(s, ListNodes(s, c, tlab, flab)) && Tidy(ListNodes(s, c, tlab, flab))
    decreases c
  {
    hide Tidy, Extends;
    TidyCounts(s);
    match c
    case Not(d) => ListExtends(s, d, flab, tlab);
    case Const(n) => ListedExtends(s, Jump(if tlab != 0 then tlab else flab)); Same(s);
    case Compare(rel, leaf) =>
      ListedExtends(s, Branch(if tlab != 0 then rel else Negated(rel), leaf, if tlab != 0 then tlab else flab));
    case And(l, r) =>
      var s1 := if flab != 0 then s else Generated(s);
      GeneratedExtends(s);
      var a := ListNodes(s1, l, 0, if flab != 0 then flab else s.next);
      ListExtends(s1, l, 0, if flab != 0 then flab else s.next);
      ListExtends(a, r, if flab != 0 then 0 else tlab, flab);
      var b := ListNodes(a, r, if flab != 0 then 0 else tlab, flab);
      ExtendsThrough(s1, a, b);
      if flab == 0 { LabelledExtends(s, b); }
    case Or(l, r) =>
      var s1 := if tlab != 0 then s else Generated(s);
      GeneratedExtends(s);
      var a := ListNodes(s1, l, if tlab != 0 then tlab else s.next, 0);
      ListExtends(s1, l, if tlab != 0 then tlab else s.next, 0);
      ListExtends(a, r, tlab, if tlab != 0 then 0 else flab);
      var b := ListNodes(a, r, tlab, if tlab != 0 then 0 else flab);
      ExtendsThrough(s1, a, b);
      if tlab == 0 { LabelledExtends(s, b); }
  }

  lemma TidyCounts(s: Listing)
    requires Tidy(s)
    ensures s.next > 0
  {
  }

  lemma Same(s: Listing)
    ensures Extends(s, s)
  {
  }

  lemma LabelledExtends(s: Listing, b: Listing)
    requires Tidy(s) && Tidy(b) && Extends(Generated(s), b)
    ensures Extends(s, LabelNode(b, s.next)) && Tidy(LabelNode(b, s.next))
  {
    hide Tidy;
    GeneratedExtends(s);
    StillFree(s, b);
    ExtendsThrough(s, Generated(s), b);
    LabelNodeExtends(s, b, s.next);
  }

  // ----- correctness -----

  /** Where a listed condition sends control, for one world. */
  ghost predicate Sends<W>(ops: Operands<W>, forest: seq<Root>, final: int -> int, from: nat, c: Cond,
                           tlab: int, flab: int, to: nat, w: W) {
    var (b, w') := Value(ops, c, w);
    Reaches(ops, forest, final, At(from), w,
            if b == (tlab != 0) then Target(forest, final, if tlab != 0 then tlab else flab) else At(to), w')
  }

  /** The forest and links that s has, as parts of the final ones. */
  ghost predicate PartOf(s: Listing, forest: seq<Root>, final: int -> int) {
    s.forest <= forest && Agrees(s.links, final)
  }

  lemma PartOfBefore(s: Listing, s': Listing, forest: seq<Root>, final: int -> int)
    requires Extends(s, s') && PartOf(s', forest, final)
    ensures PartOf(s, forest, final)
  {
  }

  /** A label after labelnode, and what falls through to it, lead just behind it. */
  lemma LabelArrives<W>(ops: Operands<W>, s: Listing, lab: int, forest: seq<Root>, final: int -> int, w: W)
    requires PartOf(LabelNode(s, lab), forest, final) && PlacedOnce(forest, final)
    ensures Reaches(ops, forest, final, Target(forest, final, lab), w, At(|LabelNode(s, lab).forest|), w)
    ensures Reaches(ops, forest, final, At(|s.forest|), w, At(|LabelNode(s, lab).forest|), w)
  {
    var s' := LabelNode(s, lab);
    var p := |s'.forest| - 1;
    assert forest[p] == s'.forest[p];
    if s'.forest == s.forest {
      assert lab in s'.links;
      ReachesItself(ops, forest, final, At(|s.forest|), w);
    }
    TargetPlaced(forest, final, lab, p);
    ReachesStep(ops, forest, final, p, w);
  }

  lemma JumpListed<W>(ops: Operands<W>, s: Listing, p: Root, forest: seq<Root>, final: int -> int, w: W)
    requires !p.Label? && PartOf(Listed(s, p), forest, final)
    ensures
      var (at', w') := Step(ops, forest, final, |s.forest|, w);
      forest[|s.forest|] == p && Reaches(ops, forest, final, At(|s.forest|), w, at', w')
  {
    assert forest[|s.forest|] == Listed(s, p).forest[|s.forest|];
    ReachesStep(ops, forest, final, |s.forest|, w);
  }

  lemma {:induction false} ConstSends<W>(ops: Operands<W>, s: Listing, n: int, tlab: int, flab: int,
                                         forest: seq<Root>, final: int -> int, w: W)
    requires OneLabel(tlab, flab) && s.next > 0
    requires PartOf(ListNodes(s, Const(n), tlab, flab), forest, final)
    ensures Sends(ops, forest, final, |s.forest|, Const(n), tlab, flab, |ListNodes(s, Const(n), tlab, flab).forest|, w)
  {
    var s' := ListNodes(s, Const(n), tlab, flab);
    if s' == s {
      ReachesItself(ops, forest, final, At(|s.forest|), w);
    } else {
      JumpListed(ops, s, Jump(if tlab != 0 then tlab else flab), forest, final, w);
    }
  }

  lemma NegatedHolds(rel: Rel, x: int, y: int)
    ensures Holds(Negated(rel), x, y) == !Holds(rel, x, y)
  {
  }

  lemma {:induction false} CompareSends<W>(ops: Operands<W>, s: Listing, rel: Rel, leaf: int, tlab: int, flab: int,
                        forest: seq<Root>, final: int -> int, w: W)
    requires OneLabel(tlab, flab) && s.next > 0
    requires PartOf(ListNodes(s, Compare(rel, leaf), tlab, flab), forest, final)
    ensures Sends(ops, forest, final, |s.forest|, Compare(rel, leaf), tlab, flab,
                  |ListNodes(s, Compare(rel, leaf), tlab, flab).forest|, w)
  {
    hide Holds, Negated, Target;
    var p := if tlab != 0 then Branch(rel, leaf, tlab) else Branch(Negated(rel), leaf, flab);
    NegatedHolds(rel, ops(leaf, w).0, ops(leaf, w).1);
    JumpListed(ops, s, p, forest, final, w);
  }

  /** Two conditions listed one after the other, the second only reached past the first. */
  lemma {:induction false} SequenceSends<W>(ops: Operands<W>, forest: seq<Root>, final: int -> int, i: nat, j: nat,
                                            k: nat,
                         l: Cond, tl: int, fl: int, r: Cond, tr: int, fr: int, w: W)
    requires OneLabel(tl, fl) && OneLabel(tr, fr)
    requires Sends(ops, forest, final, i, l, tl, fl, j, w)
    requires Sends(ops, forest, final, j, r, tr, fr, k, Value(ops, l, w).1)
    ensures
      var (b, w1) := Value(ops, l, w);
      var (b', w2) := Value(ops, r, w1);
      if b == (tl != 0)
      then Reaches(ops, forest, final, At(i), w, Target(forest, final, if tl != 0 then tl else fl), w1)
      else Reaches(ops, forest, final, At(i), w,
                   if b' == (tr != 0) then Target(forest, final, if tr != 0 then tr else fr) else At(k), w2)
  {
    var (b, w1) := Value(ops, l, w);
    var (b', w2) := Value(ops, r, w1);
    if b != (tl != 0) {
      ReachesOn(ops, forest, final, At(i), w, At(j), w1,
                if b' == (tr != 0) then Target(forest, final, if tr != 0 then tr else fr) else At(k), w2);
    }
  }

  /** && and || with a generated label behind them: jumps to it and falling through end at the same place. */
  lemma {:induction false} BehindSends<W>(ops: Operands<W>, forest: seq<Root>, final: int -> int, i: nat, b: Listing,
                                          lab: int,
                       c: Cond, l: Cond, tl: int, fl: int, r: Cond, tr: int, fr: int, w: W)
    requires (c == And(l, r) && tl == 0 && fl == lab && fr == 0) || (c == Or(l, r) && tl == lab && fl == 0 && tr == 0)
    requires OneLabel(tl, fl) && OneLabel(tr, fr)
    requires PartOf(LabelNode(b, lab), forest, final) && PlacedOnce(forest, final)
    requires
      var (v, w1) := Value(ops, l, w);
      var (v', w2) := Value(ops, r, w1);
      if v == (tl != 0)
      then Reaches(ops, forest, final, At(i), w, Target(forest, final, lab), w1)
      else Reaches(ops, forest, final, At(i), w,
                   if v' == (tr != 0) then Target(forest, final, if tr != 0 then tr else fr) else At(|b.forest|), w2)
    ensures Sends(ops, forest, final, i, c, tr, fr, |LabelNode(b, lab).forest|, w)
  {
    var (v, w1) := Value(ops, l, w);
    var (v', w2) := Value(ops, r, w1);
    var end := At(|LabelNode(b, lab).forest|);
    LabelArrives(ops, b, lab, forest, final, w1);
    LabelArrives(ops, b, lab, forest, final, w2);
    if v == (tl != 0) {
      ReachesOn(ops, forest, final, At(i), w, Target(forest, final, lab), w1, end, w1);
    } else if v' != (tr != 0) {
      ReachesOn(ops, forest, final, At(i), w, At(|b.forest|), w2, end, w2);
    }
  }

  lemma {:induction false} SequenceParts(s: Listing, l: Cond, tl: int, fl: int, r: Cond, tr: int, fr: int,
                                         forest: seq<Root>, final: int -> int)
    requires Tidy(s) && s.next > 0 && OneLabel(tl, fl) && OneLabel(tr, fr)
    requires PartOf(ListNodes(ListNodes(s, l, tl, fl), r, tr, fr), forest, final)
    ensures Tidy(ListNodes(s, l, tl, fl)) && PartOf(ListNodes(s, l, tl, fl), forest, final)
  {
    hide Tidy, Extends, PartOf;
    var a := ListNodes(s, l, tl, fl);
    ListExtends(s, l, tl, fl);
    ListExtends(a, r, tr, fr);
    PartOfBefore(a, ListNodes(a, r, tr, fr), forest, final);
  }

  /** SequenceSends for two conditions as they have been listed. */
  lemma {:induction false} SequenceListed<W>(ops: Operands<W>, s: Listing, l: Cond, tl: int, fl: int,
                                             r: Cond, tr: int, fr: int, forest: seq<Root>, final: int -> int, w: W)
    requires s.next > 0 && OneLabel(tl, fl) && OneLabel(tr, fr)
    requires Sends(ops, forest, final, |s.forest|, l, tl, fl, |ListNodes(s, l, tl, fl).forest|, w)
    requires Sends(ops, forest, final, |ListNodes(s, l, tl, fl).forest|, r, tr, fr,
                   |ListNodes(ListNodes(s, l, tl, fl), r, tr, fr).forest|, Value(ops, l, w).1)
    ensures
      var (v, w1) := Value(ops, l, w);
      var (v', w2) := Value(ops, r, w1);
      var end := |ListNodes(ListNodes(s, l, tl, fl), r, tr, fr).forest|;
      if v == (tl != 0)
      then Reaches(ops, forest, final, At(|s.forest|), w, Target(forest, final, if tl != 0 then tl else fl), w1)
      else Reaches(ops, forest, final, At(|s.forest|), w,
                   if v' == (tr != 0) then Target(forest, final, if tr != 0 then tr else fr) else At(end), w2)
  {
    hide Reaches, Target;
    var a := ListNodes(s, l, tl, fl);
    SequenceSends(ops, forest, final, |s.forest|, |a.forest|, |ListNodes(a, r, tr, fr).forest|,
                  l, tl, fl, r, tr, fr, w);
  }

  /**
   * What listnodes lists for a condition jumps to tlab exactly when the condition holds, or to
   * flab exactly when it does not, and otherwise falls through; it evaluates what C evaluates,
   * in C's order. forest is the whole list in the end and final the last label of each chain.
   */
  lemma {:induction false} ListCorrect<W>(ops: Operands<W>, s: Listing, c: Cond, tlab: int, flab: int,
                                          forest: seq<Root>, final: int -> int, w: W)
    requires Tidy(s) && OneLabel(tlab, flab)
    requires s.next > 0
    requires PartOf(ListNodes(s, c, tlab, flab), forest, final) && PlacedOnce(forest, final)
    ensures Sends(ops, forest, final, |s.forest|, c, tlab, flab, |ListNodes(s, c, tlab, flab).forest|, w)
    decreases c
  {
    hide Tidy, Extends, PartOf, PlacedOnce, LabelNode, Reaches, Target;
    match c
    case Not(d) => ListCorrect(ops, s, d, flab, tlab, forest, final, w);
    case Const(n) => ConstSends(ops, s, n, tlab, flab, forest, final, w);
    case Compare(rel, leaf) => CompareSends(ops, s, rel, leaf, tlab, flab, forest, final, w);
    case And(l, r) =>
      GeneratedExtends(s);
      if flab != 0 {
        SequenceParts(s, l, 0, flab, r, 0, flab, forest, final);
        ListCorrect(ops, s, l, 0, flab, forest, final, w);
        ListCorrect(ops, ListNodes(s, l, 0, flab), r, 0, flab, forest, final, Value(ops, l, w).1);
        SequenceListed(ops, s, l, 0, flab, r, 0, flab, forest, final, w);
      } else {
        var s1 := Generated(s);
        var b := ListNodes(ListNodes(s1, l, 0, s.next), r, tlab, 0);
        BeforeLabel(s, l, 0, s.next, r, tlab, 0, forest, final);
        SequenceParts(s1, l, 0, s.next, r, tlab, 0, forest, final);
        ListCorrect(ops, s1, l, 0, s.next, forest, final, w);
        ListCorrect(ops, ListNodes(s1, l, 0, s.next), r, tlab, 0, forest, final, Value(ops, l, w).1);
        SequenceListed(ops, s1, l, 0, s.next, r, tlab, 0, forest, final, w);
        BehindSends(ops, forest, final, |s.forest|, b, s.next, c, l, 0, s.next, r, tlab, 0, w);
      }
    case Or(l, r) =>
      GeneratedExtends(s);
      if tlab != 0 {
        SequenceParts(s, l, tlab, 0, r, tlab, 0, forest, final);
        ListCorrect(ops, s, l, tlab, 0, forest, final, w);
        ListCorrect(ops, ListNodes(s, l, tlab, 0), r, tlab, 0, forest, final, Value(ops, l, w).1);
        SequenceListed(ops, s, l, tlab, 0, r, tlab, 0, forest, final, w);
      } else {
        var s1 := Generated(s);
        var b := ListNodes(ListNodes(s1, l, s.next, 0), r, 0, flab);
        BeforeLabel(s, l, s.next, 0, r, 0, flab, forest, final);
        SequenceParts(s1, l, s.next, 0, r, 0, flab, forest, final);
        ListCorrect(ops, s1, l, s.next, 0, forest, final, w);
        ListCorrect(ops, ListNodes(s1, l, s.next, 0), r, 0, flab, forest, final, Value(ops, l, w).1);
        SequenceListed(ops, s1, l, s.next, 0, r, 0, flab, forest, final, w);
        BehindSends(ops, forest, final, |s.forest|, b, s.next, c, l, s.next, 0, r, 0, flab, w);
      }
  }

  lemma {:induction false} BeforeLabel(s: Listing, l: Cond, tl: int, fl: int, r: Cond, tr: int, fr: int,
                                       forest: seq<Root>, final: int -> int)
    requires Tidy(s) && s.next > 0 && OneLabel(tl, fl) && OneLabel(tr, fr)
    requires PartOf(LabelNode(ListNodes(ListNodes(Generated(s), l, tl, fl), r, tr, fr), s.next), forest, final)
    ensures PartOf(ListNodes(ListNodes(Generated(s), l, tl, fl), r, tr, fr), forest, final)
  {
    var a := ListNodes(Generated(s), l, tl, fl);
    var b := ListNodes(a, r, tr, fr);
    GeneratedExtends(s);
    ListExtends(Generated(s), l, tl, fl);
    ListExtends(a, r, tr, fr);
    ExtendsThrough(Generated(s), a, b);
    StillFree(s, b);
    forall x | x in b.links ensures final(x) == final(b.links[x]) {
      assert x in LabelNode(b, s.next).links;
    }
  }

  // ----- whole conditions -----

  lemma LabelNodeAcyclic(b: Listing, lab: int)
    requires Tidy(b) && Acyclic(b.links) && lab !in b.links
    requires forall i :: 0 <= i < |b.forest| && b.forest[i].Label? ==> b.forest[i].lab != lab
    ensures Acyclic(LabelNode(b, lab).links)
  {
    if b.forest != [] && b.forest[|b.forest| - 1].Label? {
      var x := b.forest[|b.forest| - 1].lab;
      OnChainNext(b.links, lab, x);
      LinkKeepsAcyclic(b.links, lab, x);
    }
  }

  lemma {:induction false} LabelledAcyclic(s: Listing, b: Listing)
    requires Tidy(s) && Tidy(b) && Extends(Generated(s), b) && Acyclic(b.links)
    ensures Acyclic(LabelNode(b, s.next).links)
  {
    StillFree(s, b);
    LabelNodeAcyclic(b, s.next);
  }

  /** Forwarding a label to the label in front of it never closes a cycle. */
  lemma {:induction false} ListAcyclic(s: Listing, c: Cond, tlab: int, flab: int)
    requires Tidy(s) && OneLabel(tlab, flab) && Acyclic(s.links)
    requires s.next > 0
    ensures Acyclic(ListNodes(s, c, tlab, flab).links)
    decreases c
  {
    hide Tidy, Extends, Acyclic, LabelNode;
    match c
    case Not(d) => ListAcyclic(s, d, flab, tlab);
    case Const(_) =>
    case Compare(_, _) =>
    case And(l, r) =>
      var s1 := if flab != 0 then s else Generated(s);
      GeneratedExtends(s);
      var fl := if flab != 0 then flab else s.next;
      var a := ListNodes(s1, l, 0, fl);
      ListExtends(s1, l, 0, fl);
      ListAcyclic(s1, l, 0, fl);
      ListAcyclic(a, r, if flab != 0 then 0 else tlab, flab);
      if flab == 0 {
        ListExtends(a, r, tlab, 0);
        ExtendsThrough(s1, a, ListNodes(a, r, tlab, 0));
        LabelledAcyclic(s, ListNodes(a, r, tlab, 0));
      }
    case Or(l, r) =>
      var s1 := if tlab != 0 then s else Generated(s);
      GeneratedExtends(s);
      var tl := if tlab != 0 then tlab else s.next;
      var a := ListNodes(s1, l, tl, 0);
      ListExtends(s1, l, tl, 0);
      ListAcyclic(s1, l, tl, 0);
      ListAcyclic(a, r, tlab, if tlab != 0 then 0 else flab);
      if tlab == 0 {
        ListExtends(a, r, 0, flab);
        ExtendsThrough(s1, a, ListNodes(a, r, 0, flab));
        LabelledAcyclic(s, ListNodes(a, r, 0, flab));
      }
  }

  lemma {:induction false} FindAway(forest: seq<Root>, lab: int, k: nat)
    requires k <= |forest| && forall i :: k <= i < |forest| && forest[i].Label? ==> forest[i].lab != lab
    ensures Find(forest, lab, k) == Away(lab)
    decreases |forest| - k
  {
    if k < |forest| { FindAway(forest, lab, k + 1); }
  }

  /**
   * A condition walked on its own: its links end, and run from the start its forest leaves for
   * the outer label when the condition asks for it and else falls out of the end.
   */
  lemma {:induction false} WalkCorrect<W>(ops: Operands<W>, s: Listing, c: Cond, tlab: int, flab: int,
                                          final: int -> int, w: W)
    requires Tidy(s) && s.next > 0 && s.forest == [] && OneLabel(tlab, flab) && Acyclic(s.links)
    requires
      var lab := if tlab != 0 then tlab else flab;
      lab < s.next && lab !in s.links
    requires Resolves(ListNodes(s, c, tlab, flab).links, final)
    ensures Acyclic(ListNodes(s, c, tlab, flab).links)
    ensures
      var forest, (b, w') := ListNodes(s, c, tlab, flab).forest, Value(ops, c, w);
      Reaches(ops, forest, final, At(0), w,
              if b == (tlab != 0) then Away(if tlab != 0 then tlab else flab) else At(|forest|), w')
  {
    var s', lab := ListNodes(s, c, tlab, flab), if tlab != 0 then tlab else flab;
    ListAcyclic(s, c, tlab, flab);
    ListExtends(s, c, tlab, flab);
    ListCorrect(ops, s, c, tlab, flab, s'.forest, final, w);
    FindAway(s'.forest, lab, 0);
  }

  /** The forest, the labels and their links as listnodes keeps them. */
  class Lister {
    var forest: seq<Root>
    var equatedto: Links
    var next: int

    ghost function View(): Listing
      reads this
    {
      Listing(forest, equatedto, next)
    }

    method GenLabel() returns (lab: int)
      modifies this`next
      ensures lab == old(next) && View() == Generated(old(View()))
    {
      lab := next;
      next := next + 1;
    }

    method List(p: Root)
      modifies this`forest
      ensures View() == Listed(old(View()), p)
    {
      forest := forest + [p];
    }

    method PlaceLabel(lab: int)
      modifies this
      ensures View() == LabelNode(old(View()), lab)
    {
      if forest != [] && forest[|forest| - 1].Label? {
        equatedto := equatedto[lab := forest[|forest| - 1].lab];
      } else {
        List(Label(lab));
      }
    }

    method Walk(c: Cond, tlab: int, flab: int)
      requires OneLabel(tlab, flab) && next > 0
      modifies this
      ensures View() == ListNodes(old(View()), c, tlab, flab)
      decreases c
    {
      match c
      case And(l, r) =>
        if flab != 0 {
          Walk(l, 0, flab);
          Walk(r, 0, flab);
        } else {
          var lab := GenLabel();
          Walk(l, 0, lab);
          Walk(r, tlab, 0);
          PlaceLabel(lab);
        }
      case Or(l, r) =>
        if tlab != 0 {
          Walk(l, tlab, 0);
          Walk(r, tlab, 0);
        } else {
          var lab := GenLabel();
          Walk(l, lab, 0);
          Walk(r, 0, flab);
          PlaceLabel(lab);
        }
      case Not(d) => Walk(d, flab, tlab);
      case Const(n) =>
        if tlab != 0 && n != 0 {
          List(Jump(tlab));
        } else if flab != 0 && n == 0 {
          List(Jump(flab));
        }
      case Compare(rel, leaf) =>
        if tlab != 0 {
          List(Branch(rel, leaf, tlab));
        } else {
          List(Branch(Negated(rel), leaf, flab));
        }
    }
  }
}
