// The run of listnodes over a tree (lcc/src/dag.c): which nodes it makes or finds, what
// it lists, and what its cache holds afterwards.

module ValueNumbering {
  import opened Words
  import opened NodeCache
  import opened Comparisons

  // ----- trees -----

  /**
   * A tree has an identity: it remembers the node it has been listed as, and trees share
   * subtrees. Missing is an absent kid.
   */
  datatype Tree = Missing | Tree(id: nat, shape: Shape)

  /** Expressions, as far as the cache can tell them apart. */
  datatype Shape =
    | Const(n: int)
    | Addr(sym: Sym)
    | Load(volatile: bool, a: Tree)
    | Pure(code: int, l: Tree, r: Tree)
    | Store(a: Tree, v: Tree)
    | Call(f: Tree, args: Tree)
    | Arg(v: Tree, rest: Tree)
    | Both(l: Tree, r: Tree)                            // RIGHT
    | And(l: Tree, r: Tree)
    | Or(l: Tree, r: Tree)
    | Not(u: Tree)
    | Compare(rel: Rel, l: Tree, r: Tree)
    | Choose(test: Tree, t: Tree, e: Tree, value: Tree) // ?:, and the temporary it leaves its value in
    | Goto(u: Tree)                                     // a JUMP tree

  /** The labels listnodes is called with: none, or one to jump to if the tree is true, or false. */
  datatype Context = NoLabel | IfTrue | IfFalse

  function Flipped(c: Context): Context {
    match c case NoLabel => NoLabel case IfTrue => IfFalse case IfFalse => IfTrue
  }

  const ASGN := 3
  const ARG := 2
  const CALL := 5
  const JUMP := 36

  predicate AddressTree(t: Tree) {
    t.Tree? && t.shape.Addr?
  }

  /** (load, assignment through the same address tree): the value is what was loaded. */
  predicate KeepsLoad(l: Tree, r: Tree) {
    && l.Tree? && l.shape.Load? && r.Tree? && r.shape.Store?
    && l.shape.a.Tree? && r.shape.a.Tree? && l.shape.a.id == r.shape.a.id
  }

  // ----- what listing a tree does -----

  /** The cache after a tree has been listed; its node, if it has one, with the symbol that is the address of. */
  datatype Outcome = Outcome(parts: Parts, node: Option<Option<Sym>>)

  /** What a load reads whose address has been listed as that node. */
  function LoadKey(node: Option<Option<Sym>>): Key {
    match node case Some(Some(sym)) => Of(sym) case _ => Through
  }

  function Assigned(target: Tree, a: Parts): Parts {
    if AddressTree(target) && target.shape.sym.Program? then KilledFor(a, target.shape.sym)
    else Barred(a, Assign(if AddressTree(target) then Some(target.shape.sym) else None))
  }

  /** A constant as a condition: a jump if it is decided that way. */
  function Decided(n: int, c: Context, a: Parts): Parts {
    if (c == IfTrue && n != 0) || (c == IfFalse && n == 0) then Skipped(a) else a
  }

  /** listnodes, depth conditions deep. */
  function Listed(t: Tree, c: Context, depth: nat, a: Parts): Outcome
    decreases t
  {
    match t
    case Missing => Outcome(a, None)
    case Tree(id, shape) =>
      if id in a.memo then Outcome(a, Some(a.memo[id]))
      else
        var o := ListedShape(shape, c, depth, a);
        if shape.Not? then o else Outcome(Noted(o.parts, id, o.node), o.node)
  }

  /** The arms of the switch in listnodes. */
  function ListedShape(shape: Shape, c: Context, depth: nat, a: Parts): Outcome
    decreases shape
  {
    match shape
    case Const(n) =>
      if c != NoLabel then Outcome(Decided(n, c, a), None) else Outcome(Looked(a, Plain), Some(None))
    case Addr(sym) => Outcome(Looked(a, Plain), Some(Some(sym)))
    case Load(volatile, l) =>
      var o := Listed(l, NoLabel, depth, a);
      Outcome(if volatile then o.parts else Looked(o.parts, LoadKey(o.node)), Some(None))
    case Pure(_, l, r) =>
      Outcome(Looked(Listed(r, NoLabel, depth, Listed(l, NoLabel, depth, a).parts).parts, Plain), Some(None))
    case Store(l, v) =>
      Listed(v, NoLabel, depth, Assigned(l, Listed(v, NoLabel, depth, Listed(l, NoLabel, depth, a).parts).parts))
    case Call(f, args) =>
      Outcome(Barred(Listed(args, NoLabel, depth, Listed(f, NoLabel, depth, a).parts).parts, Called), Some(None))
    case Arg(v, rest) =>
      Outcome(Listed(v, NoLabel, depth, Listed(rest, NoLabel, depth, a).parts).parts, None)
    case Both(l, r) =>
      if KeepsLoad(l, r) then
        var o := Listed(l, NoLabel, depth, a);
        Outcome(Listed(r, NoLabel, depth, o.parts).parts, o.node)
      else if r.Missing? then Listed(l, c, depth, a)
      else Listed(r, c, depth, Listed(l, NoLabel, depth, a).parts)
    case And(l, r) =>
      var a0 := if depth == 0 then Cleared(a) else a;
      var b := Listed(r, c, depth + 1, Listed(l, IfFalse, depth + 1, a0).parts).parts;
      Outcome(if c == IfFalse then b else Barred(b, Label), None)
    case Or(l, r) =>
      var a0 := if depth == 0 then Cleared(a) else a;
      var b := Listed(r, c, depth + 1, Listed(l, IfTrue, depth + 1, a0).parts).parts;
      Outcome(if c == IfTrue then b else Barred(b, Label), None)
    case Not(u) => Listed(u, Flipped(c), depth, a)
    case Compare(_, l, r) =>
      Outcome(Listed(r, NoLabel, depth, Listed(l, NoLabel, depth, a).parts).parts, None)
    case Choose(test, x, y, value) =>
      var b1 := Cleared(Listed(test, IfFalse, depth, a).parts);
      var b2 := Barred(Skipped(Listed(x, NoLabel, depth, b1).parts), Label);
      var b3 := Barred(Listed(y, NoLabel, depth, b2).parts, Label);
      Listed(value, NoLabel, depth, b3)
    case Goto(u) => Outcome(Barred(Listed(u, NoLabel, depth, a).parts, NodeCache.Goto), None)
  }

  /** Trees with a place at their end that control comes to in two ways, or not from before it. */
  predicate Joins(shape: Shape, c: Context) {
    match shape
    case And(_, _) => c != IfFalse
    case Or(_, _) => c != IfTrue
    case Call(_, _) => true
    case Goto(_) => true
    case Choose(_, _, _, value) => value.Missing?
    case _ => false
  }

  /**
   * Behind such a tree no entry is left, and the last thing listed is the label, the call or the
   * jump; and an outermost && or || is listed in the same way whatever was cached before it.
   */
  lemma {:induction false} JoinsForget(shape: Shape, c: Context, depth: nat, a: Parts)
    ensures
      var b := ListedShape(shape, c, depth, a).parts;
      Joins(shape, c) ==>
        && b.keys == {} && b.jumped == {} && b.stale == {} && b.log != []
        && b.log[|b.log| - 1] == if shape.Call? then Called else if shape.Goto? then NodeCache.Goto else Label
    ensures (shape.And? || shape.Or?) && depth == 0 ==>
      ListedShape(shape, c, depth, a) == ListedShape(shape, c, depth, Cleared(a))
  {
    hide Listed;
    if shape.Choose? && shape.value.Missing? {
      ChooseIs(shape.test, shape.t, shape.e, shape.value, depth, a);
      MissingIs(NoLabel, depth);
    }
    assert Cleared(Cleared(a)) == Cleared(a);
  }

  lemma {:induction false} MissingIs(c: Context, depth: nat)
    ensures forall a :: Listed(Missing, c, depth, a) == Outcome(a, None)
  {
  }

  /** Shared trees are listed once: listed again, a tree that has a node adds nothing and gives that node. */
  lemma {:induction false} ListedOnce(t: Tree, c: Context, depth: nat, a: Parts, c': Context, depth': nat)
    requires t.Tree? && !t.shape.Not? && Listed(t, c, depth, a).node.Some?
    ensures
      var o := Listed(t, c, depth, a);
      Listed(t, c', depth', o.parts) == o && Roots(t, c', depth', o.parts) == []
  {
    hide ListedShape;
  }

  /** A constant as a condition lists a jump exactly if it is true and the label is for that, or false and so. */
  lemma DecidedMeans(n: int, c: Context, a: Parts)
    requires c != NoLabel
    ensures Decided(n, c, a).log == a.log + if (n != 0) == (c == IfTrue) then [Jump] else []
  {
  }

  // ----- the nodes of trees -----

  /** Each identity is that of one tree: shared subtrees are equal. */
  ghost predicate Known(t: Tree, table: map<nat, Tree>) {
    t.Tree? ==> t.id in table && table[t.id] == t && KnownShape(t.shape, table)
  }

  ghost predicate KnownShape(shape: Shape, table: map<nat, Tree>) {
    match shape
    case Const(_) => true
    case Addr(_) => true
    case Load(_, l) => Known(l, table)
    case Pure(_, l, r) => Known(l, table) && Known(r, table)
    case Store(l, v) => Known(l, table) && Known(v, table)
    case Call(f, args) => Known(f, table) && Known(args, table)
    case Arg(v, rest) => Known(v, table) && Known(rest, table)
    case Both(l, r) => Known(l, table) && Known(r, table)
    case And(l, r) => Known(l, table) && Known(r, table)
    case Or(l, r) => Known(l, table) && Known(r, table)
    case Not(u) => Known(u, table)
    case Compare(_, l, r) => Known(l, table) && Known(r, table)
    case Choose(test, x, y, value) => Known(test, table) && Known(x, table) && Known(y, table) && Known(value, table)
    case Goto(u) => Known(u, table)
  }

  /** Trees that may have no node when they are listed with those labels. */
  predicate Nodeless(t: Tree, c: Context) {
    t.Missing? || NodelessShape(t.shape, c)
  }

  predicate NodelessShape(shape: Shape, c: Context) {
    match shape
    case Const(_) => c != NoLabel
    case Addr(_) => false
    case Load(_, _) => false
    case Pure(_, _, _) => false
    case Call(_, _) => false
    case Store(_, v) => Nodeless(v, NoLabel)
    case Both(l, r) => if KeepsLoad(l, r) then false else if r.Missing? then Nodeless(l, c) else Nodeless(r, c)
    case Not(u) => Nodeless(u, Flipped(c))
    case Choose(_, _, _, value) => Nodeless(value, NoLabel)
    case _ => true
  }

  /** Node p is the tree: its operator, over the nodes of its kids, each in its place. */
  predicate Spells(nodes: seq<Node>, p: int, t: Tree)
    decreases t, 0
  {
    0 <= p < |nodes| && t.Tree? && SpellsShape(nodes, p, t.shape)
  }

  predicate SpellsShape(nodes: seq<Node>, p: int, shape: Shape)
    requires 0 <= p < |nodes|
    decreases shape, 0
  {
    var n := nodes[p];
    match shape
    case Const(v) => n == Node(CNST(v), -1, -1, None)
    case Addr(sym) => n == Node(ADDR, -1, -1, Some(sym))
    case Load(_, l) => n == Node(INDIR, n.l, -1, None) && Spelled(nodes, n.l, l, NoLabel)
    case Pure(code, l, r) =>
      n == Node(Op.Other(code), n.l, n.r, None) && Spelled(nodes, n.l, l, NoLabel) && Spelled(nodes, n.r, r, NoLabel)
    case Call(f, args) =>
      n == Node(Op.Other(CALL), n.l, n.r, None) && Spelled(nodes, n.l, f, NoLabel) && Spelled(nodes, n.r, args, NoLabel)
    case Store(_, v) => Spells(nodes, p, v)
    case Both(l, r) => if KeepsLoad(l, r) || r.Missing? then Spells(nodes, p, l) else Spells(nodes, p, r)
    case Not(u) => Spells(nodes, p, u)
    case Choose(_, _, _, value) => Spells(nodes, p, value)
    case _ => false
  }

  /** The node of a tree that has been listed, -1 if it has none. */
  predicate Spelled(nodes: seq<Node>, p: int, t: Tree, c: Context)
    decreases t, 1
  {
    if p == -1 then Nodeless(t, c) else Spells(nodes, p, t)
  }

  predicate SpeltAs(nodes: seq<Node>, p: int, shape: Shape, c: Context) {
    if p == -1 then NodelessShape(shape, c) else 0 <= p < |nodes| && SpellsShape(nodes, p, shape)
  }

  /** A root with operands, as the trees it stands for. */
  datatype Root =
    | Assigns(target: Tree, v: Tree)
    | Passes(v: Tree)
    | Calls(f: Tree, args: Tree)
    | Branches(rel: Rel, l: Tree, r: Tree)
    | GoesTo(u: Tree)

  /** The node is that root, over the nodes of its trees. */
  predicate RootOver(nodes: seq<Node>, n: Node, root: Root) {
    match root
    case Assigns(l, v) =>
      n == Node(Op.Other(ASGN), n.l, n.r, None) && Spelled(nodes, n.l, l, NoLabel) && Spelled(nodes, n.r, v, NoLabel)
    case Passes(v) => n == Node(Op.Other(ARG), n.l, -1, None) && Spelled(nodes, n.l, v, NoLabel)
    case Calls(f, args) =>
      n == Node(Op.Other(CALL), n.l, n.r, None) && Spelled(nodes, n.l, f, NoLabel) && Spelled(nodes, n.r, args, NoLabel)
    case Branches(rel, l, r) =>
      n == Node(Branch(rel), n.l, n.r, None) && Spelled(nodes, n.l, l, NoLabel) && Spelled(nodes, n.r, r, NoLabel)
    case GoesTo(u) => n == Node(Op.Other(JUMP), n.l, -1, None) && Spelled(nodes, n.l, u, NoLabel)
  }

  predicate RootSpells(nodes: seq<Node>, p: int, root: Root) {
    0 <= p < |nodes| && RootOver(nodes, nodes[p], root)
  }

  /** The trees remember nodes that spell them, and the roots are those listed. */
  ghost predicate Spelt(nodes: seq<Node>, memo: map<nat, int>, roots: seq<int>, listed: seq<Root>,
                        table: map<nat, Tree>) {
    && (forall id :: id in memo && id in table ==> Spells(nodes, memo[id], table[id]))
    && |roots| == |listed| && forall k :: 0 <= k < |roots| ==> RootSpells(nodes, roots[k], listed[k])
  }

  /** The relation to branch on, for a label to go to if the comparison is true or if it is false. */
  function BranchRel(rel: Rel, c: Context): Rel {
    if c == IfFalse then Negated(rel) else rel
  }

  lemma BranchMeans(rel: Rel, c: Context, x: int, y: int)
    requires c != NoLabel
    ensures Holds(BranchRel(rel, c), x, y) <==> (Holds(rel, x, y) <==> c == IfTrue)
  {
  }

  /** The roots with operands that listing a tree adds, in order. */
  function Roots(t: Tree, c: Context, depth: nat, a: Parts): seq<Root>
    decreases t
  {
    match t
    case Missing => []
    case Tree(id, shape) => if id in a.memo then [] else RootsOf(shape, c, depth, a)
  }

  function RootsOf(shape: Shape, c: Context, depth: nat, a: Parts): seq<Root>
    decreases shape
  {
    match shape
    case Const(_) => []
    case Addr(_) => []
    case Load(_, l) => Roots(l, NoLabel, depth, a)
    case Pure(_, l, r) => Roots(l, NoLabel, depth, a) + Roots(r, NoLabel, depth, Listed(l, NoLabel, depth, a).parts)
    case Store(l, v) =>
      var b := Listed(l, NoLabel, depth, a).parts;
      Roots(l, NoLabel, depth, a) + Roots(v, NoLabel, depth, b) + [Assigns(l, v)]
      + Roots(v, NoLabel, depth, Assigned(l, Listed(v, NoLabel, depth, b).parts))
    case Call(f, args) =>
      Roots(f, NoLabel, depth, a) + Roots(args, NoLabel, depth, Listed(f, NoLabel, depth, a).parts) + [Calls(f, args)]
    case Arg(v, rest) =>
      Roots(rest, NoLabel, depth, a) + Roots(v, NoLabel, depth, Listed(rest, NoLabel, depth, a).parts) + [Passes(v)]
    case Both(l, r) =>
      if KeepsLoad(l, r) then
        Roots(l, NoLabel, depth, a) + Roots(r, NoLabel, depth, Listed(l, NoLabel, depth, a).parts)
      else if r.Missing? then Roots(l, c, depth, a)
      else Roots(l, NoLabel, depth, a) + Roots(r, c, depth, Listed(l, NoLabel, depth, a).parts)
    case And(l, r) =>
      var a0 := if depth == 0 then Cleared(a) else a;
      Roots(l, IfFalse, depth + 1, a0) + Roots(r, c, depth + 1, Listed(l, IfFalse, depth + 1, a0).parts)
    case Or(l, r) =>
      var a0 := if depth == 0 then Cleared(a) else a;
      Roots(l, IfTrue, depth + 1, a0) + Roots(r, c, depth + 1, Listed(l, IfTrue, depth + 1, a0).parts)
    case Not(u) => Roots(u, Flipped(c), depth, a)
    case Compare(rel, l, r) =>
      Roots(l, NoLabel, depth, a) + Roots(r, NoLabel, depth, Listed(l, NoLabel, depth, a).parts)
      + (if c == NoLabel then [] else [Branches(BranchRel(rel, c), l, r)])
    case Choose(test, x, y, value) =>
      var b1 := Cleared(Listed(test, IfFalse, depth, a).parts);
      var b2 := Barred(Skipped(Listed(x, NoLabel, depth, b1).parts), Label);
      var b3 := Barred(Listed(y, NoLabel, depth, b2).parts, Label);
      Roots(test, IfFalse, depth, a) + Roots(x, NoLabel, depth, b1) + Roots(y, NoLabel, depth, b2)
      + Roots(value, NoLabel, depth, b3)
    case Goto(u) => Roots(u, NoLabel, depth, a) + [GoesTo(u)]
  }

  /** Nodes that are added leave the older ones as they spell. */
  lemma {:induction false} SpellsLater(nodes: seq<Node>, nodes': seq<Node>, p: int, t: Tree)
    requires nodes <= nodes' && Spells(nodes, p, t)
    ensures Spells(nodes', p, t)
    decreases t, 1
  {
    ShapeLater(nodes, nodes', p, t.shape);
  }

  lemma {:induction false} ShapeLater(nodes: seq<Node>, nodes': seq<Node>, p: int, shape: Shape)
    requires nodes <= nodes' && 0 <= p < |nodes| && SpellsShape(nodes, p, shape)
    ensures SpellsShape(nodes', p, shape)
    decreases shape, 0
  {
    var n := nodes[p];
    match shape
    case Load(_, l) => SpelledLater(nodes, nodes', n.l, l, NoLabel);
    case Pure(_, l, r) => SpelledLater(nodes, nodes', n.l, l, NoLabel); SpelledLater(nodes, nodes', n.r, r, NoLabel);
    case Call(f, args) => SpelledLater(nodes, nodes', n.l, f, NoLabel); SpelledLater(nodes, nodes', n.r, args, NoLabel);
    case Store(_, v) => SpellsLater(nodes, nodes', p, v);
    case Both(l, r) => if KeepsLoad(l, r) || r.Missing? { SpellsLater(nodes, nodes', p, l); }
        else { SpellsLater(nodes, nodes', p, r); }
    case Not(u) => SpellsLater(nodes, nodes', p, u);
    case Choose(_, _, _, value) => SpellsLater(nodes, nodes', p, value);
    case _ =>
  }

  lemma {:induction false} SpelledLater(nodes: seq<Node>, nodes': seq<Node>, p: int, t: Tree, c: Context)
    requires nodes <= nodes' && Spelled(nodes, p, t, c)
    ensures Spelled(nodes', p, t, c)
    decreases t, 2
  {
    if p != -1 { SpellsLater(nodes, nodes', p, t); }
  }

  lemma RootLater(nodes: seq<Node>, nodes': seq<Node>, n: Node, root: Root)
    requires nodes <= nodes' && RootOver(nodes, n, root)
    ensures RootOver(nodes', n, root)
  {
    hide Spelled;
    match root
    case Assigns(l, v) => SpelledLater(nodes, nodes', n.l, l, NoLabel); SpelledLater(nodes, nodes', n.r, v, NoLabel);
    case Passes(v) => SpelledLater(nodes, nodes', n.l, v, NoLabel);
    case Calls(f, args) =>
      SpelledLater(nodes, nodes', n.l, f, NoLabel);
      SpelledLater(nodes, nodes', n.r, args, NoLabel);
    case Branches(_, l, r) =>
      SpelledLater(nodes, nodes', n.l, l, NoLabel);
      SpelledLater(nodes, nodes', n.r, r, NoLabel);
    case GoesTo(u) => SpelledLater(nodes, nodes', n.l, u, NoLabel);
  }

  lemma SpeltLater(nodes: seq<Node>, nodes': seq<Node>, memo: map<nat, int>, roots: seq<int>, listed: seq<Root>,
                   table: map<nat, Tree>)
    requires nodes <= nodes' && Spelt(nodes, memo, roots, listed, table)
    ensures Spelt(nodes', memo, roots, listed, table)
  {
    hide Spells, RootOver;
    forall id | id in memo && id in table ensures Spells(nodes', memo[id], table[id]) {
      SpellsLater(nodes, nodes', memo[id], table[id]);
    }
    forall k | 0 <= k < |roots| ensures RootSpells(nodes', roots[k], listed[k]) {
      RootLater(nodes, nodes', nodes[roots[k]], listed[k]);
    }
  }

  /** A root is listed. */
  lemma SpeltRoot(nodes: seq<Node>, n: Node, memo: map<nat, int>, roots: seq<int>, listed: seq<Root>,
                  table: map<nat, Tree>, root: Root)
    requires Spelt(nodes, memo, roots, listed, table) && RootOver(nodes, n, root)
    ensures Spelt(nodes + [n], memo, roots + [|nodes|], listed + [root], table)
  {
    hide RootOver;
    SpeltLater(nodes, nodes + [n], memo, roots, listed, table);
    RootLater(nodes, nodes + [n], n, root);
    assert RootSpells(nodes + [n], |nodes|, root);
  }

  // ----- the sizes of trees and of chains -----

  function Size(t: Tree): nat {
    match t case Missing => 0 case Tree(_, shape) => 1 + SizeOf(shape)
  }

  function SizeOf(shape: Shape): nat {
    match shape
    case Const(_) => 0
    case Addr(_) => 0
    case Load(_, l) => Size(l)
    case Pure(_, l, r) => Size(l) + Size(r)
    case Store(l, v) => Size(l) + Size(v)
    case Call(f, args) => Size(f) + Size(args)
    case Arg(v, rest) => Size(v) + Size(rest)
    case Both(l, r) => Size(l) + Size(r)
    case And(l, r) => Size(l) + Size(r)
    case Or(l, r) => Size(l) + Size(r)
    case Not(u) => Size(u)
    case Compare(_, l, r) => Size(l) + Size(r)
    case Choose(test, x, y, value) => Size(test) + Size(x) + Size(y) + Size(value)
    case Goto(u) => Size(u)
  }

  function Total(buckets: seq<seq<int>>): nat {
    if buckets == [] then 0 else Total(buckets[..|buckets| - 1]) + |buckets[|buckets| - 1]|
  }

  lemma {:induction false} TotalUpdate(buckets: seq<seq<int>>, i: nat, chain: seq<int>)
    requires i < |buckets|
    ensures Total(buckets[i := chain]) == Total(buckets) - |buckets[i]| + |chain|
    decreases |buckets|
  {
    var n := |buckets| - 1;
    if i == n {
      assert buckets[i := chain][..n] == buckets[..n];
    } else {
      TotalUpdate(buckets[..n], i, chain);
      assert buckets[i := chain][..n] == buckets[..n][i := chain];
    }
  }

  lemma {:induction false} TotalZero(buckets: seq<seq<int>>, i: nat)
    requires i < |buckets| && Total(buckets) == 0
    ensures buckets[i] == []
    decreases |buckets|
  {
    if i < |buckets| - 1 { TotalZero(buckets[..|buckets| - 1], i); }
  }

  lemma {:induction false} AllEmpty(buckets: seq<seq<int>>)
    requires forall i :: 0 <= i < |buckets| ==> buckets[i] == []
    ensures Total(buckets) == 0
    decreases |buckets|
  {
    if buckets != [] { AllEmpty(buckets[..|buckets| - 1]); }
  }

  lemma RemovedOne(chain: seq<int>, q: nat)
    requires q < |chain|
    ensures
      var rest := chain[..q] + chain[q + 1..];
      && |rest| == |chain| - 1
      && (forall x :: x in rest ==> x in chain)
      && (forall x :: x in chain && x != chain[q] ==> x in rest)
      && (forall k :: 0 <= k < q ==> rest[k] == chain[k])
  {
  }

  /** kept is chain without the entries to be killed. */
  ghost predicate ChainKilled(nodes: seq<Node>, t: Sym, chain: seq<int>, kept: seq<int>) {
    forall x :: x in kept <==> x in chain && 0 <= x < |nodes| && !Killed(KeyOf(nodes, nodes[x]), t)
  }

  lemma KilledAll(s: State, s': State, t: Sym)
    requires |s.buckets| == BUCKETS && Lists(s, s', Assign(Some(t)))
    requires forall h :: 0 <= h < BUCKETS ==> ChainKilled(s.nodes, t, s.buckets[h], s'.buckets[h])
    ensures Spared(s, s', t)
  {
    hide Killed, KeyOf;
    forall x ensures InCache(s', x) <==> InCache(s, x) && 0 <= x < |s.nodes| && !Killed(KeyOf(s.nodes, s.nodes[x]), t) {
      if InCache(s', x) {
        var h :| 0 <= h < BUCKETS && x in s'.buckets[h];
        assert ChainKilled(s.nodes, t, s.buckets[h], s'.buckets[h]);
      }
      if InCache(s, x) && 0 <= x < |s.nodes| && !Killed(KeyOf(s.nodes, s.nodes[x]), t) {
        var h :| 0 <= h < BUCKETS && x in s.buckets[h];
        assert ChainKilled(s.nodes, t, s.buckets[h], s'.buckets[h]);
      }
    }
  }

  lemma FreshChain(s: State, i: nat)
    requires Fresh(s) && i < BUCKETS
    ensures |s.buckets| == BUCKETS && forall x :: x in s.buckets[i] ==> 0 <= x < |s.nodes|
  {
    assert ChainOk(s, s.buckets[i]);
    forall x | x in s.buckets[i] ensures 0 <= x < |s.nodes| {
      assert EntryOk(s, x);
    }
  }

  lemma Member(s: State, i: nat, k: nat)
    requires i < |s.buckets| && k < |s.buckets[i]|
    ensures s.buckets[i][k] in s.buckets[i] && InCache(s, s.buckets[i][k])
  {
  }

  /** A node remembered is the one the parts tell. */
  lemma MemoStands(s: State, a: Parts, id: nat)
    requires Fresh(s) && Shows(s, a)
    ensures id in s.memo <==> id in a.memo
    ensures id in s.memo ==> StandsFor(s.nodes, s.memo[id], Some(a.memo[id]))
  {
  }

  lemma StandsLater(nodes: seq<Node>, nodes': seq<Node>, p: int, node: Option<Option<Sym>>)
    requires nodes <= nodes' && StandsFor(nodes, p, node)
    ensures StandsFor(nodes', p, node)
  {
  }

  lemma LoadKeyIs(nodes: seq<Node>, p: int, node: Option<Option<Sym>>)
    requires StandsFor(nodes, p, node)
    ensures KeyOf(nodes, Node(INDIR, p, -1, None)) == LoadKey(node)
  {
  }

  lemma Ranges(nodes: seq<Node>, p: int, node: Option<Option<Sym>>)
    requires StandsFor(nodes, p, node)
    ensures -1 <= p < |nodes|
  {
  }

  lemma StartShown(s: State)
    requires s == State([], seq(BUCKETS, _ => []), map[], [], [], [])
    ensures Fresh(s) && Shows(s, START)
  {
    forall k, m ensures !Has(s, k, m) {
    }
  }

  // ----- the dag -----

  class Dag {
    var nodes: seq<Node>
    var buckets: seq<seq<int>>
    var nodecount: int
    var depth: nat
    var memo: map<nat, int>
    var roots: seq<int>  // of the forest, those with operands
    const hash: (Op, Option<Sym>) -> nat
    ghost var log: seq<Event>
    ghost var born: seq<nat>
    ghost var found: seq<(int, nat)>
    ghost var listed: seq<Root>

    ghost function View(): State
      reads this
    {
      State(nodes, buckets, memo, log, born, found)
    }

    ghost predicate Valid()
      reads this
    {
      nodecount == Total(buckets) && Fresh(View())
    }

    constructor (hash: (Op, Option<Sym>) -> nat)
      ensures Valid() && depth == 0 && Shows(View(), START)
      ensures listed == [] && forall table :: Spelt(nodes, memo, roots, listed, table)
    {
      nodes, buckets, nodecount, depth, memo, roots := [], seq(BUCKETS, _ => []), 0, 0, map[], [];
      log, born, found, listed := [], [], [], [];
      this.hash := hash;
      new;
      AllEmpty(buckets);
      StartShown(View());
    }

    /** newnode: a node that no later tree finds. */
    method NewNode(op: Op, l: int, r: int, sym: Option<Sym>, ghost a: Parts) returns (p: int)
      requires Valid() && Shows(View(), a) && KidsOk(View(), Node(op, l, r, sym)) && !op.ADDR?
      modifies this`nodes, this`born
      ensures Valid() && Shows(View(), a) && View() == Added(old(View()), Node(op, l, r, sym))
      ensures p == |old(nodes)| && StandsFor(nodes, p, Some(None))
    {
      hide Shows, Total;
      AddedKeeps(View(), Node(op, l, r, sym), a);
      p := |nodes|;
      nodes := nodes + [Node(op, l, r, sym)];
      born := born + [|log|];
    }

    /** list(newnode(...)): a root, over the nodes of its trees. */
    method ListRoot(op: Op, l: int, r: int, ghost root: Root, ghost a: Parts,
                    ghost table: map<nat, Tree>) returns (p: int)
      requires Valid() && Shows(View(), a) && KidsOk(View(), Node(op, l, r, None)) && !op.ADDR?
      requires Spelt(nodes, memo, roots, listed, table) && RootOver(nodes, Node(op, l, r, None), root)
      modifies this`nodes, this`born, this`roots, this`listed
      ensures Valid() && Shows(View(), a) && View() == Added(old(View()), Node(op, l, r, None))
      ensures Spelt(nodes, memo, roots, listed, table) && listed == old(listed) + [root]
      ensures p == |old(nodes)| && StandsFor(nodes, p, Some(None))
    {
      hide Shows, Fresh, Total, Spelt, RootOver, StandsFor;
      SpeltRoot(nodes, Node(op, l, r, None), memo, roots, listed, table, root);
      p := NewNode(op, l, r, None, a);
      roots, listed := roots + [p], listed + [root];
    }

    /** node: the cached node of that shape, or a new one, cached from now on. */
    method MakeNode(op: Op, l: int, r: int, sym: Option<Sym>, ghost a: Parts) returns (p: int)
      requires Valid() && Shows(View(), a) && KidsOk(View(), Node(op, l, r, sym))
      modifies this`nodes, this`born, this`buckets, this`nodecount, this`found
      ensures Valid() && Shows(View(), Looked(a, KeyOf(old(nodes), Node(op, l, r, sym))))
      ensures old(nodes) <= nodes && 0 <= p < |nodes| && nodes[p] == Node(op, l, r, sym) && InCache(View(), p)
      ensures StandsFor(nodes, p, Some(if op.ADDR? then sym else None))
    {
      hide Shows, Fresh, Total, InCache, KeyOf, Looked;
      ghost var s, n := View(), Node(op, l, r, sym);
      var i := hash(op, sym) % BUCKETS;
      var k := 0;
      FreshChain(s, i);
      FreshBuckets(s);
      while k < |buckets[i]|
        invariant View() == s && nodecount == Total(buckets) && 0 <= k <= |buckets[i]|
      {
        p := buckets[i][k];
        Member(s, i, k);
        if nodes[p] == Node(op, l, r, sym) {
          FoundKeeps(s, p, a);
          FoundSame(s, Find(s, p));
          found := found + [(p, |log|)];
          return;
        }
        k := k + 1;
      }
      CacheNew(s, n, i, a);
      p := |nodes|;
      CachedMore(Added(s, n), i);
      TotalUpdate(buckets, i, [p] + buckets[i]);
      nodes := nodes + [Node(op, l, r, sym)];
      born := born + [|log|];
      buckets := buckets[i := [p] + buckets[i]];
      nodecount := nodecount + 1;
      assert View() == Cached(Added(s, n), i);
    }

    /** The inner loop of kill, on one chain. */
    method KillChain(i: nat, t: Sym)
      requires i < |buckets| && forall x :: x in buckets[i] ==> 0 <= x < |nodes|
      requires nodecount == Total(buckets)
      modifies this`buckets, this`nodecount
      ensures |buckets| == |old(buckets)| && buckets == old(buckets)[i := buckets[i]]
      ensures ChainKilled(nodes, t, old(buckets[i]), buckets[i])
      ensures nodecount == Total(buckets)
    {
      hide Total;
      ghost var chain := buckets[i];
      var q := 0;
      while q < |buckets[i]|
        invariant |buckets| == |old(buckets)| && 0 <= q <= |buckets[i]|
        invariant buckets == old(buckets)[i := buckets[i]] && nodecount == Total(buckets)
        invariant forall x :: x in buckets[i] ==> x in chain && 0 <= x < |nodes|
        invariant forall x :: x in chain && !Killed(KeyOf(nodes, nodes[x]), t) ==> x in buckets[i]
        invariant forall k :: 0 <= k < q ==>
          0 <= buckets[i][k] < |nodes| && !Killed(KeyOf(nodes, nodes[buckets[i][k]]), t)
        decreases |buckets[i]| - q
      {
        var x := buckets[i][q];
        assert x in buckets[i];
        var n := nodes[x];
        if n.op.INDIR? && (NameOf(nodes, n.l).None? || NameOf(nodes, n.l) == Some(t)) {
          var rest := buckets[i][..q] + buckets[i][q + 1..];
          RemovedOne(buckets[i], q);
          TotalUpdate(buckets, i, rest);
          buckets := buckets[i := rest];
          nodecount := nodecount - 1;
        } else {
          q := q + 1;
        }
      }
    }

    /** kill, after an assignment to a program symbol has been listed. */
    method Kill(t: Sym, ghost a: Parts)
      requires Valid() && Shows(View(), a)
      modifies this`buckets, this`nodecount, this`log
      ensures Valid() && Spared(old(View()), View(), t) && Shows(View(), KilledFor(a, t))
    {
      hide Fresh, Shows, Killed, KeyOf, Total;
      ghost var s := View();
      var i := 0;
      FreshBuckets(s);
      while i < BUCKETS
        invariant 0 <= i <= BUCKETS == |buckets| && nodecount == Total(buckets) && log == old(log)
        invariant forall h :: i <= h < BUCKETS ==> buckets[h] == s.buckets[h]
        invariant forall h :: 0 <= h < i ==> ChainKilled(nodes, t, s.buckets[h], buckets[h])
      {
        FreshChain(s, i);
        KillChain(i, t);
        i := i + 1;
      }
      log := log + [Assign(Some(t))];
      KilledAll(s, View(), t);
      KillKeeps(s, View(), t, a);
    }

    method EmptyBuckets()
      requires nodecount == Total(buckets) && |buckets| == BUCKETS
      modifies this`buckets, this`nodecount
      ensures nodecount == Total(buckets) && |buckets| == BUCKETS && forall i :: 0 <= i < BUCKETS ==> buckets[i] == []
    {
      if nodecount > 0 {
        buckets := seq(BUCKETS, _ => []);
        AllEmpty(buckets);
      } else {
        forall i | 0 <= i < BUCKETS ensures buckets[i] == [] {
          TotalZero(buckets, i);
        }
      }
      nodecount := 0;
    }

    /** reset: forgets every entry. */
    method Reset(ghost a: Parts)
      requires Valid() && Shows(View(), a)
      modifies this`buckets, this`nodecount
      ensures Valid() && Empty(View()) && Shows(View(), Cleared(a))
    {
      hide Fresh, Shows, Total;
      ghost var s := View();
      FreshBuckets(s);
      EmptyBuckets();
      ClearKeeps(s, View(), a);
    }

    /** A root is listed that nothing may be kept across, and reset. */
    method ListBarrier(e: Event, ghost a: Parts)
      requires Valid() && Shows(View(), a)
      modifies this`buckets, this`nodecount, this`log
      ensures Valid() && Empty(View()) && log == old(log) + [e] && Shows(View(), Barred(a, e))
    {
      hide Fresh, Shows, Total;
      ghost var s := View();
      FreshBuckets(s);
      log := log + [e];
      EmptyBuckets();
      BarKeeps(s, View(), e, a);
    }

    /** list(jump(lab)): nothing is forgotten. */
    method ListJump(ghost a: Parts)
      requires Valid() && Shows(View(), a)
      modifies this`log
      ensures Valid() && log == old(log) + [Jump] && Shows(View(), Skipped(a))
    {
      hide Fresh, Shows, Total;
      SkipKeeps(View(), a);
      log := log + [Jump];
    }

    /** An assignment is listed: kill for a program symbol, reset for anything else. */
    method ListAssign(target: Tree, ghost a: Parts)
      requires Valid() && Shows(View(), a)
      modifies this`buckets, this`nodecount, this`log
      ensures Valid() && Shows(View(), Assigned(target, a))
    {
      hide Fresh, Shows, Total, KilledFor, Barred;
      if AddressTree(target) && target.shape.sym.Program? {
        Kill(target.shape.sym, a);
      } else {
        ListBarrier(Assign(if AddressTree(target) then Some(target.shape.sym) else None), a);
      }
    }

    /** Two trees, one after the other. */
    method ListTwo(l: Tree, cl: Context, r: Tree, cr: Context, ghost a: Parts, ghost table: map<nat, Tree>)
      returns (p: int, q: int)
      requires Valid() && Shows(View(), a) && Spelt(nodes, memo, roots, listed, table)
      requires Known(l, table) && Known(r, table)
      modifies this
      ensures Valid() && depth == old(depth) && old(nodes) <= nodes && Spelt(nodes, memo, roots, listed, table)
      ensures
        var o1 := Listed(l, cl, depth, a);
        var o2 := Listed(r, cr, depth, o1.parts);
        && Shows(View(), o2.parts) && StandsFor(nodes, p, o1.node) && StandsFor(nodes, q, o2.node)
        && listed == old(listed) + (Roots(l, cl, depth, a) + Roots(r, cr, depth, o1.parts))
      ensures Spelled(nodes, p, l, cl) && Spelled(nodes, q, r, cr)
      decreases Size(l) + Size(r), 1
    {
      hide Fresh, Shows, Total, StandsFor, Listed, Spelt, Spelled, Roots, Size, Known;
      SizesAdd(l, r);
      ghost var o1 := Listed(l, cl, depth, a);
      p := ListNodes(l, cl, a, table);
      ghost var n1 := nodes;
      q := ListNodes(r, cr, o1.parts, table);
      StandsLater(n1, nodes, p, o1.node);
      SpelledLater(n1, nodes, p, l, cl);
    }

    /** listnodes: the node of the tree, -1 if it has none. */
    method ListNodes(t: Tree, c: Context, ghost a: Parts, ghost table: map<nat, Tree>) returns (p: int)
      requires Valid() && Shows(View(), a) && Spelt(nodes, memo, roots, listed, table)
      requires Known(t, table)
      modifies this
      ensures Valid() && depth == old(depth) && old(nodes) <= nodes && Spelt(nodes, memo, roots, listed, table)
      ensures var o := Listed(t, c, depth, a); Shows(View(), o.parts) && StandsFor(nodes, p, o.node)
      ensures Spelled(nodes, p, t, c) && listed == old(listed) + Roots(t, c, depth, a)
      decreases Size(t), 0
    {
      hide Fresh, Shows, Total, ListedShape, StandsFor, Noted, Spelt, RootsOf, KnownShape;
      match t
      case Missing =>
        p := -1;
        NoNode(nodes);
      case Tree(id, shape) =>
        MemoStands(View(), a, id);
        if id in memo {
          SpeltMemo(nodes, memo, roots, listed, table, id);
          return memo[id];
        }
        p := ListShape(shape, c, a, table);
        SpeltAsTree(nodes, p, t, c);
        if !shape.Not? {
          ghost var o := ListedShape(shape, c, depth, a);
          NoteKeeps(View(), id, p, o.parts, o.node);
          Ranges(nodes, p, o.node);
          if p >= 0 {
            SpeltNoted(nodes, memo, roots, listed, table, id, p);
            memo := memo[id := p];
          }
        }
    }

    /** The switch. */
    method ListShape(shape: Shape, c: Context, ghost a: Parts, ghost table: map<nat, Tree>) returns (p: int)
      requires Valid() && Shows(View(), a) && Spelt(nodes, memo, roots, listed, table)
      requires KnownShape(shape, table)
      modifies this
      ensures Valid() && depth == old(depth) && old(nodes) <= nodes && Spelt(nodes, memo, roots, listed, table)
      ensures var o := ListedShape(shape, c, depth, a); Shows(View(), o.parts) && StandsFor(nodes, p, o.node)
      ensures SpeltAs(nodes, p, shape, c) && listed == old(listed) + RootsOf(shape, c, depth, a)
      decreases SizeOf(shape), 4
    {
      hide Fresh, Shows, Total, StandsFor, Listed, Spelt, Spelled, Roots, Looked, Decided, KeepsLoad, Barred, Skipped,
           Cleared, Assigned, KeyOf, Known, SpeltAs;
      if !shape.Const? && !shape.Both? && !shape.And? && !shape.Or? && !shape.Not? && !shape.Compare? {
        AnyContext(shape, c, depth, a);
      }
      match shape
      case Const(n) => p := ListConst(n, c, a, table);
      case Addr(sym) => p := ListAddr(sym, a, table);
      case Load(volatile, l) => p := ListLoad(volatile, l, a, table);
      case Pure(code, l, r) => p := ListPure(code, l, r, a, table);
      case Store(l, v) => p := ListStore(l, v, a, table);
      case Call(f, args) => p := ListCall(f, args, a, table);
      case Arg(v, rest) => p := ListArg(v, rest, a, table);
      case Both(l, r) => p := ListBoth(l, r, c, a, table);
      case And(l, r) => p := ListLogic(shape, l, r, c, a, table);
      case Or(l, r) => p := ListLogic(shape, l, r, c, a, table);
      case Not(u) =>
        p := ListNodes(u, Flipped(c), a, table);
        SpeltNot(nodes, p, u, c);
      case Compare(rel, l, r) => p := ListCompare(rel, l, r, c, a, table);
      case Choose(test, x, y, value) => p := ListChoose(test, x, y, value, a, table);
      case Goto(u) => p := ListGoto(u, a, table);
    }

    /** An operator: both kids, and the node over them. */
    method ListPure(code: int, l: Tree, r: Tree, ghost a: Parts, ghost table: map<nat, Tree>) returns (p: int)
      requires Valid() && Shows(View(), a) && Spelt(nodes, memo, roots, listed, table)
      requires Known(l, table) && Known(r, table)
      modifies this
      ensures Valid() && depth == old(depth) && old(nodes) <= nodes && Spelt(nodes, memo, roots, listed, table)
      ensures
        var o := ListedShape(Pure(code, l, r), NoLabel, depth, a);
        Shows(View(), o.parts) && StandsFor(nodes, p, o.node)
      ensures SpeltAs(nodes, p, Pure(code, l, r), NoLabel)
          && listed == old(listed) + RootsOf(Pure(code, l, r), NoLabel, depth, a)
      decreases Size(l) + Size(r), 2
    {
      hide Fresh, Shows, Total, StandsFor, Listed, Spelt, Spelled, Roots, Looked, KeyOf, Known;
      ghost var b := Listed(r, NoLabel, depth, Listed(l, NoLabel, depth, a).parts).parts;
      var x, y := ListTwo(l, NoLabel, r, NoLabel, a, table);
      ghost var n1 := nodes;
      TwoKids(n1, x, y, l, r, depth, a);
      p := MakeNode(Op.Other(code), x, y, None, b);
      PlainKey(n1, nodes[p]);
      SpelledLater(n1, nodes, x, l, NoLabel);
      SpelledLater(n1, nodes, y, r, NoLabel);
      SpeltLater(n1, nodes, memo, roots, listed, table);
    }

    /** A call: both kids, and the root. */
    method ListCall(f: Tree, args: Tree, ghost a: Parts, ghost table: map<nat, Tree>) returns (p: int)
      requires Valid() && Shows(View(), a) && Spelt(nodes, memo, roots, listed, table)
      requires Known(f, table) && Known(args, table)
      modifies this
      ensures Valid() && depth == old(depth) && old(nodes) <= nodes && Spelt(nodes, memo, roots, listed, table)
      ensures
        var o := ListedShape(Call(f, args), NoLabel, depth, a);
        Shows(View(), o.parts) && StandsFor(nodes, p, o.node)
      ensures SpeltAs(nodes, p, Call(f, args), NoLabel)
          && listed == old(listed) + RootsOf(Call(f, args), NoLabel, depth, a)
      decreases Size(f) + Size(args), 2
    {
      hide Fresh, Shows, Total, StandsFor, Listed, Spelt, Spelled, Roots, Barred, Known;
      ghost var b := Listed(args, NoLabel, depth, Listed(f, NoLabel, depth, a).parts).parts;
      var x, y := ListTwo(f, NoLabel, args, NoLabel, a, table);
      ghost var n1 := nodes;
      TwoKids(n1, x, y, f, args, depth, a);
      p := ListRoot(Op.Other(CALL), x, y, Calls(f, args), b, table);
      SpelledLater(n1, nodes, x, f, NoLabel);
      SpelledLater(n1, nodes, y, args, NoLabel);
      ListBarrier(Called, b);
    }

    /** An argument, behind those that are listed before it. */
    method ListArg(v: Tree, rest: Tree, ghost a: Parts, ghost table: map<nat, Tree>) returns (p: int)
      requires Valid() && Shows(View(), a) && Spelt(nodes, memo, roots, listed, table)
      requires Known(v, table) && Known(rest, table)
      modifies this
      ensures Valid() && depth == old(depth) && old(nodes) <= nodes && Spelt(nodes, memo, roots, listed, table)
      ensures
        var o := ListedShape(Arg(v, rest), NoLabel, depth, a);
        Shows(View(), o.parts) && StandsFor(nodes, p, o.node)
      ensures SpeltAs(nodes, p, Arg(v, rest), NoLabel)
          && listed == old(listed) + RootsOf(Arg(v, rest), NoLabel, depth, a)
      decreases Size(v) + Size(rest), 2
    {
      hide Fresh, Shows, Total, StandsFor, Listed, Spelt, Spelled, Roots, Known;
      var y, x := ListTwo(rest, NoLabel, v, NoLabel, a, table);
      TwoKids(nodes, y, x, rest, v, depth, a);
      ghost var b := Listed(v, NoLabel, depth, Listed(rest, NoLabel, depth, a).parts).parts;
      var root := ListRoot(Op.Other(ARG), x, -1, Passes(v), b, table);
      p := -1;
      NoNode(nodes);
    }

    /** A comparison with a label: a branch, on the relation or on its negation. */
    method ListCompare(rel: Rel, l: Tree, r: Tree, c: Context, ghost a: Parts,
                       ghost table: map<nat, Tree>) returns (p: int)
      requires Valid() && Shows(View(), a) && Spelt(nodes, memo, roots, listed, table)
      requires Known(l, table) && Known(r, table)
      modifies this
      ensures Valid() && depth == old(depth) && old(nodes) <= nodes && Spelt(nodes, memo, roots, listed, table)
      ensures
        var o := ListedShape(Compare(rel, l, r), c, depth, a);
        Shows(View(), o.parts) && StandsFor(nodes, p, o.node)
      ensures SpeltAs(nodes, p, Compare(rel, l, r), c)
          && listed == old(listed) + RootsOf(Compare(rel, l, r), c, depth, a)
      decreases Size(l) + Size(r), 2
    {
      hide Fresh, Shows, Total, StandsFor, Listed, Spelt, Spelled, Roots, Known, Negated;
      ghost var b := Listed(r, NoLabel, depth, Listed(l, NoLabel, depth, a).parts).parts;
      var x, y := ListTwo(l, NoLabel, r, NoLabel, a, table);
      TwoKids(nodes, x, y, l, r, depth, a);
      if c != NoLabel {
        var branch := if c == IfTrue then rel else Negated(rel);
        var root := ListRoot(Branch(branch), x, y, Branches(branch, l, r), b, table);
      }
      p := -1;
      NoNode(nodes);
    }

    /** A constant: a condition that is decided, or a node. */
    method ListConst(n: int, c: Context, ghost a: Parts, ghost table: map<nat, Tree>) returns (p: int)
      requires Valid() && Shows(View(), a) && Spelt(nodes, memo, roots, listed, table)
      modifies this
      ensures Valid() && depth == old(depth) && old(nodes) <= nodes && Spelt(nodes, memo, roots, listed, table)
      ensures
        var o := ListedShape(Const(n), c, depth, a);
        Shows(View(), o.parts) && StandsFor(nodes, p, o.node)
      ensures SpeltAs(nodes, p, Const(n), c) && listed == old(listed) + RootsOf(Const(n), c, depth, a)
      decreases 0, 0
    {
      hide Fresh, Shows, Total, Looked, KeyOf, Skipped, Spelt;
      p := -1;
      if c != NoLabel {
        if c == IfTrue && n != 0 {
          ListJump(a);
        } else if c == IfFalse && n == 0 {
          ListJump(a);
        }
      } else {
        ghost var n0 := nodes;
        p := MakeNode(CNST(n), -1, -1, None, a);
        PlainKey(n0, nodes[p]);
        SpeltLater(n0, nodes, memo, roots, listed, table);
      }
    }

    /** An address */
    method ListAddr(sym: Sym, ghost a: Parts, ghost table: map<nat, Tree>) returns (p: int)
      requires Valid() && Shows(View(), a) && Spelt(nodes, memo, roots, listed, table)
      modifies this
      ensures Valid() && depth == old(depth) && old(nodes) <= nodes && Spelt(nodes, memo, roots, listed, table)
      ensures
        var o := ListedShape(Addr(sym), NoLabel, depth, a);
        Shows(View(), o.parts) && StandsFor(nodes, p, o.node)
      ensures SpeltAs(nodes, p, Addr(sym), NoLabel) && listed == old(listed) + RootsOf(Addr(sym), NoLabel, depth, a)
      decreases 0, 0
    {
      hide Fresh, Shows, Total, Looked, KeyOf, Spelt;
      ghost var n0 := nodes;
      p := MakeNode(ADDR, -1, -1, Some(sym), a);
      PlainKey(n0, nodes[p]);
      SpeltLater(n0, nodes, memo, roots, listed, table);
    }

    /** A load */
    method ListLoad(volatile: bool, l: Tree, ghost a: Parts, ghost table: map<nat, Tree>) returns (p: int)
      requires Valid() && Shows(View(), a) && Spelt(nodes, memo, roots, listed, table)
      requires Known(l, table)
      modifies this
      ensures Valid() && depth == old(depth) && old(nodes) <= nodes && Spelt(nodes, memo, roots, listed, table)
      ensures
        var o := ListedShape(Load(volatile, l), NoLabel, depth, a);
        Shows(View(), o.parts) && StandsFor(nodes, p, o.node)
      ensures volatile ==> |old(nodes)| <= p && !InCache(View(), p)
      ensures SpeltAs(nodes, p, Load(volatile, l), NoLabel)
          && listed == old(listed) + RootsOf(Load(volatile, l), NoLabel, depth, a)
      decreases Size(l), 2
    {
      hide Fresh, Shows, Total, StandsFor, Listed, Spelt, Spelled, Roots, Looked, KeyOf, LoadKey, Known;
      ghost var o := Listed(l, NoLabel, depth, a);
      var q := ListNodes(l, NoLabel, a, table);
      ghost var n1 := nodes;
      Ranges(n1, q, o.node);
      if volatile {
        NewUncached(View());
        p := NewNode(INDIR, q, -1, None, o.parts);
      } else {
        LoadKeyIs(n1, q, o.node);
        p := MakeNode(INDIR, q, -1, None, o.parts);
      }
      SpelledLater(n1, nodes, q, l, NoLabel);
      SpeltLater(n1, nodes, memo, roots, listed, table);
    }

    /** An assignment; its value is listed a second time. */
    method ListStore(l: Tree, v: Tree, ghost a: Parts, ghost table: map<nat, Tree>) returns (p: int)
      requires Valid() && Shows(View(), a) && Spelt(nodes, memo, roots, listed, table)
      requires Known(l, table) && Known(v, table)
      modifies this
      ensures Valid() && depth == old(depth) && old(nodes) <= nodes && Spelt(nodes, memo, roots, listed, table)
      ensures
        var o := ListedShape(Store(l, v), NoLabel, depth, a);
        Shows(View(), o.parts) && StandsFor(nodes, p, o.node)
      ensures SpeltAs(nodes, p, Store(l, v), NoLabel) && listed == old(listed) + RootsOf(Store(l, v), NoLabel, depth, a)
      decreases Size(l) + Size(v), 2
    {
      hide Fresh, Shows, Total, StandsFor, Listed, Spelt, Spelled, Roots, Assigned, Size, Known;
      SizesAdd(l, v);
      ghost var b := Listed(v, NoLabel, depth, Listed(l, NoLabel, depth, a).parts).parts;
      var x, y := ListTwo(l, NoLabel, v, NoLabel, a, table);
      TwoKids(nodes, x, y, l, v, depth, a);
      var root := ListRoot(Op.Other(ASGN), x, y, Assigns(l, v), b, table);
      ListAssign(l, b);
      p := ListNodes(v, NoLabel, Assigned(l, b), table);
      SpeltStore(nodes, p, l, v);
    }

    /** RIGHT */
    method ListBoth(l: Tree, r: Tree, c: Context, ghost a: Parts, ghost table: map<nat, Tree>) returns (p: int)
      requires Valid() && Shows(View(), a) && Spelt(nodes, memo, roots, listed, table)
      requires Known(l, table) && Known(r, table)
      modifies this
      ensures Valid() && depth == old(depth) && old(nodes) <= nodes && Spelt(nodes, memo, roots, listed, table)
      ensures
        var o := ListedShape(Both(l, r), c, depth, a);
        Shows(View(), o.parts) && StandsFor(nodes, p, o.node)
      ensures SpeltAs(nodes, p, Both(l, r), c) && listed == old(listed) + RootsOf(Both(l, r), c, depth, a)
      decreases Size(l) + Size(r), 2
    {
      hide Fresh, Shows, Total, StandsFor, Listed, Spelt, Spelled, Roots, KeepsLoad, Size, Known, SpeltAs;
      SizesAdd(l, r);
      if KeepsLoad(l, r) {
        var q;
        p, q := ListTwo(l, NoLabel, r, NoLabel, a, table);
        SpeltKept(nodes, p, l, r, c);
      } else if r.Missing? {
        p := ListNodes(l, c, a, table);
        SpeltFirst(nodes, p, l, r, c);
      } else {
        var q;
        q, p := ListTwo(l, NoLabel, r, c, a, table);
        SpeltSecond(nodes, p, l, r, c);
      }
    }

    /** && and || */
    method ListLogic(shape: Shape, l: Tree, r: Tree, c: Context, ghost a: Parts, ghost table: map<nat, Tree>)
      returns (p: int)
      requires Valid() && Shows(View(), a) && Spelt(nodes, memo, roots, listed, table)
      requires Known(l, table) && Known(r, table) && (shape == And(l, r) || shape == Or(l, r))
      modifies this
      ensures Valid() && depth == old(depth) && old(nodes) <= nodes && Spelt(nodes, memo, roots, listed, table)
      ensures var o := ListedShape(shape, c, depth, a); Shows(View(), o.parts) && StandsFor(nodes, p, o.node)
      ensures SpeltAs(nodes, p, shape, c) && listed == old(listed) + RootsOf(shape, c, depth, a)
      decreases Size(l) + Size(r), 2
    {
      hide Fresh, Shows, Total, StandsFor, Listed, Spelt, Spelled, Roots, Cleared, Barred, Known;
      ghost var a0 := if depth == 0 then Cleared(a) else a;
      if depth == 0 {
        Reset(a);
      }
      depth := depth + 1;
      var first := if shape.And? then IfFalse else IfTrue;
      ghost var b := Listed(r, c, depth, Listed(l, first, depth, a0).parts).parts;
      var x, y := ListTwo(l, first, r, c, a0, table);
      if c != first {
        ListBarrier(Label, b);
      }
      depth := depth - 1;
      p := -1;
      NoNode(nodes);
    }

    /** ?: */
    method ListChoose(test: Tree, x: Tree, y: Tree, value: Tree, ghost a: Parts,
                      ghost table: map<nat, Tree>) returns (p: int)
      requires Valid() && Shows(View(), a) && Spelt(nodes, memo, roots, listed, table)
      requires Known(test, table) && Known(x, table) && Known(y, table) && Known(value, table)
      modifies this
      ensures Valid() && depth == old(depth) && old(nodes) <= nodes && Spelt(nodes, memo, roots, listed, table)
      ensures
        var o := ListedShape(Choose(test, x, y, value), NoLabel, depth, a);
        Shows(View(), o.parts) && StandsFor(nodes, p, o.node)
      ensures SpeltAs(nodes, p, Choose(test, x, y, value), NoLabel)
          && listed == old(listed) + RootsOf(Choose(test, x, y, value), NoLabel, depth, a)
      decreases Size(test) + Size(x) + Size(y) + Size(value), 3
    {
      hide *;
      ChooseIs(test, x, y, value, depth, a);
      ghost var d, b0 := depth, Listed(test, IfFalse, depth, a).parts;
      var q := ListNodes(test, IfFalse, a, table);
      Reset(b0);
      ghost var b1 := Listed(x, NoLabel, d, Cleared(b0)).parts;
      ListAlternative(x, true, Cleared(b0), table);
      ghost var b2 := Barred(Skipped(b1), Label);
      ListAlternative(y, false, b2, table);
      ghost var b3 := Barred(Listed(y, NoLabel, d, b2).parts, Label);
      p := ListNodes(value, NoLabel, b3, table);
      SpeltChoose(nodes, p, test, x, y, value);
    }

    /** One side of ?:, perhaps a jump to its end, and the label behind it. */
    method ListAlternative(x: Tree, jumps: bool, ghost a: Parts, ghost table: map<nat, Tree>)
      requires Valid() && Shows(View(), a) && Spelt(nodes, memo, roots, listed, table)
      requires Known(x, table)
      modifies this
      ensures Valid() && depth == old(depth) && old(nodes) <= nodes && Spelt(nodes, memo, roots, listed, table)
      ensures var b := Listed(x, NoLabel, depth, a).parts; Shows(View(), Barred(if jumps then Skipped(b) else b, Label))
      ensures listed == old(listed) + Roots(x, NoLabel, depth, a)
      decreases Size(x), 2
    {
      hide Fresh, Shows, Total, StandsFor, Listed, Spelt, Spelled, Roots, Barred, Skipped, Known;
      ghost var b := Listed(x, NoLabel, depth, a).parts;
      var q := ListNodes(x, NoLabel, a, table);
      if jumps {
        ListJump(b);
      }
      ListBarrier(Label, if jumps then Skipped(b) else b);
    }

    /** A JUMP tree */
    method ListGoto(u: Tree, ghost a: Parts, ghost table: map<nat, Tree>) returns (p: int)
      requires Valid() && Shows(View(), a) && Spelt(nodes, memo, roots, listed, table)
      requires Known(u, table)
      modifies this
      ensures Valid() && depth == old(depth) && old(nodes) <= nodes && Spelt(nodes, memo, roots, listed, table)
      ensures
        var o := ListedShape(Shape.Goto(u), NoLabel, depth, a);
        Shows(View(), o.parts) && StandsFor(nodes, p, o.node)
      ensures SpeltAs(nodes, p, Shape.Goto(u), NoLabel)
          && listed == old(listed) + RootsOf(Shape.Goto(u), NoLabel, depth, a)
      decreases Size(u), 2
    {
      hide Fresh, Shows, Total, StandsFor, Listed, Spelt, Spelled, Roots, Barred, Known;
      ghost var o := Listed(u, NoLabel, depth, a);
      var l := ListNodes(u, NoLabel, a, table);
      Ranges(nodes, l, o.node);
      var root := ListRoot(Op.Other(JUMP), l, -1, GoesTo(u), o.parts, table);
      ListBarrier(NodeCache.Goto, o.parts);
      p := -1;
      NoNode(nodes);
    }

    /** walk: lists the tree, and forgets everything. */
    method Walk(t: Tree, c: Context, ghost a: Parts, ghost table: map<nat, Tree>)
      requires Valid() && depth == 0 && Shows(View(), a) && Spelt(nodes, memo, roots, listed, table)
      requires Known(t, table)
      modifies this
      ensures Valid() && depth == 0 && Empty(View()) && Shows(View(), Cleared(Listed(t, c, 0, a).parts))
      ensures Spelt(nodes, memo, roots, listed, table) && listed == old(listed) + Roots(t, c, 0, a)
    {
      hide Fresh, Shows, Total, StandsFor, Listed, Spelt, Spelled, Roots, Cleared, Empty, Known;
      var p := ListNodes(t, c, a, table);
      Reset(Listed(t, c, 0, a).parts);
    }
  }

  /** No chain holds the number of a node that is yet to be made. */
  lemma NewUncached(s: State)
    requires Fresh(s)
    ensures !InCache(s, |s.nodes|)
    ensures forall n :: !InCache(Added(s, n), |s.nodes|)
  {
    if InCache(s, |s.nodes|) { CachedEntry(s, |s.nodes|); }
  }

  /** What the arms that have no use for a label do with one. */
  lemma {:induction false} AnyContext(shape: Shape, c: Context, depth: nat, a: Parts)
    requires !shape.Const? && !shape.Both? && !shape.And? && !shape.Or? && !shape.Not? && !shape.Compare?
    ensures ListedShape(shape, c, depth, a) == ListedShape(shape, NoLabel, depth, a)
    ensures RootsOf(shape, c, depth, a) == RootsOf(shape, NoLabel, depth, a)
    ensures forall nodes, p :: SpeltAs(nodes, p, shape, NoLabel) ==> SpeltAs(nodes, p, shape, c)
  {
    hide Nodeless, SpellsShape;
  }

  lemma {:induction false} SpeltMemo(nodes: seq<Node>, memo: map<nat, int>, roots: seq<int>, listed: seq<Root>,
                                     table: map<nat, Tree>,
                  id: nat)
    requires Spelt(nodes, memo, roots, listed, table) && id in memo && id in table
    ensures Spells(nodes, memo[id], table[id])
  {
  }

  lemma {:induction false} SpeltNoted(nodes: seq<Node>, memo: map<nat, int>, roots: seq<int>, listed: seq<Root>,
                                      table: map<nat, Tree>,
                   id: nat, p: int)
    requires Spelt(nodes, memo, roots, listed, table) && id in table && Spells(nodes, p, table[id])
    ensures Spelt(nodes, memo[id := p], roots, listed, table)
  {
  }

  lemma {:induction false} SpeltAsTree(nodes: seq<Node>, p: int, t: Tree, c: Context)
    requires t.Tree? && SpeltAs(nodes, p, t.shape, c)
    ensures Spelled(nodes, p, t, c)
  {
  }

  lemma {:induction false} SpeltNot(nodes: seq<Node>, p: int, u: Tree, c: Context)
    requires Spelled(nodes, p, u, Flipped(c))
    ensures SpeltAs(nodes, p, Not(u), c)
  {
  }

  lemma {:induction false} SpeltStore(nodes: seq<Node>, p: int, l: Tree, v: Tree)
    requires Spelled(nodes, p, v, NoLabel)
    ensures SpeltAs(nodes, p, Store(l, v), NoLabel)
  {
  }

  lemma {:induction false} SpeltKept(nodes: seq<Node>, p: int, l: Tree, r: Tree, c: Context)
    requires KeepsLoad(l, r) && Spelled(nodes, p, l, NoLabel)
    ensures SpeltAs(nodes, p, Both(l, r), c)
  {
    assert !Nodeless(l, NoLabel);
  }

  lemma {:induction false} SpeltFirst(nodes: seq<Node>, p: int, l: Tree, r: Tree, c: Context)
    requires !KeepsLoad(l, r) && r.Missing? && Spelled(nodes, p, l, c)
    ensures SpeltAs(nodes, p, Both(l, r), c)
  {
  }

  lemma {:induction false} SpeltSecond(nodes: seq<Node>, p: int, l: Tree, r: Tree, c: Context)
    requires !KeepsLoad(l, r) && !r.Missing? && Spelled(nodes, p, r, c)
    ensures SpeltAs(nodes, p, Both(l, r), c)
  {
  }

  lemma {:induction false} SpeltChoose(nodes: seq<Node>, p: int, test: Tree, x: Tree, y: Tree, value: Tree)
    requires Spelled(nodes, p, value, NoLabel)
    ensures SpeltAs(nodes, p, Choose(test, x, y, value), NoLabel)
  {
  }

  lemma {:induction false} ChooseIs(test: Tree, x: Tree, y: Tree, value: Tree, depth: nat, a: Parts)
    ensures
      var b1 := Cleared(Listed(test, IfFalse, depth, a).parts);
      var b2 := Barred(Skipped(Listed(x, NoLabel, depth, b1).parts), Label);
      var b3 := Barred(Listed(y, NoLabel, depth, b2).parts, Label);
      && ListedShape(Choose(test, x, y, value), NoLabel, depth, a) == Listed(value, NoLabel, depth, b3)
      && RootsOf(Choose(test, x, y, value), NoLabel, depth, a)
         == Roots(test, IfFalse, depth, a) + Roots(x, NoLabel, depth, b1) + Roots(y, NoLabel, depth, b2)
            + Roots(value, NoLabel, depth, b3)
  {
  }

  lemma NoNode(nodes: seq<Node>)
    ensures StandsFor(nodes, -1, None)
  {
  }

  lemma PlainKey(nodes: seq<Node>, n: Node)
    requires !n.op.INDIR?
    ensures KeyOf(nodes, n) == Plain
  {
  }

  lemma {:induction false} SizesAdd(l: Tree, r: Tree)
    ensures Size(l) <= Size(l) + Size(r) && Size(r) <= Size(l) + Size(r)
  {
  }

  /** The nodes of two trees listed one after the other. */
  lemma {:induction false} TwoKids(nodes: seq<Node>, x: int, y: int, l: Tree, r: Tree, depth: nat, a: Parts)
    requires
      var o := Listed(l, NoLabel, depth, a);
      StandsFor(nodes, x, o.node) && StandsFor(nodes, y, Listed(r, NoLabel, depth, o.parts).node)
    ensures -1 <= x < |nodes| && -1 <= y < |nodes|
  {
    hide Listed;
  }

  lemma {:induction false} CacheNew(s: State, n: Node, i: nat, a: Parts)
    requires Fresh(s) && Shows(s, a) && KidsOk(s, n) && i < BUCKETS
    ensures |s.buckets| == BUCKETS && Fresh(Cached(Added(s, n), i))
        && Shows(Cached(Added(s, n), i), Looked(a, KeyOf(s.nodes, n)))
  {
    hide Shows;
    AddedKeeps(s, n, a);
    CachedKeeps(Added(s, n), i, a);
    assert KeyOf(Added(s, n).nodes, n) == KeyOf(s.nodes, n);
  }
}
