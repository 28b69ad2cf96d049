// What the cache of listnodes is worth (lcc/src/dag.c): which entries memory has been
// written under, which a jump has passed by, and that neither is ever used.

module CacheProof {
  import opened Words
  import opened NodeCache
  import opened Comparisons
  import opened ValueNumbering

  // ----- the steps that listing a tree may take -----

  /** What happens to the cache, one thing at a time. */
  datatype Step =
    | Make(id: nat, key: Key, sym: Option<Sym>)  // tree id's node is looked up and remembered
    | Note(id: nat, sym: Option<Sym>)            // tree id's node is remembered
    | Kill(t: Sym)
    | Bar(e: Event)
    | Skip
    | Past                                       // a jump with its label right behind it
    | Clear

  function Do(a: Parts, step: Step): Parts {
    match step
    case Make(id, key, sym) => Noted(Looked(a, key), id, Some(sym))
    case Note(id, sym) => Noted(a, id, Some(sym))
    case Kill(t) => KilledFor(a, t)
    case Bar(e) => Barred(a, e)
    case Skip => Skipped(a)
    case Past => Barred(Skipped(a), Label)
    case Clear => Cleared(a)
  }

  /** A tree is listed only if it does not remember a node, and kill is for program symbols. */
  predicate Enabled(a: Parts, step: Step) {
    (step.Make? || step.Note? ==> step.id !in a.memo) && (step.Kill? ==> step.t.Program?)
  }

  /** The symbol that the tree is the address of. */
  function AddressSym(t: Tree): Option<Sym> {
    match t case Missing => None case Tree(_, shape) => ShapeSym(shape)
  }

  function ShapeSym(shape: Shape): Option<Sym> {
    match shape
    case Addr(sym) => Some(sym)
    case Store(_, v) => AddressSym(v)
    case Both(l, r) => if KeepsLoad(l, r) then None else if r.Missing? then AddressSym(l) else AddressSym(r)
    case Not(u) => AddressSym(u)
    case Choose(_, _, _, value) => AddressSym(value)
    case _ => None
  }

  /** The steps of a tree listed with those labels, whatever the cache holds. */
  function Steps(t: Tree, c: Context): set<Step> {
    match t
    case Missing => {}
    case Tree(id, shape) =>
      var sym := ShapeSym(shape);
      match shape
      case Const(n) =>
        if c == NoLabel then {Make(id, Plain, None)} else if Decides(n, c) then {Skip} else {}
      case Addr(_) => {Make(id, Plain, sym)}
      case Load(volatile, l) =>
        Steps(l, NoLabel)
        + (if volatile then {Note(id, None)}
           else {Make(id, LoadKey(Some(AddressSym(l))), None), Make(id, Through, None)})
      case Pure(_, l, r) => Steps(l, NoLabel) + Steps(r, NoLabel) + {Make(id, Plain, None)}
      case Store(l, v) => Steps(l, NoLabel) + Steps(v, NoLabel) + {AssignStep(l), Note(id, sym)}
      case Call(f, args) => Steps(f, NoLabel) + Steps(args, NoLabel) + {Bar(Called), Note(id, None)}
      case Arg(v, rest) => Steps(rest, NoLabel) + Steps(v, NoLabel)
      case Both(l, r) =>
        Steps(l, if r.Missing? then c else NoLabel) + Steps(r, if KeepsLoad(l, r) then NoLabel else c) + {Note(id, sym)}
      case And(l, r) => {Clear, Bar(Label)} + Steps(l, IfFalse) + Steps(r, c)
      case Or(l, r) => {Clear, Bar(Label)} + Steps(l, IfTrue) + Steps(r, c)
      case Not(u) => Steps(u, Flipped(c))
      case Compare(_, l, r) => Steps(l, NoLabel) + Steps(r, NoLabel)
      case Choose(test, x, y, value) =>
        Steps(test, IfFalse) + {Clear, Past, Bar(Label)} + Steps(x, NoLabel) + Steps(y, NoLabel)
        + Steps(value, NoLabel) + {Note(id, sym)}
      case Goto(u) => Steps(u, NoLabel) + {Bar(NodeCache.Goto)}
  }

  predicate Decides(n: int, c: Context) {
    (c == IfTrue && n != 0) || (c == IfFalse && n == 0)
  }

  function AssignStep(target: Tree): Step {
    if AddressTree(target) && target.shape.sym.Program? then Kill(target.shape.sym)
    else Bar(Assign(if AddressTree(target) then Some(target.shape.sym) else None))
  }

  /** What trees remember is the node of their own address. */
  ghost predicate Remembers(a: Parts, table: map<nat, Tree>) {
    forall id :: id in a.memo && id in table ==> a.memo[id] == AddressSym(table[id])
  }

  /** P holds on after every step of S. */
  ghost predicate Keeps(P: Parts -> bool, S: set<Step>) {
    forall a, step :: P(a) && step in S && Enabled(a, step) ==> P(Do(a, step))
  }

  /** Only trees of that size, or such as did before, remember a node. */
  ghost predicate Within(a: Parts, b: Parts, table: map<nat, Tree>, size: nat) {
    forall id :: id in b.memo ==> id in a.memo || (id in table && Size(table[id]) <= size)
  }

  /** A state on the way: P, and what the trees remember. */
  ghost predicate Reached(P: Parts -> bool, a: Parts, b: Parts, table: map<nat, Tree>, size: nat) {
    P(b) && Remembers(b, table) && Within(a, b, table, size)
  }

  /** The node of a tree. */
  ghost predicate NodeOf(t: Tree, node: Option<Option<Sym>>) {
    node.Some? ==> node.value == AddressSym(t)
  }

  lemma Stepped(P: Parts -> bool, S: set<Step>, a: Parts, b: Parts, table: map<nat, Tree>, size: nat, step: Step)
    requires Keeps(P, S) && Reached(P, a, b, table, size) && step in S && Enabled(b, step)
    requires step.Make? || step.Note? ==>
      step.id in table && Size(table[step.id]) <= size && step.sym == AddressSym(table[step.id])
    ensures Reached(P, a, Do(b, step), table, size)
  {
    hide Size, AddressSym;
    assert P(Do(b, step));
  }

  lemma Larger(P: Parts -> bool, a: Parts, b: Parts, c: Parts, table: map<nat, Tree>, m: nat, n: nat)
    requires Within(a, b, table, m) && Reached(P, b, c, table, m) && m <= n
    ensures Reached(P, a, c, table, n)
  {
    hide Size, AddressSym;
  }

  lemma Start(P: Parts -> bool, a: Parts, table: map<nat, Tree>, size: nat)
    requires P(a) && Remembers(a, table)
    ensures Reached(P, a, a, table, size)
  {
  }

  lemma Grown(P: Parts -> bool, a: Parts, b: Parts, table: map<nat, Tree>, m: nat, n: nat)
    requires Reached(P, a, b, table, m) && m <= n
    ensures Reached(P, a, b, table, n)
  {
    hide Size, AddressSym;
  }

  /** What was reached so far, and a tree listed from there. */
  lemma {:induction false} Onward(P: Parts -> bool, S: set<Step>, table: map<nat, Tree>, a: Parts, b: Parts,
                                  t: Tree, c: Context, depth: nat, size: nat)
    requires Keeps(P, S) && Steps(t, c) <= S && Known(t, table) && Reached(P, a, b, table, size) && Size(t) <= size
    ensures
      var o := Listed(t, c, depth, b);
      Reached(P, a, o.parts, table, size) && NodeOf(t, o.node)
    decreases Size(t), 2
  {
    hide Keeps, Steps, Known, Listed, Size, AddressSym, Remembers, Within, NodeOf;
    Reaches(P, S, table, t, c, depth, b);
    Grown(P, b, Listed(t, c, depth, b).parts, table, Size(t), size);
    Larger(P, a, b, Listed(t, c, depth, b).parts, table, size, size);
  }

  lemma {:induction false} OnwardTwo(P: Parts -> bool, S: set<Step>, table: map<nat, Tree>, a: Parts, b: Parts,
                                     l: Tree, cl: Context, r: Tree, cr: Context, depth: nat, size: nat)
    requires Keeps(P, S) && Steps(l, cl) <= S && Steps(r, cr) <= S && Known(l, table) && Known(r, table)
    requires Reached(P, a, b, table, size) && Size(l) <= size && Size(r) <= size
    ensures
      var o1 := Listed(l, cl, depth, b);
      var o2 := Listed(r, cr, depth, o1.parts);
      && Reached(P, a, o1.parts, table, size) && Reached(P, a, o2.parts, table, size)
      && NodeOf(l, o1.node) && NodeOf(r, o2.node)
    decreases Size(l) + Size(r), 3
  {
    hide Keeps, Steps, Known, Listed, Size, AddressSym, Reached, NodeOf;
    Onward(P, S, table, a, b, l, cl, depth, size);
    Onward(P, S, table, a, Listed(l, cl, depth, b).parts, r, cr, depth, size);
  }

  /** The tree remembers its node, if it has one. */
  lemma {:induction false} Finished(P: Parts -> bool, S: set<Step>, table: map<nat, Tree>, a: Parts, b: Parts,
                                    t: Tree, node: Option<Option<Sym>>)
    requires t.Tree? && Keeps(P, S) && t.id in table && table[t.id] == t && t.id !in a.memo
    requires Reached(P, a, b, table, SizeOf(t.shape)) && NodeOf(t, node)
    requires node.Some? ==> Note(t.id, AddressSym(t)) in S
    ensures Reached(P, a, Noted(b, t.id, node), table, Size(t)) && NodeOf(t, node)
  {
    hide AddressSym, Keeps;
    Grown(P, a, b, table, SizeOf(t.shape), Size(t));
    if node.Some? { Stepped(P, S, a, b, table, Size(t), Note(t.id, AddressSym(t))); }
  }

  /** The tree's node is looked up, and remembered. */
  lemma {:induction false} Made(P: Parts -> bool, S: set<Step>, table: map<nat, Tree>, a: Parts, b: Parts, t: Tree,
                                key: Key)
    requires t.Tree? && Keeps(P, S) && t.id in table && table[t.id] == t && t.id !in a.memo
    requires Reached(P, a, b, table, SizeOf(t.shape)) && Make(t.id, key, AddressSym(t)) in S
    ensures Reached(P, a, Noted(Looked(b, key), t.id, Some(AddressSym(t))), table, Size(t))
  {
    hide AddressSym, Keeps, Looked;
    Grown(P, a, b, table, SizeOf(t.shape), Size(t));
    Stepped(P, S, a, b, table, Size(t), Make(t.id, key, AddressSym(t)));
  }

  /** Listing a tree takes only its steps, so that it keeps what those keep. */
  lemma {:induction false} Reaches(P: Parts -> bool, S: set<Step>, table: map<nat, Tree>, t: Tree, c: Context,
                                   depth: nat, a: Parts)
    requires Keeps(P, S) && Steps(t, c) <= S && Known(t, table) && P(a) && Remembers(a, table)
    ensures
      var o := Listed(t, c, depth, a);
      Reached(P, a, o.parts, table, Size(t)) && NodeOf(t, o.node)
    decreases Size(t), 1
  {
    hide Keeps, Remembers, Within, Looked, Reached;
    Start(P, a, table, Size(t));
    if t.Tree? {
      if t.id in a.memo {
        RemembersIs(a, table, t);
      } else {
        ReachShape(P, S, table, t, c, depth, a);
      }
    }
  }

  lemma {:induction false} RemembersIs(a: Parts, table: map<nat, Tree>, t: Tree)
    requires Remembers(a, table) && Known(t, table) && t.Tree? && t.id in a.memo
    ensures a.memo[t.id] == AddressSym(t)
  {
  }

  lemma {:induction false} ReachShape(P: Parts -> bool, S: set<Step>, table: map<nat, Tree>, t: Tree, c: Context,
                                      depth: nat, a: Parts)
    requires Keeps(P, S) && Steps(t, c) <= S && Known(t, table) && P(a) && Remembers(a, table)
    requires t.Tree? && t.id !in a.memo
    ensures
      var o := Listed(t, c, depth, a);
      Reached(P, a, o.parts, table, Size(t)) && NodeOf(t, o.node)
    decreases Size(t), 0
  {
    hide Keeps, Remembers, Within, Looked, Reached, Barred, Skipped, Noted, Cleared, KeepsLoad;
    var n := SizeOf(t.shape);
    Start(P, a, table, n);
    match t.shape
    case Const(v) =>
      if c == NoLabel {
        Made(P, S, table, a, a, t, Plain);
      } else {
        if Decides(v, c) { Stepped(P, S, a, a, table, n, Skip); }
        Finished(P, S, table, a, Decided(v, c, a), t, None);
      }
    case Addr(sym) => Made(P, S, table, a, a, t, Plain);
    case Load(volatile, l) => ReachLoad(P, S, table, t, depth, a);
    case Pure(_, l, r) =>
      OnwardTwo(P, S, table, a, a, l, NoLabel, r, NoLabel, depth, n);
      Made(P, S, table, a, Listed(r, NoLabel, depth, Listed(l, NoLabel, depth, a).parts).parts, t, Plain);
    case Store(l, v) => ReachStore(P, S, table, t, depth, a);
    case Call(f, args) => ReachBarrier(P, S, table, t, f, args, Called, Some(None), depth, a);
    case Arg(v, rest) =>
      OnwardTwo(P, S, table, a, a, rest, NoLabel, v, NoLabel, depth, n);
      Finished(P, S, table, a, Listed(v, NoLabel, depth, Listed(rest, NoLabel, depth, a).parts).parts, t, None);
    case Both(l, r) => ReachBoth(P, S, table, t, c, depth, a);
    case And(l, r) => ReachLogic(P, S, table, t, l, IfFalse, r, c, depth, a);
    case Or(l, r) => ReachLogic(P, S, table, t, l, IfTrue, r, c, depth, a);
    case Not(u) =>
      SymIs(t);
      Onward(P, S, table, a, a, u, Flipped(c), depth, n);
      Grown(P, a, Listed(u, Flipped(c), depth, a).parts, table, n, Size(t));
    case Compare(_, l, r) =>
      OnwardTwo(P, S, table, a, a, l, NoLabel, r, NoLabel, depth, n);
      Finished(P, S, table, a, Listed(r, NoLabel, depth, Listed(l, NoLabel, depth, a).parts).parts, t, None);
    case Choose(_, _, _, _) => ReachChoose(P, S, table, t, depth, a);
    case Goto(u) => ReachBarrier(P, S, table, t, u, Missing, NodeCache.Goto, None, depth, a);
  }

  /** Calls and JUMP trees. */
  lemma {:induction false} ReachBarrier(P: Parts -> bool, S: set<Step>, table: map<nat, Tree>, t: Tree, l: Tree,
                                        r: Tree,
                                        e: Event, node: Option<Option<Sym>>, depth: nat, a: Parts)
    requires Keeps(P, S) && Steps(t, NoLabel) <= S && Known(t, table) && P(a) && Remembers(a, table)
    requires t.Tree? && t.id !in a.memo
    requires (t.shape == Call(l, r) && e == Called && node == Some(None))
          || (t.shape == Shape.Goto(l) && r == Missing && e == NodeCache.Goto && node == None)
    ensures
      var b := Listed(r, NoLabel, depth, Listed(l, NoLabel, depth, a).parts).parts;
      Reached(P, a, Noted(Barred(b, e), t.id, node), table, Size(t)) && NodeOf(t, node)
    decreases SizeOf(t.shape), 5
  {
    hide Keeps, Remembers, Within, Reached, Noted, Barred;
    var n := SizeOf(t.shape);
    Start(P, a, table, n);
    SymIs(t);
    OnwardTwo(P, S, table, a, a, l, NoLabel, r, NoLabel, depth, n);
    var b := Listed(r, NoLabel, depth, Listed(l, NoLabel, depth, a).parts).parts;
    Stepped(P, S, a, b, table, n, Bar(e));
    Finished(P, S, table, a, Barred(b, e), t, node);
  }

  lemma {:induction false} ReachLoad(P: Parts -> bool, S: set<Step>, table: map<nat, Tree>, t: Tree, depth: nat,
                                     a: Parts)
    requires Keeps(P, S) && Steps(t, NoLabel) <= S && Known(t, table) && P(a) && Remembers(a, table)
    requires t.Tree? && t.shape.Load? && t.id !in a.memo
    ensures
      var o := ListedShape(t.shape, NoLabel, depth, a);
      Reached(P, a, Noted(o.parts, t.id, o.node), table, Size(t)) && NodeOf(t, o.node)
    decreases SizeOf(t.shape), 5
  {
    hide Keeps, Remembers, Within, Looked, Reached, Noted, AddressSym;
    var l, n := t.shape.a, SizeOf(t.shape);
    Start(P, a, table, n);
    Onward(P, S, table, a, a, l, NoLabel, depth, n);
    LoadSym(t);
    var o := Listed(l, NoLabel, depth, a);
    if t.shape.volatile {
      Finished(P, S, table, a, o.parts, t, Some(None));
    } else {
      Made(P, S, table, a, o.parts, t, LoadKey(o.node));
    }
  }

  lemma {:induction false} LoadSym(t: Tree)
    requires t.Tree? && t.shape.Load?
    ensures AddressSym(t) == None
  {
  }

  lemma {:induction false} SymIs(t: Tree)
    requires t.Tree?
    ensures AddressSym(t) == ShapeSym(t.shape)
  {
  }

  lemma {:induction false} ReachStore(P: Parts -> bool, S: set<Step>, table: map<nat, Tree>, t: Tree, depth: nat,
                                      a: Parts)
    requires Keeps(P, S) && Steps(t, NoLabel) <= S && Known(t, table) && P(a) && Remembers(a, table)
    requires t.Tree? && t.shape.Store? && t.id !in a.memo
    ensures
      var o := ListedShape(t.shape, NoLabel, depth, a);
      Reached(P, a, Noted(o.parts, t.id, o.node), table, Size(t)) && NodeOf(t, o.node)
    decreases SizeOf(t.shape), 5
  {
    hide Keeps, Remembers, Within, Reached, Noted, KilledFor, Barred;
    var l, v, n := t.shape.a, t.shape.v, SizeOf(t.shape);
    Start(P, a, table, n);
    OnwardTwo(P, S, table, a, a, l, NoLabel, v, NoLabel, depth, n);
    var b := Listed(v, NoLabel, depth, Listed(l, NoLabel, depth, a).parts).parts;
    Stepped(P, S, a, b, table, n, AssignStep(l));
    Onward(P, S, table, a, Assigned(l, b), v, NoLabel, depth, n);
    var o := Listed(v, NoLabel, depth, Assigned(l, b));
    Finished(P, S, table, a, o.parts, t, o.node);
  }

  lemma {:induction false} ReachBoth(P: Parts -> bool, S: set<Step>, table: map<nat, Tree>, t: Tree, c: Context,
                                     depth: nat, a: Parts)
    requires Keeps(P, S) && Steps(t, c) <= S && Known(t, table) && P(a) && Remembers(a, table)
    requires t.Tree? && t.shape.Both? && t.id !in a.memo
    ensures
      var o := ListedShape(t.shape, c, depth, a);
      Reached(P, a, Noted(o.parts, t.id, o.node), table, Size(t)) && NodeOf(t, o.node)
    decreases SizeOf(t.shape), 5
  {
    hide Keeps, Remembers, Within, Reached, Noted;
    var l, r, n := t.shape.l, t.shape.r, SizeOf(t.shape);
    Start(P, a, table, n);
    var o := ListedShape(t.shape, c, depth, a);
    SymIs(t);
    if KeepsLoad(l, r) {
      LoadSym(l);
      OnwardTwo(P, S, table, a, a, l, NoLabel, r, NoLabel, depth, n);
    } else if r.Missing? {
      Onward(P, S, table, a, a, l, c, depth, n);
    } else {
      OnwardTwo(P, S, table, a, a, l, NoLabel, r, c, depth, n);
    }
    Finished(P, S, table, a, o.parts, t, o.node);
  }

  lemma {:induction false} ReachLogic(P: Parts -> bool, S: set<Step>, table: map<nat, Tree>, t: Tree, l: Tree,
                                      first: Context,
                                      r: Tree, c: Context, depth: nat, a: Parts)
    requires Keeps(P, S) && Steps(t, c) <= S && Known(t, table) && P(a) && Remembers(a, table)
    requires t.Tree? && t.id !in a.memo
    requires (t.shape == And(l, r) && first == IfFalse) || (t.shape == Or(l, r) && first == IfTrue)
    ensures
      var o := ListedShape(t.shape, c, depth, a);
      Reached(P, a, Noted(o.parts, t.id, o.node), table, Size(t)) && NodeOf(t, o.node)
    decreases SizeOf(t.shape), 5
  {
    hide Keeps, Remembers, Within, Reached, Noted, Barred, Cleared;
    var n, a0 := SizeOf(t.shape), if depth == 0 then Cleared(a) else a;
    Start(P, a, table, n);
    if depth == 0 { Stepped(P, S, a, a, table, n, Clear); }
    OnwardTwo(P, S, table, a, a0, l, first, r, c, depth + 1, n);
    var b := Listed(r, c, depth + 1, Listed(l, first, depth + 1, a0).parts).parts;
    if c != first { Stepped(P, S, a, b, table, n, Bar(Label)); }
    Finished(P, S, table, a, if c != first then Barred(b, Label) else b, t, None);
  }

  lemma {:induction false} ReachChoose(P: Parts -> bool, S: set<Step>, table: map<nat, Tree>, t: Tree, depth: nat,
                                       a: Parts)
    requires Keeps(P, S) && Steps(t, NoLabel) <= S && Known(t, table) && P(a) && Remembers(a, table)
    requires t.Tree? && t.shape.Choose? && t.id !in a.memo
    ensures
      var o := ListedShape(t.shape, NoLabel, depth, a);
      Reached(P, a, Noted(o.parts, t.id, o.node), table, Size(t)) && NodeOf(t, o.node)
    decreases SizeOf(t.shape), 5
  {
    hide Keeps, Remembers, Within, Reached, Noted, Barred, Cleared, Skipped;
    var n := SizeOf(t.shape);
    Start(P, a, table, n);
    var b0 := Listed(t.shape.test, IfFalse, depth, a).parts;
    Onward(P, S, table, a, a, t.shape.test, IfFalse, depth, n);
    Stepped(P, S, a, b0, table, n, Clear);
    var b1 := Listed(t.shape.t, NoLabel, depth, Cleared(b0)).parts;
    Onward(P, S, table, a, Cleared(b0), t.shape.t, NoLabel, depth, n);
    Stepped(P, S, a, b1, table, n, Past);
    var b2 := Barred(Skipped(b1), Label);
    var b3 := Listed(t.shape.e, NoLabel, depth, b2).parts;
    Onward(P, S, table, a, b2, t.shape.e, NoLabel, depth, n);
    Stepped(P, S, a, b3, table, n, Bar(Label));
    Onward(P, S, table, a, Barred(b3, Label), t.shape.value, NoLabel, depth, n);
    var o := Listed(t.shape.value, NoLabel, depth, Barred(b3, Label));
    Finished(P, S, table, a, o.parts, t, o.node);
  }

  // ----- entries that have been written -----

  /** Only loads of parts of program symbols go stale. */
  ghost predicate OnlyParts(a: Parts) {
    a.stale <= a.keys && forall k :: k in a.stale ==> k.Of? && k.sym.Computed?
  }

  lemma {:induction false} PartsStep(a: Parts, step: Step)
    requires OnlyParts(a) && Enabled(a, step)
    ensures OnlyParts(Do(a, step))
  {
  }

  /** Some tree whose node the steps make is a load of c. */
  ghost predicate Loads(S: set<Step>, c: Sym) {
    exists id, sym :: Make(id, Of(c), sym) in S
  }

  /** No load that is cached or loaded is of a part of a symbol that is assigned. */
  ghost predicate Safe(S: set<Step>, a: Parts) {
    forall w, c :: Kill(w) in S && (Of(c) in a.keys || Loads(S, c)) && c.Computed? ==> !Overlap(w, c)
  }

  /** A tree that assigns to no symbol of which a part is loaded in it or cached before leaves nothing stale. */
  lemma {:induction false} SafeTree(t: Tree, c: Context, depth: nat, a: Parts, table: map<nat, Tree>)
    requires Known(t, table) && Remembers(a, table) && a.stale == {} && Safe(Steps(t, c), a)
    ensures Listed(t, c, depth, a).parts.stale == {}
  {
    hide Steps, Known, Remembers, Listed, Reached, Safe;
    var S := Steps(t, c);
    var P := (b: Parts) => SafeSoFar(S, a, b);
    forall b, step | P(b) && step in S && Enabled(b, step) ensures P(Do(b, step)) {
      SafeStep(S, a, b, step);
    }
    assert Keeps(P, S);
    Reaches(P, S, table, t, c, depth, a);
    ReachedIs(P, a, Listed(t, c, depth, a).parts, table, Size(t));
  }

  ghost predicate SafeSoFar(S: set<Step>, a: Parts, b: Parts) {
    b.stale == {} && forall c: Sym :: Of(c) in b.keys ==> Of(c) in a.keys || Loads(S, c)
  }

  lemma {:induction false} SafeStep(S: set<Step>, a: Parts, b: Parts, step: Step)
    requires Safe(S, a) && SafeSoFar(S, a, b) && step in S && Enabled(b, step)
    ensures SafeSoFar(S, a, Do(b, step))
  {
    hide Overlap;
    if step.Kill? {
      forall k | k in b.keys && !Killed(k, step.t) && Writes(Assign(Some(step.t)), k) ensures false {
        assert k.Of?;
        SameProgram(step.t, k.sym);
      }
    }
  }

  lemma SameProgram(t: Sym, c: Sym)
    requires t.Program? && !c.Computed? && Overlap(t, c)
    ensures t == c
  {
  }

  lemma ReachedIs(P: Parts -> bool, a: Parts, b: Parts, table: map<nat, Tree>, size: nat)
    requires Reached(P, a, b, table, size)
    ensures P(b)
  {
  }

  // ----- loads that are found -----

  /** Each computed symbol that the steps load is loaded by one tree. */
  ghost predicate OneLoad(S: set<Step>, owner: map<Sym, nat>) {
    forall id, c: Sym, sym :: Make(id, Of(c), sym) in S && c.Computed? ==> c in owner && owner[c] == id
  }

  /** A computed symbol is cached only once its one load tree remembers a node. */
  ghost predicate LoadedFirst(a: Parts, owner: map<Sym, nat>) {
    forall c: Sym :: c.Computed? && Of(c) in a.keys && c in owner ==> owner[c] in a.memo
  }

  ghost predicate Unhit(a: Parts, owner: map<Sym, nat>) {
    !a.hit && OnlyParts(a) && LoadedFirst(a, owner)
  }

  lemma {:induction false} UnhitStep(S: set<Step>, owner: map<Sym, nat>, a: Parts, step: Step)
    requires OneLoad(S, owner) && Unhit(a, owner) && step in S && Enabled(a, step)
    ensures Unhit(Do(a, step), owner)
  {
    PartsStep(a, step);
    if step.Make? {
      if step.key.Of? && step.key.sym.Computed? {
        assert owner[step.key.sym] == step.id;
      }
    }
  }

  /**
   * If every computed symbol that is loaded is loaded by one tree, however often that is shared,
   * no load is looked up under a symbol with a written load in the cache.
   */
  lemma {:induction false} NeverHit(t: Tree, c: Context, depth: nat, a: Parts, table: map<nat, Tree>,
                                    owner: map<Sym, nat>)
    requires Known(t, table) && Remembers(a, table) && OneLoad(Steps(t, c), owner) && Unhit(a, owner)
    ensures Unhit(Listed(t, c, depth, a).parts, owner)
  {
    hide Steps, Known, Remembers, Listed, Reached, OneLoad, Unhit;
    var S := Steps(t, c);
    var P := (b: Parts) => Unhit(b, owner);
    forall b, step | P(b) && step in S && Enabled(b, step) ensures P(Do(b, step)) {
      UnhitStep(S, owner, b, step);
    }
    assert Keeps(P, S);
    Reaches(P, S, table, t, c, depth, a);
    ReachedIs(P, a, Listed(t, c, depth, a).parts, table, Size(t));
  }

  // ----- entries that a jump has passed -----

  /** A tree without a condition that a constant decides leaves nothing that a jump has passed. */
  lemma {:induction false} NoneSkipped(t: Tree, c: Context, depth: nat, a: Parts, table: map<nat, Tree>)
    requires Known(t, table) && Remembers(a, table) && Skip !in Steps(t, c) && a.jumped == {}
    ensures Listed(t, c, depth, a).parts.jumped == {}
  {
    hide Steps, Known, Remembers, Listed, Reached;
    var S := Steps(t, c);
    var P := (b: Parts) => b.jumped == {};
    forall b, step | P(b) && step in S && Enabled(b, step) ensures P(Do(b, step)) {
    }
    assert Keeps(P, S);
    Reaches(P, S, table, t, c, depth, a);
    ReachedIs(P, a, Listed(t, c, depth, a).parts, table, Size(t));
  }

  // ----- what that means for the cache itself -----

  ghost predicate NoneMarked(s: State, m: Mark)
    requires |s.born| == |s.nodes|
  {
    forall x :: InCache(s, x) ==> 0 <= x < |s.nodes| && !Marked(s, x, m)
  }

  lemma {:induction false} NoneMarkedExactly(s: State, a: Parts, m: Mark)
    requires Fresh(s) && Shows(s, a)
    ensures NoneMarked(s, m) <==> Sets(a, m) == {}
  {
    hide Marked, KeyOf;
    forall x | InCache(s, x) ensures 0 <= x < |s.nodes| && (Marked(s, x, m) ==> Sets(a, m) != {}) {
      CachedEntry(s, x);
      if Marked(s, x, m) {
        assert Reads(s, x, KeyOf(s.nodes, s.nodes[x]));
        assert Has(s, KeyOf(s.nodes, s.nodes[x]), m);
      }
    }
    if Sets(a, m) != {} {
      var k :| k in Sets(a, m);
      assert Has(s, k, m);
    }
  }

  /** Since an entry was made no label, call or JUMP tree has been listed. */
  ghost predicate NothingSurvives(s: State)
    requires |s.born| == |s.nodes|
  {
    forall x, t :: InCache(s, x) && 0 <= x < |s.nodes| && s.born[x] <= t < |s.log| ==>
      !s.log[t].Label? && !s.log[t].Called? && !s.log[t].Goto?
  }

  /**
   * listnodes on any tree: nothing survives a label, a call or a JUMP tree; and what Listed
   * says of the tree tells exactly whether a jump has passed by an entry, and whether one has
   * been written; and the node is the tree, operator by operator.
   */
  method List(dag: Dag, t: Tree, c: Context, ghost a: Parts, ghost table: map<nat, Tree>) returns (p: int)
    requires dag.Valid() && Shows(dag.View(), a) && Known(t, table)
    requires Spelt(dag.nodes, dag.memo, dag.roots, dag.listed, table)
    modifies dag
    ensures Spelled(dag.nodes, p, t, c) && Spelt(dag.nodes, dag.memo, dag.roots, dag.listed, table)
    ensures dag.Valid() && NothingSurvives(dag.View())
    ensures NoneMarked(dag.View(), Crossed) <==> Listed(t, c, old(dag.depth), a).parts.jumped == {}
    ensures NoneMarked(dag.View(), Written) <==> Listed(t, c, old(dag.depth), a).parts.stale == {}
    ensures Shows(dag.View(), Listed(t, c, old(dag.depth), a).parts) && dag.depth == old(dag.depth)
  {
    hide Fresh, Shows, Listed, NoneMarked, NothingSurvives, Known, Spelt, Spelled, Roots;
    ghost var b := Listed(t, c, dag.depth, a).parts;
    p := dag.ListNodes(t, c, a, table);
    FreshBuckets(dag.View());
    Survivors(dag.View());
    NoneMarkedExactly(dag.View(), b, Crossed);
    NoneMarkedExactly(dag.View(), b, Written);
  }

  lemma Survivors(s: State)
    requires Fresh(s)
    ensures NothingSurvives(s)
  {
    forall x, t | InCache(s, x) && 0 <= x < |s.nodes| && s.born[x] <= t < |s.log|
      ensures !s.log[t].Label? && !s.log[t].Called? && !s.log[t].Goto?
    {
      CachedEntry(s, x);
      assert Passable(s.log[t]);
    }
  }

  /** Behind a jump and before the next label control never comes. */
  ghost predicate Unreachable(log: seq<Event>, n: nat) {
    exists j :: 0 <= j < n && j < |log| && log[j].Jump? && forall k :: j < k < n && k < |log| ==> !log[k].Label?
  }

  /** Nothing but assignments between the making of a node and its being found, and none to what it reads. */
  ghost predicate Sound(s: State, f: (int, nat)) {
    && 0 <= f.0 < |s.nodes| == |s.born| && s.born[f.0] <= f.1 <= |s.log|
    && forall t :: s.born[f.0] <= t < f.1 ==> s.log[t].Assign? && !Writes(s.log[t], KeyOf(s.nodes, s.nodes[f.0]))
  }

  /** A node found where control can come has passed no jump, and no label or call. */
  lemma {:induction false} FoundSound(s: State, a: Parts, i: nat)
    requires Fresh(s) && Shows(s, a) && !a.hit && i < |s.found| && !Unreachable(s.log, s.found[i].1)
    ensures Sound(s, s.found[i])
  {
    hide Writes, KeyOf, MemoShown, Has;
    var f := s.found[i];
    assert FoundOk(s, f) && Unwritten(s, f);
    forall t | s.born[f.0] <= t < f.1 ensures s.log[t].Assign? {
      assert Passable(s.log[t]);
    }
  }

  /**
   * A walk over a tree in which each computed symbol is loaded by one tree, as the front end
   * makes them: whatever is found in the cache, where control can come, has been computed
   * before with nothing in between but assignments to something else.
   */
  method ListNew(dag: Dag, t: Tree, c: Context, ghost a: Parts, ghost table: map<nat, Tree>, ghost owner: map<Sym, nat>)
    requires dag.Valid() && dag.depth == 0 && Shows(dag.View(), a) && a.keys == {} && !a.hit
    requires Known(t, table) && Remembers(a, table) && OneLoad(Steps(t, c), owner)
    requires Spelt(dag.nodes, dag.memo, dag.roots, dag.listed, table)
    modifies dag
    ensures dag.Valid() && dag.depth == 0 && Empty(dag.View())
    ensures Spelt(dag.nodes, dag.memo, dag.roots, dag.listed, table)
    ensures dag.listed == old(dag.listed) + Roots(t, c, 0, a)
    ensures
      var b := Cleared(Listed(t, c, 0, a).parts);
      Shows(dag.View(), b) && !b.hit && Remembers(b, table)
    ensures forall i :: 0 <= i < |dag.found| && !Unreachable(dag.log, dag.found[i].1) ==>
        Sound(dag.View(), dag.found[i])
  {
    hide Fresh, Shows, Listed, Steps, Known, Remembers, OneLoad, Empty, Unreachable, Sound, Spelt, Roots;
    ghost var b := Cleared(Listed(t, c, 0, a).parts);
    NoKeys(dag.View(), a, owner);
    NeverHit(t, c, 0, a, table, owner);
    StillKnown(t, c, 0, a, table);
    dag.Walk(t, c, a, table);
    forall i | 0 <= i < |dag.found| && !Unreachable(dag.log, dag.found[i].1) ensures Sound(dag.View(), dag.found[i]) {
      FoundSound(dag.View(), b, i);
    }
  }

  lemma NoKeys(s: State, a: Parts, owner: map<Sym, nat>)
    requires Fresh(s) && Shows(s, a) && a.keys == {} && !a.hit
    ensures Unhit(a, owner)
  {
    hide Marked, Unwritten;
    forall k ensures k !in a.stale {
      if k in a.stale {
        assert k in Sets(a, Written) && Has(s, k, Written);
        MarkedAny(s, k, Written);
      }
    }
  }

  lemma {:induction false} StillKnown(t: Tree, c: Context, depth: nat, a: Parts, table: map<nat, Tree>)
    requires Known(t, table) && Remembers(a, table)
    ensures Remembers(Cleared(Listed(t, c, depth, a).parts), table)
  {
    hide Steps, Known, Listed;
    var P := (b: Parts) => true;
    Reaches(P, Steps(t, c), table, t, c, depth, a);
  }

  // ----- trees that show it -----

  /** (x == 1 && 0) && y, as a condition. */
  function HalfConstant(x: Sym, y: Sym): Tree {
    var test := Tree(3, Compare(EQ, Tree(2, Load(false, Tree(1, Addr(x)))), Tree(4, Const(1))));
    var rest := Tree(9, Compare(NE, Tree(8, Load(false, Tree(7, Addr(y)))), Tree(10, Const(0))));
    Tree(11, And(Tree(6, And(test, Tree(5, Const(0)))), rest))
  }

  lemma {:induction false} ListedAddr(id: nat, sym: Sym, depth: nat, a: Parts)
    requires id !in a.memo
    ensures Listed(Tree(id, Addr(sym)), NoLabel, depth, a)
        == Outcome(Noted(Looked(a, Plain), id, Some(Some(sym))), Some(Some(sym)))
  {
  }

  lemma {:induction false} ListedConst(id: nat, n: int, depth: nat, a: Parts)
    requires id !in a.memo
    ensures Listed(Tree(id, Const(n)), NoLabel, depth, a)
        == Outcome(Noted(Looked(a, Plain), id, Some(None)), Some(None))
  {
  }

  /** A load of a symbol, from a cache whose trees remember nothing of it. */
  lemma {:induction false} ListedLoad(id: nat, l: nat, sym: Sym, depth: nat, a: Parts)
    requires id !in a.memo && l !in a.memo && id != l
    ensures
      var b := Noted(Looked(a, Plain), l, Some(Some(sym)));
      Listed(Tree(id, Load(false, Tree(l, Addr(sym)))), NoLabel, depth, a)
      == Outcome(Noted(Looked(b, Of(sym)), id, Some(None)), Some(None))
  {
    ListedAddr(l, sym, depth, a);
  }

  lemma {:induction false} ListedCompare(id: nat, rel: Rel, l: Tree, r: Tree, depth: nat, a: Parts)
    requires id !in a.memo
    ensures
      Listed(Tree(id, Compare(rel, l, r)), IfFalse, depth, a)
      == Outcome(Listed(r, NoLabel, depth, Listed(l, NoLabel, depth, a).parts).parts, None)
  {
  }

  lemma {:induction false} ListedAnd(id: nat, l: Tree, r: Tree, depth: nat, a: Parts)
    requires id !in a.memo && (depth == 0 ==> Cleared(a) == a)
    ensures
      Listed(Tree(id, And(l, r)), IfFalse, depth, a)
      == Outcome(Listed(r, IfFalse, depth + 1, Listed(l, IfFalse, depth + 1, a).parts).parts, None)
  {
  }

  lemma HalfConstantJumps(x: Sym, y: Sym)
    ensures Of(x) in Listed(HalfConstant(x, y), IfFalse, 0, START).parts.jumped
  {
    var t := HalfConstant(x, y);
    var load, test, half, rest := Tree(2, Load(false, Tree(1, Addr(x)))), t.shape.l.shape.l, t.shape.l, t.shape.r;
    ListedLoad(2, 1, x, 2, START);
    var b := Listed(load, NoLabel, 2, START).parts;
    ListedConst(4, 1, 2, b);
    ListedCompare(3, EQ, load, Tree(4, Const(1)), 2, START);
    var d := Listed(test, IfFalse, 2, START).parts;
    assert Of(x) in d.keys;
    var e := Listed(Tree(5, Const(0)), IfFalse, 2, d).parts;
    assert 5 !in d.memo && e == Skipped(d);
    ListedAnd(6, test, Tree(5, Const(0)), 1, START);
    ListedAnd(11, half, rest, 0, START);
    PlainCompare(9, NE, Tree(8, Load(false, Tree(7, Addr(y)))), Tree(10, Const(0)), 1, e);
  }

  /** Leaves and loads of them list nothing. */
  predicate Quiet(t: Tree) {
    t.Tree? && (t.shape.Addr? || t.shape.Const? || (t.shape.Load? && AddressTree(t.shape.a)))
  }

  lemma {:induction false} QuietKeeps(t: Tree, depth: nat, a: Parts)
    requires Quiet(t)
    ensures Listed(t, NoLabel, depth, a).parts.jumped == a.jumped
  {
    if t.shape.Load? { QuietKeeps(t.shape.a, depth, a); }
  }

  lemma {:induction false} PlainCompare(id: nat, rel: Rel, l: Tree, r: Tree, depth: nat, a: Parts)
    requires Quiet(l) && Quiet(r)
    ensures Listed(Tree(id, Compare(rel, l, r)), IfFalse, depth, a).parts.jumped == a.jumped
  {
    QuietKeeps(l, depth, a);
    QuietKeeps(r, depth, Listed(l, NoLabel, depth, a).parts);
  }

  lemma {:induction false} KnownQuiet(t: Tree, table: map<nat, Tree>)
    requires Quiet(t) && t.id in table && table[t.id] == t
    requires t.shape.Load? ==> t.shape.a.id in table && table[t.shape.a.id] == t.shape.a
    ensures Known(t, table)
  {
    if t.shape.Load? {
      assert KnownShape(t.shape.a.shape, table);
      assert Known(t.shape.a, table);
    }
    assert KnownShape(t.shape, table);
  }

  lemma HalfConstantKnown(x: Sym, y: Sym) returns (table: map<nat, Tree>)
    ensures Known(HalfConstant(x, y), table)
  {
    var t := HalfConstant(x, y);
    var half, rest := t.shape.l, t.shape.r;
    var test := half.shape.l;
    table := map[1 := test.shape.l.shape.a, 2 := test.shape.l, 3 := test, 4 := test.shape.r, 5 := half.shape.r,
                 6 := half, 7 := rest.shape.l.shape.a, 8 := rest.shape.l, 9 := rest, 10 := rest.shape.r, 11 := t];
    KnownQuiet(test.shape.l, table);
    KnownQuiet(test.shape.r, table);
    KnownQuiet(half.shape.r, table);
    KnownQuiet(rest.shape.l, table);
    KnownQuiet(rest.shape.r, table);
    assert KnownShape(test.shape, table) && KnownShape(rest.shape, table);
    assert Known(test, table) && Known(rest, table);
    assert KnownShape(half.shape, table) && Known(half, table);
    assert KnownShape(t.shape, table);
  }

  /** A node stays cached across the jump of a constant condition. */
  method KeptAcrossJump(hash: (Op, Option<Sym>) -> nat, x: Sym, y: Sym) returns (dag: Dag)
    ensures dag.Valid() && !NoneMarked(dag.View(), Crossed)
  {
    hide Fresh, Shows, NoneMarked, NothingSurvives, Listed, HalfConstant, Known, Spelt, Spelled;
    dag := new Dag(hash);
    HalfConstantJumps(x, y);
    ghost var table := HalfConstantKnown(x, y);
    var p := List(dag, HalfConstant(x, y), IfFalse, START, table);
  }

  /** (load of part, whole = v) */
  function PartThenWhole(part: Sym, whole: Sym, v: int): Tree {
    Tree(6, Both(Tree(2, Load(false, Tree(1, Addr(part)))), Tree(5, Store(Tree(3, Addr(whole)), Tree(4, Const(v))))))
  }

  /** The assignment to the whole symbol, once its kids have been listed. */
  lemma {:induction false} WholeStored(part: Sym, whole: Sym, v: int, b: Parts, b2: Parts)
    requires whole.Program? && part.Computed? && part.base == whole.id && 5 !in b.memo
    requires Of(part) in b2.keys && 4 in b2.memo
    requires b2 == Listed(Tree(4, Const(v)), NoLabel, 0, Listed(Tree(3, Addr(whole)), NoLabel, 0, b).parts).parts
    ensures Of(part) in Listed(Tree(5, Store(Tree(3, Addr(whole)), Tree(4, Const(v)))), NoLabel, 0, b).parts.stale
  {
    hide Looked;
    var l, r := Tree(3, Addr(whole)), Tree(4, Const(v));
    assert !Killed(Of(part), whole) && Overlap(whole, part);
    assert Assigned(l, b2) == KilledFor(b2, whole);
    assert Listed(r, NoLabel, 0, KilledFor(b2, whole)).parts == KilledFor(b2, whole);
    assert ListedShape(Store(l, r), NoLabel, 0, b) == Listed(r, NoLabel, 0, KilledFor(b2, whole));
  }

  lemma PartGoesStale(part: Sym, whole: Sym, v: int)
    requires whole.Program? && part.Computed? && part.base == whole.id
    ensures Of(part) in Listed(PartThenWhole(part, whole, v), NoLabel, 0, START).parts.stale
  {
    var load := Tree(2, Load(false, Tree(1, Addr(part))));
    var store := Tree(5, Store(Tree(3, Addr(whole)), Tree(4, Const(v))));
    ListedLoad(2, 1, part, 0, START);
    var b := Listed(load, NoLabel, 0, START).parts;
    ListedAddr(3, whole, 0, b);
    var b1 := Listed(Tree(3, Addr(whole)), NoLabel, 0, b).parts;
    ListedConst(4, v, 0, b1);
    var b2 := Listed(Tree(4, Const(v)), NoLabel, 0, b1).parts;
    WholeStored(part, whole, v, b, b2);
    assert !KeepsLoad(load, store);
    assert ListedShape(Both(load, store), NoLabel, 0, START) == Listed(store, NoLabel, 0, b);
  }

  lemma PartThenWholeKnown(part: Sym, whole: Sym, v: int) returns (table: map<nat, Tree>)
    ensures Known(PartThenWhole(part, whole, v), table)
  {
    var t := PartThenWhole(part, whole, v);
    var load, store := t.shape.l, t.shape.r;
    table := map[1 := load.shape.a, 2 := load, 3 := store.shape.a, 4 := store.shape.v, 5 := store, 6 := t];
    KnownQuiet(load, table);
    KnownQuiet(store.shape.a, table);
    KnownQuiet(store.shape.v, table);
    assert KnownShape(store.shape, table) && Known(store, table);
    assert KnownShape(t.shape, table);
  }

  /** A load of part of a program symbol stays cached, and stale, when the whole symbol is assigned. */
  method StaleLoad(hash: (Op, Option<Sym>) -> nat, part: Sym, whole: Sym, v: int) returns (dag: Dag)
    requires whole.Program? && part.Computed? && part.base == whole.id
    ensures dag.Valid() && !NoneMarked(dag.View(), Written)
  {
    hide Fresh, Shows, NoneMarked, NothingSurvives, Listed, PartThenWhole, Known, Spelt, Spelled;
    dag := new Dag(hash);
    PartGoesStale(part, whole, v);
    ghost var table := PartThenWholeKnown(part, whole, v);
    var p := List(dag, PartThenWhole(part, whole, v), NoLabel, START, table);
  }

  /** part op= v, with one tree for the address on both sides. */
  function Compound(part: Sym, code: int, v: int): Tree {
    var q := Tree(1, Addr(part));
    Tree(5, Store(q, Tree(4, Pure(code, Tree(2, Load(false, q)), Tree(3, Const(v))))))
  }

  /** part++ as the front end writes it: the load, the assignment, and the load again. */
  function Increment(part: Sym, code: int): Tree {
    var load := Tree(2, Load(false, Tree(1, Addr(part))));
    var store := Tree(5, Store(Tree(1, Addr(part)), Tree(4, Pure(code, load, Tree(3, Const(1))))));
    Tree(7, Both(Tree(6, Both(load, store)), load))
  }

  lemma CompoundOneLoad(part: Sym, code: int, v: int)
    ensures OneLoad(Steps(Compound(part, code, v), NoLabel), map[part := 2])
  {
    var q := Tree(1, Addr(part));
    var load := Tree(2, Load(false, q));
    var sum := Tree(4, Pure(code, load, Tree(3, Const(v))));
    assert Steps(q, NoLabel) == {Make(1, Plain, Some(part))};
    assert Steps(load, NoLabel) == Steps(q, NoLabel) + {Make(2, Of(part), None), Make(2, Through, None)};
    assert Steps(Tree(3, Const(v)), NoLabel) == {Make(3, Plain, None)};
    assert Steps(sum, NoLabel) == Steps(load, NoLabel) + {Make(3, Plain, None)} + {Make(4, Plain, None)};
  }

  lemma IncrementOneLoad(part: Sym, code: int)
    ensures OneLoad(Steps(Increment(part, code), NoLabel), map[part := 2])
  {
    var q := Tree(1, Addr(part));
    var load := Tree(2, Load(false, q));
    var sum := Tree(4, Pure(code, load, Tree(3, Const(1))));
    var store := Tree(5, Store(q, sum));
    assert Steps(q, NoLabel) == {Make(1, Plain, Some(part))};
    assert Steps(load, NoLabel) == Steps(q, NoLabel) + {Make(2, Of(part), None), Make(2, Through, None)};
    assert Steps(Tree(3, Const(1)), NoLabel) == {Make(3, Plain, None)};
    assert Steps(sum, NoLabel) == Steps(load, NoLabel) + {Make(3, Plain, None)} + {Make(4, Plain, None)};
    assert KeepsLoad(load, store);
    var first := Tree(6, Both(load, store));
    assert Steps(first, NoLabel) == Steps(load, NoLabel) + Steps(store, NoLabel) + {Note(6, None)};
  }
}
