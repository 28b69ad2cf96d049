// The dag nodes that listnodes makes and the buckets that cache them (lcc/src/dag.c):
// what node, kill and reset do to the entries, told by what the entries read.

module NodeCache {
  import opened Words
  import opened Comparisons

  const BUCKETS := 16

  /**
   * Symbols of the program name disjoint storage. addrtree (lcc/src/simp.c) makes computed
   * symbols for storage inside a program symbol's.
   */
  datatype Sym = Program(id: int) | Computed(id: int, base: int)

  predicate Overlap(p: Sym, s: Sym) {
    (if p.Program? then p.id else p.base) == (if s.Program? then s.id else s.base)
  }

  datatype Op = CNST(v: int) | ADDR | INDIR | Branch(rel: Rel) | Other(code: int)

  /** A dag node; its kids are node numbers, -1 for none. */
  datatype Node = Node(op: Op, l: int, r: int, sym: Option<Sym>)

  /** What a listed root does to memory or control. */
  datatype Event =
    | Assign(target: Option<Sym>)  // to a symbol, or through a pointer
    | Label
    | Called
    | Goto                         // a JUMP tree
    | Jump                         // to a label, without a reset behind it

  /** The symbol a node is the address of, if any. */
  function NameOf(nodes: seq<Node>, p: int): Option<Sym> {
    if 0 <= p < |nodes| && nodes[p].op.ADDR? then nodes[p].sym else None
  }

  /** What a node reads: nothing, memory through a pointer, or a symbol. */
  datatype Key = Plain | Through | Of(sym: Sym)

  function KeyOf(nodes: seq<Node>, n: Node): Key {
    if !n.op.INDIR? then Plain
    else match NameOf(nodes, n.l) case Some(s) => Of(s) case None => Through
  }

  /** Whether the event may write what is read. */
  predicate Writes(e: Event, k: Key) {
    e.Assign? &&
    match k
    case Plain => false
    case Through => true
    case Of(s) => e.target.None? || Overlap(e.target.value, s)
  }

  /** The entries that kill removes for symbol t. */
  predicate Killed(k: Key, t: Sym) {
    k == Through || k == Of(t)
  }

  // ----- the state of a run -----

  /**
   * The nodes, the chains and the nodes that trees remember; the roots listed so far, how many
   * had been listed when a node was made, and each node that was found in the cache with how
   * many had been listed then.
   */
  datatype State = State(nodes: seq<Node>, buckets: seq<seq<int>>, memo: map<nat, int>,
                         log: seq<Event>, born: seq<nat>, found: seq<(int, nat)>)

  /** Roots across which entries may be kept. */
  predicate Passable(e: Event) { e.Assign? || e.Jump? }

  ghost predicate AllPassable(log: seq<Event>, i: int, j: int) {
    forall t :: 0 <= i <= t < j && t < |log| ==> Passable(log[t])
  }

  /** No label, call or JUMP tree has been listed since x was made. */
  ghost predicate EntryOk(s: State, x: int) {
    0 <= x < |s.nodes| && |s.born| == |s.nodes| && s.born[x] <= |s.log| && AllPassable(s.log, s.born[x], |s.log|)
  }

  ghost predicate ChainOk(s: State, chain: seq<int>) {
    forall x :: x in chain ==> EntryOk(s, x)
  }

  /** Nor had one been listed when x was found. */
  ghost predicate FoundOk(s: State, f: (int, nat)) {
    && 0 <= f.0 < |s.nodes| == |s.born| && s.born[f.0] <= f.1 <= |s.log|
    && AllPassable(s.log, s.born[f.0], f.1)
  }

  /** Kids are older than their node, and an address has a symbol. */
  ghost predicate Grounded(nodes: seq<Node>) {
    forall x :: 0 <= x < |nodes| ==>
      -1 <= nodes[x].l < x && -1 <= nodes[x].r < x && (nodes[x].op.ADDR? ==> nodes[x].sym.Some?)
  }

  ghost predicate MemoOk(s: State) {
    forall id :: id in s.memo ==> 0 <= s.memo[id] < |s.nodes|
  }

  ghost predicate Fresh(s: State) {
    && |s.born| == |s.nodes| && Grounded(s.nodes) && |s.buckets| == BUCKETS && MemoOk(s)
    && (forall i :: 0 <= i < BUCKETS ==> ChainOk(s, s.buckets[i]))
    && (forall i :: 0 <= i < |s.found| ==> FoundOk(s, s.found[i]))
  }

  ghost predicate InCache(s: State, x: int) {
    exists i :: 0 <= i < |s.buckets| && x in s.buckets[i]
  }

  // ----- what has happened to an entry -----

  datatype Mark = Any | Crossed | Written

  predicate Marks(m: Mark, e: Event, k: Key) {
    match m
    case Any => true
    case Crossed => e.Jump?
    case Written => Writes(e, k)
  }

  /** Since x was made a jump has been listed, or something that may have written what x reads. */
  ghost predicate Marked(s: State, x: int, m: Mark)
    requires |s.born| == |s.nodes| && 0 <= x < |s.nodes|
  {
    m == Any || exists t :: s.born[x] <= t < |s.log| && Marks(m, s.log[t], KeyOf(s.nodes, s.nodes[x]))
  }

  predicate Reads(s: State, x: int, k: Key) {
    0 <= x < |s.nodes| && KeyOf(s.nodes, s.nodes[x]) == k
  }

  /** Some entry reads that and is so marked. */
  ghost predicate Has(s: State, k: Key, m: Mark)
    requires |s.born| == |s.nodes|
  {
    exists x :: InCache(s, x) && Reads(s, x, k) && Marked(s, x, m)
  }

  /** Nothing had written what the node reads when it was found. */
  ghost predicate Unwritten(s: State, f: (int, nat)) {
    && 0 <= f.0 < |s.nodes| == |s.born| && f.1 <= |s.log|
    && forall t :: s.born[f.0] <= t < f.1 ==> !Writes(s.log[t], KeyOf(s.nodes, s.nodes[f.0]))
  }

  // ----- the cache, as a reader of the trees can tell it -----

  /**
   * What the entries read; what those read that a jump has passed by, and those that have been
   * written; the trees that remember a node, with the symbol it is the address of; the roots
   * listed; and whether a load was looked up that may be a written one.
   */
  datatype Parts = Parts(keys: set<Key>, jumped: set<Key>, stale: set<Key>,
                         memo: map<nat, Option<Sym>>, log: seq<Event>, hit: bool)

  const START := Parts({}, {}, {}, map[], [], false)

  function Sets(a: Parts, m: Mark): set<Key> {
    match m case Any => a.keys case Crossed => a.jumped case Written => a.stale
  }

  ghost predicate MemoShown(s: State, memo: map<nat, Option<Sym>>) {
    && s.memo.Keys == memo.Keys
    && forall id :: id in memo ==> memo[id] == NameOf(s.nodes, s.memo[id])
  }

  ghost predicate Shows(s: State, a: Parts)
    requires |s.born| == |s.nodes|
  {
    && (forall k, m :: k in Sets(a, m) <==> Has(s, k, m))
    && MemoShown(s, a.memo) && a.log == s.log
    && (!a.hit ==> forall i :: 0 <= i < |s.found| ==> Unwritten(s, s.found[i]))
  }

  function Cleared(a: Parts): Parts {
    a.(keys := {}, jumped := {}, stale := {})
  }

  /** A node that reads k is looked up. */
  function Looked(a: Parts, k: Key): Parts {
    a.(keys := a.keys + {k}, hit := a.hit || k in a.stale)
  }

  /** An assignment to program symbol t is listed, and killed for. */
  function KilledFor(a: Parts, t: Sym): Parts {
    var e := Assign(Some(t));
    a.(keys := (set k | k in a.keys && !Killed(k, t)),
       jumped := (set k | k in a.jumped && !Killed(k, t)),
       stale := (set k | k in a.keys && !Killed(k, t) && (k in a.stale || Writes(e, k))),
       log := a.log + [e])
  }

  /** Something is listed that nothing is kept across. */
  function Barred(a: Parts, e: Event): Parts {
    Cleared(a).(log := a.log + [e])
  }

  /** A jump is listed, and nothing forgotten. */
  function Skipped(a: Parts): Parts {
    a.(jumped := a.keys, log := a.log + [Jump])
  }

  // ----- nodes added -----

  function Added(s: State, n: Node): State {
    s.(nodes := s.nodes + [n], born := s.born + [|s.log|])
  }

  predicate KidsOk(s: State, n: Node) {
    -1 <= n.l < |s.nodes| && -1 <= n.r < |s.nodes| && (n.op.ADDR? ==> n.sym.Some?)
  }

  /** The newest node goes to the front of chain i. */
  function Cached(s: State, i: nat): State
    requires i < |s.buckets| && s.nodes != []
  {
    s.(buckets := s.buckets[i := [|s.nodes| - 1] + s.buckets[i]])
  }

  /** What older nodes read is not changed by a new one. */
  lemma KeyKept(nodes: seq<Node>, nodes': seq<Node>, x: int)
    requires Grounded(nodes) && nodes <= nodes' && 0 <= x < |nodes|
    ensures KeyOf(nodes', nodes'[x]) == KeyOf(nodes, nodes[x]) && NameOf(nodes', x) == NameOf(nodes, x)
  {
  }

  lemma CachedEntry(s: State, x: int)
    requires Fresh(s) && InCache(s, x)
    ensures EntryOk(s, x)
  {
    var i :| 0 <= i < |s.buckets| && x in s.buckets[i];
    assert ChainOk(s, s.buckets[i]);
  }

  /** Two states with the same entries, marked in the same way. */
  lemma SameHas(s: State, s': State, k: Key, m: Mark)
    requires |s.born| == |s.nodes| && |s'.born| == |s'.nodes|
    requires forall x :: InCache(s', x) <==> InCache(s, x)
    requires forall x :: InCache(s, x) ==>
      0 <= x < |s.nodes| && x < |s'.nodes| && (Reads(s', x, k) <==> Reads(s, x, k))
          && (Marked(s', x, m) <==> Marked(s, x, m))
    ensures Has(s', k, m) <==> Has(s, k, m)
  {
  }

  lemma MarkedKept(s: State, s': State, x: int, m: Mark)
    requires |s.born| == |s.nodes| && |s'.born| == |s'.nodes| && s.nodes <= s'.nodes && s.born <= s'.born
    requires Grounded(s.nodes) && s'.log == s.log && 0 <= x < |s.nodes|
    ensures Marked(s', x, m) <==> Marked(s, x, m)
    ensures forall k :: Reads(s', x, k) <==> Reads(s, x, k)
  {
    hide Marks;
    KeyKept(s.nodes, s'.nodes, x);
  }

  lemma UnwrittenKept(s: State, s': State, f: (int, nat))
    requires |s.born| == |s.nodes| && |s'.born| == |s'.nodes| && s.nodes <= s'.nodes && s.born <= s'.born
    requires Grounded(s.nodes) && s.log <= s'.log && Unwritten(s, f)
    ensures Unwritten(s', f)
  {
    hide Writes;
    KeyKept(s.nodes, s'.nodes, f.0);
    forall t | s'.born[f.0] <= t < f.1 ensures !Writes(s'.log[t], KeyOf(s'.nodes, s'.nodes[f.0])) {
      assert !Writes(s.log[t], KeyOf(s.nodes, s.nodes[f.0]));
    }
  }

  lemma MemoKept(s: State, s': State, memo: map<nat, Option<Sym>>)
    requires Grounded(s.nodes) && s.nodes <= s'.nodes && s'.memo == s.memo && MemoOk(s) && MemoShown(s, memo)
    ensures MemoOk(s') && MemoShown(s', memo)
  {
  }

  lemma {:induction false} AddedKeeps(s: State, n: Node, a: Parts)
    requires Fresh(s) && Shows(s, a) && KidsOk(s, n)
    ensures Fresh(Added(s, n)) && Shows(Added(s, n), a)
  {
    hide Marked, Unwritten, AllPassable, KeyOf, MemoOk, MemoShown;
    var s' := Added(s, n);
    MemoKept(s, s', a.memo);
    forall x | InCache(s, x) ensures EntryOk(s', x) {
      CachedEntry(s, x);
    }
    forall i | 0 <= i < BUCKETS ensures ChainOk(s', s'.buckets[i]) {
      forall x | x in s'.buckets[i] ensures EntryOk(s', x) {
        assert InCache(s, x);
      }
    }
    forall i | 0 <= i < |s'.found| ensures FoundOk(s', s'.found[i])
        && (Unwritten(s, s.found[i]) ==> Unwritten(s', s'.found[i])) {
      assert FoundOk(s, s.found[i]);
      if Unwritten(s, s.found[i]) { UnwrittenKept(s, s', s.found[i]); }
    }
    AddedHas(s, n);
  }

  lemma {:induction false} AddedHas(s: State, n: Node)
    requires Fresh(s)
    ensures forall k, m :: Has(Added(s, n), k, m) <==> Has(s, k, m)
  {
    hide Marked, AllPassable, Reads, FoundOk, MemoOk;
    var s' := Added(s, n);
    forall k, m ensures Has(s', k, m) <==> Has(s, k, m) {
      forall x | InCache(s, x)
        ensures 0 <= x < |s.nodes| && x < |s'.nodes| && (Reads(s', x, k) <==> Reads(s, x, k))
            && (Marked(s', x, m) <==> Marked(s, x, m))
      {
        CachedEntry(s, x);
        MarkedKept(s, s', x, m);
      }
      SameHas(s, s', k, m);
    }
  }

  lemma CachedMore(s: State, i: nat)
    requires i < |s.buckets| && s.nodes != []
    ensures forall x :: InCache(Cached(s, i), x) <==> InCache(s, x) || x == |s.nodes| - 1
  {
    var s', p := Cached(s, i), |s.nodes| - 1;
    assert s'.buckets[i] == [p] + s.buckets[i];
    forall x | InCache(s, x) || x == p ensures InCache(s', x) {
      if x == p {
        assert x in s'.buckets[i];
      } else {
        var j :| 0 <= j < |s.buckets| && x in s.buckets[j];
        assert x in s'.buckets[j];
      }
    }
  }

  lemma {:induction false} CachedKeeps(s: State, i: nat, a: Parts)
    requires Fresh(s) && Shows(s, a) && i < BUCKETS && s.nodes != [] && s.born[|s.nodes| - 1] == |s.log|
    ensures Fresh(Cached(s, i)) && Shows(Cached(s, i), Looked(a, KeyOf(s.nodes, s.nodes[|s.nodes| - 1])))
  {
    hide KeyOf, MemoOk, MemoShown, FoundOk, Unwritten, Grounded;
    var s', p := Cached(s, i), |s.nodes| - 1;
    CachedMore(s, i);
    assert EntryOk(s', p);
    forall j | 0 <= j < BUCKETS ensures ChainOk(s', s'.buckets[j]) {
      forall x | x in s'.buckets[j] ensures EntryOk(s', x) {
        if x != p || j != i { assert ChainOk(s, s.buckets[j]); }
      }
    }
    forall j | 0 <= j < |s'.found| ensures FoundOk(s', s'.found[j])
        && (Unwritten(s', s'.found[j]) <==> Unwritten(s, s.found[j])) {
      SameFound(s, s', s.found[j]);
    }
    SameMemo(s, s', a.memo);
    CachedHas(s, i, KeyOf(s.nodes, s.nodes[p]));
  }

  lemma SameFound(s: State, s': State, f: (int, nat))
    requires s'.nodes == s.nodes && s'.born == s.born && s'.log == s.log
    ensures (FoundOk(s', f) <==> FoundOk(s, f)) && (Unwritten(s', f) <==> Unwritten(s, f))
  {
  }

  lemma SameMemo(s: State, s': State, memo: map<nat, Option<Sym>>)
    requires s'.nodes == s.nodes && s'.memo == s.memo
    ensures (MemoOk(s') <==> MemoOk(s)) && (MemoShown(s', memo) <==> MemoShown(s, memo))
  {
  }

  lemma {:induction false} CachedHas(s: State, i: nat, key: Key)
    requires Fresh(s) && i < BUCKETS && s.nodes != [] && s.born[|s.nodes| - 1] == |s.log|
    requires KeyOf(s.nodes, s.nodes[|s.nodes| - 1]) == key
    ensures forall k, m :: Has(Cached(s, i), k, m) <==> Has(s, k, m) || (k == key && m == Any)
  {
    hide KeyOf, MemoOk, FoundOk, Grounded, ChainOk;
    var s', p := Cached(s, i), |s.nodes| - 1;
    CachedMore(s, i);
    forall x, m ensures 0 <= x < |s.nodes| ==> (Marked(s', x, m) <==> Marked(s, x, m)) {
    }
    assert forall m :: Marked(s', p, m) <==> m == Any;
    forall k, m ensures Has(s', k, m) <==> Has(s, k, m) || (k == key && m == Any) {
      if Has(s', k, m) {
        var x :| InCache(s', x) && Reads(s', x, k) && Marked(s', x, m);
        assert x == p || (InCache(s, x) && Reads(s, x, k) && Marked(s, x, m));
      }
      if Has(s, k, m) {
        var x :| InCache(s, x) && Reads(s, x, k) && Marked(s, x, m);
        assert InCache(s', x) && Reads(s', x, k) && Marked(s', x, m);
      }
      if k == key && m == Any {
        assert InCache(s', p) && Reads(s', p, k) && Marked(s', p, m);
      }
    }
  }

  /** Node p is found in the cache. */
  function Find(s: State, p: int): State {
    s.(found := s.found + [(p, |s.log|)])
  }

  lemma {:induction false} FoundKeeps(s: State, p: int, a: Parts)
    requires Fresh(s) && Shows(s, a) && InCache(s, p) && 0 <= p < |s.nodes|
    ensures Fresh(Find(s, p)) && Shows(Find(s, p), Looked(a, KeyOf(s.nodes, s.nodes[p])))
  {
    hide KeyOf, MemoOk, MemoShown, Grounded;
    var s', k, f := Find(s, p), KeyOf(s.nodes, s.nodes[p]), (p, |s.log|);
    CachedEntry(s, p);
    assert FoundOk(s, f);
    assert Reads(s, p, k) && Marked(s, p, Any) && Has(s, k, Any);
    if k !in a.stale { assert !Has(s, k, Written) && !Marked(s, p, Written) && Unwritten(s, f); }
    FoundSame(s, s');
    SameMemo(s, s', a.memo);
    assert a.keys + {k} == a.keys;
    assert forall i :: 0 <= i < |s'.found| ==> s'.found[i] == if i < |s.found| then s.found[i] else f;
  }

  lemma FoundSame(s: State, s': State)
    requires |s.born| == |s.nodes| && s' == s.(found := s'.found)
    ensures forall x :: InCache(s', x) <==> InCache(s, x)
    ensures forall k, m :: Has(s', k, m) <==> Has(s, k, m)
    ensures forall x :: EntryOk(s', x) <==> EntryOk(s, x)
    ensures forall f :: (FoundOk(s', f) <==> FoundOk(s, f)) && (Unwritten(s', f) <==> Unwritten(s, f))
    ensures forall i :: 0 <= i < |s.buckets| ==> (ChainOk(s', s'.buckets[i]) <==> ChainOk(s, s.buckets[i]))
  {
    hide FoundOk, Unwritten, AllPassable;
    forall f ensures (FoundOk(s', f) <==> FoundOk(s, f)) && (Unwritten(s', f) <==> Unwritten(s, f)) {
      SameFound(s, s', f);
    }
    forall k, m ensures Has(s', k, m) <==> Has(s, k, m) {
      forall x | 0 <= x < |s.nodes| ensures Marked(s', x, m) <==> Marked(s, x, m) {
      }
      HasSame(s, s', k, m);
    }
  }

  lemma HasSame(s: State, s': State, k: Key, m: Mark)
    requires |s.born| == |s.nodes| && s'.nodes == s.nodes && s'.born == s.born && s'.buckets == s.buckets
        && s'.log == s.log
    ensures Has(s', k, m) <==> Has(s, k, m)
  {
    forall x | 0 <= x < |s.nodes| ensures Marked(s', x, m) <==> Marked(s, x, m) {
    }
    forall x ensures InCache(s', x) <==> InCache(s, x) {
    }
  }

  // ----- roots listed -----

  /** s' is s with e listed and other chains. */
  ghost predicate Lists(s: State, s': State, e: Event) {
    s' == s.(buckets := s'.buckets, log := s.log + [e]) && |s'.buckets| == BUCKETS
  }

  /** An entry that is kept across e. */
  lemma KeptEntry(s: State, s': State, e: Event, x: int)
    requires Lists(s, s', e) && EntryOk(s, x) && Passable(e)
    ensures EntryOk(s', x)
  {
    forall t | s'.born[x] <= t < |s'.log| ensures Passable(s'.log[t]) {
      if t < |s.log| { assert s'.log[t] == s.log[t]; }
    }
  }

  lemma MarkedMore(s: State, s': State, e: Event, x: int, m: Mark)
    requires |s.born| == |s.nodes| && Lists(s, s', e) && EntryOk(s, x)
    ensures Marked(s', x, m) <==> Marked(s, x, m) || Marks(m, e, KeyOf(s.nodes, s.nodes[x]))
  {
    hide Marks, KeyOf;
    var n, k := |s.log|, KeyOf(s.nodes, s.nodes[x]);
    assert s'.log[n] == e;
    if Marked(s, x, m) && m != Any {
      var t :| s.born[x] <= t < |s.log| && Marks(m, s.log[t], k);
      assert Marks(m, s'.log[t], k);
    }
    if Marked(s', x, m) && m != Any {
      var t :| s.born[x] <= t < |s'.log| && Marks(m, s'.log[t], k);
      assert t < n ==> s'.log[t] == s.log[t];
    }
    if m == Any { AnyMarks(e, k); }
  }

  lemma AnyMarks(e: Event, k: Key)
    ensures Marks(Any, e, k)
  {
  }

  /** What has been found stays as it was. */
  lemma ListedFound(s: State, s': State, e: Event, a: Parts)
    requires Fresh(s) && Shows(s, a) && Lists(s, s', e)
    ensures forall i :: 0 <= i < |s'.found| ==> FoundOk(s', s'.found[i])
    ensures !a.hit ==> forall i :: 0 <= i < |s'.found| ==> Unwritten(s', s'.found[i])
    ensures MemoOk(s') && MemoShown(s', a.memo)
  {
    hide Unwritten, Has;
    forall i | 0 <= i < |s'.found| ensures FoundOk(s', s'.found[i]) && (!a.hit ==> Unwritten(s', s'.found[i])) {
      assert FoundOk(s, s.found[i]);
      if !a.hit { UnwrittenKept(s, s', s.found[i]); }
    }
  }

  /** The chains of s', without the entries to be killed. */
  ghost predicate Spared(s: State, s': State, t: Sym) {
    forall x :: InCache(s', x) <==> InCache(s, x) && 0 <= x < |s.nodes| && !Killed(KeyOf(s.nodes, s.nodes[x]), t)
  }

  lemma {:induction false} KillKeeps(s: State, s': State, t: Sym, a: Parts)
    requires Fresh(s) && Shows(s, a) && Lists(s, s', Assign(Some(t))) && Spared(s, s', t)
    ensures Fresh(s') && Shows(s', KilledFor(a, t))
  {
    hide KeyOf, MemoOk, MemoShown, FoundOk, Unwritten, Killed, Writes, Has, Grounded;
    ListedFound(s, s', Assign(Some(t)), a);
    forall i | 0 <= i < BUCKETS ensures ChainOk(s', s'.buckets[i]) {
      forall x | x in s'.buckets[i] ensures EntryOk(s', x) {
        assert InCache(s', x);
        CachedEntry(s, x);
        KeptEntry(s, s', Assign(Some(t)), x);
      }
    }
    var a' := KilledFor(a, t);
    forall k, m ensures k in Sets(a', m) <==> Has(s', k, m) {
      KilledHas(s, s', t, k, m);
      assert Has(s, k, m) <==> k in Sets(a, m);
      assert Has(s, k, Any) <==> k in a.keys;
      if k in Sets(a, m) { MarkedAny(s, k, m); }
    }
  }

  lemma MarkedAny(s: State, k: Key, m: Mark)
    requires |s.born| == |s.nodes| && Has(s, k, m)
    ensures Has(s, k, Any)
  {
    var x :| InCache(s, x) && Reads(s, x, k) && Marked(s, x, m);
    assert Marked(s, x, Any);
  }

  lemma {:induction false} KilledHas(s: State, s': State, t: Sym, k: Key, m: Mark)
    requires Fresh(s) && Lists(s, s', Assign(Some(t))) && Spared(s, s', t)
    ensures Has(s', k, m) <==>
      !Killed(k, t) && (Has(s, k, m) || (m == Written && Writes(Assign(Some(t)), k) && Has(s, k, Any)))
  {
    hide KeyOf, Fresh, Killed, Writes, Marked;
    FreshBuckets(s);
    var e := Assign(Some(t));
    forall x | InCache(s, x) && Reads(s, x, k)
      ensures 0 <= x < |s.nodes| && (Marked(s', x, m) <==> Marked(s, x, m) || Marks(m, e, k)) && Marked(s, x, Any)
    {
      CachedEntry(s, x);
      MarkedMore(s, s', e, x, m);
      AnyMarked(s, x);
    }
    if Has(s', k, m) {
      var x :| InCache(s', x) && Reads(s', x, k) && Marked(s', x, m);
      assert InCache(s, x) && Reads(s, x, k);
    }
    if !Killed(k, t) && Has(s, k, m) {
      var x :| InCache(s, x) && Reads(s, x, k) && Marked(s, x, m);
      assert InCache(s', x) && Reads(s', x, k);
    }
    if !Killed(k, t) && m == Written && Writes(e, k) && Has(s, k, Any) {
      var x :| InCache(s, x) && Reads(s, x, k) && Marked(s, x, Any);
      assert InCache(s', x) && Reads(s', x, k);
    }
  }

  lemma AnyMarked(s: State, x: int)
    requires |s.born| == |s.nodes| && 0 <= x < |s.nodes|
    ensures Marked(s, x, Any)
  {
  }

  /** A jump is listed and nothing forgotten. */
  lemma {:induction false} SkipKeeps(s: State, a: Parts)
    requires Fresh(s) && Shows(s, a)
    ensures var s' := s.(log := s.log + [Jump]); Fresh(s') && Shows(s', Skipped(a))
  {
    hide KeyOf, MemoOk, MemoShown, FoundOk, Unwritten, Writes, Has, Grounded;
    var s' := s.(log := s.log + [Jump]);
    ListedFound(s, s', Jump, a);
    forall i | 0 <= i < BUCKETS ensures ChainOk(s', s'.buckets[i]) {
      assert ChainOk(s, s.buckets[i]);
      forall x | x in s'.buckets[i] ensures EntryOk(s', x) {
        KeptEntry(s, s', Jump, x);
      }
    }
    var a' := Skipped(a);
    forall k, m ensures k in Sets(a', m) <==> Has(s', k, m) {
      SkippedHas(s, s', k, m);
      assert Has(s, k, m) <==> k in Sets(a, m);
      assert Has(s, k, Any) <==> k in a.keys;
    }
  }

  lemma {:induction false} SkippedHas(s: State, s': State, k: Key, m: Mark)
    requires Fresh(s) && s' == s.(log := s.log + [Jump])
    ensures Has(s', k, m) <==> Has(s, k, if m == Crossed then Any else m)
  {
    hide KeyOf, Fresh, Marked, Writes;
    var m0 := if m == Crossed then Any else m;
    FreshBuckets(s);
    forall x ensures InCache(s', x) <==> InCache(s, x) {
    }
    forall x | InCache(s, x)
      ensures 0 <= x < |s.nodes| && (Marked(s', x, m) <==> Marked(s, x, m0))
    {
      CachedEntry(s, x);
      MarkedMore(s, s', Jump, x, m);
      AnyMarked(s, x);
      NoWrite(KeyOf(s.nodes, s.nodes[x]));
    }
  }

  lemma NoWrite(k: Key)
    ensures !Writes(Jump, k)
  {
  }

  lemma FreshBuckets(s: State)
    requires Fresh(s)
    ensures |s.buckets| == BUCKETS && |s.born| == |s.nodes| && Grounded(s.nodes)
  {
  }

  ghost predicate Empty(s: State) {
    |s.buckets| == BUCKETS && forall i :: 0 <= i < BUCKETS ==> s.buckets[i] == []
  }

  lemma NoEntries(s: State)
    requires |s.born| == |s.nodes| && Empty(s)
    ensures forall k, m :: !Has(s, k, m)
    ensures forall i :: 0 <= i < BUCKETS ==> ChainOk(s, s.buckets[i])
  {
    forall k, m ensures !Has(s, k, m) {
    }
  }

  /** reset */
  lemma {:induction false} ClearKeeps(s: State, s': State, a: Parts)
    requires Fresh(s) && Shows(s, a) && s' == s.(buckets := s'.buckets) && Empty(s')
    ensures Fresh(s') && Shows(s', Cleared(a))
  {
    hide FoundOk, Unwritten, Has, ChainOk;
    NoEntries(s');
    SameMemo(s, s', a.memo);
    forall i | 0 <= i < |s.found| ensures FoundOk(s', s.found[i])
        && (Unwritten(s', s.found[i]) <==> Unwritten(s, s.found[i])) {
      SameFound(s, s', s.found[i]);
    }
  }

  /** A root across which nothing is kept, and reset. */
  lemma {:induction false} BarKeeps(s: State, s': State, e: Event, a: Parts)
    requires Fresh(s) && Shows(s, a) && Lists(s, s', e) && Empty(s')
    ensures Fresh(s') && Shows(s', Barred(a, e))
  {
    hide FoundOk, Unwritten, Has, ChainOk;
    NoEntries(s');
    ListedFound(s, s', e, a);
  }

  // ----- trees that remember their node -----

  /** Tree id remembers node p, if there is one. */
  function Remembered(s: State, id: nat, p: int): State {
    if p < 0 then s else s.(memo := s.memo[id := p])
  }

  function Noted(a: Parts, id: nat, node: Option<Option<Sym>>): Parts {
    match node case None => a case Some(sym) => a.(memo := a.memo[id := sym])
  }

  /** Node p, if any, is an address as told. */
  ghost predicate StandsFor(nodes: seq<Node>, p: int, node: Option<Option<Sym>>) {
    match node case None => p == -1 case Some(sym) => 0 <= p < |nodes| && NameOf(nodes, p) == sym
  }

  lemma {:induction false} NoteKeeps(s: State, id: nat, p: int, a: Parts, node: Option<Option<Sym>>)
    requires Fresh(s) && Shows(s, a) && StandsFor(s.nodes, p, node)
    ensures Fresh(Remembered(s, id, p)) && Shows(Remembered(s, id, p), Noted(a, id, node))
  {
    hide FoundOk, Unwritten, Has, ChainOk;
    var s' := Remembered(s, id, p);
    forall k, m ensures Has(s', k, m) <==> Has(s, k, m) {
      HasSame(s, s', k, m);
    }
    forall f ensures (FoundOk(s', f) <==> FoundOk(s, f)) && (Unwritten(s', f) <==> Unwritten(s, f)) {
      SameFound(s, s', f);
    }
    forall i | 0 <= i < BUCKETS ensures ChainOk(s', s'.buckets[i]) {
      SameChain(s, s', s.buckets[i]);
    }
  }

  lemma SameChain(s: State, s': State, chain: seq<int>)
    requires s'.nodes == s.nodes && s'.born == s.born && s'.log == s.log && ChainOk(s, chain)
    ensures ChainOk(s', chain)
  {
  }
}
