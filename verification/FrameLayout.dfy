// How lcc counts the space a function needs for locals and outgoing arguments:
// b_function, b_local, gen01 and gen02 (lcc/src/bytecode.c), blockbeg and blockend
// (lcc/src/gen.c), over the code list that gencode walks (lcc/src/dag.c).

module FrameLayout {
  import opened Words

  // ----- the code of a function -----

  /** A dag node: an argument of some size, a call, or anything else. */
  datatype Kind = Arg(size: nat) | Call | Plain

  datatype Node = NoNode | Node(kind: Kind, left: Node, right: Node)

  /** The forests, locals and blocks of a function in order. */
  datatype Code =
    | Done
    | Gen(node: Node, rest: Code)
    | Local(size: nat, align: nat, rest: Code)
    | Block(body: Code, rest: Code)

  /** Alignments are at least 1. */
  predicate CodeOk(code: Code) {
    match code
    case Done => true
    case Gen(_, rest) => CodeOk(rest)
    case Local(_, align, rest) => align > 0 && CodeOk(rest)
    case Block(body, rest) => CodeOk(body) && CodeOk(rest)
  }

  // ----- arguments -----

  /** Arguments and calls in the order in which gen01 meets them and dumptree prints them. */
  function NodeEvents(p: Node): seq<Kind> {
    if p.NoNode? then []
    else NodeEvents(p.left) + NodeEvents(p.right) + (if p.kind.Plain? then [] else [p.kind])
  }

  function Events(code: Code): seq<Kind> {
    match code
    case Done => []
    case Gen(node, rest) => NodeEvents(node) + Events(rest)
    case Local(_, _, rest) => Events(rest)
    case Block(body, rest) => Events(body) + Events(rest)
  }

  /** argoffset and maxargoffset. */
  datatype Args = Args(offset: nat, most: nat)

  function Max(x: nat, y: nat): nat { if x > y then x else y }

  function Count(a: Args, k: Kind): Args {
    match k
    case Arg(size) => a.(offset := a.offset + Max(size, 4))
    case Call => Args(0, Max(a.offset, a.most))
    case Plain => a
  }

  function CountAll(a: Args, events: seq<Kind>): Args
    decreases |events|
  {
    if events == [] then a
    else Count(CountAll(a, events[..|events| - 1]), events[|events| - 1])
  }

  lemma {:induction false} CountBoth(a: Args, e: seq<Kind>, f: seq<Kind>)
    ensures CountAll(a, e + f) == CountAll(CountAll(a, e), f)
    decreases |f|
  {
    if f == [] {
      assert e + f == e;
    } else {
      assert (e + f)[..|e + f| - 1] == e + f[..|f| - 1];
      CountBoth(a, e, f[..|f| - 1]);
    }
  }

  /** The arguments since the last call before event i take this much, each a word at least. */
  function Since(events: seq<Kind>, i: nat): nat
    requires i <= |events|
  {
    if i == 0 || events[i - 1].Call? then 0
    else Since(events, i - 1) + match events[i - 1] case Arg(size) => Max(size, 4) case _ => 0
  }

  lemma {:induction false} SincePrefix(events: seq<Kind>, n: nat, i: nat)
    requires i <= n <= |events|
    ensures Since(events[..n], i) == Since(events, i)
    decreases i
  {
    if i > 0 { SincePrefix(events, n, i - 1); }
  }

  /** What the arguments of event i take if it is a call. */
  function Taken(events: seq<Kind>, i: nat): nat
    requires i < |events|
  {
    if events[i].Call? then Since(events, i) else 0
  }

  /** The greatest of what the arguments of a call take, 0 if there is no call. */
  ghost predicate GreatestCall(events: seq<Kind>, most: nat) {
    && (forall i :: 0 <= i < |events| ==> Taken(events, i) <= most)
    && (most == 0 || exists i :: 0 <= i < |events| && Taken(events, i) == most)
  }

  /** The counters are exact: what is pending since the last call, and the greatest of all calls. */
  lemma {:induction false} CountedExactly(events: seq<Kind>)
    ensures CountAll(Args(0, 0), events).offset == Since(events, |events|)
    ensures GreatestCall(events, CountAll(Args(0, 0), events).most)
    decreases |events|
  {
    if events != [] {
      var n := |events| - 1;
      CountedExactly(events[..n]);
      SincePrefix(events, n, n);
      forall i | 0 <= i < n ensures Taken(events[..n], i) == Taken(events, i) { SincePrefix(events, n, i); }
      GreatestMore(events, CountAll(Args(0, 0), events[..n]).most);
    }
  }

  lemma GreatestMore(events: seq<Kind>, most: nat)
    requires events != [] && GreatestCall(events[..|events| - 1], most)
    requires forall i :: 0 <= i < |events| - 1 ==> Taken(events[..|events| - 1], i) == Taken(events, i)
    ensures GreatestCall(events, Max(Taken(events, |events| - 1), most))
  {
    hide Taken;
    var n := |events| - 1;
    if most > Taken(events, n) {
      var i :| 0 <= i < n && Taken(events[..n], i) == most;
      assert Taken(events, i) == most;
    }
  }

  // ----- locals -----

  datatype Place = Place(offset: nat, size: nat, align: nat)

  /** Where b_local puts the locals, from an offset on; a block gives its space back. */
  function Places(code: Code, offset: nat): seq<Place>
    requires CodeOk(code)
  {
    match code
    case Done => []
    case Gen(_, rest) => Places(rest, offset)
    case Local(size, align, rest) =>
      var at := RoundUp(offset, align);
      [Place(at, size, align)] + Places(rest, at + size)
    case Block(body, rest) => Places(body, offset) + Places(rest, offset)
  }

  /** offset after the code, and the greatest offset at the end of a block. */
  function EndOffset(code: Code, offset: nat): nat
    requires CodeOk(code)
  {
    match code
    case Done => offset
    case Gen(_, rest) => EndOffset(rest, offset)
    case Local(size, align, rest) => EndOffset(rest, RoundUp(offset, align) + size)
    case Block(_, rest) => EndOffset(rest, offset)
  }

  function Most(code: Code, offset: nat, most: nat): nat
    requires CodeOk(code)
  {
    match code
    case Done => most
    case Gen(_, rest) => Most(rest, offset, most)
    case Local(size, align, rest) => Most(rest, RoundUp(offset, align) + size, most)
    case Block(body, rest) => Most(rest, offset, Max(EndOffset(body, offset), Most(body, offset, most)))
  }

  /** The locals of some code are aligned and lie above what was in use before it: locals in scope never overlap. */
  lemma {:induction false} PlacesAbove(code: Code, offset: nat)
    requires CodeOk(code)
    ensures EndOffset(code, offset) >= offset
    ensures forall k :: 0 <= k < |Places(code, offset)| ==>
      var l := Places(code, offset)[k]; l.offset >= offset && l.align > 0 && l.offset % l.align == 0
  {
    match code
    case Done =>
    case Gen(_, rest) => PlacesAbove(rest, offset);
    case Local(size, align, rest) => PlacesAbove(rest, RoundUp(offset, align) + size);
    case Block(body, rest) => PlacesAbove(body, offset); PlacesAbove(rest, offset);
  }

  /** Most only grows. */
  lemma {:induction false} MostGrows(code: Code, offset: nat, most: nat)
    requires CodeOk(code)
    ensures Most(code, offset, most) >= most
  {
    match code
    case Done =>
    case Gen(_, rest) => MostGrows(rest, offset, most);
    case Local(size, align, rest) => MostGrows(rest, RoundUp(offset, align) + size, most);
    case Block(body, rest) =>
      MostGrows(body, offset, most);
      MostGrows(rest, offset, Max(EndOffset(body, offset), Most(body, offset, most)));
  }

  ghost predicate EndsBelow(places: seq<Place>, most: nat) {
    forall k :: 0 <= k < |places| ==> places[k].offset + places[k].size <= most
  }

  lemma BelowBoth(a: seq<Place>, b: seq<Place>, x: nat, y: nat, most: nat)
    requires EndsBelow(a, x) && EndsBelow(b, y) && x <= most && y <= most
    ensures EndsBelow(a + b, most)
  {
  }

  /** Every local ends below maxoffset, or below the offset at which the code around it ends. */
  lemma {:induction false} PlacesBelow(code: Code, offset: nat, most: nat)
    requires CodeOk(code)
    ensures EndsBelow(Places(code, offset), Max(EndOffset(code, offset), Most(code, offset, most)))
  {
    match code
    case Done =>
    case Gen(_, rest) => PlacesBelow(rest, offset, most);
    case Local(size, align, rest) =>
      PlacesBelow(rest, RoundUp(offset, align) + size, most);
      PlacesAbove(rest, RoundUp(offset, align) + size);
    case Block(body, rest) =>
      PlacesBelow(body, offset, most);
      var most' := Max(EndOffset(body, offset), Most(body, offset, most));
      PlacesBelow(rest, offset, most');
      MostGrows(rest, offset, most');
      BelowBoth(Places(body, offset), Places(rest, offset), most',
                Max(EndOffset(rest, offset), Most(rest, offset, most')),
                Max(EndOffset(code, offset), Most(code, offset, most)));
  }

  function End(p: Place): nat { p.offset + p.size }

  /** Local k is placed while local j is in scope: after it, in its block or one inside. */
  predicate Sees(code: Code, j: nat, k: nat) {
    match code
    case Done => false
    case Gen(_, rest) => Sees(rest, j, k)
    case Local(_, _, rest) => if j == 0 || k == 0 then j == 0 && 0 < k <= Locals(rest) else Sees(rest, j - 1, k - 1)
    case Block(body, rest) =>
      var n := Locals(body);
      if j < n && k < n then Sees(body, j, k) else j >= n && k >= n && Sees(rest, j - n, k - n)
  }

  /** The number of locals. */
  function Locals(code: Code): nat {
    match code
    case Done => 0
    case Gen(_, rest) => Locals(rest)
    case Local(_, _, rest) => 1 + Locals(rest)
    case Block(body, rest) => Locals(body) + Locals(rest)
  }

  /** p is at the first place at or behind end that its alignment allows. */
  predicate Next(p: Place, end: nat) {
    p.align > 0 && p.offset % p.align == 0 && end <= p.offset < end + p.align
  }

  /** Local k lies behind all locals in scope, at the first place behind one of them or behind offset. */
  ghost predicate Snug(code: Code, offset: nat, places: seq<Place>, k: nat)
    requires k < |places|
  {
    && offset <= places[k].offset
    && (forall j :: 0 <= j < |places| && Sees(code, j, k) ==> End(places[j]) <= places[k].offset)
    && (Next(places[k], offset) || exists j :: 0 <= j < |places| && Sees(code, j, k) && Next(places[k], End(places[j])))
  }

  lemma {:induction false} PlacesSnug(code: Code, offset: nat)
    requires CodeOk(code)
    ensures |Places(code, offset)| == Locals(code)
    ensures forall k :: 0 <= k < Locals(code) ==> Snug(code, offset, Places(code, offset), k)
  {
    match code
    case Done =>
    case Gen(_, rest) =>
      PlacesSnug(rest, offset);
      forall k | 0 <= k < Locals(code) ensures Snug(code, offset, Places(code, offset), k) {
        SnugBehindTree(code, offset, Places(rest, offset), k);
      }
    case Local(size, align, rest) =>
      PlacesSnug(rest, RoundUp(offset, align) + size);
      forall k | 0 <= k < Locals(code) ensures Snug(code, offset, Places(code, offset), k) {
        SnugBehindLocal(code, offset, Places(rest, RoundUp(offset, align) + size), k);
      }
    case Block(body, rest) =>
      PlacesSnug(body, offset);
      PlacesSnug(rest, offset);
      forall k | 0 <= k < Locals(code) ensures Snug(code, offset, Places(code, offset), k) {
        SnugInBlock(code, offset, Places(body, offset), Places(rest, offset), k);
      }
  }

  lemma SnugBehindTree(code: Code, offset: nat, places: seq<Place>, k: nat)
    requires code.Gen? && k < |places| && Snug(code.rest, offset, places, k)
    ensures Snug(code, offset, places, k)
  {
    if !Next(places[k], offset) {
      var j :| 0 <= j < |places| && Sees(code.rest, j, k) && Next(places[k], End(places[j]));
      assert Sees(code, j, k);
    }
  }

  lemma SnugBehindLocal(code: Code, offset: nat, more: seq<Place>, k: nat)
    requires code.Local? && code.align > 0 && k <= |more| == Locals(code.rest)
    requires k > 0 ==> Snug(code.rest, RoundUp(offset, code.align) + code.size, more, k - 1)
    ensures
      var first := Place(RoundUp(offset, code.align), code.size, code.align);
      Snug(code, offset, [first] + more, k)
  {
    var first := Place(RoundUp(offset, code.align), code.size, code.align);
    var places := [first] + more;
    if k > 0 {
      assert Sees(code, 0, k) && places[k] == more[k - 1];
      if !Next(more[k - 1], End(first)) {
        var j :| 0 <= j < |more| && Sees(code.rest, j, k - 1) && Next(more[k - 1], End(more[j]));
        assert Sees(code, j + 1, k) && places[j + 1] == more[j];
      }
    }
  }

  lemma SnugInBlock(code: Code, offset: nat, a: seq<Place>, b: seq<Place>, k: nat)
    requires code.Block? && k < |a| + |b| && |a| == Locals(code.body) && |b| == Locals(code.rest)
    requires if k < |a| then Snug(code.body, offset, a, k) else Snug(code.rest, offset, b, k - |a|)
    ensures Snug(code, offset, a + b, k)
  {
    if k < |a| {
      if !Next(a[k], offset) {
        var j :| 0 <= j < |a| && Sees(code.body, j, k) && Next(a[k], End(a[j]));
        assert Sees(code, j, k) && (a + b)[j] == a[j];
      }
    } else if !Next(b[k - |a|], offset) {
      var j :| 0 <= j < |b| && Sees(code.rest, j, k - |a|) && Next(b[k - |a|], End(b[j]));
      assert Sees(code, j + |a|, k) && (a + b)[j + |a|] == b[j];
    }
  }

  /** The offset n is where some local ends, or one of the two given. */
  ghost predicate Reached(places: seq<Place>, n: nat, x: nat, y: nat) {
    n == x || n == y || exists k :: 0 <= k < |places| && End(places[k]) == n
  }

  lemma ReachedMore(a: seq<Place>, b: seq<Place>, n: nat, x: nat, y: nat, x': nat, y': nat)
    requires Reached(b, n, x, y) && Reached(a, x, x', y') && Reached(a, y, x', y')
    ensures Reached(a + b, n, x', y')
  {
    if k :| 0 <= k < |b| && End(b[k]) == n {
      assert End((a + b)[|a| + k]) == n;
    } else if n != x' && n != y' {
      var k :| 0 <= k < |a| && End(a[k]) == n;
      assert End((a + b)[k]) == n;
    }
  }

  lemma {:induction false} MostReached(code: Code, offset: nat, most: nat)
    requires CodeOk(code)
    ensures Reached(Places(code, offset), EndOffset(code, offset), offset, offset)
    ensures Reached(Places(code, offset), Most(code, offset, most), offset, most)
  {
    match code
    case Done =>
    case Gen(_, rest) => MostReached(rest, offset, most);
    case Local(size, align, rest) =>
      var at := RoundUp(offset, align);
      var first := [Place(at, size, align)];
      MostReached(rest, at + size, most);
      assert End(first[0]) == at + size;
      ReachedMore(first, Places(rest, at + size), EndOffset(code, offset), at + size, at + size, offset, offset);
      ReachedMore(first, Places(rest, at + size), Most(code, offset, most), at + size, most, offset, most);
    case Block(body, rest) =>
      var most' := Max(EndOffset(body, offset), Most(body, offset, most));
      MostReached(body, offset, most);
      MostReached(rest, offset, most');
      ReachedMore(Places(body, offset), Places(rest, offset), EndOffset(code, offset), offset, offset, offset, offset);
      ReachedMore(Places(body, offset), Places(rest, offset), Most(code, offset, most), offset, most', offset, most);
  }

  // ----- b_function -----

  /** The code list of a function whose locals all stand in blocks. */
  predicate Blocks(code: Code) {
    match code
    case Done => true
    case Gen(_, rest) => Blocks(rest)
    case Local(_, _, _) => false
    case Block(_, rest) => Blocks(rest)
  }

  lemma {:induction false} BlocksEnd(code: Code, offset: nat)
    requires CodeOk(code) && Blocks(code)
    ensures EndOffset(code, offset) == offset
  {
    match code
    case Done =>
    case Gen(_, rest) => BlocksEnd(rest, offset);
    case Block(_, rest) => BlocksEnd(rest, offset);
  }

  /** What proc prints: maxoffset and maxargoffset. */
  function MaxOffset(code: Code): nat
    requires CodeOk(code)
  {
    Most(code, 0, 0)
  }

  function MaxArgOffset(code: Code): nat {
    CountAll(Args(0, 0), Events(code)).most
  }

  /** The first number of a function's proc line is where the local that reaches farthest ends, 0 without any. */
  lemma {:induction false} LocalsFit(code: Code)
    requires CodeOk(code) && Blocks(code)
    ensures EndsBelow(Places(code, 0), MaxOffset(code))
    ensures Reached(Places(code, 0), MaxOffset(code), 0, 0)
  {
    PlacesBelow(code, 0, 0);
    BlocksEnd(code, 0);
    MostReached(code, 0, 0);
  }

  /** The second number is what the arguments of the call that takes most of them take. */
  lemma {:induction false} ArgsFit(code: Code)
    ensures GreatestCall(Events(code), MaxArgOffset(code))
  {
    CountedExactly(Events(code));
  }

  // ----- parameters -----

  datatype Param = Param(size: nat, align: nat)

  predicate ParamsOk(params: seq<Param>) {
    forall k :: 0 <= k < |params| ==> params[k].align > 0
  }

  /** The offset of the parameter that follows params. */
  function NextParam(params: seq<Param>): nat
    requires ParamsOk(params)
    decreases |params|
  {
    if params == [] then 0
    else
      var last := params[|params| - 1];
      RoundUp(NextParam(params[..|params| - 1]), last.align) + last.size
  }

  /** Parameter k of words is at offset 4 * k, where q3asm puts argument k. */
  lemma {:induction false} WordParams(params: seq<Param>)
    requires forall k :: 0 <= k < |params| ==> params[k] == Param(4, 4)
    ensures ParamsOk(params) && NextParam(params) == 4 * |params|
    decreases |params|
  {
    if params != [] { WordParams(params[..|params| - 1]); }
  }

  /** The offset of parameter k. */
  function ParamAt(params: seq<Param>, k: nat): nat
    requires k < |params| && ParamsOk(params)
  {
    RoundUp(NextParam(params[..k]), params[k].align)
  }

  /** The first parameter is at 0, each other at the first place behind the one before it. */
  lemma {:induction false} ParamsSnug(params: seq<Param>, k: nat)
    requires k < |params| && ParamsOk(params)
    ensures
      var p := Place(ParamAt(params, k), params[k].size, params[k].align);
      Next(p, if k == 0 then 0 else ParamAt(params, k - 1) + params[k - 1].size)
  {
    if k > 0 {
      assert params[..k][..k - 1] == params[..k - 1];
    }
  }

  /** The loop of b_function over the parameters. */
  method PlaceParams(params: seq<Param>) returns (offsets: seq<nat>)
    requires ParamsOk(params)
    ensures |offsets| == |params|
    ensures forall k :: 0 <= k < |params| ==> offsets[k] == ParamAt(params, k)
  {
    var offset := 0;
    offsets := [];
    var i := 0;
    while i < |params|
      invariant 0 <= i <= |params| && |offsets| == i && ParamsOk(params[..i])
      invariant offset == NextParam(params[..i])
      invariant forall k :: 0 <= k < i ==> offsets[k] == ParamAt(params, k)
    {
      offset := RoundUp(offset, params[i].align);
      offsets := offsets + [offset];
      offset := offset + params[i].size;
      assert params[..i + 1][..i] == params[..i];
      i := i + 1;
    }
  }

  /** The counters of bytecode.c. */
  class Counters {
    var offset: nat
    var maxoffset: nat
    var argoffset: nat
    var maxargoffset: nat

    ghost function View(): Args
      reads this
    {
      Args(argoffset, maxargoffset)
    }

    method Gen02(k: Kind)
      modifies this`argoffset, this`maxargoffset
      ensures View() == Count(old(View()), k)
    {
      if k.Arg? {
        argoffset := argoffset + (if k.size < 4 then 4 else k.size);
      } else if k.Call? {
        maxargoffset := if argoffset > maxargoffset then argoffset else maxargoffset;
        argoffset := 0;
      }
    }

    method Gen01(p: Node)
      modifies this`argoffset, this`maxargoffset
      ensures View() == CountAll(old(View()), NodeEvents(p))
      decreases p
    {
      if p.Node? {
        ghost var a, l, r := View(), NodeEvents(p.left), NodeEvents(p.right);
        Gen01(p.left);
        Gen01(p.right);
        CountBoth(a, l, r);
        ghost var last := if p.kind.Plain? then [] else [p.kind];
        CountBoth(a, l + r, last);
        Gen02(p.kind);
      }
    }

    method PlaceLocal(size: nat, align: nat) returns (at: nat)
      requires align > 0
      modifies this`offset
      ensures at == RoundUp(old(offset), align) && offset == at + size
    {
      at := RoundUp(offset, align);
      offset := at + size;
    }

    /** gencode: what becomes of the counters, and where the locals go. */
    method GenCode(code: Code) returns (places: seq<Place>)
      requires CodeOk(code)
      modifies this
      ensures View() == CountAll(old(View()), Events(code))
      ensures offset == EndOffset(code, old(offset)) && maxoffset == Most(code, old(offset), old(maxoffset))
      ensures places == Places(code, old(offset))
      decreases code
    {
      ghost var a := View();
      match code
      case Done =>
        places := [];
      case Gen(node, rest) =>
        Gen01(node);
        places := GenCode(rest);
        CountBoth(a, NodeEvents(node), Events(rest));
      case Local(size, align, rest) =>
        var at := PlaceLocal(size, align);
        places := GenCode(rest);
        places := [Place(at, size, align)] + places;
      case Block(body, rest) =>
        var saved := offset;
        places := GenCode(body);
        if offset > maxoffset {
          maxoffset := offset;
        }
        offset := saved;
        var more := GenCode(rest);
        places := places + more;
        CountBoth(a, Events(body), Events(rest));
    }

    /** b_function, up to the proc line. */
    method Function(code: Code) returns (places: seq<Place>, locals: nat, args: nat)
      requires CodeOk(code)
      modifies this
      ensures locals == MaxOffset(code) && args == MaxArgOffset(code) && places == Places(code, 0)
    {
      maxargoffset, maxoffset, argoffset, offset := 0, 0, 0, 0;
      places := GenCode(code);
      locals, args := maxoffset, maxargoffset;
    }
  }
}
