// Label forwarding in lcc: equatelab and equal (lcc/src/stmt.c), equated
// (lcc/src/dag.c).

module Labels {

  /** equatedto of every label that has been forwarded. */
  type Links = map<int, int>

  /** Some rank falls along every link, so that every chain ends. */
  ghost predicate Ranked(links: Links, rank: int -> nat) {
    forall l :: l in links ==> rank(links[l]) < rank(l)
  }

  ghost predicate Acyclic(links: Links) {
    exists rank: int -> nat :: Ranked(links, rank)
  }

  /** The label n links on from l, or the end of the chain. */
  function Follow(links: Links, l: int, n: nat): int
    decreases n
  {
    if n == 0 || l !in links then l else Follow(links, links[l], n - 1)
  }

  ghost predicate OnChain(links: Links, x: int, l: int) {
    exists n: nat :: Follow(links, l, n) == x
  }

  /** final gives the last label of every chain. */
  ghost predicate Resolves(links: Links, final: int -> int) {
    forall l :: final(l) == if l in links then final(links[l]) else l
  }

  lemma OnChainNext(links: Links, x: int, l: int)
    ensures OnChain(links, l, l)
    ensures l in links ==> (OnChain(links, x, l) <==> x == l || OnChain(links, x, links[l]))
    ensures l !in links ==> (OnChain(links, x, l) <==> x == l)
  {
    assert Follow(links, l, 0) == l;
    if l in links && OnChain(links, x, l) && x != l {
      var n: nat :| Follow(links, l, n) == x;
      assert Follow(links, links[l], n - 1) == x;
    }
    if l in links && OnChain(links, x, links[l]) {
      var n: nat :| Follow(links, links[l], n) == x;
      assert Follow(links, l, n + 1) == x;
    }
  }

  /** Forwarding a label to one whose chain does not come back to it keeps the chains acyclic. */
  lemma LinkKeepsAcyclic(links: Links, old': int, new': int)
    requires Acyclic(links) && old' !in links && !OnChain(links, old', new')
    ensures Acyclic(links[old' := new'])
  {
    var rank: int -> nat :| Ranked(links, rank);
    var high := rank(new') + 1;
    var rank' := (x: int) => if OnChain(links, old', x) then rank(x) + high else rank(x);
    var links' := links[old' := new'];
    forall l | l in links' ensures rank'(links'[l]) < rank'(l) {
      OnChainNext(links, old', l);
    }
    assert Ranked(links', rank');
  }

  /** A label forwarded to itself, or back to itself over others, would never resolve. */
  lemma {:induction false} CycleUnranked(links: Links, l: int)
    requires l in links && OnChain(links, l, links[l])
    ensures !Acyclic(links)
  {
    if Acyclic(links) {
      var rank: int -> nat :| Ranked(links, rank);
      var n: nat :| Follow(links, links[l], n) == l;
      RankFalls(links, rank, links[l], n);
    }
  }

  lemma {:induction false} RankFalls(links: Links, rank: int -> nat, l: int, n: nat)
    requires Ranked(links, rank)
    ensures rank(Follow(links, l, n)) <= rank(l)
    decreases n
  {
    if n > 0 && l in links { RankFalls(links, rank, links[l], n - 1); }
  }

  lemma {:induction false} ResolvedIsLast(links: Links, final: int -> int, l: int, n: nat)
    requires Resolves(links, final) && Follow(links, l, n) !in links
    ensures final(l) == Follow(links, l, n)
    decreases n
  {
    if n > 0 && l in links { ResolvedIsLast(links, final, links[l], n - 1); }
  }

  ghost function Last(links: Links, rank: int -> nat, l: int): int
    requires Ranked(links, rank)
    decreases rank(l)
  {
    if l in links then Last(links, rank, links[l]) else l
  }

  /** Acyclic links resolve every label. */
  lemma AcyclicResolves(links: Links) returns (final: int -> int)
    requires Acyclic(links)
    ensures Resolves(links, final)
  {
    var rank: int -> nat :| Ranked(links, rank);
    final := (l: int) => if Ranked(links, rank) then Last(links, rank, l) else l;
  }

  class LabelTable {
    var equatedto: Links

    method EquateLab(old': int, new': int)
      requires Acyclic(equatedto) && old' !in equatedto && !OnChain(equatedto, old', new')
      modifies this
      ensures equatedto == old(equatedto)[old' := new'] && Acyclic(equatedto)
    {
      LinkKeepsAcyclic(equatedto, old', new');
      equatedto := equatedto[old' := new'];
    }

    /** equal: whether lprime is on the chain of dst. */
    method Equal(lprime: int, dst: int) returns (found: bool)
      requires Acyclic(equatedto)
      ensures found <==> OnChain(equatedto, lprime, dst)
    {
      ghost var rank: int -> nat :| Ranked(equatedto, rank);
      var l := dst;
      while true
        invariant OnChain(equatedto, lprime, dst) <==> OnChain(equatedto, lprime, l)
        decreases rank(l)
      {
        OnChainNext(equatedto, lprime, l);
        if lprime == l {
          return true;
        }
        if l !in equatedto {
          return false;
        }
        l := equatedto[l];
      }
    }

    /** equated: the last label of the chain. */
    method Equated(p: int) returns (q: int)
      requires Acyclic(equatedto)
      ensures q !in equatedto && OnChain(equatedto, q, p)
      ensures forall final :: Resolves(equatedto, final) ==> q == final(p)
    {
      ghost var rank: int -> nat :| Ranked(equatedto, rank);
      q := p;
      OnChainNext(equatedto, p, p);
      while q in equatedto
        invariant forall x :: OnChain(equatedto, x, q) ==> OnChain(equatedto, x, p)
        invariant forall final :: Resolves(equatedto, final) ==> final(q) == final(p)
        decreases rank(q)
      {
        forall x | OnChain(equatedto, x, equatedto[q]) ensures OnChain(equatedto, x, p) {
          OnChainNext(equatedto, x, q);
        }
        q := equatedto[q];
      }
      OnChainNext(equatedto, q, q);
    }
  }
}
