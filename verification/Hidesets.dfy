// Hidesets of the preprocessor (lcc/cpp/hideset.c): sorted null-terminated
// arrays of macros, interned so that equal sets share an index.

module Hidesets {

  const HSSIZ := 32

  /** The most macros a hideset has. */
  const MOST := HSSIZ - 2

  /** A macro is its Nlist, known by its address; 0 is the null pointer. */
  type Macro = int

  /** A null-terminated array: macros in rising order, then 0. */
  predicate Terminated(hs: seq<Macro>) {
    && hs != [] && hs[|hs| - 1] == 0
    && (forall i :: 0 <= i < |hs| - 1 ==> hs[i] > 0)
    && (forall i, j :: 0 <= i < j < |hs| - 1 ==> hs[i] < hs[j])
  }

  function Members(hs: seq<Macro>): set<Macro> {
    set x | x in hs && x != 0
  }

  /** Sorted arrays with the same members are the same. */
  lemma {:induction false} SameArray(a: seq<Macro>, b: seq<Macro>)
    requires Terminated(a) && Terminated(b) && Members(a) == Members(b)
    ensures a == b
    decreases |a|
  {
    if |a| == 1 || |b| == 1 {
      OneIsEmpty(a, b);
      OneIsEmpty(b, a);
    } else {
      FirstIsLeast(a, b);
      FirstIsLeast(b, a);
      TailMembers(a);
      TailMembers(b);
      SameArray(a[1..], b[1..]);
      assert a == [a[0]] + a[1..] && b == [b[0]] + b[1..];
    }
  }

  lemma OneIsEmpty(a: seq<Macro>, b: seq<Macro>)
    requires Terminated(a) && Terminated(b) && Members(a) == Members(b)
    ensures |a| == 1 ==> |b| == 1
  {
    if |b| > 1 { assert b[0] in Members(b); }
  }

  lemma FirstIsLeast(a: seq<Macro>, b: seq<Macro>)
    requires Terminated(a) && Terminated(b) && Members(a) == Members(b) && |a| > 1 && |b| > 1
    ensures a[0] <= b[0]
  {
    assert b[0] in Members(b);
    var i :| 0 <= i < |a| && a[i] == b[0];
  }

  lemma TailMembers(a: seq<Macro>)
    requires Terminated(a) && |a| > 1
    ensures Terminated(a[1..]) && Members(a[1..]) == Members(a) - {a[0]}
  {
  }

  /** A set of macros fills as many places as it has members, and one for the end. */
  lemma {:induction false} LengthIsSize(a: seq<Macro>)
    requires Terminated(a)
    ensures |a| == |Members(a)| + 1
    decreases |a|
  {
    if |a| == 1 {
      assert Members(a) == {};
    } else {
      TailMembers(a);
      LengthIsSize(a[1..]);
      assert a[0] in Members(a);
    }
  }

  /** What inserths copies: the macros below np, np, then those above it and the end. */
  predicate InsertedUpTo(dhs: seq<Macro>, shs: seq<Macro>, np: Macro, k: nat)
  {
    k <= |shs| && |dhs| == k && dhs == shs[..k] && forall i :: 0 <= i < k ==> shs[i] < np && shs[i] != 0
  }

  lemma InsertedTerminated(shs: seq<Macro>, np: Macro, k: nat, dhs: seq<Macro>)
    requires Terminated(shs) && np > 0 && k < |shs| && (forall i :: 0 <= i < k ==> shs[i] < np && shs[i] != 0)
    requires shs[k] == 0 || shs[k] >= np
    requires dhs == shs[..k] + (if shs[k] == np then [] else [np]) + shs[k..]
    ensures Terminated(dhs)
  {
  }

  lemma InsertedMembers(shs: seq<Macro>, np: Macro, k: nat, dhs: seq<Macro>)
    requires np > 0 && k < |shs|
    requires dhs == shs[..k] + (if shs[k] == np then [] else [np]) + shs[k..]
    ensures Members(dhs) == Members(shs) + {np}
  {
  }

  class Table {
    var hidesets: seq<seq<Macro>>

    /** Hideset 0 is empty, no set has more than 30 macros, and none is in the table twice. */
    ghost predicate Valid()
      reads this
    {
      && hidesets != [] && hidesets[0] == [0]
      && (forall i :: 0 <= i < |hidesets| ==> Terminated(hidesets[i]) && |hidesets[i]| < HSSIZ)
      && (forall i, j :: 0 <= i < j < |hidesets| ==> hidesets[i] != hidesets[j])
    }

    ghost function Set(hs: nat): set<Macro>
      reads this
      requires hs < |hidesets|
    {
      Members(hidesets[hs])
    }

    constructor ()
      ensures Valid() && hidesets == [[0]]
    {
      hidesets := [[0]];
    }

    /** Equal sets share one index. */
    lemma Canonical(i: nat, j: nat)
      requires Valid() && i < |hidesets| && j < |hidesets|
      ensures Set(i) == Set(j) <==> i == j
    {
      if Set(i) == Set(j) { SameArray(hidesets[i], hidesets[j]); }
    }

    method CheckHideset(hs: nat, np: Macro) returns (found: bool)
      requires Valid() && hs < |hidesets| && np > 0
      ensures found <==> np in Set(hs)
    {
      var a := hidesets[hs];
      var k := 0;
      while a[k] != 0
        invariant 0 <= k < |a| && forall i :: 0 <= i < k ==> a[i] != np
        decreases |a| - k
      {
        if a[k] == np {
          return true;
        }
        k := k + 1;
      }
      assert k == |a| - 1;
      return false;
    }

    method InsertHs(shs: seq<Macro>, np: Macro) returns (dhs: seq<Macro>)
      requires Terminated(shs) && np > 0
      ensures Terminated(dhs) && Members(dhs) == Members(shs) + {np}
    {
      var k := 0;
      dhs := [];
      while shs[k] != 0 && shs[k] < np
        invariant 0 <= k < |shs| && InsertedUpTo(dhs, shs, np, k)
        decreases |shs| - k
      {
        dhs := dhs + [shs[k]];
        k := k + 1;
      }
      if shs[k] != np {
        dhs := dhs + [np];
      }
      ghost var front := dhs;
      ghost var from := k;
      dhs := dhs + [shs[k]];
      while shs[k] != 0
        invariant from <= k < |shs| && dhs == front + shs[from..k + 1]
        decreases |shs| - k
      {
        k := k + 1;
        dhs := dhs + [shs[k]];
      }
      assert k == |shs| - 1 && shs[from..k + 1] == shs[from..];
      InsertedTerminated(shs, np, from, dhs);
      InsertedMembers(shs, np, from, dhs);
    }

    /** The index of an array of the table, or its length. */
    method Find(nhs: seq<Macro>) returns (i: nat)
      requires Valid() && Terminated(nhs)
      ensures i <= |hidesets| && (i < |hidesets| ==> hidesets[i] == nhs)
      ensures i == |hidesets| ==> nhs !in hidesets
    {
      i := 0;
      while i < |hidesets|
        invariant 0 <= i <= |hidesets| && forall j :: 0 <= j < i ==> hidesets[j] != nhs
      {
        if hidesets[i] == nhs {
          return;
        }
        i := i + 1;
      }
    }

    /**
     * newhideset: the index of the set with np added, old indices meaning what they meant. A
     * new set of more than 30 macros is not made.
     */
    method NewHideset(hs: nat, np: Macro) returns (r: nat)
      requires Valid() && hs < |hidesets| && np > 0
      modifies this
      ensures Valid() && old(hidesets) <= hidesets && r < |hidesets|
      ensures if |old(Set(hs)) + {np}| <= MOST then Set(r) == old(Set(hs)) + {np} else r == hs
      ensures |Set(r)| <= MOST
    {
      var nhs := InsertHs(hidesets[hs], np);
      r := Find(nhs);
      LengthIsSize(nhs);
      if r < |hidesets| {
        assert Set(r) == Set(hs) + {np};
        return;
      }
      LengthIsSize(hidesets[hs]);
      if |nhs| >= HSSIZ {
        return hs;
      }
      hidesets := hidesets + [nhs];
    }

    /** unionhideset: the whole union exactly if it has room, and otherwise as much of it as has. */
    method UnionHideset(hs1: nat, hs2: nat) returns (r: nat)
      requires Valid() && hs1 < |hidesets| && hs2 < |hidesets|
      modifies this
      ensures Valid() && old(hidesets) <= hidesets && r < |hidesets|
      ensures old(Set(hs1)) <= Set(r) <= old(Set(hs1) + Set(hs2))
      ensures Set(r) == old(Set(hs1) + Set(hs2)) <==> |old(Set(hs1) + Set(hs2))| <= MOST
      ensures |old(Set(hs1) + Set(hs2))| > MOST ==> |Set(r)| == MOST
    {
      var a := hidesets[hs2];
      ghost var first := Set(hs1);
      r := hs1;
      LengthIsSize(hidesets[hs1]);
      var k := 0;
      while a[k] != 0
        invariant Valid() && 0 <= k < |a| && r < |hidesets| && old(hidesets) <= hidesets
        invariant Filled(first, Members(a[..k] + [0]), Set(r))
        decreases |a| - k
      {
        MembersNext(a, k);
        ghost var before := Set(r);
        r := NewHideset(r, a[k]);
        FilledNext(first, Members(a[..k] + [0]), before, a[k], Set(r));
        k := k + 1;
      }
      assert k == |a| - 1;
      MembersAll(a);
      FilledUnion(first, Members(a), Set(r));
    }
  }

  /** s is first with the members of more, or with as many of them as it has room for. */
  ghost predicate Filled(first: set<Macro>, more: set<Macro>, s: set<Macro>) {
    && first <= s <= first + more && |s| <= MOST
    && (s == first + more || |s| == MOST)
  }

  lemma FilledNext(first: set<Macro>, more: set<Macro>, s: set<Macro>, np: Macro, s': set<Macro>)
    requires Filled(first, more, s) && s' == if |s + {np}| <= MOST then s + {np} else s
    ensures Filled(first, more + {np}, s')
  {
    if np !in s { assert |s + {np}| == |s| + 1; } else { assert s + {np} == s; }
    SubsetSize(s, s + {np});
  }

  lemma FilledUnion(first: set<Macro>, more: set<Macro>, s: set<Macro>)
    requires Filled(first, more, s)
    ensures s == first + more <==> |first + more| <= MOST
    ensures |first + more| > MOST ==> |s| == MOST
  {
    if s != first + more {
      var rest := first + more - s;
      assert s + rest == first + more && (rest == {} ==> s + rest == s);
      var x := Pick(rest);
      SubsetSize(s + {x}, first + more);
    }
  }

  lemma MembersNext(a: seq<Macro>, k: nat)
    requires Terminated(a) && k < |a| - 1
    ensures Members(a[..k + 1] + [0]) == Members(a[..k] + [0]) + {a[k]}
    ensures Members(a[..k + 1] + [0]) <= Members(a)
  {
  }

  lemma MembersAll(a: seq<Macro>)
    requires Terminated(a)
    ensures Members(a[..|a| - 1] + [0]) == Members(a)
  {
  }

  lemma Pick<T>(s: set<T>) returns (x: T)
    requires s != {}
    ensures x in s
  {
    x :| x in s;
  }

  lemma {:induction false} SubsetSize<T>(a: set<T>, b: set<T>)
    requires a <= b
    ensures |a| <= |b|
    decreases a
  {
    if a != {} {
      var x :| x in a;
      SubsetSize(a - {x}, b - {x});
    }
  }
}
