// The case list of a switch statement: lcc/src/stmt.c, caselabel, and what a
// case list means.

module SwitchCases {

  type Lab = int

  predicate Ascending(v: seq<int>) {
    forall i, j :: 0 <= i < j < |v| ==> v[i] <= v[j]
  }

  predicate Increasing(v: seq<int>) {
    forall i, j :: 0 <= i < j < |v| ==> v[i] < v[j]
  }

  /** The label C selects for operand x: the case equal to x, else the default. */
  function Lookup(values: seq<int>, labels: seq<Lab>, deflab: Lab, x: int): Lab
    requires |values| == |labels|
  {
    if values == [] then deflab
    else if values[0] == x then labels[0]
    else Lookup(values[1..], labels[1..], deflab, x)
  }

  lemma {:induction false} LookupHit(values: seq<int>, labels: seq<Lab>, deflab: Lab, i: nat)
    requires |values| == |labels| && i < |values| && Increasing(values)
    ensures Lookup(values, labels, deflab, values[i]) == labels[i]
  {
    if i > 0 {
      assert values[1..][i - 1] == values[i];
      LookupHit(values[1..], labels[1..], deflab, i - 1);
    }
  }

  lemma {:induction false} LookupMiss(values: seq<int>, labels: seq<Lab>, deflab: Lab, x: int)
    requires |values| == |labels| && x !in values
    ensures Lookup(values, labels, deflab, x) == deflab
  {
    if values != [] {
      LookupMiss(values[1..], labels[1..], deflab, x);
    }
  }

  /** A slice agrees with the whole list on every operand no other case mentions. */
  lemma {:induction false} LookupSlice(values: seq<int>, labels: seq<Lab>, deflab: Lab, l: nat, u: nat, x: int)
    requires |values| == |labels| && l <= u <= |values| && Increasing(values)
    requires forall i :: 0 <= i < |values| && !(l <= i < u) ==> values[i] != x
    ensures Lookup(values[l..u], labels[l..u], deflab, x) == Lookup(values, labels, deflab, x)
  {
    if x in values {
      var i :| 0 <= i < |values| && values[i] == x;
      assert values[l..u][i - l] == x;
      LookupHit(values, labels, deflab, i);
      LookupHit(values[l..u], labels[l..u], deflab, i - l);
    } else {
      LookupMiss(values, labels, deflab, x);
      LookupMiss(values[l..u], labels[l..u], deflab, x);
    }
  }

  /** Where caselabel stops shifting: the number of values below val. */
  function Rank(values: seq<int>, val: int): (k: nat)
    ensures k <= |values|
  {
    if values == [] || values[|values| - 1] < val then |values|
    else Rank(values[..|values| - 1], val)
  }

  lemma {:induction false} RankSplits(values: seq<int>, val: int)
    requires Ascending(values)
    ensures forall i :: 0 <= i < |values| ==> (values[i] < val <==> i < Rank(values, val))
  {
    if values != [] && values[|values| - 1] >= val {
      var front := values[..|values| - 1];
      RankSplits(front, val);
      forall i | 0 <= i < |values| ensures values[i] < val <==> i < Rank(values, val) {
        if i < |front| { assert front[i] == values[i]; }
      }
    }
  }

  function InsertAt<T>(s: seq<T>, k: nat, x: T): seq<T>
    requires k <= |s|
  {
    seq(|s| + 1, i requires 0 <= i <= |s| => if i < k then s[i] else if i == k then x else s[i - 1])
  }

  lemma InsertedBy<T>(t: seq<T>, s: seq<T>, k: nat, x: T)
    requires k <= |s| && |t| == |s| + 1 && t[k] == x
    requires forall i :: 0 <= i < k ==> t[i] == s[i]
    requires forall i :: k < i < |t| ==> t[i] == s[i - 1]
    ensures t == InsertAt(s, k, x)
  {
  }

  /** Adding a case changes the meaning of exactly its own value. */
  lemma {:induction false} InsertMeaning(values: seq<int>, labels: seq<Lab>, deflab: Lab, val: int, lab: Lab, x: int)
    requires |values| == |labels| && Increasing(values) && val !in values
    ensures
      var k := Rank(values, val);
      var vs := InsertAt(values, k, val);
      var ls := InsertAt(labels, k, lab);
      && Increasing(vs)
      && Lookup(vs, ls, deflab, x) == if x == val then lab else Lookup(values, labels, deflab, x)
  {
    RankSplits(values, val);
    InsertSorted(values, val);
    var k := Rank(values, val);
    var vs := InsertAt(values, k, val);
    var ls := InsertAt(labels, k, lab);
    if x == val {
      LookupHit(vs, ls, deflab, k);
    } else if x in values {
      var i :| 0 <= i < |values| && values[i] == x;
      var i' := if i < k then i else i + 1;
      LookupHit(values, labels, deflab, i);
      LookupHit(vs, ls, deflab, i');
    } else {
      LookupMiss(values, labels, deflab, x);
      assert x !in vs;
      LookupMiss(vs, ls, deflab, x);
    }
  }

  lemma {:induction false} DuplicateAtRank(values: seq<int>, val: int)
    requires Ascending(values)
    ensures val in values <==> Rank(values, val) < |values| && values[Rank(values, val)] == val
  {
    RankSplits(values, val);
    if val in values {
      var i :| 0 <= i < |values| && values[i] == val;
      assert values[Rank(values, val)] <= values[i];
    }
  }

  lemma {:induction false} InsertSorted(values: seq<int>, val: int)
    requires Ascending(values)
    ensures Ascending(InsertAt(values, Rank(values, val), val))
    ensures Increasing(values) && val !in values ==> Increasing(InsertAt(values, Rank(values, val), val))
  {
    RankSplits(values, val);
  }

  /**
   * struct swtch: the growing parallel arrays of case values and labels.
   * The ghost fields are their used parts.
   */
  class Swtch {
    ghost var Values: seq<int>
    ghost var Labels: seq<Lab>
    var ncases: nat
    var size: nat
    var values: array<int>
    var labels: array<Lab>
    var deflab: Lab
    var errors: nat

    ghost predicate Valid()
      reads this, values, labels
    {
      && values as object != labels
      && 0 < size == values.Length == labels.Length
      && ncases == |Values| == |Labels| <= size
      && values[..ncases] == Values
      && labels[..ncases] == Labels
      && Ascending(Values)
      && (errors == 0 ==> Increasing(Values))
    }

    constructor (deflab: Lab)
      ensures Valid() && fresh(values) && fresh(labels)
      ensures Values == [] && Labels == [] && errors == 0 && this.deflab == deflab
    {
      Values, Labels := [], [];
      ncases, size, errors := 0, 512, 0;
      this.deflab := deflab;
      values := new int[512];
      labels := new Lab[512];
    }

    method Grow()
      requires Valid()
      modifies this
      ensures Valid() && fresh(values) && fresh(labels) && ncases < size
      ensures Values == old(Values) && Labels == old(Labels)
      ensures errors == old(errors) && deflab == old(deflab)
    {
      var vals, labs := values, labels;
      size := size * 2;
      values := new int[size];
      labels := new Lab[size];
      var k := 0;
      while k < ncases
        invariant 0 <= k <= ncases <= vals.Length && ncases <= labs.Length
        invariant vals[..ncases] == Values && labs[..ncases] == Labels
        invariant forall i :: 0 <= i < k ==> values[i] == Values[i]
        invariant forall i :: 0 <= i < k ==> labels[i] == Labels[i]
        modifies values, labels
      {
        values[k] := vals[k];
        labels[k] := labs[k];
        k := k + 1;
      }
    }

    /** The shifting loop: opens a gap at the rank of val in both arrays. */
    method Shift(val: int) returns (k: nat)
      requires Valid() && ncases < size
      modifies values, labels
      ensures k == Rank(Values, val)
      ensures forall i :: 0 <= i < ncases && i <= k ==> values[i] == Values[i]
      ensures forall i :: 0 <= i < ncases && i <= k ==> labels[i] == Labels[i]
      ensures forall i :: k < i <= ncases ==> values[i] == Values[i - 1]
      ensures forall i :: k < i <= ncases ==> labels[i] == Labels[i - 1]
    {
      k := ncases;
      RankSplits(Values, val);
      assert forall i :: 0 <= i < ncases ==> values[i] == values[..ncases][i];
      assert forall i :: 0 <= i < ncases ==> labels[i] == labels[..ncases][i];
      while k > 0 && values[k - 1] >= val
        invariant Rank(Values, val) <= k <= ncases
        invariant forall i :: 0 <= i < ncases && i <= k ==> values[i] == Values[i]
        invariant forall i :: 0 <= i < ncases && i <= k ==> labels[i] == Labels[i]
        invariant forall i :: k < i <= ncases ==> values[i] == Values[i - 1]
        invariant forall i :: k < i <= ncases ==> labels[i] == Labels[i - 1]
      {
        values[k] := values[k - 1];
        labels[k] := labels[k - 1];
        k := k - 1;
      }
    }

    method CaseLabel(val: int, lab: Lab)
      requires Valid()
      modifies this, values, labels
      ensures Valid() && deflab == old(deflab)
      ensures values == old(values) || fresh(values)
      ensures labels == old(labels) || fresh(labels)
      ensures Values == InsertAt(old(Values), Rank(old(Values), val), val)
      ensures Labels == InsertAt(old(Labels), Rank(old(Values), val), lab)
      ensures errors == old(errors) + if val in old(Values) then 1 else 0
    {
      if ncases >= size {
        Grow();
      }
      Insert(val, lab);
    }

    /** Stores the case in the gap; duplicate says whether a case label is reported as repeated. */
    method Place(val: int, lab: Lab) returns (duplicate: bool)
      requires Valid() && ncases < size
      modifies values, labels
      ensures values[..ncases + 1] == InsertAt(Values, Rank(Values, val), val)
      ensures labels[..ncases + 1] == InsertAt(Labels, Rank(Values, val), lab)
      ensures duplicate <==> val in Values
    {
      var k := Shift(val);
      DuplicateAtRank(Values, val);
      duplicate := k < ncases && values[k] == val;
      values[k] := val;
      labels[k] := lab;
      InsertedBy(values[..ncases + 1], Values, k, val);
      InsertedBy(labels[..ncases + 1], Labels, k, lab);
    }

    method Insert(val: int, lab: Lab)
      requires Valid() && ncases < size
      modifies this, values, labels
      ensures Valid() && deflab == old(deflab) && values == old(values) && labels == old(labels)
      ensures Values == InsertAt(old(Values), Rank(old(Values), val), val)
      ensures Labels == InsertAt(old(Labels), Rank(old(Values), val), lab)
      ensures errors == old(errors) + if val in old(Values) then 1 else 0
    {
      InsertSorted(Values, val);
      var duplicate := Place(val, lab);
      if duplicate {
        errors := errors + 1;
      }
      Values, Labels := InsertAt(Values, Rank(Values, val), val), InsertAt(Labels, Rank(Values, val), lab);
      ncases := ncases + 1;
    }
  }
}
