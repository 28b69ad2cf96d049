// The Bentley-McIlroy qsort: example/bg_lib.c. Pointers are indices into the
// array of elements.

module Qsort {

  ghost predicate Le<T>(cmp: (T, T) -> int, x: T, y: T) {
    cmp(x, y) <= 0
  }

  ghost predicate Ge<T>(cmp: (T, T) -> int, x: T, y: T) {
    cmp(x, y) >= 0
  }

  /** The comparators that qsort is defined for: consistent signs, transitive. */
  ghost predicate Preorder<T(!new)>(cmp: (T, T) -> int) {
    && (forall x, y :: Le(cmp, x, y) <==> Ge(cmp, y, x))
    && (forall x, y, z :: Le(cmp, x, y) && Le(cmp, y, z) ==> Le(cmp, x, z))
  }

  /** The two sides of a comparison, and its composition with another. */
  lemma Compare<T(!new)>(cmp: (T, T) -> int, x: T, y: T, z: T)
    requires Preorder(cmp)
    ensures (cmp(x, y) <= 0 <==> cmp(y, x) >= 0) && (cmp(x, y) >= 0 <==> cmp(y, x) <= 0)
    ensures cmp(x, y) <= 0 && cmp(y, z) <= 0 ==> cmp(x, z) <= 0
    ensures cmp(x, x) == 0
  {
    assert Le(cmp, x, y) <==> Ge(cmp, y, x);
    assert Le(cmp, y, x) <==> Ge(cmp, x, y);
    assert Le(cmp, x, x) <==> Ge(cmp, x, x);
    assert Le(cmp, x, y) && Le(cmp, y, z) ==> Le(cmp, x, z);
  }

  ghost predicate Sorted<T>(s: seq<T>, cmp: (T, T) -> int) {
    forall i, j :: 0 <= i < j < |s| ==> cmp(s[i], s[j]) <= 0
  }

  /** Exchanges of pairs of elements, in order. */
  function Exchange<T>(s: seq<T>, w: seq<(int, int)>, lo: int, hi: int): (t: seq<T>)
    ensures |t| == |s|
    decreases |w|
  {
    if w == [] then s else Exchange(ExchangeOne(s, w[0], lo, hi), w[1..], lo, hi)
  }

  function ExchangeOne<T>(s: seq<T>, p: (int, int), lo: int, hi: int): (t: seq<T>)
    ensures |t| == |s|
  {
    var (i, j) := p;
    if 0 <= lo <= i < hi <= |s| && lo <= j < hi then s[i := s[j]][j := s[i]] else s
  }

  /** t is s with the elements lo..hi-1 rearranged by exchanges. */
  ghost predicate Shuffled<T>(s: seq<T>, t: seq<T>, lo: int, hi: int) {
    exists w :: t == Exchange(s, w, lo, hi)
  }

  lemma {:induction false} ExchangeTwice<T>(s: seq<T>, w: seq<(int, int)>, v: seq<(int, int)>, lo: int, hi: int)
    ensures Exchange(Exchange(s, w, lo, hi), v, lo, hi) == Exchange(s, w + v, lo, hi)
    decreases |w|
  {
    if w == [] {
      assert w + v == v;
    } else {
      assert (w + v)[0] == w[0] && (w + v)[1..] == w[1..] + v;
      ExchangeTwice(ExchangeOne(s, w[0], lo, hi), w[1..], v, lo, hi);
    }
  }

  lemma ShuffledTwice<T>(s: seq<T>, t: seq<T>, u: seq<T>, lo: int, hi: int)
    requires Shuffled(s, t, lo, hi) && Shuffled(t, u, lo, hi)
    ensures Shuffled(s, u, lo, hi)
  {
    var w :| t == Exchange(s, w, lo, hi);
    var v :| u == Exchange(t, v, lo, hi);
    ExchangeTwice(s, w, v, lo, hi);
  }

  lemma Unshuffled<T>(s: seq<T>, lo: int, hi: int)
    ensures Shuffled(s, s, lo, hi)
  {
    assert s == Exchange(s, [], lo, hi);
  }

  lemma {:induction false} ExchangeMeans<T>(s: seq<T>, w: seq<(int, int)>, lo: int, hi: int)
    requires 0 <= lo <= hi <= |s|
    ensures
      var t := Exchange(s, w, lo, hi);
      && t[..lo] == s[..lo] && t[hi..] == s[hi..]
      && multiset(t[lo..hi]) == multiset(s[lo..hi])
    decreases |w|
  {
    if w != [] {
      var (i, j) := w[0];
      var u := if lo <= i < hi && lo <= j < hi then s[i := s[j]][j := s[i]] else s;
      ExchangeMeans(u, w[1..], lo, hi);
      var r := s[lo..hi];
      if lo <= i < hi && lo <= j < hi {
        assert u[lo..hi] == r[i - lo := r[j - lo]][j - lo := r[i - lo]];
      }
    }
  }

  /** A shuffle is a permutation of the range and leaves the rest alone. */
  lemma ShuffledMeans<T>(s: seq<T>, t: seq<T>, lo: int, hi: int)
    requires Shuffled(s, t, lo, hi) && 0 <= lo <= hi <= |s|
    ensures |t| == |s| && t[..lo] == s[..lo] && t[hi..] == s[hi..]
    ensures multiset(t[lo..hi]) == multiset(s[lo..hi])
  {
    var w :| t == Exchange(s, w, lo, hi);
    ExchangeMeans(s, w, lo, hi);
  }

  lemma {:induction false} ExchangeWider<T>(s: seq<T>, w: seq<(int, int)>, lo: int, hi: int, lo': int, hi': int)
    requires 0 <= lo' <= lo && hi <= hi' <= |s|
    ensures Shuffled(s, Exchange(s, w, lo, hi), lo', hi')
    decreases |w|
  {
    if w == [] {
      Unshuffled(s, lo', hi');
    } else {
      var (i, j) := w[0];
      if lo <= i < hi && lo <= j < hi {
        SwapShuffles(s, i, j, lo', hi');
        var u := s[i := s[j]][j := s[i]];
        ExchangeWider(u, w[1..], lo, hi, lo', hi');
        ShuffledTwice(s, u, Exchange(s, w, lo, hi), lo', hi');
      } else {
        ExchangeWider(s, w[1..], lo, hi, lo', hi');
      }
    }
  }

  lemma ShuffledWider<T>(s: seq<T>, t: seq<T>, lo: int, hi: int, lo': int, hi': int)
    requires Shuffled(s, t, lo, hi) && 0 <= lo' <= lo && hi <= hi' <= |s|
    ensures Shuffled(s, t, lo', hi')
  {
    var w :| t == Exchange(s, w, lo, hi);
    ExchangeWider(s, w, lo, hi, lo', hi');
  }

  lemma SwapShuffles<T>(s: seq<T>, i: int, j: int, lo: int, hi: int)
    requires 0 <= lo <= i < hi <= |s| && lo <= j < hi
    ensures Shuffled(s, s[i := s[j]][j := s[i]], lo, hi)
  {
    assert s[i := s[j]][j := s[i]] == Exchange(s, [(i, j)], lo, hi);
  }

  /** What holds of every element of the range before holds of every element after. */
  lemma ShuffledKeeps<T>(s: seq<T>, t: seq<T>, lo: int, hi: int, p: T -> bool)
    requires Shuffled(s, t, lo, hi) && 0 <= lo <= hi <= |s| == |t|
    requires forall i :: lo <= i < hi ==> p(s[i])
    ensures forall i :: lo <= i < hi ==> p(t[i])
  {
    ShuffledMeans(s, t, lo, hi);
    forall i | lo <= i < hi ensures p(t[i]) {
      assert t[lo..hi][i - lo] in multiset(t[lo..hi]);
      assert t[i] in s[lo..hi];
      var j :| 0 <= j < hi - lo && s[lo..hi][j] == t[i];
      assert p(s[lo + j]);
    }
  }

  /** swap: a stays a shuffle of what it was, s. */
  method Swap<T>(a: array<T>, i: nat, j: nat, ghost s: seq<T>, ghost lo: int, ghost hi: int)
    requires 0 <= lo <= i < hi <= a.Length && lo <= j < hi
    requires Shuffled(s, a[..], lo, hi)
    modifies a
    ensures a[..] == old(a[..])[i := old(a[j])][j := old(a[i])]
    ensures Shuffled(s, a[..], lo, hi)
  {
    SwapShuffles(a[..], i, j, lo, hi);
    a[i], a[j] := a[j], a[i];
    ShuffledTwice(s, old(a[..]), a[..], lo, hi);
  }

  /** vecswap: exchanges the blocks of n elements at i and at j. */
  method VecSwap<T>(a: array<T>, i: nat, j: nat, n: nat, ghost s: seq<T>, ghost lo: int, ghost hi: int)
    requires 0 <= lo <= i && i + n <= j && j + n <= hi <= a.Length
    requires Shuffled(s, a[..], lo, hi)
    modifies a
    ensures Shuffled(s, a[..], lo, hi)
    ensures forall k :: i <= k < i + n ==> a[k] == old(a[k - i + j])
    ensures forall k :: j <= k < j + n ==> a[k] == old(a[k - j + i])
    ensures forall k :: 0 <= k < a.Length && !(i <= k < i + n) && !(j <= k < j + n) ==> a[k] == old(a[k])
  {
    hide Shuffled;
    var m := 0;
    while m < n
      invariant m <= n
      invariant Shuffled(s, a[..], lo, hi)
      invariant forall k :: i <= k < i + m ==> a[k] == old(a[k - i + j])
      invariant forall k :: j <= k < j + m ==> a[k] == old(a[k - j + i])
      invariant forall k :: 0 <= k < a.Length && !(i <= k < i + m) && !(j <= k < j + m) ==> a[k] == old(a[k])
    {
      Swap(a, i + m, j + m, s, lo, hi);
      m := m + 1;
    }
  }

  ghost predicate Between<T>(cmp: (T, T) -> int, x: T, m: T, y: T) {
    (cmp(x, m) <= 0 && cmp(m, y) <= 0) || (cmp(y, m) <= 0 && cmp(m, x) <= 0)
  }

  /** med3: the index of an element that lies between the two others. */
  function Med3<T(!new)>(s: seq<T>, x: int, y: int, z: int, cmp: (T, T) -> int): (m: int)
    requires 0 <= x < |s| && 0 <= y < |s| && 0 <= z < |s| && Preorder(cmp)
    ensures
      || (m == x && Between(cmp, s[y], s[m], s[z]))
      || (m == y && Between(cmp, s[x], s[m], s[z]))
      || (m == z && Between(cmp, s[x], s[m], s[y]))
  {
    Compare(cmp, s[x], s[y], s[z]);
    Compare(cmp, s[y], s[z], s[x]);
    Compare(cmp, s[z], s[x], s[y]);
    if cmp(s[x], s[y]) < 0 then
      if cmp(s[y], s[z]) < 0 then y else if cmp(s[x], s[z]) < 0 then z else x
    else
      if cmp(s[y], s[z]) > 0 then y else if cmp(s[x], s[z]) < 0 then x else z
  }

  // ----- insertion sort -----

  /** s[lo..end] is sorted but for element k, which is no greater than those after it. */
  ghost predicate SortedBut<T>(s: seq<T>, lo: int, end: int, k: int, cmp: (T, T) -> int)
    requires 0 <= lo <= end <= |s|
  {
    && (forall i, j :: lo <= i < j < end && j != k ==> cmp(s[i], s[j]) <= 0)
    && (forall j :: k < j < end && lo <= k ==> cmp(s[k], s[j]) <= 0)
  }

  method InsertionSort<T(!new)>(a: array<T>, lo: nat, n: nat, cmp: (T, T) -> int)
    requires Preorder(cmp) && lo + n <= a.Length
    modifies a
    ensures Shuffled(old(a[..]), a[..], lo, lo + n) && SortedIn(a[..], lo, lo + n, cmp)
  {
    var pm := lo + 1;
    Unshuffled(a[..], lo, lo + n);
    while pm < lo + n
      invariant lo < pm && (pm <= lo + n || n == 0)
      invariant Shuffled(old(a[..]), a[..], lo, lo + n)
      invariant n > 0 ==> SortedBut(a[..], lo, pm, pm, cmp)
    {
      InsertDown(a, lo, n, pm, cmp, old(a[..]));
      pm := pm + 1;
    }
    if n > 0 { assert SortedBut(a[..], lo, lo + n, lo + n, cmp); }
  }

  /** The inner loop: moves element pm down to its place among the sorted ones before it. */
  method InsertDown<T(!new)>(a: array<T>, lo: nat, n: nat, pm: nat, cmp: (T, T) -> int, ghost s: seq<T>)
    requires Preorder(cmp) && lo + n <= a.Length && lo < pm < lo + n
    requires Shuffled(s, a[..], lo, lo + n) && SortedBut(a[..], lo, pm, pm, cmp)
    modifies a
    ensures Shuffled(s, a[..], lo, lo + n) && SortedBut(a[..], lo, pm + 1, pm + 1, cmp)
  {
    hide Shuffled, SortedBut;
    var pl := pm;
    OneMore(a[..], lo, pm, cmp);
    while pl > lo && cmp(a[pl - 1], a[pl]) > 0
      invariant lo <= pl <= pm
      invariant Shuffled(s, a[..], lo, lo + n)
      invariant SortedBut(a[..], lo, pm + 1, pl, cmp)
    {
      ghost var t := a[..];
      Swap(a, pl, pl - 1, s, lo, lo + n);
      SinkStep(t, a[..], lo, pm + 1, pl, cmp);
      pl := pl - 1;
    }
    InPlace(a[..], lo, pm + 1, pl, cmp);
  }

  lemma OneMore<T(!new)>(s: seq<T>, lo: int, pm: int, cmp: (T, T) -> int)
    requires 0 <= lo < pm < |s| && SortedBut(s, lo, pm, pm, cmp)
    ensures SortedBut(s, lo, pm + 1, pm, cmp)
  {
  }

  lemma SinkStep<T(!new)>(s: seq<T>, t: seq<T>, lo: int, end: int, pl: int, cmp: (T, T) -> int)
    requires Preorder(cmp) && 0 <= lo < pl < end <= |s| && SortedBut(s, lo, end, pl, cmp)
    requires cmp(s[pl - 1], s[pl]) > 0 && t == s[pl := s[pl - 1]][pl - 1 := s[pl]]
    ensures SortedBut(t, lo, end, pl - 1, cmp)
  {
    Compare(cmp, s[pl - 1], s[pl], s[pl]);
    forall j | pl < j < end ensures cmp(s[pl - 1], s[j]) <= 0 {
      assert cmp(s[pl - 1], s[j]) <= 0;
    }
  }

  lemma InPlace<T(!new)>(s: seq<T>, lo: int, end: int, pl: int, cmp: (T, T) -> int)
    requires Preorder(cmp) && 0 <= lo <= pl < end <= |s| && SortedBut(s, lo, end, pl, cmp)
    requires pl == lo || cmp(s[pl - 1], s[pl]) <= 0
    ensures SortedBut(s, lo, end, end, cmp)
  {
    forall i | lo <= i < pl ensures cmp(s[i], s[pl]) <= 0 {
      if i < pl - 1 {
        assert cmp(s[i], s[pl - 1]) <= 0;
        Compare(cmp, s[i], s[pl - 1], s[pl]);
      }
    }
  }

  // ----- partition -----

  /**
   * The four pointers around the pivot p: from lo up to pa the keys equal p, to pb they are
   * smaller, past pc to pd greater, and past pd up to hi again equal.
   */
  ghost predicate Zones<T>(s: seq<T>, lo: int, hi: int, p: T, pa: int, pb: int, pc: int, pd: int,
                           cmp: (T, T) -> int)
  {
    && 0 <= lo < pa <= pb <= pc + 1 <= pd + 1 <= hi <= |s|
    && (forall i :: lo <= i < pa ==> cmp(s[i], p) == 0)
    && (forall i :: pa <= i < pb ==> cmp(s[i], p) < 0)
    && (forall i :: pc < i <= pd ==> cmp(s[i], p) > 0)
    && (forall i :: pd < i < hi ==> cmp(s[i], p) == 0)
  }

  lemma ZonesUp<T>(s: seq<T>, lo: int, hi: int, p: T, pa: int, pb: int, pc: int, pd: int, cmp: (T, T) -> int)
    requires Zones(s, lo, hi, p, pa, pb, pc, pd, cmp) && pb <= pc
    ensures cmp(s[pb], p) < 0 ==> Zones(s, lo, hi, p, pa, pb + 1, pc, pd, cmp)
    ensures cmp(s[pb], p) == 0 ==> Zones(s[pa := s[pb]][pb := s[pa]], lo, hi, p, pa + 1, pb + 1, pc, pd, cmp)
  {
  }

  lemma ZonesDown<T>(s: seq<T>, lo: int, hi: int, p: T, pa: int, pb: int, pc: int, pd: int, cmp: (T, T) -> int)
    requires Zones(s, lo, hi, p, pa, pb, pc, pd, cmp) && pb <= pc
    ensures cmp(s[pc], p) > 0 ==> Zones(s, lo, hi, p, pa, pb, pc - 1, pd, cmp)
    ensures cmp(s[pc], p) == 0 ==> Zones(s[pc := s[pd]][pd := s[pc]], lo, hi, p, pa, pb, pc - 1, pd - 1, cmp)
  {
  }

  lemma ZonesSwap<T>(s: seq<T>, lo: int, hi: int, p: T, pa: int, pb: int, pc: int, pd: int, cmp: (T, T) -> int)
    requires Zones(s, lo, hi, p, pa, pb, pc, pd, cmp) && pb < pc && cmp(s[pb], p) > 0 && cmp(s[pc], p) < 0
    ensures Zones(s[pb := s[pc]][pc := s[pb]], lo, hi, p, pa, pb + 1, pc - 1, pd, cmp)
  {
  }

  /** Moves pb up over keys that are not greater than the pivot. */
  method ScanUp<T>(a: array<T>, lo: nat, hi: nat, pa0: nat, pb0: nat, pc: int, pd: int, swapped0: bool,
                   cmp: (T, T) -> int, ghost s: seq<T>)
    returns (pa: nat, pb: nat, swapped: bool)
    requires hi <= a.Length && lo < hi && Zones(a[..], lo, hi, a[lo], pa0, pb0, pc, pd, cmp)
    requires Shuffled(s, a[..], lo, hi)
    modifies a
    ensures a[lo] == old(a[lo]) && Zones(a[..], lo, hi, a[lo], pa, pb, pc, pd, cmp)
    ensures Shuffled(s, a[..], lo, hi)
    ensures pb0 <= pb && (pb <= pc ==> cmp(a[pb], a[lo]) > 0)
  {
    pa, pb, swapped := pa0, pb0, swapped0;
    while pb <= pc && cmp(a[pb], a[lo]) <= 0
      invariant pb0 <= pb && a[lo] == old(a[lo])
      invariant Zones(a[..], lo, hi, a[lo], pa, pb, pc, pd, cmp)
      invariant Shuffled(s, a[..], lo, hi)
    {
      ZonesUp(a[..], lo, hi, a[lo], pa, pb, pc, pd, cmp);
      if cmp(a[pb], a[lo]) == 0 {
        swapped := true;
        Swap(a, pa, pb, s, lo, hi);
        pa := pa + 1;
      }
      pb := pb + 1;
    }
  }

  /** Moves pc down over keys that are not smaller than the pivot. */
  method ScanDown<T>(a: array<T>, lo: nat, hi: nat, pa: nat, pb: nat, pc0: int, pd0: int, swapped0: bool,
                     cmp: (T, T) -> int, ghost s: seq<T>)
    returns (pc: int, pd: int, swapped: bool)
    requires hi <= a.Length && lo < hi && Zones(a[..], lo, hi, a[lo], pa, pb, pc0, pd0, cmp)
    requires Shuffled(s, a[..], lo, hi) && (pb <= pc0 ==> cmp(a[pb], a[lo]) > 0)
    modifies a
    ensures a[lo] == old(a[lo]) && Zones(a[..], lo, hi, a[lo], pa, pb, pc, pd, cmp)
    ensures Shuffled(s, a[..], lo, hi)
    ensures pc <= pc0 && (pb <= pc ==> cmp(a[pb], a[lo]) > 0 && cmp(a[pc], a[lo]) < 0)
  {
    pc, pd, swapped := pc0, pd0, swapped0;
    while pb <= pc && cmp(a[pc], a[lo]) >= 0
      invariant pc <= pc0 && a[lo] == old(a[lo])
      invariant Zones(a[..], lo, hi, a[lo], pa, pb, pc, pd, cmp)
      invariant Shuffled(s, a[..], lo, hi)
      invariant pb <= pc ==> cmp(a[pb], a[lo]) > 0
    {
      ZonesDown(a[..], lo, hi, a[lo], pa, pb, pc, pd, cmp);
      if cmp(a[pc], a[lo]) == 0 {
        swapped := true;
        Swap(a, pc, pd, s, lo, hi);
        pd := pd - 1;
      }
      pc := pc - 1;
    }
  }

  /** The partition loop: stops when the two scans have met. */
  method Scan<T(!new)>(a: array<T>, lo: nat, hi: nat, cmp: (T, T) -> int, ghost s: seq<T>)
    returns (pa: nat, pb: nat, pc: int, pd: int, swapped: bool)
    requires Preorder(cmp) && lo < hi <= a.Length && Shuffled(s, a[..], lo, hi)
    modifies a
    ensures a[lo] == old(a[lo]) && Zones(a[..], lo, hi, a[lo], pa, pb, pc, pd, cmp) && pb == pc + 1
    ensures Shuffled(s, a[..], lo, hi)
  {
    pa, pb, pc, pd, swapped := lo + 1, lo + 1, hi - 1, hi - 1, false;
    Compare(cmp, a[lo], a[lo], a[lo]);
    while true
      invariant a[lo] == old(a[lo]) && Zones(a[..], lo, hi, a[lo], pa, pb, pc, pd, cmp)
      invariant Shuffled(s, a[..], lo, hi)
      decreases pc + 1 - pb
    {
      pa, pb, swapped := ScanUp(a, lo, hi, pa, pb, pc, pd, swapped, cmp, s);
      pc, pd, swapped := ScanDown(a, lo, hi, pa, pb, pc, pd, swapped, cmp, s);
      if pb > pc {
        return;
      }
      ZonesSwap(a[..], lo, hi, a[lo], pa, pb, pc, pd, cmp);
      Swap(a, pb, pc, s, lo, hi);
      swapped := true;
      pb := pb + 1;
      pc := pc - 1;
    }
  }

  /** Smaller keys first, then those equal to p, then greater ones. */
  ghost predicate Parted<T>(s: seq<T>, lo: int, hi: int, p: T, less: int, greater: int, cmp: (T, T) -> int) {
    && 0 <= less && 0 <= greater && 0 <= lo && lo + less + greater < hi <= |s|
    && (forall i :: lo <= i < lo + less ==> cmp(s[i], p) < 0)
    && (forall i :: lo + less <= i < hi - greater ==> cmp(s[i], p) == 0)
    && (forall i :: hi - greater <= i < hi ==> cmp(s[i], p) > 0)
  }

  function Min(x: int, y: int): int {
    if x < y then x else y
  }

  /** The first vector swap: the smaller keys change places with the equal ones before them. */
  method GatherLow<T>(a: array<T>, lo: nat, hi: nat, ghost p: T, pa: nat, pb: nat, pc: int, pd: int,
                      cmp: (T, T) -> int, ghost s: seq<T>)
    requires hi <= a.Length && Zones(a[..], lo, hi, p, pa, pb, pc, pd, cmp)
    requires Shuffled(s, a[..], lo, hi)
    modifies a
    ensures Shuffled(s, a[..], lo, hi)
    ensures forall i :: lo <= i < lo + (pb - pa) ==> cmp(a[i], p) < 0
    ensures forall i :: lo + (pb - pa) <= i < pb ==> cmp(a[i], p) == 0
    ensures forall i :: pb <= i < hi ==> a[i] == old(a[i])
  {
    var r := Min(pa - lo, pb - pa);
    VecSwap(a, lo, pb - r, r, s, lo, hi);
  }

  /** The second: the greater keys change places with the equal ones after them. */
  method GatherHigh<T>(a: array<T>, lo: nat, hi: nat, ghost p: T, pb: nat, pd: int,
                       cmp: (T, T) -> int, ghost s: seq<T>)
    requires lo < pb <= pd + 1 <= hi <= a.Length
    requires forall i :: pb <= i <= pd ==> cmp(a[i], p) > 0
    requires forall i :: pd < i < hi ==> cmp(a[i], p) == 0
    requires Shuffled(s, a[..], lo, hi)
    modifies a
    ensures Shuffled(s, a[..], lo, hi)
    ensures forall i :: pb <= i < hi - (pd + 1 - pb) ==> cmp(a[i], p) == 0
    ensures forall i :: hi - (pd + 1 - pb) <= i < hi ==> cmp(a[i], p) > 0
    ensures forall i :: lo <= i < pb ==> a[i] == old(a[i])
  {
    var r := Min(pd + 1 - pb, hi - pd - 1);
    VecSwap(a, pb, hi - r, r, s, lo, hi);
  }

  /** The two vector swaps that bring the equal keys from both ends to the middle. */
  method Gather<T>(a: array<T>, lo: nat, hi: nat, ghost p: T, pa: nat, pb: nat, pc: int, pd: int,
                   cmp: (T, T) -> int, ghost s: seq<T>)
    requires hi <= a.Length && Zones(a[..], lo, hi, p, pa, pb, pc, pd, cmp) && pb == pc + 1
    requires Shuffled(s, a[..], lo, hi)
    modifies a
    ensures Parted(a[..], lo, hi, p, pb - pa, pd - pc, cmp)
    ensures Shuffled(s, a[..], lo, hi)
  {
    GatherLow(a, lo, hi, p, pa, pb, pc, pd, cmp, s);
    GatherHigh(a, lo, hi, p, pb, pd, cmp, s);
  }

  // ----- the sort -----

  /** The pivot: the middle element, the median of three, or the median of three medians. */
  function Pivot<T(!new)>(s: seq<T>, lo: nat, n: nat, cmp: (T, T) -> int): (m: int)
    requires Preorder(cmp) && 0 < n && lo + n <= |s|
    ensures lo <= m < lo + n
  {
    var pm := lo + n / 2;
    if n <= 7 then pm
    else
      var pl, pn := lo, lo + n - 1;
      if n <= 40 then Med3(s, pl, pm, pn, cmp)
      else
        var d := n / 8;
        Med3(s,
             Med3(s, pl, pl + d, pl + 2 * d, cmp),
             Med3(s, pm - d, pm, pm + d, cmp),
             Med3(s, pn - 2 * d, pn - d, pn, cmp), cmp)
  }

  /** Every key before b is at most every key from b up to hi. */
  ghost predicate Below<T>(s: seq<T>, lo: int, b: int, hi: int, cmp: (T, T) -> int) {
    0 <= lo <= b <= hi <= |s| && forall i, j :: lo <= i < b <= j < hi ==> cmp(s[i], s[j]) <= 0
  }

  ghost predicate SortedIn<T>(s: seq<T>, lo: int, hi: int, cmp: (T, T) -> int) {
    0 <= lo <= hi <= |s| && forall i, j :: lo <= i < j < hi ==> cmp(s[i], s[j]) <= 0
  }

  /** Rearranging the upper part keeps it above the lower part, which does not change. */
  lemma ShuffledAbove<T>(s: seq<T>, t: seq<T>, lo: int, b: int, hi: int, cmp: (T, T) -> int)
    requires Below(s, lo, b, hi, cmp) && Shuffled(s, t, b, hi)
    ensures |t| == |s| && (forall i :: 0 <= i < b ==> t[i] == s[i]) && (forall i :: hi <= i < |s| ==> t[i] == s[i])
    ensures Below(t, lo, b, hi, cmp)
  {
    ShuffledMeans(s, t, b, hi);
    assert forall i :: 0 <= i < b ==> t[i] == t[..b][i] == s[..b][i];
    assert forall i :: hi <= i < |s| ==> t[i] == t[hi..][i - hi] == s[hi..][i - hi];
    forall i, j | lo <= i < b <= j < hi ensures cmp(t[i], t[j]) <= 0 {
      ShuffledKeeps(s, t, b, hi, x => cmp(s[i], x) <= 0);
    }
  }

  /** Sorting the smaller keys of a parted range leaves only the greater ones to sort. */
  lemma PartSorted<T(!new)>(s: seq<T>, t: seq<T>, b: int, hi: int, p: T, less: int, greater: int, cmp: (T, T) -> int)
    requires Preorder(cmp) && Parted(s, b, hi, p, less, greater, cmp)
    requires Shuffled(s, t, b, b + less) && SortedIn(t, b, b + less, cmp)
    ensures SortedIn(t, b, hi - greater, cmp) && Below(t, b, hi - greater, hi, cmp)
  {
    ShuffledKeeps(s, t, b, b + less, x => cmp(x, p) < 0);
    ShuffledMeans(s, t, b, b + less);
    assert forall i :: b + less <= i < hi ==> t[i] == t[b + less..][i - (b + less)] == s[b + less..][i - (b + less)];
    forall i, j | b <= i < j < hi && !(j < b + less) && i < hi - greater ensures cmp(t[i], t[j]) <= 0 {
      Compare(cmp, p, t[j], t[j]);
      Compare(cmp, t[i], p, t[j]);
    }
  }

  /** Sorting the next part, up to c, extends the sorted part that lies below it. */
  lemma Extended<T>(s: seq<T>, t: seq<T>, lo: int, b: int, c: int, hi: int, cmp: (T, T) -> int)
    requires SortedIn(s, lo, b, cmp) && Below(s, lo, b, hi, cmp) && Shuffled(s, t, b, hi)
    requires SortedIn(t, b, c, cmp) && Below(t, b, c, hi, cmp)
    ensures SortedIn(t, lo, c, cmp) && Below(t, lo, c, hi, cmp)
  {
    ShuffledAbove(s, t, lo, b, hi, cmp);
    ShuffledMeans(s, t, b, hi);
  }

  method PivotFirst<T(!new)>(a: array<T>, b: nat, m: nat, cmp: (T, T) -> int)
    requires Preorder(cmp) && 0 < m && b + m <= a.Length
    modifies a
    ensures a[b] == old(a[Pivot(a[..], b, m, cmp)])
    ensures Shuffled(old(a[..]), a[..], b, b + m)
  {
    var pm := Pivot(a[..], b, m, cmp);
    Unshuffled(a[..], b, b + m);
    Swap(a, b, pm, a[..], b, b + m);
  }

  /** One round: chooses a pivot, partitions around it and, if anything moved, gathers the equal keys. */
  method Partition<T(!new)>(a: array<T>, b: nat, m: nat, cmp: (T, T) -> int)
    returns (less: nat, greater: nat, swapped: bool, ghost p: T)
    requires Preorder(cmp) && 0 < m && b + m <= a.Length
    modifies a
    ensures Shuffled(old(a[..]), a[..], b, b + m)
    ensures swapped ==> Parted(a[..], b, b + m, p, less, greater, cmp)
  {
    hide Shuffled, Parted, Pivot;
    ghost var s := a[..];
    PivotFirst(a, b, m, cmp);
    var pa, pb, pc, pd;
    pa, pb, pc, pd, swapped := Scan(a, b, b + m, cmp, s);
    p := a[b];
    less, greater := pb - pa, pd - pc;
    if swapped {
      Gather(a, b, b + m, p, pa, pb, pc, pd, cmp, s);
    }
  }

  /** Sorts the smaller keys of a parted range; hi - greater is where the sorted part then ends. */
  method SortLess<T(!new)>(a: array<T>, b: nat, hi: nat, less: nat, greater: nat, cmp: (T, T) -> int, ghost p: T)
    requires Preorder(cmp) && hi <= a.Length && Parted(a[..], b, hi, p, less, greater, cmp)
    modifies a
    ensures Shuffled(old(a[..]), a[..], b, hi)
    ensures SortedIn(a[..], b, hi - greater, cmp) && Below(a[..], b, hi - greater, hi, cmp)
    decreases less, 2
  {
    ghost var s := a[..];
    if less > 1 {
      QSort(a, b, less, cmp);
    } else {
      Unshuffled(s, b, b + less);
    }
    PartSorted(s, a[..], b, hi, p, less, greater, cmp);
    ShuffledWider(s, a[..], b, b + less, b, hi);
  }

  /** One turn of the loop: sorts the range from b up to the new b', all of it when nothing moved. */
  method Round<T(!new)>(a: array<T>, b: nat, m: nat, cmp: (T, T) -> int) returns (b': nat)
    requires Preorder(cmp) && b + m <= a.Length
    modifies a
    ensures Shuffled(old(a[..]), a[..], b, b + m) && b <= b' <= b + m && (0 < m ==> b < b')
    ensures SortedIn(a[..], b, b', cmp) && Below(a[..], b, b', b + m, cmp)
    decreases m, 0
  {
    b' := b + m;
    if m < 7 {
      InsertionSort(a, b, m, cmp);
      return;
    }
    var less, greater, swapped;
    ghost var p, s := a[b], a[..];
    less, greater, swapped, p := Partition(a, b, m, cmp);
    ghost var t := a[..];
    if swapped {
      SortLess(a, b, b + m, less, greater, cmp, p);
      if greater > 1 {
        b' := b + m - greater;
      } else {
        SortedRest(a[..], b, b + m - greater, b + m, cmp);
      }
    } else {
      InsertionSort(a, b, m, cmp);
    }
    ShuffledTwice(s, t, a[..], b, b + m);
  }

  /** At most one key is left: the range is sorted. */
  lemma SortedRest<T>(s: seq<T>, b: int, c: int, hi: int, cmp: (T, T) -> int)
    requires SortedIn(s, b, c, cmp) && Below(s, b, c, hi, cmp) && hi <= c + 1
    ensures SortedIn(s, b, hi, cmp) && Below(s, b, hi, hi, cmp)
  {
  }

  /** The recursion takes the smaller keys, the loop goes on with the greater ones. */
  method QSort<T(!new)>(a: array<T>, lo: nat, n: nat, cmp: (T, T) -> int)
    requires Preorder(cmp) && lo + n <= a.Length
    modifies a
    ensures Shuffled(old(a[..]), a[..], lo, lo + n)
    ensures SortedIn(a[..], lo, lo + n, cmp)
    decreases n, 1
  {
    ghost var s := a[..];
    var b := lo;
    Unshuffled(s, lo, lo + n);
    while b < lo + n
      invariant lo <= b <= lo + n
      invariant Shuffled(s, a[..], lo, lo + n)
      invariant SortedIn(a[..], lo, b, cmp) && Below(a[..], lo, b, lo + n, cmp)
    {
      ghost var t, c := a[..], b;
      b := Round(a, b, lo + n - b, cmp);
      Extended(t, a[..], lo, c, b, lo + n, cmp);
      ShuffledWider(t, a[..], c, lo + n, lo, lo + n);
      ShuffledTwice(s, t, a[..], lo, lo + n);
    }
  }

  /** qsort on a whole array: a sorted permutation of what was there. */
  method SortArray<T(!new)>(a: array<T>, cmp: (T, T) -> int)
    requires Preorder(cmp)
    modifies a
    ensures Sorted(a[..], cmp)
    ensures multiset(a[..]) == multiset(old(a[..]))
  {
    QSort(a, 0, a.Length, cmp);
    ShuffledMeans(old(a[..]), a[..], 0, a.Length);
    assert a[..] == a[..][0..a.Length] && old(a[..]) == old(a[..])[0..a.Length];
  }
}
