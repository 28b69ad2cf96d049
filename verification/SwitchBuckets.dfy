// Splitting the cases of a switch into density buckets: lcc/src/stmt.c, the
// loop of swgen and the macro den.

module SwitchBuckets {
  import opened SwitchCases

  /** den: the fraction of the range v[l]..v[u] that is a case. */
  function Density(v: seq<int>, l: int, u: int): real
    requires Increasing(v) && 0 <= l <= u < |v|
  {
    (u - l + 1) as real / (v[u] - v[l] + 1) as real
  }

  predicate Meets(v: seq<int>, density: real, l: int, u: int)
    requires Increasing(v)
  {
    0 <= l <= u < |v| && Density(v, l, u) >= density
  }

  /** Bucket i holds the cases b[i]..b[i+1]-1; together they are 0..n-1. */
  ghost predicate Partition(b: seq<int>, n: nat) {
    |b| >= 1 && b[0] == 0 && b[|b| - 1] == n && Increasing(b)
  }

  /** Every bucket passes the merging test. */
  ghost predicate AllMeet(b: seq<int>, meets: (int, int) -> bool) {
    forall i, j :: 0 <= i < |b| - 1 && j == i + 1 ==> meets(b[i], b[j] - 1)
  }

  /** No two neighbouring buckets could still be merged. */
  ghost predicate Unmergeable(b: seq<int>, meets: (int, int) -> bool) {
    forall i, j :: 0 <= i < |b| - 2 && j == i + 2 ==> !meets(b[i], b[j] - 1)
  }

  /** What holds of the buckets of the first k cases; single says that one case alone passes the test. */
  ghost predicate Merged(b: seq<int>, k: nat, meets: (int, int) -> bool, single: bool) {
    Partition(b, k) && (single ==> AllMeet(b, meets)) && Unmergeable(b, meets)
  }

  /** Drops the start of the last bucket. */
  function MergeLast(b: seq<int>): seq<int>
    requires |b| >= 3
  {
    b[..|b| - 2] + [b[|b| - 1]]
  }

  lemma MergeTwo(b: seq<int>, k: nat, meets: (int, int) -> bool, single: bool)
    requires |b| >= 3 && Partition(b, k) && (single ==> AllMeet(b, meets))
    requires Unmergeable(b[..|b| - 1], meets) && meets(b[|b| - 3], k - 1)
    ensures
      var b' := MergeLast(b);
      Partition(b', k) && (single ==> AllMeet(b', meets)) && Unmergeable(b'[..|b'| - 1], meets)
  {
    var b' := MergeLast(b);
    assert b'[..|b'| - 1] == b[..|b| - 1][..|b| - 2];
  }

  lemma Finish(b: seq<int>, meets: (int, int) -> bool)
    requires |b| >= 2 && Unmergeable(b[..|b| - 1], meets)
    requires |b| == 2 || !meets(b[|b| - 3], b[|b| - 1] - 1)
    ensures Unmergeable(b, meets)
  {
  }

  lemma Open(b: seq<int>, k: nat, meets: (int, int) -> bool, single: bool)
    requires Merged(b, k, meets, single) && (single ==> meets(k, k))
    ensures
      var b' := b + [k + 1];
      Partition(b', k + 1) && (single ==> AllMeet(b', meets)) && Unmergeable(b'[..|b'| - 1], meets)
  {
    assert (b + [k + 1])[..|b|] == b;
  }

  /** The inner loop: case k opens bucket n0, which swallows the buckets before it as long as the test allows. */
  method MergeBack(buckets: array<int>, k: nat, meets: (int, int) -> bool, n0: nat,
                   ghost single: bool, ghost b0: seq<int>)
    returns (n: nat, ghost b: seq<int>)
    requires n0 <= k && |b0| == n0 + 1 && n0 < buckets.Length
    requires forall i :: 0 <= i <= n0 ==> buckets[i] == b0[i]
    requires Merged(b0, k, meets, single) && (single ==> meets(k, k))
    ensures n <= n0 && |b| == n + 2
    ensures forall i :: 0 <= i <= n ==> buckets[i] == b[i]
    ensures Merged(b, k + 1, meets, single)
  {
    Open(b0, k, meets, single);
    n, b := n0, b0 + [k + 1];
    while n > 0 && meets(buckets[n - 1], k)
      invariant n <= n0 && |b| == n + 2
      invariant forall i :: 0 <= i <= n ==> buckets[i] == b[i]
      invariant Partition(b, k + 1) && (single ==> AllMeet(b, meets)) && Unmergeable(b[..|b| - 1], meets)
    {
      MergeTwo(b, k + 1, meets, single);
      b := MergeLast(b);
      n := n - 1;
    }
    Finish(b, meets);
  }

  /** The merging loop of swgen, for any test; the last start is the number of cases. */
  method Buckets(ncases: nat, meets: (int, int) -> bool) returns (starts: seq<int>)
    ensures Merged(starts, ncases, meets, forall k: nat :: k < ncases ==> meets(k, k))
  {
    ghost var single := forall k: nat :: k < ncases ==> meets(k, k);
    ghost var b := [0];
    var buckets := new int[ncases + 1];
    var n, k := 0, 0;
    while k < ncases
      invariant 0 <= n <= k <= ncases && |b| == n + 1
      invariant b[n] == k && forall i :: 0 <= i < n ==> buckets[i] == b[i]
      invariant Merged(b, k, meets, single)
    {
      buckets[n] := k;
      n, b := MergeBack(buckets, k, meets, n, single, b);
      k := k + 1;
      n := n + 1;
    }
    buckets[n] := ncases;
    starts := buckets[..n + 1];
    assert starts == b;
  }

  /** A bucket of more than three cases becomes a jump table over its range. */
  function Entries(v: seq<int>, l: int, u: int): int
    requires Increasing(v) && 0 <= l <= u < |v|
  {
    if u - l + 1 <= 3 then 0 else v[u] - v[l] + 1
  }

  /** The sum of f over buckets i and up. */
  function SumOver(b: seq<int>, f: (int, int) -> int, i: nat): int
    requires i < |b|
    decreases |b| - i
  {
    if i == |b| - 1 then 0 else f(b[i], b[i + 1] - 1) + SumOver(b, f, i + 1)
  }

  function TotalEntries(v: seq<int>, b: seq<int>): int
    requires Increasing(v) && |b| > 0
  {
    SumOver(b, EntriesIn(v), 0)
  }

  function EntriesIn(v: seq<int>): (int, int) -> int
    requires Increasing(v)
  {
    (l, u) => if 0 <= l <= u < |v| then Entries(v, l, u) else 0
  }

  lemma Scale(density: real, span: real, count: real)
    requires span >= 1.0 && count / span >= density
    ensures density * span <= count
  {
    var q := count / span;
    assert q * span == count;
    assert (q - density) * span >= 0.0;
  }

  lemma {:induction false} SumBound(b: seq<int>, f: (int, int) -> int, i: nat)
    requires i < |b|
    requires forall j, k :: 0 <= j < |b| - 1 && k == j + 1 ==> f(b[j], b[k] - 1) <= 2 * (b[k] - b[j])
    ensures SumOver(b, f, i) <= 2 * (b[|b| - 1] - b[i])
    decreases |b| - i
  {
    if i < |b| - 1 {
      SumBound(b, f, i + 1);
    }
  }

  lemma BucketFits(v: seq<int>, density: real, l: int, u: int)
    requires Increasing(v) && 0.5 <= density && Meets(v, density, l, u)
    ensures Entries(v, l, u) <= 2 * (u - l + 1)
  {
    Scale(density, (v[u] - v[l] + 1) as real, (u - l + 1) as real);
    assert density * (v[u] - v[l] + 1) as real >= 0.5 * (v[u] - v[l] + 1) as real;
  }

  /**
   * At the default density of 0.5, or a higher one, all jump tables of a switch together
   * hold at most two entries per case.
   */
  lemma TableBound(v: seq<int>, b: seq<int>, density: real)
    requires Increasing(v) && Partition(b, |v|) && 0.5 <= density
    requires forall i, j :: 0 <= i < |b| - 1 && j == i + 1 ==> Meets(v, density, b[i], b[j] - 1)
    ensures TotalEntries(v, b) <= 2 * |v|
  {
    var f := EntriesIn(v);
    forall j, k | 0 <= j < |b| - 1 && k == j + 1 ensures f(b[j], b[k] - 1) <= 2 * (b[k] - b[j]) {
      BucketFits(v, density, b[j], b[k] - 1);
    }
    SumBound(b, f, 0);
  }
}
