/**
  The 10,000-row cap of the all-sheets loader and the seeded sample it
  takes. pandas draws the sample as the first `n` entries of a seeded
  permutation of the row positions; here a partial Fisher-Yates shuffle
  driven by a linear congruential generator stands in for numpy's
  generator. What the contracts promise does not depend on that choice:
  `n` distinct positions of the input, fixed by the input's length, `n`
  and the seed alone.
 */
module Sampling {

  /** Largest result the all-sheets loader returns. */
  const RowCap: nat := 10000
  /** The fixed `random_state` of the sample. */
  const SampleSeed: nat := 42

  /** One step of the stand-in generator. */
  function NextState(state: nat): nat
  {
    (state * 1103515245 + 12345) % 2147483648
  }

  predicate Distinct(s: seq<nat>)
  {
    forall a, b :: 0 <= a < b < |s| ==> s[a] != s[b]
  }

  predicate Below(s: seq<nat>, bound: nat)
  {
    forall k :: 0 <= k < |s| ==> s[k] < bound
  }

  /** The positions `0, 1, ..., n - 1`. */
  function Identity(n: nat): (r: seq<nat>)
    ensures |r| == n && Distinct(r) && Below(r, n)
  {
    seq(n, k => k)
  }

  /** Exchanges the entries at `i` and `j`. */
  function Swap(s: seq<nat>, i: nat, j: nat): (r: seq<nat>)
    requires i < |s| && j < |s|
    ensures |r| == |s|
    ensures Distinct(s) ==> Distinct(r)
    ensures forall bound: nat :: Below(s, bound) ==> Below(r, bound)
  {
    s[i := s[j]][j := s[i]]
  }

  /** Fixes positions `i .. count - 1` of the permutation, one random pick each. */
  function Shuffle(perm: seq<nat>, i: nat, count: nat, state: nat): (r: seq<nat>)
    requires i <= count <= |perm|
    ensures |r| == |perm|
    ensures Distinct(perm) ==> Distinct(r)
    ensures Below(perm, |perm|) ==> Below(r, |perm|)
    decreases count - i
  {
    if i == count then perm
    else
      var j := i + state % (|perm| - i);
      Shuffle(Swap(perm, i, j), i + 1, count, NextState(state))
  }

  /** `n` distinct positions below `len`, chosen by `seed`. */
  function SampleIndices(len: nat, n: nat, seed: nat): (idx: seq<nat>)
    requires n <= len
    ensures |idx| == n
    ensures Distinct(idx)
    ensures Below(idx, len)
  {
    var perm := Shuffle(Identity(len), 0, n, seed);
    perm[..n]
  }

  /** `rows.sample(n=n, random_state=seed)`: the rows at the sampled positions, in sampled order. */
  function Sample<T>(rows: seq<T>, n: nat, seed: nat): (r: seq<T>)
    requires n <= |rows|
    ensures |r| == n
    ensures forall k :: 0 <= k < n ==> r[k] == rows[SampleIndices(|rows|, n, seed)[k]]
    ensures forall x :: x in r ==> x in rows
  {
    var idx := SampleIndices(|rows|, n, seed);
    seq(n, k requires 0 <= k < n => rows[idx[k]])
  }

  /**
    Two inputs of the same length are sampled at the same positions: the
    choice depends on the length and the seed, never on the rows' contents.
   */
  lemma SamplePositionsDependOnLengthOnly<T>(a: seq<T>, b: seq<T>, n: nat, seed: nat)
    requires n <= |a| == |b|
    ensures exists idx: seq<nat> :: |idx| == n && Distinct(idx) && Below(idx, |a|) &&
              (forall k :: 0 <= k < n ==> Sample(a, n, seed)[k] == a[idx[k]] &&
                                          Sample(b, n, seed)[k] == b[idx[k]])
  {
    var idx := SampleIndices(|a|, n, seed);
    assert forall k :: 0 <= k < n ==> Sample(a, n, seed)[k] == a[idx[k]] &&
                                      Sample(b, n, seed)[k] == b[idx[k]];
  }

  /**
    The cap: at most `RowCap` rows come back; a result within the cap is
    returned unchanged, and a larger one is cut to exactly `RowCap` rows taken
    from distinct positions by the fixed-seed sample.
   */
  function Cap<T>(rows: seq<T>): (r: seq<T>)
    ensures |r| <= RowCap
    ensures |rows| <= RowCap ==> r == rows
    ensures |rows| > RowCap ==> |r| == RowCap
    ensures |rows| > RowCap ==>
              forall k :: 0 <= k < RowCap ==> r[k] == rows[SampleIndices(|rows|, RowCap, SampleSeed)[k]]
    ensures forall x :: x in r ==> x in rows
  {
    if |rows| > RowCap then Sample(rows, RowCap, SampleSeed) else rows
  }
}
