/**
 * Region batching: the proposals of one image are converted in place from
 * corner form to size form and handed to the classifier in slices of `k`
 * rows (`num_rois`); the last, partial slice is padded to `k` rows by
 * repeating that slice's row 0.
 */
module RegionBatcher {
  import opened Boxes

  function Min(a: int, b: int): int
  {
    if a <= b then a else b
  }

  /** The rows of all slices, one after the other. */
  function Flatten(ss: seq<seq<Row>>): seq<Row>
  {
    if ss == [] then [] else ss[0] + Flatten(ss[1..])
  }

  /**
   * A slice padded to `k` rows: its own rows first, then copies of its
   * row 0 (not zero rows).
   */
  function Pad(slice: seq<Row>, k: nat): (r: seq<Row>)
    requires 0 < |slice| <= k
    ensures |r| == k && r[..|slice|] == slice
    ensures forall i :: |slice| <= i < k ==> r[i] == slice[0]
  {
    slice + seq(k - |slice|, _ => slice[0])
  }

  /**
   * The proposals cut into consecutive runs of `k`; every run but the last
   * has exactly `k` rows, none is empty, and together they are the
   * proposals in their original order.
   */
  function Slices(rows: seq<Row>, k: nat): (s: seq<seq<Row>>)
    requires k > 0
    ensures forall j :: 0 <= j < |s| ==> 0 < |s[j]| <= k
    ensures forall j :: 0 <= j < |s| - 1 ==> |s[j]| == k
    decreases |rows|
  {
    if rows == [] then []
    else
      var m := Min(k, |rows|);
      [rows[..m]] + Slices(rows[m..], k)
  }

  /** The slices, concatenated in order, are the proposals: each exactly once, none reordered. */
  lemma {:induction false} SlicesFlatten(rows: seq<Row>, k: nat)
    requires k > 0
    ensures Flatten(Slices(rows, k)) == rows
    decreases |rows|
  {
    if rows != [] {
      var m := Min(k, |rows|);
      var s := Slices(rows, k);
      SlicesFlatten(rows[m..], k);
      assert s[1..] == Slices(rows[m..], k);
      assert rows == rows[..m] + rows[m..];
    }
  }

  /** The classifier inputs of one image: each run of `k` proposals, padded. */
  function Batches(rows: seq<Row>, k: nat): (b: seq<seq<Row>>)
    requires k > 0
    ensures forall j :: 0 <= j < |b| ==> |b[j]| == k
    decreases |rows|
  {
    if rows == [] then []
    else
      var m := Min(k, |rows|);
      [Pad(rows[..m], k)] + Batches(rows[m..], k)
  }

  /** The number of classifier calls for `n` proposals: `n / k`, plus one for a partial slice. */
  function BatchCount(n: nat, k: nat): nat
    requires k > 0
  {
    if n % k == 0 then n / k else n / k + 1
  }

  /** Each batch is its slice, padded. */
  lemma {:induction false} BatchesPadSlices(rows: seq<Row>, k: nat)
    requires k > 0
    ensures |Batches(rows, k)| == |Slices(rows, k)|
    ensures forall j :: 0 <= j < |Slices(rows, k)| ==> Batches(rows, k)[j] == Pad(Slices(rows, k)[j], k)
    decreases |rows|
  {
    if rows != [] {
      var m := Min(k, |rows|);
      BatchesPadSlices(rows[m..], k);
    }
  }

  lemma MulDistributes(k: int, a: int, b: int)
    ensures k * (a + b) == k * a + k * b
  {
  }

  lemma MulNext(k: int, a: int, b: int)
    requires b == a + 1
    ensures k * b == k * a + k
  {
  }

  lemma MulMonotoneInt(k: int, a: int, b: int)
    requires k > 0 && a <= b
    ensures k * a <= k * b
  {
  }

  lemma MulCancelLess(k: int, a: int, b: int)
    requires k > 0 && k * a < k * b
    ensures a < b
  {
  }

  /** Quotient and remainder are determined by `n == k * q + r` with `0 <= r < k`. */
  lemma DivModUnique(n: int, k: int, q: int, r: int)
    requires k > 0 && n == k * q + r && 0 <= r < k
    ensures n / k == q && n % k == r
  {
    var q', r' := n / k, n % k;
    MulDistributes(k, q - q', q');
    assert k * (q - q') == r' - r;
    MulCancelLess(k, q - q', 1);
    MulCancelLess(k, -1, q - q');
  }

  /** Removing one full run of `k` proposals removes exactly one classifier call. */
  lemma CountStep(n: nat, k: nat)
    requires 0 < k < n
    ensures BatchCount(n, k) == BatchCount(n - k, k) + 1
  {
    var q, r := (n - k) / k, (n - k) % k;
    MulDistributes(k, q, 1);
    DivModUnique(n, k, q + 1, r);
  }

  /** The arithmetic of round `jk` of the batching loop. */
  lemma RoundBounds(n: nat, k: nat, jk: nat)
    requires k > 0 && jk <= n / k
    ensures k * jk <= n && k * (jk + 1) == k * jk + k
    ensures jk < n / k ==> k * (jk + 1) <= n
    ensures jk == n / k ==> n - k * jk < k
    ensures k * (n / k + 1) > n
  {
    MulMonotoneInt(k, jk, n / k);
    MulDistributes(k, jk, 1);
    MulDistributes(k, n / k, 1);
    if jk < n / k {
      MulMonotoneInt(k, jk + 1, n / k);
    }
  }

  /**
   * For `n` proposals there are `n / k` batches when `k` divides `n` and
   * `n / k + 1` otherwise; none for no proposals.
   */
  lemma {:induction false} BatchesCount(rows: seq<Row>, k: nat)
    requires k > 0
    ensures |Batches(rows, k)| == BatchCount(|rows|, k)
    decreases |rows|
  {
    if rows != [] {
      var m := Min(k, |rows|);
      BatchesCount(rows[m..], k);
      if |rows| > k {
        CountStep(|rows|, k);
      } else if |rows| == k {
        DivModUnique(|rows|, k, 1, 0);
      } else {
        DivModUnique(|rows|, k, 0, |rows|);
      }
    } else {
      DivModUnique(0, k, 0, 0);
    }
  }

  /** `lo` is where run `j` of runs of `k` starts: `j` steps of `k` from 0, without multiplying. */
  predicate RunStart(lo: int, k: nat, j: nat)
    decreases j
  {
    if j == 0 then lo == 0 else RunStart(lo - k, k, j - 1)
  }

  lemma {:induction false} RunStartMul(k: nat, j: nat)
    ensures RunStart(k * j, k, j)
    decreases j
  {
    if j > 0 {
      MulNext(k, j - 1, j);
      RunStartMul(k, j - 1);
    }
  }

  /** Dropping the first `k` rows shifts every index by `k`. */
  lemma ShiftSlice(rows: seq<Row>, k: nat, lo: nat, hi: nat)
    requires k <= |rows| && lo <= hi <= |rows| - k
    ensures rows[k..][lo..hi] == rows[k + lo .. k + hi]
  {
  }

  /** The first slice is the first `k` rows, or all of them when fewer are left. */
  lemma SliceFirst(rows: seq<Row>, k: nat)
    requires k > 0 && 0 < |Slices(rows, k)|
    ensures rows != [] && Slices(rows, k)[0] == rows[..Min(k, |rows|)]
  {
  }

  /** Every later slice is a slice of what follows the first `k` rows. */
  lemma SliceNext(rows: seq<Row>, k: nat, j: nat)
    requires k > 0 && 0 < j < |Slices(rows, k)|
    ensures k < |rows| && j - 1 < |Slices(rows[k..], k)|
    ensures Slices(rows, k)[j] == Slices(rows[k..], k)[j - 1]
  {
    var m := Min(k, |rows|);
    var tail := Slices(rows[m..], k);
    assert Slices(rows, k) == [rows[..m]] + tail;
    assert k < |rows|;
    assert rows[m..] == rows[k..];
    assert Slices(rows, k)[j] == tail[j - 1];
  }

  /** Slice `j` starts at the start of run `j` and is at most `k` rows long. */
  lemma {:induction false} SliceAt(rows: seq<Row>, k: nat, j: nat, lo: int)
    requires k > 0 && j < |Slices(rows, k)| && RunStart(lo, k, j)
    ensures 0 <= lo < |rows| && Slices(rows, k)[j] == rows[lo .. Min(lo + k, |rows|)]
    decreases j
  {
    if j == 0 {
      SliceFirst(rows, k);
    } else {
      SliceNext(rows, k, j);
      var rest := rows[k..];
      SliceAt(rest, k, j - 1, lo - k);
      var hi := Min(lo, |rest|);
      ShiftSlice(rows, k, lo - k, hi);
      assert k + hi == Min(lo + k, |rows|);
    }
  }

  /** Slice `j` is the one the script takes: rows `k * j` up to `k * (j + 1)`, cut at the end. */
  lemma SliceIndex(rows: seq<Row>, k: nat, j: nat)
    requires k > 0 && j < |Slices(rows, k)|
    ensures 0 <= k * j < |rows|
    ensures Slices(rows, k)[j] == rows[k * j .. Min(k * (j + 1), |rows|)]
  {
    RunStartMul(k, j);
    SliceAt(rows, k, j, k * j);
    MulNext(k, j, j + 1);
  }

  /**
   * Every batch has exactly `k` rows: its first `|slice|` rows are the slice
   * unchanged and the rest repeat the slice's row 0.  The slices, taken in
   * order, give back every proposal exactly once.
   */
  lemma BatchShape(rows: seq<Row>, k: nat, j: nat)
    requires k > 0 && j < |Slices(rows, k)|
    ensures |Batches(rows, k)| == |Slices(rows, k)|
    ensures var s, b := Slices(rows, k)[j], Batches(rows, k)[j];
      |b| == k && b[..|s|] == s && forall i :: |s| <= i < k ==> b[i] == s[0]
  {
    BatchesPadSlices(rows, k);
  }

  /** Batches that start at `lo`: the slice from `lo` padded, then the batches after it. */
  lemma BatchesFrom(rows: seq<Row>, k: nat, lo: nat)
    requires k > 0 && lo < |rows|
    ensures Batches(rows[lo..], k)
      == [Pad(rows[lo..Min(lo + k, |rows|)], k)] + Batches(rows[Min(lo + k, |rows|)..], k)
  {
    var r := rows[lo..];
    assert r[..Min(k, |r|)] == rows[lo..Min(lo + k, |rows|)];
    assert r[Min(k, |r|)..] == rows[Min(lo + k, |rows|)..];
  }

  /** Python's `rows[lo:hi]` for `0 <= lo`, `0 <= hi`: both bounds are cut at the end of `rows`. */
  function PySlice(rows: seq<Row>, lo: nat, hi: nat): seq<Row>
  {
    if Min(hi, |rows|) <= Min(lo, |rows|) then [] else rows[Min(lo, |rows|)..Min(hi, |rows|)]
  }

  /** The batches still to come at the start of round `jk`. */
  function Remaining(rows: seq<Row>, k: nat, jk: nat): seq<seq<Row>>
    requires k > 0
  {
    Batches(rows[Min(k * jk, |rows|)..], k)
  }

  /**
   * Round `jk` of the batching loop takes the slice `rows[k * jk : k * (jk + 1)]`:
   * an empty slice means no batch is left; otherwise the next batch is the
   * slice, full in the rounds before `n / k`, and in round `n / k` the slice
   * padded to `k` rows, after which nothing is left.
   */
  lemma RoundStep(rows: seq<Row>, k: nat, jk: nat)
    requires k > 0 && jk <= |rows| / k
    ensures var s := PySlice(rows, k * jk, k * (jk + 1));
      && (s == [] ==> Remaining(rows, k, jk) == [])
      && (s != [] && jk < |rows| / k ==> Remaining(rows, k, jk) == [s] + Remaining(rows, k, jk + 1))
      && (s != [] && jk == |rows| / k ==> |s| <= k && Remaining(rows, k, jk) == [Pad(s, k)])
  {
    var n := |rows|;
    RoundBounds(n, k, jk);
    var lo, hi := Min(k * jk, n), Min(k * (jk + 1), n);
    if lo < hi {
      BatchesFrom(rows, k, lo);
      if jk < n / k {
        assert Pad(rows[lo..hi], k) == rows[lo..hi];
      } else {
        assert rows[hi..] == [];
      }
    }
  }

  /**
   * Corner form to size form, in place: first the width column loses x1 in
   * every row, then the height column loses y1; columns 0 and 1 do not change.
   */
  method ToSizeForm(R: array<Row>)
    modifies R
    ensures forall i :: 0 <= i < R.Length ==> R[i] == CornerToSize(old(R[i]))
  {
    var i := 0;
    while i < R.Length
      invariant 0 <= i <= R.Length
      invariant forall j :: 0 <= j < i ==> R[j] == old(R[j]).(c2 := old(R[j]).c2 - old(R[j]).c0)
      invariant forall j :: i <= j < R.Length ==> R[j] == old(R[j])
    {
      R[i] := R[i].(c2 := R[i].c2 - R[i].c0);
      i := i + 1;
    }
    i := 0;
    while i < R.Length
      invariant 0 <= i <= R.Length
      invariant forall j :: 0 <= j < i ==> R[j] == CornerToSize(old(R[j]))
      invariant forall j :: i <= j < R.Length ==> R[j] == old(R[j]).(c2 := old(R[j]).c2 - old(R[j]).c0)
    {
      R[i] := R[i].(c3 := R[i].c3 - R[i].c1);
      i := i + 1;
    }
  }

  /**
   * The padding of the last slice: a zero array of `k` rows, the slice
   * written over its first rows and the slice's row 0 over the rest.
   */
  method PadSlice(rois: seq<Row>, k: nat) returns (padded: seq<Row>)
    requires 0 < |rois| <= k
    ensures padded == Pad(rois, k)
  {
    var a := new Row[k](_ => Zero);
    for i := 0 to |rois|
      invariant forall j :: 0 <= j < i ==> a[j] == rois[j]
    {
      a[i] := rois[i];
    }
    for i := |rois| to k
      invariant forall j :: 0 <= j < |rois| ==> a[j] == rois[j]
      invariant forall j :: |rois| <= j < i ==> a[j] == rois[0]
    {
      a[i] := rois[0];
    }
    padded := a[..];
    assert padded == Pad(rois, k) by {
      var p := Pad(rois, k);
      assert forall j :: 0 <= j < |rois| ==> p[j] == p[..|rois|][j];
    }
  }

  /**
   * The loop over `jk` in `range(N // k + 1)`: take rows `k * jk` up to
   * `k * (jk + 1)`, stop at the first empty slice, pad the slice of the last
   * round.  The result is the sequence of classifier inputs, in call order.
   */
  method BatchRegions(R: array<Row>, k: nat) returns (batches: seq<seq<Row>>)
    requires k > 0
    ensures batches == Batches(R[..], k)
  {
    var n := R.Length;
    var last := n / k;
    batches := [];
    var jk := 0;
    while jk < last + 1
      invariant 0 <= jk <= last + 1
      invariant jk <= last ==> batches + Remaining(R[..], k, jk) == Batches(R[..], k)
      invariant jk == last + 1 ==> batches == Batches(R[..], k)
    {
      var rois := PySlice(R[..], k * jk, k * (jk + 1));
      RoundStep(R[..], k, jk);
      if |rois| == 0 {
        break;
      }
      if jk == last {
        rois := PadSlice(rois, k);
      }
      batches := batches + [rois];
      jk := jk + 1;
    }
  }
}
