/** Removal of empty bins: every profile's arrays are compacted in lock-step,
    the decision being taken from the first profile's cell counts. */
module Compaction {
  import opened BinGeometry

  /** One bin of a profile: its entries in the Radius, Data, Weight and NCell arrays. */
  datatype Bin = Bin(radius: real, data: real, weight: real, ncell: nat)

  /** The elements of `xs` whose flag in `keep` is set, in their original order. */
  function Compact<T>(xs: seq<T>, keep: seq<bool>): seq<T>
    requires |xs| == |keep|
  {
    if |xs| == 0 then []
    else Compact(xs[..|xs| - 1], keep[..|keep| - 1]) + (if keep[|keep| - 1] then [xs[|xs| - 1]] else [])
  }

  /** Which bins hold at least one cell. */
  function NonEmptyMask(bins: seq<Bin>): (m: seq<bool>)
    ensures |m| == |bins| && forall i :: 0 <= i < |bins| ==> (m[i] <==> bins[i].ncell != 0)
  {
    seq(|bins|, i requires 0 <= i < |bins| => bins[i].ncell != 0)
  }

  function CountTrue(m: seq<bool>): nat {
    if |m| == 0 then 0 else CountTrue(m[..|m| - 1]) + (if m[|m| - 1] then 1 else 0)
  }

  /** Compaction keeps exactly as many elements as there are set flags. */
  lemma {:induction false} CompactCount<T>(xs: seq<T>, keep: seq<bool>)
    requires |xs| == |keep|
    ensures |Compact(xs, keep)| == CountTrue(keep)
  {
    if |xs| > 0 {
      CompactCount(xs[..|xs| - 1], keep[..|keep| - 1]);
    }
  }

  /** No flag set means no flag counted, and conversely. */
  lemma {:induction false} CountTrueZero(m: seq<bool>)
    ensures CountTrue(m) == 0 <==> forall i :: 0 <= i < |m| ==> !m[i]
  {
    if |m| > 0 {
      CountTrueZero(m[..|m| - 1]);
      assert forall i :: 0 <= i < |m| - 1 ==> m[..|m| - 1][i] == m[i];
    }
  }

  function EmptyCount(bins: seq<Bin>): nat {
    if |bins| == 0 then 0 else EmptyCount(bins[..|bins| - 1]) + (if bins[|bins| - 1].ncell == 0 then 1 else 0)
  }

  /** Taking one more element into the prefix. */
  lemma CompactStep<T>(xs: seq<T>, keep: seq<bool>, i: nat)
    requires |xs| == |keep| && i < |xs|
    ensures Compact(xs[..i + 1], keep[..i + 1])
         == Compact(xs[..i], keep[..i]) + (if keep[i] then [xs[i]] else [])
  {
    assert xs[..i + 1][..i] == xs[..i];
    assert keep[..i + 1][..i] == keep[..i];
  }

  /** A run of dropped elements adds nothing. */
  lemma {:induction false} CompactSkipRun<T>(xs: seq<T>, keep: seq<bool>, i: nat, n: nat)
    requires |xs| == |keep| && i + n <= |xs|
    requires forall j :: i <= j < i + n ==> !keep[j]
    ensures Compact(xs[..i + n], keep[..i + n]) == Compact(xs[..i], keep[..i])
  {
    if n > 0 {
      CompactSkipRun(xs, keep, i, n - 1);
      CompactStep(xs, keep, i + n - 1);
    }
  }

  predicate Rectangular(rows: seq<seq<Bin>>, cap: nat) {
    forall p :: 0 <= p < |rows| ==> |rows[p]| == cap
  }

  /** End of the run of empty bins that starts at `b`: the first non-empty bin
      above `b`, or `nBin` when the run reaches the last bin. */
  method EmptyRunEnd(row: seq<Bin>, b: nat, nBin: nat) returns (bUp: nat)
    requires b < nBin <= |row|
    ensures b < bUp <= nBin
    ensures forall j :: b < j < bUp ==> row[j].ncell == 0
    ensures bUp < nBin ==> row[bUp].ncell != 0
  {
    bUp := b + 1;
    while bUp < nBin && row[bUp].ncell == 0
      invariant b < bUp <= nBin
      invariant forall j :: b < j < bUp ==> row[j].ncell == 0
    {
      bUp := bUp + 1;
    }
  }

  /** Every bin from `b + stride` up to `nBin` moves down by `stride`, in every
      profile at once; the bins below `b` are not touched. */
  method ShiftDown(rows: seq<seq<Bin>>, cap: nat, b: nat, stride: nat, nBin: nat) returns (cur: seq<seq<Bin>>)
    requires Rectangular(rows, cap) && b + stride <= nBin <= cap
    ensures |cur| == |rows| && Rectangular(cur, cap)
    ensures forall p :: 0 <= p < |cur| ==> cur[p][..b] == rows[p][..b]
    ensures forall p, j :: 0 <= p < |cur| && b <= j < nBin - stride ==> cur[p][j] == rows[p][j + stride]
  {
    cur := rows;
    var k := b + stride;
    while k < nBin
      invariant b + stride <= k <= nBin
      invariant |cur| == |rows| && Rectangular(cur, cap)
      invariant forall p, j :: 0 <= p < |cur| && 0 <= j < cap && (j < b || j >= k - stride) ==> cur[p][j] == rows[p][j]
      invariant forall p, j :: 0 <= p < |cur| && b <= j < k - stride ==> cur[p][j] == rows[p][j + stride]
    {
      cur := seq(|cur|, p requires 0 <= p < |cur| => cur[p][k - stride := cur[p][k]]);
      k := k + 1;
    }
    forall p | 0 <= p < |cur|
      ensures cur[p][..b] == rows[p][..b]
    {
      assert forall j :: 0 <= j < b ==> cur[p][j] == rows[p][j];
    }
  }

  /** Loop state of the removal: the first `b` bins of every profile are the
      compacted first `i` original bins, ... */
  ghost predicate Done(rows: seq<seq<Bin>>, mask: seq<bool>, cur: seq<seq<Bin>>, b: nat, i: nat) {
    && |cur| == |rows| && i <= |mask|
    && forall p :: 0 <= p < |cur| ==>
         |rows[p]| == |mask| && b <= |cur[p]| && cur[p][..b] == Compact(rows[p][..i], mask[..i])
  }

  /** ... and the bins from `b` up to `nBin` are the original bins from `i` on, unchanged. */
  ghost predicate Pending(rows: seq<seq<Bin>>, cur: seq<seq<Bin>>, b: nat, nBin: nat, i: nat) {
    && |cur| == |rows| && b <= i
    && forall p :: 0 <= p < |cur| ==>
         nBin <= |cur[p]| && nBin + i - b <= |rows[p]| &&
         forall j :: b <= j < nBin ==> cur[p][j] == rows[p][j + i - b]
  }

  lemma KeepStep(rows: seq<seq<Bin>>, mask: seq<bool>, cur: seq<seq<Bin>>, b: nat, nBin: nat, i: nat)
    requires |cur| == |rows| && b < nBin && b <= i && nBin - b == |mask| - i
    requires forall p :: 0 <= p < |rows| ==> |rows[p]| == |mask| && nBin <= |cur[p]|
    requires Done(rows, mask, cur, b, i) && Pending(rows, cur, b, nBin, i)
    requires mask[i]
    ensures Done(rows, mask, cur, b + 1, i + 1) && Pending(rows, cur, b + 1, nBin, i + 1)
  {
    forall p | 0 <= p < |cur|
      ensures cur[p][..b + 1] == Compact(rows[p][..i + 1], mask[..i + 1])
    {
      CompactStep(rows[p], mask, i);
      assert cur[p][..b + 1] == cur[p][..b] + [cur[p][b]];
    }
  }

  lemma DropStep(rows: seq<seq<Bin>>, mask: seq<bool>, before: seq<seq<Bin>>, cur: seq<seq<Bin>>,
                 b: nat, nBin: nat, i: nat, stride: nat)
    requires |before| == |rows| && |cur| == |rows| && b + stride <= nBin && b <= i && nBin - b == |mask| - i
    requires forall p :: 0 <= p < |rows| ==> |rows[p]| == |mask| && nBin <= |before[p]| && nBin <= |cur[p]|
    requires Done(rows, mask, before, b, i) && Pending(rows, before, b, nBin, i)
    requires forall j :: i <= j < i + stride ==> !mask[j]
    requires forall p :: 0 <= p < |cur| ==> cur[p][..b] == before[p][..b]
    requires forall p, j :: 0 <= p < |cur| && b <= j < nBin - stride ==> cur[p][j] == before[p][j + stride]
    ensures Done(rows, mask, cur, b, i + stride) && Pending(rows, cur, b, nBin - stride, i + stride)
  {
    forall p | 0 <= p < |cur|
      ensures cur[p][..b] == Compact(rows[p][..i + stride], mask[..i + stride])
    {
      CompactSkipRun(rows[p], mask, i, stride);
    }
  }

  lemma RunIsEmpty(rows: seq<seq<Bin>>, mask: seq<bool>, cur: seq<seq<Bin>>, b: nat, nBin: nat, i: nat, bUp: nat)
    requires |rows| >= 1 && mask == NonEmptyMask(rows[0])
    requires |cur| == |rows| && b < bUp <= nBin && b <= i && nBin - b == |mask| - i
    requires forall p :: 0 <= p < |rows| ==> |rows[p]| == |mask| && nBin <= |cur[p]|
    requires Pending(rows, cur, b, nBin, i)
    requires cur[0][b].ncell == 0 && forall j :: b < j < bUp ==> cur[0][j].ncell == 0
    ensures forall j :: i <= j < i + (bUp - b) ==> !mask[j]
  {
    forall j | i <= j < i + (bUp - b)
      ensures !mask[j]
    {
      assert cur[0][j - i + b] == rows[0][j];
    }
  }

  lemma Finished(rows: seq<seq<Bin>>, mask: seq<bool>, cur: seq<seq<Bin>>, out: seq<seq<Bin>>, nBin: nat)
    requires |cur| == |rows| && |out| == |rows| && nBin <= |mask|
    requires forall p :: 0 <= p < |rows| ==> |rows[p]| == |mask| && nBin <= |cur[p]|
    requires Done(rows, mask, cur, nBin, |mask|)
    requires forall p :: 0 <= p < |rows| ==> out[p] == cur[p][..nBin]
    ensures forall p :: 0 <= p < |rows| ==> out[p] == Compact(rows[p], mask)
  {
    forall p | 0 <= p < |rows|
      ensures out[p] == Compact(rows[p], mask)
    {
      FinishedRow(rows[p], mask, cur[p], out[p], nBin);
    }
  }

  lemma FinishedRow(xs: seq<Bin>, mask: seq<bool>, c: seq<Bin>, o: seq<Bin>, nBin: nat)
    requires |xs| == |mask| && nBin <= |c| && o == c[..nBin]
    requires c[..nBin] == Compact(xs[..|mask|], mask[..|mask|])
    ensures o == Compact(xs, mask)
  {
    assert xs[..|mask|] == xs;
    assert mask[..|mask|] == mask;
  }

  /** One removal step at an empty bin `b`: measure the run of empty bins
      starting there and shift everything above it down by the run length. */
  method DropEmptyRun(rows: seq<seq<Bin>>, ghost mask: seq<bool>, cur: seq<seq<Bin>>, cap: nat,
                      b: nat, nBin: nat, ghost i: nat)
    returns (next: seq<seq<Bin>>, stride: nat)
    requires |rows| >= 1 && mask == NonEmptyMask(rows[0]) && |mask| == cap
    requires |cur| == |rows| && Rectangular(cur, cap) && Rectangular(rows, cap)
    requires b < nBin <= cap && b <= i && nBin - b == cap - i
    requires Done(rows, mask, cur, b, i) && Pending(rows, cur, b, nBin, i)
    requires cur[0][b].ncell == 0
    ensures 1 <= stride <= nBin - b
    ensures |next| == |rows| && Rectangular(next, cap)
    ensures Done(rows, mask, next, b, i + stride) && Pending(rows, next, b, nBin - stride, i + stride)
  {
    var bUp := EmptyRunEnd(cur[0], b, nBin);
    stride := bUp - b;
    RunIsEmpty(rows, mask, cur, b, nBin, i, bUp);
    next := ShiftDown(cur, cap, b, stride, nBin);
    DropStep(rows, mask, cur, next, b, nBin, i, stride);
  }

  /** The state of the scan: bins before `b` are final, bins `b` to `nBin`
      are still to be examined, and `i` is the matching position in the input. */
  ghost predicate Scanning(rows: seq<seq<Bin>>, mask: seq<bool>, cur: seq<seq<Bin>>, cap: nat,
                           b: int, nBin: nat, i: nat)
  {
    && |rows| >= 1 && mask == NonEmptyMask(rows[0]) && |mask| == cap && Rectangular(rows, cap)
    && 0 <= b <= nBin <= cap
    && b <= i <= cap && nBin - b == cap - i
    && |cur| == |rows| && Rectangular(cur, cap)
    && Done(rows, mask, cur, b, i) && Pending(rows, cur, b, nBin, i)
  }

  lemma ScanKeep(rows: seq<seq<Bin>>, mask: seq<bool>, cur: seq<seq<Bin>>, cap: nat, b: nat, nBin: nat, i: nat)
    requires Scanning(rows, mask, cur, cap, b, nBin, i) && b < nBin && cur[0][b].ncell != 0
    ensures Scanning(rows, mask, cur, cap, b + 1, nBin, i + 1)
  {
    assert cur[0][b] == rows[0][i];
    KeepStep(rows, mask, cur, b, nBin, i);
  }

  /** One pass of the scan. A bin holding cells is kept and the scan moves on;
      an empty bin starts a run of empty bins that is dropped by shifting the
      later bins down, and the bin now at position `b` is examined next (the
      decrement of `b` followed by the loop's increment). */
  method ExamineBin(rows: seq<seq<Bin>>, ghost mask: seq<bool>, cur: seq<seq<Bin>>, cap: nat,
                    b: nat, nBin: nat, ghost i: nat)
    returns (next: seq<seq<Bin>>, b': nat, nBin': nat, ghost i': nat)
    requires Scanning(rows, mask, cur, cap, b, nBin, i) && b < nBin
    ensures Scanning(rows, mask, next, cap, b', nBin', i')
    ensures nBin' - b' < nBin - b
  {
    if cur[0][b].ncell != 0 {
      ScanKeep(rows, mask, cur, cap, b, nBin, i);
      next, b', nBin', i' := cur, b + 1, nBin, i + 1;
    } else {
      var stride;
      next, stride := DropEmptyRun(rows, mask, cur, cap, b, nBin, i);
      next, b', nBin', i' := next, b, nBin - stride, i + stride;
    }
  }

  /** The in-place removal: scan the bins upward; at an empty bin, find the run
      of empty bins starting there, shift every later bin of every profile down
      by the run length, shrink the bin count by it, and step the counter back
      so the same index is examined again. The result is every profile's bins
      filtered, in order, by profile 0's non-empty bins. */
  method RemoveEmptyBins(rows: seq<seq<Bin>>) returns (out: seq<seq<Bin>>)
    requires |rows| >= 1
    requires forall p :: 0 <= p < |rows| ==> |rows[p]| == |rows[0]|
    ensures |out| == |rows|
    ensures forall p :: 0 <= p < |rows| ==> out[p] == Compact(rows[p], NonEmptyMask(rows[0]))
  {
    ghost var mask := NonEmptyMask(rows[0]);
    var cap: nat := |rows[0]|;
    var cur := rows;
    var nBin: nat := cap;
    var b: nat := 0;
    ghost var i: nat := 0;
    while b < nBin
      invariant Scanning(rows, mask, cur, cap, b, nBin, i)
      decreases nBin - b
    {
      cur, b, nBin, i := ExamineBin(rows, mask, cur, cap, b, nBin, i);
    }
    out := seq(|cur|, p requires 0 <= p < |cur| => cur[p][..nBin]);
    Finished(rows, mask, cur, out, nBin);
  }

  /** Radii of a profile's bins. */
  function Radii(bins: seq<Bin>): (r: seq<real>)
    ensures |r| == |bins| && forall b :: 0 <= b < |bins| ==> r[b] == bins[b].radius
  {
    seq(|bins|, b requires 0 <= b < |bins| => bins[b].radius)
  }

  /** Radii of a profile's bins are strictly increasing. */
  predicate IncreasingRadius(bins: seq<Bin>) {
    StrictlyIncreasing(Radii(bins))
  }

  /** Profiles `xs` and `ys` have the same cell count in every bin. */
  predicate SameCounts(xs: seq<Bin>, ys: seq<Bin>) {
    |xs| == |ys| && forall i :: 0 <= i < |xs| ==> xs[i].ncell == ys[i].ncell
  }

  /** Profiles with the same radius and cell count in every bin. */
  predicate SameShape(xs: seq<Bin>, ys: seq<Bin>) {
    |xs| == |ys| && forall i :: 0 <= i < |xs| ==> xs[i].radius == ys[i].radius && xs[i].ncell == ys[i].ncell
  }

  /** Compacting two profiles of the same shape with one mask keeps them of the same shape. */
  lemma {:induction false} CompactSameShape(xs: seq<Bin>, ys: seq<Bin>, keep: seq<bool>)
    requires SameShape(xs, ys) && |keep| == |xs|
    ensures SameShape(Compact(xs, keep), Compact(ys, keep))
  {
    if |xs| > 0 {
      var n := |xs|;
      CompactSameShape(xs[..n - 1], ys[..n - 1], keep[..n - 1]);
      CompactCount(xs[..n - 1], keep[..n - 1]);
      CompactCount(ys[..n - 1], keep[..n - 1]);
    }
  }

  /** The bin count drops by exactly the number of empty bins. */
  lemma {:induction false} CompactLength(xs: seq<Bin>, ys: seq<Bin>)
    requires SameCounts(xs, ys)
    ensures |Compact(xs, NonEmptyMask(ys))| == |xs| - EmptyCount(ys)
  {
    if |xs| > 0 {
      var n := |xs|;
      assert NonEmptyMask(ys)[..n - 1] == NonEmptyMask(ys[..n - 1]);
      CompactLength(xs[..n - 1], ys[..n - 1]);
    }
  }

  lemma {:induction false} CompactMembers<T>(xs: seq<T>, keep: seq<bool>, y: T)
    requires |xs| == |keep| && y in Compact(xs, keep)
    ensures exists j :: 0 <= j < |xs| && keep[j] && xs[j] == y
  {
    var n := |xs|;
    if y in Compact(xs[..n - 1], keep[..n - 1]) {
      CompactMembers(xs[..n - 1], keep[..n - 1], y);
      var j :| 0 <= j < n - 1 && keep[..n - 1][j] && xs[..n - 1][j] == y;
      assert keep[j] && xs[j] == y;
    } else {
      assert keep[n - 1] && xs[n - 1] == y;
    }
  }

  /** Removing bins keeps the radii strictly increasing. */
  lemma {:induction false} CompactIncreasing(xs: seq<Bin>, keep: seq<bool>)
    requires |xs| == |keep| && IncreasingRadius(xs)
    ensures IncreasingRadius(Compact(xs, keep))
  {
    var n := |xs|;
    if n > 0 {
      var init := xs[..n - 1];
      CompactIncreasing(init, keep[..n - 1]);
      var front := Compact(init, keep[..n - 1]);
      if keep[n - 1] {
        forall y | y in front
          ensures y.radius < xs[n - 1].radius
        {
          CompactMembers(init, keep[..n - 1], y);
        }
        var r := front + [xs[n - 1]];
        forall i, j | 0 <= i < j < |r|
          ensures r[i].radius < r[j].radius
        {
          if j == |r| - 1 {
            assert r[i] in front;
          } else {
            assert r[i] == front[i] && r[j] == front[j];
          }
        }
      }
    }
  }

  /** After removal no bin is empty, in any profile whose cell counts are
      those the removal decided from. */
  lemma CompactNoEmpty(xs: seq<Bin>, ys: seq<Bin>)
    requires SameCounts(xs, ys)
    ensures forall i :: 0 <= i < |Compact(xs, NonEmptyMask(ys))| ==> Compact(xs, NonEmptyMask(ys))[i].ncell != 0
  {
    var m := NonEmptyMask(ys);
    forall i | 0 <= i < |Compact(xs, m)|
      ensures Compact(xs, m)[i].ncell != 0
    {
      CompactMembers(xs, m, Compact(xs, m)[i]);
    }
  }

  /** With no empty bin there is nothing to remove. */
  lemma {:induction false} CompactNothingEmpty(xs: seq<Bin>)
    requires forall i :: 0 <= i < |xs| ==> xs[i].ncell != 0
    ensures Compact(xs, NonEmptyMask(xs)) == xs
  {
    var n := |xs|;
    if n > 0 {
      assert NonEmptyMask(xs)[..n - 1] == NonEmptyMask(xs[..n - 1]);
      CompactNothingEmpty(xs[..n - 1]);
      assert xs[..n - 1] + [xs[n - 1]] == xs;
    }
  }

  /** Removing empty bins twice is the same as removing them once. */
  lemma CompactIdempotent(xs: seq<Bin>)
    ensures Compact(Compact(xs, NonEmptyMask(xs)), NonEmptyMask(Compact(xs, NonEmptyMask(xs))))
         == Compact(xs, NonEmptyMask(xs))
  {
    CompactNoEmpty(xs, xs);
    CompactNothingEmpty(Compact(xs, NonEmptyMask(xs)));
  }
}
