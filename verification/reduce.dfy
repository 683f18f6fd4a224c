/** Summing the thread-private bin arrays into one array per profile, and the
    per-rank arrays into the global one (an element-wise sum either way). */
module Reduce {
  import opened Cells
  import opened Accumulate

  /** Bin `b` summed over all parts (threads or ranks), in part order. */
  function SumParts(parts: seq<seq<Acc>>, b: nat): Acc
    requires forall t :: 0 <= t < |parts| ==> b < |parts[t]|
  {
    if |parts| == 0 then NoCells
    else Plus(SumParts(parts[..|parts| - 1], b), parts[|parts| - 1][b])
  }

  /** The thread reduction: start from thread 0's bins and add every further
      thread's bins, bin by bin. */
  method SumThreads(parts: seq<seq<Acc>>, nBin: nat) returns (total: seq<Acc>)
    requires |parts| >= 1
    requires forall t :: 0 <= t < |parts| ==> |parts[t]| == nBin
    ensures |total| == nBin
    ensures forall b :: 0 <= b < nBin ==> total[b] == SumParts(parts, b)
  {
    total := parts[0];
    assert parts[..1][..0] == [];
    var t := 1;
    while t < |parts|
      invariant 1 <= t <= |parts|
      invariant |total| == nBin
      invariant forall b :: 0 <= b < nBin ==> total[b] == SumParts(parts[..t], b)
    {
      assert parts[..t + 1][..t] == parts[..t];
      var b := 0;
      while b < nBin
        invariant 0 <= b <= nBin && |total| == nBin
        invariant forall k :: 0 <= k < b ==> total[k] == SumParts(parts[..t + 1], k)
        invariant forall k :: b <= k < nBin ==> total[k] == SumParts(parts[..t], k)
      {
        total := total[b := Plus(total[b], parts[t][b])];
        b := b + 1;
      }
      t := t + 1;
    }
    assert parts[..|parts|] == parts;
  }

  /** The cells of all parts, in part order. */
  function Flatten(parts: seq<seq<Cell>>): seq<Cell> {
    if |parts| == 0 then [] else Flatten(parts[..|parts| - 1]) + parts[|parts| - 1]
  }

  lemma {:induction false} InFlatten(parts: seq<seq<Cell>>, c: Cell)
    requires c in Flatten(parts)
    ensures exists t :: 0 <= t < |parts| && c in parts[t]
  {
    if |parts| > 0 {
      var init := parts[..|parts| - 1];
      if c in Flatten(init) {
        InFlatten(init, c);
        var t :| 0 <= t < |init| && c in init[t];
        assert c in parts[t];
      } else {
        assert c in parts[|parts| - 1];
      }
    }
  }

  /** Each part's cells accumulated on their own. */
  function AccumParts(q: Quantity, s: Setup, phys: Physics, parts: seq<seq<Cell>>): (r: seq<seq<Acc>>)
    requires ValidSetup(s)
    requires forall t :: 0 <= t < |parts| ==> EvaluableAll(q, s, parts[t])
    ensures |r| == |parts| && forall t :: 0 <= t < |r| ==> |r[t]| == s.nBin
  {
    seq(|parts|, t requires 0 <= t < |parts| => Accum(q, s, phys, parts[t]))
  }

  lemma FlattenEvaluable(q: Quantity, s: Setup, parts: seq<seq<Cell>>)
    requires ValidSetup(s)
    requires forall t :: 0 <= t < |parts| ==> EvaluableAll(q, s, parts[t])
    ensures EvaluableAll(q, s, Flatten(parts))
  {
    forall c | c in Flatten(parts) && BinOf(s, c).Some?
      ensures Evaluable(q, c)
    {
      InFlatten(parts, c);
      var t :| 0 <= t < |parts| && c in parts[t];
      assert EvaluableAll(q, s, parts[t]);
    }
  }

  /** Reduction-order invariance: summing the per-part accumulations gives the
      accumulation of all cells together, however the cells are split. */
  lemma {:induction false} SumOfAccums(q: Quantity, s: Setup, phys: Physics, parts: seq<seq<Cell>>)
    requires ValidSetup(s)
    requires forall t :: 0 <= t < |parts| ==> EvaluableAll(q, s, parts[t])
    ensures EvaluableAll(q, s, Flatten(parts))
    ensures forall b :: 0 <= b < s.nBin ==>
              SumParts(AccumParts(q, s, phys, parts), b) == Accum(q, s, phys, Flatten(parts))[b]
  {
    FlattenEvaluable(q, s, parts);
    var n := |parts|;
    if n > 0 {
      var init := parts[..n - 1];
      SumOfAccums(q, s, phys, init);
      AccumAppend(q, s, phys, Flatten(init), parts[n - 1]);
      var sums := AccumParts(q, s, phys, parts);
      assert sums[..n - 1] == AccumParts(q, s, phys, init);
      SumPartsSnoc(sums, Accum(q, s, phys, Flatten(init)), Accum(q, s, phys, Flatten(parts)), s.nBin);
    }
  }

  /** Adding one more part to the sum adds its bins to the running total. */
  lemma SumPartsSnoc(parts: seq<seq<Acc>>, prev: seq<Acc>, whole: seq<Acc>, nBin: nat)
    requires |parts| > 0 && |prev| == nBin
    requires forall t :: 0 <= t < |parts| ==> |parts[t]| == nBin
    requires forall b :: 0 <= b < nBin ==> SumParts(parts[..|parts| - 1], b) == prev[b]
    requires whole == AddBins(prev, parts[|parts| - 1])
    ensures forall b :: 0 <= b < nBin ==> SumParts(parts, b) == whole[b]
  {
  }

  lemma {:induction false} FlattenContains(parts: seq<seq<Cell>>, t: nat, c: Cell)
    requires t < |parts| && c in parts[t]
    ensures c in Flatten(parts)
  {
    var init := parts[..|parts| - 1];
    if t < |parts| - 1 {
      FlattenContains(init, t, c);
    }
  }
}
