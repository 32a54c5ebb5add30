/**
  The batch post-processing of finished curves: the out-of-bounds filter `deletion`
  (smurves/smurves.py:321-379, repeated inline at smurves.py:354-360), the log-grid relabelling
  (smurves/smurves.py:309-315, smurves.py:345-352) and the right-convergence flip of the y column
  (smurves/smurves.py:316-319, smurves.py:362-364).
*/
module Curves {
  import opened Kinematics

  /** One curve: its measured points in grid order. */
  type Curve = seq<Point>

  /** Every y-value of the curve lies in [yLo, yHi]. */
  predicate InBounds(c: Curve, yLo: real, yHi: real)
  {
    forall i :: 0 <= i < |c| ==> yLo <= c[i].y <= yHi
  }

  /** Every curve of the batch is in bounds. */
  predicate AllInBounds(curves: seq<Curve>, yLo: real, yHi: real)
  {
    forall i :: 0 <= i < |curves| ==> InBounds(curves[i], yLo, yHi)
  }

  /** The curves that stay in bounds, in their original order. */
  function Filter(curves: seq<Curve>, yLo: real, yHi: real): (kept: seq<Curve>)
    ensures |kept| <= |curves| && AllInBounds(kept, yLo, yHi)
    ensures |kept| == |curves| <==> AllInBounds(curves, yLo, yHi)
    decreases |curves|
  {
    if curves == [] then []
    else
      var rest := Filter(curves[1..], yLo, yHi);
      assert forall i :: 1 <= i < |curves| ==> curves[i] == curves[1..][i - 1];
      if InBounds(curves[0], yLo, yHi) then [curves[0]] + rest else rest
  }

  /** The filter keeps exactly the in-bounds curves of the batch. */
  lemma {:induction false} FilterMembers(curves: seq<Curve>, yLo: real, yHi: real)
    ensures forall c :: c in Filter(curves, yLo, yHi) <==> c in curves && InBounds(c, yLo, yHi)
    decreases |curves|
  {
    if curves != [] {
      FilterMembers(curves[1..], yLo, yHi);
      assert curves == [curves[0]] + curves[1..];
    }
  }

  /** Filtering a concatenation filters each part. */
  lemma {:induction false} FilterAppend(a: seq<Curve>, b: seq<Curve>, yLo: real, yHi: real)
    ensures Filter(a + b, yLo, yHi) == Filter(a, yLo, yHi) + Filter(b, yLo, yHi)
    decreases |a|
  {
    if a == [] {
      assert a + b == b;
    } else {
      assert (a + b)[1..] == a[1..] + b;
      FilterAppend(a[1..], b, yLo, yHi);
    }
  }

  /** A run of in-bounds curves passes the filter unchanged. */
  lemma {:induction false} FilterKeepsAll(a: seq<Curve>, yLo: real, yHi: real)
    requires AllInBounds(a, yLo, yHi)
    ensures Filter(a, yLo, yHi) == a
    decreases |a|
  {
    if a != [] {
      assert forall i :: 0 <= i < |a| - 1 ==> a[1..][i] == a[i + 1];
      FilterKeepsAll(a[1..], yLo, yHi);
    }
  }

  /** Filtering twice removes nothing more. */
  lemma FilterIdempotent(curves: seq<Curve>, yLo: real, yHi: real)
    ensures Filter(Filter(curves, yLo, yHi), yLo, yHi) == Filter(curves, yLo, yHi)
  {
    FilterKeepsAll(Filter(curves, yLo, yHi), yLo, yHi);
  }

  /**
    `deletion(curves, y_interval, n_curves)`: collect the indices of the curves with a y-value
    outside the interval, then delete them from the highest index down. Returns the remaining
    curves and whether anything was deleted.
  */
  method Deletion(curves: seq<Curve>, yLo: real, yHi: real) returns (kept: seq<Curve>, deleted: bool)
    ensures kept == Filter(curves, yLo, yHi)
    ensures deleted <==> exists i :: 0 <= i < |curves| && !InBounds(curves[i], yLo, yHi)
    ensures deleted <==> |kept| < |curves|
  {
    var remove := OutOfBounds(curves, yLo, yHi);
    deleted := |remove| > 0;
    kept := DeleteDescending(curves, remove, yLo, yHi);
    if deleted {
      var j := remove[0];
      assert !InBounds(curves[j], yLo, yHi);
    } else {
      FilterKeepsAll(curves, yLo, yHi);
    }
  }

  /** The first loop of `deletion`: the indices of the out-of-bounds curves, ascending. */
  method OutOfBounds(curves: seq<Curve>, yLo: real, yHi: real) returns (remove: seq<nat>)
    ensures forall k :: 0 <= k < |remove| ==> remove[k] < |curves| && !InBounds(curves[remove[k]], yLo, yHi)
    ensures forall k, l :: 0 <= k < l < |remove| ==> remove[k] < remove[l]
    ensures forall j :: 0 <= j < |curves| && !InBounds(curves[j], yLo, yHi) ==> j in remove
  {
    remove := [];
    var i := 0;
    while i < |curves|
      invariant 0 <= i <= |curves|
      invariant forall k :: 0 <= k < |remove| ==> remove[k] < i && !InBounds(curves[remove[k]], yLo, yHi)
      invariant forall k, l :: 0 <= k < l < |remove| ==> remove[k] < remove[l]
      invariant forall j :: 0 <= j < i && !InBounds(curves[j], yLo, yHi) ==> j in remove
    {
      if !InBounds(curves[i], yLo, yHi) {
        remove := remove + [i];
      }
      i := i + 1;
    }
  }

  /**
    The second loop of `deletion`: delete the listed curves from the highest index down, so that
    earlier indices stay valid. With every out-of-bounds index listed, what remains is the filter.
  */
  method DeleteDescending(curves: seq<Curve>, remove: seq<nat>, yLo: real, yHi: real) returns (kept: seq<Curve>)
    requires forall k :: 0 <= k < |remove| ==> remove[k] < |curves| && !InBounds(curves[remove[k]], yLo, yHi)
    requires forall k, l :: 0 <= k < l < |remove| ==> remove[k] < remove[l]
    requires forall j :: 0 <= j < |curves| && !InBounds(curves[j], yLo, yHi) ==> j in remove
    ensures kept == Filter(curves, yLo, yHi)
  {
    kept := curves;
    var n := |remove|;
    // `bound` is the lowest index deleted so far; from it on, `kept` is already filtered.
    var bound := |curves|;
    assert curves[..bound] == curves && curves[bound..] == [];
    while n > 0
      invariant 0 <= n <= |remove|
      invariant n < |remove| ==> bound == remove[n]
      invariant n == |remove| ==> bound == |curves|
      invariant bound <= |curves|
      invariant FilteredFrom(kept, curves, bound, yLo, yHi)
    {
      var a := remove[n - 1];
      BetweenRemovedKept(curves, remove, n - 1, bound, yLo, yHi);
      DropOne(curves, a, bound, yLo, yHi);
      kept := kept[..a] + kept[a + 1..];
      bound := a;
      n := n - 1;
    }
    if |remove| > 0 {
      LeadingKept(curves, bound, remove, yLo, yHi);
    } else {
      assert curves[..bound] == curves && curves[bound..] == [];
      FilterKeepsAll(curves, yLo, yHi);
    }
  }

  /** `kept` is the batch with everything from index `bound` on already filtered. */
  predicate FilteredFrom(kept: seq<Curve>, curves: seq<Curve>, bound: nat, yLo: real, yHi: real)
    requires bound <= |curves|
  {
    kept == curves[..bound] + Filter(curves[bound..], yLo, yHi)
  }

  /** Before the smallest deleted index every curve is in bounds, so the prefix equals its filter. */
  lemma LeadingKept(curves: seq<Curve>, bound: nat, remove: seq<nat>, yLo: real, yHi: real)
    requires |remove| > 0 && bound == remove[0] && bound <= |curves|
    requires forall k, l :: 0 <= k < l < |remove| ==> remove[k] < remove[l]
    requires forall j :: 0 <= j < |curves| && !InBounds(curves[j], yLo, yHi) ==> j in remove
    ensures FilteredFrom(Filter(curves, yLo, yHi), curves, bound, yLo, yHi)
  {
    forall j | 0 <= j < bound
      ensures InBounds(curves[..bound][j], yLo, yHi)
    {
      forall p | 0 <= p < |remove|
        ensures remove[p] != j
      {
        if p > 0 {
          assert remove[0] < remove[p];
        }
      }
    }
    FilterKeepsAll(curves[..bound], yLo, yHi);
    assert curves == curves[..bound] + curves[bound..];
    FilterAppend(curves[..bound], curves[bound..], yLo, yHi);
  }

  /** Indices strictly between two consecutive deleted indices belong to in-bounds curves. */
  lemma BetweenRemovedKept(curves: seq<Curve>, remove: seq<nat>, k: nat, bound: nat, yLo: real, yHi: real)
    requires k < |remove| && bound <= |curves|
    requires forall j :: 0 <= j < |curves| && !InBounds(curves[j], yLo, yHi) ==> j in remove
    requires forall p, q :: 0 <= p < q < |remove| ==> remove[p] < remove[q]
    requires forall p :: 0 <= p < |remove| ==> remove[p] < |curves|
    requires k + 1 < |remove| ==> bound == remove[k + 1]
    requires k + 1 == |remove| ==> bound == |curves|
    ensures remove[k] < bound
    ensures forall j :: remove[k] < j < bound ==> InBounds(curves[j], yLo, yHi)
  {
    if k + 1 < |remove| {
      assert remove[k] < remove[k + 1];
    }
    forall j | remove[k] < j < bound
      ensures InBounds(curves[j], yLo, yHi)
    {
      forall p | 0 <= p < |remove|
        ensures remove[p] != j
      {
        if p <= k {
          assert remove[p] <= remove[k];
        } else {
          assert remove[k + 1] <= remove[p];
        }
      }
    }
  }

  /** Deleting the out-of-bounds curve at `a` extends the filtered suffix down to `a`. */
  lemma DropOne(curves: seq<Curve>, a: nat, bound: nat, yLo: real, yHi: real)
    requires a < bound <= |curves|
    requires !InBounds(curves[a], yLo, yHi)
    requires forall j :: a < j < bound ==> InBounds(curves[j], yLo, yHi)
    ensures forall kept :: FilteredFrom(kept, curves, bound, yLo, yHi) ==>
              FilteredFrom(kept[..a] + kept[a + 1..], curves, a, yLo, yHi)
  {
    SpliceOut(curves, Filter(curves[bound..], yLo, yHi), a, bound);
    DropFront(curves, a, bound, yLo, yHi);
  }

  lemma SpliceOut<T>(xs: seq<T>, f: seq<T>, a: nat, bound: nat)
    requires a < bound <= |xs|
    ensures (xs[..bound] + f)[..a] + (xs[..bound] + f)[a + 1..] == xs[..a] + (xs[a + 1..bound] + f)
  {
    var kept := xs[..bound] + f;
    assert kept[..a] == xs[..a];
    assert kept[a + 1..] == xs[a + 1..bound] + f;
  }

  lemma DropFront(curves: seq<Curve>, a: nat, bound: nat, yLo: real, yHi: real)
    requires a < bound <= |curves| && !InBounds(curves[a], yLo, yHi)
    requires forall j :: a < j < bound ==> InBounds(curves[j], yLo, yHi)
    ensures Filter(curves[a..], yLo, yHi) == curves[a + 1..bound] + Filter(curves[bound..], yLo, yHi)
  {
    var mid := curves[a + 1..bound];
    assert curves[a..][0] == curves[a];
    assert curves[a..][1..] == mid + curves[bound..];
    FilterAppend(mid, curves[bound..], yLo, yHi);
    forall i | 0 <= i < |mid|
      ensures InBounds(mid[i], yLo, yHi)
    {
      assert mid[i] == curves[a + 1 + i];
    }
    FilterKeepsAll(mid, yLo, yHi);
  }

  // ---------------------------------------------------------------- relabel and flip

  /** Overwrite each point's x with the grid position of the same index (`curves[i][j][0] = steps[j]`). */
  function Relabel(c: Curve, xs: seq<real>): (r: Curve)
    requires |c| <= |xs|
    ensures |r| == |c|
    ensures forall j :: 0 <= j < |r| ==> r[j].y == c[j].y && r[j].x == xs[j]
  {
    seq(|c|, j requires 0 <= j < |c| => Point(xs[j], c[j].y))
  }

  /** Relabelling leaves the y column, and so the bounds check, untouched; doing it twice is doing it once. */
  lemma RelabelKeepsBounds(c: Curve, xs: seq<real>, yLo: real, yHi: real)
    requires |c| <= |xs|
    ensures InBounds(Relabel(c, xs), yLo, yHi) <==> InBounds(c, yLo, yHi)
    ensures Relabel(Relabel(c, xs), xs) == Relabel(c, xs)
  {
    var r := Relabel(c, xs);
    if InBounds(r, yLo, yHi) {
      forall j | 0 <= j < |c|
        ensures yLo <= c[j].y <= yHi
      {
        assert r[j].y == c[j].y;
      }
    }
  }

  /** Reverse the y column of a curve (`curves[i][:, 1][::-1]`), leaving the x column in place. */
  function FlipY(c: Curve): (r: Curve)
    ensures |r| == |c|
    ensures forall j :: 0 <= j < |r| ==> r[j] == Point(c[j].x, c[|c| - 1 - j].y)
  {
    seq(|c|, j requires 0 <= j < |c| => Point(c[j].x, c[|c| - 1 - j].y))
  }

  /** Flipping twice restores the curve, and a flipped curve is in bounds exactly when the original is. */
  lemma FlipYInvolution(c: Curve, yLo: real, yHi: real)
    ensures FlipY(FlipY(c)) == c
    ensures InBounds(FlipY(c), yLo, yHi) <==> InBounds(c, yLo, yHi)
  {
    var r := FlipY(c);
    if InBounds(r, yLo, yHi) {
      forall j | 0 <= j < |c|
        ensures yLo <= c[j].y <= yHi
      {
        assert r[|c| - 1 - j].y == c[j].y;
      }
    }
    if InBounds(c, yLo, yHi) {
      forall j | 0 <= j < |r|
        ensures yLo <= r[j].y <= yHi
      {
        assert r[j].y == c[|c| - 1 - j].y;
      }
    }
  }

  /** `FlipY` on every curve of a batch. */
  function FlipAll(curves: seq<Curve>): (r: seq<Curve>)
    ensures |r| == |curves| && forall i :: 0 <= i < |r| ==> r[i] == FlipY(curves[i])
  {
    seq(|curves|, i requires 0 <= i < |curves| => FlipY(curves[i]))
  }

  /** `Relabel` on every curve of a batch. */
  function RelabelAll(curves: seq<Curve>, xs: seq<real>): (r: seq<Curve>)
    requires forall i :: 0 <= i < |curves| ==> |curves[i]| <= |xs|
    ensures |r| == |curves| && forall i :: 0 <= i < |r| ==> r[i] == Relabel(curves[i], xs)
  {
    seq(|curves|, i requires 0 <= i < |curves| => Relabel(curves[i], xs))
  }
}
