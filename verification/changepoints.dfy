/**
  The change-point samplers: the rejection sampler of the newer variant
  (smurves/smurves.py:577-606) and the without-replacement sampler of the older one
  (smurves.py:226-244), both fed by oracle draws, plus the sort both apply to their result.
*/
module ChangePoints {
  import opened Wrappers
  import opened Grid

  // ---------------------------------------------------------------- order and spacing

  predicate Sorted(s: seq<int>)
  {
    forall i, j :: 0 <= i < j < |s| ==> s[i] <= s[j]
  }

  /** `np.abs(np.diff((a, b)))`. */
  function Dist(a: int, b: int): nat
  {
    if a >= b then a - b else b - a
  }

  /** Any two entries, at different positions, are at least `spacing` apart. */
  predicate WellSpaced(s: seq<int>, spacing: int)
  {
    forall i, j :: 0 <= i < j < |s| ==> Dist(s[i], s[j]) >= spacing
  }

  /** Strictly increasing with every gap at least `spacing`. */
  predicate Increasing(s: seq<int>, spacing: int)
  {
    forall i, j :: 0 <= i < j < |s| ==> s[i] + spacing <= s[j]
  }

  predicate Distinct(s: seq<int>)
  {
    forall i, j :: 0 <= i < j < |s| ==> s[i] != s[j]
  }

  /** The acceptance test of smurves/smurves.py:600-603: far enough from every accepted point. */
  predicate FarFromAll(c: int, pts: seq<int>, spacing: int)
  {
    forall i :: 0 <= i < |pts| ==> Dist(pts[i], c) >= spacing
  }

  // ---------------------------------------------------------------- np.sort

  function Insert(x: int, s: seq<int>): (r: seq<int>)
    requires Sorted(s)
    ensures Sorted(r)
    ensures multiset(r) == multiset(s) + multiset{x}
    ensures |r| == |s| + 1
  {
    if s == [] then [x]
    else if x <= s[0] then
      PrependSorted(x, s);
      [x] + s
    else
      var rest := Insert(x, s[1..]);
      assert s == [s[0]] + s[1..];
      HeadBelowInsert(x, s, rest);
      PrependSorted(s[0], rest);
      [s[0]] + rest
  }

  lemma PrependSorted(h: int, rest: seq<int>)
    requires Sorted(rest)
    requires forall e :: e in rest ==> h <= e
    ensures Sorted([h] + rest)
  {
    var s := [h] + rest;
    forall i, j | 0 <= i < j < |s|
      ensures s[i] <= s[j]
    {
      assert s[j] == rest[j - 1];
      if i > 0 {
        assert s[i] == rest[i - 1];
      } else {
        assert s[j] in rest;
      }
    }
  }

  lemma HeadBelowInsert(x: int, s: seq<int>, rest: seq<int>)
    requires |s| > 0 && Sorted(s) && s[0] < x
    requires multiset(rest) == multiset(s[1..]) + multiset{x}
    ensures forall e :: e in rest ==> s[0] <= e
  {
    forall e | e in rest
      ensures s[0] <= e
    {
      assert e in multiset(rest);
      if e != x {
        assert e in multiset(s[1..]);
        var j :| 0 <= j < |s[1..]| && s[1..][j] == e;
        assert s[j + 1] == e;
      }
    }
  }

  /** `np.sort`: an ascending permutation of its input. */
  function Sort(s: seq<int>): (r: seq<int>)
    ensures Sorted(r)
    ensures multiset(r) == multiset(s)
    ensures |r| == |s|
  {
    if s == [] then []
    else
      assert s == [s[0]] + s[1..];
      Insert(s[0], Sort(s[1..]))
  }

  lemma {:induction false} InsertKeepsSpacing(x: int, s: seq<int>, spacing: int)
    requires Sorted(s) && WellSpaced(s, spacing)
    requires forall e :: e in s ==> Dist(e, x) >= spacing
    ensures WellSpaced(Insert(x, s), spacing)
  {
    if s == [] || x <= s[0] {
      assert forall e :: e in s ==> Dist(x, e) == Dist(e, x);
      HeadKeepsSpacing(x, s, spacing);
    } else {
      var rest := Insert(x, s[1..]);
      assert forall e :: e in s[1..] ==> e in s;
      assert WellSpaced(s[1..], spacing) by {
        forall i, j | 0 <= i < j < |s[1..]|
          ensures Dist(s[1..][i], s[1..][j]) >= spacing
        {
          assert s[1..][i] == s[i + 1] && s[1..][j] == s[j + 1];
        }
      }
      InsertKeepsSpacing(x, s[1..], spacing);
      forall e | e in rest
        ensures Dist(s[0], e) >= spacing
      {
        assert e in multiset(rest);
        if e != x {
          assert e in multiset(s[1..]);
          var j :| 0 <= j < |s[1..]| && s[1..][j] == e;
          assert s[j + 1] == e;
        }
      }
      HeadKeepsSpacing(s[0], rest, spacing);
    }
  }

  lemma HeadKeepsSpacing(h: int, rest: seq<int>, spacing: int)
    requires WellSpaced(rest, spacing)
    requires forall e :: e in rest ==> Dist(h, e) >= spacing
    ensures WellSpaced([h] + rest, spacing)
  {
    var s := [h] + rest;
    forall i, j | 0 <= i < j < |s|
      ensures Dist(s[i], s[j]) >= spacing
    {
      if i == 0 {
        assert s[j] == rest[j - 1];
        assert s[j] in rest;
      } else {
        assert s[i] == rest[i - 1] && s[j] == rest[j - 1];
      }
    }
  }

  /** Sorting keeps every pair of points as far apart as before. */
  lemma {:induction false} SortKeepsSpacing(s: seq<int>, spacing: int)
    requires WellSpaced(s, spacing)
    ensures WellSpaced(Sort(s), spacing)
  {
    if s != [] {
      var tail := s[1..];
      assert WellSpaced(tail, spacing) by {
        forall i, j | 0 <= i < j < |tail|
          ensures Dist(tail[i], tail[j]) >= spacing
        {
          assert tail[i] == s[i + 1] && tail[j] == s[j + 1];
        }
      }
      SortKeepsSpacing(tail, spacing);
      var sorted := Sort(tail);
      forall e | e in sorted
        ensures Dist(e, s[0]) >= spacing
      {
        assert e in multiset(sorted);
        assert e in multiset(tail);
        var j :| 0 <= j < |tail| && tail[j] == e;
        assert s[j + 1] == e;
        assert Dist(s[0], s[j + 1]) >= spacing;
      }
      InsertKeepsSpacing(s[0], sorted, spacing);
    }
  }

  /** A sorted sequence whose entries are pairwise `spacing >= 1` apart increases by at least `spacing`. */
  lemma SortedSpacedIncreases(s: seq<int>, spacing: int)
    requires Sorted(s) && WellSpaced(s, spacing)
    ensures Increasing(s, spacing)
  {
    forall i, j | 0 <= i < j < |s|
      ensures s[i] + spacing <= s[j]
    {
      assert s[i] <= s[j];
      assert Dist(s[i], s[j]) == s[j] - s[i];
    }
  }

  // ---------------------------------------------------------------- the rejection sampler

  /** `sample(range(lo, hi), 1)[0]` for the raw oracle draw `raw`. */
  function Pick(lo: int, hi: int, raw: nat): (c: int)
    requires lo < hi
    ensures lo <= c < hi
  {
    lo + raw % (hi - lo)
  }

  function SeedList(seed: Option<int>): seq<int>
  {
    if seed.Some? then [seed.value] else []
  }

  /**
    Reference definition of the points the rejection loop accepts: walk the candidate draws in order,
    keeping each one that is far from all points kept so far, until `need` more have been kept.
    None when the draws run out first.
  */
  function Accept(pts: seq<int>, need: nat, lo: int, hi: int, spacing: int, cands: seq<nat>): Option<seq<int>>
    requires need == 0 || lo < hi
    decreases |cands|
  {
    if need == 0 then Some(pts)
    else if cands == [] then None
    else
      var c := Pick(lo, hi, cands[0]);
      if FarFromAll(c, pts, spacing) then Accept(pts + [c], need - 1, lo, hi, spacing, cands[1..])
      else Accept(pts, need, lo, hi, spacing, cands[1..])
  }

  /**
    The `while valid_counter < sample_number` loop of smurves/smurves.py:597-604: it keeps exactly
    the points the reference walk keeps, and each kept draw lies in [lo, hi) and keeps the points
    pairwise `spacing` apart.
  */
  method RejectionLoop(seeds: seq<int>, k: nat, lo: int, hi: int, spacing: int, cands: seq<nat>)
    returns (res: Option<seq<int>>)
    requires k == 0 || lo < hi
    requires WellSpaced(seeds, spacing)
    ensures res == Accept(seeds, k, lo, hi, spacing, cands)
    ensures res.Some? ==> |res.value| == |seeds| + k && res.value[..|seeds|] == seeds
    ensures res.Some? ==> forall j :: |seeds| <= j < |res.value| ==> lo <= res.value[j] < hi
    ensures res.Some? ==> WellSpaced(res.value, spacing)
  {
    var accepted := seeds;
    var count := 0;
    var i := 0;
    while count < k
      invariant 0 <= i <= |cands| && count <= k
      invariant |accepted| == |seeds| + count
      invariant accepted[..|seeds|] == seeds
      invariant forall j :: |seeds| <= j < |accepted| ==> lo <= accepted[j] < hi
      invariant WellSpaced(accepted, spacing)
      invariant Accept(accepted, k - count, lo, hi, spacing, cands[i..])
             == Accept(seeds, k, lo, hi, spacing, cands)
      decreases |cands| - i
    {
      if i == |cands| {
        return None;
      }
      assert cands[i..][1..] == cands[i + 1..];
      var c := Pick(lo, hi, cands[i]);
      if FarFromAll(c, accepted, spacing) {
        AppendKeepsSpacing(accepted, c, spacing);
        accepted := accepted + [c];
        count := count + 1;
      }
      i := i + 1;
    }
    res := Some(accepted);
  }

  /**
    smurves/smurves.py:590-606: draw `k` change points from [lo, hi), each at least `spacing` grid
    steps from all points accepted before it (the flat-start `seed` included), then sort them.
    `accepted` lists the points in the order they were accepted.
  */
  method SampleChangePoints(k: nat, lo: int, hi: int, spacing: int, seed: Option<int>, cands: seq<nat>)
    returns (r: Result<seq<int>>, accepted: seq<int>)
    requires spacing >= 1
    ensures k > 0 && lo >= hi ==> r == Err(EmptyRange)
    ensures (k == 0 || lo < hi) ==>
              (r.Ok? <==> Accept(SeedList(seed), k, lo, hi, spacing, cands).Some?)
    ensures (k == 0 || lo < hi) && r.Ok? ==> Accept(SeedList(seed), k, lo, hi, spacing, cands) == Some(accepted)
    ensures (k == 0 || lo < hi) && r.Err? ==> r.error == OracleExhausted
    ensures r.Ok? ==> |accepted| == k + |SeedList(seed)|
    ensures r.Ok? && seed.Some? ==> accepted[0] == seed.value
    ensures r.Ok? ==> forall i :: |SeedList(seed)| <= i < |accepted| ==> lo <= accepted[i] < hi
    ensures r.Ok? ==> WellSpaced(accepted, spacing)
    ensures r.Ok? ==> multiset(r.value) == multiset(accepted) && Increasing(r.value, spacing)
    ensures r.Ok? && seed.Some? && seed.value <= lo ==> |r.value| > 0 && r.value[0] == seed.value
  {
    var seeds := SeedList(seed);
    accepted := seeds;
    if k > 0 && lo >= hi {
      return Err(EmptyRange), accepted;
    }
    var res := RejectionLoop(seeds, k, lo, hi, spacing, cands);
    if res.None? {
      return Err(OracleExhausted), accepted;
    }
    accepted := res.value;
    if seed.Some? {
      assert accepted[0] == accepted[..1][0];
    }
    var sorted := Sort(accepted);
    SortKeepsSpacing(accepted, spacing);
    SortedSpacedIncreases(sorted, spacing);
    if seed.Some? && seed.value <= lo {
      SeedComesFirst(accepted, sorted, seed.value, |seeds|, lo);
    }
    r := Ok(sorted);
  }

  /**
    Sorted change points drawn from [lo, hi) within a grid of n positions, after seeds in [0, n], are
    grid indices, and every one but the last lies inside the grid.
  */
  lemma DrawnInGrid(v: seq<int>, accepted: seq<int>, m: nat, lo: int, hi: int, n: int, spacing: int)
    requires multiset(v) == multiset(accepted) && Increasing(v, spacing) && spacing >= 1
    requires forall i :: 0 <= i < m && i < |accepted| ==> 0 <= accepted[i] <= n
    requires forall i :: m <= i < |accepted| ==> lo <= accepted[i] < hi
    requires 0 <= lo && hi <= n
    ensures forall i :: 0 <= i < |v| ==> 0 <= v[i] <= n
    ensures forall i :: 0 <= i < |v| - 1 ==> v[i] < n
  {
    forall i | 0 <= i < |v|
      ensures 0 <= v[i] <= n
    {
      assert v[i] in multiset(accepted);
      var j :| 0 <= j < |accepted| && accepted[j] == v[i];
    }
    forall i | 0 <= i < |v| - 1
      ensures v[i] < n
    {
      assert v[i] + spacing <= v[|v| - 1];
    }
  }

  lemma AppendKeepsSpacing(pts: seq<int>, c: int, spacing: int)
    requires WellSpaced(pts, spacing) && FarFromAll(c, pts, spacing)
    ensures WellSpaced(pts + [c], spacing)
  {
    var s := pts + [c];
    forall i, j | 0 <= i < j < |s|
      ensures Dist(s[i], s[j]) >= spacing
    {
      if j == |pts| {
        assert s[j] == c && s[i] == pts[i];
      } else {
        assert s[i] == pts[i] && s[j] == pts[j];
      }
    }
  }

  /** The seed, at most every other point, is the smallest and so comes first after sorting. */
  lemma SeedComesFirst(accepted: seq<int>, sorted: seq<int>, seed: int, n: nat, lo: int)
    requires n == 1 && |accepted| >= 1 && accepted[0] == seed && seed <= lo
    requires forall j :: n <= j < |accepted| ==> lo <= accepted[j]
    requires Sorted(sorted) && multiset(sorted) == multiset(accepted)
    ensures |sorted| > 0 && sorted[0] == seed
  {
    assert seed in multiset(accepted);
    assert |sorted| == |multiset(sorted)| == |multiset(accepted)| == |accepted|;
    assert sorted[0] in multiset(accepted);
    var j :| 0 <= j < |accepted| && accepted[j] == sorted[0];
    assert seed in sorted;
    var p :| 0 <= p < |sorted| && sorted[p] == seed;
    assert sorted[0] <= seed;
    assert sorted[0] >= seed;
  }

  // ---------------------------------------------------------------- sampling ranges

  /** `np.random.randint(0, direction_maximum + 1)` for the raw draw `raw`: how many change points. */
  function SampleNumber(dmax: nat, raw: nat): (k: nat)
    ensures k <= dmax
  {
    raw % (dmax + 1)
  }

  lemma SelfRatio(a: real, b: real)
    requires b != 0.0
    ensures a == b ==> a / b == 1.0
  {
  }

  lemma FractionOfInterval(a: real, b: real)
    requires 0.0 <= a <= b && b > 0.0
    ensures 0.0 <= a / b <= 1.0
  {
  }

  /**
    smurves/smurves.py:581-585: the grid index where the flat start ends, `int(N * (sf - x0) / (x1 - x0))`;
    it lies in [0, N] and is N exactly when the flat start runs to the end of the interval.
  */
  function FlatChange(n: nat, x0: real, x1: real, sf: real): (fc: nat)
    requires x0 < x1 && x0 <= sf <= x1
    ensures fc <= n
    ensures sf == x0 ==> fc == 0
    ensures sf == x1 ==> fc == n
  {
    var f := (sf - x0) / (x1 - x0);
    FractionOfInterval(sf - x0, x1 - x0);
    SelfRatio(sf - x0, x1 - x0);
    PyIntOfFraction(n, f);
    PyInt(n as real * f)
  }

  /**
    smurves/smurves.py:579-587: the smallest index a change point may be drawn at; with a flat start it
    is never below the flat-start index.
  */
  function LowerRange(n: nat, cr0: real, flat: Option<int>): (lo: int)
    requires 0.0 <= cr0 <= 1.0
    ensures flat.Some? ==> lo >= flat.value
    ensures flat.None? ==> 0 <= lo <= n
    ensures flat.Some? && 0 <= flat.value <= n ==> 0 <= lo <= n
  {
    PyIntOfFraction(n, cr0);
    var standard := PyInt(n as real * cr0);
    if flat.None? then standard
    else if standard >= flat.value then standard else flat.value
  }

  /** smurves/smurves.py:588 and smurves.py:234: one past the largest index a change point may be drawn at. */
  function HigherRange(n: nat, cr1: real): (hi: int)
    requires 0.0 <= cr1 <= 1.0
    ensures 0 <= hi <= n
  {
    PyIntOfFraction(n, cr1);
    PyInt(n as real * cr1)
  }

  /** smurves.py:231: the older variant's flat-start index, `int(floor(sf / step_size))`, measured from 0. */
  function LegacyFlatChange(sf: real, step: real): (fc: nat)
    requires sf >= 0.0 && step > 0.0
    ensures fc as real <= sf / step < fc as real + 1.0
  {
    DivNonneg(sf, step);
    PyInt(sf / step)
  }

  /** smurves.py:226-233: the older variant shifts the lower bound by the flat-start index. */
  function LegacyLowerRange(n: nat, cr0: real, flat: Option<nat>): (lo: int)
    requires 0.0 <= cr0 <= 1.0
    ensures flat.Some? ==> lo >= flat.value
    ensures 0 <= lo
  {
    MulNonneg(n as real, cr0);
    PyInt(n as real * cr0 + (if flat.Some? then flat.value else 0) as real)
  }

  lemma DivNonneg(a: real, b: real)
    requires a >= 0.0 && b > 0.0
    ensures a / b >= 0.0
  {
  }

  // ---------------------------------------------------------------- drawing without replacement

  /** `range(lo, hi)` as a sequence. */
  function Range(lo: int, hi: int): (r: seq<int>)
    ensures |r| == if hi > lo then hi - lo else 0
    ensures Distinct(r)
    ensures forall x :: x in r <==> lo <= x < hi
  {
    var r := seq(if hi > lo then hi - lo else 0, i => lo + i);
    forall x | lo <= x < hi
      ensures x in r
    {
      assert r[x - lo] == x;
    }
    r
  }

  /**
    `random.sample(pool, len(picks))`: each raw draw picks one of the entries not picked yet.
    The draws come out pairwise distinct and from the pool.
  */
  function SampleWithout(pool: seq<int>, picks: seq<nat>): (r: seq<int>)
    requires |picks| <= |pool| && Distinct(pool)
    ensures |r| == |picks|
    ensures Distinct(r)
    ensures forall x :: x in r ==> x in pool
    decreases |picks|
  {
    if picks == [] then []
    else
      var j := picks[0] % |pool|;
      var rest := pool[..j] + pool[j + 1..];
      RemoveKeepsDistinct(pool, j);
      var tail := SampleWithout(rest, picks[1..]);
      PrependDistinct(pool[j], tail);
      [pool[j]] + tail
  }

  lemma RemoveKeepsDistinct(pool: seq<int>, j: nat)
    requires Distinct(pool) && j < |pool|
    ensures Distinct(pool[..j] + pool[j + 1..])
    ensures forall x :: x in pool[..j] + pool[j + 1..] ==> x in pool && x != pool[j]
  {
    var rest := pool[..j] + pool[j + 1..];
    forall a, b | 0 <= a < b < |rest|
      ensures rest[a] != rest[b]
    {
      var pa := if a < j then a else a + 1;
      var pb := if b < j then b else b + 1;
      assert rest[a] == pool[pa] && rest[b] == pool[pb];
    }
    forall x | x in rest
      ensures x in pool && x != pool[j]
    {
      var a :| 0 <= a < |rest| && rest[a] == x;
      var pa := if a < j then a else a + 1;
      assert rest[a] == pool[pa];
    }
  }

  lemma PrependDistinct(h: int, tail: seq<int>)
    requires Distinct(tail) && h !in tail
    ensures Distinct([h] + tail)
  {
    var s := [h] + tail;
    forall a, b | 0 <= a < b < |s|
      ensures s[a] != s[b]
    {
      assert s[b] == tail[b - 1];
      if a > 0 {
        assert s[a] == tail[a - 1];
      }
    }
  }

  lemma DistinctIsSpaced(s: seq<int>)
    requires Distinct(s)
    ensures WellSpaced(s, 1)
  {
  }

  /**
    smurves.py:234-244: `np.sort(sample(range(lo, hi), k))`, with the flat-start index put in front.
    Python's `sample` refuses to draw more entries than the range holds.
  */
  function LegacyChangePoints(k: nat, lo: int, hi: int, flat: Option<int>, picks: seq<nat>): (r: Result<seq<int>>)
    ensures k > |Range(lo, hi)| ==> r == Err(EmptyRange)
    ensures k <= |Range(lo, hi)| && k <= |picks| ==> r.Ok?
    ensures k <= |Range(lo, hi)| && k > |picks| ==> r == Err(OracleExhausted)
    ensures r.Ok? ==> |r.value| == |SeedList(flat)| + k
    ensures r.Ok? && flat.Some? ==> r.value[0] == flat.value
    ensures r.Ok? ==> Increasing(r.value[|SeedList(flat)|..], 1)
    ensures r.Ok? ==> forall i :: |SeedList(flat)| <= i < |r.value| ==> lo <= r.value[i] < hi
    ensures r.Ok? && (flat.Some? ==> flat.value <= lo) ==> Sorted(r.value)
  {
    var pool := Range(lo, hi);
    if k > |pool| then Err(EmptyRange)
    else if |picks| < k then Err(OracleExhausted)
    else
      var drawn := SampleWithout(pool, picks[..k]);
      LegacyResultFacts(flat, drawn, lo, hi);
      Ok(SeedList(flat) + Sort(drawn))
  }

  lemma LegacyResultFacts(flat: Option<int>, drawn: seq<int>, lo: int, hi: int)
    requires Distinct(drawn) && forall x :: x in drawn ==> lo <= x < hi
    ensures var out := SeedList(flat) + Sort(drawn);
            && |out| == |SeedList(flat)| + |drawn|
            && (flat.Some? ==> out[0] == flat.value)
            && Increasing(out[|SeedList(flat)|..], 1)
            && (forall i :: |SeedList(flat)| <= i < |out| ==> lo <= out[i] < hi)
            && ((flat.Some? ==> flat.value <= lo) ==> Sorted(out))
  {
    var sorted := Sort(drawn);
    SortedDrawFacts(drawn, sorted, lo, hi);
    var out := SeedList(flat) + sorted;
    assert out[|SeedList(flat)|..] == sorted;
    forall i | |SeedList(flat)| <= i < |out|
      ensures lo <= out[i] < hi
    {
      assert out[i] == sorted[i - |SeedList(flat)|];
      assert out[i] in sorted;
    }
    SeedThenSorted(flat, sorted, lo);
  }

  lemma SortedDrawFacts(drawn: seq<int>, sorted: seq<int>, lo: int, hi: int)
    requires Distinct(drawn) && forall x :: x in drawn ==> lo <= x < hi
    requires sorted == Sort(drawn)
    ensures Increasing(sorted, 1)
    ensures forall x :: x in sorted ==> lo <= x < hi
  {
    DistinctIsSpaced(drawn);
    SortKeepsSpacing(drawn, 1);
    SortedSpacedIncreases(sorted, 1);
    forall x | x in sorted
      ensures lo <= x < hi
    {
      assert x in multiset(sorted);
      assert x in multiset(drawn);
      assert x in drawn;
    }
  }

  lemma SeedThenSorted(flat: Option<int>, sorted: seq<int>, lo: int)
    requires Sorted(sorted) && forall x :: x in sorted ==> lo <= x
    ensures flat.Some? ==> (SeedList(flat) + sorted)[0] == flat.value
    ensures (flat.Some? ==> flat.value <= lo) ==> Sorted(SeedList(flat) + sorted)
  {
    var out := SeedList(flat) + sorted;
    if flat.Some? && flat.value <= lo {
      assert out == [flat.value] + sorted;
      forall i, j | 0 <= i < j < |out|
        ensures out[i] <= out[j]
      {
        assert out[j] == sorted[j - 1];
        if i > 0 {
          assert out[i] == sorted[i - 1];
        } else {
          assert out[0] == flat.value;
          assert sorted[j - 1] in sorted;
          assert lo <= sorted[j - 1];
        }
      }
    }
  }
}
