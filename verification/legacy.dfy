/**
  The older generator (smurves.py): it over-generates a fixed multiple of the request, draws change
  points without replacement behind the flat-start index, flies later segments with a time offset,
  and at the end relabels, filters, flips and truncates, so it may return fewer curves than asked.
*/
module Legacy {
  import opened Wrappers
  import opened Grid
  import opened Kinematics
  import opened Forces
  import opened ChangePoints
  import opened Stitching
  import opened Curves
  import opened Generator

  /**
    The arguments of the older `surgebinder` after its default `change_range` [0.1, 0.9]. A fixed
    `convergence` point may lie anywhere; `logGrid` is the log-scale grid when `log_scale` is set.
  */
  datatype LegacyConfig = LegacyConfig(request: nat, nMeasure: nat, x0: real, x1: real, yLo: real, yHi: real,
                                       convergence: Option<Point>, dmax: nat, cr0: real, cr1: real,
                                       truncNorm: bool, randomLaunch: bool, rightConvergence: bool,
                                       startForce: Option<real>, logGrid: Option<seq<real>>)

  /**
    What the older variant needs to stay within the model: a grid of at least two positions on an
    interval of positive width whose right end is not 0 (the first force bound divides by the square
    of that end), a given convergence point away from that right end (a first segment of one grid
    position leaves the next force bound dividing by a zero rest time), change percentiles in [0, 1], a non-negative flat-start end and a
    log grid of the grid's length. The source itself validates none of these.
  */
  predicate LegacyValid(cfg: LegacyConfig)
  {
    && cfg.nMeasure >= 2 && cfg.x0 < cfg.x1 && cfg.x1 != 0.0
    && (cfg.convergence.Some? ==> cfg.convergence.value.x != cfg.x1)
    && 0.0 <= cfg.cr0 <= 1.0 && 0.0 <= cfg.cr1 <= 1.0
    && (cfg.startForce.Some? ==> cfg.startForce.value >= 0.0)
    && (cfg.logGrid.Some? ==> |cfg.logGrid.value| == cfg.nMeasure)
  }

  /**
    smurves.py:192-197: the number of curves generated, `orig_request * max(1, error_factor)` with an
    error factor of twice the direction maximum, doubled again for random launches.
  */
  function OverGeneration(request: nat, dmax: nat, randomLaunch: bool): (total: nat)
    ensures total >= request
    ensures dmax == 0 ==> total == request
    ensures dmax > 0 ==> total == request * (2 * dmax * (if randomLaunch then 2 else 1))
  {
    var factor := 2 * dmax * (if randomLaunch then 2 else 1);
    request * (if factor >= 1 then factor else 1)
  }

  /** smurves.py:185-189: the linear grid and its step. */
  function LegacySteps(cfg: LegacyConfig): (steps: seq<real>)
    requires LegacyValid(cfg)
    ensures |steps| == cfg.nMeasure && steps[0] == cfg.x0
  {
    LinearGridShape(cfg.x0, cfg.x1, cfg.nMeasure);
    LinearGrid(cfg.x0, cfg.x1, cfg.nMeasure)
  }

  function LegacyStep(cfg: LegacyConfig): (step: real)
    requires LegacyValid(cfg)
    ensures step > 0.0
  {
    StepSize(cfg.x0, cfg.x1, cfg.nMeasure)
  }

  /** smurves.py:219-221: the fixed convergence point, or one drawn uniformly on the left edge. */
  function LegacyConvergence(cfg: LegacyConfig, d: CurveDraws): (p: Point)
    ensures cfg.convergence.Some? ==> p == cfg.convergence.value
    ensures cfg.convergence.None? ==> p.x == cfg.x0 && Between(p.y, cfg.yLo, cfg.yHi)
  {
    if cfg.convergence.Some? then cfg.convergence.value else Point(cfg.x0, Uniform(cfg.yLo, cfg.yHi, d.yConv))
  }

  /**
    The loop's fixed state for one curve: after the first segment, `horizontal_start` is the
    convergence point's x (smurves.py:311).
  */
  function LegacySetting(cfg: LegacyConfig, conv: Point): (st: Setting)
    requires LegacyValid(cfg)
    ensures st.steps == LegacySteps(cfg) && st.variant == Legacy(cfg.truncNorm) && st.hsLater == conv.x
  {
    Setting(Legacy(cfg.truncNorm), LegacySteps(cfg), LegacyStep(cfg), cfg.yLo, cfg.yHi, cfg.x1, conv.x)
  }

  /** smurves.py:231: the flat-start index, when a flat start is requested. */
  function LegacyFlat(cfg: LegacyConfig): (flat: Option<nat>)
    requires LegacyValid(cfg)
    ensures flat.Some? <==> cfg.startForce.Some?
  {
    if cfg.startForce.Some? then Some(LegacyFlatChange(cfg.startForce.value, LegacyStep(cfg))) else None
  }

  function LegacyLower(cfg: LegacyConfig): (lo: int)
    requires LegacyValid(cfg)
    ensures lo >= 0 && (cfg.startForce.Some? ==> lo >= LegacyFlat(cfg).value)
  {
    LegacyLowerRange(cfg.nMeasure, cfg.cr0, LegacyFlat(cfg))
  }

  function LegacyHigher(cfg: LegacyConfig): (hi: int)
    requires LegacyValid(cfg)
    ensures 0 <= hi <= cfg.nMeasure
  {
    HigherRange(cfg.nMeasure, cfg.cr1)
  }

  function SeedOf(flat: Option<nat>): Option<int>
  {
    if flat.Some? then Some(flat.value as int) else None
  }

  /**
    smurves.py:226-244: `k` change points drawn from [lo, hi) behind the optional flat index, as
    grid indices the segment loop accepts. Fails as `sample` does when asked for more points than
    the range holds, or when the pick draws run out.
  */
  function GridChangePoints(k: nat, lo: int, hi: int, flat: Option<nat>, picks: seq<nat>, n: nat): (r: Result<seq<nat>>)
    requires n >= 1 && 0 <= lo && hi <= n && (flat.Some? ==> flat.value <= lo)
    ensures r.Err? <==> k > |Range(lo, hi)| || k > |picks|
    ensures r.Err? ==> r.error == if k > |Range(lo, hi)| then EmptyRange else OracleExhausted
    ensures r.Ok? ==> ValidCps(r.value, 0, n)
    ensures r.Ok? ==> |r.value| == k + (if flat.Some? then 1 else 0)
    ensures r.Ok? && flat.Some? ==> r.value[0] == flat.value
    ensures r.Ok? ==> var m := if flat.Some? then 1 else 0;
                      && Increasing(r.value[m..], 1)
                      && forall i :: m <= i < |r.value| ==> lo <= r.value[i] < hi
  {
    var drawn := LegacyChangePoints(k, lo, hi, SeedOf(flat), picks);
    if drawn.Err? then Err(drawn.error)
    else
      GridFacts(drawn.value, k, lo, hi, flat, picks, n);
      Ok(AsIndices(drawn.value))
  }

  /** What a successful draw of `LegacyChangePoints` says about its entries as grid indices. */
  lemma GridFacts(v: seq<int>, k: nat, lo: int, hi: int, flat: Option<nat>, picks: seq<nat>, n: nat)
    requires n >= 1 && 0 <= lo && hi <= n && (flat.Some? ==> flat.value <= lo)
    requires LegacyChangePoints(k, lo, hi, SeedOf(flat), picks) == Ok(v)
    ensures forall i :: 0 <= i < |v| ==> v[i] >= 0
    ensures var cps := AsIndices(v);
            && ValidCps(cps, 0, n)
            && |cps| == k + (if flat.Some? then 1 else 0)
            && (flat.Some? ==> cps[0] == flat.value)
            && var m := if flat.Some? then 1 else 0;
               && Increasing(cps[m..], 1)
               && forall i :: m <= i < |cps| ==> lo <= cps[i] < hi
  {
    var seed := SeedOf(flat);
    LegacyIndices(v, |SeedList(seed)|, lo, hi, n);
    var cps := AsIndices(v);
    assert cps == v;
  }

  /** The change points of one curve of the older variant. */
  function LegacyCps(cfg: LegacyConfig, d: CurveDraws): (r: Result<seq<nat>>)
    requires LegacyValid(cfg)
    ensures r.Ok? ==> ValidCps(r.value, 0, cfg.nMeasure)
  {
    GridChangePoints(SampleNumber(cfg.dmax, d.countRaw), LegacyLower(cfg), LegacyHigher(cfg), LegacyFlat(cfg),
                     d.candidates, cfg.nMeasure)
  }

  /**
    The flat index followed by draws from [lo, hi) with lo at or above it: all are grid indices,
    and only the last may lie past the grid, since a flat index there leaves no room for draws.
  */
  lemma LegacyIndices(v: seq<int>, m: nat, lo: int, hi: int, n: nat)
    requires m <= 1 && m <= |v| && 0 <= lo && hi <= n && Sorted(v)
    requires m == 1 ==> 0 <= v[0] <= lo
    requires forall i :: m <= i < |v| ==> lo <= v[i] < hi
    ensures forall i :: 0 <= i < |v| ==> v[i] >= 0
    ensures forall i :: 0 <= i < |v| - 1 ==> v[i] < n
  {
    forall i | 0 <= i < |v| - 1
      ensures v[i] < n
    {
      assert v[i] <= v[i + 1] < hi;
    }
  }

  /** The carry the older variant's segment loop of one curve starts from. */
  function LegacyStart(cfg: LegacyConfig, d: CurveDraws): (c: Carry)
    requires LegacyValid(cfg)
    ensures c.counter == 0 && c.start == LegacyConvergence(cfg, d) && c.launch == d.launch
    ensures c.flat == cfg.startForce.Some?
  {
    var conv := LegacyConvergence(cfg, d);
    Initial(LegacySetting(cfg, conv), d.forces, conv, d.launch, Direction(d.up), cfg.startForce.Some?)
  }

  /**
    One pass of the older `for curve in range(0, n_curves)` body (smurves.py:217-334): change points,
    segment loop, assembly. The curve has one point per grid position, starts exactly at the
    convergence point, and lies on the grid when that point is at the grid's left end.
  */
  function LegacyCurve(cfg: LegacyConfig, d: CurveDraws): (r: Result<Curve>)
    requires LegacyValid(cfg) && d.launch.vx > 0.0
    ensures r.Err? <==> LegacyCps(cfg, d).Err?
    ensures r.Err? ==> r.error == LegacyCps(cfg, d).error
    ensures r.Ok? ==> |r.value| == cfg.nMeasure && r.value[0] == LegacyConvergence(cfg, d)
    ensures r.Ok? && LegacyConvergence(cfg, d).x == cfg.x0 ==> OnGridFrom(r.value, LegacySteps(cfg), 0)
  {
    var cps := LegacyCps(cfg, d);
    if cps.Err? then Err(cps.error)
    else
      var conv := LegacyConvergence(cfg, d);
      var st := LegacySetting(cfg, conv);
      var c := LegacyStart(cfg, d);
      CurveShape(cfg, st, d.forces, c, cps.value);
      Ok(CurveOf(st, d.forces, c, cps.value))
  }

  lemma CurveShape(cfg: LegacyConfig, st: Setting, draws: nat -> ForceDraw, c: Carry, cps: seq<nat>)
    requires LegacyValid(cfg) && st.steps == LegacySteps(cfg)
    requires c.launch.vx > 0.0 && c.counter == 0 && ValidCps(cps, 0, |st.steps|)
    ensures |CurveOf(st, draws, c, cps)| == cfg.nMeasure
    ensures c.start.x == cfg.x0 ==> OnGridFrom(CurveOf(st, draws, c, cps), st.steps, 0)
    ensures CurveOf(st, draws, c, cps)[0] == c.start
  {
    CurveLength(st, draws, c, cps);
    CurveStartsAtStart(st, draws, c, cps);
    if c.start.x == cfg.x0 {
      CurveOnGrid(st, draws, c, cps);
    }
  }

  /**
    Whether one curve's change points can be drawn: `sample` needs as many positions in the range
    as points asked for, and the model as many pick draws.
  */
  predicate Drawable(cfg: LegacyConfig, d: CurveDraws)
    requires LegacyValid(cfg)
  {
    var k := SampleNumber(cfg.dmax, d.countRaw);
    k <= |Range(LegacyLower(cfg), LegacyHigher(cfg))| && k <= |d.candidates|
  }

  /** Whether the change points of each of the first `n` draws can be drawn. */
  predicate AllDrawable(cfg: LegacyConfig, oracle: seq<CurveDraws>, n: nat)
    requires LegacyValid(cfg)
  {
    n <= |oracle| && forall i :: 0 <= i < n ==> Drawable(cfg, oracle[i])
  }

  /** Why the change points of a curve that is not drawable cannot be drawn. */
  function LegacyRefusal(cfg: LegacyConfig, d: CurveDraws): Failure
    requires LegacyValid(cfg)
  {
    if SampleNumber(cfg.dmax, d.countRaw) > |Range(LegacyLower(cfg), LegacyHigher(cfg))| then EmptyRange
    else OracleExhausted
  }

  /**
    A batch that stops before the draws at index `at`: they are missing (`OracleExhausted`), or
    their change points cannot be drawn, for the reason `e`.
  */
  predicate LegacyStoppedAt(cfg: LegacyConfig, oracle: seq<CurveDraws>, at: nat, e: Failure)
    requires LegacyValid(cfg)
  {
    || (at >= |oracle| && e == OracleExhausted)
    || (at < |oracle| && !Drawable(cfg, oracle[at]) && e == LegacyRefusal(cfg, oracle[at]))
  }

  /** One more drawable curve draw extends a drawable batch. */
  lemma DrawableStep(cfg: LegacyConfig, oracle: seq<CurveDraws>, n: nat)
    requires LegacyValid(cfg) && AllDrawable(cfg, oracle, n) && n < |oracle| && Drawable(cfg, oracle[n])
    ensures AllDrawable(cfg, oracle, n + 1)
  {
  }

  /** Appending a curve of length n to curves of length n keeps every length n. */
  lemma AppendLengths(curves: seq<Curve>, c: Curve, n: nat)
    requires |c| == n && forall j :: 0 <= j < |curves| ==> |curves[j]| == n
    ensures forall j :: 0 <= j < |curves + [c]| ==> |(curves + [c])[j]| == n
  {
  }

  /** One curve of the batch: it fails exactly when its change points cannot be drawn. */
  method LegacyMake(cfg: LegacyConfig, d: CurveDraws) returns (r: Result<Curve>)
    requires LegacyValid(cfg) && LaunchFits(cfg.randomLaunch, d)
    ensures r.Err? <==> !Drawable(cfg, d)
    ensures r.Err? ==> r.error == LegacyRefusal(cfg, d)
    ensures r == LegacyCurve(cfg, d)
    ensures r.Ok? ==> |r.value| == cfg.nMeasure
  {
    r := LegacyCurve(cfg, d);
  }

  /**
    smurves.py:217: the first `n` curves of the over-generated batch, each from its own draws; the
    first curve whose draws are missing or whose change points cannot be drawn ends the batch, and
    `made` then holds the curves before it. Each curve has one point per grid position.
  */
  method LegacyBatch(cfg: LegacyConfig, oracle: seq<CurveDraws>, n: nat)
    returns (r: Result<seq<Curve>>, made: seq<Curve>)
    requires LegacyValid(cfg) && AllFit(cfg.randomLaunch, oracle)
    ensures r.Ok? <==> AllDrawable(cfg, oracle, n)
    ensures r.Ok? ==> r.value == made && |made| == n
    ensures forall i :: 0 <= i < |made| ==> |made[i]| == cfg.nMeasure
    ensures r.Err? ==> |made| < n && AllDrawable(cfg, oracle, |made|)
    ensures r.Err? ==> LegacyStoppedAt(cfg, oracle, |made|, r.error)
  {
    made := [];
    var i := 0;
    while i < n
      invariant 0 <= i <= n && |made| == i
      invariant AllDrawable(cfg, oracle, i)
      invariant forall j :: 0 <= j < i ==> |made[j]| == cfg.nMeasure
    {
      if i == |oracle| {
        return Err(OracleExhausted), made;
      }
      var one := LegacyMake(cfg, oracle[i]);
      if one.Err? {
        return Err(one.error), made;
      }
      DrawableStep(cfg, oracle, i);
      AppendLengths(made, one.value, cfg.nMeasure);
      made := made + [one.value];
      i := i + 1;
    }
    r := Ok(made);
  }

  /** smurves.py:345-352: overwrite the x column with the log grid when `log_scale` is set. */
  function LegacyRelabel(cfg: LegacyConfig, curves: seq<Curve>): (out: seq<Curve>)
    requires LegacyValid(cfg) && forall i :: 0 <= i < |curves| ==> |curves[i]| == cfg.nMeasure
    ensures |out| == |curves|
    ensures forall i :: 0 <= i < |out| ==> |out[i]| == cfg.nMeasure
    ensures cfg.logGrid.Some? ==> forall i :: 0 <= i < |out| ==> out[i] == Relabel(curves[i], cfg.logGrid.value)
    ensures cfg.logGrid.None? ==> out == curves
  {
    if cfg.logGrid.Some? then RelabelAll(curves, cfg.logGrid.value) else curves
  }

  /** smurves.py:362-364: reverse every y column for right-side convergence. */
  function LegacyFlip(cfg: LegacyConfig, curves: seq<Curve>): (out: seq<Curve>)
    ensures |out| == |curves|
    ensures cfg.rightConvergence ==> forall i :: 0 <= i < |out| ==> out[i] == FlipY(curves[i])
    ensures !cfg.rightConvergence ==> out == curves
  {
    if cfg.rightConvergence then FlipAll(curves) else curves
  }

  /**
    The older `surgebinder` (smurves.py:190-368): generate the over-generated batch, relabel it, drop
    every curve that leaves the y-interval (keeping order), flip, and keep the first `orig_request`.
    The result has at most the requested number of curves, fewer when too many were dropped, all of
    them in bounds and one point per grid position. On failure `made` holds the curves made before
    the first one that could not be.
  */
  method LegacySurgebinder(cfg: LegacyConfig, oracle: seq<CurveDraws>) returns (r: Result<seq<Curve>>, made: seq<Curve>)
    requires LegacyValid(cfg) && AllFit(cfg.randomLaunch, oracle)
    ensures var total := OverGeneration(cfg.request, cfg.dmax, cfg.randomLaunch);
            r.Ok? <==> AllDrawable(cfg, oracle, total)
    ensures r.Ok? ==> |made| == OverGeneration(cfg.request, cfg.dmax, cfg.randomLaunch)
    ensures forall i :: 0 <= i < |made| ==> |made[i]| == cfg.nMeasure
    ensures r.Err? ==> AllDrawable(cfg, oracle, |made|) && LegacyStoppedAt(cfg, oracle, |made|, r.error)
    ensures r.Ok? ==> var kept := Filter(LegacyRelabel(cfg, made), cfg.yLo, cfg.yHi);
                      |r.value| == if |kept| < cfg.request then |kept| else cfg.request
    ensures r.Ok? ==> |r.value| <= cfg.request
    ensures r.Ok? ==> forall i :: 0 <= i < |r.value| ==> |r.value[i]| == cfg.nMeasure && InBounds(r.value[i], cfg.yLo, cfg.yHi)
    ensures r.Ok? ==> r.value == LegacyFlip(cfg, Filter(LegacyRelabel(cfg, made), cfg.yLo, cfg.yHi))[..|r.value|]
  {
    var total := OverGeneration(cfg.request, cfg.dmax, cfg.randomLaunch);
    var batch;
    batch, made := LegacyBatch(cfg, oracle, total);
    if batch.Err? {
      return Err(batch.error), made;
    }
    var relabelled := LegacyRelabel(cfg, made);
    var kept, deleted := Deletion(relabelled, cfg.yLo, cfg.yHi);
    FilterMembers(relabelled, cfg.yLo, cfg.yHi);
    assert forall i :: 0 <= i < |kept| ==> kept[i] in relabelled;
    var flipped := LegacyFlip(cfg, kept);
    FlipKeeps(cfg, kept);
    var count := if |flipped| < cfg.request then |flipped| else cfg.request;
    r := Ok(flipped[..count]);
  }

  /** Flipping keeps every curve's length and, on in-bounds curves, keeps them in bounds. */
  lemma FlipKeeps(cfg: LegacyConfig, kept: seq<Curve>)
    requires AllInBounds(kept, cfg.yLo, cfg.yHi)
    ensures var out := LegacyFlip(cfg, kept);
            forall i :: 0 <= i < |out| ==> |out[i]| == |kept[i]| && InBounds(out[i], cfg.yLo, cfg.yHi)
  {
    var out := LegacyFlip(cfg, kept);
    forall i | 0 <= i < |out|
      ensures |out[i]| == |kept[i]| && InBounds(out[i], cfg.yLo, cfg.yHi)
    {
      if cfg.rightConvergence {
        FlipYInvolution(kept[i], cfg.yLo, cfg.yHi);
      }
    }
  }
}
