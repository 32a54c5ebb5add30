/**
  The newer generator (smurves/smurves.py): `surgebinder` builds the grid, asks `generator` for the
  requested number of curves, tops the batch up one curve at a time until deletions are made good,
  then relabels the x column for a log grid and flips the y column for right-side convergence.
*/
module Generator {
  import opened Wrappers
  import opened Grid
  import opened Kinematics
  import opened Forces
  import opened ChangePoints
  import opened Stitching
  import opened Curves

  /**
    The arguments of `surgebinder` after its defaults are applied (`change_range` [0.1, 0.9],
    `change_spacing` 1). `convergence` is the y of a fixed convergence point, whose x is the left
    end of the x-interval; `logGrid` is the log-scale grid when `log_scale` is set.
  */
  datatype Config = Config(request: nat, nMeasure: nat, x0: real, x1: real, yLo: real, yHi: real,
                           convergence: Option<real>, dmax: nat, cr0: real, cr1: real, spacing: nat,
                           ratio: Option<real>, startForce: Option<real>, randomLaunch: bool,
                           rightConvergence: bool, logGrid: Option<seq<real>>)

  /**
    The argument rules of `check` (smurves/smurves.py:1022-1102) that the core relies on, plus a
    grid of at least two positions on an interval of positive width whose right end is not 0 (the
    first force bound divides by the square of that end). The bound of `change_spacing`
    by `n_measure / direction_maximum` is not needed: a spacing the range cannot satisfy only keeps
    the rejection loop drawing, which ends here in `OracleExhausted`.
  */
  predicate Valid(cfg: Config)
  {
    && cfg.request >= 1 && cfg.nMeasure >= 2 && cfg.x0 < cfg.x1 && cfg.x1 != 0.0
    && 0.0 <= cfg.cr0 <= 1.0 && 0.0 <= cfg.cr1 <= 1.0
    && cfg.spacing >= 1
    && (cfg.ratio.Some? ==> cfg.ratio.value > 0.0)
    && (cfg.startForce.Some? ==> cfg.x0 <= cfg.startForce.value <= cfg.x1)
    && (cfg.logGrid.Some? ==> |cfg.logGrid.value| == cfg.nMeasure)
  }

  /**
    The random draws one curve consumes, in the order the loop body makes them: the convergence
    height, the number of change points, the change-point candidates, the initial direction, the
    launch (velocity 1.0 split by the launch angle) and the stream of force draws.
  */
  datatype CurveDraws = CurveDraws(yConv: Unit, countRaw: nat, candidates: seq<nat>, up: bool,
                                   launch: Launch, forces: nat -> ForceDraw)

  /**
    The launch is the unit velocity at an angle strictly between -90 and 90 degrees, and is the
    horizontal unit launch when `random_launch` is off.
  */
  predicate LaunchFits(randomLaunch: bool, d: CurveDraws)
  {
    && d.launch.vx > 0.0 && SpeedSq(d.launch) == 1.0
    && (!randomLaunch ==> d.launch == Launch(1.0, 0.0))
  }

  predicate AllFit(randomLaunch: bool, oracle: seq<CurveDraws>)
  {
    forall i :: 0 <= i < |oracle| ==> LaunchFits(randomLaunch, oracle[i])
  }

  /** `steps`: the linear grid of smurves/smurves.py:214-217. */
  function Steps(cfg: Config): (steps: seq<real>)
    requires Valid(cfg)
    ensures |steps| == cfg.nMeasure && steps[0] == cfg.x0 && steps[cfg.nMeasure - 1] == cfg.x1
  {
    LinearGridShape(cfg.x0, cfg.x1, cfg.nMeasure);
    LinearGrid(cfg.x0, cfg.x1, cfg.nMeasure)
  }

  function SettingOf(cfg: Config): (st: Setting)
    requires Valid(cfg)
    ensures st.steps == Steps(cfg) && st.variant == Current(cfg.ratio) && st.xEnd == cfg.x1
  {
    Setting(Current(cfg.ratio), Steps(cfg), StepSize(cfg.x0, cfg.x1, cfg.nMeasure), cfg.yLo, cfg.yHi, cfg.x1, 0.0)
  }

  /** The convergence point: the fixed one, or one drawn uniformly on the left edge (smurves/smurves.py:567-569). */
  function Convergence(cfg: Config, d: CurveDraws): (p: Point)
    ensures p.x == cfg.x0
    ensures cfg.convergence.Some? ==> p.y == cfg.convergence.value
    ensures cfg.convergence.None? ==> Between(p.y, cfg.yLo, cfg.yHi)
  {
    Point(cfg.x0, if cfg.convergence.Some? then cfg.convergence.value else Uniform(cfg.yLo, cfg.yHi, d.yConv))
  }

  /** `np.random.choice([-1, 1])`. */
  function Direction(up: bool): (dir: int)
    ensures dir == 1 || dir == -1
  {
    if up then 1 else -1
  }

  /** The carry the segment loop of one curve starts from. */
  function Start(cfg: Config, d: CurveDraws): (c: Carry)
    requires Valid(cfg)
    ensures c.counter == 0 && c.start == Convergence(cfg, d) && c.launch == d.launch
    ensures c.flat == cfg.startForce.Some?
  {
    Initial(SettingOf(cfg), d.forces, Convergence(cfg, d), d.launch, Direction(d.up), cfg.startForce.Some?)
  }

  /** The flat-start index, when a flat start is requested (smurves/smurves.py:581-585). */
  function FlatSeed(cfg: Config): (seed: Option<int>)
    requires Valid(cfg)
    ensures seed.Some? <==> cfg.startForce.Some?
    ensures seed.Some? ==> 0 <= seed.value <= cfg.nMeasure
  {
    if cfg.startForce.Some? then Some(FlatChange(cfg.nMeasure, cfg.x0, cfg.x1, cfg.startForce.value) as int)
    else None
  }

  function Lower(cfg: Config): (lo: int)
    requires Valid(cfg)
    ensures 0 <= lo <= cfg.nMeasure
    ensures cfg.startForce.Some? ==> lo >= FlatSeed(cfg).value
  {
    LowerRange(cfg.nMeasure, cfg.cr0, FlatSeed(cfg))
  }

  function Higher(cfg: Config): (hi: int)
    requires Valid(cfg)
    ensures 0 <= hi <= cfg.nMeasure
  {
    HigherRange(cfg.nMeasure, cfg.cr1)
  }

  /** A curve is what the segment loop makes from the curve's draws and the change points `cps`. */
  predicate Produces(cfg: Config, d: CurveDraws, cps: seq<nat>, c: Curve)
    requires Valid(cfg)
  {
    && d.launch.vx > 0.0 && ValidCps(cps, 0, cfg.nMeasure)
    && c == CurveOf(SettingOf(cfg), d.forces, Start(cfg, d), cps)
  }

  /** Integer indices known to be non-negative, as grid indices. */
  function AsIndices(v: seq<int>): (r: seq<nat>)
    requires forall i :: 0 <= i < |v| ==> v[i] >= 0
    ensures |r| == |v| && forall i :: 0 <= i < |r| ==> r[i] == v[i]
  {
    seq(|v|, i requires 0 <= i < |v| => v[i] as nat)
  }

  /**
    The change points of one curve can be drawn: the range is not empty (or nothing is to be drawn)
    and the candidate draws hold enough accepted points.
  */
  predicate CurveDrawable(cfg: Config, d: CurveDraws)
    requires Valid(cfg)
  {
    var k := SampleNumber(cfg.dmax, d.countRaw);
    && !(k > 0 && Lower(cfg) >= Higher(cfg))
    && Accept(SeedList(FlatSeed(cfg)), k, Lower(cfg), Higher(cfg), cfg.spacing, d.candidates).Some?
  }

  /** Why the change points of a curve that is not drawable cannot be drawn. */
  function Refusal(cfg: Config, d: CurveDraws): Failure
    requires Valid(cfg)
  {
    if SampleNumber(cfg.dmax, d.countRaw) > 0 && Lower(cfg) >= Higher(cfg) then EmptyRange else OracleExhausted
  }

  /**
    `cps` are change points of the curve drawn from `d`: grid indices, increasing by at least
    `change_spacing`, the flat-start index first when requested, every other one in
    [lower_range, higher_range), `sample_number` of them besides the flat-start index.
  */
  predicate ChangePointsFor(cfg: Config, d: CurveDraws, cps: seq<nat>)
    requires Valid(cfg)
  {
    && ValidCps(cps, 0, cfg.nMeasure) && Increasing(cps, cfg.spacing)
    && |cps| == SampleNumber(cfg.dmax, d.countRaw) + (if cfg.startForce.Some? then 1 else 0)
    && (cfg.startForce.Some? ==> cps[0] == FlatSeed(cfg).value)
    && (forall i :: 0 <= i < |cps| ==>
          (cfg.startForce.Some? && cps[i] == FlatSeed(cfg).value) || Lower(cfg) <= cps[i] < Higher(cfg))
  }

  /**
    The change points of one curve (smurves/smurves.py:575-606): the flat-start index when a flat
    start is requested, then `sample_number` accepted draws from [lower_range, higher_range), sorted.
    Fails as `sample` does on an empty range, or when the candidate draws run out.
  */
  method DrawChangePoints(cfg: Config, d: CurveDraws) returns (r: Result<seq<nat>>)
    requires Valid(cfg)
    ensures r.Ok? ==> ChangePointsFor(cfg, d, r.value)
    ensures var k := SampleNumber(cfg.dmax, d.countRaw);
            r.Err? <==> (k > 0 && Lower(cfg) >= Higher(cfg))
                        || Accept(SeedList(FlatSeed(cfg)), k, Lower(cfg), Higher(cfg), cfg.spacing, d.candidates).None?
    ensures r.Err? <==> !CurveDrawable(cfg, d)
    ensures SampleNumber(cfg.dmax, d.countRaw) > 0 && Lower(cfg) >= Higher(cfg) ==> r == Err(EmptyRange)
    ensures r.Err? ==> r.error == Refusal(cfg, d)
  {
    var k := SampleNumber(cfg.dmax, d.countRaw);
    var lo, hi := Lower(cfg), Higher(cfg);
    var seed := FlatSeed(cfg);
    var drawn, accepted := SampleChangePoints(k, lo, hi, cfg.spacing, seed, d.candidates);
    if drawn.Err? {
      return Err(drawn.error);
    }
    var v := drawn.value;
    DrawnInGrid(v, accepted, |SeedList(seed)|, lo, hi, cfg.nMeasure, cfg.spacing);
    DrawnFrom(v, accepted, seed, lo, hi);
    var cps := AsIndices(v);
    assert cps == v;
    r := Ok(cps);
  }

  /** Every sorted change point is the seed or one of the draws from [lo, hi). */
  lemma DrawnFrom(v: seq<int>, accepted: seq<int>, seed: Option<int>, lo: int, hi: int)
    requires multiset(v) == multiset(accepted)
    requires |accepted| >= |SeedList(seed)| && accepted[..|SeedList(seed)|] == SeedList(seed)
    requires forall i :: |SeedList(seed)| <= i < |accepted| ==> lo <= accepted[i] < hi
    ensures forall i :: 0 <= i < |v| ==> (seed.Some? && v[i] == seed.value) || lo <= v[i] < hi
  {
    forall i | 0 <= i < |v|
      ensures (seed.Some? && v[i] == seed.value) || lo <= v[i] < hi
    {
      assert v[i] in multiset(accepted);
      var j :| 0 <= j < |accepted| && accepted[j] == v[i];
      if j < |SeedList(seed)| {
        assert accepted[..|SeedList(seed)|][j] == accepted[j];
      }
    }
  }

  /**
    One pass of the `for curve in range(0, n_curves)` body of `generator` (smurves/smurves.py:566-705):
    draw the change points, run the segment loop, assemble the curve; the curve lies on the grid.
    Fails exactly when the change points cannot be drawn, for that reason.
  */
  method MakeCurve(cfg: Config, d: CurveDraws) returns (r: Result<Curve>, cps: seq<nat>)
    requires Valid(cfg) && LaunchFits(cfg.randomLaunch, d)
    ensures r.Ok? ==> ChangePointsFor(cfg, d, cps)
    ensures r.Ok? ==> Produces(cfg, d, cps, r.value) && OnGridFrom(r.value, Steps(cfg), 0)
    ensures r.Ok? ==> r.value[0] == Convergence(cfg, d)
    ensures r.Err? <==> !CurveDrawable(cfg, d)
    ensures r.Err? ==> r.error == Refusal(cfg, d)
  {
    var drawn := DrawChangePoints(cfg, d);
    if drawn.Err? {
      return Err(drawn.error), [];
    }
    cps := drawn.value;
    var st := SettingOf(cfg);
    var c := Start(cfg, d);
    CurveOnGrid(st, d.forces, c, cps);
    CurveStartsAtStart(st, d.forces, c, cps);
    r := Ok(CurveOf(st, d.forces, c, cps));
  }

  /** Every curve of the batch lies on the linear grid. */
  predicate AllOnGrid(cfg: Config, curves: seq<Curve>)
    requires Valid(cfg)
  {
    forall i :: 0 <= i < |curves| ==> OnGridFrom(curves[i], Steps(cfg), 0)
  }

  /**
    One pass of `generator`'s loop body (smurves/smurves.py:566-708): make a curve from `d` over the
    change points `cps`, append it and run `deletion` over the whole list.
  */
  method Extend(cfg: Config, d: CurveDraws, made: seq<Curve>, kept: seq<Curve>)
    returns (r: Result<Curve>, kept': seq<Curve>, cps: seq<nat>)
    requires Valid(cfg) && LaunchFits(cfg.randomLaunch, d)
    requires AllOnGrid(cfg, made) && kept == Filter(made, cfg.yLo, cfg.yHi)
    ensures r.Ok? ==> ChangePointsFor(cfg, d, cps) && Produces(cfg, d, cps, r.value)
    ensures r.Ok? ==> AllOnGrid(cfg, made + [r.value])
    ensures r.Ok? ==> kept' == Filter(made + [r.value], cfg.yLo, cfg.yHi)
    ensures r.Err? <==> !CurveDrawable(cfg, d)
    ensures r.Err? ==> r.error == Refusal(cfg, d)
  {
    r, cps := MakeCurve(cfg, d);
    kept' := kept;
    if r.Ok? {
      kept' := Append(cfg, made, kept, r.value);
    }
  }

  /** Appending a curve on the grid and running `deletion` over the whole list filters the history. */
  method Append(cfg: Config, made: seq<Curve>, kept: seq<Curve>, c: Curve) returns (kept': seq<Curve>)
    requires Valid(cfg) && OnGridFrom(c, Steps(cfg), 0)
    requires AllOnGrid(cfg, made) && kept == Filter(made, cfg.yLo, cfg.yHi)
    ensures AllOnGrid(cfg, made + [c])
    ensures kept' == Filter(made + [c], cfg.yLo, cfg.yHi)
  {
    GridAppend(cfg, made, [c]);
    KeepFiltering(made, c, cfg.yLo, cfg.yHi);
    var deleted;
    kept', deleted := Deletion(kept + [c], cfg.yLo, cfg.yHi);
  }

  /** The `n` curve draws at `next` are all there and all drawable. */
  predicate BatchDrawable(cfg: Config, oracle: seq<CurveDraws>, next: nat, n: nat)
    requires Valid(cfg)
  {
    next + n <= |oracle| && forall i :: next <= i < next + n ==> CurveDrawable(cfg, oracle[i])
  }

  /** One more drawable curve draw extends a drawable batch. */
  lemma BatchDrawableStep(cfg: Config, oracle: seq<CurveDraws>, next: nat, n: nat)
    requires Valid(cfg) && BatchDrawable(cfg, oracle, next, n)
    requires next + n < |oracle| && CurveDrawable(cfg, oracle[next + n])
    ensures BatchDrawable(cfg, oracle, next, n + 1)
  {
  }

  /**
    A batch that stops before the draws at index `at`: they are missing (`OracleExhausted`), or
    their change points cannot be drawn, for the reason `e`.
  */
  predicate StoppedAt(cfg: Config, oracle: seq<CurveDraws>, at: nat, e: Failure)
    requires Valid(cfg)
  {
    || (at >= |oracle| && e == OracleExhausted)
    || (at < |oracle| && !CurveDrawable(cfg, oracle[at]) && e == Refusal(cfg, oracle[at]))
  }

  /**
    `generator(n_curves, ...)` (smurves/smurves.py:563-719): make `n` curves from the draws at
    `next`, and after each one apply `deletion` to the whole list. The result is the filter of
    everything made, in order. It fails at the first curve whose draws are missing or whose change
    points cannot be drawn, and `made` then holds the curves before it.
  */
  method Generate(cfg: Config, n: nat, oracle: seq<CurveDraws>, next: nat)
    returns (r: Result<seq<Curve>>, made: seq<Curve>)
    requires Valid(cfg) && AllFit(cfg.randomLaunch, oracle) && next <= |oracle|
    ensures r.Ok? ==> |made| == n
    ensures r.Err? ==> |made| < n
    ensures r.Ok? ==> r.value == Filter(made, cfg.yLo, cfg.yHi) && |r.value| <= n
    ensures r.Ok? ==> AllOnGrid(cfg, made)
    ensures r.Ok? <==> BatchDrawable(cfg, oracle, next, n)
    ensures r.Err? ==> BatchDrawable(cfg, oracle, next, |made|)
    ensures r.Err? ==> StoppedAt(cfg, oracle, next + |made|, r.error)
  {
    var kept: seq<Curve> := [];
    made := [];
    var i := 0;
    while i < n
      invariant i <= n && |made| == i && next + i <= |oracle|
      invariant kept == Filter(made, cfg.yLo, cfg.yHi)
      invariant AllOnGrid(cfg, made)
      invariant BatchDrawable(cfg, oracle, next, i)
    {
      if next + i == |oracle| {
        return Err(OracleExhausted), made;
      }
      var one, cps;
      one, kept, cps := Extend(cfg, oracle[next + i], made, kept);
      if one.Err? {
        return Err(one.error), made;
      }
      BatchDrawableStep(cfg, oracle, next, i);
      made := made + [one.value];
      i := i + 1;
    }
    r := Ok(kept);
  }

  /** Filtering a filtered list with one new curve appended filters the whole history. */
  lemma KeepFiltering(made: seq<Curve>, c: Curve, yLo: real, yHi: real)
    ensures Filter(Filter(made, yLo, yHi) + [c], yLo, yHi) == Filter(made + [c], yLo, yHi)
  {
    FilterAppend(Filter(made, yLo, yHi), [c], yLo, yHi);
    FilterIdempotent(made, yLo, yHi);
    FilterAppend(made, [c], yLo, yHi);
  }

  /** The x column the caller receives: the log grid when `log_scale` is set, else the linear grid. */
  function OutputGrid(cfg: Config): (xs: seq<real>)
    requires Valid(cfg)
    ensures |xs| == cfg.nMeasure
    ensures cfg.logGrid.None? ==> xs == Steps(cfg)
  {
    if cfg.logGrid.Some? then cfg.logGrid.value else Steps(cfg)
  }

  /** A returned curve: one point per output grid position, carrying that x, with every y in bounds. */
  predicate Finished(cfg: Config, c: Curve)
    requires Valid(cfg)
  {
    && |c| == cfg.nMeasure
    && (forall j :: 0 <= j < |c| ==> c[j].x == OutputGrid(cfg)[j])
    && InBounds(c, cfg.yLo, cfg.yHi)
  }

  /**
    The output stage for one curve (smurves/smurves.py:308-319): relabel the x column for a log
    grid, then reverse the y column for right-side convergence.
  */
  function FinishCurve(cfg: Config, c: Curve): (out: Curve)
    requires Valid(cfg) && |c| == cfg.nMeasure
    ensures |out| == |c|
  {
    var relabelled := if cfg.logGrid.Some? then Relabel(c, cfg.logGrid.value) else c;
    if cfg.rightConvergence then FlipY(relabelled) else relabelled
  }

  /** A curve on the linear grid and in bounds leaves the output stage finished. */
  lemma FinishKeeps(cfg: Config, c: Curve)
    requires Valid(cfg) && OnGridFrom(c, Steps(cfg), 0) && InBounds(c, cfg.yLo, cfg.yHi)
    ensures Finished(cfg, FinishCurve(cfg, c))
  {
    var xs := OutputGrid(cfg);
    var r := if cfg.logGrid.Some? then Relabel(c, xs) else c;
    if cfg.logGrid.Some? {
      RelabelKeepsBounds(c, xs, cfg.yLo, cfg.yHi);
    }
    assert forall j :: 0 <= j < |r| ==> r[j].x == xs[j];
    if cfg.rightConvergence {
      FlipYInvolution(r, cfg.yLo, cfg.yHi);
    }
  }

  /** The output stage on every curve of the batch. */
  function Finish(cfg: Config, curves: seq<Curve>): (out: seq<Curve>)
    requires Valid(cfg) && forall i :: 0 <= i < |curves| ==> |curves[i]| == cfg.nMeasure
    ensures |out| == |curves| && forall i :: 0 <= i < |out| ==> out[i] == FinishCurve(cfg, curves[i])
  {
    seq(|curves|, i requires 0 <= i < |curves| => FinishCurve(cfg, curves[i]))
  }

  /**
    `surgebinder` (smurves/smurves.py:198-321): one `generator` call for the whole request, then
    single-curve calls until the deletions are made good; the batch is then exactly the request,
    every curve on the output grid and inside the y-interval. Also returns the kept curves before
    the output stage and every curve made, in order.
  */
  method Surgebinder(cfg: Config, oracle: seq<CurveDraws>)
    returns (r: Result<seq<Curve>>, kept: seq<Curve>, made: seq<Curve>)
    requires Valid(cfg) && AllFit(cfg.randomLaunch, oracle)
    ensures r.Ok? ==> |r.value| == cfg.request && |kept| == cfg.request && |made| <= |oracle|
    ensures r.Ok? ==> kept == Filter(made, cfg.yLo, cfg.yHi) && AllOnGrid(cfg, kept)
    ensures r.Ok? ==> AllOnGrid(cfg, made) && BatchDrawable(cfg, oracle, 0, |made|)
    ensures r.Ok? ==> r.value == Finish(cfg, kept)
    ensures r.Ok? ==> forall i :: 0 <= i < |r.value| ==> Finished(cfg, r.value[i])
    ensures r.Err? ==> BatchDrawable(cfg, oracle, 0, |made|) && StoppedAt(cfg, oracle, |made|, r.error)
  {
    var first;
    first, made := Generate(cfg, cfg.request, oracle, 0);
    if first.Err? {
      return Err(first.error), [], made;
    }
    kept := first.value;
    while |kept| < cfg.request
      invariant |kept| <= cfg.request && |made| <= |oracle|
      invariant kept == Filter(made, cfg.yLo, cfg.yHi) && AllOnGrid(cfg, made)
      invariant BatchDrawable(cfg, oracle, 0, |made|)
      decreases |oracle| - |made|
    {
      var more, one := Generate(cfg, 1, oracle, |made|);
      if more.Err? {
        return Err(more.error), kept, made;
      }
      FilterAppend(made, one, cfg.yLo, cfg.yHi);
      GridAppend(cfg, made, one);
      kept := kept + more.value;
      made := made + one;
    }
    KeptOnGrid(cfg, made, kept);
    forall i | 0 <= i < |kept|
      ensures Finished(cfg, FinishCurve(cfg, kept[i]))
    {
      FinishKeeps(cfg, kept[i]);
    }
    r := Ok(Finish(cfg, kept));
  }

  lemma GridAppend(cfg: Config, a: seq<Curve>, b: seq<Curve>)
    requires Valid(cfg) && AllOnGrid(cfg, a) && AllOnGrid(cfg, b)
    ensures AllOnGrid(cfg, a + b)
  {
    assert forall i :: |a| <= i < |a| + |b| ==> (a + b)[i] == b[i - |a|];
  }

  /** The curves the filter keeps are curves that were made, so they inherit the grid alignment. */
  lemma KeptOnGrid(cfg: Config, made: seq<Curve>, kept: seq<Curve>)
    requires Valid(cfg) && AllOnGrid(cfg, made) && kept == Filter(made, cfg.yLo, cfg.yHi)
    ensures AllOnGrid(cfg, kept)
  {
    FilterMembers(made, cfg.yLo, cfg.yHi);
    forall i | 0 <= i < |kept|
      ensures OnGridFrom(kept[i], Steps(cfg), 0)
    {
      assert kept[i] in made;
    }
  }
}
