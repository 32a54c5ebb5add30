/**
  The segment loop shared by both variants (smurves/smurves.py:610-702, smurves.py:246-333): the grid
  is cut at the change points, each piece is flown by `trajectory` from where the previous one ended,
  in the opposite direction, and the pieces are joined into one curve.
*/
module Stitching {
  import opened Wrappers
  import opened Grid
  import opened Kinematics
  import opened Forces
  import opened ChangePoints

  /** Which generator: the newer one with its optional `change_ratio`, or the older one with `trunc_norm`. */
  datatype Variant = Current(ratio: Option<real>) | Legacy(truncNorm: bool)

  /**
    What stays fixed while one curve is built: the grid, its step, the y-interval, the right end
    x_interval[1] of the x-interval, and the `horizontal_start` the older variant uses after the
    first segment (the convergence point's x).
  */
  datatype Setting = Setting(variant: Variant, steps: seq<real>, step: real, yLo: real, yHi: real,
                             xEnd: real, hsLater: real)

  /**
    The loop variables carried from one segment to the next: the grid index the next segment starts
    at (`counter`), its start point, launch and direction, the force a segment without a change point
    uses, the current `force_max`, `save_force`, whether the flat start is still pending, the
    `horizontal_start`, and the index of the next unused force draw.
  */
  datatype Carry = Carry(counter: nat, start: Point, launch: Launch, dir: int, force: real, fm: real,
                         save: real, flat: bool, hs: real, next: nat)

  /**
    One flown segment: its part number, whether it ends at a change point, whether it was the flat
    start, the grid slice `steps[from:end]` it covers, how it was launched, the force it was flown
    with, the `save_force` in effect when that force was drawn, and what `trajectory` returned.
  */
  datatype Segment = Segment(part: nat, atChange: bool, flat: bool, from: nat, end: nat, partial: seq<real>,
                             start: Point, launch: Launch, dir: int, hs: real, force: real, save: real,
                             flight: Flight)

  /**
    The change points the loop can consume from grid index `counter`: ascending, none before
    `counter`, and all but the last inside the grid, so every segment ending at a change point
    covers at least one grid position.
  */
  predicate ValidCps(cps: seq<nat>, counter: nat, n: nat)
  {
    Sorted(cps)
    && (|cps| > 0 ==> counter <= cps[0] && counter < n)
    && (forall i :: 0 <= i < |cps| - 1 ==> cps[i] < n)
  }

  lemma ValidCpsTail(cps: seq<nat>, counter: nat, n: nat)
    requires ValidCps(cps, counter, n) && |cps| > 0
    ensures ValidCps(cps[1..], cps[0], n)
  {
    if |cps| > 1 {
      assert cps[0] < n;
    }
  }

  /**
    The shape `trajectory` gives a segment: its grid slice, one point per grid position of the slice
    but the last, the first being the start point, each at its grid position, and the final point
    at the slice's last position (or the start point itself for a slice of at most one position).
  */
  predicate Flown(s: Segment, steps: seq<real>)
  {
    var n := |s.partial|;
    && s.partial == PySlice(steps, s.from, s.end)
    && (s.from < |steps| ==> s.from < s.end)
    && (n <= 1 ==> s.flight.points == [] && s.flight.last == s.start)
    && (n >= 1 ==> |s.flight.points| == n - 1)
    && (n >= 2 ==> s.flight.points[0] == s.start && s.flight.last.x == s.partial[n - 1])
    && (forall j :: 1 <= j < |s.flight.points| ==> s.flight.points[j].x == s.partial[j])
    && (s.flat ==> s.force == 0.0)
  }

  /**
    How consecutive segments a, b hang together: b starts where a ended, with a's exit launch, in the
    opposite direction, at a's change point, as the next part, with a's force as its `save_force`;
    a ended at a change point inside the grid, and b is not the flat start.
  */
  predicate Linked(st: Setting, a: Segment, b: Segment)
  {
    && b.start == a.flight.last && b.launch == a.flight.exit && b.dir == -a.dir
    && a.atChange && a.from < |st.steps| && b.from + 1 == a.end && b.part == a.part + 1
    && b.save == a.force && !b.flat
    && b.hs == (if st.variant.Legacy? then st.hsLater else 0.0)
  }

  /** The `change_ratio` cap on a segment drawn after a nonzero force (smurves/smurves.py:643-655, 684-690). */
  predicate RatioCapped(st: Setting, s: Segment)
  {
    (st.variant.Current? && st.variant.ratio.Some? && st.variant.ratio.value > 0.0 && !s.flat && s.save > 0.0)
      ==> s.force <= st.variant.ratio.value * s.save
  }

  /** The same cap on the force a carry holds for a final segment. */
  predicate CarryCapped(st: Setting, c: Carry)
  {
    (st.variant.Current? && st.variant.ratio.Some? && st.variant.ratio.value > 0.0 && c.save > 0.0)
      ==> c.force <= st.variant.ratio.value * c.save
  }

  lemma MulMonotone(a: real, b: real, r: real)
    requires a <= b && r >= 0.0
    ensures r * a <= r * b
  {
  }

  /**
    The force drawn for a segment that ends at a change point (smurves/smurves.py:640-658,
    smurves.py:283-295): zero for the flat start, else the variant's draw against the scaled bound.
  */
  function DrawAtChange(v: Variant, flat: bool, part: nat, save: real, fm: real, d: ForceDraw): (f: real)
    ensures flat ==> f == 0.0
    ensures (v.Current? && v.ratio.Some? && v.ratio.value > 0.0 && !flat && save > 0.0 && part > 0)
              ==> f <= v.ratio.value * save
  {
    match v
    case Current(ratio) =>
      var f := SegmentForce(ratio, flat, part, save, fm, d.u);
      if ratio.Some? && ratio.value > 0.0 && !flat && save > 0.0 && part > 0 then
        MulMonotone(Min(fm, save * ratio.value), save * ratio.value, 1.0);
        f
      else f
    case Legacy(truncNorm) => LegacySegmentForce(truncNorm, flat, fm, d)
  }

  /**
    The force drawn right after a segment, for the segment that follows (smurves/smurves.py:677-690,
    smurves.py:312-323).
  */
  function DrawAfter(v: Variant, save: real, fm: real, d: ForceDraw): (f: real)
    ensures (v.Current? && v.ratio.Some? && v.ratio.value > 0.0 && save > 0.0) ==> f <= v.ratio.value * save
    ensures save == 0.0 || v.Legacy? || v.ratio.None? ==> Between(f, 0.0, fm)
  {
    match v
    case Current(ratio) =>
      var f := CarryForce(ratio, save, fm, d.u);
      if ratio.Some? && ratio.value > 0.0 && save > 0.0 then
        MulMonotone(Min(save, fm), save, ratio.value);
        assert Min(save, fm) * ratio.value <= save * ratio.value;
        f
      else f
    case Legacy(truncNorm) => LegacyDraw(truncNorm, fm, d)
  }

  /** Fly one segment over `steps[from:end]` and record it. */
  function FlySegment(steps: seq<real>, step: real, part: nat, atChange: bool, flat: bool, from: nat, end: nat,
                      start: Point, launch: Launch, dir: int, hs: real, force: real, save: real): (s: Segment)
    requires launch.vx > 0.0 && (from < |steps| ==> from < end) && (flat ==> force == 0.0)
    ensures Flown(s, steps)
    ensures s == Segment(part, atChange, flat, from, end, s.partial, start, launch, dir, hs, force, save, s.flight)
    ensures s.flight == Trajectory(force, launch, dir, step, start, s.partial, hs)
  {
    var partial := PySlice(steps, from, end);
    Segment(part, atChange, flat, from, end, partial, start, launch, dir, hs, force, save,
            Trajectory(force, launch, dir, step, start, partial, hs))
  }

  /**
    The force of the segment for `cp` over `len` grid positions: the carried force when there is no
    change point, else one drawn up to `force_max` scaled to the segment's length.
  */
  function ForceFor(st: Setting, draws: nat -> ForceDraw, c: Carry, cp: Option<nat>, part: nat, len: nat): (f: real)
    requires cp.Some? ==> len > 0
    ensures cp.None? ==> f == c.force
    ensures cp.Some? && c.flat ==> f == 0.0
    ensures ((part > 0 || cp.None?) && CarryCapped(st, c) && !(cp.Some? && c.flat)
             && st.variant.Current? && st.variant.ratio.Some? && st.variant.ratio.value > 0.0 && c.save > 0.0)
            ==> f <= st.variant.ratio.value * c.save
  {
    if cp.None? then c.force
    else DrawAtChange(st.variant, c.flat, part, c.save, ScaleForceMax(c.fm, |st.steps|, len), draws(c.next))
  }

  /**
    The first half of the loop body for one part (smurves/smurves.py:627-671, smurves.py:273-306):
    slice the grid up to the change point, draw the force, fly the segment.
  */
  function SegmentFor(st: Setting, draws: nat -> ForceDraw, c: Carry, cp: Option<nat>, part: nat): (seg: Segment)
    requires c.launch.vx > 0.0
    requires cp.Some? ==> c.counter < |st.steps| && c.counter <= cp.value
    ensures seg.start == c.start && seg.launch == c.launch && seg.dir == c.dir && seg.hs == c.hs
    ensures seg.save == c.save && seg.from == c.counter && seg.part == part
    ensures seg.end == if cp.Some? then cp.value + 1 else |st.steps|
    ensures seg.atChange == cp.Some? && (seg.flat <==> cp.Some? && c.flat)
    ensures cp.None? ==> seg.force == c.force
    ensures Flown(seg, st.steps) && seg.flight.exit.vx == c.launch.vx
    ensures seg.flight == Trajectory(seg.force, c.launch, c.dir, st.step, c.start, seg.partial, c.hs)
    ensures (part > 0 || cp.None?) && CarryCapped(st, c) ==> RatioCapped(st, seg)
  {
    var end := if cp.Some? then cp.value + 1 else |st.steps|;
    var force := ForceFor(st, draws, c, cp, part, |PySlice(st.steps, c.counter, end)|);
    FlySegment(st.steps, st.step, part, cp.Some?, cp.Some? && c.flat, c.counter, end, c.start, c.launch,
               c.dir, c.hs, force, c.save)
  }

  /** The index of the first force draw not used once the segment for `cp` has drawn its force. */
  function NextDraw(c: Carry, cp: Option<nat>): nat
  {
    if cp.Some? && !c.flat then c.next + 1 else c.next
  }

  /**
    The second half of the loop body (smurves/smurves.py:672-690, smurves.py:307-323): continue from
    the segment's final point and exit launch in the opposite direction, recompute `force_max` there
    and draw the force a segment without change point would use.
  */
  function CarryAfter(st: Setting, draws: nat -> ForceDraw, c: Carry, cp: Option<nat>, seg: Segment): (after: Carry)
    ensures after.start == seg.flight.last && after.launch == seg.flight.exit
    ensures after.dir == -seg.dir && after.save == seg.force
    ensures after.counter == if cp.Some? then cp.value else c.counter
    ensures after.flat == (c.flat && cp.None?)
    ensures after.hs == if st.variant.Legacy? then st.hsLater else 0.0
    ensures CarryCapped(st, after)
  {
    var last := seg.flight.last;
    var exit := seg.flight.exit;
    var dir := -seg.dir;
    var fm := ForceMax(exit.vy, SpeedSq(exit), dir, st.yLo, st.yHi, last, st.xEnd - last.x);
    var next := NextDraw(c, cp);
    Carry(if cp.Some? then cp.value else c.counter, last, exit, dir, DrawAfter(st.variant, seg.force, fm, draws(next)),
          fm, seg.force, c.flat && cp.None?, if st.variant.Legacy? then st.hsLater else 0.0, next + 1)
  }

  /**
    Every segment of the run is flown over its grid slice, and each one after the first is linked to
    the one before it and keeps the ratio cap.
  */
  predicate Chain(st: Setting, segs: seq<Segment>)
    decreases |segs|
  {
    && |segs| >= 1
    && Flown(segs[0], st.steps)
    && (|segs| >= 2 ==> Linked(st, segs[0], segs[1]) && RatioCapped(st, segs[1]) && Chain(st, segs[1..]))
  }

  /** The chain read at one position. */
  lemma {:induction false} ChainAt(st: Setting, segs: seq<Segment>, i: nat)
    requires Chain(st, segs) && i < |segs|
    ensures Flown(segs[i], st.steps)
    ensures i + 1 < |segs| ==> Linked(st, segs[i], segs[i + 1]) && RatioCapped(st, segs[i + 1])
    decreases i
  {
    if i > 0 {
      ChainAt(st, segs[1..], i - 1);
      assert segs[1..][i - 1] == segs[i];
      if i + 1 < |segs| {
        assert segs[1..][i] == segs[i + 1];
      }
    }
  }

  /**
    What the loop produces from carry `c` with `k` change points left, starting at part `part`: k + 1
    segments, the first taking over the carry's start, launch, direction and grid index, the last
    running to the end of the grid; every segment flown over its grid slice, every neighbouring pair
    linked, the flat start on the first segment only and only when a change point ends it, and the
    ratio cap on every segment after the first.
  */
  predicate Stitched(st: Setting, c: Carry, k: nat, part: nat, segs: seq<Segment>)
  {
    && |segs| == k + 1
    && segs[0].start == c.start && segs[0].launch == c.launch && segs[0].dir == c.dir
    && segs[0].hs == c.hs && segs[0].from == c.counter && segs[0].part == part && segs[0].save == c.save
    && segs[0].flat == (c.flat && k > 0)
    && !segs[k].atChange && segs[k].end == |st.steps|
    && Chain(st, segs)
    && (CarryCapped(st, c) && (part > 0 || k == 0) ==> RatioCapped(st, segs[0]))
  }

  /**
    The whole `for part in range(len(change_points) + 1)` loop from carry `c`: one segment per change
    point and a final one to the end of the grid.
  */
  function Stitch(st: Setting, draws: nat -> ForceDraw, c: Carry, cps: seq<nat>, part: nat): (segs: seq<Segment>)
    requires c.launch.vx > 0.0 && ValidCps(cps, c.counter, |st.steps|)
    ensures Stitched(st, c, |cps|, part, segs)
    decreases |cps|
  {
    if cps == [] then
      [SegmentFor(st, draws, c, None, part)]
    else
      ValidCpsTail(cps, c.counter, |st.steps|);
      var seg := SegmentFor(st, draws, c, Some(cps[0]), part);
      var after := CarryAfter(st, draws, c, Some(cps[0]), seg);
      var rest := Stitch(st, draws, after, cps[1..], part + 1);
      StitchedCons(st, c, |cps|, part, cps[0], seg, after, rest);
      [seg] + rest
  }

  /** A change-point segment and the carry after it, put in front of the rest of the loop. */
  lemma StitchedCons(st: Setting, c: Carry, k: nat, part: nat, cp: nat, seg: Segment, after: Carry,
                     rest: seq<Segment>)
    requires k >= 1 && Stitched(st, after, k - 1, part + 1, rest)
    requires c.counter < |st.steps|
    requires seg.start == c.start && seg.launch == c.launch && seg.dir == c.dir && seg.hs == c.hs
    requires seg.save == c.save && seg.from == c.counter && seg.part == part && seg.end == cp + 1
    requires seg.atChange && seg.flat == c.flat && Flown(seg, st.steps)
    requires part > 0 && CarryCapped(st, c) ==> RatioCapped(st, seg)
    requires after.start == seg.flight.last && after.launch == seg.flight.exit && after.dir == -seg.dir
    requires after.save == seg.force && after.counter == cp && !after.flat && CarryCapped(st, after)
    requires after.hs == if st.variant.Legacy? then st.hsLater else 0.0
    ensures Stitched(st, c, k, part, [seg] + rest)
  {
    var segs := [seg] + rest;
    assert Linked(st, seg, rest[0]);
    assert segs[1..] == rest;
    assert segs[k] == rest[k - 1];
  }

  /** The measured points of a run of segments, joined in order. */
  function Joined(segs: seq<Segment>): seq<Point>
  {
    if segs == [] then [] else segs[0].flight.points + Joined(segs[1..])
  }

  /**
    The finished curve (smurves/smurves.py:694-705, smurves.py:325-333): all segments' points, then
    the final point of the last segment.
  */
  function Assemble(segs: seq<Segment>): (curve: seq<Point>)
    requires |segs| > 0
    ensures |curve| == |Joined(segs)| + 1 && curve[|curve| - 1] == segs[|segs| - 1].flight.last
  {
    Joined(segs) + [segs[|segs| - 1].flight.last]
  }

  function MinNat(a: nat, b: nat): nat
  {
    if a <= b then a else b
  }

  lemma JoinedCons(s: Segment, rest: seq<Segment>)
    ensures Joined([s] + rest) == s.flight.points + Joined(rest)
  {
    assert ([s] + rest)[1..] == rest;
  }

  lemma AssembleCons(s: Segment, rest: seq<Segment>)
    requires |rest| > 0
    ensures Assemble([s] + rest) == s.flight.points + Assemble(rest)
  {
    JoinedCons(s, rest);
  }

  /**
    A flown segment over a grid slice that starts inside the grid, started at its first grid position,
    covers the grid from there up to the slice's last position, where its final point sits.
  */
  lemma SegmentOnGrid(seg: Segment, steps: seq<real>)
    requires Flown(seg, steps) && seg.from < |steps| && seg.start.x == steps[seg.from]
    ensures var e := MinNat(seg.end, |steps|) - 1;
            && seg.from + |seg.flight.points| == e
            && (forall j :: 0 <= j < |seg.flight.points| ==> seg.flight.points[j].x == steps[seg.from + j])
            && seg.flight.last.x == steps[e]
  {
    var e := MinNat(seg.end, |steps|);
    if seg.end > |steps| {
      assert steps[seg.from..] == steps[seg.from..e];
    }
    assert seg.partial == steps[seg.from..e];
    forall j | 0 <= j < |seg.flight.points|
      ensures seg.flight.points[j].x == steps[seg.from + j]
    {
      if j >= 1 {
        assert seg.flight.points[j].x == steps[seg.from..e][j];
      }
    }
  }

  /** Points on consecutive stretches of the grid join into points on the combined stretch. */
  lemma ConcatOnGrid(pts: seq<Point>, tail: seq<Point>, steps: seq<real>, a: nat)
    requires a + |pts| + |tail| <= |steps|
    requires forall j :: 0 <= j < |pts| ==> pts[j].x == steps[a + j]
    requires forall j :: 0 <= j < |tail| ==> tail[j].x == steps[a + |pts| + j]
    ensures forall i :: 0 <= i < |pts + tail| ==> (pts + tail)[i].x == steps[a + i]
  {
    forall i | 0 <= i < |pts + tail|
      ensures (pts + tail)[i].x == steps[a + i]
    {
      if i >= |pts| {
        assert (pts + tail)[i] == tail[i - |pts|];
      }
    }
  }

  /** The final segment alone closes the curve on the grid from its start index (clamped to the grid). */
  lemma FinalOnGrid(seg: Segment, steps: seq<real>)
    requires |steps| >= 1 && Flown(seg, steps) && seg.end == |steps|
    requires seg.start.x == steps[MinNat(seg.from, |steps| - 1)]
    ensures OnGridFrom(Assemble([seg]), steps, MinNat(seg.from, |steps| - 1))
  {
    JoinedCons(seg, []);
    assert [seg] + [] == [seg];
    assert Joined([]) == [];
    assert seg.flight.points + [] == seg.flight.points;
    assert Assemble([seg]) == seg.flight.points + [seg.flight.last];
    if seg.from < |steps| {
      SegmentOnGrid(seg, steps);
    } else {
      assert seg.partial == [];
    }
  }

  /** A curve whose points sit, in order, one each, on the grid positions from index `m` to the end. */
  predicate OnGridFrom(curve: seq<Point>, steps: seq<real>, m: nat)
  {
    m + |curve| == |steps| && forall i :: 0 <= i < |curve| ==> curve[i].x == steps[m + i]
  }

  /**
    x-alignment over any run of flown, linked segments that ends with the final segment: started at
    the grid position of its first index, the assembled curve visits exactly the grid positions from
    there to the end, in order, one point each.
  */
  lemma {:induction false} SegmentsOnGrid(st: Setting, segs: seq<Segment>)
    requires |st.steps| >= 1 && Chain(st, segs)
    requires segs[|segs| - 1].end == |st.steps|
    requires segs[0].start.x == st.steps[MinNat(segs[0].from, |st.steps| - 1)]
    ensures OnGridFrom(Assemble(segs), st.steps, MinNat(segs[0].from, |st.steps| - 1))
    decreases |segs|
  {
    if |segs| == 1 {
      assert segs == [segs[0]];
      FinalOnGrid(segs[0], st.steps);
    } else {
      var rest := segs[1..];
      assert segs == [segs[0]] + rest;
      assert rest[|rest| - 1] == segs[|segs| - 1];
      LinkedOnGrid(st, segs[0], rest[0]);
      SegmentsOnGrid(st, rest);
      JoinOnGrid(segs[0], rest, st.steps, segs[0].from, MinNat(rest[0].from, |st.steps| - 1));
    }
  }

  /** A segment linked to the next covers the grid up to where the next one starts, and ends there. */
  lemma LinkedOnGrid(st: Setting, s: Segment, t: Segment)
    requires |st.steps| >= 1 && Flown(s, st.steps) && Linked(st, s, t)
    requires s.start.x == st.steps[MinNat(s.from, |st.steps| - 1)]
    ensures var m := MinNat(t.from, |st.steps| - 1);
            && s.from + |s.flight.points| == m
            && (forall j :: 0 <= j < |s.flight.points| ==> s.flight.points[j].x == st.steps[s.from + j])
            && t.start.x == st.steps[m]
  {
    SegmentOnGrid(s, st.steps);
  }

  /** One segment followed by an on-grid remainder gives an on-grid curve from the segment's index. */
  lemma JoinOnGrid(seg: Segment, rest: seq<Segment>, steps: seq<real>, a: nat, m: nat)
    requires |rest| > 0 && m < |steps| && a + |seg.flight.points| == m
    requires forall j :: 0 <= j < |seg.flight.points| ==> seg.flight.points[j].x == steps[a + j]
    requires OnGridFrom(Assemble(rest), steps, m)
    ensures OnGridFrom(Assemble([seg] + rest), steps, a)
  {
    AssembleCons(seg, rest);
    ConcatOnGrid(seg.flight.points, Assemble(rest), steps, a);
  }

  // ---------------------------------------------------------------- one whole curve

  /**
    The state before the first segment (smurves/smurves.py:607-624, smurves.py:246-272): grid index
    0, the convergence point as start, velocity 1.0 split into the given launch, `force_max` for the
    whole interval with `rest_time = x_interval[1] / 1.0`, and the first force drawn against it.
  */
  function Initial(st: Setting, draws: nat -> ForceDraw, conv: Point, launch: Launch, dir: int, flat: bool): (c: Carry)
    ensures c.counter == 0 && c.start == conv && c.launch == launch && c.dir == dir && c.flat == flat
    ensures c.save == 0.0 && c.hs == 0.0 && CarryCapped(st, c)
    ensures c.fm == ForceMax(launch.vy, 1.0, dir, st.yLo, st.yHi, conv, st.xEnd)
    ensures Between(c.force, 0.0, c.fm)
  {
    var fm := ForceMax(launch.vy, 1.0, dir, st.yLo, st.yHi, conv, st.xEnd);
    Carry(0, conv, launch, dir, DrawAfter(st.variant, 0.0, fm, draws(0)), fm, 0.0, flat, 0.0, 1)
  }

  /** The curve one run of the segment loop produces from the initial carry and the change points. */
  function CurveOf(st: Setting, draws: nat -> ForceDraw, c: Carry, cps: seq<nat>): (curve: seq<Point>)
    requires c.launch.vx > 0.0 && ValidCps(cps, c.counter, |st.steps|)
  {
    Assemble(Stitch(st, draws, c, cps, 0))
  }

  /**
    x-alignment of a whole curve: started at grid index 0 from a point at the grid's first position,
    the curve has one point per grid position, at that position, in order.
  */
  lemma CurveOnGrid(st: Setting, draws: nat -> ForceDraw, c: Carry, cps: seq<nat>)
    requires |st.steps| >= 1 && c.launch.vx > 0.0 && ValidCps(cps, c.counter, |st.steps|)
    requires c.counter == 0 && c.start.x == st.steps[0]
    ensures OnGridFrom(CurveOf(st, draws, c, cps), st.steps, 0)
  {
    var segs := Stitch(st, draws, c, cps, 0);
    SegmentsOnGrid(st, segs);
  }

  /**
    The first point of the assembled chain is where its first segment starts: the first segment's
    first measured point, or, when that segment measures none, its final point, which is where the
    next segment starts.
  */
  lemma {:induction false} ChainStartsAtStart(st: Setting, segs: seq<Segment>)
    requires Chain(st, segs)
    ensures Assemble(segs)[0] == segs[0].start
    decreases |segs|
  {
    if |segs| >= 2 {
      ChainStartsAtStart(st, segs[1..]);
      assert [segs[0]] + segs[1..] == segs;
      AssembleCons(segs[0], segs[1..]);
    }
  }

  /** A curve starts exactly at the start point of the carry it is flown from. */
  lemma CurveStartsAtStart(st: Setting, draws: nat -> ForceDraw, c: Carry, cps: seq<nat>)
    requires c.launch.vx > 0.0 && ValidCps(cps, c.counter, |st.steps|)
    ensures CurveOf(st, draws, c, cps)[0] == c.start
  {
    ChainStartsAtStart(st, Stitch(st, draws, c, cps, 0));
  }

  /**
    Along the loop, segment i is part `part + i`, starts at the final point of segment i - 1 with its
    exit launch, and flies in the opposite direction, so directions alternate from the first one.
  */
  lemma {:induction false} SegmentsInOrder(st: Setting, c: Carry, k: nat, part: nat, segs: seq<Segment>, i: nat)
    requires Stitched(st, c, k, part, segs) && i <= k
    ensures segs[i].part == part + i
    ensures segs[i].dir == if i % 2 == 0 then c.dir else -c.dir
    ensures i > 0 ==> segs[i].start == segs[i - 1].flight.last && segs[i].launch == segs[i - 1].flight.exit
    decreases i
  {
    if i > 0 {
      SegmentsInOrder(st, c, k, part, segs, i - 1);
      ChainAt(st, segs, i - 1);
    }
  }

  /**
    The `change_ratio` cap along a curve: with a positive ratio, every segment after the first that
    follows a positive force is flown with at most the ratio times that force.
  */
  lemma RatioAlongCurve(st: Setting, c: Carry, k: nat, part: nat, segs: seq<Segment>, i: nat)
    requires Stitched(st, c, k, part, segs) && 0 < i <= k
    requires st.variant.Current? && st.variant.ratio.Some? && st.variant.ratio.value > 0.0
    requires segs[i - 1].force > 0.0
    ensures segs[i].force <= st.variant.ratio.value * segs[i - 1].force
  {
    ChainAt(st, segs, i - 1);
  }

  /**
    The flat start (smurves/smurves.py:575-576, 656-658; smurves.py:222-225, 293-295): with a flat
    start pending and at least one change point, the first segment runs to the first change point
    with force 0 and no later segment is flat; from a zero vertical launch the whole first segment
    stays at the start height.
  */
  lemma FlatStartIsLevel(st: Setting, draws: nat -> ForceDraw, c: Carry, cps: seq<nat>, part: nat)
    requires c.launch.vx > 0.0 && ValidCps(cps, c.counter, |st.steps|) && c.flat && |cps| > 0
    ensures var segs := Stitch(st, draws, c, cps, part);
            && segs[0].flat && segs[0].force == 0.0 && segs[0].end == cps[0] + 1
            && (forall i :: 1 <= i < |segs| ==> !segs[i].flat)
            && (c.launch.vy == 0.0 ==>
                  (forall p :: p in segs[0].flight.points ==> p.y == c.start.y) && segs[0].flight.last.y == c.start.y)
  {
    var segs := Stitch(st, draws, c, cps, part);
    ValidCpsTail(cps, c.counter, |st.steps|);
    var seg := SegmentFor(st, draws, c, Some(cps[0]), part);
    assert segs[0] == seg;
    forall i | 1 <= i < |segs|
      ensures !segs[i].flat
    {
      ChainAt(st, segs, i - 1);
    }
    if c.launch.vy == 0.0 {
      FlatFlight(c.launch, c.dir, st.step, c.start, seg.partial, c.hs);
    }
  }

  // ---------------------------------------------------------------- curve length

  /** A flown segment over a slice starting inside the grid has one point per slice position but the last. */
  lemma SegmentLength(seg: Segment, steps: seq<real>)
    requires Flown(seg, steps) && seg.from < |steps|
    ensures seg.from + |seg.flight.points| == MinNat(seg.end, |steps|) - 1
  {
    var e := MinNat(seg.end, |steps|);
    if seg.end > |steps| {
      assert steps[seg.from..] == steps[seg.from..e];
    }
  }

  /**
    Whatever the start point, a run of linked segments ending with the final one assembles into one
    point per grid position from its first index (clamped to the grid) to the end.
  */
  lemma {:induction false} SegmentsLength(st: Setting, segs: seq<Segment>)
    requires |st.steps| >= 1 && Chain(st, segs)
    requires segs[|segs| - 1].end == |st.steps|
    ensures MinNat(segs[0].from, |st.steps| - 1) + |Assemble(segs)| == |st.steps|
    decreases |segs|
  {
    var s := segs[0];
    if |segs| == 1 {
      assert segs == [s];
      JoinedCons(s, []);
      assert [s] + [] == [s];
      if s.from < |st.steps| {
        SegmentLength(s, st.steps);
      } else {
        assert s.partial == [];
      }
    } else {
      var rest := segs[1..];
      assert segs == [s] + rest;
      assert rest[|rest| - 1] == segs[|segs| - 1];
      SegmentLength(s, st.steps);
      SegmentsLength(st, rest);
      AssembleCons(s, rest);
    }
  }

  /** Every curve of the loop, started at grid index 0, has exactly one point per grid position. */
  lemma CurveLength(st: Setting, draws: nat -> ForceDraw, c: Carry, cps: seq<nat>)
    requires |st.steps| >= 1 && c.launch.vx > 0.0 && ValidCps(cps, c.counter, |st.steps|) && c.counter == 0
    ensures |CurveOf(st, draws, c, cps)| == |st.steps|
  {
    SegmentsLength(st, Stitch(st, draws, c, cps, 0));
  }
}
