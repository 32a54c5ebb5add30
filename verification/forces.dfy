/**
  The force sampler: the largest admissible force for a segment and the rules by which a segment's
  force is drawn from it (smurves/smurves.py:616-623, 640-658, 677-690; smurves.py:254-265, 283-295,
  312-323). A draw from `uniform(a, b)` is `a + (b - a) * u` for an oracle fraction u.
*/
module Forces {
  import opened Wrappers
  import opened Grid
  import opened Kinematics

  /** An oracle fraction standing for one `random()` value. */
  type Unit = u: real | 0.0 <= u <= 1.0

  /** An oracle value of `truncnorm.rvs(a = -2, b = 2)`. */
  type TruncNormal = z: real | -2.0 <= z <= 2.0

  /** One pre-drawn force sample; the variant in use decides which part it reads. */
  datatype ForceDraw = ForceDraw(u: Unit, z: TruncNormal)

  /** v lies in the closed interval spanned by a and b, in either order. */
  predicate Between(v: real, a: real, b: real)
  {
    (a <= v <= b) || (b <= v <= a)
  }

  function Min(a: real, b: real): real
  {
    if a <= b then a else b
  }

  /** A fraction of c lies between 0 and c. */
  lemma FractionBetween(c: real, u: real)
    requires 0.0 <= u <= 1.0
    ensures Between(c * u, 0.0, c)
  {
    if c >= 0.0 {
      assert c - c * u == c * (1.0 - u);
    } else {
      assert c * u - c == (-c) * (1.0 - u);
    }
  }

  lemma UniformBetween(a: real, b: real, u: real)
    requires 0.0 <= u <= 1.0
    ensures Between(a + (b - a) * u, a, b)
  {
    var c := b - a;
    FractionBetween(c, u);
    var t := c * u;
    assert Between(t, 0.0, c);
    assert a + t == a + (b - a) * u;
  }

  /** `uniform(a, b)`. */
  function Uniform(a: real, b: real, u: Unit): (r: real)
    ensures Between(r, a, b)
  {
    UniformBetween(a, b, u);
    a + (b - a) * u
  }

  /** `y_interval[np.maximum(0, direction)]`: the upper bound for direction 1, the lower for -1. */
  function BoundY(yLo: real, yHi: real, d: int): real
  {
    if d > 0 then yHi else yLo
  }

  /** `velocity * sin(angle) - (-direction) * (bound - y)`. */
  function Spread(vy: real, d: int, bound: real, y: real): real
  {
    vy - (-(d as real)) * (bound - y)
  }

  /**
    `force_max = 2 * spread / rest_time^2`, with `spread = velocity * sin(angle) + d * (bound - y)` and
    `rest_time = dist / velocity`; dividing by `rest_time^2` is multiplying by `speed^2 / dist^2`.
    At dist = 0 (a point already at the right edge) the source divides by zero; the model yields 0
    there, a value no later point uses.
  */
  function ForceMax(vy: real, speedSq: real, d: int, yLo: real, yHi: real, p: Point, dist: real): (fm: real)
    ensures vy == 0.0 && (d == 1 || d == -1) && yLo <= p.y <= yHi && speedSq >= 0.0 ==> fm >= 0.0
  {
    BoundForce(Spread(vy, d, BoundY(yLo, yHi, d), p.y), speedSq, dist)
  }

  /** `2 * spread / (dist^2 / speed^2)`, or 0 at the right edge. */
  function BoundForce(spread: real, speedSq: real, dist: real): (fm: real)
    ensures spread >= 0.0 && speedSq >= 0.0 ==> fm >= 0.0
  {
    if dist == 0.0 then 0.0
    else
      SpreadScaleNonneg(spread, speedSq, dist);
      2.0 * spread * speedSq / dist / dist
  }

  lemma SpreadScaleNonneg(spread: real, speedSq: real, dist: real)
    requires dist != 0.0
    ensures spread >= 0.0 && speedSq >= 0.0 ==> 2.0 * spread * speedSq / dist / dist >= 0.0
  {
    if spread >= 0.0 && speedSq >= 0.0 {
      var num := 2.0 * spread * speedSq;
      MulNonneg(2.0 * spread, speedSq);
      var q := num / dist;
      assert q * dist == num;
      if dist < 0.0 {
        assert q <= 0.0;
        assert q / dist >= 0.0;
      }
    }
  }

  /** `force_max * len(steps) / len(partial_steps)` before a change-point segment's draw. */
  function ScaleForceMax(fm: real, n: nat, len: nat): (scaled: real)
    requires len > 0
    ensures fm >= 0.0 && len <= n ==> scaled >= fm
  {
    fm * (n as real / len as real)
  }

  /**
    The force of a segment that ends at a change point, in the newer variant (smurves/smurves.py:643-658):
    zero while the flat start is pending; otherwise uniform up to the scaled bound, capped by
    `save_force * change_ratio` once a ratio is set, after the first part, and after a nonzero force.
  */
  function SegmentForce(ratio: Option<real>, flatPending: bool, part: nat, save: real,
                        fm: real, u: Unit): (f: real)
    ensures flatPending ==> f == 0.0
    ensures !flatPending && (ratio.None? || part == 0 || save == 0.0) ==> Between(f, 0.0, fm)
    ensures !flatPending && ratio.Some? && part > 0 && save != 0.0 ==>
              Between(f, 0.0, Min(fm, save * ratio.value))
    ensures !flatPending && ratio.Some? && part > 0 && save != 0.0 && fm >= 0.0 && save * ratio.value >= 0.0 ==>
              0.0 <= f <= fm && f <= save * ratio.value
  {
    if flatPending then 0.0
    else if ratio.None? || part == 0 then Uniform(0.0, fm, u)
    else if save == 0.0 then Uniform(0.0, fm, u)
    else Uniform(0.0, Min(fm, save * ratio.value), u)
  }

  /**
    The force drawn right after a segment for the segment that follows, in the newer variant
    (smurves/smurves.py:684-690): uniform up to the new bound, or, with a ratio and a nonzero previous
    force, up to `min(save_force, force_max) * change_ratio`.
  */
  function CarryForce(ratio: Option<real>, save: real, fm: real, u: Unit): (f: real)
    ensures ratio.None? || save == 0.0 ==> Between(f, 0.0, fm)
    ensures ratio.Some? && save != 0.0 ==> Between(f, 0.0, Min(save, fm) * ratio.value)
    ensures ratio.Some? && ratio.value > 0.0 && save != 0.0 && save >= 0.0 && fm >= 0.0 ==>
              0.0 <= f <= fm * ratio.value && f <= save * ratio.value
  {
    if ratio.None? then Uniform(0.0, fm, u)
    else if save == 0.0 then Uniform(0.0, fm, u)
    else Uniform(0.0, Min(save, fm) * ratio.value, u)
  }

  /**
    A draw in the older variant (smurves.py:261-265, 287-292, 319-323): uniform on [0, force_max], or,
    with `trunc_norm`, `|z| * force_max / 2` for a truncated normal z in [-2, 2].
  */
  function LegacyDraw(truncNorm: bool, fm: real, draw: ForceDraw): (f: real)
    ensures Between(f, 0.0, fm)
  {
    if truncNorm then
      var a := if draw.z < 0.0 then -draw.z else draw.z;
      HalfScaleBetween(fm, a);
      a * (fm / 2.0)
    else Uniform(0.0, fm, draw.u)
  }

  lemma HalfScaleBetween(fm: real, a: real)
    requires 0.0 <= a <= 2.0
    ensures Between(a * (fm / 2.0), 0.0, fm)
  {
    var h := a / 2.0;
    FractionBetween(fm, h);
    assert a * (fm / 2.0) == fm * h;
  }

  /** In the older variant a change-point segment is flat (force 0) while the flat start is pending. */
  function LegacySegmentForce(truncNorm: bool, flatPending: bool, fm: real, draw: ForceDraw): (f: real)
    ensures flatPending ==> f == 0.0
    ensures Between(f, 0.0, fm)
  {
    if flatPending then 0.0 else LegacyDraw(truncNorm, fm, draw)
  }

  lemma Cancel(a: real, b: real, c: real)
    requires c != 0.0 && a * c == b * c
    ensures a == b
  {
    assert (a - b) * c == 0.0;
    assert a - b == (a - b) * c / c;
  }

  lemma DivTwice(x: real, d: real)
    requires d != 0.0
    ensures x / d / d * d * d == x
  {
    assert x / d / d * d == x / d;
    assert x / d * d == x;
  }

  /** Half the bound force times the squared rest time gives back the spread. */
  lemma RestTimeCancels(s: real, vx: real, speedSq: real, dist: real)
    requires vx != 0.0 && dist != 0.0 && speedSq == vx * vx
    ensures 0.5 * BoundForce(s, speedSq, dist) * (dist / vx) * (dist / vx) == s
  {
    var f := BoundForce(s, speedSq, dist);
    assert f == 2.0 * s * speedSq / dist / dist;
    DivTwice(2.0 * s * speedSq, dist);
    assert f * dist * dist == 2.0 * s * speedSq;
    var t := dist / vx;
    assert t * vx == dist;
    var lhs := 0.5 * f * t * t;
    assert lhs * speedSq == 0.5 * f * (t * vx) * (t * vx);
    assert lhs * speedSq == 0.5 * f * dist * dist;
    assert lhs * speedSq == s * speedSq;
    assert speedSq != 0.0;
    Cancel(lhs, s, speedSq);
  }

  /**
    With a zero vertical launch (so the speed is vx), the bound force carries the projectile from its
    start height exactly to the bound `y_interval[max(0, direction)]` at the rest time `dist / vx`.
  */
  lemma ForceMaxReachesBound(vx: real, d: int, yLo: real, yHi: real, p: Point, dist: real)
    requires vx > 0.0 && dist > 0.0 && (d == 1 || d == -1)
    ensures Height(p.y, d, 0.0, ForceMax(0.0, vx * vx, d, yLo, yHi, p, dist), dist / vx)
            == BoundY(yLo, yHi, d)
  {
    RestTimeCancels(Spread(0.0, d, BoundY(yLo, yHi, d), p.y), vx, vx * vx, dist);
    SpreadReachesBound(d, ForceMax(0.0, vx * vx, d, yLo, yHi, p, dist), dist / vx, BoundY(yLo, yHi, d), p.y);
  }

  lemma SpreadReachesBound(d: int, fm: real, t: real, bound: real, y: real)
    requires d == 1 || d == -1
    requires 0.5 * fm * t * t == Spread(0.0, d, bound, y)
    ensures Height(y, d, 0.0, fm, t) == bound
  {
  }

  /**
    With a zero vertical launch, any force drawn uniformly from [0, force_max] ends the flight at the
    rest time between the start height and the bound.
  */
  lemma DrawnForceEndsBetween(vx: real, d: int, yLo: real, yHi: real, p: Point, dist: real, u: Unit)
    requires vx > 0.0 && dist > 0.0 && (d == 1 || d == -1)
    ensures var fm := ForceMax(0.0, vx * vx, d, yLo, yHi, p, dist);
            Between(Height(p.y, d, 0.0, Uniform(0.0, fm, u), dist / vx), p.y, BoundY(yLo, yHi, d))
  {
    ForceMaxReachesBound(vx, d, yLo, yHi, p, dist);
    FractionOfRise(p.y, d, ForceMax(0.0, vx * vx, d, yLo, yHi, p, dist), u, dist / vx, BoundY(yLo, yHi, d));
  }

  /** Scaling the force by u scales the rise from the start height by u. */
  lemma FractionOfRise(y: real, d: int, f: real, u: Unit, t: real, bound: real)
    requires Height(y, d, 0.0, f, t) == bound
    ensures Between(Height(y, d, 0.0, Uniform(0.0, f, u), t), y, bound)
  {
    assert Uniform(0.0, f, u) == f * u;
    assert Height(y, d, 0.0, f, t) == y + (d as real) * (0.5 * f * t * t);
    assert Height(y, d, 0.0, f * u, t) == y + (d as real) * (0.5 * (f * u) * t * t);
    assert (d as real) * (0.5 * (f * u) * t * t) == ((d as real) * (0.5 * f * t * t)) * u;
    assert Height(y, d, 0.0, f * u, t) == y + (bound - y) * u;
    UniformBetween(y, bound, u);
  }
}
