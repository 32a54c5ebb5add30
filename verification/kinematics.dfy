/**
  The trajectory integrator (smurves/smurves.py:779-900, smurves.py:424-553): closed-form
  projectile positions under a constant force, evaluated at the grid positions of one segment.

  The source splits a launch speed and angle with cos/sin and recombines them with sqrt/arctan.
  Here a launch is carried directly as its horizontal part `vx` and its vertical part `vy`
  (measured in the segment's own direction frame), which is all the position formula uses.
*/
module Kinematics {

  datatype Point = Point(x: real, y: real)

  /** `velocity * cos(launch_angle)` and `velocity * sin(launch_angle)`. */
  datatype Launch = Launch(vx: real, vy: real)

  /** The square of the source's `velocity`, the launch speed. */
  function SpeedSq(l: Launch): real
  {
    l.vx * l.vx + l.vy * l.vy
  }

  /** Elapsed time at the i-th grid position of a segment: (horizontal_start + i * step_size) / vx. */
  function Time(hs: real, i: nat, step: real, vx: real): real
    requires vx != 0.0
  {
    (hs + i as real * step) / vx
  }

  /** Height after time t: start height plus the direction-signed displacement -(vy*t - F*t^2/2). */
  function Height(y0: real, d: int, vy: real, force: real, t: real): real
  {
    y0 + d as real * -(vy * t - 0.5 * force * t * t)
  }

  /** Rate of change of `Height` at time t: the projectile's actual vertical velocity. */
  function VerticalRate(d: int, vy: real, force: real, t: real): real
  {
    -(d as real) * (vy - force * t)
  }

  /**
    What one call of `trajectory` returns: the measured points without the final one, the final
    point, and the launch the next segment inherits. The exit launch keeps `vx`, because
    `sqrt(vx^2 + w^2) * cos(arctan(-w / vx)) == vx` for vx > 0, and has vertical part `-w`, because
    `sqrt(vx^2 + w^2) * sin(arctan(-w / vx)) == -w`, where w is the final vertical velocity.
  */
  datatype Flight = Flight(points: seq<Point>, last: Point, exit: Launch)

  /** Vertical velocity at the end of a segment of `n` grid positions. */
  function FinalVerticalVelocity(force: real, launch: Launch, step: real, n: nat, hs: real): real
    requires launch.vx > 0.0
  {
    if n >= 2 then launch.vy - force * Time(hs, n - 1, step, launch.vx) else launch.vy
  }

  /**
    `trajectory(force, velocity, direction, step_size, start_point, launch_angle, partial_steps,
    horizontal_start)`; the newer variant always starts its time at horizontal_start = 0.0.
  */
  function Trajectory(force: real, launch: Launch, d: int, step: real, start: Point,
                      partial: seq<real>, hs: real): (f: Flight)
    requires launch.vx > 0.0
    ensures |partial| >= 1 ==> |f.points| == |partial| - 1
    ensures |partial| <= 1 ==> f.points == [] && f.last == start
    ensures |partial| >= 2 ==> f.points[0] == start && f.last.x == partial[|partial| - 1]
    ensures forall i :: 1 <= i < |f.points| ==> f.points[i].x == partial[i]
    ensures f.exit.vx == launch.vx
  {
    var n := |partial|;
    var measured := seq(if n >= 1 then n - 1 else 0, j requires 0 <= j < n - 1 =>
      Point(partial[j + 1], Height(start.y, d, launch.vy, force, Time(hs, j + 1, step, launch.vx))));
    var all := [start] + measured;
    Flight(all[..|all| - 1], all[|all| - 1],
           Launch(launch.vx, -FinalVerticalVelocity(force, launch, step, n, hs)))
  }

  /** The i-th position of a flight, counting the final point as position |points|. */
  function Sample(f: Flight, i: nat): Point
  {
    if i < |f.points| then f.points[i] else f.last
  }

  /** Every measured position after the first lies at the closed-form height for its elapsed time. */
  lemma TrajectoryHeights(force: real, launch: Launch, d: int, step: real, start: Point,
                          partial: seq<real>, hs: real, i: nat)
    requires launch.vx > 0.0
    requires 1 <= i < |partial|
    ensures Sample(Trajectory(force, launch, d, step, start, partial, hs), i)
         == Point(partial[i], Height(start.y, d, launch.vy, force, Time(hs, i, step, launch.vx)))
  {
  }

  /**
    A segment flown with zero force from a zero vertical launch stays at its start height:
    the flat start of smurves/smurves.py:656-658 with the fixed zero launch angle.
  */
  lemma FlatFlight(launch: Launch, d: int, step: real, start: Point, partial: seq<real>, hs: real)
    requires launch.vx > 0.0 && launch.vy == 0.0
    ensures var f := Trajectory(0.0, launch, d, step, start, partial, hs);
            (forall p :: p in f.points ==> p.y == start.y) && f.last.y == start.y && f.exit == launch
  {
    var f := Trajectory(0.0, launch, d, step, start, partial, hs);
    forall p | p in f.points
      ensures p.y == start.y
    {
      var i :| 0 <= i < |f.points| && f.points[i] == p;
      if i >= 1 {
        TrajectoryHeights(0.0, launch, d, step, start, partial, hs, i);
      }
    }
    if |partial| >= 2 {
      TrajectoryHeights(0.0, launch, d, step, start, partial, hs, |partial| - 1);
    }
  }

  /**
    The next segment, flown in the opposite direction from the exit launch, begins with the vertical
    velocity this segment ends with: the join between segments has no kink.
  */
  lemma JoinIsSmooth(force: real, nextForce: real, launch: Launch, d: int, step: real, start: Point,
                     partial: seq<real>, hs: real)
    requires launch.vx > 0.0 && |partial| >= 2
    ensures var f := Trajectory(force, launch, d, step, start, partial, hs);
            VerticalRate(-d, f.exit.vy, nextForce, 0.0)
            == VerticalRate(d, launch.vy, force, Time(hs, |partial| - 1, step, launch.vx))
  {
  }
}
