/** The linear sample grid and the two Python integer/slicing conventions the engine relies on. */
module Grid {

  /** Python's `int()` on a float: truncation toward zero. */
  function PyInt(r: real): (k: int)
    ensures r >= 0.0 ==> 0 <= k && k as real <= r < k as real + 1.0
    ensures r < 0.0 ==> k <= 0 && k as real - 1.0 < r <= k as real
  {
    if r >= 0.0 then r.Floor else -((-r).Floor)
  }

  /** A product of two non-negative reals is non-negative. */
  lemma MulNonneg(a: real, b: real)
    requires a >= 0.0 && b >= 0.0
    ensures a * b >= 0.0
  {
  }

  /** `int(n * f)` for a fraction f in [0, 1] lies in [0, n]. */
  lemma PyIntOfFraction(n: nat, f: real)
    requires 0.0 <= f <= 1.0
    ensures 0 <= PyInt(n as real * f) <= n
  {
    assert n as real * f <= n as real * 1.0;
  }

  /** Python's `s[a:b]` for non-negative bounds: both ends are clamped to the length. */
  function PySlice<T>(s: seq<T>, a: nat, b: nat): (r: seq<T>)
    ensures a <= b <= |s| ==> r == s[a..b]
    ensures |s| <= a ==> r == []
    ensures a <= |s| <= b ==> r == s[a..]
  {
    var lo := if a <= |s| then a else |s|;
    var hi := if b <= |s| then (if b < lo then lo else b) else |s|;
    s[lo..hi]
  }

  /** `np.diff(x_interval) / (n_measure - 1)`. */
  function StepSize(x0: real, x1: real, n: nat): real
    requires n >= 2
  {
    (x1 - x0) / (n - 1) as real
  }

  /** `[x0 + i * step_size for i in range(n_measure)]` (smurves/smurves.py:214-217, smurves.py:186-189). */
  function LinearGrid(x0: real, x1: real, n: nat): (steps: seq<real>)
    requires n >= 2
    ensures |steps| == n
    ensures forall i :: 0 <= i < n ==> steps[i] == x0 + i as real * StepSize(x0, x1, n)
  {
    seq(n, i requires 0 <= i < n => x0 + i as real * StepSize(x0, x1, n))
  }

  /** The grid runs exactly from x0 to x1 in equal steps, strictly increasing when x0 < x1. */
  lemma LinearGridShape(x0: real, x1: real, n: nat)
    requires n >= 2
    ensures LinearGrid(x0, x1, n)[0] == x0
    ensures LinearGrid(x0, x1, n)[n - 1] == x1
    ensures forall i :: 0 <= i < n - 1 ==>
      LinearGrid(x0, x1, n)[i + 1] - LinearGrid(x0, x1, n)[i] == StepSize(x0, x1, n)
    ensures x0 < x1 ==> forall i, j :: 0 <= i < j < n ==> LinearGrid(x0, x1, n)[i] < LinearGrid(x0, x1, n)[j]
  {
    var steps := LinearGrid(x0, x1, n);
    var h := StepSize(x0, x1, n);
    assert (n - 1) as real * h == x1 - x0;
    if x0 < x1 {
      assert h > 0.0;
      forall i, j | 0 <= i < j < n
        ensures steps[i] < steps[j]
      {
        assert steps[j] - steps[i] == (j - i) as real * h;
      }
    }
  }
}
