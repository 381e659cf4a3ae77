/** Plane vectors, the window rectangle, the 5% easing step shared by every
    smoothed quantity of the scene, and the maths library the scene calls. */
module Vectors {

  /** A point or direction in the plane; the scene never leaves z == 0. */
  datatype Vec = Vec(x: real, y: real)

  /** A window's shape as the window registry reports it. */
  datatype Shape = Shape(x: real, y: real, w: real, h: real)

  /** The parts of `Math` and `THREE.Vector3` whose numeric content is not
      modelled: they are supplied by the environment and used opaquely. */
  datatype MathLib = MathLib(
    cos: real -> real,
    sin: real -> real,
    distance: (Vec, Vec) -> real,  // `a.distanceTo(b)`
    normalize: Vec -> Vec)          // `v.normalize()`, as a new value

  function Add(a: Vec, b: Vec): Vec { Vec(a.x + b.x, a.y + b.y) }
  function Sub(a: Vec, b: Vec): Vec { Vec(a.x - b.x, a.y - b.y) }
  function Scale(v: Vec, k: real): Vec { Vec(v.x * k, v.y * k) }
  function Neg(v: Vec): Vec { Vec(-v.x, -v.y) }

  /** Centre of a window rectangle: the target a sphere tracks. */
  function Centre(s: Shape): (c: Vec)
    ensures Sub(c, Vec(s.x, s.y)) == Sub(Vec(s.x + s.w, s.y + s.h), c)
  {
    Vec(s.x + s.w * 0.5, s.y + s.h * 0.5)
  }

  /** The offset of a body orbiting at `angle` and `radius`. */
  function Orbit(m: MathLib, angle: real, radius: real): Vec
  {
    Vec(m.cos(angle) * radius, m.sin(angle) * radius)
  }

  function Abs(x: real): real { if x < 0.0 then -x else x }

  /** One easing step `x += (target - x) * falloff` with `falloff = 0.05`
      (the scene offset, the spheres and the glittles' follow term): the result lies between
      the old value and the target (no overshoot), the remaining gap is
      exactly 95% of the old gap, and a value at its target stays put. */
  function Ease(x: real, target: real): (r: real)
    ensures x <= target ==> x <= r <= target
    ensures target <= x ==> target <= r <= x
    ensures target - r == 0.95 * (target - x)
    ensures x == target ==> r == x
  {
    x + (target - x) * 0.05
  }

  /** Easing both coordinates: the gap vector to the target shrinks to 95%. */
  function EaseVec(v: Vec, target: Vec): (r: Vec)
    ensures Sub(target, r) == Scale(Sub(target, v), 0.95)
    ensures v == target ==> r == v
  {
    Vec(Ease(v.x, target.x), Ease(v.y, target.y))
  }

  /** `n` frames of easing toward a fixed target. */
  function EaseIter(x: real, target: real, n: nat): real
  {
    if n == 0 then x else Ease(EaseIter(x, target, n - 1), target)
  }

  function Pow95(n: nat): real
  {
    if n == 0 then 1.0 else 0.95 * Pow95(n - 1)
  }

  lemma {:induction false} Pow95Bounds(n: nat)
    ensures 0.0 < Pow95(n) <= 1.0
    ensures Pow95(n) * (1.0 + (n as real) / 19.0) <= 1.0
  {
    if n > 0 {
      Pow95Bounds(n - 1);
      var p := Pow95(n - 1);
      var k := (n - 1) as real;
      assert p * (1.0 + k / 19.0) <= 1.0;
      calc {
        Pow95(n) * (1.0 + (n as real) / 19.0);
        0.95 * p * (1.0 + k / 19.0) + 0.95 * p / 19.0;
        0.95 * (p * (1.0 + k / 19.0)) + 0.05 * p;
      <= 0.95 + 0.05 * p;
      <= 1.0;
      }
    }
  }

  /** After `n` frames the gap to a fixed target is exactly 0.95^n of the
      initial gap, and the value never leaves the interval between its start
      and the target. */
  lemma {:induction false} EaseIterGap(x: real, target: real, n: nat)
    ensures target - EaseIter(x, target, n) == Pow95(n) * (target - x)
    ensures x <= target ==> x <= EaseIter(x, target, n) <= target
    ensures target <= x ==> target <= EaseIter(x, target, n) <= x
  {
    if n > 0 {
      EaseIterGap(x, target, n - 1);
      var y := EaseIter(x, target, n - 1);
      assert target - Ease(y, target) == 0.95 * (target - y);
      assert 0.95 * (Pow95(n - 1) * (target - x)) == (0.95 * Pow95(n - 1)) * (target - x);
    }
  }

  /** Each frame brings the value no farther from the target than before. */
  lemma EaseIterMonotone(x: real, target: real, n: nat)
    ensures Abs(target - EaseIter(x, target, n + 1)) <= Abs(target - EaseIter(x, target, n))
  {
  }

  lemma MulLessLeft(a: real, b: real, c: real)
    requires a > 0.0 && b < c
    ensures a * b < a * c
  {
  }

  lemma MulAtMostRight(a: real, b: real, c: real)
    requires a <= b && c > 0.0
    ensures a * c <= b * c
  {
  }

  lemma ShrunkGapBelow(n: nat, gap: real, eps: real)
    requires eps > 0.0 && gap >= 0.0
    requires (n as real) * eps > 19.0 * gap
    ensures Pow95(n) * gap < eps
  {
    Pow95Bounds(n);
    var p := Pow95(n);
    var q := 1.0 + (n as real) / 19.0;
    assert q * eps == eps + (n as real) * eps / 19.0;
    assert q * eps > gap;
    MulLessLeft(p, gap, q * eps);
    assert p * (q * eps) == (p * q) * eps;
    MulAtMostRight(p * q, 1.0, eps);
  }

  /** Repeated easing toward a fixed target comes within any `eps` of it. */
  lemma EaseConverges(x: real, target: real, eps: real) returns (n: nat)
    requires eps > 0.0
    ensures Abs(target - EaseIter(x, target, n)) < eps
  {
    var gap := Abs(target - x);
    var bound := 19.0 * gap / eps;
    assert bound * eps == 19.0 * gap;
    assert bound >= 0.0 by {
      if bound < 0.0 {
        MulLessLeft(eps, bound, 0.0);
      }
    }
    n := bound.Floor as nat + 1;
    MulLessLeft(eps, bound, n as real);
    ShrunkGapBelow(n, gap, eps);
    EaseIterGap(x, target, n);
    Pow95Bounds(n);
    var p, d := Pow95(n), target - x;
    if d >= 0.0 {
      MulAtMostRight(0.0, d, p);
    } else {
      MulAtMostRight(d, 0.0, p);
      assert -(p * d) == p * gap;
    }
  }
}
