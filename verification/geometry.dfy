/** Positions and directions of the game world as triples of reals, and the
    engine's geometry primitives taken as given functions rather than
    reimplemented. */
module Geometry {
  import opened Common

  /** A `Vector3`: world positions, screen positions (pixels, z unused) and
      directions. */
  datatype Vec3 = Vec3(x: real, y: real, z: real)

  const Origin := Vec3(0.0, 0.0, 0.0)

  function Add(a: Vec3, b: Vec3): Vec3
  {
    Vec3(a.x + b.x, a.y + b.y, a.z + b.z)
  }

  function Sub(a: Vec3, b: Vec3): Vec3
  {
    Vec3(a.x - b.x, a.y - b.y, a.z - b.z)
  }

  function Scale(a: Vec3, k: real): Vec3
  {
    Vec3(a.x * k, a.y * k, a.z * k)
  }

  function Neg(a: Vec3): Vec3
  {
    Vec3(-a.x, -a.y, -a.z)
  }

  function Dot(a: Vec3, b: Vec3): real
  {
    a.x * b.x + a.y * b.y + a.z * b.z
  }

  /** One coordinate of `(-x a + y b) x`, multiplied out. */
  lemma ExpandAgainstFirst(x: real, y: real, a: real, b: real)
    ensures (-x * a + y * b) * x == -a * (x * x) + b * (y * x)
  {
  }

  /** One coordinate of `(-x a + y b) y`, multiplied out. */
  lemma ExpandAgainstSecond(x: real, y: real, a: real, b: real)
    ensures (-x * a + y * b) * y == -a * (y * x) + b * (y * y)
  {
  }

  /** `k (u + v + w) = k u + k v + k w`. */
  lemma Distribute(k: real, u: real, v: real, w: real)
    ensures k * (u + v + w) == k * u + k * v + k * w
  {
  }

  /** Measured against `d` and a `p` orthogonal to it, the point `a` units
      back along `d` and `b` units along `p` has coordinates `-a` and `b`
      (in units of the squared lengths). */
  lemma CombinationDots(d: Vec3, p: Vec3, a: real, b: real)
    requires Dot(p, d) == 0.0
    ensures Dot(Add(Scale(Neg(d), a), Scale(p, b)), d) == -a * Dot(d, d)
    ensures Dot(Add(Scale(Neg(d), a), Scale(p, b)), p) == b * Dot(p, p)
  {
    var c := Add(Scale(Neg(d), a), Scale(p, b));
    assert c == Vec3(-d.x * a + p.x * b, -d.y * a + p.y * b, -d.z * a + p.z * b);
    ExpandAgainstFirst(d.x, p.x, a, b);
    ExpandAgainstFirst(d.y, p.y, a, b);
    ExpandAgainstFirst(d.z, p.z, a, b);
    ExpandAgainstSecond(d.x, p.x, a, b);
    ExpandAgainstSecond(d.y, p.y, a, b);
    ExpandAgainstSecond(d.z, p.z, a, b);
    Distribute(-a, d.x * d.x, d.y * d.y, d.z * d.z);
    Distribute(b, p.x * d.x, p.y * d.y, p.z * d.z);
    Distribute(-a, p.x * d.x, p.y * d.y, p.z * d.z);
    Distribute(b, p.x * p.x, p.y * p.y, p.z * p.z);
  }

  /** The same, for a point `spacing * row` units back and `side * spacing *
      row` to the side, as the formation helpers place followers. */
  lemma BackAndSideDots(d: Vec3, p: Vec3, spacing: real, row: real, side: real)
    requires Dot(p, d) == 0.0
    ensures Dot(Add(Scale(Neg(d), spacing * row), Scale(p, side * spacing * row)), d) == -spacing * row * Dot(d, d)
    ensures Dot(Add(Scale(Neg(d), spacing * row), Scale(p, side * spacing * row)), p) == side * spacing * row * Dot(p, p)
  {
    CombinationDots(d, p, spacing * row, side * spacing * row);
  }

  /** The point with its depth coordinate zeroed (`v.z = 0`), as the 2D game
      keeps every target on the z = 0 plane. */
  function Flatten(a: Vec3): Vec3
  {
    a.(z := 0.0)
  }

  /** The engine primitives the scripts call: `Vector3.Distance`,
      `Vector3.normalized`, and the heading `Mathf.Atan2(v.y, v.x) *
      Mathf.Rad2Deg` in degrees. Every operation that needs them takes a
      `Metric`; nothing is assumed about them except where a lemma says so. */
  datatype Metric = Metric(distance: (Vec3, Vec3) -> real,
                           normalized: Vec3 -> Vec3,
                           heading: Vec3 -> real)

  /** The position reached by moving `step` along the normalized direction
      from `p` toward `w` (`p += (w - p).normalized * step`). */
  function StepToward(m: Metric, p: Vec3, w: Vec3, step: real): Vec3
  {
    Add(p, Scale(m.normalized(Sub(w, p)), step))
  }

  /** What Euclidean distance and normalisation satisfy and the overshoot
      lemmas rely on: a point is at distance zero from itself, and moving
      `s >= 0` along the normalized direction from `p` toward a distinct `w`
      leaves `|distance(p, w) - s|` to go (short of `w`, or past it). */
  ghost predicate StraightLine(m: Metric)
  {
    && (forall a :: m.distance(a, a) == 0.0)
    && (forall p, w, s :: m.distance(p, w) > 0.0 && s >= 0.0 ==>
          m.distance(StepToward(m, p, w, s), w) == Abs(m.distance(p, w) - s))
  }

  /** Distances are never negative, as Euclidean ones are. */
  ghost predicate NonNegative(m: Metric)
  {
    forall a, b :: m.distance(a, b) >= 0.0
  }
}
