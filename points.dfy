/** Points, dots, the per-frame vertex set, and the distance the proximity
    graph is measured with. */
module Points {

  /** A position in viewport pixel coordinates. */
  datatype Vec = Vec(x: real, y: real)

  /** A moving dot: its position and the velocity added to it every frame. */
  datatype Dot = Dot(x: real, y: real, dx: real, dy: real)

  /** The proximity threshold shared by triangles and edges. */
  const MAX_DISTANCE: real := 150.0

  function Position(d: Dot): Vec { Vec(d.x, d.y) }

  /** The vertex set of one frame: every dot in order, then the pointer. */
  function Vertices(dots: seq<Dot>, mouse: Vec): (vs: seq<Vec>)
    ensures |vs| == |dots| + 1
    ensures vs[|dots|] == mouse
    ensures forall i :: 0 <= i < |dots| ==> vs[i] == Position(dots[i])
  {
    seq(|dots|, i requires 0 <= i < |dots| => Position(dots[i])) + [mouse]
  }

  /** A distance between two positions. The graph builders accept any such
      function; the facts they need about it are stated separately. */
  type Metric = (Vec, Vec) -> real

  ghost predicate NonNegative(dist: Metric)
  {
    forall p, q :: 0.0 <= dist(p, q)
  }

  ghost predicate Symmetric(dist: Metric)
  {
    forall p, q :: dist(p, q) == dist(q, p)
  }

  function Sq(r: real): real { r * r }

  /** The squared Euclidean distance, computable without a square root. */
  function SqDist(p: Vec, q: Vec): real
  {
    Sq(p.x - q.x) + Sq(p.y - q.y)
  }

  /** `dist` is the Euclidean distance over the reals: the non-negative root
      of the squared distance (what `Math.hypot` approximates). */
  ghost predicate IsHypot(dist: Metric)
  {
    forall p, q :: 0.0 <= dist(p, q) && Sq(dist(p, q)) == SqDist(p, q)
  }

  lemma SquareMonotone(a: real, b: real)
    requires 0.0 <= a < b
    ensures Sq(a) < Sq(b)
  {
    calc {
      Sq(a);
      a * a;
    <= { assert a * a <= a * b; }
      a * b;
    < { assert a * b < b * b; }
      b * b;
    }
  }

  /** A non-negative square root is unique. */
  lemma RootUnique(a: real, b: real)
    requires 0.0 <= a && 0.0 <= b && Sq(a) == Sq(b)
    ensures a == b
  {
    if a < b {
      SquareMonotone(a, b);
    } else if b < a {
      SquareMonotone(b, a);
    }
  }

  /** A Euclidean distance is fixed by its square. */
  lemma HypotAt(dist: Metric, p: Vec, q: Vec, r: real)
    requires IsHypot(dist)
    requires 0.0 <= r && SqDist(p, q) == Sq(r)
    ensures dist(p, q) == r
  {
    RootUnique(dist(p, q), r);
  }

  /** The Euclidean distance is non-negative and symmetric. */
  lemma HypotIsDistance(dist: Metric)
    requires IsHypot(dist)
    ensures NonNegative(dist)
    ensures Symmetric(dist)
  {
    forall p, q
      ensures dist(p, q) == dist(q, p)
    {
      assert SqDist(p, q) == SqDist(q, p);
      RootUnique(dist(p, q), dist(q, p));
    }
  }

  /** For the strict threshold, comparing the Euclidean distance with
      MAX_DISTANCE is the same as comparing the squared distance with its
      square. */
  lemma WithinIffSquared(dist: Metric, p: Vec, q: Vec)
    requires IsHypot(dist)
    ensures dist(p, q) < MAX_DISTANCE <==> SqDist(p, q) < Sq(MAX_DISTANCE)
  {
    var d := dist(p, q);
    assert 0.0 <= d && Sq(d) == SqDist(p, q);
    if d < MAX_DISTANCE {
      SquareMonotone(d, MAX_DISTANCE);
    } else if MAX_DISTANCE < d {
      SquareMonotone(MAX_DISTANCE, d);
    }
  }
}
