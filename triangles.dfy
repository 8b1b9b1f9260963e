/** Triangle detection: every index triple of the vertex set whose three
    sides are all shorter than MAX_DISTANCE, with its fill intensity. */
module Triangles {
  import opened Points

  /** A reported triangle: vertex indices i < j < k and its intensity. */
  datatype Triangle = Triangle(i: nat, j: nat, k: nat, intensity: real)

  /** `1 - average / MAX_DISTANCE`: higher for tighter triangles. */
  function Intensity(d1: real, d2: real, d3: real): (r: real)
    ensures (0.0 <= d1 < MAX_DISTANCE && 0.0 <= d2 < MAX_DISTANCE && 0.0 <= d3 < MAX_DISTANCE)
            ==> 0.0 < r <= 1.0
    ensures (0.0 <= d1 && 0.0 <= d2 && 0.0 <= d3)
            ==> (r == 1.0 <==> d1 == 0.0 && d2 == 0.0 && d3 == 0.0)
  {
    var averageDist := (d1 + d2 + d3) / 3.0;
    1.0 - averageDist / MAX_DISTANCE
  }

  /** All three sides of the triangle (i, j, k) are below the threshold. */
  predicate Close(vs: seq<Vec>, dist: Metric, i: nat, j: nat, k: nat)
    requires i < |vs| && j < |vs| && k < |vs|
  {
    && dist(vs[i], vs[j]) < MAX_DISTANCE
    && dist(vs[j], vs[k]) < MAX_DISTANCE
    && dist(vs[k], vs[i]) < MAX_DISTANCE
  }

  function TriangleAt(vs: seq<Vec>, dist: Metric, i: nat, j: nat, k: nat): Triangle
    requires i < |vs| && j < |vs| && k < |vs|
  {
    Triangle(i, j, k, Intensity(dist(vs[i], vs[j]), dist(vs[j], vs[k]), dist(vs[k], vs[i])))
  }

  /** What a correct enumeration reports: an increasing index triple whose
      sides are all close, carrying the intensity of those sides. */
  predicate Reported(vs: seq<Vec>, dist: Metric, t: Triangle)
  {
    && t.i < t.j < t.k < |vs|
    && Close(vs, dist, t.i, t.j, t.k)
    && t == TriangleAt(vs, dist, t.i, t.j, t.k)
  }

  /** Lexicographic order on the index triples. */
  predicate Before(s: Triangle, t: Triangle)
  {
    s.i < t.i || (s.i == t.i && (s.j < t.j || (s.j == t.j && s.k < t.k)))
  }

  predicate Ascending(tris: seq<Triangle>)
  {
    forall p, q :: 0 <= p < q < |tris| ==> Before(tris[p], tris[q])
  }

  /** The triple loop over i < j < k. The result holds every qualifying
      triple and nothing else, in strictly increasing order, so each one
      exactly once. */
  method DrawTriangles(vs: seq<Vec>, dist: Metric) returns (tris: seq<Triangle>)
    ensures forall t :: t in tris <==> Reported(vs, dist, t)
    ensures Ascending(tris)
  {
    tris := [];
    var n := |vs|;
    var i := 0;
    while i < n
      invariant 0 <= i <= n
      invariant forall t :: t in tris <==> Reported(vs, dist, t) && t.i < i
      invariant Ascending(tris)
    {
      var j := i + 1;
      while j < n
        invariant i + 1 <= j <= n
        invariant forall t :: t in tris <==> Reported(vs, dist, t) && (t.i < i || (t.i == i && t.j < j))
        invariant Ascending(tris)
      {
        var k := j + 1;
        while k < n
          invariant j + 1 <= k <= n
          invariant forall t :: t in tris <==>
                      Reported(vs, dist, t) && (t.i < i || (t.i == i && (t.j < j || (t.j == j && t.k < k))))
          invariant Ascending(tris)
        {
          var dist1 := dist(vs[i], vs[j]);
          var dist2 := dist(vs[j], vs[k]);
          var dist3 := dist(vs[k], vs[i]);
          if dist1 < MAX_DISTANCE && dist2 < MAX_DISTANCE && dist3 < MAX_DISTANCE {
            tris := tris + [Triangle(i, j, k, Intensity(dist1, dist2, dist3))];
          }
          k := k + 1;
        }
        j := j + 1;
      }
      i := i + 1;
    }
  }

  /** Every reported triangle has an intensity in (0, 1]. */
  lemma ReportedIntensity(vs: seq<Vec>, dist: Metric, t: Triangle)
    requires NonNegative(dist)
    requires Reported(vs, dist, t)
    ensures 0.0 < t.intensity <= 1.0
  {
    var d1, d2, d3 := dist(vs[t.i], vs[t.j]), dist(vs[t.j], vs[t.k]), dist(vs[t.k], vs[t.i]);
    assert 0.0 <= d1 && 0.0 <= d2 && 0.0 <= d3;
  }

  /** An ascending list names each index triple at most once. */
  lemma AscendingIsDistinct(tris: seq<Triangle>, p: nat, q: nat)
    requires Ascending(tris)
    requires p < q < |tris|
    ensures (tris[p].i, tris[p].j, tris[p].k) != (tris[q].i, tris[q].j, tris[q].k)
  {
  }

  /** Two dots at (0, 0) and (100, 0) and the pointer at (50, 0): the sides
      are 100, 50 and 50, so the only triangle is (0, 1, 2) with intensity
      1 - (200/3)/150 = 5/9. */
  function Collinear(): seq<Vec>
  {
    [Vec(0.0, 0.0), Vec(100.0, 0.0), Vec(50.0, 0.0)]
  }

  lemma CollinearSquares()
    ensures SqDist(Vec(0.0, 0.0), Vec(100.0, 0.0)) == Sq(100.0)
    ensures SqDist(Vec(100.0, 0.0), Vec(50.0, 0.0)) == Sq(50.0)
    ensures SqDist(Vec(50.0, 0.0), Vec(0.0, 0.0)) == Sq(50.0)
  {
    assert Sq(0.0) == 0.0;
    assert Sq(100.0) == 10000.0 && Sq(-100.0) == 10000.0;
    assert Sq(50.0) == 2500.0;
  }

  /** Under the Euclidean distance the three sides are 100, 50 and 50. */
  lemma CollinearSides(dist: Metric)
    requires IsHypot(dist)
    ensures dist(Vec(0.0, 0.0), Vec(100.0, 0.0)) == 100.0
    ensures dist(Vec(100.0, 0.0), Vec(50.0, 0.0)) == 50.0
    ensures dist(Vec(50.0, 0.0), Vec(0.0, 0.0)) == 50.0
  {
    CollinearSquares();
    HypotAt(dist, Vec(0.0, 0.0), Vec(100.0, 0.0), 100.0);
    HypotAt(dist, Vec(100.0, 0.0), Vec(50.0, 0.0), 50.0);
    HypotAt(dist, Vec(50.0, 0.0), Vec(0.0, 0.0), 50.0);
  }

  /** With those sides, (0, 1, 2) is the one triangle to report. */
  lemma CollinearOnly(dist: Metric)
    requires dist(Vec(0.0, 0.0), Vec(100.0, 0.0)) == 100.0
    requires dist(Vec(100.0, 0.0), Vec(50.0, 0.0)) == 50.0
    requires dist(Vec(50.0, 0.0), Vec(0.0, 0.0)) == 50.0
    ensures forall t :: Reported(Collinear(), dist, t) <==> t == Triangle(0, 1, 2, 5.0 / 9.0)
  {
    var vs := Collinear();
    assert vs[0] == Vec(0.0, 0.0) && vs[1] == Vec(100.0, 0.0) && vs[2] == Vec(50.0, 0.0);
    assert Intensity(100.0, 50.0, 50.0) == 5.0 / 9.0;
    assert TriangleAt(vs, dist, 0, 1, 2) == Triangle(0, 1, 2, 5.0 / 9.0);
    forall t | Reported(vs, dist, t)
      ensures t == Triangle(0, 1, 2, 5.0 / 9.0)
    {
      assert t.i == 0 && t.j == 1 && t.k == 2;
    }
  }

  lemma CollinearTriangle(dist: Metric)
    requires IsHypot(dist)
    ensures forall t :: Reported(Collinear(), dist, t) <==> t == Triangle(0, 1, 2, 5.0 / 9.0)
  {
    CollinearSides(dist);
    CollinearOnly(dist);
  }

  /** A strictly ascending list whose only member is `t` is `[t]`. */
  lemma AscendingSingleton(tris: seq<Triangle>, t: Triangle)
    requires Ascending(tris)
    requires forall u :: u in tris <==> u == t
    ensures tris == [t]
  {
    assert t in tris;
    forall p | 0 <= p < |tris|
      ensures tris[p] == t
    {
      assert tris[p] in tris;
    }
    assert |tris| >= 2 ==> Before(tris[0], tris[1]);
    assert !Before(t, t);
    assert |tris| == 1 && tris[0] == t;
  }

  /** The builder reports that triangle, once, and nothing else. */
  method CollinearFrame(dist: Metric) returns (tris: seq<Triangle>)
    requires IsHypot(dist)
    ensures Ascending(tris)
    ensures tris == [Triangle(0, 1, 2, 5.0 / 9.0)]
  {
    tris := DrawTriangles(Collinear(), dist);
    CollinearTriangle(dist);
    AscendingSingleton(tris, Triangle(0, 1, 2, 5.0 / 9.0));
  }
}
