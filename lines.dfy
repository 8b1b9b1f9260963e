/** Nearest-neighbour edges: for every vertex, the (at most five) closest
    other vertices within MAX_DISTANCE, nearest first, with a line opacity. */
module Lines {
  import opened Points

  /** How many of a vertex's nearest neighbours get a line. */
  const MAX_LINKS: nat := 5

  /** An entry of a vertex's neighbour list: the other vertex's index and
      its distance. */
  datatype Link = Link(to: nat, distance: real)

  /** A line drawn from vertex `from` to vertex `to`. */
  datatype Edge = Edge(from: nat, to: nat, opacity: real)

  /** `1 - d / MAX_DISTANCE`: fades out as the neighbour gets farther. */
  function Opacity(d: real): (r: real)
    ensures 0.0 <= d < MAX_DISTANCE ==> 0.0 < r <= 1.0
  {
    1.0 - d / MAX_DISTANCE
  }

  /** A farther neighbour never gets a more opaque line. */
  lemma OpacityFades(d: real, e: real)
    requires d <= e
    ensures Opacity(e) <= Opacity(d)
  {
  }

  /** The link from vertex `a` to vertex `b`, measured as the source does
      (from the other vertex to this one). */
  function LinkTo(vs: seq<Vec>, dist: Metric, a: nat, b: nat): Link
    requires a < |vs| && b < |vs|
  {
    Link(b, dist(vs[b], vs[a]))
  }

  /** `l` names another vertex within MAX_DISTANCE of `a`, with its distance. */
  predicate InRange(vs: seq<Vec>, dist: Metric, a: nat, l: Link)
    requires a < |vs|
  {
    && l.to < |vs| && l.to != a
    && l == LinkTo(vs, dist, a, l.to)
    && l.distance < MAX_DISTANCE
  }

  /** The neighbour list of `a` as collected over the vertices 0 .. n-1,
      in index order, before sorting. */
  function Candidates(vs: seq<Vec>, dist: Metric, a: nat, n: nat): seq<Link>
    requires a < |vs| && n <= |vs|
  {
    if n == 0 then []
    else
      var b := n - 1;
      var more := if b != a && dist(vs[b], vs[a]) < MAX_DISTANCE then [LinkTo(vs, dist, a, b)] else [];
      Candidates(vs, dist, a, b) + more
  }

  predicate IncreasingTargets(s: seq<Link>)
  {
    forall p, q :: 0 <= p < q < |s| ==> s[p].to < s[q].to
  }

  /** Ascending by distance. */
  predicate ByDistance(s: seq<Link>)
  {
    forall p, q :: 0 <= p < q < |s| ==> s[p].distance <= s[q].distance
  }

  /** Nearer first, and among equally near ones the lower index first. */
  predicate Precedes(l: Link, m: Link)
  {
    l.distance < m.distance || (l.distance == m.distance && l.to < m.to)
  }

  predicate ByDistanceThenIndex(s: seq<Link>)
  {
    forall p, q :: 0 <= p < q < |s| ==> Precedes(s[p], s[q])
  }

  /** The collected list holds exactly the in-range neighbours below n. */
  lemma {:induction false} CandidatesMembers(vs: seq<Vec>, dist: Metric, a: nat, n: nat)
    requires a < |vs| && n <= |vs|
    ensures forall l :: l in Candidates(vs, dist, a, n) <==> InRange(vs, dist, a, l) && l.to < n
  {
    if n > 0 {
      CandidatesMembers(vs, dist, a, n - 1);
    }
  }

  /** The collected list is in increasing index order. */
  lemma {:induction false} CandidatesIncreasing(vs: seq<Vec>, dist: Metric, a: nat, n: nat)
    requires a < |vs| && n <= |vs|
    ensures IncreasingTargets(Candidates(vs, dist, a, n))
  {
    if n > 0 {
      var prefix := Candidates(vs, dist, a, n - 1);
      CandidatesIncreasing(vs, dist, a, n - 1);
      CandidatesMembers(vs, dist, a, n - 1);
      forall p | 0 <= p < |prefix|
        ensures prefix[p].to < n - 1
      {
        assert prefix[p] in prefix;
      }
    }
  }

  /** The collected list has at most one entry per other vertex below n. */
  lemma {:induction false} CandidatesLength(vs: seq<Vec>, dist: Metric, a: nat, n: nat)
    requires a < |vs| && n <= |vs|
    ensures |Candidates(vs, dist, a, n)| <= if a < n then n - 1 else n
  {
    if n > 0 {
      CandidatesLength(vs, dist, a, n - 1);
    }
  }

  /** The collected list holds exactly the in-range neighbours below n,
      in increasing index order. */
  lemma CandidatesSpec(vs: seq<Vec>, dist: Metric, a: nat, n: nat)
    requires a < |vs| && n <= |vs|
    ensures forall l :: l in Candidates(vs, dist, a, n) <==> InRange(vs, dist, a, l) && l.to < n
    ensures IncreasingTargets(Candidates(vs, dist, a, n))
    ensures |Candidates(vs, dist, a, n)| <= if a < n then n - 1 else n
  {
    CandidatesMembers(vs, dist, a, n);
    CandidatesIncreasing(vs, dist, a, n);
    CandidatesLength(vs, dist, a, n);
  }

  /** Stable insertion: `l` goes before the first element that is not
      nearer than it. */
  function Insert(l: Link, s: seq<Link>): (r: seq<Link>)
    ensures multiset(r) == multiset(s) + multiset{l}
  {
    if s == [] || l.distance <= s[0].distance then [l] + s
    else
      assert s == [s[0]] + s[1..];
      [s[0]] + Insert(l, s[1..])
  }

  lemma InsertHolds(l: Link, s: seq<Link>, m: Link)
    requires m in Insert(l, s)
    ensures m in s || m == l
  {
    assert m in multiset(Insert(l, s));
  }

  lemma {:induction false} InsertByDistance(l: Link, s: seq<Link>)
    requires ByDistance(s)
    ensures ByDistance(Insert(l, s))
  {
    if s != [] && s[0].distance < l.distance {
      var tail := Insert(l, s[1..]);
      InsertByDistance(l, s[1..]);
      forall q | 0 <= q < |tail| ensures s[0].distance <= tail[q].distance {
        InsertHolds(l, s[1..], tail[q]);
      }
    }
  }

  lemma {:induction false} InsertByDistanceThenIndex(l: Link, s: seq<Link>)
    requires ByDistanceThenIndex(s)
    requires forall m :: m in s ==> l.to < m.to
    ensures ByDistanceThenIndex(Insert(l, s))
  {
    if s != [] && s[0].distance < l.distance {
      var tail := Insert(l, s[1..]);
      InsertByDistanceThenIndex(l, s[1..]);
      forall q | 0 <= q < |tail| ensures Precedes(s[0], tail[q]) {
        InsertHolds(l, s[1..], tail[q]);
      }
    }
  }

  /** The ascending sort of the neighbour list: a stable insertion sort, as
      `Array.prototype.sort` with the comparator `a.distance - b.distance`
      is stable. */
  function SortByDistance(s: seq<Link>): (r: seq<Link>)
    ensures multiset(r) == multiset(s)
  {
    if s == [] then []
    else
      assert s == [s[0]] + s[1..];
      Insert(s[0], SortByDistance(s[1..]))
  }

  lemma SortedHolds(s: seq<Link>, m: Link)
    requires m in SortByDistance(s)
    ensures m in s
  {
    assert m in multiset(SortByDistance(s));
  }

  /** The sorted list is ascending by distance. */
  lemma {:induction false} SortIsByDistance(s: seq<Link>)
    ensures ByDistance(SortByDistance(s))
  {
    if s != [] {
      SortIsByDistance(s[1..]);
      InsertByDistance(s[0], SortByDistance(s[1..]));
    }
  }

  /** Sorting a list collected in index order is stable: equally near
      neighbours keep their index order. */
  lemma {:induction false} SortIsStable(s: seq<Link>)
    requires IncreasingTargets(s)
    ensures ByDistanceThenIndex(SortByDistance(s))
  {
    if s != [] {
      var rest := SortByDistance(s[1..]);
      SortIsStable(s[1..]);
      forall m | m in rest ensures s[0].to < m.to {
        SortedHolds(s[1..], m);
      }
      InsertByDistanceThenIndex(s[0], rest);
    }
  }

  /** `slice(0, n)`: the first n elements, or all of them when there are fewer. */
  function Take(s: seq<Link>, n: nat): (r: seq<Link>)
  {
    if |s| <= n then s else s[..n]
  }

  /** The links kept for vertex `a`. */
  function Nearest(vs: seq<Vec>, dist: Metric, a: nat): seq<Link>
    requires a < |vs|
  {
    Take(SortByDistance(Candidates(vs, dist, a, |vs|)), MAX_LINKS)
  }

  /** The lines drawn from vertex `a`. */
  function Strokes(vs: seq<Vec>, dist: Metric, a: nat): seq<Edge>
    requires a < |vs|
  {
    var kept := Nearest(vs, dist, a);
    seq(|kept|, q requires 0 <= q < |kept| => Edge(a, kept[q].to, Opacity(kept[q].distance)))
  }

  /** The sorted candidate list holds exactly the in-range neighbours of
      `a`, nearest first and, among equally near ones, lower index first. */
  lemma SortedCandidates(vs: seq<Vec>, dist: Metric, a: nat)
    requires a < |vs|
    ensures forall l :: l in SortByDistance(Candidates(vs, dist, a, |vs|)) <==> InRange(vs, dist, a, l)
    ensures ByDistanceThenIndex(SortByDistance(Candidates(vs, dist, a, |vs|)))
    ensures |SortByDistance(Candidates(vs, dist, a, |vs|))| < |vs|
  {
    var cands := Candidates(vs, dist, a, |vs|);
    var sorted := SortByDistance(cands);
    CandidatesSpec(vs, dist, a, |vs|);
    SortIsStable(cands);
    forall l ensures l in sorted <==> l in cands {
      assert l in sorted <==> l in multiset(sorted);
      assert l in cands <==> l in multiset(cands);
    }
    assert |sorted| == |multiset(sorted)| == |multiset(cands)| == |cands|;
  }

  /** An element that `Take` drops from a list in `Precedes` order comes
      after every element it keeps, and is dropped only from a full prefix. */
  lemma TakeDrops(s: seq<Link>, n: nat, m: Link)
    requires ByDistanceThenIndex(s)
    requires m in s && m !in Take(s, n)
    ensures |Take(s, n)| == n
    ensures forall l :: l in Take(s, n) ==> Precedes(l, m)
  {
    var p :| 0 <= p < |s| && s[p] == m;
    forall l | l in Take(s, n) ensures Precedes(l, m) {
      var q :| 0 <= q < |Take(s, n)| && Take(s, n)[q] == l;
      assert s[q] == l;
    }
  }

  /** What the neighbour selection promises: at most MAX_LINKS entries, each
      another in-range vertex, each at most once, nearest first; and any
      in-range neighbour left out is preceded by every kept one (so it is at
      least as far as all of them) and is left out only when the list is
      full. */
  lemma NearestSpec(vs: seq<Vec>, dist: Metric, a: nat)
    requires a < |vs|
    ensures |Nearest(vs, dist, a)| <= MAX_LINKS
    ensures forall l :: l in Nearest(vs, dist, a) ==> InRange(vs, dist, a, l)
    ensures ByDistanceThenIndex(Nearest(vs, dist, a))
    ensures forall b :: 0 <= b < |vs| && b != a && dist(vs[b], vs[a]) < MAX_DISTANCE &&
                        LinkTo(vs, dist, a, b) !in Nearest(vs, dist, a) ==>
              && |Nearest(vs, dist, a)| == MAX_LINKS
              && forall l :: l in Nearest(vs, dist, a) ==> Precedes(l, LinkTo(vs, dist, a, b))
  {
    var sorted := SortByDistance(Candidates(vs, dist, a, |vs|));
    var kept := Nearest(vs, dist, a);
    SortedCandidates(vs, dist, a);
    assert forall l :: l in kept ==> l in sorted;
    forall b | 0 <= b < |vs| && b != a && dist(vs[b], vs[a]) < MAX_DISTANCE &&
               LinkTo(vs, dist, a, b) !in kept
      ensures |kept| == MAX_LINKS
      ensures forall l :: l in kept ==> Precedes(l, LinkTo(vs, dist, a, b))
    {
      assert InRange(vs, dist, a, LinkTo(vs, dist, a, b));
      TakeDrops(sorted, MAX_LINKS, LinkTo(vs, dist, a, b));
    }
  }

  /** The edge list of a vertex: each line goes from `a` to another vertex
      within range, with that neighbour's opacity, in (0, 1] for a
      non-negative distance, fading along the list. */
  lemma StrokesSpec(vs: seq<Vec>, dist: Metric, a: nat)
    requires a < |vs|
    ensures |Strokes(vs, dist, a)| <= MAX_LINKS
    ensures forall e :: e in Strokes(vs, dist, a) ==>
              && e.from == a && e.to < |vs| && e.to != a
              && dist(vs[e.to], vs[a]) < MAX_DISTANCE
              && e.opacity == Opacity(dist(vs[e.to], vs[a]))
              && (NonNegative(dist) ==> 0.0 < e.opacity <= 1.0)
    ensures forall p, q :: 0 <= p < q < |Strokes(vs, dist, a)| ==>
              Strokes(vs, dist, a)[q].opacity <= Strokes(vs, dist, a)[p].opacity
  {
    NearestSpec(vs, dist, a);
    var kept := Nearest(vs, dist, a);
    var e := Strokes(vs, dist, a);
    forall p | 0 <= p < |e|
      ensures e[p].from == a && kept[p] in kept
    {
    }
  }

  /** An edge is not deduplicated: when neither of two vertices in range of
      each other has more than MAX_LINKS in-range neighbours, each draws a
      line to the other. */
  lemma EdgeFromBothEnds(vs: seq<Vec>, dist: Metric, a: nat, b: nat)
    requires a < |vs| && b < |vs| && a != b
    requires |Candidates(vs, dist, a, |vs|)| <= MAX_LINKS
    requires |Candidates(vs, dist, b, |vs|)| <= MAX_LINKS
    requires dist(vs[b], vs[a]) < MAX_DISTANCE && dist(vs[a], vs[b]) < MAX_DISTANCE
    ensures Edge(a, b, Opacity(dist(vs[b], vs[a]))) in Strokes(vs, dist, a)
    ensures Edge(b, a, Opacity(dist(vs[a], vs[b]))) in Strokes(vs, dist, b)
  {
    KeptWhenFew(vs, dist, a, b);
    KeptWhenFew(vs, dist, b, a);
  }

  /** A vertex with at most MAX_LINKS in-range neighbours draws a line to
      every one of them. */
  lemma KeptWhenFew(vs: seq<Vec>, dist: Metric, a: nat, b: nat)
    requires a < |vs| && b < |vs| && a != b
    requires |Candidates(vs, dist, a, |vs|)| <= MAX_LINKS
    requires dist(vs[b], vs[a]) < MAX_DISTANCE
    ensures Edge(a, b, Opacity(dist(vs[b], vs[a]))) in Strokes(vs, dist, a)
  {
    var cands := Candidates(vs, dist, a, |vs|);
    CandidatesSpec(vs, dist, a, |vs|);
    var sorted := SortByDistance(cands);
    assert |sorted| == |cands| by {
      assert |multiset(sorted)| == |multiset(cands)|;
    }
    var kept := Nearest(vs, dist, a);
    assert kept == sorted;
    var m := LinkTo(vs, dist, a, b);
    assert m in cands;
    assert m in multiset(sorted);
    var q :| 0 <= q < |kept| && kept[q] == m;
    assert Strokes(vs, dist, a)[q] == Edge(a, b, Opacity(dist(vs[b], vs[a])));
  }

  /** The inner pass over all vertices: every other vertex closer than
      MAX_DISTANCE, pushed in index order. */
  method CollectNeighbours(vs: seq<Vec>, dist: Metric, a: nat) returns (nearestDots: seq<Link>)
    requires a < |vs|
    ensures nearestDots == Candidates(vs, dist, a, |vs|)
  {
    nearestDots := [];
    var b := 0;
    while b < |vs|
      invariant 0 <= b <= |vs|
      invariant nearestDots == Candidates(vs, dist, a, b)
    {
      if b != a {
        var dotDistance := dist(vs[b], vs[a]);
        if dotDistance < MAX_DISTANCE {
          nearestDots := nearestDots + [Link(b, dotDistance)];
        }
      }
      b := b + 1;
    }
  }

  /** The lines of one vertex to its kept links, one per link, in order. */
  method EmitEdges(a: nat, kept: seq<Link>) returns (edges: seq<Edge>)
    ensures |edges| == |kept|
    ensures forall r :: 0 <= r < |kept| ==> edges[r] == Edge(a, kept[r].to, Opacity(kept[r].distance))
  {
    edges := [];
    var q := 0;
    while q < |kept|
      invariant 0 <= q <= |kept|
      invariant |edges| == q
      invariant forall r :: 0 <= r < q ==> edges[r] == Edge(a, kept[r].to, Opacity(kept[r].distance))
    {
      edges := edges + [Edge(a, kept[q].to, Opacity(kept[q].distance))];
      q := q + 1;
    }
  }

  /** One vertex's pass: collect the in-range others, sort them by
      distance, keep the first MAX_LINKS, and emit a line to each. */
  method ConnectVertex(vs: seq<Vec>, dist: Metric, a: nat) returns (edges: seq<Edge>)
    requires a < |vs|
    ensures edges == Strokes(vs, dist, a)
  {
    var nearestDots := CollectNeighbours(vs, dist, a);
    var kept := Take(SortByDistance(nearestDots), MAX_LINKS);
    assert kept == Nearest(vs, dist, a);
    edges := EmitEdges(a, kept);
  }

  /** Every vertex's lines, vertex by vertex. */
  method DrawLines(vs: seq<Vec>, dist: Metric) returns (lines: seq<seq<Edge>>)
    ensures |lines| == |vs|
    ensures forall a :: 0 <= a < |vs| ==> lines[a] == Strokes(vs, dist, a)
  {
    lines := [];
    var a := 0;
    while a < |vs|
      invariant 0 <= a <= |vs|
      invariant |lines| == a
      invariant forall c :: 0 <= c < a ==> lines[c] == Strokes(vs, dist, c)
    {
      var edges := ConnectVertex(vs, dist, a);
      lines := lines + [edges];
      a := a + 1;
    }
  }
}
