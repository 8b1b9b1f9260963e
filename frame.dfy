/** One animation frame: step the dots, then build the proximity graph of
    the stepped dots and the pointer. */
module Frame {
  import opened Points
  import opened Motion
  import opened Triangles
  import opened Lines

  method Animate(dots: array<Dot>, mouse: Vec, width: real, height: real, dist: Metric)
    returns (tris: seq<Triangle>, lines: seq<seq<Edge>>)
    modifies dots
    ensures dots[..] == StepAll(old(dots[..]), width, height)
    ensures forall t :: t in tris <==> Reported(Vertices(dots[..], mouse), dist, t)
    ensures Ascending(tris)
    ensures |lines| == dots.Length + 1
    ensures forall a :: 0 <= a <= dots.Length ==> lines[a] == Strokes(Vertices(dots[..], mouse), dist, a)
  {
    UpdateDots(dots, width, height);
    var allDots := Vertices(dots[..], mouse);
    tris := DrawTriangles(allDots, dist);
    lines := DrawLines(allDots, dist);
  }
}
