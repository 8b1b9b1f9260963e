/** The dot simulation: seeding the dots, and the per-frame bounce step that
    advances every dot and reverses a velocity component at the viewport's
    edge. */
module Motion {
  import opened Points

  /** No velocity component ever exceeds this magnitude (from the seeding
      `(r - 0.5) * 0.5` with `r` in [0, 1)). */
  const MAX_SPEED: real := 0.25

  function Abs(r: real): real { if r < 0.0 then -r else r }

  /** One axis of the step: the coordinate advances by the velocity, then the
      velocity is reversed when the new coordinate lies outside [0, extent].
      The coordinate itself is never clamped. Returns (coordinate, velocity). */
  function Bounce(p: real, v: real, extent: real): (r: (real, real))
    ensures r.0 == p + v
    ensures Abs(r.1) == Abs(v)
  {
    var q := p + v;
    (q, if q < 0.0 || q > extent then -v else v)
  }

  /** The step of one dot; the two axes are independent of each other. */
  function StepDot(d: Dot, width: real, height: real): (e: Dot)
    ensures e.x == d.x + d.dx && e.y == d.y + d.dy
    ensures d.x + d.dx < 0.0 || d.x + d.dx > width ==> e.dx == -d.dx
    ensures 0.0 <= d.x + d.dx <= width ==> e.dx == d.dx
    ensures d.y + d.dy < 0.0 || d.y + d.dy > height ==> e.dy == -d.dy
    ensures 0.0 <= d.y + d.dy <= height ==> e.dy == d.dy
  {
    var (x, dx) := Bounce(d.x, d.dx, width);
    var (y, dy) := Bounce(d.y, d.dy, height);
    Dot(x, y, dx, dy)
  }

  /** One frame's step of the whole population. */
  function StepAll(dots: seq<Dot>, width: real, height: real): (r: seq<Dot>)
    ensures |r| == |dots|
    ensures forall i :: 0 <= i < |dots| ==> r[i] == StepDot(dots[i], width, height)
  {
    seq(|dots|, i requires 0 <= i < |dots| => StepDot(dots[i], width, height))
  }

  /** The population after `n` frames in a fixed viewport. */
  function StepN(dots: seq<Dot>, n: nat, width: real, height: real): seq<Dot>
    decreases n
  {
    if n == 0 then dots else StepN(StepAll(dots, width, height), n - 1, width, height)
  }

  /** The in-place step over the dots array: each dot, in turn, gets its new
      position and then, axis by axis, its reflected velocity. */
  method UpdateDots(dots: array<Dot>, width: real, height: real)
    modifies dots
    ensures dots[..] == StepAll(old(dots[..]), width, height)
  {
    var i := 0;
    while i < dots.Length
      invariant 0 <= i <= dots.Length
      invariant forall k :: 0 <= k < i ==> dots[k] == StepDot(old(dots[k]), width, height)
      invariant forall k :: i <= k < dots.Length ==> dots[k] == old(dots[k])
    {
      var dot := dots[i];
      dot := dot.(x := dot.x + dot.dx);
      dot := dot.(y := dot.y + dot.dy);
      if dot.x < 0.0 || dot.x > width {
        dot := dot.(dx := -dot.dx);
      }
      if dot.y < 0.0 || dot.y > height {
        dot := dot.(dy := -dot.dy);
      }
      dots[i] := dot;
      i := i + 1;
    }
  }

  /** On one axis: the coordinate is inside [0, extent], or it overshot by
      at most one step and the (already reversed) velocity brings it back
      inside on the next step. */
  predicate Contained(p: real, v: real, extent: real)
  {
    || 0.0 <= p <= extent
    || (p < 0.0 && 0.0 < v && 0.0 <= p + v <= extent)
    || (extent < p && v < 0.0 && 0.0 <= p + v <= extent)
  }

  /** The state every seeded dot starts in and keeps while the viewport
      does not change. */
  predicate Drifting(d: Dot, width: real, height: real)
  {
    && Abs(d.dx) <= MAX_SPEED && Abs(d.dy) <= MAX_SPEED
    && Contained(d.x, d.dx, width) && Contained(d.y, d.dy, height)
  }

  predicate AllDrifting(dots: seq<Dot>, width: real, height: real)
  {
    forall i :: 0 <= i < |dots| ==> Drifting(dots[i], width, height)
  }

  /** A contained coordinate is never farther outside the viewport than its
      speed. */
  lemma ContainedIsNear(p: real, v: real, extent: real)
    requires Contained(p, v, extent)
    ensures -Abs(v) <= p <= extent + Abs(v)
  {
  }

  /** The bounce keeps a contained coordinate contained. */
  lemma BounceKeepsContained(p: real, v: real, extent: real)
    requires Contained(p, v, extent)
    ensures Contained(Bounce(p, v, extent).0, Bounce(p, v, extent).1, extent)
  {
  }

  lemma StepKeepsDrifting(dots: seq<Dot>, width: real, height: real)
    requires AllDrifting(dots, width, height)
    ensures AllDrifting(StepAll(dots, width, height), width, height)
  {
    forall i | 0 <= i < |dots|
      ensures Drifting(StepAll(dots, width, height)[i], width, height)
    {
      var d := dots[i];
      BounceKeepsContained(d.x, d.dx, width);
      BounceKeepsContained(d.y, d.dy, height);
    }
  }

  /** Velocity magnitudes never change, and no dot ever gets farther than
      MAX_SPEED outside a viewport that keeps its size. */
  lemma {:induction false} DriftingForever(dots: seq<Dot>, n: nat, width: real, height: real)
    requires AllDrifting(dots, width, height)
    decreases n
    ensures |StepN(dots, n, width, height)| == |dots|
    ensures AllDrifting(StepN(dots, n, width, height), width, height)
  {
    if n > 0 {
      StepKeepsDrifting(dots, width, height);
      DriftingForever(StepAll(dots, width, height), n - 1, width, height);
    }
  }

  /** The population after one frame per entry of `viewports`, each frame
      stepped against that frame's (width, height): the canvas may be
      resized between any two frames. */
  function StepFrames(dots: seq<Dot>, viewports: seq<(real, real)>): seq<Dot>
    decreases |viewports|
  {
    if viewports == [] then dots
    else StepFrames(StepAll(dots, viewports[0].0, viewports[0].1), viewports[1..])
  }

  /** Whatever the viewports, every frame keeps the number of dots and the
      magnitude of each velocity component of each dot. */
  lemma {:induction false} ResizesKeepSpeeds(dots: seq<Dot>, viewports: seq<(real, real)>)
    decreases |viewports|
    ensures |StepFrames(dots, viewports)| == |dots|
    ensures forall i :: 0 <= i < |dots| ==>
              && Abs(StepFrames(dots, viewports)[i].dx) == Abs(dots[i].dx)
              && Abs(StepFrames(dots, viewports)[i].dy) == Abs(dots[i].dy)
  {
    if viewports != [] {
      var next := StepAll(dots, viewports[0].0, viewports[0].1);
      ResizesKeepSpeeds(next, viewports[1..]);
      forall i | 0 <= i < |dots|
        ensures Abs(next[i].dx) == Abs(dots[i].dx) && Abs(next[i].dy) == Abs(dots[i].dy)
      {
        var d := dots[i];
        assert next[i].dx == Bounce(d.x, d.dx, viewports[0].0).1;
        assert next[i].dy == Bounce(d.y, d.dy, viewports[0].1).1;
      }
    }
  }

  /** Dots that do not move stay where they are, frame after frame. */
  lemma {:induction false} RestingDotsStay(dots: seq<Dot>, n: nat, width: real, height: real)
    requires forall i :: 0 <= i < |dots| ==> dots[i].dx == 0.0 && dots[i].dy == 0.0
    ensures StepN(dots, n, width, height) == dots
  {
    if n > 0 {
      assert StepAll(dots, width, height) == dots;
      RestingDotsStay(dots, n - 1, width, height);
    }
  }

  /** A coordinate beyond the far edge that is still beyond it after one
      step (possible after the viewport shrinks) flips its velocity every
      frame and returns to the same state every second frame: it never
      comes back inside. */
  lemma StuckBeyondExtent(p: real, v: real, extent: real)
    requires extent < p && extent < p + v
    ensures var (p1, v1) := Bounce(p, v, extent);
            v1 == -v && Bounce(p1, v1, extent) == (p, v)
  {
  }

  /** The same below the origin: below 0, and still below 0 after one step. */
  lemma StuckBelowOrigin(p: real, v: real, extent: real)
    requires p < 0.0 && p + v < 0.0
    ensures var (p1, v1) := Bounce(p, v, extent);
            v1 == -v && Bounce(p1, v1, extent) == (p, v)
  {
  }

  /** The four `Math.random()` results that seed one dot, in the order the
      source draws them. */
  datatype Draw = Draw(rx: real, ry: real, rdx: real, rdy: real)

  predicate UnitDraw(r: Draw)
  {
    && 0.0 <= r.rx < 1.0 && 0.0 <= r.ry < 1.0
    && 0.0 <= r.rdx < 1.0 && 0.0 <= r.rdy < 1.0
  }

  /** A seeded dot: uniformly placed in the viewport, with a small velocity. */
  function SeedDot(r: Draw, width: real, height: real): Dot
  {
    Dot(r.rx * width, r.ry * height, (r.rdx - 0.5) * 0.5, (r.rdy - 0.5) * 0.5)
  }

  lemma ScaleWithin(r: real, extent: real)
    requires 0.0 <= r < 1.0 && 0.0 <= extent
    ensures 0.0 <= r * extent <= extent
  {
    assert r * extent <= 1.0 * extent;
  }

  /** A seeded dot lies in the viewport and moves slower than MAX_SPEED. */
  lemma SeedDotBounds(r: Draw, width: real, height: real)
    requires UnitDraw(r) && 0.0 <= width && 0.0 <= height
    ensures var d := SeedDot(r, width, height);
            && 0.0 <= d.x <= width && 0.0 <= d.y <= height
            && -MAX_SPEED <= d.dx < MAX_SPEED && -MAX_SPEED <= d.dy < MAX_SPEED
  {
    ScaleWithin(r.rx, width);
    ScaleWithin(r.ry, height);
    assert SeedDot(r, width, height).x == r.rx * width && SeedDot(r, width, height).y == r.ry * height;
  }

  function Seeded(draws: seq<Draw>, width: real, height: real): seq<Dot>
  {
    seq(|draws|, i requires 0 <= i < |draws| => SeedDot(draws[i], width, height))
  }

  /** Seeded dots start Drifting, hence stay Drifting (DriftingForever). */
  lemma SeededAreDrifting(draws: seq<Draw>, width: real, height: real)
    requires forall i :: 0 <= i < |draws| ==> UnitDraw(draws[i])
    requires 0.0 <= width && 0.0 <= height
    ensures AllDrifting(Seeded(draws, width, height), width, height)
  {
    forall i | 0 <= i < |draws|
      ensures Drifting(Seeded(draws, width, height)[i], width, height)
    {
      SeedDotBounds(draws[i], width, height);
    }
  }

  /** From seeding on, in a viewport that keeps its size: after any number
      of frames every velocity component is at most MAX_SPEED in magnitude
      and every dot is at most MAX_SPEED outside the viewport. */
  lemma SeededStayNear(draws: seq<Draw>, n: nat, width: real, height: real)
    requires forall i :: 0 <= i < |draws| ==> UnitDraw(draws[i])
    requires 0.0 <= width && 0.0 <= height
    ensures |StepN(Seeded(draws, width, height), n, width, height)| == |draws|
    ensures forall d :: d in StepN(Seeded(draws, width, height), n, width, height) ==>
              && Abs(d.dx) <= MAX_SPEED && Abs(d.dy) <= MAX_SPEED
              && -MAX_SPEED <= d.x <= width + MAX_SPEED
              && -MAX_SPEED <= d.y <= height + MAX_SPEED
  {
    var dots := StepN(Seeded(draws, width, height), n, width, height);
    SeededAreDrifting(draws, width, height);
    DriftingForever(Seeded(draws, width, height), n, width, height);
    forall d | d in dots
      ensures -MAX_SPEED <= d.x <= width + MAX_SPEED && -MAX_SPEED <= d.y <= height + MAX_SPEED
    {
      var i :| 0 <= i < |dots| && dots[i] == d;
      ContainedIsNear(d.x, d.dx, width);
      ContainedIsNear(d.y, d.dy, height);
    }
  }

  /** From seeding on, through any sequence of frames and resizes, every
      velocity component is at most MAX_SPEED in magnitude. */
  lemma SeededStaySlow(draws: seq<Draw>, width: real, height: real, viewports: seq<(real, real)>)
    requires forall i :: 0 <= i < |draws| ==> UnitDraw(draws[i])
    ensures |StepFrames(Seeded(draws, width, height), viewports)| == |draws|
    ensures forall d :: d in StepFrames(Seeded(draws, width, height), viewports) ==>
              Abs(d.dx) <= MAX_SPEED && Abs(d.dy) <= MAX_SPEED
  {
    var seeded := Seeded(draws, width, height);
    var dots := StepFrames(seeded, viewports);
    ResizesKeepSpeeds(seeded, viewports);
    forall d | d in dots
      ensures Abs(d.dx) <= MAX_SPEED && Abs(d.dy) <= MAX_SPEED
    {
      var i :| 0 <= i < |dots| && dots[i] == d;
      assert seeded[i] == SeedDot(draws[i], width, height);
      assert UnitDraw(draws[i]);
    }
  }

  /** The initial population, one dot per draw, pushed in order. */
  method InitDots(draws: seq<Draw>, width: real, height: real) returns (dots: array<Dot>)
    ensures fresh(dots)
    ensures dots[..] == Seeded(draws, width, height)
  {
    dots := new Dot[|draws|];
    var i := 0;
    while i < |draws|
      invariant 0 <= i <= |draws|
      invariant forall k :: 0 <= k < i ==> dots[k] == SeedDot(draws[k], width, height)
    {
      dots[i] := SeedDot(draws[i], width, height);
      i := i + 1;
    }
  }
}
