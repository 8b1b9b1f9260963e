# Constellation background: a verified model of the per-frame geometry

The program draws an animated "constellation" on a canvas. Each frame does three things:

1. It moves a fixed population of dots and bounces them off the viewport edges.
2. It fills every triangle of nearby vertices.
3. It draws lines from each vertex to its nearest neighbours.

The pointer is an extra vertex. This project models that per-frame geometry in Dafny and proves what the code promises about it.

- `points.dfy` (module `Points`): positions (`Vec`), dots (`Dot`) and the vertex set (`Vertices`: the dots, then the pointer). It also holds the threshold `MAX_DISTANCE = 150` and the distance. The graph builders take the distance as a parameter `dist: (Vec, Vec) -> real`. `IsHypot(dist)` says that `dist` is the Euclidean distance over the reals: non-negative, with square equal to `dx² + dy²`. This is what `Math.hypot` computes, apart from rounding.
- `motion.dfy` (module `Motion`): `updateDots`. `UpdateDots` rewrites the dots array in place, dot by dot. Its contract ties the result to the function `StepAll`. One axis of the step is `Bounce`: the coordinate advances by the velocity, and the velocity is negated when the new coordinate lies outside `[0, extent]`. The coordinate is never clamped. The module also models the seeding loop, with the `Math.random()` results passed in as `Draw` values. It proves the invariant `Drifting`: a dot is at most one step outside the viewport, and its reversed velocity brings it back.
- `triangles.dfy` (module `Triangles`): `drawTriangles`. `DrawTriangles` is the triple loop over `i < j < k`. It returns the triangles it would fill, each with the intensity `1 - avg/150`.
- `lines.dfy` (module `Lines`): `drawLines`. For each vertex:
  - `CollectNeighbours` is the inner loop that pushes every other vertex closer than 150.
  - `SortByDistance` models `nearestDots.sort(...)` as a stable insertion sort.
  - `Take` models `slice(0, 5)`.
  - `ConnectVertex` emits one line per kept neighbour, with opacity `1 - d/150`.

  `DrawLines` does this for every vertex.
- `frame.dfy` (module `Frame`): `Animate` runs one frame's computation in the order the source uses: step, then triangles, then lines on the stepped positions.

Vertices are identified by their index in the vertex set. The source compares dot objects by identity, and every dot and the pointer is a distinct object, so an index is the same thing. Two dots at the same position are still two vertices. Each dot of the source's array is a distinct object that only `updateDots` mutates. The model therefore keeps a `Dot` value in each array slot and rewrites it there.

## Model

| member | source | states |
|---|---|---|
| `Points.Vertices` | assets/js/index.js:57 | The vertex set has exactly `numDots + 1` entries: dot `i` at index `i`, the pointer last (the same construction is repeated at line 93). |
| `Points.HypotIsDistance` | assets/js/index.js:67-69 | The Euclidean distance is non-negative and symmetric, so the argument order of each `Math.hypot` call does not matter. |
| `Points.WithinIffSquared` | assets/js/index.js:100-101 | For the strict threshold, `dist < 150` holds exactly when the squared distance is below `150²`. |
| `Points.RootUnique` | assets/js/index.js:67 | A non-negative root is unique, so `IsHypot` determines every distance. |
| `Motion.Bounce` | assets/js/index.js:29-33 | On one axis, the new coordinate is the old one plus the velocity, and the velocity keeps its magnitude. |
| `Motion.StepDot` | assets/js/index.js:28-33 | The position advances by the velocity and is never clamped. `dx` is negated when the new `x` is `< 0` or `> width`, and is unchanged when the new `x` is in `[0, width]`. `dy` behaves the same against `height`, independently of `x`. |
| `Motion.StepAll` | assets/js/index.js:28-34 | A step keeps the number of dots, and dot `i` becomes the stepped dot `i`. |
| `Motion.UpdateDots` | assets/js/index.js:27-35 | The in-place pass over the array leaves it equal to `StepAll` of its old contents. |
| `Motion.ContainedIsNear` | assets/js/index.js:32-33 | A `Contained` coordinate is never farther outside `[0, extent]` than its speed. |
| `Motion.BounceKeepsContained` | assets/js/index.js:29-33 | The one-axis step preserves `Contained`: inside stays inside or overshoots with the velocity already reversed, and an overshoot returns inside on the next step. |
| `Motion.StepKeepsDrifting` | assets/js/index.js:27-35 | One step of the population preserves `Drifting` (speed at most 0.25 on each axis, each axis `Contained`). |
| `Motion.DriftingForever` | assets/js/index.js:27-35 | For a fixed viewport, `Drifting` holds after any number of steps, and the population size never changes. |
| `Motion.RestingDotsStay` | assets/js/index.js:29-33 | Dots with zero velocity stay in place for any number of frames. |
| `Motion.StuckBeyondExtent` | assets/js/index.js:29-32 | A coordinate beyond the far edge that is still beyond it after one step flips its velocity every frame and returns to the same state every second frame, so it never comes back inside. This can happen after the viewport shrinks. |
| `Motion.StuckBelowOrigin` | assets/js/index.js:29-32 | The same for a coordinate below 0 that is still below 0 after one step. |
| `Motion.ResizesKeepSpeeds` | assets/js/index.js:27-35 | Over any sequence of frames, each with its own viewport size (resizes between frames, lines 141-144), the number of dots and the magnitude of every velocity component of every dot stay the same. |
| `Motion.SeedDotBounds` | assets/js/index.js:19-24 | For draws in `[0, 1)`, a seeded dot lies in `[0, width] × [0, height]` and each velocity component lies in `[-0.25, 0.25)`. |
| `Motion.SeededAreDrifting` | assets/js/index.js:18-25 | The seeded population satisfies `Drifting`. |
| `Motion.SeededStayNear` | assets/js/index.js:22-23 | After seeding and any number of steps in a viewport that keeps its size, `|dx|, |dy| <= 0.25`, and every dot is within 0.25 of the viewport. |
| `Motion.SeededStaySlow` | assets/js/index.js:22-23 | After seeding and any sequence of frames, with the viewport resized between any of them, `|dx|, |dy| <= 0.25` for every dot. |
| `Motion.InitDots` | assets/js/index.js:18-25 | The seeding loop yields one seeded dot per draw, in order, in a fresh array. |
| `Triangles.Intensity` | assets/js/index.js:72-73 | For sides in `[0, 150)`, the intensity `1 - avg/150` lies in `(0, 1]`. For non-negative sides it equals 1 exactly when all three sides are 0. |
| `Triangles.DrawTriangles` | assets/js/index.js:60-73 | A triangle is reported if and only if its index triple has `i < j < k`, all three of `dist(vi,vj)`, `dist(vj,vk)`, `dist(vk,vi)` are `< 150`, and it carries the intensity of those sides. The list is strictly increasing in lexicographic order, so each qualifying triple appears exactly once. |
| `Triangles.ReportedIntensity` | assets/js/index.js:71-73 | Every reported triangle has intensity in `(0, 1]` when distances are non-negative. |
| `Triangles.AscendingIsDistinct` | assets/js/index.js:60-62 | In the strictly increasing list, no index triple occurs twice. |
| `Triangles.CollinearSides` | assets/js/index.js:67-69 | With dots at (0,0) and (100,0) and the pointer at (50,0), the Euclidean sides are 100, 50 and 50. |
| `Triangles.CollinearOnly` | assets/js/index.js:71-73 | With those sides, the only reportable triangle is (0, 1, 2), with intensity `5/9`. |
| `Triangles.CollinearTriangle` | assets/js/index.js:60-73 | For that frame under the Euclidean distance, a triangle is reportable exactly when it is (0, 1, 2) with intensity `5/9`. |
| `Triangles.AscendingSingleton` | assets/js/index.js:60-62 | A strictly increasing triangle list whose only member is one triangle is exactly that one-element list. |
| `Triangles.CollinearFrame` | assets/js/index.js:60-73 | `DrawTriangles` on that frame returns exactly the one-element list holding (0, 1, 2) with intensity `5/9`. |
| `Lines.Opacity` | assets/js/index.js:112 | For a distance in `[0, 150)`, the opacity `1 - d/150` lies in `(0, 1]`. |
| `Lines.OpacityFades` | assets/js/index.js:112 | A farther neighbour never gets a more opaque line. |
| `Lines.CandidatesSpec` | assets/js/index.js:98-105 | The collected list holds exactly the other vertices closer than 150, each with its distance, in increasing index order. The vertex itself is never included. |
| `Lines.CandidatesMembers` | assets/js/index.js:98-105 | A link is collected exactly when it names another vertex closer than 150, with its distance. |
| `Lines.CandidatesIncreasing` | assets/js/index.js:98-105 | The collected list is in strictly increasing index order, so no vertex appears twice. |
| `Lines.CandidatesLength` | assets/js/index.js:98-105 | At most one link is collected per other vertex. |
| `Lines.Insert` | assets/js/index.js:107 | Insertion adds exactly the inserted link to the multiset of entries. |
| `Lines.InsertByDistance` | assets/js/index.js:107 | Insertion into a list ascending by distance keeps it ascending. |
| `Lines.InsertByDistanceThenIndex` | assets/js/index.js:107 | Inserting a link whose index is below all others keeps a list in (distance, index) order. |
| `Lines.SortByDistance` | assets/js/index.js:107 | The sort is a permutation: the same multiset of entries. |
| `Lines.SortIsByDistance` | assets/js/index.js:107 | The sorted list is ascending by distance. |
| `Lines.SortIsStable` | assets/js/index.js:107 | Sorting a list collected in index order is stable: ties keep index order, so the result is strictly ordered by (distance, index). |
| `Lines.SortedCandidates` | assets/js/index.js:96-107 | The sorted list holds exactly the in-range neighbours, fewer than the number of vertices, in (distance, index) order. |
| `Lines.TakeDrops` | assets/js/index.js:108 | An entry that `slice(0, n)` drops from an ordered list comes after every kept entry, and is dropped only when n entries were kept. |
| `Lines.NearestSpec` | assets/js/index.js:96-108 | A vertex's kept list has at most 5 entries. Every entry is another vertex closer than 150, with its distance. The list is sorted ascending by distance, with no vertex twice. Every omitted in-range neighbour comes after every kept one, so it is at least as far, and is omitted only when 5 were kept. |
| `Lines.StrokesSpec` | assets/js/index.js:108-112 | A vertex's lines number at most 5. Each goes from the vertex to another vertex closer than 150. Each has opacity `1 - d/150`, in `(0, 1]` for non-negative distances. Opacities never increase along the list. |
| `Lines.KeptWhenFew` | assets/js/index.js:96-112 | A vertex with at most 5 in-range neighbours draws a line to each of them, with that neighbour's opacity. |
| `Lines.EdgeFromBothEnds` | assets/js/index.js:96-116 | Edges are not deduplicated: when two vertices are within range of each other and neither has more than 5 in-range neighbours, each draws a line to the other. |
| `Lines.CollectNeighbours` | assets/js/index.js:97-105 | The inner `forEach` loop builds exactly the collected candidate list. |
| `Lines.EmitEdges` | assets/js/index.js:109-115 | The drawing loop over the kept links emits one line per link, in order, from the vertex to that link's target with opacity `1 - d/150`. |
| `Lines.ConnectVertex` | assets/js/index.js:96-116 | One vertex's pass (collect, sort, slice, one line per kept link) emits exactly that vertex's `Strokes`. |
| `Lines.DrawLines` | assets/js/index.js:92-118 | The result has one line list per vertex of the vertex set, in vertex order, and list `a` is that vertex's `Strokes`. |
| `Frame.Animate` | assets/js/index.js:120-125 | One frame steps the dots in place, then reports exactly the qualifying triangles and every vertex's lines, all computed from the stepped positions and the pointer. |

## Left out

- Canvas and context acquisition, and setting `canvas.width`/`height` from the window at start-up and on resize (lines 1-5, 141-144): DOM glue. The viewport is a pair of `width`/`height` parameters.
- Every drawing call, gradient and colour string (`drawDots`, `drawMouseDot`, and the `ctx` calls in `drawTriangles` and `drawLines`; lines 37-54, 75-85, 109-115, 122-123): rendering side effects. The model returns the triangles and lines instead. `colorIntensity / 2` for the gradient's second stop is only a colour.
- Mouse and touch listeners and `preventDefault` (lines 129-139): event plumbing. The pointer position is an input.
- The `requestAnimationFrame` loop (line 126): host scheduling. `Frame.Animate` models one frame, `Motion.StepN` models repeated steps in one viewport, and `Motion.StepFrames` models repeated steps with a viewport size per frame.
- `Math.random` and the user-agent test that picks 30 or 70 dots (lines 12-15): nondeterministic and platform-dependent. The random results are `Draw` parameters assumed in `[0, 1)`, and the population size is the number of draws.
- `Math.hypot` and IEEE floating point: all arithmetic is over exact reals. The distance is a parameter, and the Euclidean facts hold under `IsHypot`. Rounding, NaN and infinities are not modelled.

Two consequences of the code that are worth knowing:

- After a resize, the bounce test compares against the new `canvas.width`/`height`, but the position is never clamped. A dot that is outside the viewport, and still outside after one step, flips its velocity every frame and never comes back (`Motion.StuckBeyondExtent`, `Motion.StuckBelowOrigin`). A dot moving inward fast enough to land inside after one step does come back. In a viewport that keeps its size, a dot overshoots by at most one step and returns (`Motion.BounceKeepsContained`). The speed bound holds across resizes (`Motion.SeededStaySlow`).
- The threshold is the constant 150 in both drawing functions (index.js:58 and 94), so the model has only `MAX_DISTANCE = 150`.
