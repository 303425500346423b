# Emap core in Dafny

Emap is a projection-mapping tool. Each wall is a quadrilateral on the
projector image. A homography warps the content box of a wall onto its four
corners. What a wall shows is a small node graph: colour, image, video and
noise sources, mix nodes, and one output node per wall. A show is a list of
acts, each holding cues. Selecting another cue starts a timed, eased
transition from the previous graph to the new one.

This project models the computational core of that system and proves
properties of the model:

- **Projection geometry** (`linear_system.dfy`, `homography.dfy`).
  - The 8x8 linear system built from four point pairs.
  - Gaussian elimination with partial pivoting and back-substitution, as an
    in-place solver over arrays, checked against a functional definition.
  - `applyHomography` and the CSS `matrix3d()` arguments of `getCssMatrix`.
  - Proved: the solution sends each source corner to its destination, and
    CSS places every point where the homography sends it.
- **Procedural textures** (`procedural.dfy`).
  - `lerp` and `fade`.
  - The lazily built permutation table of the noise library object.
  - 2D gradient noise, fractal Brownian motion with its three shapings,
    Voronoi cells and domain warp.
- **Colour codec** (`color.dfy`): `hexToRgb`, `rgbToHex`, `rgbToHsv` and
  `hsvToRgb`, with their round trip, ranges and extremes.
- **Projection view** (`compositor.dfy`).
  - Easing curves and the interpolation of node parameters.
  - The root node of a wall and the resolution of a node into a layer tree
    (`RenderNode`, `getStyle`).
  - The per-wall choice between interpolation and cross-fade.
  - The walls that show the background pattern.
- **Playback** (`transition.dfy`): the transition timeline of
  `animateTransition`, and the state the show keeps between frames and
  resets when the selection changes.
- **Editing** (`node_editor.dfy`, `project_edits.dfy`).
  - The node editor's graph state: opening a cue, connecting handles,
    updating node data, deleting connections and nodes.
  - Project edits: reordering walls and acts, navigating cues, dragging
    corners, deleting a wall, toggling selections, saving a custom colour.
- **Asset server helpers** (`server.dfy`): `format_size`, the directory
  listing (hidden entries dropped, directories first, then by name) and the
  content type chosen by file suffix.

`wrappers.dfy` (Option), `numeric.dfy` (real-number helpers) and `graph.dfy`
(the graph data model and JavaScript array helpers such as `find` and
`filter`) are shared by the modules above.

Where the system's documentation and its code disagree, the model follows the code:

- The Voronoi distance type is spelled `chebychev` in the code. Any other
  name, including `chebyshev`, selects the Euclidean distance.
- The permutation literal has 257 entries, the last repeating the first.
  Only indices 0..255 are ever read.

## Model

| member | source | states |
|---|---|---|
| Homography.SystemOf | ui/src/lib/math.js:2-8 | Definition of the 8x8 system built from four point pairs; it is well formed. PairMeaning, SolutionMapsCorners and CornersGiveSolution state what it means |
| Homography.Matrix3 | ui/src/lib/math.js:27 | Definition of the 3x3 layout of the eight unknowns with last entry 1; the result is 3x3 |
| Homography.StorePair | ui/src/lib/math.js:4-7 | Rows 2i and 2i+1 and entries 2i and 2i+1 of b become the equations of pair i; earlier rows are unchanged |
| Homography.BuildSystem | ui/src/lib/math.js:2-8 | The arrays hold exactly SystemOf(src, dst) |
| Homography.SelectPivot | ui/src/lib/math.js:11-12 | Returns the first row at or below i of largest magnitude in column i (PivotRow) |
| Homography.SwapRows | ui/src/lib/math.js:13-14 | Rows i and m are exchanged in columns i..7 only, and so are entries i and m of b |
| Homography.CombineRow | ui/src/lib/math.js:16-18 | Row k becomes row k plus c times row i in columns after i, with an exact 0 in column i; other rows are unchanged |
| Homography.ClearBelow | ui/src/lib/math.js:15-19 | Every row below the pivot is eliminated with its own multiplier (EliminateBelow) |
| Homography.ForwardPhase | ui/src/lib/math.js:10-20 | With non-zero pivots the arrays end as the functional elimination Eliminated(s, 8) |
| Homography.TailSum | ui/src/lib/math.js:23-24 | The sum of a[i][j] * x[j] over j > i, accumulated left to right |
| Homography.SolveRow | ui/src/lib/math.js:23-25 | x[i] becomes (b[i] - tail sum) / a[i][i]; the other entries are kept |
| Homography.BackSubstitute | ui/src/lib/math.js:21-26 | x equals the functional back-substitution of the triangular system |
| Homography.SolveHomography | ui/src/lib/math.js:1-28 | Returns the solution laid out as a 3x3 matrix with last entry 1, and that matrix maps each src[i] to dst[i] homogeneously |
| Homography.Apply | ui/src/lib/math.js:30-35 | The image of p dehomogenised by w; defined where w is not 0 |
| Homography.ApplyIffHomogeneous | ui/src/lib/math.js:30-35 | Where w is not 0, Apply(m, p) == q holds exactly when m maps p to q homogeneously |
| Homography.FirstRowMeaning | ui/src/lib/math.js:5 | The u-row holds for h exactly when Matrix3(h) maps p's x-coordinate to q.x |
| Homography.SecondRowMeaning | ui/src/lib/math.js:6 | The v-row holds for h exactly when Matrix3(h) maps p's y-coordinate to q.y |
| Homography.PairMeaning | ui/src/lib/math.js:4-7 | The two equations of pair i hold exactly when Matrix3(h) maps src[i] to dst[i] |
| Homography.SolutionMapsCorners | ui/src/lib/math.js:1-28 | Every solution of the system maps each source point to its destination |
| Homography.CornersGiveSolution | ui/src/lib/math.js:1-28 | Conversely, when the matrix of h maps the four points to their destinations, h solves the system |
| Homography.SolvedMapsCorners | ui/src/lib/math.js:1-28 | The solver's output maps each of the four source points to its destination |
| Homography.CssMatrix | ui/src/lib/math.js:41 | Definition of the 16 `matrix3d()` arguments in column-major order; CssMatrixActsAsHomography states what they do |
| Homography.CssMatrixActsAsHomography | ui/src/lib/math.js:41 | On the plane z = 0 the CSS matrix yields (nx, ny, 0, w) of m |
| Homography.GetCssMatrix | ui/src/lib/math.js:37-42 | Each corner of the width x height box lands, after the perspective divide, on its destination corner |
| Homography.CssPlacesImage | ui/src/lib/math.js:41 | Where m maps p to q, CSS with m's matrix3d() places p at q |
| LinearSystem.PivotRowIsFirstMax | ui/src/lib/math.js:11-12 | The pivot has the largest magnitude at or below row i; every earlier candidate is strictly smaller |
| LinearSystem.SwapIsRowExchange | ui/src/lib/math.js:13-14 | When columns before i are cleared in both rows, the tail swap is a full row exchange |
| LinearSystem.SwapKeepsSolutions | ui/src/lib/math.js:13-14 | A solution of the row-exchanged system solves the original system |
| LinearSystem.MultiplierClears | ui/src/lib/math.js:16-17 | The multiplier -a[k][i] / a[i][i] cancels the entry below the pivot |
| LinearSystem.EliminationKeepsSolutions | ui/src/lib/math.js:15-19 | A solution of the eliminated system solves the system before elimination |
| LinearSystem.EliminationKeepsEquation | ui/src/lib/math.js:15-19 | A solution of the eliminated system solves the original equation below the pivot too |
| LinearSystem.Step | ui/src/lib/math.js:10-20 | Definition of one pivot-swap-eliminate step, with None for a zero pivot; a step keeps the system well formed. StepFacts states its effect |
| LinearSystem.StepFacts | ui/src/lib/math.js:10-20 | One step clears column i below the diagonal, leaves a non-zero pivot, keeps finished rows, and adds no solution |
| LinearSystem.ForwardPhaseResult | ui/src/lib/math.js:10-20 | The forward phase leaves an upper-triangular system with a non-zero diagonal, each of whose solutions solves the original system |
| LinearSystem.BackSolveEntry | ui/src/lib/math.js:24-25 | Entry r is (b[r] - sum of a[r][j] * x[j] for j > r) / a[r][r] |
| LinearSystem.BackSolveSolves | ui/src/lib/math.js:21-26 | Back-substitution solves every equation of an upper-triangular system with a non-zero diagonal |
| LinearSystem.Solve | ui/src/lib/math.js:1-28 | Definition of the solver: forward phase, then back-substitution. It returns eight values, and SolveSolves states that they solve the system |
| LinearSystem.SolveSolves | ui/src/lib/math.js:1-28 | With non-zero pivots, the solver's output satisfies all eight original equations |
| Procedural.Lerp | ui/src/lib/procedural.js:3 | Definition of `a + t * (b - a)`; LerpEndpoints, LerpRising and LerpReversed state its properties |
| Procedural.LerpEndpoints | ui/src/lib/procedural.js:3 | lerp gives a at t = 0 and b at t = 1, and lies between a and b for t in [0, 1] |
| Procedural.LerpRising | ui/src/lib/procedural.js:3 | For a <= b and t in [0, 1], a <= lerp <= b |
| Procedural.LerpReversed | ui/src/lib/procedural.js:3 | lerp(a, b, t) == lerp(b, a, 1 - t) |
| Procedural.Fade | ui/src/lib/procedural.js:5 | Definition of the quintic fade curve; FadeProperties states its properties |
| Procedural.FadeProperties | ui/src/lib/procedural.js:5 | fade fixes 0 and 1, is point-symmetric about 1/2 and maps [0, 1] into [0, 1] |
| Procedural.FadeFactored | ui/src/lib/procedural.js:5 | fade and 1 - fade in factored form |
| Procedural.ProceduralLib.Init | ui/src/lib/procedural.js:15-19 | perm becomes the 512-entry doubled permutation; a second call changes nothing |
| Procedural.LatticeCoord | ui/src/lib/procedural.js:26-27 | `Math.floor(x) & 255` lies in 0..255 |
| Procedural.Frac | ui/src/lib/procedural.js:29-30 | `x - Math.floor(x)` lies in [0, 1) |
| Procedural.LatticeIndicesInRange | ui/src/lib/procedural.js:35-39 | The hashes A + 1 and B + 1 are within the 512-entry table |
| Procedural.NoiseValue | ui/src/lib/procedural.js:23-43 | Definition of `noise2D` over the permutation table; NoiseZeroAtLattice and NoisePeriodic state its properties |
| Procedural.NoiseZeroAtLattice | ui/src/lib/procedural.js:23-43 | Noise is 0 at every lattice point |
| Procedural.NoiseAtCorner | ui/src/lib/procedural.js:38-42 | The interpolation at fractional offset (0, 0) is 0 for every cell |
| Procedural.NoisePeriodic | ui/src/lib/procedural.js:23-43 | Noise repeats with period 256 on both axes |
| Procedural.FloorShift | ui/src/lib/procedural.js:26-30 | Shifting by 256 shifts the floor by 256 and keeps the fraction |
| Procedural.ProceduralLib.Noise2D | ui/src/lib/procedural.js:23-43 | Builds the table if needed and returns the noise value at (x, y) |
| Procedural.ShapeInUnitInterval | ui/src/lib/procedural.js:91-98 | Each of the three shapings maps a sample in [-1, 1] into [0, 1] |
| Procedural.ShapeSample | ui/src/lib/procedural.js:91-98 | The shaping branch taken is the one the type name selects (turbulence, ridge, or otherwise standard) |
| Procedural.SamplesAt | ui/src/lib/procedural.js:89 | Sample i is taken at frequency lacunarity^i |
| Procedural.OctaveStep | ui/src/lib/procedural.js:100-103 | One loop pass keeps total, maxValue, amplitude and frequency equal to their values for i + 1 octaves |
| Procedural.NextFrequency | ui/src/lib/procedural.js:103 | frequency stays lacunarity^i |
| Procedural.NextAmplitude | ui/src/lib/procedural.js:102 | `amplitude *= gain` turns the amplitude of octave i into that of octave i + 1 |
| Procedural.AmplitudeIsPower | ui/src/lib/procedural.js:84-102 | The amplitude of octave i is 0.5 * gain^i |
| Procedural.SamplesStep | ui/src/lib/procedural.js:88-89 | One more octave appends the sample at the next frequency |
| Procedural.TotalStep | ui/src/lib/procedural.js:100 | Appending an octave adds its shaped sample times its amplitude |
| Procedural.TotalExtend | ui/src/lib/procedural.js:100 | The running total after one more octave, in the loop's terms |
| Procedural.FbmValue | ui/src/lib/procedural.js:82-107 | Definition of fbm's result as total / maxValue over the shaped octave samples; FbmInUnitInterval and FbmWithoutOctaves state its properties |
| Procedural.FbmWithoutOctaves | ui/src/lib/procedural.js:82-107 | With no octaves fbm divides 0 by 0: no value |
| Procedural.AmplitudePositive | ui/src/lib/procedural.js:84 | With a positive gain every amplitude is positive |
| Procedural.MaxValuePositive | ui/src/lib/procedural.js:101 | With a positive gain maxValue is positive from the first octave on |
| Procedural.TotalBounds | ui/src/lib/procedural.js:100-101 | With samples in [-1, 1] the total lies between 0 and maxValue |
| Procedural.NormalisedInUnitInterval | ui/src/lib/procedural.js:106 | With at least one octave and a positive gain, total / maxValue is defined and lies in [0, 1] |
| Procedural.FbmInUnitInterval | ui/src/lib/procedural.js:82-107 | fbm lies in [0, 1] whenever each octave's noise sample lies in [-1, 1] |
| Procedural.ProceduralLib.SampleOctave | ui/src/lib/procedural.js:89 | The raw noise sample at the octave's frequency |
| Procedural.ProceduralLib.Fbm | ui/src/lib/procedural.js:82-107 | The loop computes the normalised weighted sum FbmValue |
| Procedural.Fbm2InUnitInterval | ui/src/lib/procedural.js:110-111 | Two-octave fbm lies in [0, 1] when its samples lie in [-1, 1] |
| Procedural.WarpValue | ui/src/lib/procedural.js:109-113 | Definition of the warped point; WarpZeroIsIdentity and WarpDisplacementBounded state its properties |
| Procedural.WarpZeroIsIdentity | ui/src/lib/procedural.js:109-113 | Warp with amount 0 leaves the point in place |
| Procedural.WarpDisplacementBounded | ui/src/lib/procedural.js:109-113 | With amount >= 0, each coordinate moves forward by between 0 and amount |
| Procedural.ProceduralLib.Warp | ui/src/lib/procedural.js:109-113 | The warped point from two two-octave fbm samples |
| Procedural.MetricBounds | ui/src/lib/procedural.js:69-70 | Chebychev distance is non-negative, at most the Manhattan distance, and symmetric |
| Procedural.Seed | ui/src/lib/procedural.js:57 | The cell seed lies below 2^14 |
| Procedural.SeedPeriodic | ui/src/lib/procedural.js:57 | Cells 256 apart share a seed on both axes |
| Procedural.CellAtOffsets | ui/src/lib/procedural.js:52-55 | Scan position 3(i+1) + (j+1) is the cell at offsets (i, j) |
| Procedural.Scan | ui/src/lib/procedural.js:49-76 | Definition of the nearest-cell selection; ScanIsFirstMinimum states what it returns |
| Procedural.ScanIsFirstMinimum | ui/src/lib/procedural.js:49-50 | The scan returns the first cell of least distance when that distance is below 100, else distance 100 and id 0 |
| Procedural.ScanStep | ui/src/lib/procedural.js:73-76 | A new cell replaces the best only when strictly nearer |
| Procedural.NeighbourFeature | ui/src/lib/procedural.js:54-71 | The distance and id of one neighbour cell's feature point |
| Procedural.ScanNeighbour | ui/src/lib/procedural.js:73-76 | One inner-loop pass extends the scan by one cell |
| Procedural.Voronoi | ui/src/lib/procedural.js:45-80 | The double loop returns the scan of all nine neighbour cells |
| Color.ParseHex | ui/src/lib/color.js:3-4 | A result exactly for a six-digit hex colour with an optional `#`, and then channels in 0..255 |
| Color.HexToRgb | ui/src/lib/color.js:2-5 | Channels are in 0..255; a string that is not a six-digit hex colour gives black |
| Color.RgbToHex | ui/src/lib/color.js:6-8 | Definition of the `#rrggbb` string; RgbToHexLayout and HexRoundTrip state its layout and round trip |
| Color.RgbToHexLayout | ui/src/lib/color.js:6-8 | For channels in 0..255: `#` then six lower-case digits, two per channel, r, g, b in order |
| Color.HexRoundTrip | ui/src/lib/color.js:2-8 | hexToRgb(rgbToHex(r, g, b)) gives r, g, b back |
| Color.ParsePrintLowercase | ui/src/lib/color.js:2-8 | rgbToHex of what hexToRgb accepted is that string in lower case, with `#` |
| Color.RgbToHsv | ui/src/lib/color.js:9-25 | Definition of the hue, saturation and value of a colour; RgbToHsvRanges states their ranges |
| Color.RgbToHsvRanges | ui/src/lib/color.js:9-25 | For channels in 0..255, s and v lie in [0, 100] and h in [0, 360); grey has hue 0 and black saturation 0 |
| Color.Clamp | ui/src/lib/color.js:30-32 | The result lies in [lo, hi] and equals x when x is inside |
| Color.Round | ui/src/lib/color.js:53 | `Math.round`: within 1/2 of x, halves rounding up |
| Color.RoundChannel | ui/src/lib/color.js:53 | A fraction in [0, 1] scaled by 255 rounds into 0..255 |
| Color.FloorSectorIsFloor | ui/src/lib/color.js:40 | The sector switched on is `Math.floor` of the scaled hue |
| Color.SectorExtremes | ui/src/lib/color.js:45-52 | In every sector v is the largest channel and p the smallest |
| Color.MixesBetween | ui/src/lib/color.js:42-44 | q and t lie between p = v(1 - s) and v |
| Color.HsvToRgbClamps | ui/src/lib/color.js:30-32 | Clamped inputs give the same colour as the raw inputs |
| Color.HsvToRgb | ui/src/lib/color.js:26-54 | Definition of the colour of a hue, saturation and value; HsvToRgbChannels, HsvToRgbExtremes and HsvToRgbGrey state its properties |
| Color.HsvToRgbChannels | ui/src/lib/color.js:26-54 | Every channel returned is an integer in 0..255 |
| Color.HsvUnitBrightest | ui/src/lib/color.js:39-52 | The largest unrounded channel is the clamped value |
| Color.HsvUnitDarkest | ui/src/lib/color.js:42-52 | Inside the clamp ranges the smallest unrounded channel is v(1 - s) |
| Color.HsvToRgbExtremes | ui/src/lib/color.js:26-54 | Inside the clamp ranges the brightest channel is round(255v), the darkest round(255 v(1 - s)) |
| Color.HsvToRgbGrey | ui/src/lib/color.js:35-38 | With saturation 0 all three channels are the rounded value |
| Compositor.Ease | ui/src/components/ProjectionContent.jsx:7-16 | Time below 0 gives 0 and above 1 gives 1 |
| Compositor.EaseEndpoints | ui/src/components/ProjectionContent.jsx:7-16 | Every curve starts at 0 and ends at 1 |
| Compositor.EaseInUnitInterval | ui/src/components/ProjectionContent.jsx:7-16 | Every curve stays within [0, 1] |
| Compositor.EaseInOutJoins | ui/src/components/ProjectionContent.jsx:13 | The two halves of easeInOut meet at 0.5, and the first half stays below 0.5 |
| Compositor.EaseUnknownIsLinear | ui/src/components/ProjectionContent.jsx:14 | An unknown curve name behaves as linear |
| Compositor.EaseMonotone | ui/src/components/ProjectionContent.jsx:7-16 | Every curve is non-decreasing |
| Compositor.Effective | ui/src/components/ProjectionContent.jsx:23-27 | A missing parameter takes its default |
| Compositor.InterpolatedNode | ui/src/components/ProjectionContent.jsx:19-35 | Ids, type, position and caption come from curr; blendable parameters are mixed; the rest come from curr |
| Compositor.InterpolationEndpoints | ui/src/components/ProjectionContent.jsx:31 | At mix 0 a blended parameter has prev's value, at mix 1 curr's |
| Compositor.InterpolationBetween | ui/src/components/ProjectionContent.jsx:31 | For mix in [0, 1] a blended parameter lies between its two end values |
| Compositor.InterpolateNodes | ui/src/components/ProjectionContent.jsx:230-237 | Same length, ids and types as curr; a node whose id prev has becomes InterpolatedNode(prev's node, curr's node, mix); the others are unchanged |
| Compositor.RootNodeId | ui/src/components/ProjectionContent.jsx:206-212 | A root exists only with nodes and connections, and is the source of some connection |
| Compositor.RootNodeIdIsFirst | ui/src/components/ProjectionContent.jsx:206-212 | The root comes from the first output node of the wall and its first inbound connection |
| Compositor.RootNodeIdMissing | ui/src/components/ProjectionContent.jsx:208 | With no output node for the wall there is no root |
| Compositor.RootNodeIdUnconnected | ui/src/components/ProjectionContent.jsx:209-211 | With no connection into the first output node there is no root |
| Compositor.Or | ui/src/components/ProjectionContent.jsx:121-123 | `\|\|`: the value when truthy, otherwise the default |
| Compositor.Coalesce | ui/src/components/ProjectionContent.jsx:124-125 | `??`: the value when present, otherwise the default |
| Compositor.MediaStyle | ui/src/components/ProjectionContent.jsx:120-139 | Truthy fit, scale and rotation are kept, and otherwise they default to cover, 1 and 0; fill centres the media; otherwise alignment is the given value or 50% |
| Compositor.FirstInput | ui/src/components/ProjectionContent.jsx:179-180 | The first connection into the handle, or None when none feeds it |
| Compositor.LeafLayer | ui/src/components/ProjectionContent.jsx:141-176 | A layer exactly for colour, image, video and noise nodes; media has a source exactly when its value is truthy |
| Compositor.Resolve | ui/src/components/ProjectionContent.jsx:116-201 | Definition of `RenderNode` as a layer tree with a recursion bound; ResolveCases, ResolveMixInputs and ResolveStable state its behaviour |
| Compositor.Feed | ui/src/components/ProjectionContent.jsx:185-193 | A mix input is connected exactly when a connection feeds it |
| Compositor.ResolveCases | ui/src/components/ProjectionContent.jsx:116-201 | An unknown id or type gives nothing; non-mix nodes give their leaf layer; mix inputs are connected exactly when fed |
| Compositor.ResolveMixInputs | ui/src/components/ProjectionContent.jsx:178-198 | A mix node's inputs are the resolutions of their first feeding connections; blendMode defaults to normal |
| Compositor.ResolveStable | ui/src/components/ProjectionContent.jsx:116-201 | Once resolution completes, more recursion depth gives the same layer tree |
| Compositor.SelfLoopNeverCompletes | ui/src/components/ProjectionContent.jsx:178-198 | A mix node feeding its own base never finishes resolving |
| Compositor.WallStages | ui/src/components/ProjectionContent.jsx:214-264 | Definition of the layers drawn on one wall: at most two. StagesAtRest, StagesInterpolate and StagesCrossFade state the choice |
| Compositor.StagesAtRest | ui/src/components/ProjectionContent.jsx:260-264 | Outside a transition only the current root is drawn, at full opacity |
| Compositor.StagesInterpolate | ui/src/components/ProjectionContent.jsx:227-237 | With the same root on both sides one layer at full opacity shows the interpolated graph |
| Compositor.StagesCrossFade | ui/src/components/ProjectionContent.jsx:251-264 | Otherwise the previous root fades out at 1 - mix beneath the current one at mix; opacities sum to 1 |
| Compositor.StageOpacities | ui/src/components/ProjectionContent.jsx:251 | For mix in [0, 1] every layer's opacity is in [0, 1] |
| Compositor.RootImpliesContent | ui/src/components/ProjectionContent.jsx:284-288 | A wall with a root node has content |
| Compositor.BackgroundWalls | ui/src/components/ProjectionContent.jsx:273-300 | Nothing in live view, during a transition or when hidden; otherwise exactly the walls with content |
| Playback.CueIn | ui/src/App.jsx:1708 | The first act with that id is searched and its first cue with that id is returned; without such an act or cue there is none |
| Playback.TimelinePhases | ui/src/App.jsx:1737-1741 | Nothing to wait for gives 1; during the delay 0; then the elapsed fraction capped at 1, reaching 1 at the end |
| Playback.TimelineMix | ui/src/App.jsx:1737-1741 | The progress is in [0, 1] |
| Playback.TimelineMonotone | ui/src/App.jsx:1737-1741 | The progress never goes back as time passes |
| Playback.EaseName | ui/src/App.jsx:1743 | The cue's non-empty curve name, or linear when there is no cue or no name |
| Playback.Snapshot | ui/src/App.jsx:1757-1763 | The current cue with only its node list replaced, by a list of the same length |
| Playback.StartState | ui/src/App.jsx:1750-1764 | The start state is a crash exactly mid-transition into a state without a node list, when no explicit transition is selected |
| Playback.StartFromNamedCue | ui/src/App.jsx:1753-1755 | A transition selection starts from the named previous cue when it exists |
| Playback.StartAtRest | ui/src/App.jsx:1752 | With no transition in flight the start is the current state, or else the previous one |
| Playback.StartFromScreen | ui/src/App.jsx:1756-1763 | Re-triggering mid-transition starts from the interpolated graph drawn on each wall with the same root |
| Playback.StartCrashes | ui/src/App.jsx:1759 | Mid-transition into a state with no node list, the snapshot cannot be taken |
| Playback.Transitions.constructor | ui/src/App.jsx:1594-1599 | No cue on stage, no start time, mix 1, no frame requested |
| Playback.Transitions.AnimateTransition | ui/src/App.jsx:1728-1748 | The start time is set once; the mix is the eased timeline; another frame is pending exactly while time is left; past the end the mix is 1 and the previous state is dropped |
| Playback.Transitions.Retrigger | ui/src/App.jsx:1750-1774 | With a target cue, prev becomes the start state, current becomes the target, the mix restarts at 0 and a frame is requested; without one, the pending frame is cancelled and nothing else changes |
| Playback.FinishedFrameIsAtRest | ui/src/App.jsx:1747 | At mix 1, dropping the previous state changes nothing on any wall |
| NodeEditing.OutputNodes | ui/src/App.jsx:1185 | One output node per wall, the i-th for wall i, in row first + i |
| NodeEditing.MissingWalls | ui/src/App.jsx:1182-1183 | Exactly the walls with no output node |
| NodeEditing.LoadedNodes | ui/src/App.jsx:1179-1192 | Definition of the nodes shown when a cue opens; EveryWallHasOutput, LoadingKeepsGraph and LoadingEmptyCue state its properties |
| NodeEditing.EveryWallHasOutput | ui/src/App.jsx:1179-1192 | After opening a cue every wall has an output node |
| NodeEditing.LoadingKeepsGraph | ui/src/App.jsx:1180-1187 | A cue's own nodes come first, in order, followed only by output nodes |
| NodeEditing.LoadingEmptyCue | ui/src/App.jsx:1188-1191 | A cue without nodes opens as one output node per wall and no connections |
| NodeEditing.Connect | ui/src/App.jsx:1221-1222 | Definition of connecting an output to an input, replacing what fed it; ConnectLeavesOne and ConnectKeepsOnePerHandle state its properties |
| NodeEditing.ConnectLeavesOne | ui/src/App.jsx:1221-1222 | Exactly the new connection feeds that input; every other connection is kept |
| NodeEditing.ConnectKeepsOnePerHandle | ui/src/App.jsx:1221-1222 | Connecting keeps at most one connection per input handle |
| NodeEditing.UpdateData | ui/src/App.jsx:1261 | Same length and ids; only nodes with that id change |
| NodeEditing.UpdateDataMerges | ui/src/App.jsx:1261 | The merged data holds the new values and every old key the update does not name |
| NodeEditing.UpdateDataKeepsGraph | ui/src/App.jsx:1261 | Updating data keeps every id, so no connection starts dangling |
| NodeEditing.DropAt | ui/src/App.jsx:1262 | In range, exactly the connection at the index is removed, and the others keep their order (earlier ones in place, later ones shifted down by one); out of range, nothing changes |
| NodeEditing.DropAtKeeps | ui/src/App.jsx:1262 | Only old connections remain, and both graph invariants are kept |
| NodeEditing.RemoveNode | ui/src/App.jsx:1273-1274 | The node and every connection touching it are gone; all else is kept |
| NodeEditing.RemoveNodeNoDangling | ui/src/App.jsx:1273-1274 | Removing a node leaves no dangling connection |
| NodeEditing.RemoveNodeOnePerHandle | ui/src/App.jsx:1274 | Removing a node keeps at most one connection per handle |
| NodeEditing.DeleteKeepsOutputs | ui/src/App.jsx:1268-1271 | A deletable node is removed, and every other output node is kept |
| NodeEditing.TransitionDiagramWellFormed | ui/src/App.jsx:1176-1177 | The fixed transition diagram has no dangling connection |
| NodeEditing.NodeEditor.constructor | ui/src/App.jsx:1163-1169 | An empty graph with no armed handle |
| NodeEditing.NodeEditor.Open | ui/src/App.jsx:1173-1195 | A transition shows the fixed diagram; a cue shows its graph plus output nodes for missing walls; no cue changes nothing |
| NodeEditing.NodeEditor.HandleClick | ui/src/App.jsx:1211-1227 | An output click arms or disarms; an input click of another node connects the armed output, else nothing changes |
| NodeEditing.NodeEditor.UpdateNodeData | ui/src/App.jsx:1261 | The nodes become UpdateData of the old nodes; nothing else changes |
| NodeEditing.NodeEditor.DeleteConnection | ui/src/App.jsx:1262 | The connections become DropAt of the old ones; nothing else changes |
| NodeEditing.NodeEditor.DeleteNode | ui/src/App.jsx:1264-1275 | Output nodes and unknown ids are left alone; otherwise the node and its connections are removed |
| ProjectEdits.Swap | ui/src/App.jsx:1814 | Entries i and j are exchanged and the rest kept |
| ProjectEdits.SwapIsPermutation | ui/src/App.jsx:1814 | A swap keeps the same entries with the same multiplicities |
| ProjectEdits.SwapTwice | ui/src/App.jsx:1814 | Swapping twice restores the list |
| ProjectEdits.MoveWall | ui/src/App.jsx:1898 | A permutation of the walls |
| ProjectEdits.MoveWallCases | ui/src/App.jsx:1898 | An unknown wall or a move past either end changes nothing; otherwise the result is the swap of the wall with its neighbour, so every other wall stays in place |
| ProjectEdits.MoveScene | ui/src/App.jsx:1810-1817 | A move past either end changes nothing; otherwise the two acts are exchanged |
| ProjectEdits.MoveSceneBack | ui/src/App.jsx:1810-1817 | Moving an act one way and back restores the order |
| ProjectEdits.Flatten | ui/src/App.jsx:1780 | The play order has one entry per cue of the show |
| ProjectEdits.FlattenOrder | ui/src/App.jsx:1780 | Cue j of act i is at position CueCount(scenes[..i]) + j: act by act, cue by cue |
| ProjectEdits.FlattenHasEveryCue | ui/src/App.jsx:1780 | Every cue of every act appears as (act id, cue id) |
| ProjectEdits.FlattenOnlyCues | ui/src/App.jsx:1780 | Nothing but the show's cues appears |
| ProjectEdits.NavigateCue | ui/src/App.jsx:1778-1785 | With the current cue at position k and k + direction in range, the entry at k + direction is selected; otherwise the selection is kept |
| ProjectEdits.NavigateStopsAtEnds | ui/src/App.jsx:1784 | Stepping outwards at either end keeps the selection |
| ProjectEdits.NavigateForwardBack | ui/src/App.jsx:1778-1785 | With distinct entries, stepping forward then back returns to the same cue |
| ProjectEdits.DragCorner | ui/src/App.jsx:1880 | Same number of corners, with the dragged corner at (cx, cy) |
| ProjectEdits.DragTranslates | ui/src/App.jsx:1880 | In move mode every pair of corners keeps its offset: the quad is translated |
| ProjectEdits.DragOneCorner | ui/src/App.jsx:1880 | Outside move mode only the dragged corner changes |
| ProjectEdits.UpdatePoint | ui/src/App.jsx:1880 | Walls with that id have their corner dragged; other walls are untouched |
| ProjectEdits.PruneCue | ui/src/App.jsx:1889-1893 | Every field but the two lists is kept; a cue without nodes is unchanged; otherwise exactly the non-output nodes remain, and exactly the old connections whose ends both remain |
| ProjectEdits.PruneCueClean | ui/src/App.jsx:1889-1893 | Exactly the nodes that are not outputs of the wall remain; no connection dangles, and only old connections remain |
| ProjectEdits.DeleteWall | ui/src/App.jsx:1883-1897 | Exactly the walls with other ids remain; every cue of every act is pruned, and each act keeps every other field (id, name, ...) and its cue count; the active wall is cleared when it is the deleted one |
| ProjectEdits.DeleteWallLeavesNoOutput | ui/src/App.jsx:1882-1897 | After deleting a wall, no cue anywhere in the show draws to it |
| ProjectEdits.ToggleSelect | ui/src/App.jsx:165-169 | A selected path is removed; otherwise it is appended |
| ProjectEdits.ToggleTwice | ui/src/App.jsx:165-169 | Toggling an unselected path twice restores the selection |
| ProjectEdits.SaveColor | ui/src/App.jsx:666 | A known colour changes nothing; otherwise the new colour is last |
| ProjectEdits.SaveColorKeepsPalette | ui/src/App.jsx:666 | The palette stays duplicate-free and within sixteen entries, dropping only the oldest |
| Server.Scale | src/main.rs:283-289 | Definition of the unit and number of a size; ScaleIsLargestUnit states its properties |
| Server.ScaleIsLargestUnit | src/main.rs:283-289 | The unit is the largest that keeps the number at least 1, and the number is exact |
| Server.FormatSize | src/main.rs:283-289 | Whole bytes below 1 KiB; otherwise two decimals and the unit |
| Server.ItemOf | src/main.rs:204-209 | Directories get kind dir and an empty size; files get kind file and their formatted size |
| Server.Listing | src/main.rs:203-209 | Definition of the items of the visible entries in order; ListingContents states its contents |
| Server.ListingContents | src/main.rs:203-209 | The listing holds exactly the items of entries whose names do not start with a dot |
| Server.Collect | src/main.rs:217-233 | The loop builds the listing of the visible entries, in order |
| Server.ItemLeTotal | src/main.rs:237-245 | The comparator orders any two items one way or the other |
| Server.ItemLeTransitive | src/main.rs:237-245 | The comparator is transitive |
| Server.SortedDirsFirst | src/main.rs:237-245 | Sorted: every directory precedes every file, and each group is in name order |
| Server.Sink | src/main.rs:237-245 | One insertion step extends the sorted prefix by one, keeping the multiset |
| Server.SortItems | src/main.rs:237-245 | The array ends sorted, as a permutation of its old contents |
| Server.ListFiles | src/main.rs:190-248 | The result is sorted and is a permutation of the visible entries' items |
| Server.MimeType | src/main.rs:329-333 | One of the five content types |
| Server.SuffixesExclusive | src/main.rs:329-332 | A name ends with at most one of the known suffixes |
| Server.MimeBySuffix | src/main.rs:329-333 | A known suffix gives its type; any other name gives application/octet-stream |
| Server.MimeCaseSensitive | src/main.rs:329-333 | A name ending with the upper-case form of any known suffix is served as application/octet-stream |

## Left out

- Floating point: all arithmetic is on `real`. Rounding, NaN and infinities are not modelled.
  - A division by 0 that the code performs unchecked is either excluded by a precondition (pivots, w) or modelled as None (fbm with no octaves).
- `sin`, `cos` and `sqrt` are parameters of the Voronoi model (`Oracles`). Only their being functions is used.
- The random value of a Voronoi cell is a parameter too: the floating-point polynomial hash of ui/src/lib/procedural.js:59-60 mixes doubles with a 32-bit `&`. The cell seed and its `(n << 13) ^ n` scrambling are computed.
- `smoothstep` (ui/src/lib/procedural.js:4) is never called. It is not modelled.
- `getDistance` (ui/src/lib/math.js) is a square root of a sum of squares. It is not modelled.
- Homography.SolveHomography: `solveHomography` divides by every pivot without a check. The model requires non-zero pivots and does not describe the output for a degenerate quadrilateral.
- Homography.Apply: requires w != 0, where `applyHomography` would return infinities.
- Homography.GetCssMatrix: returns the sixteen `matrix3d()` arguments as reals. The CSS string and JavaScript's number-to-text formatting (ui/src/lib/math.js:41) are not modelled.
- Color.RgbToHex: channels are natural numbers. The 32-bit wrap of `<<` and the output for negative or too-large channels are not modelled.
- Color.HsvUnitDarkest: stated only for inputs inside the clamp ranges. Outside them, HsvToRgbClamps reduces the call to such inputs.
- Color.HsvToRgbExtremes: stated only for inputs inside the clamp ranges, for the same reason.
- Color.RgbToHsvRanges: hue 360 and hue 0 name the same colour, but the model does not relate them.
- Compositor.ResolveStable: `RenderNode` recurses through mix inputs without a cycle guard. The model bounds the recursion by a `fuel` parameter and marks where it ran out with `Unfinished`. SelfLoopNeverCompletes shows that a cycle never completes.
- React rendering, the DOM, `NoiseCanvas` pixels, timers and `requestAnimationFrame` are not modelled. The frame request is a boolean field, and the frame time is a parameter.
- `localStorage` persistence of custom colours and `updateCueData` (ui/src/App.jsx:1721-1726) are not modelled.
- The effect that copies a cue into the current state when the acts change (ui/src/App.jsx:1776) is not modelled.
- Playback.Transitions.Retrigger: where App.jsx throws while reading the missing node list of the current state, the method returns false. It still cancels the pending frame, as the previous run's cleanup does first, and it changes nothing else.
- Connection lists that App.jsx leaves `undefined` are modelled as empty.
- ProjectEdits.DeleteWall: the confirmation dialog (`showConfirm`, ui/src/App.jsx:1882) is not modelled. The function is the action run once the user confirms.
- ProjectEdits.Flatten: its own contract gives only the length, to keep proofs about it small. FlattenOrder, FlattenHasEveryCue and FlattenOnlyCues state the order and the contents.
- A node's `label` is called `caption`.
- ProjectEdits.MoveScene: requires the act index to exist. `moveScene` is only called with the indices of listed acts.
- ProjectEdits.UpdatePoint: requires the corner index to exist. For a missing corner, App.jsx throws in move mode while reading the corner. Outside move mode it writes past the end of the corner list and grows the list. Neither case is modelled.
- Server.FormatSize: Rust's `{:.2}` formatting of an `f64` is a parameter. The `u64` sizes are natural numbers.
- The file system and HTTP are not modelled. `list_files` takes the directory entries as a list.
- The branch that lists the default assets directory (src/main.rs:195-212) pushes items exactly like the other branch (217-233), so the two share one model.
- Server.SortItems: Rust's stable sort is modelled as an insertion sort. Stability itself is not stated.
- The transition duration and delay are read with `|| 0`. Non-numeric settings are not modelled.
