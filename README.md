# Interactive background and cursor trail

A model of the animation engine in `scripts.js`. It has five parts:

- a surface manager (`CanvasManager`) that tracks the surface size and the pointer in document coordinates;
- a grid field (`BackgroundSystem`). Its particles sit on a 35-pixel lattice. Each one is pushed away from a pointer within 150 pixels, eases 5% of the way back towards its target every frame, and is joined to its neighbours closer than 52.5 pixels by a line that fades with distance;
- a cursor trail (`ParticleTrailSystem`). It emits a particle at the pointer every second frame. Each trail particle drifts, shrinks and loses 0.02 of life per frame, and is removed once its life is no longer positive;
- a driver (`Main`). It builds the three parts above and renders one frame: the grid first, then the trail;
- the window listeners for resize and pointer moves.

The objects the source updates in place are Dafny classes: `Pointer`, `CanvasManager`, `GridParticle`, `BackgroundSystem`, `TrailParticle`, `ParticleTrailSystem` and `Main`.

- The two particle classes, `GridParticle` and `TrailParticle`, each have a ghost snapshot `State()` of their fields. Their update methods are proved against a pure function on that snapshot: `GridStep` for a grid particle, `Age` for a trail particle.
- The two systems, `BackgroundSystem` and `ParticleTrailSystem`, are described through `Views` of their particle lists, the sequence of those snapshots:
  - `Layout` is the lattice that `init` builds.
  - `Steps` and then `Edges` give the grid's render: every particle's update, then the connecting lines.
  - `Survivors` and `Emitted` give one frame of the trail.
- `Pointer`, `CanvasManager` and `Main` have no snapshot. Their methods state their new fields directly, and `Main`'s frame and resize state those `Views` equations for both systems.

The properties the source relies on are lemmas about those functions. Examples:

- the force is zero exactly at or beyond the interaction radius;
- easing never overshoots and shrinks the gap by the factor 0.95;
- the lattice has ⌈w/35⌉·⌈h/35⌉ points, all inside the surface, in column order;
- the pair loop visits each unordered pair once, in order;
- a trail particle lives exactly 49 updates;
- the trail never holds more than 25 particles.

Outside effects are parameters:

- `Math.sqrt` is a function `sqrt`. Lemmas that need square roots require `IsSqrt(sqrt)`.
- The three `Math.random()` draws of a new trail particle are `r1, r2, r3` in [0, 1).
- Window sizes, scroll offsets and pointer positions are method arguments.
- `atan2` followed by `cos` and `sin` becomes the exact unit vector `(dx/d, dy/d)`. When `d = 0` it is `(1, 0)`, the value `atan2(0, 0) = 0` gives.

Modules: `Basics` (shared arithmetic and `Distinct`), `Canvas`, `Grid`, `Lattice`, `Connections`, `Background`, `Trail` and `Engine`. There is one file per module.

## Model

| member | source | states |
|---|---|---|
| Canvas.Pointer.constructor | scripts.js:58 | the pointer record holds the given coordinates |
| Canvas.CanvasManager.constructor | scripts.js:55-60 | the pointer starts at the viewport centre (innerWidth/2, innerHeight/2); the surface is innerWidth wide and as tall as the scrollable document |
| Canvas.CanvasManager.SetCanvasDimensions | scripts.js:64-69 | width becomes the viewport width, height the document's scroll height; the pointer is untouched |
| Canvas.CanvasManager.OnMouseMove | scripts.js:84-89 | the pointer becomes the event's client position plus the window scroll offset; nothing else changes |
| Canvas.DocumentCoordinate | scripts.js:87-88 | definition of client + scroll, the document coordinate of a viewport point; its facts are in Canvas.ScrollInvariant |
| Canvas.ScrollInvariant | scripts.js:84-89 | a point fixed in the document gets the same coordinate whatever the scroll offset |
| Grid.Force | scripts.js:122-123 | force is non-negative, at least 150 − d, either 0 or 150 − d, zero iff d ≥ 150, and at most 150 for d ≥ 0 |
| Grid.ForceNonIncreasing | scripts.js:122-123 | a farther pointer never pushes harder |
| Grid.Ease | scripts.js:127-128 | definition of one easing step toward the target; its facts are in Grid.EaseApproaches |
| Grid.EaseApproaches | scripts.js:127-128 | one easing step keeps 0.95 of the gap to the target, never overshoots and strictly closes a non-zero gap |
| Grid.Direction | scripts.js:124-126 | definition of (cos, sin) of atan2(dy, dx) as the unit vector along the offset; its facts are in Grid.DirectionIsUnit |
| Grid.PushAt | scripts.js:122-126 | definition of the push for an offset of known length; its facts are in Grid.PushAtFacts |
| Grid.Measure | scripts.js:119-126 | definition of the push measured with the square root; its facts are in Grid.MeasureFacts and Grid.MeasureOutOfReach |
| Grid.DirectionIsUnit | scripts.js:124-126 | the direction that replaces (cos atan2, sin atan2) is a unit vector pointing along the offset |
| Grid.PushAtFacts | scripts.js:119-126 | given the offset's length, the push has that distance, force Force(d), length equal to the force and points away from the pointer |
| Grid.MeasureFacts | scripts.js:119-126 | with a true square root, the measured push repels along the offset with length Force(distance) |
| Grid.MeasureOutOfReach | scripts.js:121-126 | an offset of at least 150 on either axis gives zero force and zero displacement |
| Grid.GridStep | scripts.js:118-129 | definition of one grid particle update; its facts are in Grid.StepFacts, Grid.StepBeyondReach and Grid.StepOutOfReach |
| Grid.StepFacts | scripts.js:118-129 | one update keeps the origin, records a repelling push and moves each coordinate so that 0.95 of the gap to origin + push remains |
| Grid.StepBeyondReach | scripts.js:118-129 | with the pointer at a measured distance of at least 150 from the particle, the force and displacement are zero and the update eases straight back to the origin, keeping 0.95 of the offset |
| Grid.StepOutOfReach | scripts.js:118-129 | with the pointer at least 150 beyond the particle's offset from its origin along one axis, a per-axis condition that every later frame keeps, the update has zero force, eases straight back to the origin and never increases the offset |
| Grid.GridSteps | scripts.js:118-129 | definition of n updates against a still pointer; its facts are in Grid.FarPointerRelaxes and Grid.FarPointerSettles |
| Grid.FarPointerRelaxes | scripts.js:118-129 | with a still pointer held at least 150 beyond the particle's offset along one axis, n updates are n easing steps towards the origin |
| Grid.EaseSteps | scripts.js:127-128 | definition of n easing steps toward a fixed target; its facts are in Grid.EaseStepsGeometric and Grid.EaseSettles |
| Grid.EaseStepsGeometric | scripts.js:127-128 | after n easing steps the gap is 0.95ⁿ times the initial gap |
| Grid.RetainedDecays | scripts.js:127-128 | 0.95ⁿ · (1 + 0.05n) ≤ 1, so the retained gap shrinks at least like 1/(1 + 0.05n) |
| Grid.SettlesWithin | scripts.js:127-128 | an offset o is within ε of the origin after n steps whenever 0.05·n·ε ≥ ∣o∣ |
| Grid.EaseSettles | scripts.js:127-128 | n easing steps end within ε of the target whenever 0.05·n·ε covers the initial gap |
| Grid.FarPointerSettles | scripts.js:118-129 | with a still pointer held at least 150 beyond the particle's offset along one axis, a particle is within ε of its origin on both axes after n frames whenever 0.05·n·ε covers its initial offset on each axis, and its origin never moves |
| Grid.GridParticle.constructor | scripts.js:101-115 | a new grid particle rests on its origin with zero distance, force and displacement |
| Grid.GridParticle.Update | scripts.js:118-129 | the particle's new fields are GridStep of its old fields and the pointer |
| Grid.Steps | scripts.js:170-173 | definition of the forEach that updates every particle against the same pointer; its facts are in Grid.StepFacts, Grid.StepsAppend and Grid.StepsKeepOrigins |
| Grid.StepsAppend | scripts.js:170-173 | the particles update independently: a frame over a list is the frames over any split of it, concatenated in order |
| Grid.StepsKeepOrigins | scripts.js:170-173 | a frame never moves any particle's origin, so the grid keeps the lattice it was laid out on |
| Lattice.Cells | scripts.js:161-162 | the number of 35-pixel steps below an extent is its ceiling ⌈extent/35⌉: zero iff the extent is zero |
| Lattice.LatticePoint | scripts.js:163 | definition of the particle at rest on (35c, 35r); its facts are in Lattice.LatticePointInBounds |
| Lattice.Column | scripts.js:162-164 | definition of the inner loop's particles for column c; its facts are in Lattice.LayoutAt |
| Lattice.LatticePrefix | scripts.js:161-165 | definition of the particles of the first columns; its facts are in Lattice.LayoutSize, Lattice.LayoutAt and Lattice.LayoutSorted |
| Lattice.Layout | scripts.js:157-166 | definition of the list init builds; its facts are in Lattice.LayoutSize, Lattice.LayoutAt, Lattice.LayoutInBounds and Lattice.LayoutSorted |
| Lattice.LatticePointInBounds | scripts.js:161-163 | a lattice point is inside the surface |
| Lattice.LayoutSize | scripts.js:157-166 | init builds ⌈w/35⌉ · ⌈h/35⌉ particles |
| Lattice.LayoutAt | scripts.js:157-166 | particle c·⌈h/35⌉ + r is the point (35c, 35r) |
| Lattice.LayoutOnLattice | scripts.js:157-166 | every particle sits on a lattice point of a column and row in range |
| Lattice.LayoutInBounds | scripts.js:157-166 | every particle lies in [0, w) × [0, h) on multiples of 35 and rests on its origin |
| Lattice.LayoutSorted | scripts.js:161-165 | the list is ordered column by column, top to bottom within a column |
| Connections.PairsRow | scripts.js:176 | definition of the inner loop's pairs (i, j) onwards; its facts are in Connections.PairsMembers, Connections.PairsOrdered and Connections.PairsCount |
| Connections.PairsFrom | scripts.js:175-176 | definition of the pairs the outer loop visits from i on; its facts are in Connections.PairsMembers, Connections.PairsOrdered and Connections.PairsCount |
| Connections.Pairs | scripts.js:175-176 | definition of the pairs the nested loop visits; its facts are in Connections.PairsMembers, Connections.PairsOrdered and Connections.PairsCount |
| Connections.PairsMembers | scripts.js:175-176 | the nested loop visits exactly the pairs i < j < n |
| Connections.PairsOrdered | scripts.js:175-176 | it visits them in strictly increasing lexicographic order, hence each once |
| Connections.PairsCount | scripts.js:175-176 | it visits n(n − 1)/2 pairs |
| Connections.Opacity | scripts.js:182-187 | a line closer than 52.5 has an opacity in (0, 1] |
| Connections.OpacityDecreasing | scripts.js:187 | a longer line is never more opaque |
| Connections.EdgeFor | scripts.js:177-192 | definition of the line one pair yields; its facts are in Connections.EdgesMembers |
| Connections.EdgesOf | scripts.js:175-192 | definition of the lines a list of pairs yields; its facts are in Connections.EdgesMembers and Connections.EdgesOrdered |
| Connections.Edges | scripts.js:175-192 | definition of the lines one render draws; its facts are in Connections.EdgesMembers and Connections.EdgesOrdered |
| Connections.EdgesMembers | scripts.js:175-192 | a line is drawn between i < j iff their distance is below 52.5, with opacity 1 − d/52.5 in (0, 1] |
| Connections.EdgesOrdered | scripts.js:175-192 | lines are drawn in the loop's pair order |
| Background.BackgroundSystem.constructor | scripts.js:143-154 | the system shares the manager's pointer and holds fresh particles laid out on the lattice for the current surface |
| Background.BackgroundSystem.Init | scripts.js:157-166 | the nested loops leave exactly Layout(width, height), fresh and distinct particles |
| Background.BackgroundSystem.Render | scripts.js:169-194 | every particle takes one update against the pointer, then the lines drawn are Edges of the updated positions |
| Background.BackgroundSystem.Connect | scripts.js:175-194 | the pair loops produce Edges of the current positions |
| Background.BackgroundSystem.ConnectRow | scripts.js:176-193 | the inner loop for i appends the lines to every later particle |
| Background.BackgroundSystem.Link | scripts.js:177-192 | one pair yields its line iff it is closer than 52.5 |
| Trail.Spawn | scripts.js:201-210 | a new particle sits at the pointer with life 1, size in [1, 6) and each velocity component in [−1, 1) |
| Trail.Age | scripts.js:213-218 | definition of one trail particle update; its facts are in Trail.AgeFacts |
| Trail.Ages | scripts.js:213-218 | definition of k updates in a row; its facts are in Trail.AgesFacts and Trail.LifeSpan |
| Trail.AgeFacts | scripts.js:213-218 | an update moves by the velocity, takes 0.02 of life, takes 0.1 of size iff it exceeded 0.2, and never grows the size |
| Trail.AgesFacts | scripts.js:213-218 | after k updates the particle has moved k velocities and lost 0.02·k of life |
| Trail.LifeSpan | scripts.js:208-216 | a fresh particle's life after k updates is 1 − 0.02k, positive iff k < 50 |
| Trail.Survivors | scripts.js:248-255 | the survivors of a frame are at most as many as before and are all alive |
| Trail.SurvivorsMembers | scripts.js:248-255 | a state survives iff it is the update of some listed particle and its life is positive |
| Trail.SurvivorsAppend | scripts.js:248-255 | survival is decided particle by particle, keeping list order |
| Trail.SurvivorsSingle | scripts.js:250-254 | one particle survives iff its updated life is positive |
| Trail.Emitted | scripts.js:242-246 | a frame emits one particle at the pointer with life 1 on even frame counts and none on odd ones |
| Trail.EmittedParity | scripts.js:243-246 | odd frames emit nothing; even frames emit exactly Spawn at the pointer |
| Trail.OddFrameFromEmpty | scripts.js:242-255 | an empty trail stays empty through an odd frame |
| Trail.SurvivorsAligned | scripts.js:248-255 | the survivors keep their lives tied to their birth frames, one frame later |
| Trail.FrameBookkeeping | scripts.js:242-255 | after a frame the trail is alive, its births still match, and it holds at most 25 particles |
| Trail.PopulationBound | scripts.js:242-255 | particles born on distinct even frames and still alive are at most 25 |
| Trail.TrailParticle.constructor | scripts.js:201-210 | a new trail particle's fields are Spawn of the pointer and the three draws |
| Trail.TrailParticle.Update | scripts.js:213-218 | the particle's new fields are Age of its old fields |
| Trail.ParticleTrailSystem.constructor | scripts.js:232-238 | the trail starts empty at frame 0, sharing the manager's pointer |
| Trail.ParticleTrailSystem.Render | scripts.js:241-256 | the frame count goes up by one; the list becomes Survivors(old list + Emitted(frame)); at most 25 particles remain |
| Trail.ParticleTrailSystem.Emit | scripts.js:242-246 | the frame count goes up by one and a spawn is appended on even frames |
| Trail.ParticleTrailSystem.Push | scripts.js:245 | one fresh particle at the pointer is appended |
| Trail.ParticleTrailSystem.Sweep | scripts.js:248-255 | the backwards update-and-splice loop leaves Survivors of the list, drawn from the old particles |
| Trail.ParticleTrailSystem.Visit | scripts.js:249-254 | one iteration updates particle i and splices it out iff its life is no longer positive |
| Engine.Main.constructor | scripts.js:262-267 | the manager, grid and trail are built around one pointer; after the first frame the grid has taken one step and the trail is empty at frame 1 |
| Engine.Main.FirstFrame | scripts.js:266 | the first frame is odd, so the trail stays empty |
| Engine.Main.Tick | scripts.js:270-275 | one frame renders the grid (Steps, then Edges) and then the trail (Survivors of list + Emitted), keeping the trail within 25 |
| Engine.Main.RenderGrid | scripts.js:272 | the grid half of a frame leaves the trail alone |
| Engine.Main.RenderTrail | scripts.js:273 | the trail half of a frame leaves the grid alone |
| Engine.Main.Resize | scripts.js:151-153 | after a resize the surface has the new size and the grid is the lattice for it; the pointer and trail are untouched |
| Engine.Main.MouseMove | scripts.js:84-89 | both systems see the new document-space pointer, because they share the manager's pointer record |

## Left out

- Drawing: `clear`, each `draw`, and the context calls (`arc`, `fill`, `stroke`, `lineWidth`, colours). The grid's render returns the list of lines it would draw instead.
- Size and colour fields that only feed drawing: the grid particle's `size`, `color` and `ctx`. Its `ease` field feeds the position update and is the constant `Grid.EaseFactor`.
- Grid.GridParticle.Update: the `angle` field is not kept. `atan2`, `cos` and `sin` are replaced by the exact unit vector along the offset.
- Grid.StepOutOfReach: its reach condition is per axis, stronger than "at distance at least 150". It is chosen so that one frame's condition implies the next frame's, which the n-frame lemmas need. The Euclidean one-frame statement is Grid.StepBeyondReach.
- Grid.FarPointerRelaxes: the n-frame relaxation is proved under the same per-axis condition, not for every pointer at distance at least 150. A pointer that is only diagonally out of reach is not covered.
- Grid.FarPointerSettles: it uses the per-axis condition, for the same reason.
- Floating point: the model computes in exact reals. The 49-update lifetime and the bound of 25 trail particles hold exactly there. IEEE doubles accumulate rounding in `life -= 0.02`.
- `Math.sqrt`: it is a parameter. Properties that need a square root require it to be one.
- `Math.random`: the three draws are parameters in [0, 1).
- `requestAnimationFrame`: the self-scheduling loop is left out. `Engine.Main.Tick` is one frame, run by whoever drives the animation.
- Engine.Main.constructor: its first frame is odd, so it makes no random draw. The draws it passes are placeholders that are never read.
- Listener registration (`bindEventListeners`, `addEventListener`): the listeners' effects are `Engine.Main.Resize` and `Engine.Main.MouseMove`, in registration order.
- DOM lookup and the 2D context (`getElementById`, `getContext`): the trail system takes the manager's pointer directly, since it uses nothing else of the manager.
- The modal and clipboard code after line 276 is not part of this model. The modal only calls `setCanvasDimensions`, which `Canvas.CanvasManager.SetCanvasDimensions` covers.
- Trail.Views: it states only that the list and its snapshots have the same length. The element-wise link is carried by `Swept` and the `Aligned` invariant.
