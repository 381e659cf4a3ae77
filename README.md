# multipleWindow3dScene: the scene simulation, in Dafny

This project is a model of the simulation in `main.js` of multipleWindow3dScene. That is a browser page that draws one
wireframe sphere per open browser window. Each sphere has ten small "glittles" orbiting it. The model covers:

- `updateNumberOfSpheres` rebuilds the whole population from the window list. Sphere `i` gets size `50 + 20·i` and
  starts at the centre of window `i`. Its ten glittles get evenly spread start angles and radii in
  `[size + 20, size + 30)`.
- `updateWindowShape` sets the scene offset target to the negated screen position. Without easing, the offset jumps
  straight to that target.
- The simulation part of `render`:
  - the scene offset eases 5% toward its target;
  - each sphere eases 5% toward the centre of its window;
  - each glittle eases toward its sphere's new centre, advances its angle by `0.01` and adds its orbit offset;
  - then every glittle of sphere `i` is compared with every glittle of each later sphere `j`. A pair closer than
    `30` is nudged by `±0.5·dir` along the normalized direction between the two glittles. Each nudge sees the
    positions that earlier nudges left.

The model has three modules:

- **`Vectors`** (`vectors.dfy`): plane vectors, window shapes and the easing step, with its convergence lemmas. It
  also has `MathLib`, which stands for the environment's `cos`, `sin`, `distanceTo` and `normalize`. The model uses
  them without interpreting them.
- **`Simulation`** (`simulation.dfy`): the scene as plain values (`World`), and one function per step:
  - `Rebuilt` for a rebuild;
  - `Frame` for a frame, built from `MoveBodies`, `FollowSats` and `Interact`.

  `Interact` is defined turn by turn as in the source. It is also proved equal to applying the nudges of an explicit
  pair list, `Schedule`. The module proves which pairs that list holds, and that the interaction pass never changes
  the sum of the glittle positions.
- **`Scene`** (`scene.dfy`) is the imperative model:
  - the `Glittle` class;
  - the sphere record as class `Sphere`, with its mesh as class `Mesh`;
  - the module-level globals `spheres`, `glittles`, `sceneOffset` and `sceneOffsetTarget`, gathered in class `Scene`.

  Every method of `Scene` changes the fields in place with the source's own loops. Each method is proved to move the
  abstract `State()` exactly as the matching function of `Simulation` says. `Valid()` is the invariant that the
  global glittle list is the concatenation of the spheres' lists, with no object appearing twice.

How this model differs from the source:

- **A missing window.** In `render`, a sphere without a window makes reading `win.shape` throw. The surrounding
  handler then ends the frame: no interaction pass runs and no further frame is requested. The model keeps this
  path:
  - `Reach` says how far the sphere loop gets;
  - `Render` returns `completed == false` in this case.

  It does not require `|spheres| <= |wins|`.
- **Random draws.** `Math.random()` is an input: the sequence `randoms` holds one draw per glittle, in creation order.
  Each draw lies in `[0, 1)`.
- **Distance.** The source's test `dist < 30` is modelled exactly as written. It uses the environment's
  `distanceTo`.

## Model

| member | source | states |
|---|---|---|
| Vectors.Ease | main.js:212-214 | one easing step with falloff 0.05 lands between the old value and the target, leaves exactly 95% of the gap, and keeps a value that is at its target |
| Vectors.EaseVec | main.js:230-231 | easing both coordinates shrinks the gap vector to the target to 95%, and a point at its target stays |
| Vectors.Centre | main.js:172-173 | the centre of a window's shape is its midpoint: it is as far from the corner `(x, y)` as from the corner `(x + w, y + h)`. It is both where a new sphere is placed and the target of `render`'s sphere loop (main.js:228) |
| Vectors.EaseIterGap | main.js:212-214 | after `n` frames toward a fixed target the gap is exactly `0.95^n` of the first gap, and the value stays between its start and the target |
| Vectors.EaseIterMonotone | main.js:212-214 | each further frame brings the value no farther from its target |
| Vectors.EaseConverges | main.js:212-214 | for every `eps > 0` some number of frames brings the value within `eps` of its target |
| Simulation.Rebuilt | main.js:146-196 | the rebuilt population has one sphere per window, in window order, and nothing of the old one. Sphere `i` has size `50 + 20·i` and sits at window `i`'s centre. Glittle `k` belongs to sphere `k / 10`. It has angle `(k mod 10)/10 · 2π` and radius `size + 20 + 10·randoms[k]`, inside `[size + 20, size + 30)`. It is placed on that orbit. The offsets are untouched |
| Simulation.NewSat | main.js:184-189 | glittle `j` starts at angle `(j/10)·2π` on its orbit around the centre. Its radius lies in `[size + 20, size + 30)` exactly when the draw lies in `[0, 1)` |
| Simulation.RebuildStep | main.js:159-195 | one turn of the window loop appends exactly one sphere and its ten glittles to the two lists |
| Simulation.Reach | main.js:222-228 | the sphere loop reaches all spheres exactly when every sphere has a window. Otherwise it stops at the first sphere without one, which is `|wins|` |
| Simulation.MoveBodies | main.js:222-231 | reached spheres keep their size and close 5% of the gap to their window's centre. The rest stay unchanged |
| Simulation.Follow | main.js:128-136 | `update` advances the angle by exactly 0.01 and keeps the radius. The position minus the orbit offset at the NEW angle has closed 5% of its gap to the target |
| Simulation.FollowSats | main.js:222-240 | the glittles of the reached spheres each take one `Follow` step toward their own sphere's new centre. The others stay unchanged |
| Simulation.FollowSphere | main.js:236-240 | one turn of the glittle loop keeps the number of glittles. What it does is stated by `MoveStep`, and `MoveSphere` is proved to follow it |
| Simulation.MoveStep | main.js:224-240 | turn `i` of the sphere loop (move sphere `i`, then its ten glittles) takes the state after `i` turns to the state after `i + 1` turns |
| Simulation.Frame | main.js:204-264 | a frame keeps the population well formed and the number of spheres unchanged. Its properties are the lemmas `FrameEasesOffset`, `FrameMovesBodies`, `FrameMovesSats` and `FrameKeepsRadii` |
| Simulation.FrameEasesOffset | main.js:212-214 | a frame closes 5% of the gap between the scene offset and its target, leaves the target alone, and keeps an offset that is at its target |
| Simulation.FrameMovesBodies | main.js:222-231 | a frame keeps every sphere's size and eases each reached sphere toward its window's centre. Spheres after the first one without a window do not move |
| Simulation.FrameMovesSats | main.js:222-240 | in a frame, each glittle of a reached sphere advances its angle by 0.01 and keeps its radius; the other glittles are untouched. When a window is missing, the reached glittles have only followed their spheres and nothing interacted |
| Simulation.FrameKeepsRadii | main.js:128-139 | a frame keeps every glittle's radius in `[size + 20, size + 30)` of its sphere |
| Simulation.Nudge | main.js:251-256 | a nudge keeps the number of positions. What it moves is stated by `NudgeMoves`, and `NudgeKeepsSum` shows the sum is kept |
| Simulation.NudgeMoves | main.js:251-256 | a pair at distance 30 or more is left unchanged. For a closer pair, glittle A moves by `+0.5·dir` and glittle B by exactly the opposite step, with `dir` the normalized direction from A to B. No other glittle moves |
| Simulation.NudgeLocal | main.js:249-256 | a nudge of two entries of the position list is the two-glittle nudge written back at those two entries |
| Simulation.Row | main.js:250 | the ten pairs of the innermost loop: each pairs glittle `a` of sphere `i` with a glittle of sphere `j` |
| Simulation.Block | main.js:249-250 | the hundred pairs of one sphere pair `i`, `j`: each pairs a glittle of sphere `i` with a glittle of sphere `j` |
| Simulation.RowsMakeBlock | main.js:249-250 | the block of spheres `i` and `j` is its ten rows, in the order of sphere `i`'s glittles |
| Simulation.Later | main.js:245-250 | turn `i` of the outer loop visits `100·(n - 1 - i)` pairs. Which pairs they are is stated by `LaterFacts` |
| Simulation.BlocksMakeLater | main.js:245-250 | turn `i` is the blocks of spheres `i + 1, ..., n - 1`, in that order |
| Simulation.Schedule | main.js:244-250 | every scheduled pair joins a glittle of a lower sphere with a glittle of a higher sphere, among the `n` spheres. `ScheduleVisitsEachCrossPairOnce` gives the converse and that no pair repeats |
| Simulation.InteractUpTo | main.js:244-264 | the first `i` turns of the outer loop keep the number of positions. `InteractUpToRest` shows these turns followed by the pairs of the remaining turns make up the whole `Schedule` |
| Simulation.InteractUpToRest | main.js:244-264 | the first `i` turns, followed by the nudges of the remaining turns' pairs, give the same positions as the whole schedule |
| Simulation.Interact | main.js:244-264 | the interaction pass keeps the number of positions. How it moves them is stated by `InteractFollowsSchedule`, and `InteractKeepsSum` shows the sum is kept |
| Simulation.InteractFollowsSchedule | main.js:244-264 | the interaction pass applies one nudge per scheduled pair, in schedule order, each seeing the positions the earlier ones left |
| Simulation.LaterFacts | main.js:245-250 | turn `i` of the outer loop compares exactly the pairs of a glittle of sphere `i` with a glittle of a later sphere, each once |
| Simulation.PairsFromFacts | main.js:244-250 | the turns from `i` on compare exactly the cross-sphere pairs whose first glittle belongs to sphere `i` or later, each once |
| Simulation.ScheduleVisitsEachCrossPairOnce | main.js:244-250 | the pass compares every pair of glittles of two different spheres, lower sphere first, exactly once. It never compares two glittles of the same sphere |
| Simulation.NudgeKeepsSum | main.js:251-256 | a nudge keeps the sum of all glittle positions |
| Simulation.InteractKeepsSum | main.js:244-264 | the whole interaction pass keeps the sum, and hence the centroid, of the glittle positions |
| Scene.Mesh.constructor | main.js:167-170 | a new sphere mesh has the given size and starts at the origin |
| Scene.Sphere.constructor | main.js:178-181 | a new sphere record holds its mesh and an empty glittle list |
| Scene.Glittle.constructor | main.js:116-126 | a new glittle records its sphere, angle and radius, and starts at the origin |
| Scene.Glittle.Update | main.js:128-139 | the method changes the glittle exactly as `Follow` says |
| Scene.Sphere.UpdateGlittles | main.js:236-240 | every glittle of the sphere takes one `Follow` step toward the mesh's position |
| Scene.Attract | main.js:251-256 | the two glittles move exactly as `Nudge` moves a pair of positions. Their angles are unchanged |
| Scene.Scene.constructor | main.js:7-10 | the globals start as empty lists, with the offset and its target at the origin |
| Scene.Scene.UpdateWindowShape | main.js:198-202 | the offset target becomes `(-screenX, -screenY)`. Without easing, the offset equals the target afterwards; with easing it is unchanged |
| Scene.Scene.UpdateNumberOfSpheres | main.js:146-196 | the new state is `Rebuilt` of the old state, so every orbit radius lies in its band. The scene invariant holds, and every sphere, mesh and glittle is new |
| Scene.Scene.AddSphere | main.js:159-195 | the loop body pushes one new sphere, placed at window `i`'s centre with size `50 + 20·i`, and its ten new glittles. It keeps the scene invariant |
| Scene.Scene.BuildSphere | main.js:161-192 | the new sphere and mesh, and ten new distinct glittles. Each glittle is placed as `NewSat` says and pushed onto both lists |
| Scene.Scene.NewGlittle | main.js:184-189 | glittle `j` is new and belongs to its sphere. It has angle `j/10 · 2π` and radius `size + 20 + 10·rnd`, and lies on that orbit around the sphere's position |
| Scene.Scene.Render | main.js:204-271 | the new state is `Frame` of the old state. `completed` holds exactly when every sphere had a window. The scene invariant is kept, and so is the band of every orbit radius |
| Scene.Scene.MoveSpheres | main.js:222-241 | the spheres end as `MoveBodies` says and the glittles as `FollowSats` says. The loop stops at the first sphere without a window |
| Scene.Scene.MoveSphere | main.js:224-240 | sphere `i` eases toward its window's centre and only its ten glittles follow it. The scene invariant is kept |
| Scene.Scene.InteractPass | main.js:244-264 | the glittle positions end as `Interact` of the old positions. Angles, spheres and the invariant are unchanged |
| Scene.Scene.CompareLater | main.js:245-263 | turn `i` of the outer loop leaves the positions that the nudges of `Later(n, i)` give |
| Scene.Scene.CompareSpheres | main.js:246-262 | spheres `i < j` leave the positions that the nudges of `Block(i, j)` give |
| Scene.Scene.CompareWithSphere | main.js:249-261 | glittle `a` of sphere `i` against the glittles of sphere `j` leaves the positions that the nudges of `Row(i, j, a)` give |

## Left out

- Rendering is not modelled: three.js meshes of the glittles, materials, colours (`setHSL`), the camera, the renderer,
  `world.add`/`world.remove` and `world.position`. These belong to a graphics library outside this model. A mesh
  position is taken to be the position it is copied from. This also covers the removal of the old meshes in
  `updateNumberOfSpheres`: the model simply drops the old population.
- `WindowManager.js` is not part of this model. `getWindows()` becomes the input `wins`, a sequence of shapes, and
  `windowManager.update()` is left out.
- `getTime`, the `Date` arithmetic and the sphere rotations derived from them are left out. They are clock reads
  that only feed the picture.
- Browser plumbing is left out: the page handlers, `setTimeout`, `resize`, logging, and the `requestAnimationFrame`
  re-scheduling. `Render` reports through `completed` whether the frame reached its end, which is the point where the
  next frame would be requested.
- The numeric content of `Math.cos`, `Math.sin`, `distanceTo` and `normalize` is not modelled. They are
  uninterpreted arrow values in `MathLib`, and all arithmetic is over exact reals rather than floating point.
- The z coordinate is not modelled. The source keeps it at 0 everywhere: every position has z = 0, so a difference
  of two positions does too, and `normalize` scales all components alike. The model has no reason to track z, since
  `normalize` and `distanceTo` are uninterpreted.
- The `forEach` callbacks are modelled as index loops over the same lists, in the same order.
- The aliasing that `updateWindowShape(false)` creates is not modelled. After that call `sceneOffset` and
  `sceneOffsetTarget` are one object. The model copies the value instead. While the two are the same object, easing
  the offset toward itself is a no-op (`Ease` keeps a value at its target), so the model agrees with the source for
  as long as they stay aliased.
- `Glittle.remove` (main.js:141-143) is left out. It only removes a mesh from the graphics world.
