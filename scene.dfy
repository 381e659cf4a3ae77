/** The mutable scene of `main.js`: the `Glittle` class, the sphere records,
    and the module-level globals (`spheres`, `glittles`, `sceneOffset`,
    `sceneOffsetTarget`) gathered in class `Scene`, whose methods are
    `updateNumberOfSpheres`, `updateWindowShape` and the simulation part of
    `render`. Each method is proved to move the scene's abstract `State()`
    exactly as the functions of module Simulation say. */
module Scene {
  import opened Vectors
  import opened Simulation

  /** A sphere's mesh: the radius of its geometry and its position. */
  class Mesh {
    const size: real
    var position: Vec

    /** A new mesh sits at the origin. */
    constructor (size: real)
      ensures this.size == size && position == Vec(0.0, 0.0)
    {
      this.size := size;
      position := Vec(0.0, 0.0);
    }
  }

  /** A sphere record: its mesh and the glittles created for it. */
  class Sphere {
    const mesh: Mesh
    var glittles: seq<Glittle>

    function View(): Body
      reads mesh
    {
      Body(mesh.size, mesh.position)
    }

    constructor (mesh: Mesh)
      ensures this.mesh == mesh && glittles == []
    {
      this.mesh := mesh;
      glittles := [];
    }

    /** The `forEach` over the sphere's glittles in `render`: each follows
        the mesh's (already moved) position. */
    method UpdateGlittles(m: MathLib)
      requires Distinct(glittles)
      modifies glittles
      ensures forall a :: 0 <= a < |glittles| ==>
        glittles[a].View() == Follow(old(glittles[a].View()), mesh.position, m)
    {
      var a := 0;
      while a < |glittles|
        invariant 0 <= a <= |glittles|
        invariant forall b :: 0 <= b < a ==>
          glittles[b].View() == Follow(old(glittles[b].View()), mesh.position, m)
        invariant forall b :: a <= b < |glittles| ==> glittles[b].View() == old(glittles[b].View())
      {
        forall b | 0 <= b < |glittles| && b != a
          ensures glittles[b] != glittles[a]
        {
          if b < a {
            assert Apart(glittles, b, a);
          } else {
            assert Apart(glittles, a, b);
          }
        }
        var orbitCenter := Vec(mesh.position.x, mesh.position.y);
        glittles[a].Update(orbitCenter, m);
        a := a + 1;
      }
    }
  }

  /** A particle that lags behind its sphere and orbits it. */
  class Glittle {
    const parentSphere: Sphere
    var angle: real
    const radius: real
    var position: Vec

    function View(): Sat
      reads this
    {
      Sat(angle, radius, position)
    }

    /** A new glittle starts at the origin (a fresh `Vector3`); the caller
        then places it on its orbit. */
    constructor (parentSphere: Sphere, angle: real, radius: real)
      ensures this.parentSphere == parentSphere && this.angle == angle && this.radius == radius
      ensures position == Vec(0.0, 0.0)
    {
      this.parentSphere := parentSphere;
      this.angle := angle;
      this.radius := radius;
      position := Vec(0.0, 0.0);
    }

    /** `update(targetPos)`: one `Follow` step, coordinate by coordinate. */
    method Update(targetPos: Vec, m: MathLib)
      modifies this
      ensures View() == Follow(old(View()), targetPos, m)
    {
      position := position.(x := position.x + (targetPos.x - position.x) * 0.05);
      position := position.(y := position.y + (targetPos.y - position.y) * 0.05);
      angle := angle + 0.01;
      position := position.(x := position.x + m.cos(angle) * radius);
      position := position.(y := position.y + m.sin(angle) * radius);
    }
  }

  /** The body of the innermost interaction closure for one glittle pair: it
      moves the two glittles exactly as `Nudge` moves a pair of positions. */
  method Attract(glittleA: Glittle, glittleB: Glittle, m: MathLib)
    requires glittleA != glittleB
    modifies glittleA, glittleB
    ensures [glittleA.position, glittleB.position] ==
      Nudge([old(glittleA.position), old(glittleB.position)], 0, 1, m)
    ensures glittleA.angle == old(glittleA.angle) && glittleB.angle == old(glittleB.angle)
  {
    var dist := m.distance(glittleA.position, glittleB.position);
    if dist < 30.0 {
      var dir := m.normalize(Sub(glittleB.position, glittleA.position));
      glittleA.position := Add(glittleA.position, Scale(dir, 0.5));
      glittleB.position := Add(glittleB.position, Scale(Neg(dir), 0.5));
    }
  }

  function MeshesOf(ss: seq<Sphere>): set<Mesh>
  {
    set i | 0 <= i < |ss| :: ss[i].mesh
  }

  function Bodies(ss: seq<Sphere>): (r: seq<Body>)
    reads MeshesOf(ss)
    ensures |r| == |ss| && forall i :: 0 <= i < |ss| ==> r[i] == ss[i].View()
  {
    seq(|ss|, i requires 0 <= i < |ss| reads MeshesOf(ss) => ss[i].View())
  }

  function Views(gs: seq<Glittle>): (r: seq<Sat>)
    reads gs
    ensures |r| == |gs| && forall k :: 0 <= k < |gs| ==> r[k] == gs[k].View()
  {
    seq(|gs|, k requires 0 <= k < |gs| reads gs => gs[k].View())
  }

  /** Entries `x` and `y` of `xs` are different glittles. */
  predicate Apart(xs: seq<Glittle>, x: nat, y: nat)
    requires x < |xs| && y < |xs|
  {
    xs[x] != xs[y]
  }

  /** No glittle appears twice in `xs`. The quantifier fires only on
      `Apart` terms, so proofs name the pairs they need. */
  predicate Distinct(xs: seq<Glittle>)
  {
    forall x, y {:trigger Apart(xs, x, y)} :: 0 <= x < y < |xs| ==> Apart(xs, x, y)
  }

  lemma DistinctAppend(xs: seq<Glittle>, ys: seq<Glittle>)
    requires Distinct(xs) && Distinct(ys)
    requires forall b :: 0 <= b < |ys| ==> ys[b] !in xs
    ensures Distinct(xs + ys)
  {
    var zs := xs + ys;
    forall x, y | 0 <= x < y < |zs|
      ensures Apart(zs, x, y)
    {
      if y < |xs| {
        assert Apart(xs, x, y);
      } else if x >= |xs| {
        assert Apart(ys, x - |xs|, y - |xs|);
      } else {
        assert zs[y] == ys[y - |xs|] && zs[x] == xs[x];
      }
    }
  }

  lemma ViewsAppend(xs: seq<Glittle>, ys: seq<Glittle>)
    ensures Views(xs + ys) == Views(xs) + Views(ys)
  {
  }

  function PositionsOf(gs: seq<Glittle>): (r: seq<Vec>)
    reads gs
    ensures |r| == |gs| && forall k :: 0 <= k < |gs| ==> r[k] == gs[k].position
  {
    seq(|gs|, k requires 0 <= k < |gs| reads gs => gs[k].position)
  }

  /** The module-level state of `main.js` that the simulation touches. */
  class Scene {
    /** `Math` and the vector library, as the environment supplies them. */
    const math: MathLib
    var spheres: seq<Sphere>
    /** Every glittle of every sphere, in creation order: the same objects
        as the spheres' own lists. */
    var glittles: seq<Glittle>
    var sceneOffset: Vec
    var sceneOffsetTarget: Vec

    /** The global glittle list is the concatenation of the spheres' lists
        of ten, each glittle knows its sphere, and no mesh and no glittle
        appears twice. */
    predicate Valid()
      reads this`spheres, this`glittles, spheres
    {
      |glittles| == 10 * |spheres| &&
      (forall i :: 0 <= i < |spheres| ==> |spheres[i].glittles| == 10) &&
      (forall i, a :: 0 <= i < |spheres| && 0 <= a < 10 ==>
        spheres[i].glittles[a] == glittles[10 * i + a] &&
        spheres[i].glittles[a].parentSphere == spheres[i]) &&
      (forall x, y :: 0 <= x < y < |spheres| ==> spheres[x].mesh != spheres[y].mesh) &&
      Distinct(glittles)
    }

    function Meshes(): set<Mesh>
      reads this`spheres
    {
      MeshesOf(spheres)
    }

    function State(): World
      reads this, Meshes(), glittles
    {
      World(Bodies(spheres), Views(glittles), sceneOffset, sceneOffsetTarget)
    }

    /** The globals as the module's top level initialises them. */
    constructor (math: MathLib)
      ensures Valid() && this.math == math
      ensures State() == World([], [], Vec(0.0, 0.0), Vec(0.0, 0.0))
    {
      this.math := math;
      spheres := [];
      glittles := [];
      sceneOffsetTarget := Vec(0.0, 0.0);
      sceneOffset := Vec(0.0, 0.0);
    }

    /** `updateWindowShape(easing)` with the window's screen position: the
        offset target becomes the negated position, and without easing the
        offset jumps to it. */
    method UpdateWindowShape(screenX: real, screenY: real, easing: bool := true)
      modifies this`sceneOffset, this`sceneOffsetTarget
      ensures sceneOffsetTarget == Vec(-screenX, -screenY)
      ensures sceneOffset == if easing then old(sceneOffset) else sceneOffsetTarget
    {
      sceneOffsetTarget := Vec(-screenX, -screenY);
      if !easing {
        sceneOffset := sceneOffsetTarget;
      }
    }

    /** `updateNumberOfSpheres` for the window list `wins`, with `randoms`
        the `Math.random()` draws in creation order. */
    method UpdateNumberOfSpheres(wins: seq<Shape>, randoms: seq<real>)
      requires |randoms| == 10 * |wins| && UnitRandoms(randoms)
      modifies this`spheres, this`glittles
      ensures Valid()
      ensures State() == Rebuilt(old(State()), wins, randoms, math)
      ensures WellFormed(State()) && RadiiInBand(State())
      ensures forall i :: 0 <= i < |spheres| ==> fresh(spheres[i]) && fresh(spheres[i].mesh)
      ensures forall k :: 0 <= k < |glittles| ==> fresh(glittles[k])
    {
      spheres := [];
      glittles := [];
      var i := 0;
      while i < |wins|
        invariant 0 <= i <= |wins| && |spheres| == i
        invariant Valid()
        invariant Bodies(spheres) == NewBodies(wins, i)
        invariant Views(glittles) == NewSats(wins, randoms, i, math)
        invariant forall k :: 0 <= k < |glittles| ==> fresh(glittles[k])
        invariant forall x :: 0 <= x < i ==> fresh(spheres[x].mesh)
        invariant forall x :: 0 <= x < i ==> fresh(spheres[x])
      {
        RebuildStep(wins, randoms, i, math);
        ghost var before := glittles;
        var sphere := AddSphere(i, wins[i], randoms[10 * i .. 10 * i + 10]);
        PushedSphere(before, sphere, Centre(wins[i]), SphereSize(i), randoms[10 * i .. 10 * i + 10]);
        i := i + 1;
      }
    }

    /** The views of the lists after one turn of the rebuild loop. */
    lemma PushedSphere(before: seq<Glittle>, sphere: Sphere, centre: Vec, size: real, draws: seq<real>)
      requires |draws| == 10 && |spheres| >= 1 && sphere == spheres[|spheres| - 1]
      requires glittles == before + sphere.glittles && |sphere.glittles| == 10
      requires forall a :: 0 <= a < 10 ==> sphere.glittles[a].View() == NewSat(centre, size, a, draws[a], math)
      ensures Views(glittles) == Views(before) + SphereSats(centre, size, draws, math)
      ensures Bodies(spheres) == Bodies(spheres[..|spheres| - 1]) + [sphere.View()]
    {
      assert Views(sphere.glittles) == SphereSats(centre, size, draws, math);
      ViewsAppend(before, sphere.glittles);
      assert spheres == spheres[..|spheres| - 1] + [sphere];
    }

    /** One turn of the rebuild loop: a sphere for window `i` with its ten
        glittles, pushed onto the sphere list. */
    method AddSphere(i: nat, win: Shape, randoms: seq<real>) returns (sphere: Sphere)
      requires Valid() && |spheres| == i && |randoms| == 10
      modifies this`spheres, this`glittles
      ensures Valid() && fresh(sphere) && fresh(sphere.mesh)
      ensures spheres == old(spheres) + [sphere] && glittles == old(glittles) + sphere.glittles
      ensures sphere.View() == Body(SphereSize(i), Centre(win))
      ensures forall a :: 0 <= a < 10 ==>
        fresh(sphere.glittles[a]) && sphere.glittles[a].View() == NewSat(Centre(win), SphereSize(i), a, randoms[a], math)
    {
      sphere := BuildSphere(i, win, randoms);
      DistinctAppend(old(glittles), sphere.glittles);
      assert forall x :: 0 <= x < i ==> spheres[x] != sphere && spheres[x].mesh != sphere.mesh;
      spheres := spheres + [sphere];
      assert forall a :: 0 <= a < 10 ==> spheres[i].glittles[a] == glittles[10 * i + a];
    }

    /** The rebuild loop's body up to the sphere push: a sphere for window
        `i` at its centre, and its ten glittles spread evenly on their
        orbits, each pushed both onto the sphere's list and onto the global
        list. */
    method BuildSphere(i: nat, win: Shape, randoms: seq<real>) returns (sphere: Sphere)
      requires |randoms| == 10
      modifies this`glittles
      ensures fresh(sphere) && fresh(sphere.mesh) && |sphere.glittles| == 10
      ensures glittles == old(glittles) + sphere.glittles && Distinct(sphere.glittles)
      ensures sphere.View() == Body(SphereSize(i), Centre(win))
      ensures forall a :: 0 <= a < 10 ==> fresh(sphere.glittles[a]) && sphere.glittles[a].parentSphere == sphere
      ensures forall a :: 0 <= a < 10 ==>
        sphere.glittles[a].View() == NewSat(Centre(win), SphereSize(i), a, randoms[a], math)
    {
      var size := 50.0 + (i as real) * 20.0;
      var sphereMesh := new Mesh(size);
      sphereMesh.position := sphereMesh.position.(x := win.x + win.w * 0.5);
      sphereMesh.position := sphereMesh.position.(y := win.y + win.h * 0.5);
      sphere := new Sphere(sphereMesh);
      var j := 0;
      while j < 10
        invariant 0 <= j <= 10 && |sphere.glittles| == j
        invariant sphere.View() == Body(SphereSize(i), Centre(win))
        invariant glittles == old(glittles) + sphere.glittles
        invariant forall a :: 0 <= a < j ==>
          fresh(sphere.glittles[a]) && sphere.glittles[a].parentSphere == sphere &&
          sphere.glittles[a].View() == NewSat(Centre(win), SphereSize(i), a, randoms[a], math)
        invariant Distinct(sphere.glittles)
      {
        var glittle := NewGlittle(sphere, j, randoms[j]);
        ghost var prev := sphere.glittles;
        sphere.glittles := sphere.glittles + [glittle];
        forall x, y | 0 <= x < y <= j
          ensures Apart(sphere.glittles, x, y)
        {
          if y < j {
            assert Apart(prev, x, y);
          }
        }
        glittles := glittles + [glittle];
        j := j + 1;
      }
    }

    /** The body of the glittle loop for glittle `j` of `sphere`: its start
        angle, its radius with the jitter `rnd`, and its place on the orbit. */
    method NewGlittle(sphere: Sphere, j: nat, rnd: real) returns (glittle: Glittle)
      ensures fresh(glittle) && glittle.parentSphere == sphere
      ensures glittle.View() == NewSat(sphere.mesh.position, sphere.mesh.size, j, rnd, math)
    {
      var angle := (j as real / 10.0) * PI * 2.0;
      var radius := sphere.mesh.size + 20.0 + rnd * 10.0;
      glittle := new Glittle(sphere, angle, radius);
      glittle.position := glittle.position.(x := sphere.mesh.position.x + math.cos(angle) * radius);
      glittle.position := glittle.position.(y := sphere.mesh.position.y + math.sin(angle) * radius);
    }

    /** The simulation part of `render` for the window list `wins`: ease the
        scene offset, move every sphere and its glittles, then let glittles
        of different spheres attract. When a sphere has no window the frame
        stops there (`completed` is false), as the handler around the body
        makes it; it then also schedules no further frame. */
    method Render(wins: seq<Shape>) returns (completed: bool)
      requires Valid()
      modifies this`sceneOffset, Meshes(), glittles
      ensures Valid()
      ensures completed == (|spheres| <= |wins|)
      ensures State() == Frame(old(State()), wins, math)
      ensures WellFormed(old(State())) && RadiiInBand(old(State())) ==> RadiiInBand(State())
    {
      ghost var w0 := State();
      sceneOffset := sceneOffset.(x := sceneOffset.x + (sceneOffsetTarget.x - sceneOffset.x) * 0.05);
      sceneOffset := sceneOffset.(y := sceneOffset.y + (sceneOffsetTarget.y - sceneOffset.y) * 0.05);
      completed := MoveSpheres(wins);
      ghost var bodies, followed := Bodies(spheres), Views(glittles);
      if completed {
        ghost var ps := PositionsOf(glittles);
        InteractPass();
        WithInteraction(followed, ps);
      }
      FrameOf(w0, wins, math, bodies, followed, Views(glittles));
      if RadiiInBand(w0) {
        FrameKeepsRadii(w0, wins, math);
      }
    }

    /** Glittles that kept their angles and radii while their positions went
        through the interaction pass. */
    lemma WithInteraction(followed: seq<Sat>, ps: seq<Vec>)
      requires |followed| == |glittles| && Positions(followed) == ps
      requires forall k :: 0 <= k < |glittles| ==>
        glittles[k].angle == followed[k].angle && glittles[k].radius == followed[k].radius
      requires PositionsOf(glittles) == Interact(ps, |spheres|, math)
      ensures Views(glittles) == WithPositions(followed, Interact(Positions(followed), |spheres|, math))
    {
      var sats := WithPositions(followed, Interact(ps, |spheres|, math));
      forall k | 0 <= k < |glittles|
        ensures glittles[k].View() == sats[k]
      {
      }
      assert Views(glittles) == sats;
    }

    /** `render`'s loop over the spheres: each eases toward the centre of
        its window and then updates its glittles toward its new centre. The
        loop stops at the first sphere without a window. */
    method MoveSpheres(wins: seq<Shape>) returns (completed: bool)
      requires Valid()
      modifies Meshes(), glittles
      ensures Valid()
      ensures completed == (|spheres| <= |wins|)
      ensures Bodies(spheres) == MoveBodies(old(Bodies(spheres)), wins, Reach(|spheres|, wins))
      ensures Views(glittles) == FollowSats(old(Views(glittles)), Bodies(spheres), Reach(|spheres|, wins), math)
    {
      ghost var bodies0, sats0 := Bodies(spheres), Views(glittles);
      var i := 0;
      while i < |spheres|
        invariant 0 <= i <= |spheres| && i <= |wins| && Valid()
        invariant Bodies(spheres) == MoveBodies(bodies0, wins, i)
        invariant Views(glittles) == FollowSats(sats0, Bodies(spheres), i, math)
      {
        if i >= |wins| {
          completed := false;
          return;
        }
        MoveStep(bodies0, sats0, wins, i, math);
        MoveSphere(i, wins[i]);
        i := i + 1;
      }
      completed := true;
    }

    /** One turn of the sphere loop: sphere `i` eases toward the centre of
        window `win`, then each of its glittles follows the new centre. */
    method MoveSphere(i: nat, win: Shape)
      requires Valid() && i < |spheres|
      modifies spheres[i].mesh, spheres[i].glittles
      ensures Valid()
      ensures Bodies(spheres) == old(Bodies(spheres))[i :=
        old(Bodies(spheres))[i].(pos := EaseVec(old(spheres[i].mesh.position), Centre(win)))]
      ensures Views(glittles) == FollowSphere(old(Views(glittles)), i, spheres[i].mesh.position, math)
    {
      ghost var views0 := Views(glittles);
      var sphere := spheres[i];
      var posTarget := Centre(win);
      sphere.mesh.position := sphere.mesh.position.(x := sphere.mesh.position.x + (posTarget.x - sphere.mesh.position.x) * 0.05);
      sphere.mesh.position := sphere.mesh.position.(y := sphere.mesh.position.y + (posTarget.y - sphere.mesh.position.y) * 0.05);
      assert forall a :: 0 <= a < 10 ==> sphere.glittles[a] == glittles[10 * i + a];
      forall a, b | 0 <= a < b < 10
        ensures Apart(sphere.glittles, a, b)
      {
        assert Apart(glittles, 10 * i + a, 10 * i + b);
      }
      sphere.UpdateGlittles(math);
      ghost var followed := FollowSphere(views0, i, sphere.mesh.position, math);
      forall k | 0 <= k < |glittles|
        ensures glittles[k].View() == followed[k]
      {
        if 10 * i <= k < 10 * i + 10 {
          assert glittles[k] == sphere.glittles[k - 10 * i];
        } else {
          forall a | 0 <= a < 10
            ensures glittles[k] != sphere.glittles[a]
          {
            if k < 10 * i + a {
              assert Apart(glittles, k, 10 * i + a);
            } else {
              assert Apart(glittles, 10 * i + a, k);
            }
          }
        }
      }
      assert Views(glittles) == followed;
    }

    /** `render`'s interaction loops: sphere `i` against every later sphere,
        for every `i` in turn. */
    method InteractPass()
      requires Valid()
      modifies glittles
      ensures Valid() && Bodies(spheres) == old(Bodies(spheres))
      ensures PositionsOf(glittles) == Interact(old(PositionsOf(glittles)), |spheres|, math)
      ensures forall k :: 0 <= k < |glittles| ==> glittles[k].angle == old(glittles[k].angle)
    {
      var n := |spheres|;
      ghost var start := PositionsOf(glittles);
      ghost var stages := StagesOf(start, n, math);
      var i := 0;
      while i < n
        invariant 0 <= i <= n
        invariant PositionsOf(glittles) == stages[i]
        invariant forall k :: 0 <= k < |glittles| ==> glittles[k].angle == old(glittles[k].angle)
      {
        ghost var turn := BlocksOfTurn(stages, start, n, i, math);
        CompareLater(i, turn);
        i := i + 1;
      }
    }

    /** Sphere `i` against spheres `i + 1, i + 2, ...`. */
    method CompareLater(i: nat, ghost stages: seq<seq<Vec>>)
      requires Valid() && i < |spheres| && IsBlockStages(stages, PositionsOf(glittles), |spheres|, i, math)
      modifies glittles
      ensures PositionsOf(glittles) == stages[|spheres|]
      ensures forall k :: 0 <= k < |glittles| ==> glittles[k].angle == old(glittles[k].angle)
    {
      var n := |spheres|;
      var j := i + 1;
      while j < n
        invariant i < j <= n
        invariant PositionsOf(glittles) == stages[j]
        invariant forall k :: 0 <= k < |glittles| ==> glittles[k].angle == old(glittles[k].angle)
      {
        ghost var rows := RowsOfBlock(stages, old(PositionsOf(glittles)), n, i, j, math);
        CompareSpheres(i, j, rows);
        j := j + 1;
      }
    }

    /** `sphereA.glittles.forEach(...)` for spheres `i < j`: every glittle
        of sphere `i` against every glittle of sphere `j`. */
    method CompareSpheres(i: nat, j: nat, ghost stages: seq<seq<Vec>>)
      requires Valid() && i < j < |spheres| && IsRowStages(stages, PositionsOf(glittles), i, j, math)
      modifies glittles
      ensures PositionsOf(glittles) == stages[10]
      ensures forall k :: 0 <= k < |glittles| ==> glittles[k].angle == old(glittles[k].angle)
    {
      var a := 0;
      while a < 10
        invariant 0 <= a <= 10
        invariant PositionsOf(glittles) == stages[a]
        invariant forall k :: 0 <= k < |glittles| ==> glittles[k].angle == old(glittles[k].angle)
      {
        ghost var pairs := PairsOfRow(stages, old(PositionsOf(glittles)), i, j, a, math);
        CompareWithSphere(i, j, a, pairs);
        a := a + 1;
      }
    }

    /** `sphereB.glittles.forEach(...)`: glittle `a` of sphere `i` against
        every glittle of sphere `j`. */
    method CompareWithSphere(i: nat, j: nat, a: nat, ghost steps: seq<seq<Vec>>)
      requires Valid() && i < j < |spheres| && a < 10
      requires IsTrace(steps, PositionsOf(glittles), Row(i, j, a), math)
      modifies glittles
      ensures PositionsOf(glittles) == steps[10]
      ensures forall k :: 0 <= k < |glittles| ==> glittles[k].angle == old(glittles[k].angle)
    {
      var sphereA, sphereB := spheres[i], spheres[j];
      var glittleA := sphereA.glittles[a];
      ghost var row := Row(i, j, a);
      var b := 0;
      while b < 10
        invariant 0 <= b <= 10
        invariant PositionsOf(glittles) == steps[b]
        invariant forall k :: 0 <= k < |glittles| ==> glittles[k].angle == old(glittles[k].angle)
      {
        ghost var p, q := 10 * i + a, 10 * j + b;
        var glittleB := sphereB.glittles[b];
        assert glittleA == glittles[p] && glittleB == glittles[q] && Apart(glittles, p, q);
        forall k | 0 <= k < |glittles| && k != p && k != q
          ensures glittles[k] != glittleA && glittles[k] != glittleB
        {
          if k < p {
            assert Apart(glittles, k, p);
          } else {
            assert Apart(glittles, p, k);
          }
          if k < q {
            assert Apart(glittles, k, q);
          } else {
            assert Apart(glittles, q, k);
          }
        }
        Attract(glittleA, glittleB, math);
        NudgeLocal(steps[b], p, q, math);
        assert row[b] == (p, q);
        assert PositionsOf(glittles) == NudgePair(steps[b], row[b], math);
        b := b + 1;
      }
    }
  }
}
