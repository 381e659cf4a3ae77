/** The scene's state as plain values, and the meaning of each step the
    scene takes: rebuilding the population from the window list, and one
    animation frame (offset easing, sphere easing, glittle follow and orbit,
    and the pairwise glittle interaction). The classes in module Scene are
    proved to follow these functions. */
module Simulation {
  import opened Vectors

  /** Orbit angle added to every glittle per frame. */
  const AngleStep: real := 0.01
  /** Glittles of different spheres closer than this interact. */
  const InteractionDistance: real := 30.0
  /** `Math.PI` */
  const PI: real := 3.141592653589793

  /** A sphere: its size (fixed at creation) and its centre. */
  datatype Body = Body(size: real, pos: Vec)
  /** A glittle: orbit angle, orbit radius and position. */
  datatype Sat = Sat(angle: real, radius: real, pos: Vec)
  /** All simulation state: the spheres in window order, every glittle in
      sphere order (glittle `j` of sphere `i` at index `10 * i + j`), and the
      current and target scene offsets. */
  datatype World = World(bodies: seq<Body>, sats: seq<Sat>, offset: Vec, target: Vec)

  /** Every sphere owns exactly ten glittles (`glittleCount`). */
  predicate WellFormed(w: World)
  {
    |w.sats| == 10 * |w.bodies|
  }

  /** Every glittle's orbit radius lies in `[size + 20, size + 30)` of its sphere. */
  predicate RadiiInBand(w: World)
    requires WellFormed(w)
  {
    forall k :: 0 <= k < |w.sats| ==>
      w.bodies[k / 10].size + 20.0 <= w.sats[k].radius < w.bodies[k / 10].size + 30.0
  }

  predicate UnitRandoms(randoms: seq<real>)
  {
    forall k :: 0 <= k < |randoms| ==> 0.0 <= randoms[k] < 1.0
  }

  lemma TenthBounds(p: nat)
    ensures 10 * (p / 10) <= p < 10 * (p / 10) + 10
  {
  }

  // ---------------------------------------------------------------------
  // Population rebuild

  function SphereSize(i: nat): real { 50.0 + (i as real) * 20.0 }

  function StartAngle(j: nat): real { (j as real / 10.0) * PI * 2.0 }

  /** A freshly created glittle: `j`-th of its sphere, on its orbit around the
      sphere's centre, with the radius jitter `rnd` drawn once. */
  function NewSat(centre: Vec, size: real, j: nat, rnd: real, m: MathLib): (r: Sat)
    ensures r.angle == StartAngle(j) && r.pos == Add(centre, Orbit(m, r.angle, r.radius))
    ensures 0.0 <= rnd < 1.0 <==> size + 20.0 <= r.radius < size + 30.0
  {
    var angle := StartAngle(j);
    var radius := size + 20.0 + rnd * 10.0;
    Sat(angle, radius, Add(centre, Orbit(m, angle, radius)))
  }

  /** The population after a rebuild: one sphere per window in window order
      and ten glittles per sphere; nothing of the previous population is
      kept, and the scene offsets are untouched. `randoms` are the
      `Math.random()` draws, one per glittle in creation order. */
  function Rebuilt(w: World, wins: seq<Shape>, randoms: seq<real>, m: MathLib): (r: World)
    requires |randoms| == 10 * |wins| && UnitRandoms(randoms)
    ensures WellFormed(r) && RadiiInBand(r)
    ensures |r.bodies| == |wins|
    ensures forall i :: 0 <= i < |wins| ==>
      r.bodies[i].size == 50.0 + 20.0 * (i as real) && r.bodies[i].pos == Centre(wins[i])
    ensures forall k :: 0 <= k < |r.sats| ==>
      var s := r.sats[k];
      s.angle == ((k % 10) as real / 10.0) * 2.0 * PI &&
      s.radius == r.bodies[k / 10].size + 20.0 + randoms[k] * 10.0 &&
      s.pos == Add(Centre(wins[k / 10]), Orbit(m, s.angle, s.radius))
    ensures r.offset == w.offset && r.target == w.target
  {
    World(NewBodies(wins, |wins|), NewSats(wins, randoms, |wins|, m), w.offset, w.target)
  }

  /** The spheres for the first `n` windows. */
  function NewBodies(wins: seq<Shape>, n: nat): (r: seq<Body>)
    requires n <= |wins|
    ensures |r| == n
  {
    seq(n, i requires 0 <= i < n => Body(SphereSize(i), Centre(wins[i])))
  }

  /** The glittles of the spheres for the first `n` windows. */
  function NewSats(wins: seq<Shape>, randoms: seq<real>, n: nat, m: MathLib): (r: seq<Sat>)
    requires n <= |wins| && |randoms| == 10 * |wins|
    ensures |r| == 10 * n
  {
    seq(10 * n, k requires 0 <= k < 10 * n =>
      NewSat(Centre(wins[k / 10]), SphereSize(k / 10), k % 10, randoms[k], m))
  }

  /** The ten glittles of one new sphere, with its ten draws. */
  function SphereSats(centre: Vec, size: real, draws: seq<real>, m: MathLib): (r: seq<Sat>)
    requires |draws| == 10
    ensures |r| == 10
  {
    seq(10, a requires 0 <= a < 10 => NewSat(centre, size, a, draws[a], m))
  }

  /** One turn of the rebuild loop adds one sphere and its ten glittles at
      the end of the two lists. */
  lemma RebuildStep(wins: seq<Shape>, randoms: seq<real>, i: nat, m: MathLib)
    requires i < |wins| && |randoms| == 10 * |wins|
    ensures NewBodies(wins, i + 1) == NewBodies(wins, i) + [Body(SphereSize(i), Centre(wins[i]))]
    ensures NewSats(wins, randoms, i + 1, m) ==
      NewSats(wins, randoms, i, m) + SphereSats(Centre(wins[i]), SphereSize(i), randoms[10 * i .. 10 * i + 10], m)
  {
    var sats, prefix := NewSats(wins, randoms, i + 1, m), NewSats(wins, randoms, i, m);
    var mine := SphereSats(Centre(wins[i]), SphereSize(i), randoms[10 * i .. 10 * i + 10], m);
    forall k | 0 <= k < 10 * i + 10
      ensures sats[k] == (prefix + mine)[k]
    {
      TenthBounds(k);
      if k >= 10 * i {
        assert k / 10 == i && k % 10 == k - 10 * i;
      }
    }
  }

  // ---------------------------------------------------------------------
  // One frame

  /** How many spheres `render` gets through: it pairs sphere `i` with window
      `i`, and at the first sphere without a window reading the missing
      window's shape throws; the handler then ends the frame. */
  function Reach(n: nat, wins: seq<Shape>): (c: nat)
    ensures c <= n && c <= |wins|
    ensures c == n <==> n <= |wins|
    ensures c < n ==> c == |wins|
  {
    if n <= |wins| then n else |wins|
  }

  /** The first `c` spheres ease toward the centres of their windows (paired
      by index); the others stay where they are. */
  function MoveBodies(bodies: seq<Body>, wins: seq<Shape>, c: nat): (r: seq<Body>)
    requires c <= |bodies| && c <= |wins|
    ensures |r| == |bodies|
    ensures forall i :: 0 <= i < |r| ==> r[i].size == bodies[i].size
    ensures forall i :: 0 <= i < c ==>
      Sub(Centre(wins[i]), r[i].pos) == Scale(Sub(Centre(wins[i]), bodies[i].pos), 0.95)
    ensures forall i :: c <= i < |r| ==> r[i] == bodies[i]
  {
    seq(|bodies|, i requires 0 <= i < |bodies| =>
      if i < c then bodies[i].(pos := EaseVec(bodies[i].pos, Centre(wins[i]))) else bodies[i])
  }

  /** `Glittle.update`: ease toward the sphere's centre, advance the angle,
      then add the orbit offset for the NEW angle. The radius never changes,
      and the lag point (position minus orbit offset) closes 5% of its gap. */
  function Follow(s: Sat, target: Vec, m: MathLib): (r: Sat)
    ensures r.angle == s.angle + AngleStep && r.radius == s.radius
    ensures Sub(target, Sub(r.pos, Orbit(m, r.angle, r.radius))) == Scale(Sub(target, s.pos), 0.95)
  {
    var angle := s.angle + AngleStep;
    Sat(angle, s.radius, Add(EaseVec(s.pos, target), Orbit(m, angle, s.radius)))
  }

  /** The glittles of the first `c` spheres follow their own (already moved)
      sphere; the others are left alone. */
  function FollowSats(sats: seq<Sat>, bodies: seq<Body>, c: nat, m: MathLib): (r: seq<Sat>)
    requires |sats| == 10 * |bodies| && c <= |bodies|
    ensures |r| == |sats|
    ensures forall k :: 0 <= k < 10 * c ==> r[k] == Follow(sats[k], bodies[k / 10].pos, m)
    ensures forall k :: 10 * c <= k < |r| ==> r[k] == sats[k]
  {
    seq(|sats|, k requires 0 <= k < |sats| =>
      if k < 10 * c then Follow(sats[k], bodies[k / 10].pos, m) else sats[k])
  }

  /** One turn of the sphere loop on the glittles: those of sphere `i`
      follow `target`, the others stay. */
  function FollowSphere(sats: seq<Sat>, i: nat, target: Vec, m: MathLib): (r: seq<Sat>)
    ensures |r| == |sats|
  {
    seq(|sats|, k requires 0 <= k < |sats| =>
      if 10 * i <= k < 10 * i + 10 then Follow(sats[k], target, m) else sats[k])
  }

  /** Turn `i` of the sphere loop takes the first-`i` state to the
      first-`i + 1` state: sphere `i` eases toward its window and then its
      glittles follow its new centre. */
  lemma MoveStep(bodies0: seq<Body>, sats0: seq<Sat>, wins: seq<Shape>, i: nat, m: MathLib)
    requires i < |bodies0| && i < |wins| && |sats0| == 10 * |bodies0|
    ensures var bodies := MoveBodies(bodies0, wins, i);
      var moved := bodies[i := bodies[i].(pos := EaseVec(bodies[i].pos, Centre(wins[i])))];
      moved == MoveBodies(bodies0, wins, i + 1) &&
      FollowSphere(FollowSats(sats0, bodies, i, m), i, moved[i].pos, m) == FollowSats(sats0, moved, i + 1, m)
  {
    var bodies := MoveBodies(bodies0, wins, i);
    var moved := bodies[i := bodies[i].(pos := EaseVec(bodies[i].pos, Centre(wins[i])))];
    assert moved == MoveBodies(bodies0, wins, i + 1);
    var lhs, rhs := FollowSphere(FollowSats(sats0, bodies, i, m), i, moved[i].pos, m), FollowSats(sats0, moved, i + 1, m);
    forall k | 0 <= k < |sats0|
      ensures lhs[k] == rhs[k]
    {
      TenthBounds(k);
    }
  }

  function Positions(sats: seq<Sat>): (r: seq<Vec>)
    ensures |r| == |sats| && forall k :: 0 <= k < |r| ==> r[k] == sats[k].pos
  {
    seq(|sats|, k requires 0 <= k < |sats| => sats[k].pos)
  }

  function WithPositions(sats: seq<Sat>, ps: seq<Vec>): (r: seq<Sat>)
    requires |ps| == |sats|
    ensures |r| == |sats|
    ensures forall k :: 0 <= k < |r| ==>
      r[k].angle == sats[k].angle && r[k].radius == sats[k].radius && r[k].pos == ps[k]
  {
    seq(|sats|, k requires 0 <= k < |sats| => sats[k].(pos := ps[k]))
  }

  /** One call of `render`'s simulation part for windows `wins`: the scene
      offset eases toward its target; spheres and their glittles move up to
      the first sphere without a window; and only when every sphere had a
      window does the interaction pass run. */
  function Frame(w: World, wins: seq<Shape>, m: MathLib): (r: World)
    requires WellFormed(w)
    ensures WellFormed(r) && |r.bodies| == |w.bodies|
  {
    var c := Reach(|w.bodies|, wins);
    var bodies := MoveBodies(w.bodies, wins, c);
    var followed := FollowSats(w.sats, bodies, c, m);
    var sats := if c == |bodies| then WithPositions(followed, Interact(Positions(followed), c, m)) else followed;
    World(bodies, sats, EaseVec(w.offset, w.target), w.target)
  }

  /** A frame assembled from its stages. */
  lemma FrameOf(w: World, wins: seq<Shape>, m: MathLib, bodies: seq<Body>, followed: seq<Sat>, sats: seq<Sat>)
    requires WellFormed(w)
    requires bodies == MoveBodies(w.bodies, wins, Reach(|w.bodies|, wins))
    requires followed == FollowSats(w.sats, bodies, Reach(|w.bodies|, wins), m)
    requires sats == if |w.bodies| <= |wins| then WithPositions(followed, Interact(Positions(followed), |w.bodies|, m)) else followed
    ensures Frame(w, wins, m) == World(bodies, sats, EaseVec(w.offset, w.target), w.target)
  {
  }

  /** A frame closes 5% of the gap between the scene offset and its target,
      leaves the target alone, and keeps an offset that is at its target. */
  lemma FrameEasesOffset(w: World, wins: seq<Shape>, m: MathLib)
    requires WellFormed(w)
    ensures Frame(w, wins, m).target == w.target
    ensures Sub(w.target, Frame(w, wins, m).offset) == Scale(Sub(w.target, w.offset), 0.95)
    ensures w.offset == w.target ==> Frame(w, wins, m).offset == w.offset
  {
  }

  /** A frame keeps every sphere's size, closes 5% of the gap between each
      reached sphere and its window's centre, and leaves the spheres after
      the first one without a window where they were. */
  lemma FrameMovesBodies(w: World, wins: seq<Shape>, m: MathLib)
    requires WellFormed(w)
    ensures var r := Frame(w, wins, m);
      (forall i :: 0 <= i < |r.bodies| ==> r.bodies[i].size == w.bodies[i].size) &&
      (forall i :: 0 <= i < Reach(|w.bodies|, wins) ==>
        Sub(Centre(wins[i]), r.bodies[i].pos) == Scale(Sub(Centre(wins[i]), w.bodies[i].pos), 0.95)) &&
      (forall i :: Reach(|w.bodies|, wins) <= i < |r.bodies| ==> r.bodies[i] == w.bodies[i])
  {
  }

  /** In a frame every glittle of a reached sphere advances its angle by
      `AngleStep` and keeps its radius, and the others are left alone; when
      a sphere had no window, the reached glittles have exactly followed
      their spheres and nothing interacted. */
  lemma FrameMovesSats(w: World, wins: seq<Shape>, m: MathLib)
    requires WellFormed(w)
    ensures var r := Frame(w, wins, m);
      (forall k :: 0 <= k < 10 * Reach(|w.bodies|, wins) ==>
        r.sats[k].angle == w.sats[k].angle + AngleStep && r.sats[k].radius == w.sats[k].radius) &&
      (forall k :: 10 * Reach(|w.bodies|, wins) <= k < |r.sats| ==> r.sats[k] == w.sats[k])
    ensures |wins| < |w.bodies| ==> forall k :: 0 <= k < |w.sats| ==>
      Frame(w, wins, m).sats[k] ==
        if k < 10 * |wins| then Follow(w.sats[k], Frame(w, wins, m).bodies[k / 10].pos, m) else w.sats[k]
  {
  }

  /** Orbit radii stay in their band from frame to frame. */
  lemma FrameKeepsRadii(w: World, wins: seq<Shape>, m: MathLib)
    requires WellFormed(w) && RadiiInBand(w)
    ensures RadiiInBand(Frame(w, wins, m))
  {
    FrameMovesBodies(w, wins, m);
    FrameMovesSats(w, wins, m);
    var r := Frame(w, wins, m);
    forall k | 0 <= k < |r.sats|
      ensures r.bodies[k / 10].size + 20.0 <= r.sats[k].radius < r.bodies[k / 10].size + 30.0
    {
      TenthBounds(k);
    }
  }

  // ---------------------------------------------------------------------
  // Pairwise interaction

  predicate Close(a: Vec, b: Vec, m: MathLib)
  {
    m.distance(a, b) < InteractionDistance
  }

  /** One visited glittle pair `(p, q)`. When the two are closer than 30,
      `p` steps 0.5 along the direction `d` from `p` to `q` and `q` steps 0.5
      along `-d`: equal and opposite steps. Otherwise nothing moves. */
  function Nudge(ps: seq<Vec>, p: nat, q: nat, m: MathLib): (r: seq<Vec>)
    requires p < |ps| && q < |ps| && p != q
    ensures |r| == |ps|
  {
    if Close(ps[p], ps[q], m) then
      var dir := m.normalize(Sub(ps[q], ps[p]));
      ps[p := Add(ps[p], Scale(dir, 0.5))][q := Add(ps[q], Scale(Neg(dir), 0.5))]
    else
      ps
  }

  /** What a nudge does: only `p` and `q` can move; a pair at least 30
      apart stays put; a close pair takes two equal and opposite half-unit
      steps along the normalised direction from `p` to `q`. */
  lemma NudgeMoves(ps: seq<Vec>, p: nat, q: nat, m: MathLib)
    requires p < |ps| && q < |ps| && p != q
    ensures forall k :: 0 <= k < |ps| && k != p && k != q ==> Nudge(ps, p, q, m)[k] == ps[k]
    ensures !Close(ps[p], ps[q], m) ==> Nudge(ps, p, q, m) == ps
    ensures Close(ps[p], ps[q], m) ==>
      Sub(Nudge(ps, p, q, m)[p], ps[p]) == Scale(m.normalize(Sub(ps[q], ps[p])), 0.5) &&
      Sub(Nudge(ps, p, q, m)[q], ps[q]) == Neg(Sub(Nudge(ps, p, q, m)[p], ps[p]))
  {
  }

  /** A nudge inside a longer sequence is the nudge of the two-element
      sequence of its pair, written back at `p` and `q`. */
  lemma NudgeLocal(ps: seq<Vec>, p: nat, q: nat, m: MathLib)
    requires p < |ps| && q < |ps| && p != q
    ensures Nudge(ps, p, q, m) ==
      ps[p := Nudge([ps[p], ps[q]], 0, 1, m)[0]][q := Nudge([ps[p], ps[q]], 0, 1, m)[1]]
  {
  }

  // ---------------------------------------------------------------------
  // The interaction pass as a schedule of glittle pairs

  /** The pairs of the innermost `forEach`: glittle `a` of sphere `i`
      against glittles `0, ..., 9` of sphere `j`. */
  function Row(i: nat, j: nat, a: nat): (r: seq<(nat, nat)>)
    ensures |r| == 10
    ensures forall b :: 0 <= b < |r| ==> r[b].0 == 10 * i + a && 10 * j <= r[b].1 < 10 * j + 10
  {
    seq(10, b requires 0 <= b < 10 => (10 * i + a, 10 * j + b))
  }

  /** The pairs of the outer `forEach`: sphere `i` against sphere `j`, row
      by row. */
  function Block(i: nat, j: nat): (r: seq<(nat, nat)>)
    ensures |r| == 100
    ensures forall t :: 0 <= t < |r| ==> 10 * i <= r[t].0 < 10 * i + 10 && 10 * j <= r[t].1 < 10 * j + 10
  {
    seq(100, t requires 0 <= t < 100 => (10 * i + t / 10, 10 * j + t % 10))
  }

  /** The pairs of the `j` loop: sphere `i` against spheres `i + 1, ...,
      n - 1`, block by block. */
  function Later(n: nat, i: nat): (r: seq<(nat, nat)>)
    requires i < n
    ensures |r| == 100 * (n - 1 - i)
  {
    seq(100 * (n - 1 - i), t requires 0 <= t < 100 * (n - 1 - i) =>
      (10 * i + (t % 100) / 10, 10 * (i + 1 + t / 100) + t % 10))
  }

  /** The pairs of the `i` loop from sphere `i` on. */
  function PairsFrom(n: nat, i: nat): seq<(nat, nat)>
    requires i <= n
    decreases n - i
  {
    if i == n then [] else Later(n, i) + PairsFrom(n, i + 1)
  }

  /** Every glittle pair the interaction pass compares, in the order it does. */
  function Schedule(n: nat): (r: seq<(nat, nat)>)
    ensures forall e :: e in r ==> e.0 / 10 < e.1 / 10 && e.1 < 10 * n
  {
    PairsFromFacts(n, 0);
    PairsFrom(n, 0)
  }

  predicate NoDuplicates(s: seq<(nat, nat)>)
  {
    forall x, y :: 0 <= x < y < |s| ==> s[x] != s[y]
  }

  /** Nudging one scheduled pair; a pair that does not name two distinct
      glittles leaves the positions alone (the schedule has none, as
      `ScheduleVisitsEachCrossPairOnce` shows). */
  function NudgePair(ps: seq<Vec>, e: (nat, nat), m: MathLib): (r: seq<Vec>)
    ensures |r| == |ps|
  {
    if e.0 < |ps| && e.1 < |ps| && e.0 != e.1 then Nudge(ps, e.0, e.1, m) else ps
  }

  /** Applying the nudges of a schedule of pairs one after the other, each
      seeing the positions the earlier ones left. */
  function ApplyAll(ps: seq<Vec>, s: seq<(nat, nat)>, m: MathLib): (r: seq<Vec>)
    ensures |r| == |ps|
    decreases |s|
  {
    if s == [] then ps else ApplyAll(NudgePair(ps, s[0], m), s[1..], m)
  }

  /** The interaction pass over the glittle positions of `n` spheres: sphere
      `0` against every later sphere, then sphere `1`, and so on. */
  function Interact(ps: seq<Vec>, n: nat, m: MathLib): (r: seq<Vec>)
    ensures |r| == |ps|
  {
    InteractUpTo(ps, n, n, m)
  }

  /** The first `i` turns of the interaction pass's outer loop. */
  function InteractUpTo(ps: seq<Vec>, n: nat, i: nat, m: MathLib): (r: seq<Vec>)
    requires i <= n
    ensures |r| == |ps|
  {
    if i == 0 then ps else ApplyAll(InteractUpTo(ps, n, i - 1, m), Later(n, i - 1), m)
  }

  /** The positions after each turn of the interaction pass's outer loop. */
  predicate IsStages(stages: seq<seq<Vec>>, ps: seq<Vec>, n: nat, m: MathLib)
  {
    |stages| == n + 1 && stages[0] == ps &&
    forall t {:trigger ApplyAll(stages[t], Later(n, t), m)} :: 0 <= t < n ==>
      stages[t + 1] == ApplyAll(stages[t], Later(n, t), m)
  }

  lemma StagesOf(ps: seq<Vec>, n: nat, m: MathLib) returns (stages: seq<seq<Vec>>)
    ensures IsStages(stages, ps, n, m) && stages[n] == Interact(ps, n, m)
  {
    stages := seq(n + 1, t requires 0 <= t <= n => InteractUpTo(ps, n, t, m));
    forall t | 0 <= t < n
      ensures stages[t + 1] == ApplyAll(stages[t], Later(n, t), m)
    {
      UpToNext(ps, n, t, m, stages[t], stages[t + 1]);
    }
  }

  lemma UpToNext(ps: seq<Vec>, n: nat, t: nat, m: MathLib, before: seq<Vec>, after: seq<Vec>)
    requires t < n && before == InteractUpTo(ps, n, t, m) && after == InteractUpTo(ps, n, t + 1, m)
    ensures after == ApplyAll(before, Later(n, t), m)
  {
  }

  lemma {:induction false} ApplyAllAppend(ps: seq<Vec>, s: seq<(nat, nat)>, t: seq<(nat, nat)>, m: MathLib)
    ensures ApplyAll(ps, s + t, m) == ApplyAll(ApplyAll(ps, s, m), t, m)
    decreases |s|
  {
    if s == [] {
      assert s + t == t;
    } else {
      assert (s + t)[0] == s[0] && (s + t)[1..] == s[1..] + t;
      ApplyAllAppend(NudgePair(ps, s[0], m), s[1..], t, m);
    }
  }

  // ---------------------------------------------------------------------
  // Traces: the positions after each prefix of a schedule

  /** `steps[t]` is what the first `t` nudges of `s` leave of `ps`. */
  predicate IsTrace(steps: seq<seq<Vec>>, ps: seq<Vec>, s: seq<(nat, nat)>, m: MathLib)
  {
    |steps| == |s| + 1 && steps[0] == ps &&
    (forall t :: 0 <= t < |steps| ==> |steps[t]| == |ps|) &&
    forall t {:trigger NudgePair(steps[t], s[t], m)} :: 0 <= t < |s| ==> steps[t + 1] == NudgePair(steps[t], s[t], m)
  }

  lemma TraceOf(ps: seq<Vec>, s: seq<(nat, nat)>, m: MathLib) returns (steps: seq<seq<Vec>>)
    ensures IsTrace(steps, ps, s, m)
  {
    steps := seq(|s| + 1, t requires 0 <= t <= |s| => ApplyAll(ps, s[..t], m));
    forall t | 0 <= t < |s|
      ensures steps[t + 1] == NudgePair(steps[t], s[t], m)
    {
      assert s[..t + 1] == s[..t] + [s[t]];
      ApplyAllAppend(ps, s[..t], [s[t]], m);
      var one: seq<(nat, nat)> := [s[t]];
      assert one[1..] == [];
    }
    assert s[..0] == [];
  }

  /** Between two points of a trace lie exactly the nudges of that slice. */
  lemma {:induction false} TraceSlice(steps: seq<seq<Vec>>, ps: seq<Vec>, s: seq<(nat, nat)>, x: nat, y: nat, m: MathLib)
    requires IsTrace(steps, ps, s, m) && x <= y <= |s|
    ensures ApplyAll(steps[x], s[x..y], m) == steps[y]
    decreases y - x
  {
    if x < y {
      assert s[x..y][0] == s[x] && s[x..y][1..] == s[x + 1..y];
      assert steps[x + 1] == NudgePair(steps[x], s[x], m);
      TraceSlice(steps, ps, s, x + 1, y, m);
    } else {
      assert s[x..y] == [];
    }
  }

  // ---------------------------------------------------------------------
  // How the pieces of the schedule nest

  lemma DivMod10(a: nat, b: nat)
    requires b < 10
    ensures (10 * a + b) / 10 == a && (10 * a + b) % 10 == b
  {
  }

  lemma RowsMakeBlock(i: nat, j: nat, a: nat)
    requires a < 10
    ensures Block(i, j)[10 * a .. 10 * a + 10] == Row(i, j, a)
  {
    var slice := Block(i, j)[10 * a .. 10 * a + 10];
    forall b | 0 <= b < 10
      ensures slice[b] == Row(i, j, a)[b]
    {
      DivMod10(a, b);
    }
  }

  /** Entry `t` of `Later(n, i)`: which glittles it names, and how `t` is
      recovered from them. */
  lemma LaterEntry(n: nat, i: nat, t: nat)
    requires i < n && t < |Later(n, i)|
    ensures 10 * i <= Later(n, i)[t].0 < 10 * i + 10
    ensures 10 * (i + 1) <= Later(n, i)[t].1 < 10 * n
    ensures Later(n, i)[t].1 / 10 == i + 1 + t / 100
    ensures Later(n, i)[t].0 == 10 * i + (t % 100) / 10
    ensures t == 100 * (t / 100) + 10 * ((t % 100) / 10) + Later(n, i)[t].1 % 10
  {
    var c, r := t / 100, t % 100;
    var a, b := r / 10, r % 10;
    assert t == 100 * c + r && r == 10 * a + b;
    assert c < n - 1 - i;
    DivMod10(i + 1 + c, b);
  }

  lemma BlocksMakeLater(n: nat, i: nat, c: nat)
    requires i < n && c < n - 1 - i
    ensures Later(n, i)[100 * c .. 100 * c + 100] == Block(i, i + 1 + c)
  {
    var slice := Later(n, i)[100 * c .. 100 * c + 100];
    forall t | 0 <= t < 100
      ensures slice[t] == Block(i, i + 1 + c)[t]
    {
      assert (100 * c + t) / 100 == c && (100 * c + t) % 100 == t;
      DivMod10(10 * c + t / 10, t % 10);
    }
  }

  /** The end of a trace is the whole schedule applied. */
  lemma TraceWhole(steps: seq<seq<Vec>>, ps: seq<Vec>, s: seq<(nat, nat)>, m: MathLib)
    requires IsTrace(steps, ps, s, m)
    ensures ApplyAll(ps, s, m) == steps[|s|]
  {
    TraceSlice(steps, ps, s, 0, |s|, m);
    assert s[0..|s|] == s;
  }

  /** Along a trace of `Block(i, j)`, row `a` leads from step `10 * a` to
      step `10 * a + 10`. */
  lemma BlockStep(steps: seq<seq<Vec>>, ps: seq<Vec>, i: nat, j: nat, a: nat, m: MathLib)
    requires IsTrace(steps, ps, Block(i, j), m) && a < 10
    ensures ApplyAll(steps[10 * a], Row(i, j, a), m) == steps[10 * a + 10]
  {
    RowsMakeBlock(i, j, a);
    TraceSlice(steps, ps, Block(i, j), 10 * a, 10 * a + 10, m);
  }

  /** Along a trace of `Later(n, i)`, the block of sphere `j` leads from
      step `100 * (j - i - 1)` to the next hundred. */
  lemma LaterStep(steps: seq<seq<Vec>>, ps: seq<Vec>, n: nat, i: nat, j: nat, m: MathLib)
    requires i < j < n && IsTrace(steps, ps, Later(n, i), m)
    ensures ApplyAll(steps[100 * (j - i - 1)], Block(i, j), m) == steps[100 * (j - i)]
  {
    BlocksMakeLater(n, i, j - i - 1);
    TraceSlice(steps, ps, Later(n, i), 100 * (j - i - 1), 100 * (j - i - 1) + 100, m);
  }

  /** The positions before each sphere `j > i` in turn `i` of the outer
      loop, indexed by `j`; entries up to `i` are unused. */
  predicate IsBlockStages(stages: seq<seq<Vec>>, ps: seq<Vec>, n: nat, i: nat, m: MathLib)
  {
    |stages| == n + 1 && i < n && stages[i + 1] == ps &&
    forall j {:trigger ApplyAll(stages[j], Block(i, j), m)} :: i < j < n ==>
      stages[j + 1] == ApplyAll(stages[j], Block(i, j), m)
  }

  lemma BlockStagesOf(ps: seq<Vec>, n: nat, i: nat, m: MathLib) returns (stages: seq<seq<Vec>>)
    requires i < n
    ensures IsBlockStages(stages, ps, n, i, m) && stages[n] == ApplyAll(ps, Later(n, i), m)
  {
    var later := Later(n, i);
    var steps := TraceOf(ps, later, m);
    stages := seq(n + 1, j requires 0 <= j <= n => if j <= i then ps else steps[100 * (j - i - 1)]);
    forall j | i < j < n
      ensures stages[j + 1] == ApplyAll(stages[j], Block(i, j), m)
    {
      LaterStep(steps, ps, n, i, j, m);
      assert stages[j] == steps[100 * (j - i - 1)];
      assert stages[j + 1] == steps[100 * (j - i)];
    }
    TraceWhole(steps, ps, later, m);
  }

  /** The positions before each glittle `a` of sphere `i` in the visit of
      sphere `j`. */
  predicate IsRowStages(stages: seq<seq<Vec>>, ps: seq<Vec>, i: nat, j: nat, m: MathLib)
  {
    |stages| == 11 && stages[0] == ps &&
    forall a {:trigger ApplyAll(stages[a], Row(i, j, a), m)} :: 0 <= a < 10 ==>
      stages[a + 1] == ApplyAll(stages[a], Row(i, j, a), m)
  }

  lemma RowStagesOf(ps: seq<Vec>, i: nat, j: nat, m: MathLib) returns (stages: seq<seq<Vec>>)
    ensures IsRowStages(stages, ps, i, j, m) && stages[10] == ApplyAll(ps, Block(i, j), m)
  {
    var block := Block(i, j);
    var steps := TraceOf(ps, block, m);
    stages := seq(11, a requires 0 <= a <= 10 => steps[10 * a]);
    forall a | 0 <= a < 10
      ensures stages[a + 1] == ApplyAll(stages[a], Row(i, j, a), m)
    {
      BlockStep(steps, ps, i, j, a, m);
    }
    TraceWhole(steps, ps, block, m);
  }

  /** The row stages of sphere `j`'s visit within the block stages of turn
      `i`: they lead from stage `j` to stage `j + 1`. */
  lemma RowsOfBlock(stages: seq<seq<Vec>>, ps: seq<Vec>, n: nat, i: nat, j: nat, m: MathLib)
      returns (rows: seq<seq<Vec>>)
    requires IsBlockStages(stages, ps, n, i, m) && i < j < n
    ensures IsRowStages(rows, stages[j], i, j, m) && rows[10] == stages[j + 1]
  {
    rows := RowStagesOf(stages[j], i, j, m);
  }

  /** The block stages of turn `i` within the stages of the whole pass:
      they lead from stage `i` to stage `i + 1`. */
  lemma BlocksOfTurn(stages: seq<seq<Vec>>, ps: seq<Vec>, n: nat, i: nat, m: MathLib)
      returns (blocks: seq<seq<Vec>>)
    requires IsStages(stages, ps, n, m) && i < n
    ensures IsBlockStages(blocks, stages[i], n, i, m) && blocks[n] == stages[i + 1]
  {
    blocks := BlockStagesOf(stages[i], n, i, m);
  }

  /** The single-pair trace of row `a` within the row stages of sphere `j`'s
      visit: it leads from stage `a` to stage `a + 1`. */
  lemma PairsOfRow(stages: seq<seq<Vec>>, ps: seq<Vec>, i: nat, j: nat, a: nat, m: MathLib)
      returns (steps: seq<seq<Vec>>)
    requires IsRowStages(stages, ps, i, j, m) && a < 10
    ensures IsTrace(steps, stages[a], Row(i, j, a), m) && steps[10] == stages[a + 1]
  {
    steps := TraceOf(stages[a], Row(i, j, a), m);
    TraceWhole(steps, stages[a], Row(i, j, a), m);
  }

  /** The first `i` turns of the outer loop followed by the pairs of the
      remaining turns are the whole schedule. */
  lemma {:induction false} InteractUpToRest(ps: seq<Vec>, n: nat, i: nat, m: MathLib)
    requires i <= n
    ensures ApplyAll(InteractUpTo(ps, n, i, m), PairsFrom(n, i), m) == ApplyAll(ps, Schedule(n), m)
  {
    if i > 0 {
      InteractUpToRest(ps, n, i - 1, m);
      ApplyAllThen(InteractUpTo(ps, n, i - 1, m), Later(n, i - 1), PairsFrom(n, i), PairsFrom(n, i - 1),
        InteractUpTo(ps, n, i, m), m);
    }
  }

  /** `mid` is `s` applied to `ps`; applying `t` next is applying `st`. */
  lemma ApplyAllThen(ps: seq<Vec>, s: seq<(nat, nat)>, t: seq<(nat, nat)>, st: seq<(nat, nat)>, mid: seq<Vec>, m: MathLib)
    requires mid == ApplyAll(ps, s, m) && st == s + t
    ensures ApplyAll(mid, t, m) == ApplyAll(ps, st, m)
  {
    ApplyAllAppend(ps, s, t, m);
  }

  /** The interaction pass applies the nudges of `Schedule(n)` in order. */
  lemma InteractFollowsSchedule(ps: seq<Vec>, n: nat, m: MathLib)
    ensures Interact(ps, n, m) == ApplyAll(ps, Schedule(n), m)
  {
    InteractUpToRest(ps, n, n, m);
  }

  // ---------------------------------------------------------------------
  // Which pairs the schedule holds

  lemma LaterFacts(n: nat, i: nat)
    requires i < n
    ensures forall e :: e in Later(n, i) <==>
      10 * i <= e.0 < 10 * i + 10 && 10 * (i + 1) <= e.1 < 10 * n
    ensures NoDuplicates(Later(n, i))
  {
    var s := Later(n, i);
    forall e: (nat, nat) | 10 * i <= e.0 < 10 * i + 10 && 10 * (i + 1) <= e.1 < 10 * n
      ensures e in s
    {
      LaterHas(n, i, e);
    }
    forall t | 0 <= t < |s|
      ensures 10 * i <= s[t].0 < 10 * i + 10 && 10 * (i + 1) <= s[t].1 < 10 * n
    {
      LaterEntry(n, i, t);
    }
    forall x, y | 0 <= x < y < |s|
      ensures s[x] != s[y]
    {
      LaterEntry(n, i, x);
      LaterEntry(n, i, y);
    }
  }

  /** Every pair of a glittle of sphere `i` with a glittle of a later sphere
      is in `Later(n, i)`. */
  lemma LaterHas(n: nat, i: nat, e: (nat, nat))
    requires i < n && 10 * i <= e.0 < 10 * i + 10 && 10 * (i + 1) <= e.1 < 10 * n
    ensures e in Later(n, i)
  {
    var s := Later(n, i);
    var c, a, b := e.1 / 10 - i - 1, e.0 - 10 * i, e.1 % 10;
    var t := 100 * c + 10 * a + b;
    assert t < |s|;
    LaterEntry(n, i, t);
    assert t / 100 == c && (t % 100) / 10 == a && t % 10 == b;
    assert s[t] == e;
  }


  lemma {:induction false} PairsFromFacts(n: nat, i: nat)
    requires i <= n
    ensures forall e :: e in PairsFrom(n, i) <==>
      10 * i <= e.0 && e.0 / 10 < e.1 / 10 && e.1 < 10 * n
    ensures NoDuplicates(PairsFrom(n, i))
    decreases n - i
  {
    if i < n {
      var head, tail := Later(n, i), PairsFrom(n, i + 1);
      assert PairsFrom(n, i) == head + tail;
      LaterFacts(n, i);
      PairsFromFacts(n, i + 1);
      forall e: (nat, nat)
        ensures e in head + tail <==> 10 * i <= e.0 && e.0 / 10 < e.1 / 10 && e.1 < 10 * n
      {
        TenthBounds(e.0);
        TenthBounds(e.1);
        if 10 * i <= e.0 && e.0 / 10 < e.1 / 10 && e.1 < 10 * n {
          if e.0 / 10 == i {
            assert e in head;
          } else {
            assert e in tail;
          }
        }
      }
      assert forall e :: e in head ==> e !in tail;
      NoDuplicatesAppend(head, tail);
    }
  }

  lemma NoDuplicatesAppend(s: seq<(nat, nat)>, t: seq<(nat, nat)>)
    requires NoDuplicates(s) && NoDuplicates(t)
    requires forall e :: e in s ==> e !in t
    ensures NoDuplicates(s + t)
  {
    forall x, y | 0 <= x < y < |s + t|
      ensures (s + t)[x] != (s + t)[y]
    {
      if x < |s| && |s| <= y {
        assert (s + t)[x] in s && (s + t)[y] in t;
      }
    }
  }

  /** The interaction pass compares each pair of glittles that belong to two
      DIFFERENT spheres exactly once (the lower-indexed sphere's glittle
      first) and never two glittles of the same sphere. */
  lemma ScheduleVisitsEachCrossPairOnce(n: nat)
    ensures forall e :: e in Schedule(n) <==> e.0 / 10 < e.1 / 10 && e.1 < 10 * n
    ensures NoDuplicates(Schedule(n))
  {
    PairsFromFacts(n, 0);
  }

  // ---------------------------------------------------------------------
  // Equal and opposite nudges conserve the glittles' summed position

  /** Sum of all positions (ten times the number of spheres times the centroid). */
  function Sum(ps: seq<Vec>): Vec
  {
    if ps == [] then Vec(0.0, 0.0) else Add(ps[0], Sum(ps[1..]))
  }

  lemma {:induction false} SumUpdate(ps: seq<Vec>, k: nat, v: Vec)
    requires k < |ps|
    ensures Sum(ps[k := v]) == Add(Sub(Sum(ps), ps[k]), v)
  {
    if k == 0 {
      assert ps[k := v][1..] == ps[1..];
    } else {
      assert ps[k := v][1..] == ps[1..][k - 1 := v];
      SumUpdate(ps[1..], k - 1, v);
    }
  }

  lemma NudgeKeepsSum(ps: seq<Vec>, p: nat, q: nat, m: MathLib)
    requires p < |ps| && q < |ps| && p != q
    ensures Sum(Nudge(ps, p, q, m)) == Sum(ps)
  {
    if Close(ps[p], ps[q], m) {
      var dir := m.normalize(Sub(ps[q], ps[p]));
      var a, b := Add(ps[p], Scale(dir, 0.5)), Add(ps[q], Scale(Neg(dir), 0.5));
      var moved := ps[p := a];
      assert Nudge(ps, p, q, m) == moved[q := b];
      SumUpdate(ps, p, a);
      SumUpdate(moved, q, b);
      assert moved[q] == ps[q];
      OppositeStepsCancel(Sum(ps), ps[p], ps[q], dir);
    }
  }

  lemma OppositeStepsCancel(total: Vec, u: Vec, v: Vec, dir: Vec)
    ensures Add(Sub(Add(Sub(total, u), Add(u, Scale(dir, 0.5))), v), Add(v, Scale(Neg(dir), 0.5))) == total
  {
  }

  lemma {:induction false} ApplyAllKeepsSum(ps: seq<Vec>, s: seq<(nat, nat)>, m: MathLib)
    ensures Sum(ApplyAll(ps, s, m)) == Sum(ps)
    decreases |s|
  {
    if s != [] {
      if s[0].0 < |ps| && s[0].1 < |ps| && s[0].0 != s[0].1 {
        NudgeKeepsSum(ps, s[0].0, s[0].1, m);
      }
      ApplyAllKeepsSum(NudgePair(ps, s[0], m), s[1..], m);
    }
  }

  /** The interaction pass moves glittles but never changes the sum (hence
      the centroid) of their positions. */
  lemma InteractKeepsSum(ps: seq<Vec>, n: nat, m: MathLib)
    requires |ps| == 10 * n
    ensures Sum(Interact(ps, n, m)) == Sum(ps)
  {
    InteractFollowsSchedule(ps, n, m);
    ApplyAllKeepsSum(ps, Schedule(n), m);
  }
}
