/** One interactive grid particle: a rest position (its origin) and a current position
    that eases toward the origin pushed away from the pointer. */
module Grid {
  import opened Basics
  import opened Canvas

  /** Pointer distance below which a particle is pushed away. */
  const InteractionRadius: real := 150.0
  /** Fraction of the remaining way to the target covered in one frame. */
  const EaseFactor: real := 0.05
  /** Fraction of the remaining way left after one frame. */
  const Retained: real := 1.0 - EaseFactor

  /** Everything a grid particle's update reads or writes. */
  datatype GridState = GridState(
    x: real, y: real,
    originX: real, originY: real,
    distance: real, force: real,
    dx: real, dy: real)

  /** A particle as the constructor leaves it: at rest on its origin. */
  function Rest(x: real, y: real): GridState
  {
    GridState(x, y, x, y, 0.0, 0.0, 0.0, 0.0)
  }

  /** The repulsion force max(0, 150 - distance). */
  function Force(distance: real): (f: real)
    ensures 0.0 <= f && InteractionRadius - distance <= f
    ensures f == 0.0 || f == InteractionRadius - distance
    ensures f == 0.0 <==> distance >= InteractionRadius
    ensures 0.0 <= distance ==> f <= InteractionRadius
  {
    if InteractionRadius - distance > 0.0 then InteractionRadius - distance else 0.0
  }

  /** The force never grows as the pointer gets farther away. */
  lemma ForceNonIncreasing(near: real, far: real)
    requires near <= far
    ensures Force(far) <= Force(near)
  {
  }

  /** One easing step of a coordinate toward its target. */
  function Ease(pos: real, target: real): real
  {
    pos + (target - pos) * EaseFactor
  }

  /** Easing closes 5% of the gap: the gap left is 0.95 of the old one, the target is
      never overshot, and the particle gets strictly closer unless it is already there. */
  lemma EaseApproaches(pos: real, target: real)
    ensures Ease(pos, target) - target == Retained * (pos - target)
    ensures Abs(Ease(pos, target) - target) <= Abs(pos - target)
    ensures pos != target ==> Abs(Ease(pos, target) - target) < Abs(pos - target)
    ensures pos <= Ease(pos, target) <= target || target <= Ease(pos, target) <= pos
  {
  }

  /** (cos a, sin a) for a = atan2(dy, dx), written without trigonometry: the unit
      vector along (dx, dy), and (1, 0) when both are 0, since atan2(0, 0) = 0. */
  function Direction(dx: real, dy: real, distance: real): (real, real)
  {
    if distance > 0.0 then (dx / distance, dy / distance) else (1.0, 0.0)
  }

  /** (ux, uy) is a unit vector and d times it is the offset (dx, dy). */
  ghost predicate UnitAlong(u: (real, real), d: real, dx: real, dy: real)
  {
    u.0 * u.0 + u.1 * u.1 == 1.0 && u.0 * d == dx && u.1 * d == dy
  }

  /** The direction is a unit vector pointing from the pointer to the particle. */
  lemma DirectionIsUnit(dx: real, dy: real, distance: real)
    requires 0.0 <= distance && distance * distance == dx * dx + dy * dy
    ensures UnitAlong(Direction(dx, dy, distance), distance, dx, dy)
  {
    SquareNonNegative(dx);
    SquareNonNegative(dy);
    SquareNonNegative(distance);
    if distance > 0.0 {
      ScaledUnit(dx / distance, dy / distance, distance, dx, dy);
    }
  }

  lemma ScaledUnit(ux: real, uy: real, d: real, dx: real, dy: real)
    requires d != 0.0 && ux * d == dx && uy * d == dy && d * d == dx * dx + dy * dy
    ensures ux * ux + uy * uy == 1.0
  {
    calc {
      (ux * ux + uy * uy) * (d * d);
      (ux * d) * (ux * d) + (uy * d) * (uy * d);
      { SquareOfEqual(ux * d, dx); SquareOfEqual(uy * d, dy); }
      dx * dx + dy * dy;
      d * d;
    }
    ZeroProduct(d, d);
    CancelFactor(ux * ux + uy * uy, d * d);
  }

  /** The push a particle gets from the pointer: its distance, the force, and the
      displacement (cos a * force, sin a * force) with a = atan2(dy, dx). */
  datatype Push = Push(distance: real, force: real, dx: real, dy: real)

  /** The push on a particle at offset (dx, dy) from the pointer. */
  function Measure(dx: real, dy: real, sqrt: real -> real): Push
  {
    PushAt(dx, dy, Length(dx, dy, sqrt))
  }

  /** The push for the offset (dx, dy) from the pointer, at the given distance. */
  function PushAt(dx: real, dy: real, distance: real): Push
  {
    Scaled(Direction(dx, dy, distance), Force(distance), distance)
  }

  /** The push of force f along the direction u, at the given distance. */
  function Scaled(u: (real, real), f: real, distance: real): Push
  {
    Push(distance, f, u.0 * f, u.1 * f)
  }

  /** What a push measured at offset (dx, dy) from the pointer must be: the distance is
      the length of the offset, the force lies in [0, 150] and is Force(distance), and the
      displacement has length `force` and points along (dx, dy), away from the pointer. */
  ghost predicate Repels(p: Push, dx: real, dy: real)
  {
    && 0.0 <= p.distance && p.distance * p.distance == dx * dx + dy * dy
    && 0.0 <= p.force <= InteractionRadius
    && p.force == Force(p.distance)
    && p.dx * p.dx + p.dy * p.dy == p.force * p.force
    && p.dx * p.distance == dx * p.force && p.dy * p.distance == dy * p.force
  }

  /** Given the true distance, the push is a repulsion of the right size. */
  lemma PushAtFacts(dx: real, dy: real, distance: real)
    requires 0.0 <= distance && distance * distance == dx * dx + dy * dy
    ensures PushAt(dx, dy, distance).distance == distance
    ensures Repels(PushAt(dx, dy, distance), dx, dy)
  {
    DirectionIsUnit(dx, dy, distance);
    ScaledPush(Direction(dx, dy, distance), Force(distance), distance, dx, dy);
  }

  /** A unit vector along the offset, scaled by the force at the offset's length, is a
      repulsion. */
  lemma ScaledPush(u: (real, real), f: real, d: real, dx: real, dy: real)
    requires UnitAlong(u, d, dx, dy)
    requires 0.0 <= d && d * d == dx * dx + dy * dy && f == Force(d)
    ensures Repels(Scaled(u, f, d), dx, dy)
  {
    ScaledDisplacement(u.0, u.1, f, d, dx, dy);
  }

  /** What an update measures is a repulsion away from the pointer. */
  lemma MeasureFacts(dx: real, dy: real, sqrt: real -> real)
    requires IsSqrt(sqrt)
    ensures Repels(Measure(dx, dy, sqrt), dx, dy)
  {
    LengthFacts(dx, dy, sqrt);
    PushAtFacts(dx, dy, Length(dx, dy, sqrt));
  }

  /** One call of `update(mouse)`: measure the pointer, then ease toward origin + displacement. */
  function GridStep(g: GridState, mouseX: real, mouseY: real, sqrt: real -> real): GridState
  {
    var p := Measure(g.x - mouseX, g.y - mouseY, sqrt);
    GridState(Ease(g.x, g.originX + p.dx), Ease(g.y, g.originY + p.dy),
              g.originX, g.originY, p.distance, p.force, p.dx, p.dy)
  }

  /** One update keeps the origin, records a repulsion measured from the particle's old
      position, and closes 5% of the gap to origin + displacement on each axis. */
  lemma StepFacts(g: GridState, mouseX: real, mouseY: real, sqrt: real -> real)
    requires IsSqrt(sqrt)
    ensures var r := GridStep(g, mouseX, mouseY, sqrt);
      && r.originX == g.originX && r.originY == g.originY
      && Repels(Push(r.distance, r.force, r.dx, r.dy), g.x - mouseX, g.y - mouseY)
      && r.x - (g.originX + r.dx) == Retained * (g.x - (g.originX + r.dx))
      && r.y - (g.originY + r.dy) == Retained * (g.y - (g.originY + r.dy))
  {
    var p := Measure(g.x - mouseX, g.y - mouseY, sqrt);
    MeasureFacts(g.x - mouseX, g.y - mouseY, sqrt);
    EaseApproaches(g.x, g.originX + p.dx);
    EaseApproaches(g.y, g.originY + p.dy);
  }

  lemma ScaledDisplacement(ux: real, uy: real, f: real, d: real, dx: real, dy: real)
    requires ux * ux + uy * uy == 1.0 && ux * d == dx && uy * d == dy
    ensures (ux * f) * (ux * f) + (uy * f) * (uy * f) == f * f
    ensures (ux * f) * d == dx * f && (uy * f) * d == dy * f
  {
    calc {
      (ux * f) * (ux * f) + (uy * f) * (uy * f);
      (ux * ux + uy * uy) * (f * f);
      f * f;
    }
  }

  /** A pointer at least 150 away exerts no force, so the displacement is zero. */
  lemma MeasureOutOfReach(dx: real, dy: real, sqrt: real -> real)
    requires IsSqrt(sqrt)
    requires Abs(dx) >= InteractionRadius || Abs(dy) >= InteractionRadius
    ensures var p := Measure(dx, dy, sqrt);
      p.force == 0.0 && p.dx == 0.0 && p.dy == 0.0
  {
    LengthFacts(dx, dy, sqrt);
  }

  /** With the pointer out of reach the target is the origin itself: the offset from
      the origin shrinks by the factor 0.95. */
  lemma StepOutOfReach(g: GridState, mouseX: real, mouseY: real, sqrt: real -> real)
    requires IsSqrt(sqrt)
    requires Abs(mouseX - g.originX) >= InteractionRadius + Abs(g.x - g.originX)
          || Abs(mouseY - g.originY) >= InteractionRadius + Abs(g.y - g.originY)
    ensures var r := GridStep(g, mouseX, mouseY, sqrt);
      && r.originX == g.originX && r.originY == g.originY
      && r.force == 0.0 && r.dx == 0.0 && r.dy == 0.0
      && r.x == Ease(g.x, g.originX) && r.y == Ease(g.y, g.originY)
      && r.x - g.originX == Retained * (g.x - g.originX)
      && r.y - g.originY == Retained * (g.y - g.originY)
      && Abs(r.x - g.originX) <= Abs(g.x - g.originX)
      && Abs(r.y - g.originY) <= Abs(g.y - g.originY)
  {
    MeasureOutOfReach(g.x - mouseX, g.y - mouseY, sqrt);
  }

  /** A pointer at least the interaction radius away from the particle, measured as the
      update measures it, exerts no force: the particle eases straight toward its origin,
      keeping 0.95 of its offset. */
  lemma StepBeyondReach(g: GridState, mouseX: real, mouseY: real, sqrt: real -> real)
    requires Length(g.x - mouseX, g.y - mouseY, sqrt) >= InteractionRadius
    ensures var r := GridStep(g, mouseX, mouseY, sqrt);
      && r.originX == g.originX && r.originY == g.originY
      && r.force == 0.0 && r.dx == 0.0 && r.dy == 0.0
      && r.x == Ease(g.x, g.originX) && r.y == Ease(g.y, g.originY)
      && r.x - g.originX == Retained * (g.x - g.originX)
      && r.y - g.originY == Retained * (g.y - g.originY)
  {
  }

  /** n frames with the pointer held still. */
  function GridSteps(g: GridState, mouseX: real, mouseY: real, sqrt: real -> real, n: nat): GridState
    decreases n
  {
    if n == 0 then g else GridSteps(GridStep(g, mouseX, mouseY, sqrt), mouseX, mouseY, sqrt, n - 1)
  }

  /** The fraction 0.95^n of a gap left after n easing steps. */
  function Left(n: nat): (r: real)
    ensures 0.0 <= r <= 1.0
  {
    Pow(Retained, n)
  }

  /** n easing steps toward a fixed target. */
  function EaseSteps(pos: real, target: real, n: nat): real
    decreases n
  {
    if n == 0 then pos else EaseSteps(Ease(pos, target), target, n - 1)
  }

  /** After n easing steps the gap to the target is 0.95^n times the initial gap. */
  lemma {:induction false} EaseStepsGeometric(pos: real, target: real, n: nat)
    decreases n
    ensures EaseSteps(pos, target, n) - target == Left(n) * (pos - target)
  {
    if n > 0 {
      var next := Ease(pos, target);
      var last := EaseSteps(next, target, n - 1);
      assert EaseSteps(pos, target, n) == last;
      var p, pn := Left(n - 1), Left(n);
      assert pn == Retained * p;
      EaseApproaches(pos, target);
      EaseStepsGeometric(next, target, n - 1);
      ScaleStep(pos - target, next - target, last - target, p, pn);
    }
  }

  lemma ScaleStep(offset: real, offset1: real, offsetN: real, p: real, pn: real)
    requires offset1 == Retained * offset && offsetN == p * offset1 && pn == Retained * p
    ensures offsetN == pn * offset
  {
  }

  /** With the pointer far away every frame eases the particle straight toward its
      origin, so after n frames it is where n easing steps toward the origin put it. */
  lemma {:induction false} FarPointerRelaxes(g: GridState, mouseX: real, mouseY: real, sqrt: real -> real, n: nat)
    requires IsSqrt(sqrt)
    requires Abs(mouseX - g.originX) >= InteractionRadius + Abs(g.x - g.originX)
          || Abs(mouseY - g.originY) >= InteractionRadius + Abs(g.y - g.originY)
    decreases n
    ensures var r := GridSteps(g, mouseX, mouseY, sqrt, n);
      && r.originX == g.originX && r.originY == g.originY
      && r.x == EaseSteps(g.x, g.originX, n)
      && r.y == EaseSteps(g.y, g.originY, n)
  {
    if n > 0 {
      StepOutOfReach(g, mouseX, mouseY, sqrt);
      FarPointerRelaxes(GridStep(g, mouseX, mouseY, sqrt), mouseX, mouseY, sqrt, n - 1);
    }
  }

  /** 0.95^n <= 1 / (1 + n/20): the retained fraction goes to 0. */
  lemma {:induction false} RetainedDecays(n: nat)
    ensures Left(n) * (1.0 + EaseFactor * n as real) <= 1.0
  {
    if n > 0 {
      RetainedDecays(n - 1);
      var p := Left(n - 1);
      var k := (n - 1) as real;
      assert Left(n) == Retained * p;
      assert Left(n) * (1.0 + EaseFactor * n as real)
          == Retained * (p * (1.0 + EaseFactor * k)) + Retained * EaseFactor * p;
    }
  }

  /** Any tolerance is met: after n frames with n/20 * eps >= |offset|, the remaining
      offset 0.95^n * offset is within eps. */
  lemma SettlesWithin(offset: real, eps: real, n: nat)
    requires 0.0 < eps && EaseFactor * (n as real) * eps >= Abs(offset)
    ensures Abs(Left(n) * offset) <= eps
  {
    RetainedDecays(n);
    ScaledWithin(Left(n), EaseFactor * (n as real), offset, eps);
  }

  /** A particle left alone by a far, still pointer settles on its origin: after n frames,
      with n/20 * eps at least its initial offset on each axis, it is within eps of the
      origin on both axes. */
  lemma {:induction false} FarPointerSettles(g: GridState, mouseX: real, mouseY: real, sqrt: real -> real,
                                             n: nat, eps: real)
    requires IsSqrt(sqrt)
    requires Abs(mouseX - g.originX) >= InteractionRadius + Abs(g.x - g.originX)
          || Abs(mouseY - g.originY) >= InteractionRadius + Abs(g.y - g.originY)
    requires 0.0 < eps
    requires EaseFactor * (n as real) * eps >= Abs(g.x - g.originX)
    requires EaseFactor * (n as real) * eps >= Abs(g.y - g.originY)
    ensures var r := GridSteps(g, mouseX, mouseY, sqrt, n);
      && r.originX == g.originX && r.originY == g.originY
      && Abs(r.x - g.originX) <= eps && Abs(r.y - g.originY) <= eps
  {
    FarPointerRelaxes(g, mouseX, mouseY, sqrt, n);
    EaseSettles(g.x, g.originX, n, eps);
    EaseSettles(g.y, g.originY, n, eps);
  }

  /** n easing steps toward a fixed target end within eps of it once n/20 * eps covers
      the initial gap. */
  lemma EaseSettles(pos: real, target: real, n: nat, eps: real)
    requires 0.0 < eps && EaseFactor * (n as real) * eps >= Abs(pos - target)
    ensures Abs(EaseSteps(pos, target, n) - target) <= eps
  {
    EaseStepsGeometric(pos, target, n);
    SettlesWithin(pos - target, eps, n);
  }

  lemma ScaledWithin(p: real, k: real, offset: real, eps: real)
    requires 0.0 <= p && Abs(offset) <= k * eps && 0.0 < eps && p * (1.0 + k) <= 1.0
    ensures Abs(p * offset) <= eps
  {
    AbsOfScaled(p, offset);
    ShrunkWithin(p, k, Abs(offset), eps);
  }

  lemma ShrunkWithin(p: real, k: real, a: real, eps: real)
    requires 0.0 <= p && 0.0 <= a <= k * eps && 0.0 < eps && p * (1.0 + k) <= 1.0
    ensures p * a <= eps
  {
    calc {
      p * a;
    <= { MultiplyMonotone(p, a, k * eps); }
      p * (k * eps);
    <= p * (k * eps) + p * eps;
    == (p * (1.0 + k)) * eps;
    <= { MultiplyMonotone(eps, p * (1.0 + k), 1.0); }
      eps;
    }
  }

  lemma MultiplyMonotone(c: real, a: real, b: real)
    requires 0.0 <= c && a <= b
    ensures c * a <= c * b
  {
    assert c * b - c * a == c * (b - a);
  }

  /** A grid particle as the source keeps it: fields updated in place each frame. */
  class GridParticle {
    var x: real
    var y: real
    const originX: real
    const originY: real
    var distance: real
    var force: real
    var dx: real
    var dy: real

    ghost function State(): GridState
      reads this
    {
      GridState(x, y, originX, originY, distance, force, dx, dy)
    }

    constructor (x0: real, y0: real)
      ensures State() == Rest(x0, y0)
    {
      x, y := x0, y0;
      originX, originY := x0, y0;
      distance, force, dx, dy := 0.0, 0.0, 0.0, 0.0;
    }

    /** Reads the shared pointer and moves one easing step. */
    method Update(mouse: Pointer, sqrt: real -> real)
      modifies this
      ensures State() == GridStep(old(State()), mouse.x, mouse.y, sqrt)
    {
      var ddx := x - mouse.x;
      var ddy := y - mouse.y;
      distance := Length(ddx, ddy, sqrt);
      force := Force(distance);
      var (cos, sin) := Direction(ddx, ddy, distance);
      dx := cos * force;
      dy := sin * force;
      x := Ease(x, originX + dx);
      y := Ease(y, originY + dy);
    }
  }

  /** The snapshots of a list of particles, in list order. */
  ghost function Views(ps: seq<GridParticle>): (s: seq<GridState>)
    reads ps
    ensures |s| == |ps| && forall k :: 0 <= k < |ps| ==> s[k] == ps[k].State()
  {
    seq(|ps|, k requires 0 <= k < |ps| reads ps => ps[k].State())
  }

  /** Every particle of a list updated once against the same pointer. */
  function Steps(s: seq<GridState>, mouseX: real, mouseY: real, sqrt: real -> real): (r: seq<GridState>)
    ensures |r| == |s|
    ensures forall k :: 0 <= k < |s| ==> r[k] == GridStep(s[k], mouseX, mouseY, sqrt)
  {
    seq(|s|, k requires 0 <= k < |s| => GridStep(s[k], mouseX, mouseY, sqrt))
  }

  /** The particles update independently: a frame over a list is the frame over any split
      of it, put back together in the same order. */
  lemma StepsAppend(a: seq<GridState>, b: seq<GridState>, mouseX: real, mouseY: real, sqrt: real -> real)
    ensures Steps(a + b, mouseX, mouseY, sqrt) == Steps(a, mouseX, mouseY, sqrt) + Steps(b, mouseX, mouseY, sqrt)
  {
  }

  /** A frame never moves an origin: the grid keeps the lattice it was laid out on. */
  lemma StepsKeepOrigins(s: seq<GridState>, mouseX: real, mouseY: real, sqrt: real -> real)
    ensures forall k :: 0 <= k < |s| ==>
      Steps(s, mouseX, mouseY, sqrt)[k].originX == s[k].originX &&
      Steps(s, mouseX, mouseY, sqrt)[k].originY == s[k].originY
  {
  }
}
